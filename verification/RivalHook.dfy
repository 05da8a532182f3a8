/**
  * The round clock, the streak and the fee: the RivalHook contract embedded in
  * apps/agen/scripts/seed-rival.ts.
  */
module RivalHook {
  import opened RivalLedger

  const ROUND_LENGTH: nat := 900
  const BASE_FEE_PPM: nat := 10000
  const CONTRIBUTION_PPM: nat := 5000
  const STREAK_TO_ARM: nat := 3

  function Contribution(amount: nat): nat { amount * CONTRIBUTION_PPM / 1000000 }

  datatype Hook = Hook(currentRound: nat, roundStartedAt: nat, streakSide: int, streakLength: nat, momentumSide: int) {

    function FeeFor(isBuy: bool): nat {
      var side := if isBuy then BUYERS else SELLERS;
      if momentumSide != NOBODY && momentumSide == side then BASE_FEE_PPM / 2 else BASE_FEE_PPM
    }

    predicate Due(now: nat) { now >= roundStartedAt + ROUND_LENGTH }

    /** The streak after a round, before it is tested. */
    function Streak(winner: int): (int, nat) {
      if winner == NOBODY then (NOBODY, 0)
      else if winner == streakSide then (streakSide, streakLength + 1)
      else (winner, 1)
    }

    /** The hook once a round has been won and the next one opened. */
    function NextRound(winner: int, now: nat): Hook {
      var (side, length) := Streak(winner);
      if length >= STREAK_TO_ARM then Hook(currentRound + 1, now, NOBODY, 0, side)
      else Hook(currentRound + 1, now, side, length, NOBODY)
    }
  }

  /** The two contracts together. */
  datatype Market = Market(ledger: Ledger, hook: Hook) {

    function SettledIfDue(now: nat): Market {
      if !hook.Due(now) then this
      else
        var settled := ledger.Settled(hook.currentRound);
        Market(settled, hook.NextRound(settled.RoundAt(hook.currentRound).winner, now))
    }

    function Traded(trader: Wallet, isBuy: bool, amount: nat, now: nat): Market {
      var market := SettledIfDue(now);
      market.(ledger := market.ledger.Recorded(market.hook.currentRound, trader, isBuy, amount, Contribution(amount)))
    }
  }

  function Deployed(now: nat): Market { Market(FRESH, Hook(0, now, NOBODY, 0, NOBODY)) }

  class RivalHookContract {
    const accounting: RivalRounds
    var currentRound: nat
    var roundStartedAt: nat
    var streakSide: int
    var streakLength: nat
    var momentumSide: int

    function State(): Hook
      reads this
    {
      Hook(currentRound, roundStartedAt, streakSide, streakLength, momentumSide)
    }

    function Both(): Market
      reads this, accounting
    {
      Market(accounting.State(), State())
    }

    constructor (accounting: RivalRounds, now: nat)
      ensures this.accounting == accounting
      ensures State() == Hook(0, now, NOBODY, 0, NOBODY)
      ensures accounting.State() == FRESH ==> Both() == Deployed(now)
    {
      this.accounting := accounting;
      currentRound, roundStartedAt, streakSide, streakLength, momentumSide := 0, now, NOBODY, 0, NOBODY;
    }

    /** Nothing happens until the round has lasted its length. */
    method SettleIfDue(now: nat)
      modifies this, accounting
      ensures Both() == old(Both()).SettledIfDue(now)
    {
      if now < roundStartedAt + ROUND_LENGTH { return; }

      var winner := accounting.Settle(currentRound);

      if momentumSide != NOBODY {
        momentumSide := NOBODY;
      }

      if winner == NOBODY {
        streakSide := NOBODY;
        streakLength := 0;
      } else if winner == streakSide {
        streakLength := streakLength + 1;
      } else {
        streakSide := winner;
        streakLength := 1;
      }

      if streakLength >= STREAK_TO_ARM {
        momentumSide := streakSide;
        streakSide := NOBODY;
        streakLength := 0;
      }

      currentRound := currentRound + 1;
      roundStartedAt := now;
    }

    /** A trade first settles what is due, so it is recorded and charged in the round then open. */
    method OnTrade(trader: Wallet, isBuy: bool, amount: nat, now: nat) returns (feePpm: nat)
      modifies this, accounting
      ensures Both() == old(Both()).Traded(trader, isBuy, amount, now)
      ensures feePpm == State().FeeFor(isBuy)
    {
      SettleIfDue(now);
      feePpm := State().FeeFor(isBuy);
      var contribution := amount * CONTRIBUTION_PPM / 1000000;
      accounting.Record(currentRound, trader, isBuy, amount, contribution);
    }
  }

  // ----- streaks, by the history of winners --------------------------------------------------

  /** How many of the last rounds in a row the latest winner has won. */
  function WinningRun(winners: seq<int>): nat {
    if winners == [] || winners[|winners| - 1] == NOBODY then 0
    else
      var front := winners[..|winners| - 1];
      if front != [] && front[|front| - 1] == winners[|winners| - 1] then WinningRun(front) + 1 else 1
  }

  /** It is the longest stretch of rounds, ending now, that one side has won. */
  lemma {:induction false} WinningRunIsMaximal(winners: seq<int>)
    requires winners != []
    ensures
      var n, run, last := |winners|, WinningRun(winners), winners[|winners| - 1];
      && run <= n && (run == 0 <==> last == NOBODY)
      && (forall i | n - run <= i < n :: winners[i] == last)
      && (0 < run < n ==> winners[n - run - 1] != last)
  {
    var front := winners[..|winners| - 1];
    if front != [] {
      WinningRunIsMaximal(front);
    }
  }

  /** What the streak fields say about a history of winners. */
  predicate StreakReflects(hook: Hook, winners: seq<int>) {
    var run := WinningRun(winners);
    var last := if winners == [] then NOBODY else winners[|winners| - 1];
    && hook.streakLength == run % STREAK_TO_ARM
    && hook.streakSide == (if run % STREAK_TO_ARM == 0 then NOBODY else last)
    && hook.momentumSide == (if run > 0 && run % STREAK_TO_ARM == 0 then last else NOBODY)
  }

  /** One more round keeps them saying it. */
  lemma StreakStep(hook: Hook, winners: seq<int>, winner: int, now: nat)
    requires StreakReflects(hook, winners)
    ensures StreakReflects(hook.NextRound(winner, now), winners + [winner])
  {
    var longer := winners + [winner];
    assert longer[..|longer| - 1] == winners;
  }

  /** A side pays half the fee exactly in the round after every third of its wins in a row. */
  lemma HalfFeeAfterEveryThirdWin(hook: Hook, winners: seq<int>, isBuy: bool)
    requires StreakReflects(hook, winners)
    ensures hook.FeeFor(isBuy) == BASE_FEE_PPM / 2 <==>
              && winners != [] && winners[|winners| - 1] == (if isBuy then BUYERS else SELLERS)
              && WinningRun(winners) % STREAK_TO_ARM == 0
    ensures hook.FeeFor(isBuy) == BASE_FEE_PPM / 2 || hook.FeeFor(isBuy) == BASE_FEE_PPM
  {
    if winners != [] {
      WinningRunIsMaximal(winners);
    }
  }
}
