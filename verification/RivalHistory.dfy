/**
  * The Rival market told from its actions alone: when rounds close, which trades each holds,
  * what each distributes and which claims are paid, compared with what the contracts do.
  */
module RivalHistory {
  import opened Basics
  import opened RivalSums
  import opened RivalLedger
  import opened RivalHook
  import opened RivalRuns

  // ----- the clock ---------------------------------------------------------------------------------

  /** When an action could close a round; a claim cannot. */
  function TimeOf(a: Action): Option<nat> {
    match a
    case Trade(_, _, _, now) => Some(now)
    case Crank(now) => Some(now)
    case Claim(_, _) => None
  }

  /** When the open round started. */
  function StartTime(deployed: nat, closings: seq<nat>): nat { if closings == [] then deployed else Last(closings) }

  /** The times at which rounds close: the first action fifteen minutes or more after the round's start. */
  function Closings(deployed: nat, actions: seq<Action>): seq<nat> {
    if actions == [] then []
    else
      var before, time := Closings(deployed, Front(actions)), TimeOf(Last(actions));
      if time.Some? && time.value >= StartTime(deployed, before) + 900 then before + [time.value] else before
  }

  /** Every trade, in the round that is open once it has closed what it must. */
  function Trades(deployed: nat, actions: seq<Action>): seq<TradeRecord> {
    if actions == [] then []
    else
      var before, last := Trades(deployed, Front(actions)), Last(actions);
      if last.Trade? then before + [TradeRecord(|Closings(deployed, actions)|, last.trader, last.isBuy, last.amount)]
      else before
  }

  lemma ActionMovesTheClock(w: World, a: Action)
    ensures
      var next, time := w.After(a), TimeOf(a);
      var closes := time.Some? && time.value >= w.market.hook.roundStartedAt + 900;
      && next.Open() == w.Open() + (if closes then 1 else 0)
      && next.market.hook.roundStartedAt == (if closes then time.value else w.market.hook.roundStartedAt)
      && next.trades == w.trades + (if a.Trade? then [TradeRecord(next.Open(), a.trader, a.isBuy, a.amount)] else [])
  {
    hide Ledger.Settled, Ledger.Recorded, Ledger.Claimable, Ledger.AfterClaim;
  }

  /** In every run rounds close exactly when their fifteen minutes are up, and hold the trades made in them. */
  lemma {:induction false} RoundsFollowTheClock(deployed: nat, actions: seq<Action>)
    ensures
      var w := Run(Opening(deployed), actions);
      && w.Open() == |Closings(deployed, actions)|
      && w.market.hook.roundStartedAt == StartTime(deployed, Closings(deployed, actions))
      && w.trades == Trades(deployed, actions)
  {
    if actions != [] {
      RoundsFollowTheClock(deployed, Front(actions));
      hide World.After;
      ActionMovesTheClock(Run(Opening(deployed), Front(actions)), Last(actions));
    }
  }

  /** No round is shorter than fifteen minutes. */
  lemma {:induction false} RoundsLastFifteenMinutes(deployed: nat, actions: seq<Action>, i: nat)
    requires i < |Closings(deployed, actions)|
    ensures
      var closings := Closings(deployed, actions);
      closings[i] >= (if i == 0 then deployed else closings[i - 1]) + 900
  {
    if i < |Closings(deployed, Front(actions))| {
      RoundsLastFifteenMinutes(deployed, Front(actions), i);
    }
  }

  // ----- the pots --------------------------------------------------------------------------------------

  /** Half a percent of a trade, rounded down, goes to the round it is made in. */
  lemma ContributionIsHalfAPercent(amount: nat)
    ensures 200 * Contribution(amount) <= amount < 200 * Contribution(amount) + 200
  {
  }

  /** An untraded round leaves its pot, one that buyers won nothing, any other the lower half. */
  function LeftOf(bought: nat, sold: nat, pot: nat): nat {
    if bought == 0 && sold == 0 then pot else if bought > sold then 0 else pot / 2
  }

  /** The upper half of a pot that sellers won. */
  function ReservedOf(bought: nat, sold: nat, pot: nat): nat {
    if bought <= sold && sold > 0 then (pot + 1) / 2 else 0
  }

  /** What a round inherits. */
  function Left(trades: seq<TradeRecord>, round: nat): nat {
    if round == 0 then 0
    else LeftOf(BuyTotal(trades, round - 1), SellTotal(trades, round - 1),
                PoolTotal(trades, round - 1) + Left(trades, round - 1))
  }

  /** What a round closes with: its own contributions, and what the one before left for it. */
  function Pot(trades: seq<TradeRecord>, round: nat): nat { PoolTotal(trades, round) + Left(trades, round) }

  /** What all rounds before this one set aside for buybacks. */
  function Reserved(trades: seq<TradeRecord>, round: nat): nat {
    if round == 0 then 0
    else Reserved(trades, round - 1)
         + ReservedOf(BuyTotal(trades, round - 1), SellTotal(trades, round - 1), Pot(trades, round - 1))
  }

  lemma LeftStep(trades: seq<TradeRecord>, round: nat)
    ensures Left(trades, round + 1) == LeftOf(BuyTotal(trades, round), SellTotal(trades, round), Pot(trades, round))
    ensures Reserved(trades, round + 1)
            == Reserved(trades, round) + ReservedOf(BuyTotal(trades, round), SellTotal(trades, round), Pot(trades, round))
  {
    hide BuyTotal, SellTotal, PoolTotal, LeftOf, ReservedOf;
  }

  lemma RecordedRound(w: World, round: nat)
    requires RecordsTrades(w)
    ensures w.Ledger().RoundAt(round).buyVolume == BuyTotal(w.trades, round)
    ensures w.Ledger().RoundAt(round).sellVolume == SellTotal(w.trades, round)
    ensures w.Ledger().RoundAt(round).pool == PoolTotal(w.trades, round)
  {
    hide BuyTotal, SellTotal, PoolTotal, Ledger.RoundAt, Ledger.Bought, Ledger.TotalBought;
  }

  lemma CarriedByVolumes(l: Ledger, round: nat)
    ensures
      var bought, sold := l.RoundAt(round).buyVolume, l.RoundAt(round).sellVolume;
      var pot := l.RoundAt(round).pool + CarriedInto(l, round);
      && CarriedInto(l, round + 1) == LeftOf(bought, sold, pot)
      && SetAside(l, round + 1) == SetAside(l, round) + ReservedOf(bought, sold, pot)
  {
    hide Ledger.RoundAt;
  }

  lemma NothingLeftYet(l: Ledger, trades: seq<TradeRecord>)
    ensures CarriedInto(l, 0) == Left(trades, 0) && SetAside(l, 0) == Reserved(trades, 0)
  {
  }

  lemma {:induction false} LedgerCarriesWhatIsLeft(w: World, round: nat)
    requires RecordsTrades(w)
    ensures CarriedInto(w.Ledger(), round) == Left(w.trades, round)
    ensures SetAside(w.Ledger(), round) == Reserved(w.trades, round)
  {
    hide BuyTotal, SellTotal, PoolTotal, CarriedInto, SetAside, Left, Reserved, LeftOf, ReservedOf, Ledger.RoundAt, RecordsTrades;
    if round == 0 {
      NothingLeftYet(w.Ledger(), w.trades);
    } else {
      LedgerCarriesWhatIsLeft(w, round - 1);
      RecordedRound(w, round - 1);
      CarriedByVolumes(w.Ledger(), round - 1);
      LeftStep(w.trades, round - 1);
    }
  }

  /** In every run the ledger carries, reserves and distributes what the trades say. */
  lemma {:induction false} PotsFollowTheTrades(deployed: nat, actions: seq<Action>, round: nat)
    ensures
      var l, trades, open := Run(Opening(deployed), actions).Ledger(), Trades(deployed, actions), |Closings(deployed, actions)|;
      && l.carriedOver == Left(trades, open) && l.buybackReserve == Reserved(trades, open)
      && l.RoundAt(round).distributable
         == if round < open && BuyTotal(trades, round) > SellTotal(trades, round) then Pot(trades, round) else 0
  {
    var w := Run(Opening(deployed), actions);
    RoundsFollowTheClock(deployed, actions);
    EveryRunKeeps(deployed, actions);
    LedgerCarriesWhatIsLeft(w, w.Open());
    LedgerCarriesWhatIsLeft(w, round);
    hide Run, Closings, Trades, BuyTotal, SellTotal, PoolTotal, Left, Reserved, CarriedInto, SetAside, FlagsPayouts, PaysShares,
         StreakReflects, Distributed, Contributed;
  }

  // ----- claims ------------------------------------------------------------------------------------------

  predicate Paid(payouts: seq<Payout>, round: nat, wallet: Wallet) {
    exists p | p in payouts :: p.round == round && p.wallet == wallet
  }

  lemma {:induction false} PaidMeansClaimed(payouts: seq<Payout>, round: nat, wallet: Wallet)
    ensures wallet in ClaimedIn(payouts, round) <==> Paid(payouts, round, wallet)
  {
    if payouts != [] {
      var front, last := payouts[..|payouts| - 1], payouts[|payouts| - 1];
      PaidMeansClaimed(front, round, wallet);
      assert forall p :: p in payouts <==> p in front || p == last;
    }
  }

  /** A wallet's part of the pot of a round that is over and that buyers won, by what it bought, rounded down. */
  function Winnings(deployed: nat, actions: seq<Action>, round: nat, wallet: Wallet): nat {
    var trades := Trades(deployed, actions);
    if round < |Closings(deployed, actions)| && BuyTotal(trades, round) > SellTotal(trades, round) then
      Share(Pot(trades, round), WalletTotal(trades, round, wallet), BuyTotal(trades, round))
    else 0
  }

  lemma OwedIsWinnings(deployed: nat, actions: seq<Action>, round: nat, wallet: Wallet)
    ensures
      var w := Run(Opening(deployed), actions);
      && (w.Ledger().RoundAt(round).settled <==> round < |Closings(deployed, actions)|)
      && w.Ledger().Owed(round, wallet)
         == (if Paid(w.payouts, round, wallet) then 0 else Winnings(deployed, actions, round, wallet))
      && ((round, wallet) in w.Ledger().claimed <==> Paid(w.payouts, round, wallet))
  {
    var w := Run(Opening(deployed), actions);
    RoundsFollowTheClock(deployed, actions);
    EveryRunKeeps(deployed, actions);
    PaidMeansClaimed(w.payouts, round, wallet);
    PotsFollowTheTrades(deployed, actions, round);
    RoundsAreDecidedByTheirTrades(deployed, actions, round);
    hide Run, Closings, Trades, BuyTotal, SellTotal, WalletTotal, Pot, Paid, ClaimedIn, PaysShares, SettlesInOrder,
         AccountsForPools, StreakReflects, Ledger.Bought, Ledger.RoundAt, Ledger.TotalBought;
  }

  /**
    * In every run a claim is paid if and only if its round is over and buyers won it, the wallet's
    * winnings are positive, and it has not been paid for that round; it is paid its winnings then.
    * Otherwise nothing is, for the first of three reasons.
    */
  lemma {:induction false} ClaimsArePaidIff(deployed: nat, actions: seq<Action>, round: nat, wallet: Wallet)
    ensures
      var before, after := Run(Opening(deployed), actions).payouts, Run(Opening(deployed), actions + [Claim(round, wallet)]).payouts;
      var winnings := Winnings(deployed, actions, round, wallet);
      after == if !Paid(before, round, wallet) && winnings > 0 then before + [Payout(round, wallet, winnings)] else before
    ensures
      var w := Run(Opening(deployed), actions);
      w.Ledger().Claimable(round, wallet)
      == if round >= |Closings(deployed, actions)| then Err(RoundNotSettled)
         else if Paid(w.payouts, round, wallet) then Err(AlreadyClaimed)
         else if Winnings(deployed, actions, round, wallet) == 0 then Err(NothingOwed)
         else Ok(Winnings(deployed, actions, round, wallet))
  {
    var longer := actions + [Claim(round, wallet)];
    assert longer[..|longer| - 1] == actions;
    OwedIsWinnings(deployed, actions, round, wallet);
    hide Paid, Ledger.Owed, Winnings;
  }

  // ----- fees ----------------------------------------------------------------------------------------------

  function Winner(trades: seq<TradeRecord>, round: nat): int {
    var bought, sold := BuyTotal(trades, round), SellTotal(trades, round);
    if bought == 0 && sold == 0 then 0 else if bought > sold then 1 else 2
  }

  /** In every run a trade of the open round pays half exactly when its side has just won a multiple of three in a row. */
  lemma {:induction false} FeesFollowTheTrades(deployed: nat, actions: seq<Action>, isBuy: bool)
    ensures
      var trades, open := Trades(deployed, actions), |Closings(deployed, actions)|;
      var winners, fee := seq(open, r requires 0 <= r < open => Winner(trades, r)), Run(Opening(deployed), actions).market.hook.FeeFor(isBuy);
      fee == if winners != [] && Last(winners) == (if isBuy then 1 else 2) && WinningRun(winners) % 3 == 0 then 5000 else 10000
  {
    var w := Run(Opening(deployed), actions);
    RoundsFollowTheClock(deployed, actions);
    MomentumFollowsHistory(deployed, actions, isBuy);
    var trades, open := Trades(deployed, actions), |Closings(deployed, actions)|;
    var winners := seq(open, r requires 0 <= r < open => Winner(trades, r));
    hide Run, Closings, Trades, BuyTotal, SellTotal, WinningRun, StreakReflects, Ledger.RoundAt;
    forall r: nat | r < open ensures w.winners[r] == winners[r] {
      RoundsAreDecidedByTheirTrades(deployed, actions, r);
    }
    assert w.winners == winners;
  }
}
