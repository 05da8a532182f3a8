/**
  * Whole runs of the Rival market: any sequence of trades, cranks and claims, at any times.
  *
  * A run carries its own history, so that what the contracts store can be compared with
  * what actually happened.
  */
module RivalRuns {
  import opened RivalSums
  import opened SetSums
  import opened RivalLedger
  import opened RivalHook

  datatype Action =
    | Trade(trader: Wallet, isBuy: bool, amount: nat, now: nat)
    | Crank(now: nat)
    | Claim(round: nat, sender: Wallet)

  datatype TradeRecord = TradeRecord(round: nat, wallet: Wallet, isBuy: bool, amount: nat)

  datatype Payout = Payout(round: nat, wallet: Wallet, amount: nat)

  /** The contracts, and what has happened to them. */
  datatype World = World(market: Market, winners: seq<int>, trades: seq<TradeRecord>, payouts: seq<Payout>) {

    function Ledger(): Ledger { market.ledger }

    function Open(): nat { market.hook.currentRound }

    /** The winners list grows by one whenever a round is closed. */
    function Closing(now: nat): World {
      var next := market.SettledIfDue(now);
      if market.hook.Due(now) then
        this.(market := next, winners := winners + [next.ledger.RoundAt(Open()).winner])
      else this
    }

    function After(action: Action): World {
      match action
      case Crank(now) => Closing(now)
      case Trade(trader, isBuy, amount, now) =>
        var w := Closing(now);
        w.(market := market.Traded(trader, isBuy, amount, now),
           trades := trades + [TradeRecord(w.Open(), trader, isBuy, amount)])
      case Claim(round, sender) =>
        var result := Ledger().Claimable(round, sender);
        if result.Ok? then
          this.(market := market.(ledger := Ledger().AfterClaim(round, sender)),
                payouts := payouts + [Payout(round, sender, result.value)])
        else this
    }
  }

  function Run(start: World, actions: seq<Action>): World {
    if actions == [] then start else Run(start, actions[..|actions| - 1]).After(actions[|actions| - 1])
  }

  function Opening(now: nat): World { World(Deployed(now), [], [], []) }

  /** Recording the last trade after the rounds it had to close. */
  lemma TradeIsCloseThenRecord(w: World, trader: Wallet, isBuy: bool, amount: nat, now: nat)
    ensures
      var c := w.Closing(now);
      w.After(Trade(trader, isBuy, amount, now))
      == c.(market := c.market.(ledger := c.Ledger().Recorded(c.Open(), trader, isBuy, amount, Contribution(amount))),
            trades := c.trades + [TradeRecord(c.Open(), trader, isBuy, amount)])
  {
  }

  // ----- totals of the history ----------------------------------------------------------------

  function BuyTotal(trades: seq<TradeRecord>, round: nat): nat {
    if trades == [] then 0
    else
      var last := trades[|trades| - 1];
      BuyTotal(trades[..|trades| - 1], round) + if last.round == round && last.isBuy then last.amount else 0
  }

  function SellTotal(trades: seq<TradeRecord>, round: nat): nat {
    if trades == [] then 0
    else
      var last := trades[|trades| - 1];
      SellTotal(trades[..|trades| - 1], round) + if last.round == round && !last.isBuy then last.amount else 0
  }

  function WalletTotal(trades: seq<TradeRecord>, round: nat, wallet: Wallet): nat {
    if trades == [] then 0
    else
      var last := trades[|trades| - 1];
      WalletTotal(trades[..|trades| - 1], round, wallet)
      + if last.round == round && last.isBuy && last.wallet == wallet then last.amount else 0
  }

  function PoolTotal(trades: seq<TradeRecord>, round: nat): nat {
    if trades == [] then 0
    else
      var last := trades[|trades| - 1];
      PoolTotal(trades[..|trades| - 1], round) + if last.round == round then Contribution(last.amount) else 0
  }

  /** Every contribution ever made. */
  function Contributed(trades: seq<TradeRecord>): nat {
    if trades == [] then 0
    else Contributed(trades[..|trades| - 1]) + Contribution(trades[|trades| - 1].amount)
  }

  lemma {:induction false} NothingYet(trades: seq<TradeRecord>, round: nat)
    requires forall i | 0 <= i < |trades| :: trades[i].round < round
    ensures BuyTotal(trades, round) == SellTotal(trades, round) == PoolTotal(trades, round) == 0
  {
    if trades != [] {
      NothingYet(trades[..|trades| - 1], round);
    }
  }

  /** The pool a round closes with: its own contributions and what was carried into it. */
  function CarriedInto(l: Ledger, round: nat): nat {
    if round == 0 then 0
    else
      var total := l.RoundAt(round - 1).pool + CarriedInto(l, round - 1);
      var winner := l.Decide(round - 1);
      if winner == NOBODY then total else if winner == BUYERS then 0 else total / 2
  }

  /** What earlier rounds have set aside for buybacks. */
  function SetAside(l: Ledger, round: nat): nat {
    if round == 0 then 0
    else
      var total := l.RoundAt(round - 1).pool + CarriedInto(l, round - 1);
      SetAside(l, round - 1) + if l.Decide(round - 1) == SELLERS then total - total / 2 else 0
  }

  function Distributed(l: Ledger, round: nat): nat {
    if round == 0 then 0 else Distributed(l, round - 1) + l.RoundAt(round - 1).distributable
  }

  lemma {:induction false} OnlyPastRoundsMatter(l: Ledger, m: Ledger, round: nat)
    requires forall r: nat | r < round :: l.RoundAt(r).buyVolume == m.RoundAt(r).buyVolume
                                  && l.RoundAt(r).sellVolume == m.RoundAt(r).sellVolume
                                  && l.RoundAt(r).pool == m.RoundAt(r).pool
    ensures CarriedInto(l, round) == CarriedInto(m, round) && SetAside(l, round) == SetAside(m, round)
  {
    if round > 0 {
      OnlyPastRoundsMatter(l, m, round - 1);
    }
  }

  lemma {:induction false} SameDistributed(l: Ledger, m: Ledger, round: nat)
    requires forall r: nat | r < round :: l.RoundAt(r).distributable == m.RoundAt(r).distributable
    ensures Distributed(l, round) == Distributed(m, round)
  {
    if round > 0 {
      SameDistributed(l, m, round - 1);
    }
  }

  // ----- what every run keeps ------------------------------------------------------------------

  /** The ledger's volumes, pools and holdings are the totals of the trades. */
  ghost predicate RecordsTrades(w: World) {
    && (forall i | 0 <= i < |w.trades| :: w.trades[i].round <= w.Open())
    && (forall r: nat ::
          && w.Ledger().RoundAt(r).buyVolume == BuyTotal(w.trades, r)
          && w.Ledger().RoundAt(r).sellVolume == SellTotal(w.trades, r)
          && w.Ledger().RoundAt(r).pool == PoolTotal(w.trades, r))
    && (forall r: nat, wallet: nat :: w.Ledger().Bought(r, wallet) == WalletTotal(w.trades, r, wallet))
    && (forall r: nat :: w.Ledger().TotalBought(r) == w.Ledger().RoundAt(r).buyVolume)
  }

  /** A round is settled exactly when it is over, and settled as its volumes decide. */
  ghost predicate SettlesInOrder(w: World) {
    && |w.winners| == w.Open()
    && (forall r: nat :: w.Ledger().RoundAt(r).settled <==> r < w.Open())
    && (forall r: nat | r < w.Open() ::
          && w.winners[r] == w.Ledger().RoundAt(r).winner == w.Ledger().Decide(r)
          && w.Ledger().RoundAt(r).distributable
             == (if w.winners[r] == BUYERS then w.Ledger().RoundAt(r).pool + CarriedInto(w.Ledger(), r) else 0))
    && (forall r: nat | w.Open() <= r :: w.Ledger().RoundAt(r).winner == NOBODY && w.Ledger().RoundAt(r).distributable == 0)
  }

  /** Contributions are carried, set aside, distributed, or still in the open round's pool. */
  ghost predicate Balanced(l: Ledger, open: nat, contributed: nat) {
    && l.carriedOver == CarriedInto(l, open)
    && l.buybackReserve == SetAside(l, open)
    && contributed == l.carriedOver + l.buybackReserve + Distributed(l, open) + l.RoundAt(open).pool
  }

  ghost predicate AccountsForPools(w: World) {
    Balanced(w.Ledger(), w.Open(), Contributed(w.trades))
  }

  /** A share of a settled round. */
  function ShareOf(l: Ledger, round: nat, wallet: Wallet): nat {
    var current := l.RoundAt(round);
    if current.winner == BUYERS && current.buyVolume > 0 then
      Share(current.distributable, l.Bought(round, wallet), current.buyVolume)
    else 0
  }

  function Sharing(l: Ledger, round: nat): nat -> nat { (w: nat) => ShareOf(l, round, w) }

  /** What a set of wallets may withdraw from a round between them. */
  ghost function SharesTo(l: Ledger, round: nat, wallets: set<Wallet>): nat { SumOver(wallets, Sharing(l, round)) }

  lemma SameShares(l: Ledger, m: Ledger, round: nat, wallets: set<Wallet>)
    requires forall wallet | wallet in wallets :: ShareOf(l, round, wallet) == ShareOf(m, round, wallet)
    ensures SharesTo(l, round, wallets) == SharesTo(m, round, wallets)
  {
    SumOverAgrees(wallets, Sharing(l, round), Sharing(m, round));
  }

  function ClaimedIn(payouts: seq<Payout>, round: nat): set<Wallet> {
    if payouts == [] then {}
    else
      var last := payouts[|payouts| - 1];
      ClaimedIn(payouts[..|payouts| - 1], round) + if last.round == round then {last.wallet} else {}
  }

  function PaidOut(payouts: seq<Payout>, round: nat): nat {
    if payouts == [] then 0
    else
      var last := payouts[|payouts| - 1];
      PaidOut(payouts[..|payouts| - 1], round) + if last.round == round then last.amount else 0
  }

  /** The claimed flags are the payouts, all to buyers of rounds that are over. */
  ghost predicate FlagsPayouts(w: World) {
    && (forall r: nat, wallet: nat :: (r, wallet) in w.Ledger().claimed <==> wallet in ClaimedIn(w.payouts, r))
    && (forall r: nat, wallet: nat | (r, wallet) in w.Ledger().claimed :: r < w.Open() && wallet in w.Ledger().Buyers(r))
  }

  /** Each wallet is paid at most once a round, and exactly its share. */
  ghost predicate PaysShares(w: World) {
    forall r: nat :: PaidOut(w.payouts, r) == SharesTo(w.Ledger(), r, ClaimedIn(w.payouts, r))
  }

  ghost predicate Inv(w: World) {
    && RecordsTrades(w) && SettlesInOrder(w) && AccountsForPools(w) && FlagsPayouts(w) && PaysShares(w)
    && StreakReflects(w.market.hook, w.winners)
  }

  // ----- closing a round -------------------------------------------------------------------------

  lemma SettledFacts(l: Ledger, round: nat)
    requires !l.RoundAt(round).settled
    ensures
      var m, closed, pool := l.Settled(round), l.Settled(round).RoundAt(round), l.RoundAt(round).pool + l.carriedOver;
      && (forall r: nat | r != round :: m.RoundAt(r) == l.RoundAt(r))
      && closed.settled && closed.winner == l.Decide(round)
      && closed.buyVolume == l.RoundAt(round).buyVolume && closed.sellVolume == l.RoundAt(round).sellVolume
      && closed.pool == l.RoundAt(round).pool
      && closed.distributable == (if l.Decide(round) == BUYERS then pool else l.RoundAt(round).distributable)
      && m.carriedOver == (if l.Decide(round) == NOBODY then pool else if l.Decide(round) == BUYERS then 0 else pool / 2)
      && m.buybackReserve == l.buybackReserve + (if l.Decide(round) == SELLERS then pool - pool / 2 else 0)
      && m.bought == l.bought && m.claimed == l.claimed
      && (forall r: nat :: m.Decide(r) == l.Decide(r) && m.Buyers(r) == l.Buyers(r) && m.TotalBought(r) == l.TotalBought(r))
      && (forall r: nat, wallet: nat :: m.Bought(r, wallet) == l.Bought(r, wallet))
  {
    var m := l.Settled(round);
    forall r: nat ensures m.TotalBought(r) == l.TotalBought(r) {
      SumOverAgrees(l.Buyers(r).Keys, l.Holdings(r), m.Holdings(r));
    }
  }

  lemma CloseRecords(w: World, now: nat)
    requires RecordsTrades(w) && w.market.hook.Due(now) && !w.Ledger().RoundAt(w.Open()).settled
    ensures RecordsTrades(w.Closing(now))
  {
    SettledFacts(w.Ledger(), w.Open());
    hide Ledger.Settled, Ledger.TotalBought, Ledger.Bought, Ledger.Decide;
  }

  /** Closing settles the open round and appends its winner. */
  lemma ClosingShape(w: World, now: nat)
    requires w.market.hook.Due(now) && !w.Ledger().RoundAt(w.Open()).settled
    ensures
      var c := w.Closing(now);
      && c.Ledger() == w.Ledger().Settled(w.Open()) && c.Open() == w.Open() + 1
      && c.winners == w.winners + [w.Ledger().Decide(w.Open())]
  {
    SettledFacts(w.Ledger(), w.Open());
  }

  lemma CloseSettles(w: World, now: nat)
    requires SettlesInOrder(w) && AccountsForPools(w) && w.market.hook.Due(now)
    ensures SettlesInOrder(w.Closing(now))
  {
    var carried := w.Ledger().carriedOver;
    assert carried == CarriedInto(w.Ledger(), w.Open());
    hide Ledger.Settled, Ledger.TotalBought, Ledger.Bought, Ledger.Buyers, Ledger.Decide, Ledger.RoundAt;
    hide CarriedInto, AccountsForPools, World.Closing;
    var c, open := w.Closing(now), w.Open();
    ClosingShape(w, now);
    SettledFacts(w.Ledger(), open);
    forall r: nat | r <= open ensures CarriedInto(c.Ledger(), r) == CarriedInto(w.Ledger(), r) {
      OnlyPastRoundsMatter(w.Ledger(), c.Ledger(), r);
    }
  }

  lemma SettleBalances(l: Ledger, round: nat, contributed: nat)
    requires Balanced(l, round, contributed) && !l.RoundAt(round).settled
    requires l.RoundAt(round).distributable == 0 && l.RoundAt(round + 1).pool == 0
    ensures Balanced(l.Settled(round), round + 1, contributed)
  {
    var m := l.Settled(round);
    SettledFacts(l, round);
    OnlyPastRoundsMatter(l, m, round);
    SameDistributed(l, m, round);
    CarryOn(m, round);
    hide Ledger.Settled, Ledger.TotalBought, Ledger.Bought, Ledger.Decide, CarriedInto, SetAside, Distributed;
  }

  lemma CloseAccounts(w: World, now: nat)
    requires RecordsTrades(w) && SettlesInOrder(w) && AccountsForPools(w) && w.market.hook.Due(now)
    ensures AccountsForPools(w.Closing(now))
  {
    assert w.Ledger().RoundAt(w.Open() + 1).pool == 0 by {
      NothingYet(w.trades, w.Open() + 1);
    }
    hide RecordsTrades, Balanced;
    SettleBalances(w.Ledger(), w.Open(), Contributed(w.trades));
  }

  lemma CarryOn(l: Ledger, round: nat)
    ensures
      var total, winner := l.RoundAt(round).pool + CarriedInto(l, round), l.Decide(round);
      && CarriedInto(l, round + 1) == (if winner == NOBODY then total else if winner == BUYERS then 0 else total / 2)
      && SetAside(l, round + 1) == SetAside(l, round) + (if winner == SELLERS then total - total / 2 else 0)
      && Distributed(l, round + 1) == Distributed(l, round) + l.RoundAt(round).distributable
  {
  }

  lemma CloseFlags(w: World, now: nat)
    requires SettlesInOrder(w) && FlagsPayouts(w) && w.market.hook.Due(now)
    ensures FlagsPayouts(w.Closing(now))
  {
    SettledFacts(w.Ledger(), w.Open());
    hide Ledger.Settled, Ledger.TotalBought, Ledger.Bought, Ledger.Decide, Ledger.Buyers, ClaimedIn;
  }

  lemma ClosePays(w: World, now: nat)
    requires SettlesInOrder(w) && FlagsPayouts(w) && PaysShares(w) && w.market.hook.Due(now)
    ensures PaysShares(w.Closing(now))
  {
    var c, open := w.Closing(now), w.Open();
    assert c.payouts == w.payouts && c.Ledger() == w.Ledger().Settled(open);
    SettledFacts(w.Ledger(), open);
    hide World.Closing, Ledger.Settled, Ledger.TotalBought, Ledger.Bought, Ledger.Decide, SharesTo, ClaimedIn, PaidOut;
    forall r: nat ensures PaidOut(c.payouts, r) == SharesTo(c.Ledger(), r, ClaimedIn(c.payouts, r)) {
      forall wallet | wallet in ClaimedIn(w.payouts, r)
        ensures ShareOf(c.Ledger(), r, wallet) == ShareOf(w.Ledger(), r, wallet)
      {
        assert (r, wallet) in w.Ledger().claimed;
      }
      SameShares(w.Ledger(), c.Ledger(), r, ClaimedIn(w.payouts, r));
    }
  }

  lemma CloseKeeps(w: World, now: nat)
    requires Inv(w)
    ensures Inv(w.Closing(now))
  {
    if w.market.hook.Due(now) {
      SettledFacts(w.Ledger(), w.Open());
      StreakStep(w.market.hook, w.winners, w.Ledger().Decide(w.Open()), now);
      CloseRecords(w, now);
      CloseSettles(w, now);
      CloseAccounts(w, now);
      CloseFlags(w, now);
      ClosePays(w, now);
    }
  }

  // ----- recording a trade ---------------------------------------------------------------------------

  ghost function Recording(w: World, trader: Wallet, isBuy: bool, amount: nat): World {
    w.(market := w.market.(ledger := w.Ledger().Recorded(w.Open(), trader, isBuy, amount, Contribution(amount))),
       trades := w.trades + [TradeRecord(w.Open(), trader, isBuy, amount)])
  }

  lemma RecordedFacts(l: Ledger, round: nat, trader: Wallet, isBuy: bool, amount: nat, contribution: nat)
    ensures
      var m := l.Recorded(round, trader, isBuy, amount, contribution);
      && (forall r: nat | r != round :: m.RoundAt(r) == l.RoundAt(r) && m.Buyers(r) == l.Buyers(r) && m.Decide(r) == l.Decide(r))
      && m.RoundAt(round) == l.RoundAt(round).(buyVolume := l.RoundAt(round).buyVolume + (if isBuy then amount else 0),
                                               sellVolume := l.RoundAt(round).sellVolume + (if isBuy then 0 else amount),
                                               pool := l.RoundAt(round).pool + contribution)
      && m.carriedOver == l.carriedOver && m.buybackReserve == l.buybackReserve && m.claimed == l.claimed
      && (forall r: nat, wallet: nat :: m.Bought(r, wallet)
            == l.Bought(r, wallet) + (if r == round && isBuy && wallet == trader then amount else 0))
      && (forall r: nat :: l.Buyers(r).Keys <= m.Buyers(r).Keys)
  {
  }

  lemma RecordedTotals(l: Ledger, round: nat, trader: Wallet, isBuy: bool, amount: nat, contribution: nat)
    requires forall r: nat :: l.TotalBought(r) == l.RoundAt(r).buyVolume
    ensures forall r: nat :: l.Recorded(round, trader, isBuy, amount, contribution).TotalBought(r)
                             == l.Recorded(round, trader, isBuy, amount, contribution).RoundAt(r).buyVolume
  {
    hide Ledger.Recorded;
    var m := l.Recorded(round, trader, isBuy, amount, contribution);
    RecordedFacts(l, round, trader, isBuy, amount, contribution);
    RecordingAddsUp(l, round, trader, isBuy, amount, contribution);
    forall r: nat | r != round ensures m.TotalBought(r) == l.TotalBought(r) {
      SumOverAgrees(l.Buyers(r).Keys, l.Holdings(r), m.Holdings(r));
    }
  }

  lemma RecordRecords(w: World, trader: Wallet, isBuy: bool, amount: nat)
    requires RecordsTrades(w)
    ensures RecordsTrades(Recording(w, trader, isBuy, amount))
  {
    hide Ledger.Recorded, Ledger.Bought, Ledger.TotalBought, Ledger.RoundAt, Ledger.Buyers, Contribution;
    var m := Recording(w, trader, isBuy, amount);
    RecordedFacts(w.Ledger(), w.Open(), trader, isBuy, amount, Contribution(amount));
    RecordedTotals(w.Ledger(), w.Open(), trader, isBuy, amount, Contribution(amount));
    assert m.trades[..|m.trades| - 1] == w.trades;
  }

  lemma RecordSettles(w: World, trader: Wallet, isBuy: bool, amount: nat)
    requires SettlesInOrder(w)
    ensures SettlesInOrder(Recording(w, trader, isBuy, amount))
  {
    var m := Recording(w, trader, isBuy, amount);
    RecordedFacts(w.Ledger(), w.Open(), trader, isBuy, amount, Contribution(amount));
    forall r: nat | r <= w.Open() ensures CarriedInto(m.Ledger(), r) == CarriedInto(w.Ledger(), r) {
      OnlyPastRoundsMatter(w.Ledger(), m.Ledger(), r);
    }
    hide Ledger.Recorded, Ledger.Bought, Contribution, CarriedInto;
  }

  lemma RecordAccounts(w: World, trader: Wallet, isBuy: bool, amount: nat)
    requires AccountsForPools(w)
    ensures AccountsForPools(Recording(w, trader, isBuy, amount))
  {
    var m := Recording(w, trader, isBuy, amount);
    RecordedFacts(w.Ledger(), w.Open(), trader, isBuy, amount, Contribution(amount));
    OnlyPastRoundsMatter(w.Ledger(), m.Ledger(), w.Open());
    SameDistributed(w.Ledger(), m.Ledger(), w.Open());
    assert m.trades[..|m.trades| - 1] == w.trades;
    hide Ledger.Recorded, Ledger.Bought, Contribution, CarriedInto, SetAside, Distributed;
  }

  lemma RecordPays(w: World, trader: Wallet, isBuy: bool, amount: nat)
    requires FlagsPayouts(w) && PaysShares(w)
    ensures FlagsPayouts(Recording(w, trader, isBuy, amount)) && PaysShares(Recording(w, trader, isBuy, amount))
  {
    var m := Recording(w, trader, isBuy, amount);
    RecordedFacts(w.Ledger(), w.Open(), trader, isBuy, amount, Contribution(amount));
    hide Ledger.Recorded, Ledger.Bought, Contribution, SharesTo, ClaimedIn, PaidOut;
    forall r: nat
      ensures SharesTo(m.Ledger(), r, ClaimedIn(w.payouts, r)) == SharesTo(w.Ledger(), r, ClaimedIn(w.payouts, r))
    {
      forall wallet | wallet in ClaimedIn(w.payouts, r)
        ensures ShareOf(m.Ledger(), r, wallet) == ShareOf(w.Ledger(), r, wallet)
      {
        assert (r, wallet) in w.Ledger().claimed;
      }
      SameShares(w.Ledger(), m.Ledger(), r, ClaimedIn(w.payouts, r));
    }
  }

  lemma RecordKeeps(w: World, trader: Wallet, isBuy: bool, amount: nat)
    requires Inv(w)
    ensures Inv(Recording(w, trader, isBuy, amount))
  {
    RecordRecords(w, trader, isBuy, amount);
    RecordSettles(w, trader, isBuy, amount);
    RecordAccounts(w, trader, isBuy, amount);
    RecordPays(w, trader, isBuy, amount);
  }

  // ----- claiming ---------------------------------------------------------------------------------------

  lemma ClaimKeeps(w: World, round: nat, sender: Wallet)
    requires Inv(w)
    ensures Inv(w.After(Claim(round, sender)))
  {
    if w.Ledger().Claimable(round, sender).Ok? {
      ClaimFlags(w, round, sender);
      ClaimPays(w, round, sender);
      ClaimKeepsRecords(w, round, sender);
      ClaimKeepsSettlement(w, round, sender);
      ClaimKeepsPools(w, round, sender);
    }
  }

  lemma ClaimFacts(l: Ledger, round: nat, sender: Wallet)
    requires l.Claimable(round, sender).Ok?
    ensures
      var m := l.AfterClaim(round, sender);
      && m == l.(claimed := l.claimed + {(round, sender)}) && (round, sender) !in l.claimed
      && (forall r: nat :: m.RoundAt(r) == l.RoundAt(r) && m.Buyers(r) == l.Buyers(r) && m.Decide(r) == l.Decide(r)
                        && m.TotalBought(r) == l.TotalBought(r))
      && (forall r: nat, wallet: nat :: m.Bought(r, wallet) == l.Bought(r, wallet))
      && l.Claimable(round, sender).value == ShareOf(l, round, sender)
      && sender in l.Buyers(round) && l.RoundAt(round).settled
  {
    var m := l.AfterClaim(round, sender);
    forall r: nat ensures m.TotalBought(r) == l.TotalBought(r) {
      SumOverAgrees(l.Buyers(r).Keys, l.Holdings(r), m.Holdings(r));
    }
    if sender !in l.Buyers(round) {
      NoShare(l.RoundAt(round).distributable, l.RoundAt(round).buyVolume);
    }
  }

  lemma NoShare(whole: nat, total: nat)
    ensures total > 0 ==> Share(whole, 0, total) == 0
  {
  }

  /** Claiming touches nothing but the claimed flags. */
  lemma ClaimKeepsRecords(w: World, round: nat, sender: Wallet)
    requires RecordsTrades(w) && w.Ledger().Claimable(round, sender).Ok?
    ensures RecordsTrades(w.After(Claim(round, sender)))
  {
    ClaimFacts(w.Ledger(), round, sender);
    hide Ledger.AfterClaim, Ledger.Claimable, Ledger.TotalBought, Ledger.Bought, Ledger.Decide, Ledger.RoundAt;
    hide BuyTotal, SellTotal, PoolTotal, WalletTotal;
  }

  lemma ClaimKeepsSettlement(w: World, round: nat, sender: Wallet)
    requires SettlesInOrder(w) && w.Ledger().Claimable(round, sender).Ok?
    ensures SettlesInOrder(w.After(Claim(round, sender)))
  {
    hide Ledger.AfterClaim, Ledger.Claimable, Ledger.TotalBought, Ledger.Bought, Ledger.Decide, Ledger.RoundAt, CarriedInto;
    hide Ledger.Buyers, ShareOf;
    var l, m := w.Ledger(), w.Ledger().AfterClaim(round, sender);
    ClaimFacts(l, round, sender);
    forall r: nat | r < w.Open() ensures CarriedInto(m, r) == CarriedInto(l, r) {
      OnlyPastRoundsMatter(l, m, r);
    }
  }

  lemma ClaimKeepsPools(w: World, round: nat, sender: Wallet)
    requires AccountsForPools(w) && w.Ledger().Claimable(round, sender).Ok?
    ensures AccountsForPools(w.After(Claim(round, sender)))
  {
    var l, m := w.Ledger(), w.Ledger().AfterClaim(round, sender);
    ClaimFacts(l, round, sender);
    hide Ledger.AfterClaim, Ledger.Claimable, Ledger.TotalBought, Ledger.Bought, Ledger.Decide, Ledger.RoundAt;
    hide CarriedInto, SetAside, Distributed, Contributed;
    OnlyPastRoundsMatter(l, m, w.Open());
    SameDistributed(l, m, w.Open());
  }

  lemma ClaimSums(l: Ledger, payouts: seq<Payout>, round: nat, sender: Wallet, r: nat)
    requires l.Claimable(round, sender).Ok? && sender !in ClaimedIn(payouts, round)
    requires PaidOut(payouts, r) == SharesTo(l, r, ClaimedIn(payouts, r))
    ensures
      var longer := payouts + [Payout(round, sender, l.Claimable(round, sender).value)];
      PaidOut(longer, r) == SharesTo(l.AfterClaim(round, sender), r, ClaimedIn(longer, r))
  {
    var m, claimed := l.AfterClaim(round, sender), ClaimedIn(payouts, r);
    var longer := payouts + [Payout(round, sender, l.Claimable(round, sender).value)];
    assert longer[..|longer| - 1] == payouts;
    ClaimFacts(l, round, sender);
    hide Ledger.AfterClaim, Ledger.Claimable, Ledger.TotalBought, Ledger.Bought, Ledger.Decide, SumOver;
    SumOverAgrees(claimed, Sharing(l, r), Sharing(m, r));
    if r == round {
      SumOverRemove(claimed + {sender}, sender, Sharing(m, r));
      assert claimed + {sender} - {sender} == claimed;
    } else {
      assert ClaimedIn(longer, r) == claimed;
    }
  }

  /** The claimed flags and the payouts grow by the same claim. */
  lemma ClaimShape(w: World, round: nat, sender: Wallet)
    requires SettlesInOrder(w) && w.Ledger().Claimable(round, sender).Ok?
    ensures
      var c := w.After(Claim(round, sender));
      && c.Ledger() == w.Ledger().AfterClaim(round, sender) && c.Open() == w.Open()
      && c.payouts == w.payouts + [Payout(round, sender, w.Ledger().Claimable(round, sender).value)]
      && c.Ledger().claimed == w.Ledger().claimed + {(round, sender)}
      && round < w.Open() && sender in w.Ledger().Buyers(round)
      && forall r: nat :: c.Ledger().Buyers(r) == w.Ledger().Buyers(r)
  {
    ClaimFacts(w.Ledger(), round, sender);
  }

  lemma ClaimFlags(w: World, round: nat, sender: Wallet)
    requires SettlesInOrder(w) && FlagsPayouts(w) && w.Ledger().Claimable(round, sender).Ok?
    ensures FlagsPayouts(w.After(Claim(round, sender)))
  {
    var c := w.After(Claim(round, sender));
    ClaimShape(w, round, sender);
    hide World.After, Ledger.AfterClaim, Ledger.Claimable, Ledger.Buyers, ClaimedIn, SettlesInOrder;
    forall r: nat ensures ClaimedIn(c.payouts, r) == ClaimedIn(w.payouts, r) + (if r == round then {sender} else {}) {
      ClaimedInGrows(w.payouts, Payout(round, sender, w.Ledger().Claimable(round, sender).value), r);
    }
  }

  lemma ClaimedInGrows(payouts: seq<Payout>, p: Payout, r: nat)
    ensures ClaimedIn(payouts + [p], r) == ClaimedIn(payouts, r) + (if r == p.round then {p.wallet} else {})
  {
    assert (payouts + [p])[..|payouts + [p]| - 1] == payouts;
  }

  lemma ClaimPays(w: World, round: nat, sender: Wallet)
    requires SettlesInOrder(w) && FlagsPayouts(w) && PaysShares(w) && w.Ledger().Claimable(round, sender).Ok?
    ensures PaysShares(w.After(Claim(round, sender)))
  {
    var c := w.After(Claim(round, sender));
    ClaimShape(w, round, sender);
    assert sender !in ClaimedIn(w.payouts, round) by { ClaimFacts(w.Ledger(), round, sender); }
    hide World.After, Ledger.AfterClaim, Ledger.Claimable, Ledger.Buyers;
    hide ClaimedIn, PaidOut, SharesTo, SettlesInOrder, FlagsPayouts;
    forall r: nat ensures PaidOut(c.payouts, r) == SharesTo(c.Ledger(), r, ClaimedIn(c.payouts, r)) {
      ClaimSums(w.Ledger(), w.payouts, round, sender, r);
    }
  }

  // ----- every reachable state ------------------------------------------------------------------------

  lemma StepKeeps(w: World, action: Action)
    requires Inv(w)
    ensures Inv(w.After(action))
  {
    match action
    case Crank(now) =>
      CloseKeeps(w, now);
    case Trade(trader, isBuy, amount, now) =>
      CloseKeeps(w, now);
      TradeIsCloseThenRecord(w, trader, isBuy, amount, now);
      RecordKeeps(w.Closing(now), trader, isBuy, amount);
    case Claim(round, sender) =>
      ClaimKeeps(w, round, sender);
  }

  lemma {:induction false} EveryRunKeeps(now: nat, actions: seq<Action>)
    ensures Inv(Run(Opening(now), actions))
  {
    if actions == [] {
      OpeningHolds(now);
    } else {
      EveryRunKeeps(now, actions[..|actions| - 1]);
      hide Inv, World.After;
      StepKeeps(Run(Opening(now), actions[..|actions| - 1]), actions[|actions| - 1]);
    }
  }

  lemma OpeningRecords(w: World, now: nat)
    requires w == Opening(now)
    ensures RecordsTrades(w) && FlagsPayouts(w)
  {
    NothingRecorded(w.Ledger());
    hide Ledger.RoundAt, Ledger.TotalBought, Ledger.Bought;
  }

  lemma OpeningSettles(w: World, now: nat)
    requires w == Opening(now)
    ensures SettlesInOrder(w)
  {
    NothingRecorded(w.Ledger());
    hide Ledger.RoundAt, Ledger.TotalBought, Ledger.Bought, Ledger.Decide, CarriedInto;
  }

  lemma OpeningAccounts(w: World, now: nat)
    requires w == Opening(now)
    ensures AccountsForPools(w)
  {
  }

  lemma OpeningStreak(w: World, now: nat)
    requires w == Opening(now)
    ensures StreakReflects(w.market.hook, w.winners)
  {
  }

  lemma OpeningPays(w: World, now: nat)
    requires w == Opening(now)
    ensures PaysShares(w)
  {
    forall r: nat ensures SharesTo(w.Ledger(), r, ClaimedIn([], r)) == 0 {
      SumOverZero(ClaimedIn([], r), Sharing(w.Ledger(), r));
    }
  }

  lemma OpeningHolds(now: nat)
    ensures Inv(Opening(now))
  {
    var w := Opening(now);
    OpeningRecords(w, now);
    OpeningSettles(w, now);
    OpeningAccounts(w, now);
    OpeningStreak(w, now);
    OpeningPays(w, now);
    hide RecordsTrades, SettlesInOrder, AccountsForPools, FlagsPayouts, PaysShares, StreakReflects;
  }

  lemma NothingRecorded(l: Ledger)
    requires l == FRESH
    ensures forall r: nat :: l.RoundAt(r) == EMPTY && l.TotalBought(r) == 0
    ensures forall r: nat, wallet: nat :: l.Bought(r, wallet) == 0
  {
    forall r: nat ensures l.TotalBought(r) == 0 {
      SumOverZero(l.Buyers(r).Keys, l.Holdings(r));
    }
  }

  // ----- what follows for every run ----------------------------------------------------------------------

  /** A round is settled exactly when it is over, for the side its recorded trades decide. */
  lemma {:induction false} RoundsAreDecidedByTheirTrades(now: nat, actions: seq<Action>, r: nat)
    ensures
      var w := Run(Opening(now), actions);
      var bought, sold := BuyTotal(w.trades, r), SellTotal(w.trades, r);
      && (w.Ledger().RoundAt(r).settled <==> r < w.Open())
      && (w.Ledger().RoundAt(r).winner == BUYERS <==> r < w.Open() && bought > sold)
      && (w.Ledger().RoundAt(r).winner == SELLERS <==> r < w.Open() && bought <= sold && sold > 0)
      && (w.Ledger().RoundAt(r).winner == NOBODY <==> w.Open() <= r || (bought == 0 && sold == 0))
  {
    EveryRunKeeps(now, actions);
    hide AccountsForPools, FlagsPayouts, PaysShares, StreakReflects, CarriedInto, BuyTotal, SellTotal;
  }

  /** Every unit ever contributed is carried over, set aside, distributed, or in the open pool. */
  lemma {:induction false} ContributionsAreConserved(now: nat, actions: seq<Action>)
    ensures
      var w := Run(Opening(now), actions);
      Contributed(w.trades) == w.Ledger().carriedOver + w.Ledger().buybackReserve
                               + Distributed(w.Ledger(), w.Open()) + w.Ledger().RoundAt(w.Open()).pool
  {
    EveryRunKeeps(now, actions);
  }

  lemma WinnersAreKept(w: World)
    requires Inv(w)
    ensures |w.winners| == w.Open() && (forall r: nat | r < w.Open() :: w.winners[r] == w.Ledger().RoundAt(r).winner)
    ensures StreakReflects(w.market.hook, w.winners)
  {
    hide AccountsForPools, FlagsPayouts, PaysShares, RecordsTrades, StreakReflects, CarriedInto, Ledger.RoundAt, Ledger.Decide;
  }

  /** The fee is halved exactly for a side whose run of wins has just reached a multiple of three. */
  lemma {:induction false} MomentumFollowsHistory(now: nat, actions: seq<Action>, isBuy: bool)
    ensures
      var w := Run(Opening(now), actions);
      && |w.winners| == w.Open() && (forall r: nat | r < w.Open() :: w.winners[r] == w.Ledger().RoundAt(r).winner)
      && StreakReflects(w.market.hook, w.winners)
      && w.market.hook.FeeFor(isBuy)
         == (if w.winners != [] && w.winners[|w.winners| - 1] == (if isBuy then BUYERS else SELLERS)
                && WinningRun(w.winners) % 3 == 0 then 5000 else 10000)
  {
    hide Inv, Run, Ledger.RoundAt, StreakReflects, WinningRun, Hook.FeeFor;
    var w := Run(Opening(now), actions);
    EveryRunKeeps(now, actions);
    WinnersAreKept(w);
    HalfFeeAfterEveryThirdWin(w.market.hook, w.winners, isBuy);
  }

  /** Everything still owed to the buyers of a round. */
  ghost function StillOwed(l: Ledger, round: nat): nat {
    SumOver(l.Buyers(round).Keys, (w: nat) => l.Owed(round, w))
  }

  /** What was paid and what is still owed are together exactly the buyers' shares. */
  lemma PaidAndOwedAreShares(w: World, r: nat)
    requires Inv(w)
    ensures PaidOut(w.payouts, r) + StillOwed(w.Ledger(), r) == SharesTo(w.Ledger(), r, w.Ledger().Buyers(r).Keys)
  {
    var l, keys, claimed := w.Ledger(), w.Ledger().Buyers(r).Keys, ClaimedIn(w.payouts, r);
    var owed, sharing := (wallet: nat) => l.Owed(r, wallet), Sharing(l, r);
    forall wallet | wallet in claimed ensures wallet in keys && l.Owed(r, wallet) == 0 {
      assert (r, wallet) in l.claimed;
    }
    forall wallet | wallet in keys - claimed ensures l.Owed(r, wallet) == ShareOf(l, r, wallet) {
      assert (r, wallet) !in l.claimed;
    }
    SumOverSplit(keys, claimed, owed);
    SumOverSplit(keys, claimed, sharing);
    SumOverZero(claimed, owed);
    SumOverAgrees(keys - claimed, owed, sharing);
  }

  /** A round's shares never come to more than it distributes, nor fall short by one unit a buyer. */
  lemma SharesFitTheRound(l: Ledger, r: nat)
    requires l.TotalBought(r) == l.RoundAt(r).buyVolume && l.RoundAt(r).winner == BUYERS
    requires l.RoundAt(r).buyVolume > 0
    ensures
      var shares, buyers := SharesTo(l, r, l.Buyers(r).Keys), Holders(l.Buyers(r).Keys, l.Holdings(r));
      shares <= l.RoundAt(r).distributable < shares + buyers
  {
    var keys, current, holdings := l.Buyers(r).Keys, l.RoundAt(r), l.Holdings(r);
    var shares := SharesTo(l, r, keys);
    SharesOf(keys, current.distributable, holdings, current.buyVolume);
    ProRata(l, r, keys);
    SomeoneHolds(keys, holdings);
    hide SharesTo, Shares, Holders, SumOver, RoundedDown, Ledger.RoundAt, Ledger.Buyers;
    DustBounds(current.distributable, current.buyVolume, shares, Holders(keys, holdings));
  }

  /** The wallets' shares are their pro rata shares of what the round distributes. */
  lemma {:induction false} ProRata(l: Ledger, r: nat, s: set<Wallet>)
    requires l.RoundAt(r).winner == BUYERS && l.RoundAt(r).buyVolume > 0
    ensures SharesTo(l, r, s) == Shares(s, l.RoundAt(r).distributable, l.Holdings(r), l.RoundAt(r).buyVolume)
    decreases |s|
  {
    hide Share, ShareOf, SumOver, Ledger.RoundAt, Ledger.Bought;
    if s == {} {
      NoSharesOf(l, r);
    } else {
      var x :| x in s;
      ProRata(l, r, s - {x});
      SumOverRemove(s, x, Sharing(l, r));
      RemoveOne(s, x, l.RoundAt(r).distributable, l.Holdings(r), l.RoundAt(r).buyVolume);
      ProRataOne(l, r, x);
      hide Shares;
    }
  }

  lemma NoSharesOf(l: Ledger, r: nat)
    requires l.RoundAt(r).buyVolume > 0
    ensures SharesTo(l, r, {}) == 0
    ensures Shares({}, l.RoundAt(r).distributable, l.Holdings(r), l.RoundAt(r).buyVolume) == 0
  {
    hide Share, ShareOf, Ledger.RoundAt, Ledger.Bought;
  }

  lemma ProRataOne(l: Ledger, r: nat, wallet: Wallet)
    requires l.RoundAt(r).winner == BUYERS && l.RoundAt(r).buyVolume > 0
    ensures ShareOf(l, r, wallet) == Share(l.RoundAt(r).distributable, l.Holdings(r)(wallet), l.RoundAt(r).buyVolume)
  {
    hide Share, Ledger.RoundAt;
  }

  lemma {:induction false} SomeoneHolds(s: set<nat>, part: nat -> nat)
    ensures SumOver(s, part) > 0 ==> Holders(s, part) > 0
    decreases |s|
  {
    if s != {} {
      var x :| x in s;
      SomeoneHolds(s - {x}, part);
      RemoveOne(s, x, 0, part, 1);
    }
  }

  /**
    * Claims are solvent in every run: what a round has paid and still owes never exceeds what
    * it distributes, and in a round buyers won the dust left over is less than one unit for
    * each wallet that bought.
    */
  lemma ClaimsAreSolvent(now: nat, actions: seq<Action>, r: nat)
    ensures
      var w := Run(Opening(now), actions);
      var paid, owed := PaidOut(w.payouts, r), StillOwed(w.Ledger(), r);
      && paid + owed <= w.Ledger().RoundAt(r).distributable
      && (w.Ledger().RoundAt(r).winner == BUYERS ==>
            w.Ledger().RoundAt(r).distributable < paid + owed + Holders(w.Ledger().Buyers(r).Keys, w.Ledger().Holdings(r)))
  {
    EveryRunKeeps(now, actions);
    var w := Run(Opening(now), actions);
    PaidAndOwedAreShares(w, r);
    if w.Ledger().RoundAt(r).winner == BUYERS {
      assert w.Ledger().Decide(r) == BUYERS;
      hide SharesTo, Holders, PaidOut, StillOwed, CarriedInto;
      SharesFitTheRound(w.Ledger(), r);
    } else {
      SumOverZero(w.Ledger().Buyers(r).Keys, Sharing(w.Ledger(), r));
    }
  }

  /** No wallet is paid twice for the same round. */
  lemma {:induction false} NoWalletIsPaidTwice(now: nat, actions: seq<Action>, i: nat, j: nat)
    requires i < j < |Run(Opening(now), actions).payouts|
    ensures
      var payouts := Run(Opening(now), actions).payouts;
      payouts[i].round != payouts[j].round || payouts[i].wallet != payouts[j].wallet
  {
    var front, last := actions[..|actions| - 1], actions[|actions| - 1];
    var before := Run(Opening(now), front);
    if j < |before.payouts| {
      PayoutsOnlyGrow(before, last);
      NoWalletIsPaidTwice(now, front, i, j);
    } else {
      EveryRunKeeps(now, front);
      PaidIsClaimed(before.payouts, i);
      hide Run;
      NewPayoutIsUnclaimed(before, last, i, j);
    }
  }

  lemma PayoutsOnlyGrow(w: World, action: Action)
    ensures w.payouts <= w.After(action).payouts
  {
  }

  lemma NewPayoutIsUnclaimed(w: World, action: Action, i: nat, j: nat)
    requires FlagsPayouts(w) && i < |w.payouts| <= j < |w.After(action).payouts|
    requires w.payouts[i].wallet in ClaimedIn(w.payouts, w.payouts[i].round)
    ensures
      var p, q := w.After(action).payouts[i], w.After(action).payouts[j];
      p.round != q.round || p.wallet != q.wallet
  {
    var paid := w.payouts[i];
    assert (paid.round, paid.wallet) in w.Ledger().claimed;
    hide ClaimedIn;
  }

  lemma {:induction false} PaidIsClaimed(payouts: seq<Payout>, i: nat)
    requires i < |payouts|
    ensures payouts[i].wallet in ClaimedIn(payouts, payouts[i].round)
  {
    if i < |payouts| - 1 {
      PaidIsClaimed(payouts[..|payouts| - 1], i);
    }
  }

  // ----- settled rounds are frozen -------------------------------------------------------------------------

  lemma StepFreezes(w: World, action: Action, r: nat)
    requires SettlesInOrder(w) && r < w.Open()
    ensures
      var next := w.After(action);
      w.Open() <= next.Open() && next.Ledger().RoundAt(r) == w.Ledger().RoundAt(r)
      && next.Ledger().Buyers(r) == w.Ledger().Buyers(r)
  {
    match action
    case Crank(now) =>
      CloseFreezes(w, now, r);
    case Trade(trader, isBuy, amount, now) =>
      TradeFreezes(w, trader, isBuy, amount, now, r);
    case Claim(round, sender) =>
      hide SettlesInOrder, Ledger.Claimable;
  }

  lemma TradeFreezes(w: World, trader: Wallet, isBuy: bool, amount: nat, now: nat, r: nat)
    requires SettlesInOrder(w) && r < w.Open()
    ensures
      var next := w.After(Trade(trader, isBuy, amount, now));
      w.Open() <= next.Open() && next.Ledger().RoundAt(r) == w.Ledger().RoundAt(r)
      && next.Ledger().Buyers(r) == w.Ledger().Buyers(r)
  {
    var c := w.Closing(now);
    CloseFreezes(w, now, r);
    TradeIsCloseThenRecord(w, trader, isBuy, amount, now);
    RecordedFacts(c.Ledger(), c.Open(), trader, isBuy, amount, Contribution(amount));
    hide World.After, World.Closing, Ledger.Recorded, Contribution, SettlesInOrder, Ledger.RoundAt, Ledger.Buyers;
  }

  lemma CloseFreezes(w: World, now: nat, r: nat)
    requires SettlesInOrder(w) && r < w.Open()
    ensures
      var c := w.Closing(now);
      w.Open() <= c.Open() && c.Ledger().RoundAt(r) == w.Ledger().RoundAt(r)
      && c.Ledger().Buyers(r) == w.Ledger().Buyers(r)
  {
    SettledFacts(w.Ledger(), w.Open());
    hide CarriedInto;
  }

  /** Once a round is settled nothing that happens later changes it, though recording is unguarded. */
  lemma {:induction false} SettledRoundsAreFrozen(w: World, actions: seq<Action>, r: nat)
    requires Inv(w) && r < w.Open()
    ensures
      var later := Run(w, actions);
      Inv(later) && w.Open() <= later.Open() && later.Ledger().RoundAt(r) == w.Ledger().RoundAt(r)
      && later.Ledger().Buyers(r) == w.Ledger().Buyers(r)
  {
    if actions != [] {
      var front := actions[..|actions| - 1];
      SettledRoundsAreFrozen(w, front, r);
      hide SettlesInOrder, RecordsTrades, AccountsForPools, FlagsPayouts, PaysShares, StreakReflects, World.After;
      StepKeeps(Run(w, front), actions[|actions| - 1]);
      StepFreezes(Run(w, front), actions[|actions| - 1], r);
    }
  }
}
