/**
  * The hourly leader's reward: the RegentHook contract embedded in
  * apps/agen/scripts/seed-epoch.ts.
  *
  * Calls to report a buy arrive already authenticated, and uint256 is unbounded.
  */
module Regent {

  import opened Basics
  import opened SetSums

  /** An account; 0 is the zero address. */
  type Address = nat

  const NOBODY: Address := 0
  const EPOCH_LENGTH: nat := 3600
  const QUIET_PERIOD: nat := 900

  datatype Storage = Storage(currentEpoch: nat, epochStartedAt: nat, epochLeader: Address, epochLeaderVolume: nat,
                             rewardPool: nat, lastBuyAt: nat, lastBuyer: Address, claimable: map<Address, nat>) {

    function Claimable(account: Address): nat { if account in claimable then claimable[account] else 0 }

    predicate HourOver(now: nat) { now >= epochStartedAt + EPOCH_LENGTH }

    predicate WentQuiet(now: nat) { lastBuyAt != 0 && now >= lastBuyAt + QUIET_PERIOD }

    predicate Due(now: nat) { HourOver(now) || WentQuiet(now) }

    /** Who an ending epoch pays: its leader when the hour is up, otherwise the last buyer. */
    function Winner(now: nat): Address { if HourOver(now) then epochLeader else lastBuyer }

    function Settled(now: nat): Storage {
      if !Due(now) then this
      else
        var winner := Winner(now);
        Storage(currentEpoch + 1, now, NOBODY, 0, 0, lastBuyAt, lastBuyer,
                if winner == NOBODY then claimable
                else claimable[winner := Claimable(winner) + rewardPool])
    }

    function Bought(buyer: Address, amount: nat, feeTaken: nat, now: nat): Storage {
      var s := Settled(now);
      s.(rewardPool := s.rewardPool + feeTaken / 5, lastBuyer := buyer, lastBuyAt := now,
         epochLeader := if amount > s.epochLeaderVolume then buyer else s.epochLeader,
         epochLeaderVolume := if amount > s.epochLeaderVolume then amount else s.epochLeaderVolume)
    }

    function Claimed(sender: Address): Storage { this.(claimable := claimable[sender := 0]) }
  }

  function Deployed(now: nat): Storage { Storage(0, now, NOBODY, 0, 0, 0, NOBODY, map[]) }

  class RegentHook {
    var currentEpoch: nat
    var epochStartedAt: nat
    var epochLeader: Address
    var epochLeaderVolume: nat
    var rewardPool: nat
    var lastBuyAt: nat
    var lastBuyer: Address
    var claimable: map<Address, nat>

    function State(): Storage
      reads this
    {
      Storage(currentEpoch, epochStartedAt, epochLeader, epochLeaderVolume, rewardPool, lastBuyAt, lastBuyer, claimable)
    }

    constructor (now: nat)
      ensures State() == Deployed(now)
    {
      currentEpoch, epochStartedAt, epochLeader, epochLeaderVolume := 0, now, NOBODY, 0;
      rewardPool, lastBuyAt, lastBuyer, claimable := 0, 0, NOBODY, map[];
    }

    method OnBuy(buyer: Address, amount: nat, feeTaken: nat, now: nat)
      modifies this
      ensures State() == old(State()).Bought(buyer, amount, feeTaken, now)
    {
      SettleIfDue(now);
      rewardPool := rewardPool + feeTaken / 5;
      lastBuyer := buyer;
      lastBuyAt := now;
      if amount > epochLeaderVolume {
        epochLeader := buyer;
        epochLeaderVolume := amount;
      }
    }

    method Claim(sender: Address) returns (owed: nat)
      modifies this
      ensures owed == old(State()).Claimable(sender)
      ensures State() == old(State()).Claimed(sender)
    {
      owed := State().Claimable(sender);
      claimable := claimable[sender := 0];
    }

    method SettleIfDue(now: nat)
      modifies this
      ensures State() == old(State()).Settled(now)
    {
      var hourOver := now >= epochStartedAt + EPOCH_LENGTH;
      var wentQuiet := lastBuyAt != 0 && now >= lastBuyAt + QUIET_PERIOD;
      if !hourOver && !wentQuiet { return; }

      var winner := if hourOver then epochLeader else lastBuyer;
      if winner != NOBODY {
        claimable := claimable[winner := State().Claimable(winner) + rewardPool];
      }
      rewardPool := 0;
      epochLeader := NOBODY;
      epochLeaderVolume := 0;
      epochStartedAt := now;
      currentEpoch := currentEpoch + 1;
    }
  }

  // ----- totals over accounts ------------------------------------------------------------------

  /** Balances never written read as zero. */
  function Balances(m: map<Address, nat>): nat -> nat { (k: nat) => if k in m then m[k] else 0 }

  ghost function Total(m: map<Address, nat>): nat { SumOver(m.Keys, Balances(m)) }

  /** Writing one account's balance changes the total by what it changes there. */
  lemma TotalWrite(m: map<Address, nat>, k: Address, v: nat)
    ensures Total(m[k := v]) + Balances(m)(k) == Total(m) + v
  {
    var after, others := m[k := v], m.Keys - {k};
    assert after.Keys - {k} == others;
    SumOverRemove(after.Keys, k, Balances(after));
    SumOverAgrees(others, Balances(m), Balances(after));
    if k in m {
      SumOverRemove(m.Keys, k, Balances(m));
    } else {
      assert others == m.Keys;
    }
  }

  // ----- runs --------------------------------------------------------------------------------------

  datatype Action =
    | Buy(buyer: Address, amount: nat, feeTaken: nat, now: nat)
    | Claim(sender: Address)

  /** A buy of the current epoch, and what its fee adds to the reward. */
  datatype Bid = Bid(buyer: Address, amount: nat, reward: nat)

  /** The contract, with what it has paid out, lost and been given, and the epoch's buys so far. */
  datatype World = World(hook: Storage, paidOut: nat, lost: nat, givenIn: nat, epoch: seq<Bid>) {

    /** What settling now would credit to nobody. */
    function Dropped(now: nat): nat {
      if hook.Due(now) && hook.Winner(now) == NOBODY then hook.rewardPool else 0
    }

    function After(action: Action): World {
      match action
      case Buy(buyer, amount, feeTaken, now) =>
        World(hook.Bought(buyer, amount, feeTaken, now), paidOut, lost + Dropped(now), givenIn + feeTaken / 5,
              (if hook.Due(now) then [] else epoch) + [Bid(buyer, amount, feeTaken / 5)])
      case Claim(sender) =>
        this.(hook := hook.Claimed(sender), paidOut := paidOut + hook.Claimable(sender))
    }
  }

  function Run(start: World, actions: seq<Action>): World {
    if actions == [] then start else Run(start, actions[..|actions| - 1]).After(actions[|actions| - 1])
  }

  function Opening(now: nat): World { World(Deployed(now), 0, 0, 0, []) }

  ghost predicate Accounted(w: World) {
    Total(w.hook.claimable) + w.paidOut + w.hook.rewardPool + w.lost == w.givenIn
  }

  lemma StepAccounts(w: World, action: Action)
    requires Accounted(w)
    ensures Accounted(w.After(action))
  {
    match action
    case Buy(_, _, _, now) =>
      if w.hook.Due(now) && w.hook.Winner(now) != NOBODY {
        TotalWrite(w.hook.claimable, w.hook.Winner(now), w.hook.Claimable(w.hook.Winner(now)) + w.hook.rewardPool);
      }
    case Claim(sender) =>
      TotalWrite(w.hook.claimable, sender, 0);
  }

  /** In every run, what was credited, paid, pooled or dropped is a fifth of every fee, rounded down. */
  lemma {:induction false} EveryRunAccounts(now: nat, actions: seq<Action>)
    ensures Accounted(Run(Opening(now), actions))
  {
    if actions != [] {
      EveryRunAccounts(now, actions[..|actions| - 1]);
      StepAccounts(Run(Opening(now), actions[..|actions| - 1]), actions[|actions| - 1]);
    }
  }

  // ----- the leader ---------------------------------------------------------------------------------

  /** The first buyer to reach the epoch's largest single buy, or nobody if none was positive. */
  ghost predicate Leads(epoch: seq<Bid>, leader: Address, volume: nat) {
    if exists i :: 0 <= i < |epoch| && epoch[i].amount > 0 then
      exists i :: 0 <= i < |epoch| && IsLead(epoch, i) && epoch[i].buyer == leader && epoch[i].amount == volume
    else leader == NOBODY && volume == 0
  }

  ghost predicate IsLead(epoch: seq<Bid>, i: nat)
    requires i < |epoch|
  {
    && epoch[i].amount > 0
    && (forall j | 0 <= j < i :: epoch[j].amount < epoch[i].amount)
    && (forall j | i <= j < |epoch| :: epoch[j].amount <= epoch[i].amount)
  }

  lemma LeadStep(epoch: seq<Bid>, leader: Address, volume: nat, bid: Bid)
    requires Leads(epoch, leader, volume)
    ensures Leads(epoch + [bid], if bid.amount > volume then bid.buyer else leader,
                  if bid.amount > volume then bid.amount else volume)
  {
    var longer, n := epoch + [bid], |epoch|;
    assert longer[n] == bid;
    if bid.amount > volume {
      assert IsLead(longer, n);
    } else if i :| 0 <= i < n && IsLead(epoch, i) && epoch[i].buyer == leader && epoch[i].amount == volume {
      assert longer[i] == epoch[i] && IsLead(longer, i);
    }
  }

  ghost predicate LeaderKnown(w: World) { Leads(w.epoch, w.hook.epochLeader, w.hook.epochLeaderVolume) }

  /** In every run the stored leader is the first to reach the epoch's largest buy. */
  lemma {:induction false} LeaderIsFirstToTheLargest(now: nat, actions: seq<Action>)
    ensures LeaderKnown(Run(Opening(now), actions))
  {
    if actions != [] {
      var before, last := Run(Opening(now), actions[..|actions| - 1]), actions[|actions| - 1];
      LeaderIsFirstToTheLargest(now, actions[..|actions| - 1]);
      if last.Buy? {
        if before.hook.Due(last.now) {
          LeadStep([], NOBODY, 0, Bid(last.buyer, last.amount, last.feeTaken / 5));
        } else {
          LeadStep(before.epoch, before.hook.epochLeader, before.hook.epochLeaderVolume, Bid(last.buyer, last.amount, last.feeTaken / 5));
        }
      }
    }
  }

  // ----- who an epoch pays ------------------------------------------------------------------------------

  function Rewards(epoch: seq<Bid>): nat {
    if epoch == [] then 0 else Rewards(Front(epoch)) + Last(epoch).reward
  }

  ghost predicate EpochKnown(w: World) {
    w.hook.rewardPool == Rewards(w.epoch) && (w.epoch != [] ==> w.hook.lastBuyer == Last(w.epoch).buyer)
  }

  lemma {:induction false} PoolIsTheEpochs(now: nat, actions: seq<Action>)
    ensures EpochKnown(Run(Opening(now), actions))
  {
    if actions != [] {
      PoolIsTheEpochs(now, actions[..|actions| - 1]);
      var before, last := Run(Opening(now), actions[..|actions| - 1]), actions[|actions| - 1];
      if last.Buy? {
        var epoch := if before.hook.Due(last.now) then [] else before.epoch;
        var bid := Bid(last.buyer, last.amount, last.feeTaken / 5);
        assert Front(epoch + [bid]) == epoch && Last(epoch + [bid]) == bid;
      }
    }
  }

  /**
    * Whenever an epoch ends, all its buys' rewards go to one account: the first to reach its
    * largest buy when the hour is up, otherwise its last buyer. Nobody else gains.
    */
  lemma EndingEpochsPayOneAccount(now: nat, actions: seq<Action>, t: nat, account: Address)
    requires Run(Opening(now), actions).hook.Due(t)
    ensures
      var w := Run(Opening(now), actions);
      var winner := w.hook.Winner(t);
      && w.hook.Settled(t).Claimable(account)
         == w.hook.Claimable(account) + (if account == winner && winner != NOBODY then Rewards(w.epoch) else 0)
      && (w.hook.HourOver(t) ==> Leads(w.epoch, winner, w.hook.epochLeaderVolume))
      && (!w.hook.HourOver(t) && w.epoch != [] ==> winner == Last(w.epoch).buyer)
  {
    PoolIsTheEpochs(now, actions);
    LeaderIsFirstToTheLargest(now, actions);
  }

  // ----- when nothing is dropped -----------------------------------------------------------------------

  /** Every buy is of something, by somebody. */
  predicate Genuine(action: Action) { action.Buy? ==> action.amount > 0 && action.buyer != NOBODY }

  ghost predicate SomeoneToPay(w: World) {
    && (w.hook.rewardPool > 0 ==> w.hook.epochLeader != NOBODY)
    && (w.hook.rewardPool > 0 ==> w.hook.lastBuyer != NOBODY)
    && (w.hook.epochLeaderVolume > 0 ==> w.hook.epochLeader != NOBODY)
    && w.lost == 0
  }

  /** With genuine buys a pool always has a leader, and nothing is ever dropped. */
  lemma {:induction false} GenuineBuysAreNeverDropped(now: nat, actions: seq<Action>)
    requires forall i | 0 <= i < |actions| :: Genuine(actions[i])
    ensures SomeoneToPay(Run(Opening(now), actions))
    ensures
      var w := Run(Opening(now), actions);
      Total(w.hook.claimable) + w.paidOut + w.hook.rewardPool == w.givenIn
  {
    EveryRunAccounts(now, actions);
    if actions != [] {
      GenuineBuysAreNeverDropped(now, actions[..|actions| - 1]);
      assert Genuine(actions[|actions| - 1]);
    }
  }

  /**
    * Without that, a buy conserves the money exactly unless it settles a pool whose winner is
    * nobody: then the whole pool disappears.
    */
  lemma BuyConservesIff(w: World, buyer: Address, amount: nat, feeTaken: nat, now: nat)
    ensures
      var next := w.After(Buy(buyer, amount, feeTaken, now));
      Total(next.hook.claimable) + next.hook.rewardPool == Total(w.hook.claimable) + w.hook.rewardPool + feeTaken / 5
      <==> !(w.hook.Due(now) && w.hook.Winner(now) == NOBODY && w.hook.rewardPool > 0)
  {
    if w.hook.Due(now) && w.hook.Winner(now) != NOBODY {
      TotalWrite(w.hook.claimable, w.hook.Winner(now), w.hook.Claimable(w.hook.Winner(now)) + w.hook.rewardPool);
    }
  }

  /** Runs where it does: a buy of nothing pays a fee but takes no lead, and an hour later its pool is gone. */
  lemma AnEmptyBuyLosesItsFee(start: nat, buyer: Address, feeTaken: nat, next: Address, amount: nat)
    ensures
      var paid := Opening(start).After(Buy(buyer, 0, feeTaken, start));
      var settled := paid.After(Buy(next, amount, 0, start + EPOCH_LENGTH));
      && paid.hook.rewardPool == feeTaken / 5 && paid.lost == 0
      && settled.lost == feeTaken / 5 && settled.hook.rewardPool == 0
      && forall account :: settled.hook.Claimable(account) == 0
  {
  }

  // ----- told from the actions alone ---------------------------------------------------------------------

  /** The buyer and time of the latest buy. */
  function LatestBuy(actions: seq<Action>): Option<(Address, nat)> {
    if actions == [] then None
    else if Last(actions).Buy? then Some((Last(actions).buyer, Last(actions).now))
    else LatestBuy(Front(actions))
  }

  /** When the current epoch started: at deployment, or when a buy ended the one before. */
  function Started(deployed: nat, actions: seq<Action>): nat
    decreases |actions|, 0
  {
    if actions == [] then deployed
    else if Last(actions).Buy? && Ends(deployed, Front(actions), Last(actions).now) then Last(actions).now
    else Started(deployed, Front(actions))
  }

  /** A buy ends the epoch an hour after its start, or a quarter of an hour after the latest buy. */
  predicate Ends(deployed: nat, actions: seq<Action>, now: nat)
    decreases |actions|, 1
  {
    || now >= Started(deployed, actions) + 3600
    || (LatestBuy(actions).Some? && LatestBuy(actions).value.1 != 0 && now >= LatestBuy(actions).value.1 + 900)
  }

  /** How many epochs have ended. */
  function Ended(deployed: nat, actions: seq<Action>): nat {
    if actions == [] then 0
    else Ended(deployed, Front(actions)) + if Last(actions).Buy? && Ends(deployed, Front(actions), Last(actions).now) then 1 else 0
  }

  /** The buys of the current epoch, each with a fifth of its fee. */
  function Bids(deployed: nat, actions: seq<Action>): seq<Bid> {
    if actions == [] then []
    else
      var front, last := Front(actions), Last(actions);
      if !last.Buy? then Bids(deployed, front)
      else (if Ends(deployed, front, last.now) then [] else Bids(deployed, front))
           + [Bid(last.buyer, last.amount, last.feeTaken / 5)]
  }

  /** In every run the epoch's number, start and buys, and when it will end, are what the buys alone say. */
  lemma {:induction false} ClockFollowsTheBuys(deployed: nat, actions: seq<Action>)
    ensures
      var w := Run(Opening(deployed), actions);
      && w.hook.epochStartedAt == Started(deployed, actions) && w.hook.currentEpoch == Ended(deployed, actions)
      && w.hook.lastBuyAt == (if LatestBuy(actions).Some? then LatestBuy(actions).value.1 else 0)
      && w.hook.lastBuyer == (if LatestBuy(actions).Some? then LatestBuy(actions).value.0 else NOBODY)
      && w.epoch == Bids(deployed, actions)
      && forall now :: w.hook.Due(now) <==> Ends(deployed, actions, now)
  {
    if actions != [] {
      ClockFollowsTheBuys(deployed, Front(actions));
      assert Front(actions) == actions[..|actions| - 1];
    }
  }

  /** Who first reached the epoch's largest buy. */
  ghost function LeaderOf(epoch: seq<Bid>): Address {
    if i :| 0 <= i < |epoch| && IsLead(epoch, i) then epoch[i].buyer else NOBODY
  }

  lemma LeaderIsUnique(epoch: seq<Bid>, leader: Address, volume: nat)
    requires Leads(epoch, leader, volume)
    ensures leader == LeaderOf(epoch)
  {
  }

  /** Who an epoch ending now pays. */
  ghost function PaidBy(deployed: nat, actions: seq<Action>, now: nat): Address {
    if now >= Started(deployed, actions) + 3600 then LeaderOf(Bids(deployed, actions))
    else if LatestBuy(actions).Some? then LatestBuy(actions).value.0
    else NOBODY
  }

  /** What an account is owed: the rewards of the epochs that paid it since it last claimed. */
  ghost function Balance(deployed: nat, actions: seq<Action>, account: Address): nat {
    if actions == [] then 0
    else
      var before, last := Balance(deployed, Front(actions), account), Last(actions);
      if last.Claim? then if last.sender == account then 0 else before
      else if Ends(deployed, Front(actions), last.now) && account != NOBODY
              && account == PaidBy(deployed, Front(actions), last.now) then
        before + Rewards(Bids(deployed, Front(actions)))
      else before
  }

  lemma {:induction false} StepPays(deployed: nat, actions: seq<Action>, account: Address)
    requires actions != []
    requires Run(Opening(deployed), Front(actions)).hook.Claimable(account) == Balance(deployed, Front(actions), account)
    ensures Run(Opening(deployed), actions).hook.Claimable(account) == Balance(deployed, actions, account)
  {
    var front, last, w := Front(actions), Last(actions), Run(Opening(deployed), Front(actions));
    assert front == actions[..|actions| - 1];
    ClockFollowsTheBuys(deployed, front);
    PoolIsTheEpochs(deployed, front);
    LeaderIsFirstToTheLargest(deployed, front);
    LeaderIsUnique(w.epoch, w.hook.epochLeader, w.hook.epochLeaderVolume);
    hide Run, Started, LatestBuy, Bids, Leads, LeaderOf, Rewards, Ends;
    if last.Buy? {
      assert w.hook.Due(last.now) <==> Ends(deployed, front, last.now);
    }
  }

  /** In every run what an account may claim is exactly what the ended epochs of its history owe it. */
  lemma {:induction false} BalancesFollowTheBuys(deployed: nat, actions: seq<Action>, account: Address)
    ensures Run(Opening(deployed), actions).hook.Claimable(account) == Balance(deployed, actions, account)
  {
    if actions != [] {
      BalancesFollowTheBuys(deployed, Front(actions), account);
      StepPays(deployed, actions, account);
    }
  }
}
