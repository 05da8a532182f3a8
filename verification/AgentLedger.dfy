/**
  * What an agent's contracts did with its money: the link table, the treasury and revenue
  * handlers, and `agentOf`, `record`, `bumpTreasury` and `bumpRevenue` of
  * apps/indexer/src/agents.ts, with the leg columns of agent-events.ts.
  *
  * A contract's event does not name its agent. A handler that throws ends the run.
  */
module AgentLedger {

  import opened Basics

  type AgentId = nat
  type Address = nat

  /** One figure for each leg of the split. */
  datatype Legs = Legs(operations: nat, buybacks: nat, developer: nat, protocol: nat) {
    function Plus(other: Legs): Legs {
      Legs(operations + other.operations, buybacks + other.buybacks, developer + other.developer, protocol + other.protocol)
    }

    function Sum(): nat { operations + buybacks + developer + protocol }
  }

  const NO_LEGS := Legs(0, 0, 0, 0)

  /** An amount in the column of a leg's number, if that leg has one. */
  function InColumn(leg: nat, amount: nat): Option<Legs> {
    if leg == 0 then Some(Legs(amount, 0, 0, 0))
    else if leg == 1 then Some(Legs(0, amount, 0, 0))
    else if leg == 2 then Some(Legs(0, 0, amount, 0))
    else if leg == 3 then Some(Legs(0, 0, 0, amount))
    else None
  }

  datatype Event =
    | Launched(agent: AgentId, mandate: Address, treasury: Address, router: Address, executionModule: Address)
    | PausedSet(emitter: Address, paused: bool)
    | Received(emitter: Address, asset: Address, amount: nat, time: nat)
    | Spent(emitter: Address, asset: Address, amount: nat, time: nat)
    | PeriodRolled(emitter: Address, asset: Address, startedAt: nat, time: nat)
    | Recognised(emitter: Address, asset: Address, amount: nat, totalReceived: nat, time: nat)
    | Allocated(emitter: Address, asset: Address, legs: Legs, time: nat)
    | Settled(emitter: Address, asset: Address, leg: nat, amount: nat, time: nat)
    | FeesClaimed(emitter: Address)
    | SplitterBound(emitter: Address)

  /** The four contracts a launch links. */
  function Contracts(e: Event): seq<Address>
    requires e.Launched?
  {
    [e.mandate, e.treasury, e.router, e.executionModule]
  }

  // ----- rows ---------------------------------------------------------------------------------------

  datatype TreasuryRow = TreasuryRow(received: nat, spent: nat, spendCount: nat, periodStartedAt: Option<nat>, lastEventAt: nat)

  /** Fields left out are neither set nor added. */
  datatype TreasuryChange = TreasuryChange(received: Option<nat>, spent: Option<nat>, spendCount: Option<nat>,
                                           periodStartedAt: Option<nat>)

  datatype RevenueRow = RevenueRow(received: nat, allotted: Legs, settled: Legs, lastEventAt: nat)

  datatype RevenueChange = RevenueChange(received: Option<nat>, allotted: Option<Legs>, settled: Option<Legs>)

  function OrZero(n: Option<nat>): nat { if n.Some? then n.value else 0 }

  function OrNone(legs: Option<Legs>): Legs { if legs.Some? then legs.value else NO_LEGS }

  /** Insert a row with the change's values, or add and set them on the row there is. */
  function BumpedTreasury(row: Option<TreasuryRow>, change: TreasuryChange, time: nat): TreasuryRow {
    match row
    case None =>
      TreasuryRow(OrZero(change.received), OrZero(change.spent), OrZero(change.spendCount), change.periodStartedAt, time)
    case Some(r) =>
      TreasuryRow(r.received + OrZero(change.received), r.spent + OrZero(change.spent),
                  r.spendCount + OrZero(change.spendCount),
                  if change.periodStartedAt.Some? then change.periodStartedAt else r.periodStartedAt, time)
  }

  function BumpedRevenue(row: Option<RevenueRow>, change: RevenueChange, time: nat): RevenueRow {
    match row
    case None =>
      RevenueRow(OrZero(change.received), OrNone(change.allotted), OrNone(change.settled), time)
    case Some(r) =>
      RevenueRow(if change.received.Some? then change.received.value else r.received,
                 if change.allotted.Some? then r.allotted.Plus(change.allotted.value) else r.allotted,
                 if change.settled.Some? then r.settled.Plus(change.settled.value) else r.settled, time)
  }

  /** Inserting is updating a row of zeroes, whenever it was last touched. */
  lemma InsertingIsUpdatingZero(treasury: TreasuryChange, revenue: RevenueChange, time: nat, whenever: nat)
    ensures BumpedTreasury(None, treasury, time) == BumpedTreasury(Some(TreasuryRow(0, 0, 0, None, whenever)), treasury, time)
    ensures BumpedRevenue(None, revenue, time) == BumpedRevenue(Some(RevenueRow(0, NO_LEGS, NO_LEGS, whenever)), revenue, time)
  {
  }

  datatype ActivityType = AgentCreated | PauseChanged | Funding | Spending | PeriodRolling | Recognition | Allocation
                        | Settlement | FeeClaim | SplitterBinding

  datatype Activity = Activity(agent: AgentId, what: ActivityType, asset: Option<Address>, amount: Option<nat>)

  // ----- the handlers ------------------------------------------------------------------------------------

  type Key = (AgentId, Address)

  datatype Db = Db(contracts: map<Address, AgentId>, paused: map<AgentId, bool>, treasury: map<Key, TreasuryRow>,
                   revenue: map<Key, RevenueRow>, activity: seq<Activity>) {

    function TreasuryOf(k: Key): Option<TreasuryRow> { if k in treasury then Some(treasury[k]) else None }

    function RevenueOf(k: Key): Option<RevenueRow> { if k in revenue then Some(revenue[k]) else None }

    function AgentOf(address: Address): Option<AgentId> {
      if address in contracts then Some(contracts[address]) else None
    }

    function Bump(k: Key, change: TreasuryChange, time: nat): Db {
      this.(treasury := treasury[k := BumpedTreasury(TreasuryOf(k), change, time)])
    }

    function BumpRevenue(k: Key, change: RevenueChange, time: nat): Db {
      this.(revenue := revenue[k := BumpedRevenue(RevenueOf(k), change, time)])
    }

    function Recorded(a: Activity): Db { this.(activity := activity + [a]) }

    /** Link each address in turn; an address already linked throws. */
    function Linked(addresses: seq<Address>, agent: AgentId): Option<Db>
      decreases addresses
    {
      if addresses == [] then Some(this)
      else if addresses[0] in contracts then None
      else this.(contracts := contracts[addresses[0] := agent]).Linked(addresses[1..], agent)
    }

    function ApplyLaunch(e: Event): Option<Db>
      requires e.Launched?
    {
      if e.agent in paused then None
      else
        var linked := this.(paused := paused[e.agent := false]).Linked(Contracts(e), e.agent);
        if linked.None? then None else Some(linked.value.Recorded(Activity(e.agent, AgentCreated, None, None)))
    }

    /** An event from a contract of this agent; none when the handler throws. */
    function ApplyOwned(e: Event, agent: AgentId): Option<Db>
      requires !e.Launched?
    {
      match e
      case PausedSet(_, p) =>
        Some(this.(paused := paused[agent := p]).Recorded(Activity(agent, PauseChanged, None, None)))
      case Received(_, asset, amount, time) =>
        Some(Bump((agent, asset), TreasuryChange(Some(amount), None, None, None), time)
             .Recorded(Activity(agent, Funding, Some(asset), Some(amount))))
      case Spent(_, asset, amount, time) =>
        Some(Bump((agent, asset), TreasuryChange(None, Some(amount), Some(1), None), time)
             .Recorded(Activity(agent, Spending, Some(asset), Some(amount))))
      case PeriodRolled(_, asset, startedAt, time) =>
        Some(Bump((agent, asset), TreasuryChange(None, None, None, Some(startedAt)), time)
             .Recorded(Activity(agent, PeriodRolling, Some(asset), None)))
      case Recognised(_, asset, amount, totalReceived, time) =>
        Some(BumpRevenue((agent, asset), RevenueChange(Some(totalReceived), None, None), time)
             .Recorded(Activity(agent, Recognition, Some(asset), Some(amount))))
      case Allocated(_, asset, legs, time) =>
        Some(BumpRevenue((agent, asset), RevenueChange(None, Some(legs), None), time)
             .Recorded(Activity(agent, Allocation, Some(asset), Some(legs.Sum()))))
      case Settled(_, asset, leg, amount, time) =>
        if InColumn(leg, amount).None? then None
        else Some(BumpRevenue((agent, asset), RevenueChange(None, None, InColumn(leg, amount)), time)
                  .Recorded(Activity(agent, Settlement, Some(asset), Some(amount))))
      case FeesClaimed(_) => Some(Recorded(Activity(agent, FeeClaim, None, None)))
      case SplitterBound(_) => Some(Recorded(Activity(agent, SplitterBinding, None, None)))
    }

    function Apply(e: Event): Option<Db> {
      if e.Launched? then ApplyLaunch(e)
      else if AgentOf(e.emitter).None? then Some(this)
      else ApplyOwned(e, AgentOf(e.emitter).value)
    }
  }

  class AgentIndexer {
    var contracts: map<Address, AgentId>
    var paused: map<AgentId, bool>
    var treasury: map<Key, TreasuryRow>
    var revenue: map<Key, RevenueRow>
    var activity: seq<Activity>

    function State(): Db
      reads this
    {
      Db(contracts, paused, treasury, revenue, activity)
    }

    constructor ()
      ensures State() == Db(map[], map[], map[], map[], [])
    {
      contracts, paused, treasury, revenue, activity := map[], map[], map[], map[], [];
    }

    method OnAgentLaunched(e: Event) returns (ok: bool)
      requires e.Launched?
      modifies this
      ensures ok <==> old(State()).Apply(e).Some?
      ensures ok ==> State() == old(State()).Apply(e).value
    {
      if e.agent in paused { return false; }
      paused := paused[e.agent := false];
      ghost var before := State();
      var addresses := Contracts(e);
      for i := 0 to |addresses|
        invariant paused == before.paused && treasury == before.treasury && revenue == before.revenue
        invariant activity == before.activity
        invariant State().Linked(addresses[i..], e.agent) == before.Linked(addresses, e.agent)
      {
        if addresses[i] in contracts { return false; }
        assert addresses[i..][0] == addresses[i] && addresses[i..][1..] == addresses[i + 1..];
        contracts := contracts[addresses[i] := e.agent];
      }
      Record(e.agent, AgentCreated, None, None);
      return true;
    }

    method BumpTreasury(agent: AgentId, asset: Address, time: nat, change: TreasuryChange)
      modifies this`treasury
      ensures State() == old(State()).Bump((agent, asset), change, time)
    {
      var k := (agent, asset);
      if k !in treasury {
        treasury := treasury[k := TreasuryRow(OrZero(change.received), OrZero(change.spent), OrZero(change.spendCount),
                                              change.periodStartedAt, time)];
      } else {
        var row := treasury[k];
        treasury := treasury[k := TreasuryRow(
          row.received + OrZero(change.received), row.spent + OrZero(change.spent),
          row.spendCount + OrZero(change.spendCount),
          if change.periodStartedAt.Some? then change.periodStartedAt else row.periodStartedAt, time)];
      }
    }

    method BumpRevenue(agent: AgentId, asset: Address, time: nat, change: RevenueChange)
      modifies this`revenue
      ensures State() == old(State()).BumpRevenue((agent, asset), change, time)
    {
      var k := (agent, asset);
      if k !in revenue {
        revenue := revenue[k := RevenueRow(OrZero(change.received), OrNone(change.allotted), OrNone(change.settled), time)];
      } else {
        var row := revenue[k].(lastEventAt := time);
        if change.received.Some? { row := row.(received := change.received.value); }
        if change.allotted.Some? { row := row.(allotted := row.allotted.Plus(change.allotted.value)); }
        if change.settled.Some? { row := row.(settled := row.settled.Plus(change.settled.value)); }
        revenue := revenue[k := row];
      }
    }

    method Record(agent: AgentId, what: ActivityType, asset: Option<Address>, amount: Option<nat>)
      modifies this`activity
      ensures State() == old(State()).Recorded(Activity(agent, what, asset, amount))
    {
      activity := activity + [Activity(agent, what, asset, amount)];
    }

    /** Every handler but the launch's: find the contract's agent, bump its rows, and record. */
    method OnContractEvent(e: Event) returns (ok: bool)
      requires !e.Launched?
      modifies this
      ensures ok <==> old(State()).Apply(e).Some?
      ensures ok ==> State() == old(State()).Apply(e).value
    {
      var owner := State().AgentOf(e.emitter);
      if owner.None? { return true; }
      var agent := owner.value;
      match e {
        case PausedSet(_, p) =>
          paused := paused[agent := p];
          Record(agent, PauseChanged, None, None);
        case Received(_, asset, amount, time) =>
          BumpTreasury(agent, asset, time, TreasuryChange(Some(amount), None, None, None));
          Record(agent, Funding, Some(asset), Some(amount));
        case Spent(_, asset, amount, time) =>
          BumpTreasury(agent, asset, time, TreasuryChange(None, Some(amount), Some(1), None));
          Record(agent, Spending, Some(asset), Some(amount));
        case PeriodRolled(_, asset, startedAt, time) =>
          BumpTreasury(agent, asset, time, TreasuryChange(None, None, None, Some(startedAt)));
          Record(agent, PeriodRolling, Some(asset), None);
        case Recognised(_, asset, amount, totalReceived, time) =>
          BumpRevenue(agent, asset, time, RevenueChange(Some(totalReceived), None, None));
          Record(agent, Recognition, Some(asset), Some(amount));
        case Allocated(_, asset, legs, time) =>
          BumpRevenue(agent, asset, time, RevenueChange(None, Some(legs), None));
          Record(agent, Allocation, Some(asset), Some(legs.Sum()));
        case Settled(_, asset, leg, amount, time) =>
          var column := InColumn(leg, amount);
          if column.None? { return false; }
          BumpRevenue(agent, asset, time, RevenueChange(None, None, column));
          Record(agent, Settlement, Some(asset), Some(amount));
        case FeesClaimed(_) =>
          Record(agent, FeeClaim, None, None);
        case SplitterBound(_) =>
          Record(agent, SplitterBinding, None, None);
      }
      return true;
    }
  }

  // ----- what the log alone says ---------------------------------------------------------------------------

  const EMPTY := Db(map[], map[], map[], map[], [])

  /** The whole log, unless some handler throws. */
  function Replay(log: seq<Event>): Option<Db> {
    if log == [] then Some(EMPTY)
    else if Replay(Front(log)).None? then None
    else Replay(Front(log)).value.Apply(Last(log))
  }

  /** A launch names the agent's four contracts. */
  predicate Names(e: Event, address: Address)
    requires e.Launched?
  {
    address == e.mandate || address == e.treasury || address == e.router || address == e.executionModule
  }

  /** The agent whose launch named an address, if any did. */
  function Owner(log: seq<Event>, address: Address): Option<AgentId> {
    if log == [] then None
    else if Last(log).Launched? && Names(Last(log), address) then Some(Last(log).agent)
    else Owner(Front(log), address)
  }

  predicate HasLaunched(log: seq<Event>, agent: AgentId) {
    log != [] && ((Last(log).Launched? && Last(log).agent == agent) || HasLaunched(Front(log), agent))
  }

  /** The events of an agent's contracts since its launch. */
  function OwnEvents(log: seq<Event>, agent: AgentId): seq<Event> {
    if log == [] then []
    else
      OwnEvents(Front(log), agent)
      + if !Last(log).Launched? && Owner(Front(log), Last(log).emitter) == Some(agent) then [Last(log)] else []
  }

  predicate Distinct(addresses: seq<Address>) {
    forall i, j | 0 <= i < j < |addresses| :: addresses[i] != addresses[j]
  }

  /** Every launch is of a new agent with four new contracts, and every settled leg has a column. */
  predicate WellBehaved(log: seq<Event>) {
    log != [] ==>
      var front, e := Front(log), Last(log);
      && WellBehaved(front)
      && (e.Launched? ==> !HasLaunched(front, e.agent) && Distinct(Contracts(e))
                          && forall a | a in Contracts(e) :: Owner(front, a).None?)
      && (e.Settled? && Owner(front, e.emitter).Some? ==> e.leg < 4)
  }

  // ----- links and failures --------------------------------------------------------------------------------

  lemma {:induction false} LinkingLinksAll(db: Db, addresses: seq<Address>, agent: AgentId)
    ensures db.Linked(addresses, agent).Some? <==> Distinct(addresses) && forall a | a in addresses :: a !in db.contracts
    ensures db.Linked(addresses, agent).Some? ==>
              var after := db.Linked(addresses, agent).value;
              && after == db.(contracts := after.contracts)
              && forall a :: after.AgentOf(a) == if a in addresses then Some(agent) else db.AgentOf(a)
    decreases addresses
  {
    if addresses != [] {
      var rest := addresses[1..];
      assert forall a :: a in addresses <==> a == addresses[0] || a in rest;
      LinkingLinksAll(db.(contracts := db.contracts[addresses[0] := agent]), rest, agent);
      assert Distinct(addresses) <==> Distinct(rest) && addresses[0] !in rest by {
        if addresses[0] in rest {
          var j :| 0 <= j < |rest| && rest[j] == addresses[0];
          assert addresses[j + 1] == addresses[0];
        }
        assert Distinct(addresses) ==> Distinct(rest) by {
          assert forall i | 0 <= i < |rest| :: rest[i] == addresses[i + 1];
        }
      }
    }
  }

  /** The link table and the agents are what the launches of the log say. */
  ghost predicate LinksAreLaunches(db: Db, log: seq<Event>) {
    && (forall a :: db.AgentOf(a) == Owner(log, a))
    && (forall agent :: agent in db.paused <==> HasLaunched(log, agent))
  }

  lemma LaunchLinks(db: Db, front: seq<Event>, e: Event)
    requires LinksAreLaunches(db, front) && e.Launched?
    ensures db.Apply(e).Some? <==> !HasLaunched(front, e.agent) && Distinct(Contracts(e))
                                   && forall a | a in Contracts(e) :: Owner(front, a).None?
    ensures db.Apply(e).Some? ==> LinksAreLaunches(db.Apply(e).value, front + [e])
  {
    var entered := db.(paused := db.paused[e.agent := false]);
    LinkingLinksAll(entered, Contracts(e), e.agent);
    assert forall a :: a in db.contracts <==> db.AgentOf(a).Some?;
    assert Front(front + [e]) == front && Last(front + [e]) == e;
    if db.Apply(e).Some? {
      var after := db.Apply(e).value;
      forall a ensures after.AgentOf(a) == Owner(front + [e], a) {
        assert after.AgentOf(a) == entered.Linked(Contracts(e), e.agent).value.AgentOf(a);
        assert entered.AgentOf(a) == db.AgentOf(a);
      }
    }
  }

  lemma OwnedKeepsLinks(db: Db, e: Event, agent: AgentId)
    requires !e.Launched?
    ensures db.ApplyOwned(e, agent).None? <==> e.Settled? && e.leg >= 4
    ensures db.ApplyOwned(e, agent).Some? ==>
              db.ApplyOwned(e, agent).value.contracts == db.contracts
              && forall other :: other in db.ApplyOwned(e, agent).value.paused
                                 <==> other in db.paused || (e.PausedSet? && other == agent)
  {
  }

  lemma OwnedLinks(db: Db, front: seq<Event>, e: Event)
    requires LinksAreLaunches(db, front) && !e.Launched?
    ensures db.Apply(e).None? <==> e.Settled? && Owner(front, e.emitter).Some? && e.leg >= 4
    ensures db.Apply(e).Some? ==> LinksAreLaunches(db.Apply(e).value, front + [e])
  {
    hide Db.ApplyOwned;
    assert Front(front + [e]) == front && Last(front + [e]) == e;
    var owner := db.AgentOf(e.emitter);
    assert owner == Owner(front, e.emitter);
    if owner.Some? {
      OwnedKeepsLinks(db, e, owner.value);
      AnOwnerWasLaunched(front, e.emitter);
    }
    if db.Apply(e).Some? {
      assert forall a :: db.Apply(e).value.AgentOf(a) == db.AgentOf(a);
    }
  }

  lemma {:induction false} AnOwnerWasLaunched(log: seq<Event>, address: Address)
    requires Owner(log, address).Some?
    ensures HasLaunched(log, Owner(log, address).value)
  {
    if !(Last(log).Launched? && Names(Last(log), address)) {
      AnOwnerWasLaunched(Front(log), address);
    }
  }

  /** The indexer reaches the end of a log exactly when the log is well behaved, and then links by its launches. */
  lemma {:induction false} RunsToTheEndIff(log: seq<Event>)
    ensures Replay(log).Some? <==> WellBehaved(log)
    ensures Replay(log).Some? ==> LinksAreLaunches(Replay(log).value, log)
  {
    if log == [] {
      assert forall a :: EMPTY.AgentOf(a).None?;
    } else {
      RunsToTheEndIff(Front(log));
      if Replay(Front(log)).Some? {
        var before, e := Replay(Front(log)).value, Last(log);
        assert Front(log) + [e] == log;
        hide LinksAreLaunches, Db.Apply;
        if e.Launched? { LaunchLinks(before, Front(log), e); } else { OwnedLinks(before, Front(log), e); }
      }
    }
  }

  // ----- rows as folds of the log ----------------------------------------------------------------------------

  /** An event of a treasury about one asset. */
  predicate OfTreasury(e: Event, asset: Address) {
    (e.Received? || e.Spent? || e.PeriodRolled?) && e.asset == asset
  }

  predicate OfRevenue(e: Event, asset: Address) {
    (e.Recognised? || e.Allocated? || e.Settled?) && e.asset == asset
  }

  function ReceivedIn(events: seq<Event>, asset: Address): nat {
    if events == [] then 0
    else ReceivedIn(Front(events), asset) + if Last(events).Received? && Last(events).asset == asset then Last(events).amount else 0
  }

  function SpentIn(events: seq<Event>, asset: Address): nat {
    if events == [] then 0
    else SpentIn(Front(events), asset) + if Last(events).Spent? && Last(events).asset == asset then Last(events).amount else 0
  }

  function SpendsIn(events: seq<Event>, asset: Address): nat {
    if events == [] then 0
    else SpendsIn(Front(events), asset) + if Last(events).Spent? && Last(events).asset == asset then 1 else 0
  }

  function PeriodIn(events: seq<Event>, asset: Address): Option<nat> {
    if events == [] then None
    else if Last(events).PeriodRolled? && Last(events).asset == asset then Some(Last(events).startedAt)
    else PeriodIn(Front(events), asset)
  }

  function TreasurySeen(events: seq<Event>, asset: Address): Option<nat> {
    if events == [] then None
    else if OfTreasury(Last(events), asset) then Some(Last(events).time)
    else TreasurySeen(Front(events), asset)
  }

  /** The treasury row an agent's events amount to. */
  function TreasuryIn(events: seq<Event>, asset: Address): Option<TreasuryRow> {
    if TreasurySeen(events, asset).None? then None
    else Some(TreasuryRow(ReceivedIn(events, asset), SpentIn(events, asset), SpendsIn(events, asset),
                          PeriodIn(events, asset), TreasurySeen(events, asset).value))
  }

  /** The router's own running total, as last reported. */
  function ReportedIn(events: seq<Event>, asset: Address): nat {
    if events == [] then 0
    else if Last(events).Recognised? && Last(events).asset == asset then Last(events).totalReceived
    else ReportedIn(Front(events), asset)
  }

  function AllocatedIn(events: seq<Event>, asset: Address): Legs {
    if events == [] then NO_LEGS
    else if Last(events).Allocated? && Last(events).asset == asset then
      AllocatedIn(Front(events), asset).Plus(Last(events).legs)
    else AllocatedIn(Front(events), asset)
  }

  function SettledIn(events: seq<Event>, asset: Address, leg: nat): nat {
    if events == [] then 0
    else SettledIn(Front(events), asset, leg)
         + if Last(events).Settled? && Last(events).asset == asset && Last(events).leg == leg then Last(events).amount else 0
  }

  function RevenueSeen(events: seq<Event>, asset: Address): Option<nat> {
    if events == [] then None
    else if OfRevenue(Last(events), asset) then Some(Last(events).time)
    else RevenueSeen(Front(events), asset)
  }

  function RevenueIn(events: seq<Event>, asset: Address): Option<RevenueRow> {
    if RevenueSeen(events, asset).None? then None
    else Some(RevenueRow(ReportedIn(events, asset), AllocatedIn(events, asset),
                         Legs(SettledIn(events, asset, 0), SettledIn(events, asset, 1), SettledIn(events, asset, 2),
                              SettledIn(events, asset, 3)),
                         RevenueSeen(events, asset).value))
  }

  lemma {:induction false} UnseenMeansNothing(events: seq<Event>, asset: Address)
    ensures TreasurySeen(events, asset).None? ==>
              ReceivedIn(events, asset) == 0 && SpentIn(events, asset) == 0 && SpendsIn(events, asset) == 0
              && PeriodIn(events, asset).None?
    ensures RevenueSeen(events, asset).None? ==>
              ReportedIn(events, asset) == 0 && AllocatedIn(events, asset) == NO_LEGS
              && forall leg :: SettledIn(events, asset, leg) == 0
  {
    if events != [] {
      UnseenMeansNothing(Front(events), asset);
    }
  }

  lemma TreasuryFolds(db: Db, events: seq<Event>, e: Event, agent: AgentId, asset: Address)
    requires !e.Launched? && db.ApplyOwned(e, agent).Some?
    requires db.TreasuryOf((agent, asset)) == TreasuryIn(events, asset)
    ensures db.ApplyOwned(e, agent).value.TreasuryOf((agent, asset)) == TreasuryIn(events + [e], asset)
  {
    assert Front(events + [e]) == events && Last(events + [e]) == e;
    UnseenMeansNothing(events, asset);
  }

  lemma SettledMore(events: seq<Event>, e: Event, asset: Address, leg: nat)
    ensures SettledIn(events + [e], asset, leg)
            == SettledIn(events, asset, leg) + if e.Settled? && e.asset == asset && e.leg == leg then e.amount else 0
  {
    assert Front(events + [e]) == events;
  }

  lemma RevenueMore(events: seq<Event>, e: Event, asset: Address)
    ensures ReportedIn(events + [e], asset)
            == if e.Recognised? && e.asset == asset then e.totalReceived else ReportedIn(events, asset)
    ensures AllocatedIn(events + [e], asset)
            == if e.Allocated? && e.asset == asset then AllocatedIn(events, asset).Plus(e.legs) else AllocatedIn(events, asset)
    ensures RevenueSeen(events + [e], asset) == if OfRevenue(e, asset) then Some(e.time) else RevenueSeen(events, asset)
  {
    assert Front(events + [e]) == events;
  }

  lemma RevenueFolds(db: Db, events: seq<Event>, e: Event, agent: AgentId, asset: Address)
    requires !e.Launched? && db.ApplyOwned(e, agent).Some?
    requires db.RevenueOf((agent, asset)) == RevenueIn(events, asset)
    ensures db.ApplyOwned(e, agent).value.RevenueOf((agent, asset)) == RevenueIn(events + [e], asset)
  {
    hide ReportedIn, AllocatedIn, SettledIn, RevenueSeen;
    UnseenMeansNothing(events, asset);
    RevenueMore(events, e, asset);
    SettledMore(events, e, asset, 0);
    SettledMore(events, e, asset, 1);
    SettledMore(events, e, asset, 2);
    SettledMore(events, e, asset, 3);
  }

  /** An event of one agent's contract changes no row of another's. */
  lemma OthersKeepTheirRows(db: Db, e: Event, agent: AgentId, asset: Address)
    requires db.Apply(e).Some?
    requires e.Launched? || db.AgentOf(e.emitter) != Some(agent)
    ensures db.Apply(e).value.TreasuryOf((agent, asset)) == db.TreasuryOf((agent, asset))
    ensures db.Apply(e).value.RevenueOf((agent, asset)) == db.RevenueOf((agent, asset))
    ensures !e.Launched? && agent in db.paused ==> agent in db.Apply(e).value.paused
                                                   && db.Apply(e).value.paused[agent] == db.paused[agent]
  {
    if e.Launched? {
      LinkingLinksAll(db.(paused := db.paused[e.agent := false]), Contracts(e), e.agent);
    }
  }

  /** In every run, an agent's rows are the sums and last reports of its own contracts' events. */
  lemma {:induction false} RowsAreFolds(log: seq<Event>, agent: AgentId, asset: Address)
    requires Replay(log).Some?
    ensures Replay(log).value.TreasuryOf((agent, asset)) == TreasuryIn(OwnEvents(log, agent), asset)
    ensures Replay(log).value.RevenueOf((agent, asset)) == RevenueIn(OwnEvents(log, agent), asset)
  {
    if log != [] {
      var before, e, own := Replay(Front(log)).value, Last(log), OwnEvents(Front(log), agent);
      RowsAreFolds(Front(log), agent, asset);
      RunsToTheEndIff(Front(log));
      hide TreasuryIn, RevenueIn, Db.ApplyOwned, Db.ApplyLaunch;
      if !e.Launched? && Owner(Front(log), e.emitter) == Some(agent) {
        TreasuryFolds(before, own, e, agent, asset);
        RevenueFolds(before, own, e, agent, asset);
        assert OwnEvents(log, agent) == own + [e];
      } else {
        assert e.Launched? || before.AgentOf(e.emitter) != Some(agent);
        OthersKeepTheirRows(before, e, agent, asset);
        assert OwnEvents(log, agent) == own;
      }
    }
  }

  // ----- the feed against the rows --------------------------------------------------------------------------

  /** The spends of a feed: their sum and their number. */
  function FeedSpent(activity: seq<Activity>, agent: AgentId, asset: Address): nat {
    if activity == [] then 0
    else
      var a := Last(activity);
      FeedSpent(Front(activity), agent, asset)
      + if a.agent == agent && a.what == Spending && a.asset == Some(asset) then OrZero(a.amount) else 0
  }

  function FeedSpends(activity: seq<Activity>, agent: AgentId, asset: Address): nat {
    if activity == [] then 0
    else
      var a := Last(activity);
      FeedSpends(Front(activity), agent, asset)
      + if a.agent == agent && a.what == Spending && a.asset == Some(asset) then 1 else 0
  }

  function RowSpent(row: Option<TreasuryRow>): (nat, nat) {
    if row.None? then (0, 0) else (row.value.spent, row.value.spendCount)
  }

  /** How an event's one activity row and its treasury bump agree. */
  lemma RecordsMatchBumps(db: Db, e: Event, agent: AgentId, asset: Address)
    requires db.Apply(e).Some?
    ensures
      var after, row := db.Apply(e).value, RowSpent(db.TreasuryOf((agent, asset)));
      var counts := !e.Launched? && e.Spent? && e.asset == asset && db.AgentOf(e.emitter) == Some(agent);
      && RowSpent(after.TreasuryOf((agent, asset))) == (if counts then (row.0 + e.amount, row.1 + 1) else row)
      && db.activity <= after.activity && |after.activity| <= |db.activity| + 1
      && (if |after.activity| == |db.activity| then !counts
          else
            var a := Last(after.activity);
            && (a.agent == agent && a.what == Spending && a.asset == Some(asset) <==> counts)
            && (counts ==> a.amount == Some(e.amount)))
  {
    var after := db.Apply(e).value;
    if e.Launched? {
      LinkingLinksAll(db.(paused := db.paused[e.agent := false]), Contracts(e), e.agent);
    }
  }

  /** One event keeps an agent's spends in the feed equal to its treasury's counters. */
  lemma FeedKeepsUp(db: Db, e: Event, agent: AgentId, asset: Address)
    requires db.Apply(e).Some?
    requires RowSpent(db.TreasuryOf((agent, asset)))
             == (FeedSpent(db.activity, agent, asset), FeedSpends(db.activity, agent, asset))
    ensures
      var after := db.Apply(e).value;
      RowSpent(after.TreasuryOf((agent, asset)))
      == (FeedSpent(after.activity, agent, asset), FeedSpends(after.activity, agent, asset))
  {
    hide Db.Apply, Db.TreasuryOf, RowSpent;
    RecordsMatchBumps(db, e, agent, asset);
    var after := db.Apply(e).value;
    if |after.activity| > |db.activity| {
      assert Front(after.activity) == db.activity;
    } else {
      assert after.activity == db.activity;
    }
  }

  /** In every run, the spends in an agent's feed sum and count to its treasury's counters. */
  lemma {:induction false} FeedMatchesTheTreasury(log: seq<Event>, agent: AgentId, asset: Address)
    requires Replay(log).Some?
    ensures
      var db := Replay(log).value;
      RowSpent(db.TreasuryOf((agent, asset))) == (FeedSpent(db.activity, agent, asset), FeedSpends(db.activity, agent, asset))
  {
    if log != [] {
      FeedMatchesTheTreasury(Front(log), agent, asset);
      hide Db.Apply, Db.TreasuryOf, RowSpent, FeedSpent, FeedSpends;
      FeedKeepsUp(Replay(Front(log)).value, Last(log), agent, asset);
    }
  }
}
