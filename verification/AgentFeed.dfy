/**
  * What a log alone says of an agent's switch and of its feed: the rows `record` writes and the
  * `paused` column of apps/indexer/src/agents.ts.
  */
module AgentFeed {

  import opened Basics
  import opened AgentLedger

  // ----- the switch ---------------------------------------------------------------------------------------

  /** The last state its treasury reported; an agent starts running. */
  function PausedIn(events: seq<Event>): bool {
    if events == [] then false
    else if Last(events).PausedSet? then Last(events).paused
    else PausedIn(Front(events))
  }

  predicate PausedTold(db: Db, agent: AgentId, events: seq<Event>) {
    agent in db.paused && db.paused[agent] == PausedIn(events)
  }

  lemma {:induction false} OwnedSwitch(db: Db, events: seq<Event>, e: Event, agent: AgentId)
    requires !e.Launched? && db.ApplyOwned(e, agent).Some? && PausedTold(db, agent, events)
    ensures PausedTold(db.ApplyOwned(e, agent).value, agent, events + [e])
  {
    assert Front(events + [e]) == events && Last(events + [e]) == e;
  }

  lemma LaunchedSwitch(db: Db, e: Event, agent: AgentId)
    requires e.Launched? && db.Apply(e).Some?
    ensures e.agent !in db.paused && PausedTold(db.Apply(e).value, e.agent, [])
    ensures agent != e.agent && agent in db.paused ==>
              agent in db.Apply(e).value.paused && db.Apply(e).value.paused[agent] == db.paused[agent]
  {
    LinkingLinksAll(db.(paused := db.paused[e.agent := false]), Contracts(e), e.agent);
  }

  lemma {:induction false} NoneOwnedBeforeLaunch(log: seq<Event>, agent: AgentId)
    requires !HasLaunched(log, agent)
    ensures OwnEvents(log, agent) == []
  {
    if log != [] {
      NoneOwnedBeforeLaunch(Front(log), agent);
      if !Last(log).Launched? && Owner(Front(log), Last(log).emitter).Some? {
        AnOwnerWasLaunched(Front(log), Last(log).emitter);
      }
    }
  }

  /** In every run, an agent's stored switch is the last one its own contracts reported. */
  lemma {:induction false} SwitchIsTheLastReport(log: seq<Event>, agent: AgentId)
    requires Replay(log).Some? && HasLaunched(log, agent)
    ensures PausedTold(Replay(log).value, agent, OwnEvents(log, agent))
  {
    hide Db.ApplyOwned, Db.ApplyLaunch, PausedIn;
    var front, e := Front(log), Last(log);
    var before := Replay(front).value;
    RunsToTheEndIff(front);
    if e.Launched? && e.agent == agent {
      LaunchedSwitch(before, e, agent);
      NoneOwnedBeforeLaunch(front, agent);
      assert OwnEvents(log, agent) == [];
    } else {
      SwitchIsTheLastReport(front, agent);
      if e.Launched? {
        LaunchedSwitch(before, e, agent);
        assert OwnEvents(log, agent) == OwnEvents(front, agent);
      } else if Owner(front, e.emitter) == Some(agent) {
        assert before.AgentOf(e.emitter) == Some(agent);
        OwnedSwitch(before, OwnEvents(front, agent), e, agent);
        assert OwnEvents(log, agent) == OwnEvents(front, agent) + [e];
      } else {
        assert before.AgentOf(e.emitter) != Some(agent);
        OthersKeepTheirRows(before, e, agent, 0);
        assert OwnEvents(log, agent) == OwnEvents(front, agent);
      }
    }
  }

  // ----- the feed -----------------------------------------------------------------------------------------

  /** One activity says who, what kind of event, and the asset and amount the event itself carries. */
  predicate Says(a: Activity, e: Event, agent: AgentId) {
    && a.agent == agent
    && (a.what.AgentCreated? <==> e.Launched?) && (a.what.PauseChanged? <==> e.PausedSet?)
    && (a.what.Funding? <==> e.Received?) && (a.what.Spending? <==> e.Spent?)
    && (a.what.PeriodRolling? <==> e.PeriodRolled?) && (a.what.Recognition? <==> e.Recognised?)
    && (a.what.Allocation? <==> e.Allocated?) && (a.what.Settlement? <==> e.Settled?)
    && (a.what.FeeClaim? <==> e.FeesClaimed?) && (a.what.SplitterBinding? <==> e.SplitterBound?)
    && a.asset == (if e.Launched? || e.PausedSet? || e.FeesClaimed? || e.SplitterBound? then None else Some(e.asset))
    && a.amount == if e.Received? || e.Spent? || e.Recognised? || e.Settled? then Some(e.amount)
                   else if e.Allocated? then
                     Some(e.legs.operations + e.legs.buybacks + e.legs.developer + e.legs.protocol)
                   else None
  }

  /** The agent an event belongs to: the one launched, or the one a launch linked its emitter to. */
  function AgentOf(front: seq<Event>, e: Event): Option<AgentId> {
    if e.Launched? then Some(e.agent) else Owner(front, e.emitter)
  }

  /** The feed is one activity for each event that belongs to an agent, in the log's order. */
  predicate FeedTold(activity: seq<Activity>, log: seq<Event>) {
    if log == [] then activity == []
    else
      var front, e := Front(log), Last(log);
      if AgentOf(front, e).None? then FeedTold(activity, front)
      else activity != [] && FeedTold(Front(activity), front) && Says(Last(activity), e, AgentOf(front, e).value)
  }

  lemma OwnedIsSaid(db: Db, e: Event, agent: AgentId)
    requires !e.Launched? && db.ApplyOwned(e, agent).Some?
    ensures
      var after := db.ApplyOwned(e, agent).value.activity;
      after != [] && Front(after) == db.activity && Says(Last(after), e, agent)
  {
    hide BumpedTreasury, BumpedRevenue, InColumn;
    OneIsAdded(db, e, agent);
  }

  lemma OneIsAdded(db: Db, e: Event, agent: AgentId)
    requires !e.Launched? && db.ApplyOwned(e, agent).Some?
    ensures
      var after := db.ApplyOwned(e, agent).value.activity;
      after != [] && Front(after) == db.activity
  {
    hide BumpedTreasury, BumpedRevenue, InColumn;
  }

  lemma LaunchIsSaid(db: Db, e: Event)
    requires e.Launched? && db.Apply(e).Some?
    ensures
      var after := db.Apply(e).value.activity;
      after != [] && Front(after) == db.activity && Says(Last(after), e, e.agent)
  {
    LinkingLinksAll(db.(paused := db.paused[e.agent := false]), Contracts(e), e.agent);
  }

  /** In every run, the whole feed is told by the log. */
  lemma {:induction false} FeedTellsTheLog(log: seq<Event>)
    requires Replay(log).Some?
    ensures FeedTold(Replay(log).value.activity, log)
  {
    if log != [] {
      hide Db.ApplyOwned, Db.ApplyLaunch, Says;
      var front, e := Front(log), Last(log);
      var before := Replay(front).value;
      FeedTellsTheLog(front);
      RunsToTheEndIff(front);
      if e.Launched? {
        LaunchIsSaid(before, e);
      } else if before.AgentOf(e.emitter).Some? {
        OwnedIsSaid(before, e, before.AgentOf(e.emitter).value);
      }
    }
  }
}
