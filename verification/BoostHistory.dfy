/**
  * What a log alone says of a market's switches, its escrow and its stored rows: the fields of
  * apps/instant-indexer/src/instant.ts that are set rather than summed.
  */
module BoostHistory {

  import opened Basics
  import opened BoostLedger

  /** The part of a log after a market was created. */
  function Since(log: seq<Event>, pool: PoolId): seq<Event> {
    if log == [] || (Last(log).Created? && Last(log).pool == pool) then [] else Since(Front(log), pool) + [Last(log)]
  }

  // ----- switches and escrow -----------------------------------------------------------------------------

  /** The last time the switch was thrown or locked, and which way. */
  function SwitchedOn(events: seq<Event>, token: Address): bool {
    if events == [] then false
    else
      var e := Last(events);
      if e.BoostSet? && e.token == token then e.enabled
      else (e.Locked? && e.token == token) || SwitchedOn(Front(events), token)
  }

  function LastEnrolled(events: seq<Event>, pool: PoolId): Option<Address> {
    if events == [] then None
    else if Last(events).Enrolled? && Last(events).pool == pool then Some(Last(events).escrow)
    else LastEnrolled(Front(events), pool)
  }

  function FirstExecuted(events: seq<Event>, token: Address): Option<Address>
    decreases events
  {
    if events == [] then None
    else if events[0].Executed? && events[0].token == token then Some(events[0].escrow)
    else FirstExecuted(events[1..], token)
  }

  /** A row's switches are the last ones thrown, and its escrow the last enrolled or else the first to buy. */
  ghost predicate Told(m: Market, events: seq<Event>, pool: PoolId) {
    && m.enabled == SwitchedOn(events, m.token)
    && (m.locked <==> Locked(m.token) in events)
    && (m.captured <==> exists amount :: Routed(m.token, amount) in events)
    && m.escrow == if LastEnrolled(events, pool).Some? then LastEnrolled(events, pool) else FirstExecuted(events, m.token)
  }

  lemma {:induction false} FirstExecutedMore(events: seq<Event>, e: Event, token: Address)
    ensures FirstExecuted(events + [e], token)
            == if FirstExecuted(events, token).Some? then FirstExecuted(events, token)
               else if e.Executed? && e.token == token then Some(e.escrow) else None
    decreases events
  {
    if events == [] {
      assert (events + [e])[1..] == [];
    } else {
      FirstExecutedMore(events[1..], e, token);
      assert (events + [e])[1..] == events[1..] + [e];
    }
  }

  lemma SwitchesOfMore(m: Market, events: seq<Event>, e: Event, pool: PoolId)
    ensures SwitchedOn(events + [e], m.token)
            == if e.BoostSet? && e.token == m.token then e.enabled
               else (e.Locked? && e.token == m.token) || SwitchedOn(events, m.token)
    ensures Locked(m.token) in events + [e] <==> Locked(m.token) in events || e == Locked(m.token)
    ensures (exists amount :: Routed(m.token, amount) in events + [e])
            <==> (exists amount :: Routed(m.token, amount) in events) || (e.Routed? && e.token == m.token)
    ensures LastEnrolled(events + [e], pool)
            == if e.Enrolled? && e.pool == pool then Some(e.escrow) else LastEnrolled(events, pool)
  {
    assert Front(events + [e]) == events && Last(events + [e]) == e;
    assert forall f :: f in events + [e] <==> f in events || f == e;
    if e.Routed? {
      assert Routed(e.token, e.amount) in events + [e];
    }
  }

  lemma {:induction false} OneMoreTold(m: Market, events: seq<Event>, e: Event, pool: PoolId)
    requires Told(m, events, pool)
    ensures Told(if Concerns(e, pool, m.token, m.vault) then Change(m, e) else m, events + [e], pool)
  {
    hide FirstExecuted, SwitchedOn, LastEnrolled;
    FirstExecutedMore(events, e, m.token);
    SwitchesOfMore(m, events, e, pool);
  }

  lemma {:induction false} ExpectedIsTold(log: seq<Event>, pool: PoolId)
    requires Creation(log, pool).Some?
    ensures Expected(log, pool).token == Creation(log, pool).value.token
    ensures Expected(log, pool).vault == Creation(log, pool).value.vault
    ensures Told(Expected(log, pool), Since(log, pool), pool)
  {
    hide Change, Told, RowRun;
    var created := Creation(log, pool).value;
    NamesStayForever(NewMarket(created.token, created.vault), History(log, pool));
    if Last(log).Created? && Last(log).pool == pool {
      NewRow(created.token, created.vault);
      NewIsTold(created.token, created.vault, pool);
    } else {
      ExpectedIsTold(Front(log), pool);
      ExpectedStep(log, pool);
      OneMoreTold(Expected(Front(log), pool), Since(Front(log), pool), Last(log), pool);
    }
  }

  lemma NewIsTold(token: Address, vault: Address, pool: PoolId)
    ensures Told(NewMarket(token, vault), [], pool)
  {
  }

  /** In every log, a market's names are its creation's, and its switches and escrow what came after that. */
  lemma {:induction false} SwitchesFollowTheLog(log: seq<Event>, pool: PoolId)
    requires Accepted(EMPTY, log) && Creation(log, pool).Some?
    ensures pool in Replay(EMPTY, log).markets
    ensures
      var m := Replay(EMPTY, log).markets[pool];
      && Created(pool, m.token, m.vault) == Creation(log, pool).value
      && Told(m, Since(log, pool), pool)
  {
    hide Told, Replay;
    RowsAreTheirHistories(log, pool);
    ExpectedIsTold(log, pool);
  }

  // ----- the stored rows ---------------------------------------------------------------------------------

  /** The log has created a market with this pool and token. */
  predicate Trades(log: seq<Event>, pool: PoolId, token: Address) {
    Creation(log, pool).Some? && Creation(log, pool).value.token == token
  }

  /** The buyback rows are the log's buybacks, each under the market its token had by then, if any. */
  ghost predicate BuybacksTold(rows: seq<Buyback>, log: seq<Event>) {
    if log == [] then rows == []
    else if !Last(log).Executed? then BuybacksTold(rows, Front(log))
    else
      var e := Last(log);
      && rows != [] && BuybacksTold(Front(rows), Front(log))
      && var row := Last(rows);
         && row.token == e.token && row.etherSpent == e.etherSpent && row.tokensBought == e.tokensBought
         && row.cumulativeSunk == e.cumulativeSunk
         && forall pool: PoolId :: row.pool == Some(pool) <==> Trades(Front(log), pool, e.token)
  }

  /** A row gives back both legs of its swap, if they have opposite signs: a buy pays quote and is paid tokens. */
  predicate GivesBack(row: SwapRow, e: Event)
    requires e.Swapped?
  {
    && row.pool == e.pool
    && (if row.buy then e.amount0 + row.quote == 0 && row.quote > 0 else e.amount0 == row.quote)
    && (e.amount1 == row.token || e.amount1 + row.token == 0)
    && ((if row.buy then e.amount1 == row.token else e.amount1 + row.token == 0)
        <==> (if e.amount0 < 0 then e.amount1 >= 0 else e.amount1 <= 0))
  }

  /** The swap rows are the log's swaps in the pools it had created by then. */
  ghost predicate SwapsTold(rows: seq<SwapRow>, log: seq<Event>) {
    if log == [] then rows == []
    else if Last(log).Swapped? && Creation(Front(log), Last(log).pool).Some? then
      rows != [] && SwapsTold(Front(rows), Front(log)) && GivesBack(Last(rows), Last(log))
    else SwapsTold(rows, Front(log))
  }

  lemma BuybackRow(db: Db, e: Event)
    requires db.Distinct()
    ensures !e.Executed? ==> db.Apply(e).buybacks == db.buybacks
    ensures e.Executed? ==>
              && db.Apply(e).buybacks != [] && Front(db.Apply(e).buybacks) == db.buybacks
              && var row := Last(db.Apply(e).buybacks);
                 && row.token == e.token && row.etherSpent == e.etherSpent && row.tokensBought == e.tokensBought
                 && row.cumulativeSunk == e.cumulativeSunk
                 && forall pool: PoolId :: row.pool == Some(pool) <==> pool in db.markets && db.markets[pool].token == e.token
  {
    hide Change;
    if e.Executed? {
      forall pool | pool in db.markets && db.markets[pool].token == e.token
        ensures db.Found(e) == Some(pool)
      {
        FoundIsTheOne(db, e, pool);
      }
    }
  }

  lemma SwapRowOf(db: Db, e: Event)
    requires db.Distinct()
    ensures !(e.Swapped? && e.pool in db.markets) ==> db.Apply(e).swaps == db.swaps
    ensures e.Swapped? && e.pool in db.markets ==>
              && db.Apply(e).swaps != [] && Front(db.Apply(e).swaps) == db.swaps
              && GivesBack(Last(db.Apply(e).swaps), e)
  {
    hide Change;
    if e.Swapped? && e.pool in db.markets {
      FoundIsTheOne(db, e, e.pool);
    }
  }

  /** In every log, the stored buybacks and swaps are the log's, in its order and with its figures. */
  lemma {:induction false} RowsTellTheLog(log: seq<Event>)
    requires Accepted(EMPTY, log)
    ensures BuybacksTold(Replay(EMPTY, log).buybacks, log)
    ensures SwapsTold(Replay(EMPTY, log).swaps, log)
  {
    if log != [] {
      var front, e := Front(log), Last(log);
      var before := Replay(EMPTY, front);
      RowsTellTheLog(front);
      hide Change, Db.Apply, Db.Distinct, GivesBack, Creation, Expected;
      RowsAreTheirHistories(front, 0);
      BuybackRow(before, e);
      SwapRowOf(before, e);
      forall pool
        ensures pool in before.markets <==> Creation(front, pool).Some?
        ensures pool in before.markets ==> before.markets[pool].token == Creation(front, pool).value.token
      {
        RowsAreTheirHistories(front, pool);
        if pool in before.markets {
          ExpectedIsTold(front, pool);
        }
      }
    }
  }
}
