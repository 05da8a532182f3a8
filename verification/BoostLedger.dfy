/**
  * What a market's buybacks cost and who paid for them: the Boost handlers, `Accrued`,
  * `updateByToken`, `marketByToken` and `indexInstantSwap` of apps/instant-indexer/src/instant.ts.
  */
module BoostLedger {

  import opened Basics

  type PoolId = nat
  type Address = nat

  datatype Market = Market(
    token: Address, vault: Address, escrow: Option<Address>, enabled: bool, locked: bool, captured: bool,
    spent: nat, routed: nat, donated: nat, boostQuote: nat, boostToken: nat, sunk: nat, count: nat,
    etherLeg: nat, creatorFees: nat, platformFees: nat, swapCount: nat, volumeQuote: nat, volumeToken: nat)

  /** A market as it is first written. */
  function NewMarket(token: Address, vault: Address): Market {
    Market(token, vault, None, false, false, false, 0, 0, 0, 0, 0, 0, 0, 0, 0, 0, 0, 0, 0)
  }

  datatype Buyback = Buyback(pool: Option<PoolId>, token: Address, etherSpent: nat, tokensBought: nat, cumulativeSunk: nat)

  datatype SwapRow = SwapRow(pool: PoolId, buy: bool, quote: nat, token: nat)

  datatype Event =
    | Created(pool: PoolId, token: Address, vault: Address)
    | Enrolled(pool: PoolId, escrow: Address)
    | BoostSet(token: Address, enabled: bool)
    | Locked(token: Address)
    | Funded(token: Address, amount: nat, fromAgen: bool)
    | Routed(token: Address, amount: nat)
    | Executed(token: Address, escrow: Address, etherSpent: nat, tokensBought: nat, cumulativeSunk: nat)
    | Accrued(vault: Address, etherLeg: nat, creator: nat, platform: nat)
    | Swapped(pool: PoolId, amount0: int, amount1: int)

  /** What an event does to the row of the market it belongs to. */
  function Change(m: Market, e: Event): Market {
    match e
    case Created(_, _, _) => m
    case Enrolled(_, escrow) => m.(escrow := Some(escrow))
    case BoostSet(_, enabled) => m.(enabled := enabled)
    case Locked(_) => m.(enabled := true, locked := true)
    case Funded(_, amount, fromAgen) => if fromAgen then m.(donated := m.donated + amount) else m
    case Routed(_, amount) =>
      m.(routed := m.routed + amount, donated := if m.donated > amount then m.donated - amount else 0, captured := true)
    case Executed(_, escrow, etherSpent, tokensBought, cumulativeSunk) =>
      m.(escrow := if m.escrow.Some? then m.escrow else Some(escrow), spent := m.spent + etherSpent,
         boostQuote := m.boostQuote + etherSpent, boostToken := m.boostToken + tokensBought,
         sunk := cumulativeSunk, count := m.count + 1)
    case Accrued(_, etherLeg, creator, platform) =>
      m.(etherLeg := m.etherLeg + etherLeg, creatorFees := m.creatorFees + creator,
         platformFees := m.platformFees + platform)
    case Swapped(_, amount0, amount1) =>
      m.(swapCount := m.swapCount + 1, volumeQuote := m.volumeQuote + Abs(amount0),
         volumeToken := m.volumeToken + Abs(amount1))
  }

  /** Whether an event is about the market with this pool, token and vault. */
  predicate Concerns(e: Event, pool: PoolId, token: Address, vault: Address) {
    match e
    case Created(_, _, _) => false
    case Enrolled(p, _) => p == pool
    case Swapped(p, _, _) => p == pool
    case Accrued(v, _, _, _) => v == vault
    case _ => e.token == token
  }

  datatype Db = Db(markets: map<PoolId, Market>, buybacks: seq<Buyback>, swaps: seq<SwapRow>) {

    /** No two markets share a token or a vault. */
    ghost predicate Distinct() {
      forall p, q | p in markets && q in markets && p != q ::
        markets[p].token != markets[q].token && markets[p].vault != markets[q].vault
    }

    ghost predicate About(e: Event, pool: PoolId) {
      pool in markets && Concerns(e, pool, markets[pool].token, markets[pool].vault)
    }

    /** The market a query for the event finds, if this feed has one. */
    ghost function Found(e: Event): (pool: Option<PoolId>)
      ensures pool.Some? ==> About(e, pool.value)
      ensures pool.None? ==> forall p :: !About(e, p)
    {
      if p :| About(e, p) then Some(p) else None
    }

    /** A creation names a pool, token and vault of its own. */
    ghost predicate Accepts(e: Event) {
      e.Created? ==> e.pool !in markets
                     && forall p | p in markets :: markets[p].token != e.token && markets[p].vault != e.vault
    }

    ghost function Apply(e: Event): Db {
      if e.Created? then this.(markets := markets[e.pool := NewMarket(e.token, e.vault)])
      else
        var pool := Found(e);
        Db(if pool.Some? then markets[pool.value := Change(markets[pool.value], e)] else markets,
           if e.Executed? then buybacks + [Buyback(pool, e.token, e.etherSpent, e.tokensBought, e.cumulativeSunk)]
           else buybacks,
           if e.Swapped? && pool.Some? then swaps + [SwapRow(pool.value, e.amount0 < 0, Abs(e.amount0), Abs(e.amount1))]
           else swaps)
    }
  }

  lemma FoundIsTheOne(db: Db, e: Event, pool: PoolId)
    requires db.Distinct() && db.About(e, pool)
    ensures db.Found(e) == Some(pool)
  {
  }

  class InstantIndexer {
    var markets: map<PoolId, Market>
    var buybacks: seq<Buyback>
    var swaps: seq<SwapRow>

    ghost function State(): Db
      reads this
    {
      Db(markets, buybacks, swaps)
    }

    constructor ()
      ensures State() == Db(map[], [], [])
    {
      markets, buybacks, swaps := map[], [], [];
    }

    /** Inserting a pool that is already there throws. */
    method OnMarketCreated(e: Event) returns (ok: bool)
      requires e.Created?
      modifies this`markets
      ensures ok <==> e.pool !in old(markets)
      ensures State() == if ok then old(State()).Apply(e) else old(State())
    {
      if e.pool in markets { return false; }
      markets := markets[e.pool := NewMarket(e.token, e.vault)];
      return true;
    }

    /** The market a token belongs to; the query's limit of one decides nothing while tokens are distinct. */
    method MarketByToken(token: Address) returns (pool: Option<PoolId>)
      ensures pool.Some? ==> pool.value in markets && markets[pool.value].token == token
      ensures pool.None? ==> forall p | p in markets :: markets[p].token != token
    {
      if p :| p in markets && markets[p].token == token {
        return Some(p);
      }
      return None;
    }

    method UpdateByToken(e: Event)
      requires State().Distinct()
      requires e.BoostSet? || e.Locked? || e.Funded? || e.Routed?
      modifies this`markets
      ensures State() == old(State()).Apply(e)
    {
      var pool := MarketByToken(e.token);
      if pool.Some? {
        FoundIsTheOne(State(), e, pool.value);
        markets := markets[pool.value := Change(markets[pool.value], e)];
      }
    }

    method OnBoostFunded(e: Event)
      requires e.Funded? && State().Distinct()
      modifies this`markets
      ensures State() == old(State()).Apply(e)
    {
      if !e.fromAgen {
        var found := State().Found(e);
        assert found.Some? ==> markets[found.value := markets[found.value]] == markets;
        return;
      }
      UpdateByToken(e);
    }

    method OnMarketEnrolled(e: Event)
      requires e.Enrolled? && State().Distinct()
      modifies this`markets
      ensures State() == old(State()).Apply(e)
    {
      if e.pool !in markets { return; }
      FoundIsTheOne(State(), e, e.pool);
      markets := markets[e.pool := markets[e.pool].(escrow := Some(e.escrow))];
    }

    method OnBoostExecuted(e: Event)
      requires e.Executed? && State().Distinct()
      modifies this`markets, this`buybacks
      ensures State() == old(State()).Apply(e)
    {
      var pool := MarketByToken(e.token);
      if pool.Some? {
        FoundIsTheOne(State(), e, pool.value);
      }
      buybacks := buybacks + [Buyback(pool, e.token, e.etherSpent, e.tokensBought, e.cumulativeSunk)];
      if pool.None? { return; }
      var row := markets[pool.value];
      markets := markets[pool.value := row.(
        escrow := if row.escrow.Some? then row.escrow else Some(e.escrow), spent := row.spent + e.etherSpent,
        boostQuote := row.boostQuote + e.etherSpent, boostToken := row.boostToken + e.tokensBought,
        sunk := e.cumulativeSunk, count := row.count + 1)];
    }

    method OnAccrued(e: Event)
      requires e.Accrued? && State().Distinct()
      modifies this`markets
      ensures State() == old(State()).Apply(e)
    {
      if p :| p in markets && markets[p].vault == e.vault {
        FoundIsTheOne(State(), e, p);
        var row := markets[p];
        markets := markets[p := row.(etherLeg := row.etherLeg + e.etherLeg, creatorFees := row.creatorFees + e.creator,
                                     platformFees := row.platformFees + e.platform)];
      }
    }

    method IndexInstantSwap(e: Event) returns (handled: bool)
      requires e.Swapped? && State().Distinct()
      modifies this`markets, this`swaps
      ensures State() == old(State()).Apply(e)
      ensures handled == (e.pool in old(markets))
    {
      if e.pool !in markets { return false; }
      FoundIsTheOne(State(), e, e.pool);
      var quoteAmount := if e.amount0 < 0 then -e.amount0 else e.amount0;
      var tokenAmount := if e.amount1 < 0 then -e.amount1 else e.amount1;
      swaps := swaps + [SwapRow(e.pool, e.amount0 < 0, quoteAmount, tokenAmount)];
      var row := markets[e.pool];
      markets := markets[e.pool := row.(swapCount := row.swapCount + 1, volumeQuote := row.volumeQuote + quoteAmount,
                                        volumeToken := row.volumeToken + tokenAmount)];
      return true;
    }
  }

  const EMPTY := Db(map[], [], [])

  // ----- whole logs ---------------------------------------------------------------------------------

  ghost function Replay(db: Db, log: seq<Event>): Db {
    if log == [] then db else Replay(db, Front(log)).Apply(Last(log))
  }

  /** Every creation in the log names a market of its own. */
  ghost predicate Accepted(db: Db, log: seq<Event>) {
    log != [] ==> Accepted(db, Front(log)) && Replay(db, Front(log)).Accepts(Last(log))
  }

  lemma NamesStay(m: Market, e: Event)
    ensures Change(m, e).token == m.token && Change(m, e).vault == m.vault
  {
  }

  lemma StaysDistinct(db: Db, e: Event)
    requires db.Distinct() && db.Accepts(e)
    ensures db.Apply(e).Distinct()
    ensures forall p | p in db.markets ::
              p in db.Apply(e).markets && db.Apply(e).markets[p].token == db.markets[p].token
              && db.Apply(e).markets[p].vault == db.markets[p].vault
  {
    hide Change;
    if !e.Created? && db.Found(e).Some? {
      NamesStay(db.markets[db.Found(e).value], e);
    }
  }

  /** A market's events in a log. */
  function Own(log: seq<Event>, pool: PoolId, token: Address, vault: Address): seq<Event> {
    if log == [] then []
    else Own(Front(log), pool, token, vault) + if Concerns(Last(log), pool, token, vault) then [Last(log)] else []
  }

  function RowRun(m: Market, events: seq<Event>): Market {
    if events == [] then m else Change(RowRun(m, Front(events)), Last(events))
  }

  lemma OneRowChanges(db: Db, e: Event, pool: PoolId)
    requires db.Distinct() && db.Accepts(e) && pool in db.markets
    ensures pool in db.Apply(e).markets
    ensures db.Apply(e).markets[pool] == if db.About(e, pool) then Change(db.markets[pool], e) else db.markets[pool]
  {
    if db.About(e, pool) {
      FoundIsTheOne(db, e, pool);
    }
  }

  /** A market's row depends on its own events alone, whatever else the log holds. */
  lemma {:induction false} MarketsAreIndependent(db: Db, log: seq<Event>, pool: PoolId)
    requires db.Distinct() && Accepted(db, log) && pool in db.markets
    ensures Replay(db, log).Distinct() && pool in Replay(db, log).markets
    ensures
      var m := db.markets[pool];
      && Replay(db, log).markets[pool] == RowRun(m, Own(log, pool, m.token, m.vault))
      && Replay(db, log).markets[pool].token == m.token && Replay(db, log).markets[pool].vault == m.vault
  {
    if log != [] {
      var before, e, m := Replay(db, Front(log)), Last(log), db.markets[pool];
      MarketsAreIndependent(db, Front(log), pool);
      hide Db.Apply, Change, Db.Distinct, Db.Accepts;
      StaysDistinct(before, e);
      OneRowChanges(before, e, pool);
      var own := Own(Front(log), pool, m.token, m.vault);
      assert Front(own + [e]) == own && Last(own + [e]) == e;
      assert Own(log, pool, m.token, m.vault) == if Concerns(e, pool, m.token, m.vault) then own + [e] else own;
    }
  }

  // ----- a market's figures against its rows --------------------------------------------------------

  datatype Totals = Totals(spent: nat, bought: nat, sunk: nat, count: nat)

  /** Sums over a market's buyback rows, and the last cumulative figure among them. */
  function BuybackTotals(rows: seq<Buyback>, pool: PoolId): Totals {
    if rows == [] then Totals(0, 0, 0, 0)
    else
      var t, row := BuybackTotals(Front(rows), pool), Last(rows);
      if row.pool != Some(pool) then t
      else Totals(t.spent + row.etherSpent, t.bought + row.tokensBought, row.cumulativeSunk, t.count + 1)
  }

  datatype Volume = Volume(swaps: nat, quote: nat, token: nat)

  function SwapTotals(rows: seq<SwapRow>, pool: PoolId): Volume {
    if rows == [] then Volume(0, 0, 0)
    else
      var t, row := SwapTotals(Front(rows), pool), Last(rows);
      if row.pool != pool then t else Volume(t.swaps + 1, t.quote + row.quote, t.token + row.token)
  }

  predicate Agrees(m: Market, t: Totals, v: Volume) {
    && m.spent == t.spent && m.boostQuote == t.spent && m.boostToken == t.bought && m.sunk == t.sunk && m.count == t.count
    && m.swapCount == v.swaps && m.volumeQuote == v.quote && m.volumeToken == v.token
  }

  ghost predicate RowsHaveMarkets(db: Db) {
    && (forall row | row in db.buybacks && row.pool.Some? :: row.pool.value in db.markets)
    && (forall row | row in db.swaps :: row.pool in db.markets)
  }

  lemma {:induction false} NoRowsNoTotals(buybacks: seq<Buyback>, swaps: seq<SwapRow>, pool: PoolId)
    requires forall row | row in buybacks :: row.pool != Some(pool)
    requires forall row | row in swaps :: row.pool != pool
    ensures BuybackTotals(buybacks, pool) == Totals(0, 0, 0, 0) && SwapTotals(swaps, pool) == Volume(0, 0, 0)
    decreases |buybacks| + |swaps|
  {
    if buybacks != [] {
      NoRowsNoTotals(Front(buybacks), swaps, pool);
    } else if swaps != [] {
      NoRowsNoTotals(buybacks, Front(swaps), pool);
    }
  }

  function WithBuyback(t: Totals, e: Event): Totals {
    if e.Executed? then Totals(t.spent + e.etherSpent, t.bought + e.tokensBought, e.cumulativeSunk, t.count + 1) else t
  }

  function WithSwap(v: Volume, e: Event): Volume {
    if e.Swapped? then Volume(v.swaps + 1, v.quote + Abs(e.amount0), v.token + Abs(e.amount1)) else v
  }

  lemma ChangeAgrees(m: Market, e: Event, t: Totals, v: Volume)
    requires Agrees(m, t, v)
    ensures Agrees(Change(m, e), WithBuyback(t, e), WithSwap(v, e))
  {
  }

  lemma BuybackTotalsMore(rows: seq<Buyback>, row: Buyback, pool: PoolId)
    ensures BuybackTotals(rows + [row], pool)
            == if row.pool != Some(pool) then BuybackTotals(rows, pool)
               else
                 var t := BuybackTotals(rows, pool);
                 Totals(t.spent + row.etherSpent, t.bought + row.tokensBought, row.cumulativeSunk, t.count + 1)
  {
    assert Front(rows + [row]) == rows;
  }

  lemma SwapTotalsMore(rows: seq<SwapRow>, row: SwapRow, pool: PoolId)
    ensures SwapTotals(rows + [row], pool)
            == if row.pool != pool then SwapTotals(rows, pool)
               else
                 var v := SwapTotals(rows, pool);
                 Volume(v.swaps + 1, v.quote + row.quote, v.token + row.token)
  {
    assert Front(rows + [row]) == rows;
  }

  /** One event adds to the rows of the market it is about, and to no other's. */
  lemma RowsFollow(db: Db, e: Event, pool: PoolId)
    requires db.Distinct() && pool in db.markets && !e.Created?
    ensures BuybackTotals(db.Apply(e).buybacks, pool)
            == if db.About(e, pool) then WithBuyback(BuybackTotals(db.buybacks, pool), e) else BuybackTotals(db.buybacks, pool)
    ensures SwapTotals(db.Apply(e).swaps, pool)
            == if db.About(e, pool) then WithSwap(SwapTotals(db.swaps, pool), e) else SwapTotals(db.swaps, pool)
  {
    hide Change, BuybackTotals, SwapTotals;
    if db.About(e, pool) {
      FoundIsTheOne(db, e, pool);
    }
    var found := db.Found(e);
    if e.Executed? {
      BuybackTotalsMore(db.buybacks, Buyback(found, e.token, e.etherSpent, e.tokensBought, e.cumulativeSunk), pool);
    } else if e.Swapped? && found.Some? {
      SwapTotalsMore(db.swaps, SwapRow(found.value, e.amount0 < 0, Abs(e.amount0), Abs(e.amount1)), pool);
    }
  }

  lemma NewMarketAgrees(db: Db, e: Event)
    requires RowsHaveMarkets(db) && e.Created? && e.pool !in db.markets
    ensures Agrees(NewMarket(e.token, e.vault), BuybackTotals(db.buybacks, e.pool), SwapTotals(db.swaps, e.pool))
  {
    NoRowsNoTotals(db.buybacks, db.swaps, e.pool);
  }

  /** One event keeps a market's figures equal to the sums over its rows. */
  lemma FiguresStayTrue(db: Db, e: Event, pool: PoolId)
    requires db.Distinct() && db.Accepts(e) && RowsHaveMarkets(db) && pool in db.Apply(e).markets
    requires pool in db.markets ==> Agrees(db.markets[pool], BuybackTotals(db.buybacks, pool), SwapTotals(db.swaps, pool))
    ensures
      var after := db.Apply(e);
      Agrees(after.markets[pool], BuybackTotals(after.buybacks, pool), SwapTotals(after.swaps, pool))
  {
    hide Change, Agrees, BuybackTotals, SwapTotals, RowsHaveMarkets, Db.Distinct, Db.About;
    if e.Created? {
      if pool == e.pool {
        NewMarketAgrees(db, e);
      }
    } else {
      hide Db.Apply;
      OnlyCreationsAdd(db, e, pool);
      OneRowChanges(db, e, pool);
      RowsFollow(db, e, pool);
      ChangeAgrees(db.markets[pool], e, BuybackTotals(db.buybacks, pool), SwapTotals(db.swaps, pool));
    }
  }

  lemma OnlyCreationsAdd(db: Db, e: Event, pool: PoolId)
    requires !e.Created? && pool in db.Apply(e).markets
    ensures pool in db.markets
  {
    hide Change;
  }

  lemma RowsKeepMarkets(db: Db, e: Event)
    requires RowsHaveMarkets(db)
    ensures RowsHaveMarkets(db.Apply(e))
  {
    hide Change;
  }

  /** In every run, every market's Boost and swap figures are the sums over its own rows. */
  lemma {:induction false} FiguresAreTheirRows(log: seq<Event>, pool: PoolId)
    requires Accepted(EMPTY, log)
    ensures
      var db := Replay(EMPTY, log);
      && db.Distinct() && RowsHaveMarkets(db)
      && (pool in db.markets ==> Agrees(db.markets[pool], BuybackTotals(db.buybacks, pool), SwapTotals(db.swaps, pool)))
  {
    if log != [] {
      var before := Replay(EMPTY, Front(log));
      hide Agrees, Db.Distinct, Db.Apply, RowsHaveMarkets, BuybackTotals, SwapTotals;
      FiguresAreTheirRows(Front(log), pool);
      StaysDistinct(before, Last(log));
      RowsKeepMarkets(before, Last(log));
      if pool in before.Apply(Last(log)).markets {
        FiguresStayTrue(before, Last(log), pool);
      }
    } else {
      hide Agrees;
    }
  }

  // ----- who paid for the buybacks -----------------------------------------------------------------------

  /** What the escrow says Agen put in, by either route. */
  function AgenFunded(events: seq<Event>): nat {
    if events == [] then 0
    else AgenFunded(Front(events)) + if Last(events).Funded? && Last(events).fromAgen then Last(events).amount else 0
  }

  function FeesRouted(events: seq<Event>): nat {
    if events == [] then 0 else FeesRouted(Front(events)) + if Last(events).Routed? then Last(events).amount else 0
  }

  /** At no point has more been routed than funded, which is when the correction is never clamped. */
  predicate Covered(events: seq<Event>) {
    events != [] ==> Covered(Front(events)) && FeesRouted(events) <= AgenFunded(events)
  }

  /** What an event is worth to the donated figure, before the clamp. */
  function Worth(e: Event): int {
    if e.Funded? && e.fromAgen then e.amount else if e.Routed? then 0 - e.amount else 0
  }

  lemma ChangeOfFunding(m: Market, e: Event)
    ensures Change(m, e).routed == m.routed + (if e.Routed? then e.amount else 0)
    ensures Change(m, e).donated == Max(0, m.donated + Worth(e))
  {
  }

  /** Nothing funded by Agen goes missing, and the two figures add up exactly if and only if the clamp never bites. */
  lemma {:induction false} AgenIsAccountedFor(m: Market, events: seq<Event>)
    requires m.routed == 0 && m.donated == 0
    ensures
      var after := RowRun(m, events);
      && after.routed == FeesRouted(events)
      && after.routed + after.donated >= AgenFunded(events)
      && (after.routed + after.donated == AgenFunded(events) <==> Covered(events))
  {
    if events != [] {
      hide Change;
      AgenIsAccountedFor(m, Front(events));
      ChangeOfFunding(RowRun(m, Front(events)), Last(events));
    }
  }

  /** Funded less routed. */
  function Net(events: seq<Event>): int { AgenFunded(events) - FeesRouted(events) }

  lemma NetOfMore(events: seq<Event>)
    requires events != []
    ensures Net(events) == Net(Front(events)) + Worth(Last(events))
  {
  }

  /** The donated figure is the largest net contribution over any ending stretch of the events. */
  lemma {:induction false} DonatedIsTheLargestTail(m: Market, events: seq<Event>) returns (k: nat)
    requires m.donated == 0
    ensures k <= |events| && RowRun(m, events).donated == Net(events[k..])
    ensures forall j | 0 <= j <= |events| :: Net(events[j..]) <= RowRun(m, events).donated
  {
    if events == [] {
      k := 0;
    } else {
      hide Change;
      var front, e := Front(events), Last(events);
      ChangeOfFunding(RowRun(m, front), e);
      k := DonatedIsTheLargestTail(m, front);
      forall j | 0 <= j <= |events|
        ensures Net(events[j..]) <= RowRun(m, events).donated
        ensures j < |events| ==> Net(events[j..]) == Net(front[j..]) + Worth(e)
      {
        NetOfSuffix(events, j);
      }
      NetOfSuffix(events, k);
      NetOfSuffix(events, |events|);
      if RowRun(m, front).donated + Worth(e) < 0 {
        k := |events|;
      }
    }
  }

  lemma NetOfSuffix(events: seq<Event>, j: nat)
    requires events != [] && j <= |events|
    ensures j < |events| ==> Net(events[j..]) == Net(Front(events)[j..]) + Worth(Last(events))
    ensures j == |events| ==> Net(events[j..]) == 0
  {
    if j < |events| {
      assert Front(events[j..]) == Front(events)[j..];
      NetOfMore(events[j..]);
    }
  }

  datatype Fees = Fees(etherLeg: nat, creator: nat, platform: nat)

  function AccruedFees(events: seq<Event>): Fees {
    if events == [] then Fees(0, 0, 0)
    else
      var t, e := AccruedFees(Front(events)), Last(events);
      if e.Accrued? then Fees(t.etherLeg + e.etherLeg, t.creator + e.creator, t.platform + e.platform) else t
  }

  lemma ChangeOfFees(m: Market, e: Event)
    ensures Change(m, e).etherLeg == m.etherLeg + (if e.Accrued? then e.etherLeg else 0)
    ensures Change(m, e).creatorFees == m.creatorFees + (if e.Accrued? then e.creator else 0)
    ensures Change(m, e).platformFees == m.platformFees + (if e.Accrued? then e.platform else 0)
  {
  }

  /** A market has earned what its vault credited since it was first written, and nothing else. */
  lemma {:induction false} FeesAreTheAccruals(token: Address, vault: Address, events: seq<Event>)
    ensures
      var m := RowRun(NewMarket(token, vault), events);
      Fees(m.etherLeg, m.creatorFees, m.platformFees) == AccruedFees(events)
  {
    if events != [] {
      hide Change;
      ChangeOfFees(RowRun(NewMarket(token, vault), Front(events)), Last(events));
      FeesAreTheAccruals(token, vault, Front(events));
    }
  }

  // ----- as the escrow emits ------------------------------------------------------------------------------

  /** What reached a market's buybacks: a voluntary top-up, the platform's fee, or the creator's fees. */
  datatype Payment = TopUp(amount: nat) | PlatformFee(amount: nat) | CreatorFee(amount: nat)

  function TopUps(payments: seq<Payment>): nat {
    if payments == [] then 0 else TopUps(Front(payments)) + if Last(payments).TopUp? then Last(payments).amount else 0
  }

  /** The events of a payment, with a routed fee's own funding before it or after it. */
  function Emitted(payment: Payment, token: Address, fundingFirst: bool): seq<Event> {
    match payment
    case TopUp(amount) => [Funded(token, amount, true)]
    case CreatorFee(amount) => [Funded(token, amount, false)]
    case PlatformFee(amount) =>
      if fundingFirst then [Funded(token, amount, true), Routed(token, amount)]
      else [Routed(token, amount), Funded(token, amount, true)]
  }

  function AllEmitted(payments: seq<Payment>, token: Address, fundingFirst: bool): seq<Event> {
    if payments == [] then []
    else AllEmitted(Front(payments), token, fundingFirst) + Emitted(Last(payments), token, fundingFirst)
  }

  function Fundings(events: seq<Event>): seq<Event> {
    if events == [] then []
    else Fundings(Front(events)) + if Last(events).Funded? || Last(events).Routed? then [Last(events)] else []
  }

  /** Nothing but funding and routing moves the donated figure. */
  lemma {:induction false} OnlyFundingsMatter(m: Market, events: seq<Event>)
    ensures RowRun(m, events).donated == RowRun(m, Fundings(events)).donated
  {
    if events != [] {
      hide Change;
      OnlyFundingsMatter(m, Front(events));
      ChangeOfFunding(RowRun(m, Front(events)), Last(events));
      ChangeOfFunding(RowRun(m, Fundings(Front(events))), Last(events));
      var kept := Fundings(Front(events));
      assert Front(kept + [Last(events)]) == kept && Last(kept + [Last(events)]) == Last(events);
      assert Fundings(events) == if Last(events).Funded? || Last(events).Routed? then kept + [Last(events)] else kept;
    }
  }

  lemma {:induction false} RowRunAppends(m: Market, events: seq<Event>, e: Event)
    ensures RowRun(m, events + [e]) == Change(RowRun(m, events), e)
  {
    assert Front(events + [e]) == events;
  }

  /** One payment's effect: in the one order its fee cancels, in the other it can leave the larger of the two. */
  lemma PaymentMoves(m: Market, before: seq<Event>, payment: Payment, token: Address, fundingFirst: bool)
    ensures
      var was, now := RowRun(m, before).donated, RowRun(m, before + Emitted(payment, token, fundingFirst)).donated;
      match payment
      case TopUp(amount) => now == was + amount
      case CreatorFee(_) => now == was
      case PlatformFee(amount) => now == if fundingFirst || was >= amount then was else amount
  {
    match payment
    case TopUp(amount) => RowRunAppends(m, before, Funded(token, amount, true));
    case CreatorFee(amount) => RowRunAppends(m, before, Funded(token, amount, false));
    case PlatformFee(amount) =>
      var events := Emitted(payment, token, fundingFirst);
      RowRunAppends(m, before, events[0]);
      RowRunAppends(m, before + [events[0]], events[1]);
      assert before + events == (before + [events[0]]) + [events[1]];
  }

  /** If each routed fee follows its own funding, the donated figure is exactly the top-ups. */
  lemma {:induction false} DonatedIsTheTopUps(m: Market, events: seq<Event>, payments: seq<Payment>)
    requires m.donated == 0 && Fundings(events) == AllEmitted(payments, m.token, true)
    ensures RowRun(m, events).donated == TopUps(payments)
  {
    OnlyFundingsMatter(m, events);
    TopUpsRemain(m, payments);
  }

  lemma {:induction false} TopUpsRemain(m: Market, payments: seq<Payment>)
    requires m.donated == 0
    ensures RowRun(m, AllEmitted(payments, m.token, true)).donated == TopUps(payments)
  {
    if payments != [] {
      TopUpsRemain(m, Front(payments));
      PaymentMoves(m, AllEmitted(Front(payments), m.token, true), Last(payments), m.token, true);
    }
  }

  /** Every platform fee is at most what had been topped up before it. */
  predicate FeesWithinTopUps(payments: seq<Payment>) {
    payments != [] ==>
      FeesWithinTopUps(Front(payments)) && (Last(payments).PlatformFee? ==> Last(payments).amount <= TopUps(Front(payments)))
  }

  lemma {:induction false} EscrowOrderOverstates(m: Market, payments: seq<Payment>)
    requires m.donated == 0
    ensures
      var donated := RowRun(m, AllEmitted(payments, m.token, false)).donated;
      donated >= TopUps(payments) && (donated == TopUps(payments) <==> FeesWithinTopUps(payments))
  {
    if payments != [] {
      EscrowOrderOverstates(m, Front(payments));
      PaymentMoves(m, AllEmitted(Front(payments), m.token, false), Last(payments), m.token, false);
    }
  }

  /**
    * The escrow announces a routed fee before its funding. In that order the donated figure is never
    * too small, and is the top-ups exactly if and only if no fee exceeded the top-ups before it.
    */
  lemma DonatedInTheEscrowsOrder(m: Market, events: seq<Event>, payments: seq<Payment>)
    requires m.donated == 0 && Fundings(events) == AllEmitted(payments, m.token, false)
    ensures RowRun(m, events).donated >= TopUps(payments)
    ensures RowRun(m, events).donated == TopUps(payments) <==> FeesWithinTopUps(payments)
  {
    OnlyFundingsMatter(m, events);
    EscrowOrderOverstates(m, payments);
  }

  /** One routed fee and nothing else, and the fee is reported as a donation. */
  lemma AFeeCanReadAsADonation(token: Address, vault: Address, amount: nat)
    requires amount > 0
    ensures TopUps([PlatformFee(amount)]) == 0
    ensures RowRun(NewMarket(token, vault), AllEmitted([PlatformFee(amount)], token, false)).donated == amount
  {
    var payments := [PlatformFee(amount)];
    assert Front(payments) == [] && AllEmitted(payments, token, false) == [] + Emitted(payments[0], token, false);
    PaymentMoves(NewMarket(token, vault), [], payments[0], token, false);
  }

  // ----- every market of every log -----------------------------------------------------------------------------

  /** The event a market was created by, if the log created it. */
  function Creation(log: seq<Event>, pool: PoolId): (created: Option<Event>)
    ensures created.Some? ==> created.value.Created? && created.value.pool == pool
  {
    if log == [] then None
    else if Last(log).Created? && Last(log).pool == pool then Some(Last(log))
    else Creation(Front(log), pool)
  }

  /** A market's own events since it was created. */
  function History(log: seq<Event>, pool: PoolId): seq<Event> {
    if log == [] || Creation(log, pool).None? || (Last(log).Created? && Last(log).pool == pool) then []
    else
      var created := Creation(log, pool).value;
      History(Front(log), pool) + if Concerns(Last(log), pool, created.token, created.vault) then [Last(log)] else []
  }

  /** What its history makes of a new row. */
  function Expected(log: seq<Event>, pool: PoolId): Market
    requires Creation(log, pool).Some?
  {
    RowRun(NewMarket(Creation(log, pool).value.token, Creation(log, pool).value.vault), History(log, pool))
  }

  lemma {:induction false} NamesStayForever(m: Market, events: seq<Event>)
    ensures RowRun(m, events).token == m.token && RowRun(m, events).vault == m.vault
  {
    if events != [] {
      hide Change;
      NamesStayForever(m, Front(events));
      NamesStay(RowRun(m, Front(events)), Last(events));
    }
  }

  /** After its creation a market's history grows by the events that concern it. */
  lemma {:induction false} HistoryStep(log: seq<Event>, pool: PoolId)
    requires log != [] && Creation(Front(log), pool).Some? && !(Last(log).Created? && Last(log).pool == pool)
    ensures Creation(log, pool) == Creation(Front(log), pool)
    ensures
      var e, created := Last(log), Creation(log, pool).value;
      History(log, pool) == if Concerns(e, pool, created.token, created.vault) then History(Front(log), pool) + [e]
                            else History(Front(log), pool)
  {
    hide Concerns;
  }

  lemma {:induction false} ExpectedStep(log: seq<Event>, pool: PoolId)
    requires log != [] && Creation(Front(log), pool).Some? && !(Last(log).Created? && Last(log).pool == pool)
    ensures
      var e, created := Last(log), Creation(log, pool).value;
      && Creation(log, pool) == Creation(Front(log), pool)
      && Expected(log, pool) == if Concerns(e, pool, created.token, created.vault) then Change(Expected(Front(log), pool), e)
                                else Expected(Front(log), pool)
  {
    hide Change, Concerns, History, Creation, RowRun;
    HistoryStep(log, pool);
    var created := Creation(log, pool).value;
    RowRunAppends(NewMarket(created.token, created.vault), History(Front(log), pool), Last(log));
  }

  /** In every log the markets are those it created, and each row is what its own history makes of a new one. */
  lemma {:induction false} RowsAreTheirHistories(log: seq<Event>, pool: PoolId)
    requires Accepted(EMPTY, log)
    ensures Replay(EMPTY, log).Distinct()
    ensures pool in Replay(EMPTY, log).markets <==> Creation(log, pool).Some?
    ensures Creation(log, pool).Some? ==> Replay(EMPTY, log).markets[pool] == Expected(log, pool)
  {
    if log != [] {
      var before, e := Replay(EMPTY, Front(log)), Last(log);
      RowsAreTheirHistories(Front(log), pool);
      hide Change, Db.Distinct, RowRun;
      StaysDistinct(before, e);
      if e.Created? && e.pool == pool {
        assert History(log, pool) == [];
        NewRow(e.token, e.vault);
      } else if pool in before.markets {
        ExpectedStep(log, pool);
        var created := Creation(Front(log), pool).value;
        NamesStayForever(NewMarket(created.token, created.vault), History(Front(log), pool));
        hide Db.Apply;
        OneRowChanges(before, e, pool);
      } else {
        assert Creation(log, pool).None?;
        if !e.Created? && pool in before.Apply(e).markets {
          OnlyCreationsAdd(before, e, pool);
        }
      }
    }
  }

  lemma NewRow(token: Address, vault: Address)
    ensures RowRun(NewMarket(token, vault), []) == NewMarket(token, vault)
  {
  }

  /** In every log, a market's routed and donated figures cover what Agen funded, exactly if and only if never overrun. */
  lemma {:induction false} EveryLogAccountsForAgen(log: seq<Event>, pool: PoolId)
    requires Accepted(EMPTY, log) && Creation(log, pool).Some?
    ensures pool in Replay(EMPTY, log).markets
    ensures
      var m, own := Replay(EMPTY, log).markets[pool], History(log, pool);
      && m.routed == FeesRouted(own) && m.routed + m.donated >= AgenFunded(own)
      && (m.routed + m.donated == AgenFunded(own) <==> Covered(own))
  {
    hide RowRun, Replay, Covered, History;
    RowsAreTheirHistories(log, pool);
    var created := Creation(log, pool).value;
    AgenIsAccountedFor(NewMarket(created.token, created.vault), History(log, pool));
  }

  /** In every log whose funding events of a market are those of its payments, in either order of a fee's pair. */
  lemma {:induction false} EveryLogsDonations(log: seq<Event>, pool: PoolId, payments: seq<Payment>, fundingFirst: bool)
    requires Accepted(EMPTY, log) && Creation(log, pool).Some?
    requires Fundings(History(log, pool)) == AllEmitted(payments, Creation(log, pool).value.token, fundingFirst)
    ensures pool in Replay(EMPTY, log).markets
    ensures
      var m := Replay(EMPTY, log).markets[pool];
      && m.donated >= TopUps(payments)
      && (m.donated == TopUps(payments) <==> fundingFirst || FeesWithinTopUps(payments))
  {
    hide RowRun, Replay, FeesWithinTopUps, History, Fundings, AllEmitted;
    RowsAreTheirHistories(log, pool);
    var created := Creation(log, pool).value;
    var m := NewMarket(created.token, created.vault);
    if fundingFirst {
      DonatedIsTheTopUps(m, History(log, pool), payments);
    } else {
      DonatedInTheEscrowsOrder(m, History(log, pool), payments);
    }
  }

  function Plus(a: Fees, b: Fees): Fees { Fees(a.etherLeg + b.etherLeg, a.creator + b.creator, a.platform + b.platform) }

  /** Everything a vault credited in a log. */
  function VaultFees(log: seq<Event>, vault: Address): Fees {
    if log == [] then Fees(0, 0, 0)
    else
      var t, e := VaultFees(Front(log), vault), Last(log);
      if e.Accrued? && e.vault == vault then Plus(t, Fees(e.etherLeg, e.creator, e.platform)) else t
  }

  /** The part of a log before a market was created. */
  function BeforeCreation(log: seq<Event>, pool: PoolId): seq<Event> {
    if log == [] then []
    else if Last(log).Created? && Last(log).pool == pool then Front(log)
    else BeforeCreation(Front(log), pool)
  }

  lemma AccruedFeesMore(events: seq<Event>, e: Event)
    ensures AccruedFees(events + [e])
            == if e.Accrued? then Plus(AccruedFees(events), Fees(e.etherLeg, e.creator, e.platform)) else AccruedFees(events)
  {
    assert Front(events + [e]) == events;
  }

  /** At its creation a market has no history, and afterwards the part before it stays what it was. */
  lemma {:induction false} NothingSinceCreation(log: seq<Event>, pool: PoolId)
    requires Creation(log, pool).Some?
    ensures Last(log).Created? && Last(log).pool == pool ==> AccruedFees(History(log, pool)) == Fees(0, 0, 0)
    ensures !(Last(log).Created? && Last(log).pool == pool) ==>
              Creation(Front(log), pool) == Creation(log, pool)
              && BeforeCreation(log, pool) == BeforeCreation(Front(log), pool)
              && History(log, pool) == if Concerns(Last(log), pool, Creation(log, pool).value.token, Creation(log, pool).value.vault)
                                       then History(Front(log), pool) + [Last(log)] else History(Front(log), pool)
  {
    if !(Last(log).Created? && Last(log).pool == pool) {
      HistoryStep(log, pool);
    }
  }

  /** What its vault credited is what came before a market was created and what came in its history. */
  lemma {:induction false} FeesBeforeAndSince(log: seq<Event>, pool: PoolId)
    requires Creation(log, pool).Some?
    ensures
      var vault := Creation(log, pool).value.vault;
      VaultFees(log, vault) == Plus(VaultFees(BeforeCreation(log, pool), vault), AccruedFees(History(log, pool)))
  {
    hide History, AccruedFees;
    NothingSinceCreation(log, pool);
    if !(Last(log).Created? && Last(log).pool == pool) {
      hide Creation;
      FeesBeforeAndSince(Front(log), pool);
      AccruedFeesMore(History(Front(log), pool), Last(log));
    }
  }

  /**
    * A fee credited before its market is known is skipped for good: in every log the fee figures are
    * everything the vault credited if and only if it had credited nothing by then.
    */
  lemma {:induction false} EveryLogsFees(log: seq<Event>, pool: PoolId)
    requires Accepted(EMPTY, log) && Creation(log, pool).Some?
    ensures pool in Replay(EMPTY, log).markets
    ensures
      var m := Replay(EMPTY, log).markets[pool];
      && Fees(m.etherLeg, m.creatorFees, m.platformFees) == AccruedFees(History(log, pool))
      && (Fees(m.etherLeg, m.creatorFees, m.platformFees) == VaultFees(log, m.vault)
          <==> VaultFees(BeforeCreation(log, pool), m.vault) == Fees(0, 0, 0))
  {
    hide RowRun, Replay, History, AccruedFees, VaultFees, BeforeCreation;
    RowsAreTheirHistories(log, pool);
    var created := Creation(log, pool).value;
    FeesAreTheAccruals(created.token, created.vault, History(log, pool));
    NamesStayForever(NewMarket(created.token, created.vault), History(log, pool));
    FeesBeforeAndSince(log, pool);
  }
}
