/**
  * Joining an engine's fees to the swaps that paid them: the FeeTaken handler and
  * `claimPendingFee` of apps/indexer/src/agen-engine.ts, with `indexAgenSwap` of
  * apps/indexer/src/agen.ts.
  *
  * The tables are maps keyed by transaction and log index. A handler sees one event; which
  * swap a fee belongs to is known only to the swap call that emitted both.
  */
module FeeJoin {

  import opened Basics

  type PoolId = nat
  type Tx = nat

  /**
    * The rate and the amount the engine charged, and the log it was charged in. The tables keep the
    * first two with a swap; the third is here to tell fees of equal rate and amount apart.
    */
  datatype Fee = Fee(ppm: nat, amount: nat, chargedAt: nat)

  datatype Event =
    | Swap(pool: PoolId, amount0: int, amount1: int, logIndex: nat)
    | FeeTaken(pool: PoolId, grossQuote: nat, grossToken: nat, ppm: nat, amount: nat, logIndex: nat)

  function FeeOf(e: Event): Fee
    requires e.FeeTaken?
  {
    Fee(e.ppm, e.amount, e.logIndex)
  }

  datatype SwapRow = SwapRow(pool: PoolId, buy: bool, quote: nat, token: nat, fee: Option<Fee>)

  datatype PendingRow = PendingRow(pool: PoolId, fee: Fee)

  datatype MarketRow = MarketRow(swapCount: nat, volumeQuote: nat, volumeToken: nat)

  // ----- the tables ------------------------------------------------------------------------------

  datatype Db = Db(markets: map<PoolId, MarketRow>, swaps: map<(Tx, nat), SwapRow>, pending: map<(Tx, nat), PendingRow>) {

    predicate HasSwap(tx: Tx, pool: PoolId, k: nat) { (tx, k) in swaps && swaps[(tx, k)].pool == pool }

    predicate HasPending(tx: Tx, pool: PoolId, k: nat) { (tx, k) in pending && pending[(tx, k)].pool == pool }

    /** The row with the highest log index below a bound, as the queries order and limit. */
    function NearestSwap(tx: Tx, pool: PoolId, below: nat): (k: Option<nat>)
      ensures k.Some? ==> k.value < below && HasSwap(tx, pool, k.value)
    {
      if below == 0 then None
      else if HasSwap(tx, pool, below - 1) then Some(below - 1)
      else NearestSwap(tx, pool, below - 1)
    }

    function NearestPending(tx: Tx, pool: PoolId, below: nat): (k: Option<nat>)
      ensures k.Some? ==> k.value < below && HasPending(tx, pool, k.value)
    {
      if below == 0 then None
      else if HasPending(tx, pool, below - 1) then Some(below - 1)
      else NearestPending(tx, pool, below - 1)
    }

    /** Attach a fee to the nearest swap if it is that swap's, otherwise park it. */
    function AfterFee(tx: Tx, e: Event): Db
      requires e.FeeTaken?
    {
      var nearest := NearestSwap(tx, e.pool, e.logIndex);
      if nearest.Some? && ChargedAfter(swaps[(tx, nearest.value)], e) then
        this.(swaps := swaps[(tx, nearest.value) := swaps[(tx, nearest.value)].(fee := Some(FeeOf(e)))])
      else this.(pending := pending[(tx, e.logIndex) := PendingRow(e.pool, FeeOf(e))])
    }

    /** Write a followed pool's swap, claiming the nearest fee parked for it. */
    function AfterSwap(tx: Tx, e: Event): Db
      requires e.Swap?
    {
      if e.pool !in markets then this
      else
        var parked := NearestPending(tx, e.pool, e.logIndex);
        var early := if parked.Some? then Some(pending[(tx, parked.value)].fee) else None;
        var market := markets[e.pool];
        Db(markets[e.pool := MarketRow(market.swapCount + 1, market.volumeQuote + Abs(e.amount0),
                                       market.volumeToken + Abs(e.amount1))],
           swaps[(tx, e.logIndex) := RowOf(e, early)],
           if parked.Some? then pending - {(tx, parked.value)} else pending)
    }

    function After(tx: Tx, e: Event): Db {
      if e.Swap? then AfterSwap(tx, e) else AfterFee(tx, e)
    }
  }

  function RowOf(e: Event, fee: Option<Fee>): SwapRow
    requires e.Swap?
  {
    SwapRow(e.pool, e.amount0 < 0, Abs(e.amount0), Abs(e.amount1), fee)
  }

  /** The hook measured exactly the legs this swap reported, and it has no fee yet. */
  predicate ChargedAfter(row: SwapRow, e: Event)
    requires e.FeeTaken?
  {
    row.fee.None? && row.quote == e.grossQuote && row.token == e.grossToken
  }

  class AgenIndexer {
    var markets: map<PoolId, MarketRow>
    var swaps: map<(Tx, nat), SwapRow>
    var pending: map<(Tx, nat), PendingRow>

    function State(): Db
      reads this
    {
      Db(markets, swaps, pending)
    }

    method OnFeeTaken(tx: Tx, e: Event)
      requires e.FeeTaken?
      modifies this
      ensures State() == old(State()).AfterFee(tx, e)
    {
      var nearest := State().NearestSwap(tx, e.pool, e.logIndex);
      if nearest.Some? {
        var row := swaps[(tx, nearest.value)];
        if row.fee.None? && row.quote == e.grossQuote && row.token == e.grossToken {
          swaps := swaps[(tx, nearest.value) := row.(fee := Some(FeeOf(e)))];
          return;
        }
      }
      pending := pending[(tx, e.logIndex) := PendingRow(e.pool, FeeOf(e))];
    }

    method ClaimPendingFee(tx: Tx, pool: PoolId, logIndex: nat) returns (fee: Option<Fee>)
      modifies this`pending
      ensures
        var parked := old(State()).NearestPending(tx, pool, logIndex);
        && pending == (if parked.Some? then old(pending) - {(tx, parked.value)} else old(pending))
        && fee == (if parked.Some? then Some(old(pending)[(tx, parked.value)].fee) else None)
    {
      var parked := State().NearestPending(tx, pool, logIndex);
      if parked.None? { return None; }
      fee := Some(pending[(tx, parked.value)].fee);
      pending := pending - {(tx, parked.value)};
    }

    method IndexAgenSwap(tx: Tx, e: Event) returns (handled: bool)
      requires e.Swap?
      modifies this
      ensures State() == old(State()).AfterSwap(tx, e)
      ensures handled == (e.pool in old(markets))
    {
      if e.pool !in markets { return false; }
      var quoteAmount := if e.amount0 < 0 then -e.amount0 else e.amount0;
      var tokenAmount := if e.amount1 < 0 then -e.amount1 else e.amount1;
      var early := ClaimPendingFee(tx, e.pool, e.logIndex);
      swaps := swaps[(tx, e.logIndex) := SwapRow(e.pool, e.amount0 < 0, quoteAmount, tokenAmount, early)];
      var market := markets[e.pool];
      markets := markets[e.pool := MarketRow(market.swapCount + 1, market.volumeQuote + quoteAmount,
                                             market.volumeToken + tokenAmount)];
      return true;
    }
  }

  // ----- one pool's share of one transaction ----------------------------------------------------------

  datatype Row = Row(index: nat, swap: SwapRow)

  datatype Parked = Parked(index: nat, fee: Fee)

  /** A pool's swaps and parked fees of one transaction, in log order. */
  datatype View = View(rows: seq<Row>, parked: seq<Parked>)

  function Rows(db: Db, tx: Tx, pool: PoolId, n: nat): seq<Row> {
    if n == 0 then []
    else Rows(db, tx, pool, n - 1)
         + if db.HasSwap(tx, pool, n - 1) then [Row(n - 1, db.swaps[(tx, n - 1)])] else []
  }

  function ParkedFees(db: Db, tx: Tx, pool: PoolId, n: nat): seq<Parked> {
    if n == 0 then []
    else ParkedFees(db, tx, pool, n - 1)
         + if db.HasPending(tx, pool, n - 1) then [Parked(n - 1, db.pending[(tx, n - 1)].fee)] else []
  }

  function ViewOf(db: Db, tx: Tx, pool: PoolId, n: nat): View {
    View(Rows(db, tx, pool, n), ParkedFees(db, tx, pool, n))
  }

  /** What one of its own events does to a followed pool's view. */
  function PoolStep(v: View, e: Event): View {
    match e
    case Swap(_, _, _, k) =>
      if v.parked == [] then v.(rows := v.rows + [Row(k, RowOf(e, None))])
      else View(v.rows + [Row(k, RowOf(e, Some(Last(v.parked).fee)))], Front(v.parked))
    case FeeTaken(_, _, _, _, _, k) =>
      if v.rows != [] && ChargedAfter(Last(v.rows).swap, e) then
        v.(rows := Front(v.rows) + [Last(v.rows).(swap := Last(v.rows).swap.(fee := Some(FeeOf(e))))])
      else v.(parked := v.parked + [Parked(k, FeeOf(e))])
  }

  // ----- the handlers act on views ------------------------------------------------------------------------

  lemma {:induction false} NearestSwapIsLast(db: Db, tx: Tx, pool: PoolId, n: nat)
    ensures db.NearestSwap(tx, pool, n).None? <==> Rows(db, tx, pool, n) == []
    ensures db.NearestSwap(tx, pool, n).Some? ==>
              var k := db.NearestSwap(tx, pool, n).value;
              Last(Rows(db, tx, pool, n)) == Row(k, db.swaps[(tx, k)])
              && Front(Rows(db, tx, pool, n)) == Rows(db, tx, pool, k)
  {
    if n > 0 && !db.HasSwap(tx, pool, n - 1) {
      NearestSwapIsLast(db, tx, pool, n - 1);
    }
  }

  lemma {:induction false} NearestPendingIsLast(db: Db, tx: Tx, pool: PoolId, n: nat)
    ensures db.NearestPending(tx, pool, n).None? <==> ParkedFees(db, tx, pool, n) == []
    ensures db.NearestPending(tx, pool, n).Some? ==>
              var k := db.NearestPending(tx, pool, n).value;
              Last(ParkedFees(db, tx, pool, n)) == Parked(k, db.pending[(tx, k)].fee)
              && Front(ParkedFees(db, tx, pool, n)) == ParkedFees(db, tx, pool, k)
  {
    if n > 0 && !db.HasPending(tx, pool, n - 1) {
      NearestPendingIsLast(db, tx, pool, n - 1);
    }
  }

  /** The transaction has written nothing at or above n. */
  ghost predicate Fresh(db: Db, tx: Tx, n: nat) {
    forall k | n <= k :: (tx, k) !in db.swaps && (tx, k) !in db.pending
  }

  lemma {:induction false} SameRows(db: Db, db': Db, tx: Tx, pool: PoolId, n: nat)
    requires forall k | 0 <= k < n :: db.HasSwap(tx, pool, k) <==> db'.HasSwap(tx, pool, k)
    requires forall k | 0 <= k < n && db.HasSwap(tx, pool, k) && db'.HasSwap(tx, pool, k) :: db.swaps[(tx, k)] == db'.swaps[(tx, k)]
    ensures Rows(db, tx, pool, n) == Rows(db', tx, pool, n)
  {
    if n > 0 {
      SameRows(db, db', tx, pool, n - 1);
    }
  }

  lemma {:induction false} SameParked(db: Db, db': Db, tx: Tx, pool: PoolId, n: nat)
    requires forall k | 0 <= k < n :: db.HasPending(tx, pool, k) <==> db'.HasPending(tx, pool, k)
    requires forall k | 0 <= k < n && db.HasPending(tx, pool, k) && db'.HasPending(tx, pool, k) :: db.pending[(tx, k)] == db'.pending[(tx, k)]
    ensures ParkedFees(db, tx, pool, n) == ParkedFees(db', tx, pool, n)
  {
    if n > 0 {
      SameParked(db, db', tx, pool, n - 1);
    }
  }

  /** Nothing changes by looking further than the transaction has written. */
  lemma {:induction false} ViewBeyond(db: Db, tx: Tx, pool: PoolId, n: nat, m: nat)
    requires Fresh(db, tx, n) && n <= m
    ensures ViewOf(db, tx, pool, m) == ViewOf(db, tx, pool, n)
    decreases m
  {
    if n < m {
      ViewBeyond(db, tx, pool, n, m - 1);
    }
  }

  lemma {:induction false} RowReplaced(db: Db, tx: Tx, pool: PoolId, n: nat, row: SwapRow)
    requires db.NearestSwap(tx, pool, n).Some? && row.pool == pool
    ensures
      var k := db.NearestSwap(tx, pool, n).value;
      Rows(db.(swaps := db.swaps[(tx, k) := row]), tx, pool, n) == Rows(db, tx, pool, k) + [Row(k, row)]
  {
    var k := db.NearestSwap(tx, pool, n).value;
    var db' := db.(swaps := db.swaps[(tx, k) := row]);
    if db.HasSwap(tx, pool, n - 1) {
      SameRows(db, db', tx, pool, k);
    } else {
      RowReplaced(db, tx, pool, n - 1, row);
    }
  }

  lemma {:induction false} ParkedRemoved(db: Db, tx: Tx, pool: PoolId, n: nat, db': Db)
    requires db.NearestPending(tx, pool, n).Some?
    requires db'.pending == db.pending - {(tx, db.NearestPending(tx, pool, n).value)}
    ensures ParkedFees(db', tx, pool, n) == ParkedFees(db, tx, pool, db.NearestPending(tx, pool, n).value)
  {
    if db.HasPending(tx, pool, n - 1) {
      SameParked(db, db', tx, pool, n - 1);
    } else {
      ParkedRemoved(db, tx, pool, n - 1, db');
    }
  }

  /** The swap handler is a step of its own pool's view. */
  lemma SwapStepsItsPool(db: Db, tx: Tx, e: Event)
    requires e.Swap? && e.pool in db.markets && Fresh(db, tx, e.logIndex)
    ensures ViewOf(db.After(tx, e), tx, e.pool, e.logIndex + 1) == PoolStep(ViewOf(db, tx, e.pool, e.logIndex), e)
  {
    var db', n := db.After(tx, e), e.logIndex;
    NearestPendingIsLast(db, tx, e.pool, n);
    SameRows(db, db', tx, e.pool, n);
    if db.NearestPending(tx, e.pool, n).Some? {
      ParkedRemoved(db, tx, e.pool, n, db');
    } else {
      SameParked(db, db', tx, e.pool, n);
    }
  }

  /** And so is the fee handler. */
  lemma FeeStepsItsPool(db: Db, tx: Tx, e: Event)
    requires e.FeeTaken? && Fresh(db, tx, e.logIndex)
    ensures ViewOf(db.After(tx, e), tx, e.pool, e.logIndex + 1) == PoolStep(ViewOf(db, tx, e.pool, e.logIndex), e)
  {
    var db', n := db.After(tx, e), e.logIndex;
    NearestSwapIsLast(db, tx, e.pool, n);
    var nearest := db.NearestSwap(tx, e.pool, n);
    if nearest.Some? && ChargedAfter(db.swaps[(tx, nearest.value)], e) {
      RowReplaced(db, tx, e.pool, n, db.swaps[(tx, nearest.value)].(fee := Some(FeeOf(e))));
      SameParked(db, db', tx, e.pool, n);
    } else {
      SameRows(db, db', tx, e.pool, n);
      SameParked(db, db', tx, e.pool, n);
    }
  }

  /** Neither touches any other pool, or any other transaction. */
  lemma {:induction false} OthersUntouched(db: Db, tx: Tx, e: Event, pool: PoolId, other: Tx)
    requires Fresh(db, tx, e.logIndex)
    ensures pool != e.pool ==> ViewOf(db.After(tx, e), tx, pool, e.logIndex + 1) == ViewOf(db, tx, pool, e.logIndex)
    ensures other != tx ==> forall k :: ((other, k) in db.After(tx, e).swaps <==> (other, k) in db.swaps)
                                     && ((other, k) in db.After(tx, e).pending <==> (other, k) in db.pending)
    ensures other != tx ==> forall k | (other, k) in db.swaps :: db.After(tx, e).swaps[(other, k)] == db.swaps[(other, k)]
    ensures other != tx ==> forall k | (other, k) in db.pending :: db.After(tx, e).pending[(other, k)] == db.pending[(other, k)]
    ensures Fresh(db.After(tx, e), tx, e.logIndex + 1) && db.After(tx, e).markets.Keys == db.markets.Keys
  {
    if pool != e.pool {
      SameRows(db, db.After(tx, e), tx, pool, e.logIndex);
      SameParked(db, db.After(tx, e), tx, pool, e.logIndex);
    }
  }

  // ----- a transaction's log ---------------------------------------------------------------------------------

  /** Log indices rise along the log. */
  predicate InLogOrder(log: seq<Event>) {
    forall i, j | 0 <= i < j < |log| :: log[i].logIndex < log[j].logIndex
  }

  function Process(db: Db, tx: Tx, log: seq<Event>): Db {
    if log == [] then db else Process(db, tx, Front(log)).After(tx, Last(log))
  }

  function End(log: seq<Event>): nat { if log == [] then 0 else Last(log).logIndex + 1 }

  /** One pool's events, in order. */
  function Project(log: seq<Event>, pool: PoolId): seq<Event> {
    if log == [] then []
    else Project(Front(log), pool) + if Last(log).pool == pool then [Last(log)] else []
  }

  function PoolRun(v: View, events: seq<Event>): View {
    if events == [] then v else PoolStep(PoolRun(v, Front(events)), Last(events))
  }

  lemma ProjectLast(log: seq<Event>, pool: PoolId)
    requires log != []
    ensures Last(log).pool != pool ==> Project(log, pool) == Project(Front(log), pool)
    ensures Last(log).pool == pool ==>
              Project(log, pool) != [] && Front(Project(log, pool)) == Project(Front(log), pool)
              && Last(Project(log, pool)) == Last(log)
  {
    if Last(log).pool == pool {
      assert Project(log, pool) == Project(Front(log), pool) + [Last(log)];
    }
  }

  /** Each event of a log meets the tables its predecessors left, with nothing written at its index. */
  lemma {:induction false} LogStaysFresh(db: Db, tx: Tx, log: seq<Event>)
    requires Fresh(db, tx, 0) && InLogOrder(log)
    ensures Process(db, tx, log).markets.Keys == db.markets.Keys && Fresh(Process(db, tx, log), tx, End(log))
  {
    if log != [] {
      LogStaysFresh(db, tx, Front(log));
      assert End(Front(log)) <= Last(log).logIndex;
      hide Db.After;
      OthersUntouched(Process(db, tx, Front(log)), tx, Last(log), 0, tx);
    }
  }

  lemma StepsItsPool(db: Db, tx: Tx, e: Event)
    requires e.pool in db.markets && Fresh(db, tx, e.logIndex)
    ensures ViewOf(db.After(tx, e), tx, e.pool, e.logIndex + 1) == PoolStep(ViewOf(db, tx, e.pool, e.logIndex), e)
  {
    hide Db.After, ViewOf, PoolStep, Fresh;
    if e.Swap? { SwapStepsItsPool(db, tx, e); } else { FeeStepsItsPool(db, tx, e); }
  }

  /** However pools interleave, each pool's tables depend on its own events alone. */
  lemma {:induction false} PoolsAreIndependent(db: Db, tx: Tx, log: seq<Event>, pool: PoolId)
    requires Fresh(db, tx, 0) && InLogOrder(log) && pool in db.markets
    ensures ViewOf(Process(db, tx, log), tx, pool, End(log)) == PoolRun(View([], []), Project(log, pool))
  {
    if log != [] {
      var before, e := Process(db, tx, Front(log)), Last(log);
      PoolsAreIndependent(db, tx, Front(log), pool);
      LogStaysFresh(db, tx, Front(log));
      assert End(Front(log)) <= e.logIndex;
      hide Db.After, ViewOf, PoolStep, Project;
      ViewBeyond(before, tx, pool, End(Front(log)), e.logIndex);
      assert Fresh(before, tx, e.logIndex);
      ProjectLast(log, pool);
      if e.pool == pool {
        StepsItsPool(before, tx, e);
      } else {
        OthersUntouched(before, tx, e, pool, tx);
      }
    }
  }

  // ----- every fee is somewhere, exactly once --------------------------------------------------------------

  function Charged(fee: Option<Fee>): nat { if fee.Some? then fee.value.amount else 0 }

  function AttachedSum(rows: seq<Row>): nat {
    if rows == [] then 0 else AttachedSum(Front(rows)) + Charged(Last(rows).swap.fee)
  }

  function ParkedSum(parked: seq<Parked>): nat {
    if parked == [] then 0 else ParkedSum(Front(parked)) + Last(parked).fee.amount
  }

  function TakenSum(events: seq<Event>): nat {
    if events == [] then 0
    else TakenSum(Front(events)) + if Last(events).FeeTaken? then Last(events).amount else 0
  }

  lemma FrontOfAppended<T>(s: seq<T>, x: T)
    ensures Front(s + [x]) == s && Last(s + [x]) == x
  {
  }

  function Attached(rows: seq<Row>): multiset<Fee> {
    if rows == [] then multiset{}
    else Attached(Front(rows)) + OneFee(Last(rows).swap.fee)
  }

  function Waiting(parked: seq<Parked>): multiset<Fee> {
    if parked == [] then multiset{} else Waiting(Front(parked)) + multiset{Last(parked).fee}
  }

  function Taken(events: seq<Event>): multiset<Fee> {
    if events == [] then multiset{}
    else Taken(Front(events)) + if Last(events).FeeTaken? then multiset{FeeOf(Last(events))} else multiset{}
  }

  function OneFee(fee: Option<Fee>): multiset<Fee> { if fee.Some? then multiset{fee.value} else multiset{} }

  lemma AttachedMore(rows: seq<Row>, row: Row)
    ensures Attached(rows + [row]) == Attached(rows) + OneFee(row.swap.fee)
    ensures AttachedSum(rows + [row]) == AttachedSum(rows) + Charged(row.swap.fee)
  {
    FrontOfAppended(rows, row);
  }

  lemma WaitingMore(parked: seq<Parked>, p: Parked)
    ensures Waiting(parked + [p]) == Waiting(parked) + multiset{p.fee}
    ensures ParkedSum(parked + [p]) == ParkedSum(parked) + p.fee.amount
  {
    FrontOfAppended(parked, p);
  }

  function FeesIn(v: View): multiset<Fee> { Attached(v.rows) + Waiting(v.parked) }

  function SumIn(v: View): nat { AttachedSum(v.rows) + ParkedSum(v.parked) }

  lemma SwapsMoveFeesWhole(v: View, e: Event)
    requires e.Swap?
    ensures FeesIn(PoolStep(v, e)) == FeesIn(v) && SumIn(PoolStep(v, e)) == SumIn(v)
  {
    hide Attached, Waiting, AttachedSum, ParkedSum;
    if v.parked == [] {
      AttachedMore(v.rows, Row(e.logIndex, RowOf(e, None)));
    } else {
      AttachedMore(v.rows, Row(e.logIndex, RowOf(e, Some(Last(v.parked).fee))));
      WaitingMore(Front(v.parked), Last(v.parked));
      assert v.parked == Front(v.parked) + [Last(v.parked)];
    }
  }

  lemma ChargesArriveWhole(v: View, e: Event)
    requires e.FeeTaken?
    ensures FeesIn(PoolStep(v, e)) == FeesIn(v) + multiset{FeeOf(e)} && SumIn(PoolStep(v, e)) == SumIn(v) + e.amount
  {
    hide Attached, Waiting, AttachedSum, ParkedSum;
    if v.rows != [] && ChargedAfter(Last(v.rows).swap, e) {
      var row := Last(v.rows);
      AttachedMore(Front(v.rows), row);
      AttachedMore(Front(v.rows), row.(swap := row.swap.(fee := Some(FeeOf(e)))));
      assert v.rows == Front(v.rows) + [row];
    } else {
      WaitingMore(v.parked, Parked(e.logIndex, FeeOf(e)));
    }
  }

  /** Whatever the order and the amounts, every fee taken is attached to one row or parked in one place. */
  lemma {:induction false} FeesAreConserved(events: seq<Event>)
    ensures FeesIn(PoolRun(View([], []), events)) == Taken(events)
    ensures SumIn(PoolRun(View([], []), events)) == TakenSum(events)
  {
    if events != [] {
      hide PoolStep, FeesIn, SumIn;
      FeesAreConserved(Front(events));
      var v, e := PoolRun(View([], []), Front(events)), Last(events);
      if e.Swap? { SwapsMoveFeesWhole(v, e); } else { ChargesArriveWhole(v, e); }
    } else {
      assert FeesIn(View([], [])) == multiset{};
    }
  }

  /** A row that has its fee never changes again. */
  lemma {:induction false} ChargedRowsStay(v: View, events: seq<Event>, j: nat)
    requires j < |v.rows| && v.rows[j].swap.fee.Some?
    ensures j < |PoolRun(v, events).rows| && PoolRun(v, events).rows[j] == v.rows[j]
  {
    if events != [] {
      ChargedRowsStay(v, Front(events), j);
    }
  }

  /** And a row never takes a fee that none of the remaining events carries. */
  lemma {:induction false} RowsTakeOnlyWhatIsEmitted(v: View, events: seq<Event>, j: nat, fee: Fee)
    requires j < |v.rows| && v.rows[j].swap.fee != Some(fee)
    requires forall e | e in events && e.FeeTaken? :: FeeOf(e) != fee
    ensures j < |PoolRun(v, events).rows| && PoolRun(v, events).rows[j].swap.fee != Some(fee)
    ensures PoolRun(v, events).rows[j].index == v.rows[j].index
  {
    if events != [] {
      RowsTakeOnlyWhatIsEmitted(v, Front(events), j, fee);
      assert Last(events) in events;
    }
  }

  // ----- what a pool's swap calls emit ---------------------------------------------------------------------

  /** One swap call: uncharged, charged before the pool announced it, or charged after. */
  datatype Call = Untaxed(swap: Event) | FeeFirst(fee: Event, swap: Event) | SwapFirst(swap: Event, fee: Event) {

    predicate WellFormed() { swap.Swap? && (Untaxed? || fee.FeeTaken?) }

    function Events(): seq<Event> {
      match this
      case Untaxed(swap) => [swap]
      case FeeFirst(fee, swap) => [fee, swap]
      case SwapFirst(swap, fee) => [swap, fee]
    }

    /** The row this call should leave: its own swap with its own fee. */
    function OwnRow(): Row
      requires WellFormed()
    {
      Row(swap.logIndex, RowOf(swap, if Untaxed? then None else Some(FeeOf(fee))))
    }

    /** A fee charged after the swap reports the legs the pool reported, as it does when the pool took all it was offered. */
    predicate MeasuresItsLegs()
      requires WellFormed()
    {
      SwapFirst? ==> fee.grossQuote == Abs(swap.amount0) && fee.grossToken == Abs(swap.amount1)
    }

    /** A fee charged before the swap reports the legs of the uncharged swap before it. */
    predicate MistakenFor(previous: Call)
      requires WellFormed() && previous.WellFormed()
    {
      FeeFirst? && previous.Untaxed?
      && fee.grossQuote == Abs(previous.swap.amount0) && fee.grossToken == Abs(previous.swap.amount1)
    }
  }

  predicate Calls(calls: seq<Call>) { forall c | c in calls :: c.WellFormed() }

  function Flatten(calls: seq<Call>): seq<Event> {
    if calls == [] then [] else Flatten(Front(calls)) + Last(calls).Events()
  }

  function OwnRows(calls: seq<Call>): (rows: seq<Row>)
    requires Calls(calls)
    ensures |rows| == |calls|
  {
    seq(|calls|, i requires 0 <= i < |calls| => calls[i].OwnRow())
  }

  predicate NoneMistaken(calls: seq<Call>)
    requires Calls(calls)
  {
    |calls| > 1 ==> NoneMistaken(Front(calls)) && !Last(calls).MistakenFor(Last(Front(calls)))
  }

  predicate AllMeasured(calls: seq<Call>)
    requires Calls(calls)
  {
    forall c | c in calls :: c.MeasuresItsLegs()
  }

  /** What the join needs of a pool's calls. */
  predicate Joinable(calls: seq<Call>)
    requires Calls(calls)
  {
    NoneMistaken(calls) && AllMeasured(calls)
  }

  lemma PoolRunAppends(v: View, events: seq<Event>, e: Event)
    ensures PoolRun(v, events + [e]) == PoolStep(PoolRun(v, events), e)
  {
    FrontOfAppended(events, e);
  }

  /** What one call's events do to its pool. */
  function CallStep(v: View, c: Call): View {
    match c
    case Untaxed(swap) => PoolStep(v, swap)
    case FeeFirst(fee, swap) => PoolStep(PoolStep(v, fee), swap)
    case SwapFirst(swap, fee) => PoolStep(PoolStep(v, swap), fee)
  }

  lemma {:induction false} RunOfCalls(calls: seq<Call>)
    requires calls != [] && Calls(calls)
    ensures
      var v, c := PoolRun(View([], []), Flatten(Front(calls))), Last(calls);
      PoolRun(View([], []), Flatten(calls)) == CallStep(v, c)
  {
    hide PoolStep, PoolRun;
    var events, v := Flatten(Front(calls)), View([], []);
    match Last(calls)
    case Untaxed(swap) => PoolRunAppends(v, events, swap);
    case FeeFirst(fee, swap) =>
      PoolRunAppends(v, events, fee);
      PoolRunAppends(v, events + [fee], swap);
      assert events + [fee, swap] == (events + [fee]) + [swap];
    case SwapFirst(swap, fee) =>
      PoolRunAppends(v, events, swap);
      PoolRunAppends(v, events + [swap], fee);
      assert events + [swap, fee] == (events + [swap]) + [fee];
  }

  /** A call whose fee does not meet the legs of the row before it leaves exactly its own row. */
  lemma CallLandsOnItsOwnRow(rows: seq<Row>, c: Call)
    requires c.WellFormed() && c.MeasuresItsLegs()
    requires c.FeeFirst? && rows != [] ==> !ChargedAfter(Last(rows).swap, c.fee)
    ensures CallStep(View(rows, []), c) == View(rows + [c.OwnRow()], [])
  {
    match c
    case Untaxed(_) =>
    case FeeFirst(fee, swap) =>
      FrontOfAppended([], Parked(fee.logIndex, FeeOf(fee)));
    case SwapFirst(swap, fee) =>
      FrontOfAppended(rows, Row(swap.logIndex, RowOf(swap, None)));
  }

  lemma MistakenMeansMatching(previous: Call, c: Call)
    requires previous.WellFormed() && c.WellFormed()
    ensures c.MistakenFor(previous) <==> c.FeeFirst? && ChargedAfter(previous.OwnRow().swap, c.fee)
  {
  }

  /** With every fee measured and none mistaken, each call leaves exactly its own row and nothing stays parked. */
  lemma {:induction false} UnmistakenFeesFindTheirSwap(calls: seq<Call>)
    requires Calls(calls) && Joinable(calls)
    ensures PoolRun(View([], []), Flatten(calls)) == View(OwnRows(calls), [])
  {
    if calls != [] {
      var c, rows := Last(calls), OwnRows(Front(calls));
      assert OwnRows(calls) == rows + [c.OwnRow()];
      if |calls| > 1 {
        MistakenMeansMatching(Last(Front(calls)), c);
        assert Last(rows) == Last(Front(calls)).OwnRow();
      }
      UnmistakenFeesFindTheirSwap(Front(calls));
      RunOfCalls(calls);
      hide PoolRun, Flatten, CallStep, ChargedAfter, Call.OwnRow;
      CallLandsOnItsOwnRow(rows, c);
    }
  }

  lemma {:induction false} RunIsSequential(v: View, c: Call)
    requires c.WellFormed()
    ensures PoolRun(v, c.Events()) == CallStep(v, c)
  {
    hide PoolStep;
    match c
    case Untaxed(swap) => PoolRunAppends(v, [], swap);
    case FeeFirst(fee, swap) =>
      PoolRunAppends(v, [], fee);
      PoolRunAppends(v, [fee], swap);
    case SwapFirst(swap, fee) =>
      PoolRunAppends(v, [], swap);
      PoolRunAppends(v, [swap], fee);
  }

  // ----- when the join goes wrong --------------------------------------------------------------------------

  lemma MistakenFeeLands(rows: seq<Row>, c: Call)
    requires c.WellFormed() && c.FeeFirst? && rows != [] && ChargedAfter(Last(rows).swap, c.fee)
    ensures |CallStep(View(rows, []), c).rows| == |rows| + 1
    ensures CallStep(View(rows, []), c).rows[|rows| - 1].swap.fee.Some?
    ensures CallStep(View(rows, []), c).rows[|rows| - 1].index == Last(rows).index
  {
  }

  /** A fee that does not measure its swap is parked, and the swap's row stays without one. */
  lemma UnmeasuredFeeIsParked(rows: seq<Row>, c: Call)
    requires c.WellFormed() && !c.MeasuresItsLegs()
    ensures CallStep(View(rows, []), c)
            == View(rows + [Row(c.swap.logIndex, RowOf(c.swap, None))], [Parked(c.fee.logIndex, FeeOf(c.fee))])
  {
    FrontOfAppended(rows, Row(c.swap.logIndex, RowOf(c.swap, None)));
  }

  lemma {:induction false} FlattenHolds(calls: seq<Call>, j: nat, e: Event)
    requires j < |calls| && e in calls[j].Events()
    ensures e in Flatten(calls)
  {
    if j < |calls| - 1 {
      FlattenHolds(Front(calls), j, e);
    }
  }

  lemma {:induction false} OrderOfFront(calls: seq<Call>)
    requires calls != [] && InLogOrder(Flatten(calls))
    ensures InLogOrder(Flatten(Front(calls)))
  {
    var front, all := Flatten(Front(calls)), Flatten(calls);
    assert forall i | 0 <= i < |front| :: front[i] == all[i];
  }

  /** In log order, an earlier call's events come before a later call's. */
  lemma {:induction false} CallsAreInOrder(calls: seq<Call>, i: nat, j: nat, e: Event, f: Event)
    requires InLogOrder(Flatten(calls)) && i < j < |calls|
    requires e in calls[i].Events() && f in calls[j].Events()
    ensures e.logIndex < f.logIndex
  {
    if j < |calls| - 1 {
      OrderOfFront(calls);
      CallsAreInOrder(Front(calls), i, j, e, f);
    } else {
      FlattenHolds(Front(calls), i, e);
      var front, last := Flatten(Front(calls)), calls[j].Events();
      hide Flatten;
      var k :| 0 <= k < |front| && front[k] == e;
      var l :| 0 <= l < |last| && last[l] == f;
      InOrderAcross(front, last, k, l);
    }
  }

  lemma {:induction false} InOrderAcross(front: seq<Event>, last: seq<Event>, k: nat, l: nat)
    requires InLogOrder(front + last) && k < |front| && l < |last|
    ensures front[k].logIndex < last[l].logIndex
  {
    var all := front + last;
    assert all[k] == front[k] && all[|front| + l] == last[l];
  }

  /** Call j has a row, which does not have its fee. */
  predicate Misjoined(v: View, calls: seq<Call>, j: nat)
    requires Calls(calls) && j < |calls|
  {
    j < |v.rows| && v.rows[j].index == calls[j].swap.logIndex && v.rows[j].swap.fee != calls[j].OwnRow().swap.fee
  }

  /** Nothing that follows puts a wrong row right. */
  lemma {:induction false} WrongRowsStayWrong(calls: seq<Call>, v: View, j: nat)
    requires Calls(calls) && InLogOrder(Flatten(calls)) && j < |calls| - 1 && Misjoined(v, calls, j)
    ensures Misjoined(CallStep(v, Last(calls)), calls, j)
  {
    hide Flatten, CallStep, PoolRun, InLogOrder;
    var c := Last(calls);
    assert calls[j] in calls && c in calls;
    RunIsSequential(v, c);
    if calls[j].Untaxed? {
      ChargedRowsStay(v, c.Events(), j);
    } else {
      forall e | e in c.Events() && e.FeeTaken? ensures FeeOf(e) != FeeOf(calls[j].fee) {
        CallsAreInOrder(calls, j, |calls| - 1, calls[j].fee, e);
      }
      RowsTakeOnlyWhatIsEmitted(v, c.Events(), j, FeeOf(calls[j].fee));
    }
  }

  /** After calls that joined, a mistaken fee spoils the row before its own. */
  lemma {:induction false} MistakenCall(calls: seq<Call>)
    requires |calls| > 1 && Calls(calls) && Joinable(Front(calls)) && Last(calls).MistakenFor(Last(Front(calls)))
    ensures Misjoined(PoolRun(View([], []), Flatten(calls)), calls, |calls| - 2)
  {
    hide Flatten, CallStep, PoolRun, ChargedAfter;
    var c, rows, previous := Last(calls), OwnRows(Front(calls)), Last(Front(calls));
    UnmistakenFeesFindTheirSwap(Front(calls));
    RunOfCalls(calls);
    MistakenMeansMatching(previous, c);
    MistakenFeeLands(rows, c);
  }

  /** And an unmeasured fee leaves its own row without one. */
  lemma {:induction false} UnmeasuredCall(calls: seq<Call>)
    requires calls != [] && Calls(calls) && Joinable(Front(calls)) && !Last(calls).MeasuresItsLegs()
    ensures Misjoined(PoolRun(View([], []), Flatten(calls)), calls, |calls| - 1)
  {
    hide Flatten, CallStep, PoolRun;
    UnmistakenFeesFindTheirSwap(Front(calls));
    RunOfCalls(calls);
    UnmeasuredFeeIsParked(OwnRows(Front(calls)), Last(calls));
  }

  lemma {:induction false} JoinableUpTo(calls: seq<Call>)
    requires calls != [] && Calls(calls)
    ensures Joinable(calls) <==> Joinable(Front(calls)) && Last(calls).MeasuresItsLegs()
                                 && (|calls| > 1 ==> !Last(calls).MistakenFor(Last(Front(calls))))
  {
    var front, last := Front(calls), Last(calls);
    assert calls == front + [last];
    assert NoneMistaken(calls) <==> NoneMistaken(front) && (|calls| > 1 ==> !last.MistakenFor(Last(front)));
    assert AllMeasured(calls) <==> AllMeasured(front) && last.MeasuresItsLegs() by {
      assert forall c :: c in calls <==> c in front || c == last;
    }
  }

  lemma JoinableWhenEmpty()
    ensures Joinable([])
  {
  }

  /** Otherwise some row ends without its own fee, or with another's. */
  lemma {:induction false} AWrongCallShows(calls: seq<Call>) returns (j: nat)
    requires Calls(calls) && !Joinable(calls) && InLogOrder(Flatten(calls))
    ensures j < |calls| && Misjoined(PoolRun(View([], []), Flatten(calls)), calls, j)
  {
    hide Flatten, CallStep, PoolRun, InLogOrder, Joinable, Misjoined;
    JoinableWhenEmpty();
    JoinableUpTo(calls);
    if Joinable(Front(calls)) {
      if !Last(calls).MeasuresItsLegs() {
        UnmeasuredCall(calls);
        j := |calls| - 1;
      } else {
        MistakenCall(calls);
        j := |calls| - 2;
      }
    } else {
      OrderOfFront(calls);
      j := AWrongCallShows(Front(calls));
      RunOfCalls(calls);
      SameRowOfMore(PoolRun(View([], []), Flatten(Front(calls))), calls, j);
      WrongRowsStayWrong(calls, PoolRun(View([], []), Flatten(Front(calls))), j);
    }
  }

  lemma {:induction false} SameRowOfMore(v: View, calls: seq<Call>, j: nat)
    requires Calls(calls) && j < |calls| - 1 && Misjoined(v, Front(calls), j)
    ensures Misjoined(v, calls, j)
  {
  }

  /** One pool's calls are joined exactly if and only if every late fee measures its swap and no early one another's. */
  lemma {:induction false} ExactIffJoinable(calls: seq<Call>)
    requires Calls(calls) && InLogOrder(Flatten(calls))
    ensures PoolRun(View([], []), Flatten(calls)) == View(OwnRows(calls), [])
       <==> NoneMistaken(calls) && forall c | c in calls :: c.MeasuresItsLegs()
  {
    if Joinable(calls) {
      UnmistakenFeesFindTheirSwap(calls);
    } else {
      var j := AWrongCallShows(calls);
      hide Flatten, PoolRun;
      assert OwnRows(calls)[j] == calls[j].OwnRow();
    }
  }

  lemma TwoCalls(a: Call, b: Call)
    requires a.WellFormed() && b.WellFormed()
    ensures Flatten([a, b]) == a.Events() + b.Events()
    ensures PoolRun(View([], []), Flatten([a, b])) == CallStep(CallStep(View([], []), a), b)
  {
    hide CallStep, PoolStep, Call.Events;
    assert Front([a, b]) == [a] && Front([a]) == [] && Last([a, b]) == b;
    RunOfCalls([a]);
    RunOfCalls([a, b]);
  }

  /**
    * A market that charges buys in its token and charges no sales: a sale of 1000 tokens too small
    * to return a unit, then a buy of exactly 1000 tokens. The buy's fee lands on the sale.
    */
  lemma AFeeCanBeMistaken() returns (calls: seq<Call>)
    ensures |calls| == 2 && Calls(calls) && AllMeasured(calls) && InLogOrder(Flatten(calls))
    ensures calls[0].Untaxed? && calls[1].FeeFirst? && calls[1].WellFormed()
    ensures
      var rows := PoolRun(View([], []), Flatten(calls)).rows;
      |rows| == 2 && rows[0].swap.fee == Some(FeeOf(calls[1].fee)) && rows[1].swap.fee.None?
  {
    hide PoolRun, Flatten;
    var sale := Untaxed(Swap(0, 0, -1000, 0));
    var buy := FeeFirst(FeeTaken(0, 0, 1000, 10000, 10, 1), Swap(0, -1, 1010, 2));
    calls := [sale, buy];
    TwoCalls(sale, buy);
  }

  /** A fee left parked goes to the next swap of the pool, whoever's it is. */
  lemma ParkedFeeIsClaimed(rows: seq<Row>, parked: Parked, c: Call)
    requires c.WellFormed() && c.Untaxed?
    ensures CallStep(View(rows, [parked]), c)
            == View(rows + [Row(c.swap.logIndex, RowOf(c.swap, Some(parked.fee)))], [])
  {
    FrontOfAppended([], parked);
  }

  /**
    * A sale of 1000 tokens of which the pool takes 900, charged in the quote it returned: the hook
    * measures the 1000 that were named. The fee goes to the next sale, too small to owe one itself.
    */
  lemma AFeeCanMissItsSwap() returns (calls: seq<Call>)
    ensures |calls| == 2 && Calls(calls) && NoneMistaken(calls) && InLogOrder(Flatten(calls))
    ensures calls[0].SwapFirst? && calls[0].WellFormed() && calls[1].Untaxed?
    ensures
      var v := PoolRun(View([], []), Flatten(calls));
      |v.rows| == 2 && v.rows[0].swap.fee.None? && v.rows[1].swap.fee == Some(FeeOf(calls[0].fee)) && v.parked == []
  {
    hide PoolRun, Flatten;
    var partial := SwapFirst(Swap(0, 500, -900, 0), FeeTaken(0, 500, 1000, 10000, 5, 1));
    var dust := Untaxed(Swap(0, 1, -2, 2));
    calls := [partial, dust];
    TwoCalls(partial, dust);
    UnmeasuredFeeIsParked([], partial);
    ParkedFeeIsClaimed([Row(0, RowOf(partial.swap, None))], Parked(1, FeeOf(partial.fee)), dust);
    hide CallStep;
  }

  // ----- the join, over whole logs --------------------------------------------------------------------------

  lemma {:induction false} RowsAreTheTable(db: Db, tx: Tx, pool: PoolId, n: nat, row: Row)
    ensures row in Rows(db, tx, pool, n)
       <==> row.index < n && db.HasSwap(tx, pool, row.index) && db.swaps[(tx, row.index)] == row.swap
  {
    if n > 0 {
      RowsAreTheTable(db, tx, pool, n - 1, row);
    }
  }

  lemma {:induction false} NothingParked(db: Db, tx: Tx, pool: PoolId, n: nat, k: nat)
    requires ParkedFees(db, tx, pool, n) == [] && k < n
    ensures !db.HasPending(tx, pool, k)
  {
    if k < n - 1 {
      NothingParked(db, tx, pool, n - 1, k);
    }
  }

  /** What the join promises a pool: one row per call with that call's fee, and nothing parked. */
  ghost predicate Joined(db: Db, tx: Tx, pool: PoolId, calls: seq<Call>)
    requires Calls(calls)
  {
    && (forall row: Row :: (db.HasSwap(tx, pool, row.index) && db.swaps[(tx, row.index)] == row.swap)
                           <==> row in OwnRows(calls))
    && (forall k: nat :: !db.HasPending(tx, pool, k))
  }

  lemma {:induction false} JoinedWhenExact(db: Db, tx: Tx, log: seq<Event>, pool: PoolId, calls: seq<Call>)
    requires Fresh(db, tx, 0) && InLogOrder(log) && pool in db.markets && Calls(calls)
    requires ViewOf(Process(db, tx, log), tx, pool, End(log)) == View(OwnRows(calls), [])
    ensures Joined(Process(db, tx, log), tx, pool, calls)
    ensures AttachedSum(OwnRows(calls)) == TakenSum(Project(log, pool))
  {
    var after, n := Process(db, tx, log), End(log);
    LogStaysFresh(db, tx, log);
    PoolsAreIndependent(db, tx, log, pool);
    FeesAreConserved(Project(log, pool));
    hide Process, Project, End, PoolRun;
    forall row: Row
      ensures (after.HasSwap(tx, pool, row.index) && after.swaps[(tx, row.index)] == row.swap) <==> row in OwnRows(calls)
    {
      RowsAreTheTable(after, tx, pool, n, row);
    }
    forall k: nat ensures !after.HasPending(tx, pool, k) {
      if k < n {
        NothingParked(after, tx, pool, n, k);
      }
    }
  }

  /** A table holding a call's row without its fee is not joined, whatever else it holds. */
  lemma {:induction false} NotJoinedWhenWrong(db: Db, tx: Tx, pool: PoolId, n: nat, calls: seq<Call>, j: nat)
    requires Calls(calls) && InLogOrder(Flatten(calls)) && j < |calls|
    requires Misjoined(ViewOf(db, tx, pool, n), calls, j)
    ensures !Joined(db, tx, pool, calls)
  {
    var row := Rows(db, tx, pool, n)[j];
    RowsAreTheTable(db, tx, pool, n, row);
    if row in OwnRows(calls) {
      var i :| 0 <= i < |calls| && OwnRows(calls)[i] == row;
      hide Flatten;
      if i < j {
        CallsAreInOrder(calls, i, j, calls[i].swap, calls[j].swap);
      } else if j < i {
        CallsAreInOrder(calls, j, i, calls[j].swap, calls[i].swap);
      }
    }
  }

  lemma {:induction false} ProjectionKeepsOrder(log: seq<Event>, pool: PoolId)
    requires InLogOrder(log)
    ensures InLogOrder(Project(log, pool)) && forall e | e in Project(log, pool) :: e in log
  {
    if log != [] {
      ProjectionKeepsOrder(Front(log), pool);
      var own := Project(Front(log), pool);
      assert forall i | 0 <= i < |own| :: own[i] in own;
    }
  }

  /**
    * For any log in which a followed pool's events come from swap calls, other pools interleaved
    * at will, the pool's rows carry exactly their own fees if and only if its calls are joinable.
    */
  lemma {:induction false} JoinIsExact(db: Db, tx: Tx, log: seq<Event>, pool: PoolId, calls: seq<Call>)
    requires Fresh(db, tx, 0) && InLogOrder(log) && pool in db.markets
    requires Calls(calls) && Project(log, pool) == Flatten(calls)
    ensures Joined(Process(db, tx, log), tx, pool, calls) <==> Joinable(calls)
    ensures Joinable(calls) ==> AttachedSum(OwnRows(calls)) == TakenSum(Project(log, pool))
    ensures ViewOf(Process(db, tx, log), tx, pool, End(log)) == View(OwnRows(calls), []) <==> Joinable(calls)
  {
    ProjectionKeepsOrder(log, pool);
    PoolsAreIndependent(db, tx, log, pool);
    ExactIffJoinable(calls);
    LogStaysFresh(db, tx, log);
    hide Process, Project, Flatten, PoolRun, NoneMistaken;
    if Joinable(calls) {
      JoinedWhenExact(db, tx, log, pool, calls);
    } else {
      var j := AWrongCallShows(calls);
      NotJoinedWhenWrong(Process(db, tx, log), tx, pool, End(log), calls, j);
    }
  }

  // ----- what the tables say of the log ------------------------------------------------------------------------

  /**
    * A row gives back the swap it stands for: always the quote leg with its sign, and the token leg
    * too exactly when it has the opposite sign.
    */
  predicate Tells(row: SwapRow, e: Event)
    requires e.Swap?
  {
    && row.pool == e.pool
    && (if row.buy then e.amount0 + row.quote == 0 && row.quote > 0 else e.amount0 == row.quote)
    && ((if row.buy then e.amount1 == row.token else e.amount1 + row.token == 0)
        <==> (if e.amount0 < 0 then e.amount1 >= 0 else e.amount1 <= 0))
    && (e.amount1 == row.token || e.amount1 + row.token == 0)
  }

  /** The log holds a charge of this pool with this rate and amount. */
  predicate Emitted(log: seq<Event>, pool: PoolId, fee: Fee) {
    exists e | e in log ::
      e.FeeTaken? && e.pool == pool && e.ppm == fee.ppm && e.amount == fee.amount && e.logIndex == fee.chargedAt
  }

  /** Every followed swap has its row, and every row and parked fee is the log's. */
  ghost predicate TellsTheLog(db: Db, tx: Tx, log: seq<Event>) {
    && (forall e | e in log && e.Swap? && e.pool in db.markets ::
          (tx, e.logIndex) in db.swaps && Tells(db.swaps[(tx, e.logIndex)], e))
    && (forall k | (tx, k) in db.swaps :: exists e | e in log :: e.Swap? && e.logIndex == k)
    && (forall k | (tx, k) in db.swaps ::
          db.swaps[(tx, k)].fee.Some? ==> Emitted(log, db.swaps[(tx, k)].pool, db.swaps[(tx, k)].fee.value))
    && (forall k | (tx, k) in db.pending :: Emitted(log, db.pending[(tx, k)].pool, db.pending[(tx, k)].fee))
  }

  lemma LongerLogEmits(log: seq<Event>, e: Event, pool: PoolId, fee: Fee)
    ensures Emitted(log, pool, fee) ==> Emitted(log + [e], pool, fee)
    ensures e.FeeTaken? ==> Emitted(log + [e], e.pool, FeeOf(e))
  {
    assert e in log + [e];
    if Emitted(log, pool, fee) {
      var f :| f in log && f.FeeTaken? && f.pool == pool && f.ppm == fee.ppm && f.amount == fee.amount
               && f.logIndex == fee.chargedAt;
      assert f in log + [e];
    }
  }

  /** What a handler does to a row there was, and to the row of its own log. */
  lemma {:induction false} RowAfter(db: Db, tx: Tx, e: Event, k: nat)
    requires Fresh(db, tx, e.logIndex)
    ensures (tx, k) in db.swaps ==>
              (tx, k) in db.After(tx, e).swaps
              && (db.After(tx, e).swaps[(tx, k)] == db.swaps[(tx, k)]
                  || (e.FeeTaken? && db.swaps[(tx, k)].pool == e.pool
                      && db.After(tx, e).swaps[(tx, k)] == db.swaps[(tx, k)].(fee := Some(FeeOf(e)))))
    ensures (tx, k) !in db.swaps && (tx, k) in db.After(tx, e).swaps ==>
              e.Swap? && k == e.logIndex && e.pool in db.markets
    ensures (tx, k) in db.After(tx, e).pending ==>
              ((tx, k) in db.pending && db.After(tx, e).pending[(tx, k)] == db.pending[(tx, k)])
              || (e.FeeTaken? && db.After(tx, e).pending[(tx, k)] == PendingRow(e.pool, FeeOf(e)))
  {
  }

  lemma {:induction false} OwnRowAfter(db: Db, tx: Tx, e: Event)
    requires e.Swap? && e.pool in db.markets
    ensures
      var after := db.After(tx, e);
      && (tx, e.logIndex) in after.swaps && Tells(after.swaps[(tx, e.logIndex)], e)
      && (after.swaps[(tx, e.logIndex)].fee.Some? ==>
            exists k :: db.HasPending(tx, e.pool, k) && db.pending[(tx, k)].fee == after.swaps[(tx, e.logIndex)].fee.value)
  {
  }

  lemma {:induction false} StepTellsTheLog(db: Db, tx: Tx, log: seq<Event>, e: Event)
    requires TellsTheLog(db, tx, log) && Fresh(db, tx, e.logIndex)
    ensures TellsTheLog(db.After(tx, e), tx, log + [e])
  {
    hide Db.After, Tells, Emitted;
    var after, longer := db.After(tx, e), log + [e];
    OthersUntouched(db, tx, e, e.pool, tx);
    if e.Swap? && e.pool in db.markets {
      OwnRowAfter(db, tx, e);
    }
    forall f | f in longer && f.Swap? && f.pool in after.markets
      ensures (tx, f.logIndex) in after.swaps && Tells(after.swaps[(tx, f.logIndex)], f)
    {
      if f in log {
        RowAfter(db, tx, e, f.logIndex);
        SameLegsTell(db.swaps[(tx, f.logIndex)], after.swaps[(tx, f.logIndex)], f);
      }
    }
    forall k | (tx, k) in after.swaps
      ensures exists f | f in longer :: f.Swap? && f.logIndex == k
      ensures after.swaps[(tx, k)].fee.Some? ==> Emitted(longer, after.swaps[(tx, k)].pool, after.swaps[(tx, k)].fee.value)
    {
      RowStillTells(db, tx, log, e, k);
    }
    forall k | (tx, k) in after.pending ensures Emitted(longer, after.pending[(tx, k)].pool, after.pending[(tx, k)].fee) {
      RowAfter(db, tx, e, k);
      LongerLogEmits(log, e, after.pending[(tx, k)].pool, after.pending[(tx, k)].fee);
    }
  }

  lemma SameLegsTell(row: SwapRow, row': SwapRow, e: Event)
    requires e.Swap? && Tells(row, e) && row'.(fee := row.fee) == row
    ensures Tells(row', e)
  {
  }

  lemma {:induction false} RowStillTells(db: Db, tx: Tx, log: seq<Event>, e: Event, k: nat)
    requires TellsTheLog(db, tx, log) && Fresh(db, tx, e.logIndex) && (tx, k) in db.After(tx, e).swaps
    ensures exists f | f in log + [e] :: f.Swap? && f.logIndex == k
    ensures
      var row := db.After(tx, e).swaps[(tx, k)];
      row.fee.Some? ==> Emitted(log + [e], row.pool, row.fee.value)
  {
    hide Db.After, Emitted, Tells;
    var row := db.After(tx, e).swaps[(tx, k)];
    RowAfter(db, tx, e, k);
    if row.fee.Some? {
      LongerLogEmits(log, e, row.pool, row.fee.value);
    }
    assert e in log + [e];
    if (tx, k) in db.swaps {
      var f :| f in log && f.Swap? && f.logIndex == k;
      assert f in log + [e];
    } else {
      OwnRowAfter(db, tx, e);
      OwnRowPool(row, e);
    }
  }

  lemma OwnRowPool(row: SwapRow, e: Event)
    requires e.Swap? && Tells(row, e)
    ensures row.pool == e.pool
  {
  }

  /**
    * After any log every swap of a followed pool has a row that gives its legs back, there are no
    * other rows, and every fee in the tables has the rate and amount of a charge of its pool.
    */
  lemma {:induction false} TablesTellTheLog(db: Db, tx: Tx, log: seq<Event>)
    requires Fresh(db, tx, 0) && InLogOrder(log)
    ensures TellsTheLog(Process(db, tx, log), tx, log)
  {
    hide Db.After, TellsTheLog;
    if log == [] {
      NothingTold(db, tx);
    } else {
      var before, e := Process(db, tx, Front(log)), Last(log);
      TablesTellTheLog(db, tx, Front(log));
      LogStaysFresh(db, tx, Front(log));
      assert End(Front(log)) <= e.logIndex;
      StepTellsTheLog(before, tx, Front(log), e);
      assert log == Front(log) + [e];
    }
  }

  lemma NothingTold(db: Db, tx: Tx)
    requires Fresh(db, tx, 0)
    ensures TellsTheLog(db, tx, [])
  {
  }

  // ----- what the join does not touch ------------------------------------------------------------------------

  /** A pool's fees as they would be parked. */
  function FeesOf(events: seq<Event>): seq<Parked> {
    if events == [] then []
    else FeesOf(Front(events))
         + if Last(events).FeeTaken? then [Parked(Last(events).logIndex, FeeOf(Last(events)))] else []
  }

  lemma UnfollowedSwapIgnored(db: Db, tx: Tx, e: Event)
    requires e.Swap? && e.pool !in db.markets && Fresh(db, tx, e.logIndex)
    ensures ViewOf(db.After(tx, e), tx, e.pool, e.logIndex + 1) == ViewOf(db, tx, e.pool, e.logIndex)
  {
    ViewBeyond(db, tx, e.pool, e.logIndex, e.logIndex + 1);
  }

  lemma ParkedOnTop(own: seq<Event>, e: Event)
    requires e.FeeTaken?
    ensures PoolStep(View([], FeesOf(own)), e) == View([], FeesOf(own + [e]))
  {
    FrontOfAppended(own, e);
  }

  lemma SwapsParkNothing(own: seq<Event>, e: Event)
    requires e.Swap?
    ensures FeesOf(own + [e]) == FeesOf(own)
  {
    FrontOfAppended(own, e);
  }

  /** A pool that is not followed gets no rows, and every one of its fees stays parked. */
  lemma {:induction false} UnfollowedFeesStayParked(db: Db, tx: Tx, log: seq<Event>, pool: PoolId)
    requires Fresh(db, tx, 0) && InLogOrder(log) && pool !in db.markets
    ensures ViewOf(Process(db, tx, log), tx, pool, End(log)) == View([], FeesOf(Project(log, pool)))
  {
    if log != [] {
      var before, e := Process(db, tx, Front(log)), Last(log);
      UnfollowedFeesStayParked(db, tx, Front(log), pool);
      LogStaysFresh(db, tx, Front(log));
      assert End(Front(log)) <= e.logIndex;
      hide Db.After, ViewOf, PoolStep, Project, FeesOf;
      ViewBeyond(before, tx, pool, End(Front(log)), e.logIndex);
      assert Fresh(before, tx, e.logIndex);
      hide Fresh;
      ProjectLast(log, pool);
      if e.pool == pool {
        assert Project(log, pool) == Project(Front(log), pool) + [e];
      }
      if e.pool != pool {
        OthersUntouched(before, tx, e, pool, tx);
      } else if e.Swap? {
        UnfollowedSwapIgnored(before, tx, e);
        SwapsParkNothing(Project(Front(log), pool), e);
      } else {
        FeeStepsItsPool(before, tx, e);
        ParkedOnTop(Project(Front(log), pool), e);
      }
    }
  }

  ghost predicate SameTransaction(db: Db, db': Db, tx: Tx) {
    && (forall k :: (tx, k) in db.swaps <==> (tx, k) in db'.swaps)
    && (forall k :: (tx, k) in db.pending <==> (tx, k) in db'.pending)
    && (forall k | (tx, k) in db.swaps && (tx, k) in db'.swaps :: db.swaps[(tx, k)] == db'.swaps[(tx, k)])
    && (forall k | (tx, k) in db.pending && (tx, k) in db'.pending :: db.pending[(tx, k)] == db'.pending[(tx, k)])
  }

  /** A transaction's fees never reach another transaction's swaps. */
  lemma {:induction false} OtherTransactionsUntouched(db: Db, tx: Tx, log: seq<Event>, other: Tx)
    requires other != tx
    ensures SameTransaction(db, Process(db, tx, log), other)
  {
    if log != [] {
      OtherTransactionsUntouched(db, tx, Front(log), other);
      var before := Process(db, tx, Front(log));
      assert SameTransaction(before, before.After(tx, Last(log)), other);
    }
  }

  function Counted(totals: MarketRow, e: Event): MarketRow {
    if e.Swap? then
      MarketRow(totals.swapCount + 1, totals.volumeQuote + Abs(e.amount0), totals.volumeToken + Abs(e.amount1))
    else totals
  }

  function Swapped(totals: MarketRow, events: seq<Event>): MarketRow {
    if events == [] then totals else Counted(Swapped(totals, Front(events)), Last(events))
  }

  lemma MarketStep(db: Db, tx: Tx, e: Event, pool: PoolId)
    requires pool in db.markets
    ensures pool in db.After(tx, e).markets
    ensures db.After(tx, e).markets[pool] == if e.pool == pool then Counted(db.markets[pool], e) else db.markets[pool]
  {
    hide Db.NearestSwap, Db.NearestPending;
  }

  /** A followed market's totals grow by exactly its own swaps, however pools interleave. */
  lemma {:induction false} TotalsFollowTheSwaps(db: Db, tx: Tx, log: seq<Event>, pool: PoolId)
    requires pool in db.markets
    ensures pool in Process(db, tx, log).markets
    ensures Process(db, tx, log).markets[pool] == Swapped(db.markets[pool], Project(log, pool))
  {
    if log != [] {
      TotalsFollowTheSwaps(db, tx, Front(log), pool);
      ProjectLast(log, pool);
      hide Project, Db.After, Counted;
      MarketStep(Process(db, tx, Front(log)), tx, Last(log), pool);
    }
  }
}
