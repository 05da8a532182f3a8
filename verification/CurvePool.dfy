/**
  * The pool that trades along a geometry: `class Pool` of apps/agen/scripts/curve.ts.
  *
  * Each walk over the ranges is proved against the two potentials of module Curve, so what
  * a trade does no longer mentions ranges at all.
  */
module CurvePool {
  import opened Curve

  /** The square of a non-negative root; a negative root stands for a negative price. */
  function SignedSquare(x: real): real { if x < 0.0 then -(x * x) else x * x }

  /** `target` is the root of the price `percent` away from the one at `root`. */
  predicate IsTarget(root: real, percent: real, target: real) {
    SignedSquare(target) == root * root * (1.0 + percent / 100.0)
  }

  // ----- one step of each walk ----------------------------------------------------

  /** Every range below i is used up at s, so a rise to `to` happens inside range i. */
  lemma RiseWithin(rs: seq<Range>, i: nat, s: real, to: real)
    requires Stacked(rs) && i < |rs|
    requires forall j | 0 <= j < i :: rs[j].high <= s
    requires s < rs[i].high && Max(s, rs[i].low) <= to <= rs[i].high
    ensures Quote(rs, to) - Quote(rs, s) == QuoteBetween(rs[i], Max(s, rs[i].low), to)
    ensures Tokens(rs, s) - Tokens(rs, to) == TokensBetween(rs[i], Max(s, rs[i].low), to)
  {
    hide QuoteBetween, TokensBetween, Quote, Tokens;
    ChangeAt(rs, i, s, to);
  }

  /** Every range above i is untouched at s, so a fall to `to` happens inside range i. */
  lemma FallWithin(rs: seq<Range>, i: nat, s: real, to: real)
    requires Stacked(rs) && i < |rs|
    requires forall j | i < j < |rs| :: s <= rs[j].low
    requires rs[i].low < s && rs[i].low <= to <= Min(s, rs[i].high)
    ensures Quote(rs, s) - Quote(rs, to) == QuoteBetween(rs[i], to, Min(s, rs[i].high))
    ensures Tokens(rs, to) - Tokens(rs, s) == TokensBetween(rs[i], to, Min(s, rs[i].high))
  {
    hide QuoteBetween, TokensBetween, Quote, Tokens;
    ChangeAt(rs, i, to, s);
  }

  /** The root a partial buy stops at: inside the range, having spent exactly `x`. */
  lemma PartialRise(r: Range, from: real, x: real, root: real)
    requires 0.0 < from && 0.0 <= x < QuoteBetween(r, from, r.high)
    requires root == from + x / r.liquidity
    ensures from <= root < r.high && QuoteBetween(r, from, root) == x
    ensures 0.0 < x ==> from < root
  {
    var step := x / r.liquidity;
    assert step * r.liquidity == x;
    if step < 0.0 {
      Scale(r.liquidity, step, 0.0);
    }
    if r.high - from <= step {
      Scale(r.liquidity, r.high - from, step);
    }
  }

  /** The root a partial sell stops at: inside the range, having returned exactly `x`. */
  lemma PartialFall(r: Range, from: real, x: real, to: real)
    requires r.low < from && 0.0 <= x < TokensBetween(r, r.low, from)
    requires to == 1.0 / (x / r.liquidity + 1.0 / from)
    ensures r.low < to <= from && TokensBetween(r, to, from) == x
    ensures 0.0 < x ==> to < from
  {
    var l, step, a, b := r.liquidity, x / r.liquidity, 1.0 / from, 1.0 / r.low;
    Inverse(from, a);
    Inverse(r.low, b);
    assert step * l == x;
    assert 0.0 <= step < b - a by {
      if step < 0.0 {
        Scale(l, step, 0.0);
      }
      if b - a <= step {
        Scale(l, b - a, step);
      }
    }
    assert 1.0 / to == step + a by { Inverse(step + a, to); }
    assert to * (step + a) == 1.0;
    if from < to {
      InverseOrder(from, to);
    }
    if to <= r.low {
      InverseOrder(to, r.low);
    }
  }

  // ----- the pool ------------------------------------------------------------------

  class Pool {
    const geometry: seq<Range>
    /** Square root of the price. */
    var root: real

    ghost predicate Valid()
      reads this
    {
      Stacked(geometry) && 0.0 < root
    }

    constructor (geometry: seq<Range>, openingRoot: real)
      requires Stacked(geometry) && 0.0 < openingRoot
      ensures Valid() && this.geometry == geometry && root == openingRoot
    {
      this.geometry := geometry;
      root := openingRoot;
    }

    method Clone() returns (copy: Pool)
      requires Valid()
      ensures fresh(copy) && copy.Valid() && copy.geometry == geometry && copy.root == root
    {
      copy := new Pool(geometry, root);
    }

    /** Walk up the ranges while there is quote left to spend. */
    method Buy(quoteIn: real) returns (tokensOut: real)
      requires Valid()
      modifies this
      ensures Valid() && IsBuy(geometry, old(root), quoteIn, root, tokensOut)
    {
      hide QuoteBetween, TokensBetween, Quote, Tokens, Capacity;
      var remaining := quoteIn;
      tokensOut := 0.0;
      PotentialBounds(geometry, root);
      for i := 0 to |geometry|
        invariant Valid() && old(root) <= root
        invariant forall j | 0 <= j < i :: geometry[j].high <= root || remaining <= 0.0
        invariant 0.0 < quoteIn ==> 0.0 <= remaining
        invariant Quote(geometry, root) - Quote(geometry, old(root)) == quoteIn - remaining
        invariant tokensOut == Tokens(geometry, old(root)) - Tokens(geometry, root)
        invariant root != old(root) ==> 0.0 < quoteIn && InSpan(geometry, root)
        invariant 0.0 < remaining ==> 0.0 < quoteIn
        invariant quoteIn <= 0.0 ==> remaining == quoteIn
      {
        if remaining <= 0.0 { break; }
        var range := geometry[i];
        if root >= range.high { continue; }

        var from := Max(root, range.low);
        var capacity := QuoteBetween(range, from, range.high);

        if remaining < capacity {
          var to := from + remaining / range.liquidity;
          PartialRise(range, from, remaining, to);
          RiseWithin(geometry, i, root, to);
          tokensOut := tokensOut + TokensBetween(range, from, to);
          root := to;
          PotentialBounds(geometry, root);
          return;
        }

        RiseWithin(geometry, i, root, range.high);
        tokensOut := tokensOut + TokensBetween(range, from, range.high);
        remaining := remaining - capacity;
        root := range.high;
      }
      if 0.0 < remaining {
        PotentialAbove(geometry, root);
      } else {
        PotentialBounds(geometry, root);
      }
    }

    /** Walk down the ranges while there are tokens left to sell. */
    method Sell(tokenIn: real) returns (quoteOut: real)
      requires Valid()
      modifies this
      ensures Valid() && IsSell(geometry, old(root), tokenIn, root, quoteOut)
    {
      hide QuoteBetween, TokensBetween, Quote, Tokens, Placed;
      var remaining := tokenIn;
      quoteOut := 0.0;
      PotentialBounds(geometry, root);
      for i := |geometry| downto 0
        invariant Valid() && root <= old(root)
        invariant forall j | i <= j < |geometry| :: root <= geometry[j].low || remaining <= 0.0
        invariant 0.0 < tokenIn ==> 0.0 <= remaining
        invariant Tokens(geometry, root) - Tokens(geometry, old(root)) == tokenIn - remaining
        invariant quoteOut == Quote(geometry, old(root)) - Quote(geometry, root)
        invariant root != old(root) ==> 0.0 < tokenIn && InSpan(geometry, root)
        invariant 0.0 < remaining ==> 0.0 < tokenIn
        invariant tokenIn <= 0.0 ==> remaining == tokenIn
      {
        var range := geometry[i];
        if remaining <= 0.0 { break; }
        if root <= range.low { continue; }

        var from := Min(root, range.high);
        var capacity := TokensBetween(range, range.low, from);

        if remaining < capacity {
          var inverse := remaining / range.liquidity + 1.0 / from;
          InversePositive(range, remaining, from);
          var to := 1.0 / inverse;
          PartialFall(range, from, remaining, to);
          FallWithin(geometry, i, root, to);
          quoteOut := quoteOut + QuoteBetween(range, to, from);
          root := to;
          PotentialBounds(geometry, root);
          return;
        }

        FallWithin(geometry, i, root, range.low);
        quoteOut := quoteOut + QuoteBetween(range, range.low, from);
        remaining := remaining - capacity;
        root := range.low;
      }
      if 0.0 < remaining {
        PotentialBelow(geometry, root);
      } else {
        PotentialBounds(geometry, root);
      }
    }

    /** The upward walk priced without trading. */
    method CostToRaise(percent: real, target: real) returns (cost: real)
      requires Valid() && IsTarget(root, percent, target)
      ensures cost == if root < target then Quote(geometry, target) - Quote(geometry, root) else 0.0
    {
      hide QuoteBetween, TokensBetween, Quote, Tokens, IsTarget, SignedSquare;
      cost := 0.0;
      ghost var at := root;
      for i := 0 to |geometry|
        invariant at == root || root < at < target
        invariant at == root || forall j | i <= j < |geometry| :: at <= geometry[j].low
        invariant forall j | 0 <= j < i :: geometry[j].high <= at
        invariant cost == Quote(geometry, at) - Quote(geometry, root)
      {
        var range := geometry[i];
        if root >= range.high { continue; }
        var from := Max(root, range.low);
        if from >= target {
          if root < target {
            NothingBetween(geometry, i, at, target);
            at := target;
          }
          break;
        }
        var to := Min(target, range.high);
        RiseWithin(geometry, i, at, to);
        cost := cost + QuoteBetween(range, from, to);
        at := to;
        if to >= target { break; }
      }
      if root < target && at < target {
        NothingBetween(geometry, |geometry|, at, target);
      }
    }

    /** The downward walk counts tokens, and a copy of the pool is asked what they fetch. */
    method SaleToDrop(percent: real, target: real) returns (value: real)
      requires Valid() && IsTarget(root, -percent, target)
      ensures value == if target < root then Quote(geometry, root) - Quote(geometry, target) else 0.0
    {
      hide QuoteBetween, TokensBetween, Quote, Tokens, IsTarget, SignedSquare;
      var probe := Clone();
      var tokens := 0.0;
      ghost var at := root;
      for i := |geometry| downto 0
        invariant at == root || target < at < root
        invariant at == root || forall j | 0 <= j < i :: geometry[j].high <= at
        invariant 0.0 < at && probe.root == root
        invariant forall j | i <= j < |geometry| :: at <= geometry[j].low
        invariant tokens == Tokens(geometry, at) - Tokens(geometry, root)
      {
        var range := probe.geometry[i];
        if probe.root <= range.low { continue; }
        var from := Min(probe.root, range.high);
        if from <= target {
          if target < root {
            NothingBetween(geometry, i + 1, target, at);
            at := target;
          }
          break;
        }
        var to := Max(target, range.low);
        FallWithin(geometry, i, at, to);
        tokens := tokens + TokensBetween(range, to, from);
        at := to;
        if to <= target { break; }
      }
      if target < root && target < at {
        NothingBetween(geometry, 0, target, at);
      }
      var trial := probe.Clone();
      value := trial.Sell(tokens);
      if target < root {
        FallDetermined(geometry, root, target, trial.root);
      }
    }
  }

  lemma InversePositive(r: Range, x: real, from: real)
    requires 0.0 <= x && 0.0 < from
    ensures 0.0 < x / r.liquidity + 1.0 / from
  {
  }

  /** Neither potential changes between two prices with no range between them. */
  lemma NothingBetween(rs: seq<Range>, i: nat, s: real, t: real)
    requires i <= |rs| && s <= t
    requires forall j | 0 <= j < i :: rs[j].high <= s
    requires forall j | i <= j < |rs| :: t <= rs[j].low
    ensures Quote(rs, s) == Quote(rs, t) && Tokens(rs, s) == Tokens(rs, t)
  {
    assert QuoteColumn(rs, s) == QuoteColumn(rs, t);
    assert TokenColumn(rs, s) == TokenColumn(rs, t);
  }

  /** Selling exactly what lies between s and `target` lands where `target` would. */
  lemma FallDetermined(rs: seq<Range>, s: real, target: real, t: real)
    requires Stacked(rs) && 0.0 < s && target < s && 0.0 < t
    requires Tokens(rs, t) == Min(Tokens(rs, s) + Max(Tokens(rs, target) - Tokens(rs, s), 0.0), Placed(rs))
    ensures Quote(rs, t) == Quote(rs, target)
  {
    hide QuoteBetween, TokensBetween, Quote, Tokens, Placed;
    if 0.0 < target {
      PotentialBounds(rs, target);
      PotentialsMonotone(rs, target, s);
      SamePotential(rs, t, target);
    } else {
      var low := if rs == [] then s else Min(s, rs[0].low);
      NothingBetween(rs, 0, target, low);
      PotentialBounds(rs, low);
      PotentialsMonotone(rs, low, s);
      SamePotential(rs, t, low);
    }
  }

  /** What a rise is said to cost is exactly what a buy needs to get there. */
  lemma BuyLandsOnTarget(rs: seq<Range>, s: real, percent: real, target: real, cost: real, t: real, out: real)
    requires Contiguous(rs) && InSpan(rs, s) && InSpan(rs, target)
    requires IsTarget(s, percent, target)
    requires cost == if s < target then Quote(rs, target) - Quote(rs, s) else 0.0
    requires IsBuy(rs, s, cost, t, out)
    ensures t == Max(s, target)
    ensures s <= target ==> IsTarget(s, percent, t)
  {
    hide Quote, Tokens, Capacity, IsTarget;
    PotentialBounds(rs, Max(s, target));
    PotentialsMonotone(rs, s, Max(s, target));
    DeterminedByQuote(rs, t, Max(s, target));
  }

  /** The target's price is the starting price changed by the percentage. */
  lemma TargetIsThePercentage(root: real, percent: real, target: real)
    requires 0.0 < root && 0.0 <= target && IsTarget(root, percent, target)
    ensures 100.0 * (target * target) == (100.0 + percent) * (root * root)
  {
  }

  /** Nothing to nowhere costs nothing; four times the price is twice the root; a quarter of it is half. */
  lemma FamiliarTargets(root: real)
    requires 0.0 < root
    ensures IsTarget(root, 0.0, root) && IsTarget(root, 300.0, 2.0 * root) && IsTarget(root, -75.0, root / 2.0)
    ensures forall target | 0.0 <= target && IsTarget(root, 0.0, target) :: target == root
  {
    forall target | 0.0 <= target && IsTarget(root, 0.0, target) ensures target == root {
      SameSquare(root, target);
    }
  }

  lemma SameSquare(x: real, y: real)
    requires 0.0 <= x && 0.0 <= y && x * x == y * y
    ensures x == y
  {
    assert (y - x) * (y + x) == y * y - x * x;
    if x < y {
      PositiveProduct(y - x, y + x, (y - x) * (y + x));
    } else if y < x {
      PositiveProduct(x - y, y + x, (x - y) * (y + x));
    }
  }

  /** The source's own round-trip check: it never finds a stake that does not come back. */
  method CheckReversible(geometry: seq<Range>, openingRoot: real, spend: real) returns (back: real, root: real)
    requires Contiguous(geometry) && InSpan(geometry, openingRoot)
    requires 0.0 <= spend <= Capacity(geometry) - Quote(geometry, openingRoot)
    ensures back == spend && root == openingRoot
  {
    hide Quote, Tokens, Capacity, Placed;
    var pool := new Pool(geometry, openingRoot);
    var tokens := pool.Buy(spend);
    ghost var top := pool.root;
    back := pool.Sell(tokens);
    root := pool.root;
    SellUndoesBuy(geometry, openingRoot, spend, top, tokens, root, back);
  }

  // ----- runs of trades ------------------------------------------------------------

  /** A history of trades, each with the root it ended at and what it paid out. */
  datatype Run =
    | Open
    | Bought(before: Run, quoteIn: real, root: real, tokensOut: real)
    | Sold(before: Run, tokensIn: real, root: real, quoteOut: real)

  function RootAfter(run: Run, openingRoot: real): real {
    if run.Open? then openingRoot else run.root
  }

  /** Every step is a trade the pool makes from where the last one left it. */
  ghost predicate IsRun(rs: seq<Range>, openingRoot: real, run: Run) {
    match run
    case Open => 0.0 < openingRoot
    case Bought(before, x, root, out) =>
      IsRun(rs, openingRoot, before) && 0.0 <= x && IsBuy(rs, RootAfter(before, openingRoot), x, root, out)
    case Sold(before, x, root, out) =>
      IsRun(rs, openingRoot, before) && 0.0 <= x && IsSell(rs, RootAfter(before, openingRoot), x, root, out)
  }

  /** No trade asks for more than the geometry has left in its direction. */
  ghost predicate WithinCapacity(rs: seq<Range>, openingRoot: real, run: Run) {
    match run
    case Open => true
    case Bought(before, x, _, _) =>
      WithinCapacity(rs, openingRoot, before) && Quote(rs, RootAfter(before, openingRoot)) + x <= Capacity(rs)
    case Sold(before, x, _, _) =>
      WithinCapacity(rs, openingRoot, before) && Tokens(rs, RootAfter(before, openingRoot)) + x <= Placed(rs)
  }

  function QuotePaidIn(run: Run): real {
    match run
    case Open => 0.0
    case Bought(before, x, _, _) => QuotePaidIn(before) + x
    case Sold(before, _, _, _) => QuotePaidIn(before)
  }

  function QuotePaidOut(run: Run): real {
    match run
    case Open => 0.0
    case Bought(before, _, _, _) => QuotePaidOut(before)
    case Sold(before, _, _, out) => QuotePaidOut(before) + out
  }

  function TokensPaidOut(run: Run): real {
    match run
    case Open => 0.0
    case Bought(before, _, _, out) => TokensPaidOut(before) + out
    case Sold(before, _, _, _) => TokensPaidOut(before)
  }

  function TokensPaidIn(run: Run): real {
    match run
    case Open => 0.0
    case Bought(before, _, _, _) => TokensPaidIn(before)
    case Sold(before, x, _, _) => TokensPaidIn(before) + x
  }

  /** What the pool holds is what was put in less what was taken out, on both sides. */
  lemma {:induction false} RunConserves(rs: seq<Range>, openingRoot: real, run: Run)
    requires IsRun(rs, openingRoot, run) && WithinCapacity(rs, openingRoot, run)
    ensures Quote(rs, RootAfter(run, openingRoot))
         == Quote(rs, openingRoot) + QuotePaidIn(run) - QuotePaidOut(run)
    ensures Tokens(rs, RootAfter(run, openingRoot)) + (TokensPaidOut(run) - TokensPaidIn(run))
         == Tokens(rs, openingRoot)
  {
    hide Quote, Tokens, Capacity, Placed;
    if !run.Open? {
      RunConserves(rs, openingRoot, run.before);
    }
  }

  /** Whatever is asked of it, the pool never pays out more of either side than it opened with and was given. */
  lemma {:induction false} RunNeverPaysOutMore(rs: seq<Range>, openingRoot: real, run: Run)
    requires Stacked(rs) && IsRun(rs, openingRoot, run)
    ensures 0.0 < RootAfter(run, openingRoot)
    ensures 0.0 <= Quote(rs, RootAfter(run, openingRoot))
         <= Quote(rs, openingRoot) + QuotePaidIn(run) - QuotePaidOut(run)
    ensures 0.0 <= Tokens(rs, RootAfter(run, openingRoot))
         <= Tokens(rs, openingRoot) + TokensPaidIn(run) - TokensPaidOut(run)
  {
    hide Quote, Tokens, Capacity, Placed;
    if !run.Open? {
      RunNeverPaysOutMore(rs, openingRoot, run.before);
    }
    PotentialBounds(rs, RootAfter(run, openingRoot));
  }

  predicate OnlyBuys(run: Run) {
    run.Open? || (run.Bought? && OnlyBuys(run.before))
  }

  predicate OnlySells(run: Run) {
    run.Open? || (run.Sold? && OnlySells(run.before))
  }

  /** A buy split into any number of pieces is the same buy. */
  lemma {:induction false} BuyInPieces(rs: seq<Range>, s: real, run: Run)
    requires Stacked(rs) && IsRun(rs, s, run) && OnlyBuys(run)
    ensures 0.0 <= QuotePaidIn(run)
    ensures IsBuy(rs, s, QuotePaidIn(run), RootAfter(run, s), TokensPaidOut(run))
  {
    hide Quote, Tokens, Capacity;
    if run.Open? {
      PotentialBounds(rs, s);
    } else {
      BuyInPieces(rs, s, run.before);
    }
  }

  /** And so is a sale. */
  lemma {:induction false} SellInPieces(rs: seq<Range>, s: real, run: Run)
    requires Stacked(rs) && IsRun(rs, s, run) && OnlySells(run)
    ensures 0.0 <= TokensPaidIn(run)
    ensures IsSell(rs, s, TokensPaidIn(run), RootAfter(run, s), QuotePaidOut(run))
  {
    hide Quote, Tokens, Placed;
    if run.Open? {
      PotentialBounds(rs, s);
    } else {
      SellInPieces(rs, s, run.before);
    }
  }
}
