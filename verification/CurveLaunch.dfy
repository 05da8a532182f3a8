/**
  * How a launch's supply becomes a geometry: `weight` and `build` of
  * apps/agen/scripts/curve.ts.
  *
  * A band's bounds are given as the square roots of its snapped multiples of the opening
  * price, so the tick grid and its exponentials stay outside.
  */
module CurveLaunch {
  import opened Basics
  import opened Curve
  import opened CurvePool
  import opened RealSums

  const SUPPLY: real := 1000000000.0

  datatype BuildError = NotExactlyOneOpenBand | MoreSupplyThanExists

  datatype BandBounds = BandBounds(from: real, to: real, depth: Option<real>)

  /** One band as specified; exactly one band of a launch leaves its depth open. */
  type Band = b: BandBounds | 0.0 < b.from < b.to witness BandBounds(1.0, 2.0, None)

  datatype ComputedBand = ComputedBand(low: real, high: real, tokens: real, liquidity: real, depth: real, fraction: real)

  function Weight(from: real, to: real): real
    requires 0.0 < from && 0.0 < to
  {
    1.0 / from - 1.0 / to
  }

  function StatedDepth(band: Band): real {
    if band.depth.Some? then band.depth.value else 0.0
  }

  function StatedFraction(band: Band): real {
    StatedDepth(band) * Weight(band.from, band.to)
  }

  function Spent(bands: seq<Band>): real {
    Sum(seq(|bands|, i requires 0 <= i < |bands| => StatedFraction(bands[i])))
  }

  function OpenBands(bands: seq<Band>): seq<Band> {
    if bands == [] then []
    else (if bands[0].depth.None? then [bands[0]] else []) + OpenBands(bands[1..])
  }

  function RemainingDepth(bands: seq<Band>, remainder: Band): real {
    PositiveWeight(remainder);
    (1.0 - Spent(bands)) / Weight(remainder.from, remainder.to)
  }

  function Compute(band: Band, remaining: real, openingRoot: real): ComputedBand
    requires 0.0 < openingRoot
  {
    var depth := if band.depth.Some? then band.depth.value else remaining;
    var fraction := depth * Weight(band.from, band.to);
    var tokens := fraction * SUPPLY;
    var low, high := band.from * openingRoot, band.to * openingRoot;
    ScaledBounds(band, openingRoot, low, high);
    ComputedBand(low, high, tokens, tokens / (1.0 / low - 1.0 / high), depth, fraction)
  }

  function Build(bands: seq<Band>, openingRoot: real): Result<seq<ComputedBand>, BuildError>
    requires 0.0 < openingRoot
  {
    var open := OpenBands(bands);
    if |open| != 1 then Err(NotExactlyOneOpenBand)
    else
      var remaining := RemainingDepth(bands, open[0]);
      if remaining <= 0.0 then Err(MoreSupplyThanExists)
      else Ok(seq(|bands|, i requires 0 <= i < |bands| => Compute(bands[i], remaining, openingRoot)))
  }

  lemma PositiveWeight(band: Band)
    ensures 0.0 < Weight(band.from, band.to)
  {
    InverseOrder(band.from, band.to);
  }

  lemma ScaledBounds(band: Band, openingRoot: real, low: real, high: real)
    requires 0.0 < openingRoot && low == band.from * openingRoot && high == band.to * openingRoot
    ensures 0.0 < low < high && 0.0 < 1.0 / low - 1.0 / high
    ensures Weight(band.from, band.to) == openingRoot * (1.0 / low - 1.0 / high)
  {
    PositiveProduct(band.from, openingRoot, low);
    Scale(openingRoot, band.from, band.to);
    InverseOrder(low, high);
    InverseOfProduct(band.from, openingRoot, low);
    InverseOfProduct(band.to, openingRoot, high);
  }

  lemma InverseOfProduct(x: real, y: real, z: real)
    requires 0.0 < x && 0.0 < y && 0.0 < z && z == x * y
    ensures 1.0 / x == y * (1.0 / z)
  {
    var a, b := 1.0 / x, 1.0 / z;
    assert a * x == 1.0 && b * z == 1.0;
    assert x * (y * b) == 1.0;
    assert a * (x * (y * b)) == (a * x) * (y * b);
  }

  // ----- the one open band ---------------------------------------------------------

  lemma {:induction false} OpenBandAt(bands: seq<Band>) returns (k: nat)
    requires |OpenBands(bands)| == 1
    ensures k < |bands| && bands[k] == OpenBands(bands)[0] && bands[k].depth.None?
    ensures forall j | 0 <= j < |bands| && j != k :: bands[j].depth.Some?
  {
    if bands[0].depth.None? {
      assert OpenBands(bands[1..]) == [];
      NoOpenBands(bands[1..]);
      k := 0;
    } else {
      var i := OpenBandAt(bands[1..]);
      k := i + 1;
    }
  }

  lemma {:induction false} NoOpenBands(bands: seq<Band>)
    requires OpenBands(bands) == []
    ensures forall j | 0 <= j < |bands| :: bands[j].depth.Some?
  {
    if bands != [] {
      NoOpenBands(bands[1..]);
    }
  }

  function Fractions(bands: seq<ComputedBand>): seq<real> {
    seq(|bands|, i requires 0 <= i < |bands| => bands[i].fraction)
  }

  function TokenAmounts(bands: seq<ComputedBand>): seq<real> {
    seq(|bands|, i requires 0 <= i < |bands| => bands[i].tokens)
  }

  /** The bands' fractions sum to one, so between them they hold the whole supply. */
  lemma BuildPlacesTheSupply(bands: seq<Band>, openingRoot: real)
    requires 0.0 < openingRoot && Build(bands, openingRoot).Ok?
    ensures Sum(Fractions(Build(bands, openingRoot).value)) == 1.0
    ensures Sum(TokenAmounts(Build(bands, openingRoot).value)) == SUPPLY
  {
    hide Compute, Weight, StatedFraction, RemainingDepth;
    var built := Build(bands, openingRoot).value;
    var k := OpenBandAt(bands);
    var remaining := RemainingDepth(bands, bands[k]);
    var stated := seq(|bands|, i requires 0 <= i < |bands| => StatedFraction(bands[i]));
    forall j | 0 <= j < |bands|
      ensures Fractions(built)[j] == if j == k then 1.0 - Spent(bands) else stated[j]
      ensures TokenAmounts(built)[j] == SUPPLY * Fractions(built)[j]
    {
      assert built[j] == Compute(bands[j], remaining, openingRoot);
      ComputedFraction(bands, bands[j], openingRoot, remaining);
    }
    OpenFraction(bands[k]);
    SumChangesAt(stated, Fractions(built), k);
    SumScaled(SUPPLY, Fractions(built), TokenAmounts(built));
  }

  lemma OpenFraction(band: Band)
    requires band.depth.None?
    ensures StatedFraction(band) == 0.0
  {
  }

  lemma ComputedFraction(bands: seq<Band>, band: Band, openingRoot: real, remaining: real)
    requires 0.0 < openingRoot
    requires band.depth.None? ==> remaining == RemainingDepth(bands, band)
    ensures
      var c := Compute(band, remaining, openingRoot);
      && c.fraction == (if band.depth.Some? then StatedFraction(band) else 1.0 - Spent(bands))
      && c.tokens == SUPPLY * c.fraction
  {
    hide Spent;
    PositiveWeight(band);
  }

  /** A launch is refused exactly when the open band is not unique or nothing is left for it. */
  lemma BuildSucceedsIff(bands: seq<Band>, openingRoot: real)
    requires 0.0 < openingRoot
    ensures Build(bands, openingRoot).Ok? <==> |OpenBands(bands)| == 1 && Spent(bands) < 1.0
    ensures Build(bands, openingRoot) == Err(NotExactlyOneOpenBand) <==> |OpenBands(bands)| != 1
  {
    hide Spent;
    if |OpenBands(bands)| == 1 {
      var band := OpenBands(bands)[0];
      PositiveWeight(band);
      var depth, weight := RemainingDepth(bands, band), Weight(band.from, band.to);
      assert depth * weight == 1.0 - Spent(bands);
      hide Weight, RemainingDepth;
      SignOfProduct(depth, weight, 1.0 - Spent(bands));
    }
  }

  lemma SignOfProduct(x: real, y: real, z: real)
    requires 0.0 < y && z == x * y
    ensures 0.0 < x <==> 0.0 < z
  {
    if x <= 0.0 {
      assert (0.0 - x) * y >= 0.0;
    } else {
      PositiveProduct(x, y, z);
    }
  }

  // ----- the geometry a launch opens with ------------------------------------------

  ghost predicate Usable(bands: seq<ComputedBand>) {
    forall i | 0 <= i < |bands| :: 0.0 < bands[i].low < bands[i].high && 0.0 < bands[i].liquidity
  }

  ghost function Ranges(bands: seq<ComputedBand>): (rs: seq<Range>)
    requires Usable(bands)
    ensures |rs| == |bands|
  {
    seq(|bands|, i requires 0 <= i < |bands| => Bounds(bands[i].low, bands[i].high, bands[i].liquidity))
  }

  /** Bands that leave no gap and ask for some depth each. */
  ghost predicate Launchable(bands: seq<Band>) {
    && (forall i | 0 <= i < |bands| && bands[i].depth.Some? :: 0.0 < bands[i].depth.value)
    && (forall i, j | 0 <= i < |bands| && j == i + 1 && j < |bands| :: bands[i].to == bands[j].from)
  }

  lemma ComputedParts(band: Band, remaining: real, openingRoot: real)
    requires 0.0 < openingRoot
    ensures
      var c := Compute(band, remaining, openingRoot);
      && 0.0 < c.low < c.high && 0.0 < 1.0 / c.low - 1.0 / c.high
      && c.low == band.from * openingRoot && c.high == band.to * openingRoot
      && c.depth == (if band.depth.Some? then band.depth.value else remaining)
      && Weight(band.from, band.to) == openingRoot * (1.0 / c.low - 1.0 / c.high)
      && c.tokens == c.depth * Weight(band.from, band.to) * SUPPLY
      && c.liquidity == c.tokens / (1.0 / c.low - 1.0 / c.high)
  {
    hide Weight;
    ScaledBounds(band, openingRoot, band.from * openingRoot, band.to * openingRoot);
  }

  /** A band's liquidity is its depth in units of the single-range launch. */
  lemma LiquidityIsDepth(band: Band, remaining: real, openingRoot: real)
    requires 0.0 < openingRoot
    requires 0.0 < (if band.depth.Some? then band.depth.value else remaining)
    ensures
      var c := Compute(band, remaining, openingRoot);
      && 0.0 < c.low < c.high && 0.0 < c.liquidity
      && c.low == band.from * openingRoot && c.high == band.to * openingRoot
      && c.depth == (if band.depth.Some? then band.depth.value else remaining)
      && c.liquidity == c.depth * (SUPPLY * openingRoot)
      && c.tokens == c.liquidity * (1.0 / c.low - 1.0 / c.high)
  {
    hide Weight, Compute;
    var c := Compute(band, remaining, openingRoot);
    ComputedParts(band, remaining, openingRoot);
    QuotientOfProduct(c.depth, Weight(band.from, band.to), openingRoot, 1.0 / c.low - 1.0 / c.high, c.tokens, c.liquidity);
  }

  lemma QuotientOfProduct(depth: real, weight: real, root: real, gap: real, tokens: real, liquidity: real)
    requires 0.0 < depth && 0.0 < root && 0.0 < gap
    requires weight == root * gap && tokens == depth * weight * SUPPLY && liquidity == tokens / gap
    ensures liquidity == depth * (SUPPLY * root) && 0.0 < liquidity && tokens == liquidity * gap
  {
    var l := depth * (SUPPLY * root);
    assert l * gap == tokens;
    assert liquidity * gap == tokens;
    assert (l - liquidity) * gap == 0.0;
    PositiveProduct(SUPPLY, root, SUPPLY * root);
    PositiveProduct(depth, SUPPLY * root, l);
  }

  ghost predicate BuiltFrom(c: ComputedBand, band: Band, openingRoot: real) {
    && 0.0 < c.low < c.high && 0.0 < c.liquidity
    && c.low == band.from * openingRoot && c.high == band.to * openingRoot
    && c.tokens == c.liquidity * (1.0 / c.low - 1.0 / c.high)
  }

  lemma BuiltBand(bands: seq<Band>, openingRoot: real, i: nat)
    requires 0.0 < openingRoot && Launchable(bands) && Build(bands, openingRoot).Ok? && i < |bands|
    ensures BuiltFrom(Build(bands, openingRoot).value[i], bands[i], openingRoot)
  {
    hide Compute, RemainingDepth;
    var remaining := RemainingDepth(bands, OpenBands(bands)[0]);
    assert Build(bands, openingRoot).value[i] == Compute(bands[i], remaining, openingRoot);
    LiquidityIsDepth(bands[i], remaining, openingRoot);
  }

  lemma BuiltRanges(built: seq<ComputedBand>, bands: seq<Band>, openingRoot: real)
    requires Launchable(bands) && |built| == |bands|
    requires forall i | 0 <= i < |bands| :: BuiltFrom(built[i], bands[i], openingRoot)
    ensures Usable(built) && Contiguous(Ranges(built))
    ensures Placed(Ranges(built)) == Sum(TokenAmounts(built))
  {
    assert Usable(built);
    var rs := Ranges(built);
    forall i, j | 0 <= i < |rs| && j == i + 1 && j < |rs| ensures rs[i].high == rs[j].low {
      assert BuiltFrom(built[i], bands[i], openingRoot) && BuiltFrom(built[j], bands[j], openingRoot);
    }
    hide BuiltFrom, TokensBetween;
    AdjacentIsStacked(rs);
    var placed := seq(|rs|, i requires 0 <= i < |rs| => TokensBetween(rs[i], rs[i].low, rs[i].high));
    forall i | 0 <= i < |rs| ensures TokenAmounts(built)[i] == placed[i] {
      TokensBuilt(built[i], bands[i], openingRoot, rs[i]);
    }
    assert TokenAmounts(built) == placed;
  }

  lemma TokensBuilt(c: ComputedBand, band: Band, openingRoot: real, r: Range)
    requires BuiltFrom(c, band, openingRoot) && r == Bounds(c.low, c.high, c.liquidity)
    ensures c.tokens == TokensBetween(r, r.low, r.high)
  {
  }

  /**
    * A launchable set of bands becomes a contiguous geometry holding the whole supply, and
    * at the opening price no quote at all: the first buyer supplies it.
    */
  lemma LaunchOpensTokenOnly(bands: seq<Band>, openingRoot: real)
    requires 0.0 < openingRoot && Launchable(bands) && Build(bands, openingRoot).Ok?
    ensures Usable(Build(bands, openingRoot).value)
    ensures var rs := Ranges(Build(bands, openingRoot).value);
            Contiguous(rs) && Placed(rs) == SUPPLY
    ensures bands[0].from == 1.0 ==>
              var rs := Ranges(Build(bands, openingRoot).value);
              InSpan(rs, openingRoot) && Quote(rs, openingRoot) == 0.0 && Tokens(rs, openingRoot) == SUPPLY
  {
    var built := Build(bands, openingRoot).value;
    forall i | 0 <= i < |bands| ensures BuiltFrom(built[i], bands[i], openingRoot) {
      BuiltBand(bands, openingRoot, i);
    }
    BuildPlacesTheSupply(bands, openingRoot);
    BuiltRanges(built, bands, openingRoot);
    var rs := Ranges(built);
    if bands[0].from == 1.0 {
      assert rs[0].low == openingRoot by { assert BuiltFrom(built[0], bands[0], openingRoot); }
      hide Build, BuiltFrom, Quote, Tokens, Placed;
      PotentialBelow(rs, openingRoot);
    }
  }

  /**
    * From the opening of a built launch no run takes out more quote than was put in, and within
    * capacity the tokens held and the tokens outside are together the supply.
    */
  lemma LaunchIsNeverDrained(bands: seq<Band>, openingRoot: real, run: Run)
    requires 0.0 < openingRoot && Launchable(bands) && Build(bands, openingRoot).Ok? && bands[0].from == 1.0
    requires Usable(Build(bands, openingRoot).value)
    requires IsRun(Ranges(Build(bands, openingRoot).value), openingRoot, run)
    ensures
      var rs, root := Ranges(Build(bands, openingRoot).value), RootAfter(run, openingRoot);
      && QuotePaidOut(run) <= QuotePaidIn(run) && TokensPaidOut(run) <= SUPPLY + TokensPaidIn(run)
      && (WithinCapacity(rs, openingRoot, run) ==>
            Quote(rs, root) == QuotePaidIn(run) - QuotePaidOut(run)
            && Tokens(rs, root) + (TokensPaidOut(run) - TokensPaidIn(run)) == SUPPLY)
  {
    LaunchOpensTokenOnly(bands, openingRoot);
    var rs := Ranges(Build(bands, openingRoot).value);
    hide Build, Ranges, Quote, Tokens, Placed, IsRun, WithinCapacity, Usable;
    RunNeverPaysOutMore(rs, openingRoot, run);
    if WithinCapacity(rs, openingRoot, run) {
      RunConserves(rs, openingRoot, run);
    }
  }
}
