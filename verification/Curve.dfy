/**
  * One-sided liquidity stacked over several price ranges, as apps/agen/scripts/curve.ts
  * measures it.
  *
  * A price is represented by its square root throughout, and so is every bound, because
  * that is the quantity the source's formulas are linear in. Two potentials describe a
  * geometry completely: the quote held below a price and the tokens still held above it.
  */
module Curve {
  import opened RealSums

  datatype Bounds = Bounds(low: real, high: real, liquidity: real)

  /** One range of the geometry; `low` and `high` are square roots of its price bounds. */
  type Range = r: Bounds | 0.0 < r.low < r.high && 0.0 < r.liquidity witness Bounds(1.0, 2.0, 1.0)

  /** Ranges are stacked upwards without overlap. */
  ghost predicate Stacked(rs: seq<Range>) {
    forall i, j | 0 <= i < j < |rs| :: rs[i].high <= rs[j].low
  }

  /** Stacked with nothing left between one range and the next. */
  ghost predicate Contiguous(rs: seq<Range>) {
    && Stacked(rs)
    && (forall i, j | 0 <= i < |rs| && j == i + 1 && j < |rs| :: rs[i].high == rs[j].low)
  }

  /** Ranges that each start where the last one ended are stacked. */
  lemma AdjacentIsStacked(rs: seq<Range>)
    requires forall i, j | 0 <= i < |rs| && j == i + 1 && j < |rs| :: rs[i].high == rs[j].low
    ensures Contiguous(rs)
  {
    forall i, j | 0 <= i < j < |rs| ensures rs[i].high <= rs[j].low {
      for k := i + 1 to j
        invariant rs[i].high <= rs[k].low
      {
        assert rs[k].high == rs[k + 1].low;
      }
    }
  }

  predicate InSpan(rs: seq<Range>, s: real) {
    |rs| > 0 && rs[0].low <= s <= rs[|rs| - 1].high
  }

  function Min(x: real, y: real): real { if x <= y then x else y }

  function Max(x: real, y: real): real { if x <= y then y else x }

  function Clamp(r: Range, s: real): (c: real)
    ensures r.low <= c <= r.high
  {
    if s < r.low then r.low else if s > r.high then r.high else s
  }

  /** Quote held in the range between two square roots of price. */
  function QuoteBetween(r: Range, from: real, to: real): real {
    r.liquidity * (to - from)
  }

  /** Tokens held in the range between two square roots of price. */
  function TokensBetween(r: Range, from: real, to: real): real
    requires 0.0 < from && 0.0 < to
  {
    r.liquidity * (1.0 / from - 1.0 / to)
  }

  ghost function QuoteColumn(rs: seq<Range>, s: real): (c: seq<real>)
    ensures |c| == |rs|
  {
    seq(|rs|, i requires 0 <= i < |rs| => QuoteBetween(rs[i], rs[i].low, Clamp(rs[i], s)))
  }

  ghost function TokenColumn(rs: seq<Range>, s: real): (c: seq<real>)
    ensures |c| == |rs|
  {
    seq(|rs|, i requires 0 <= i < |rs| => TokensBetween(rs[i], Clamp(rs[i], s), rs[i].high))
  }

  /** Quote held by the whole geometry when the price is s * s. */
  ghost function Quote(rs: seq<Range>, s: real): real { Sum(QuoteColumn(rs, s)) }

  /** Tokens still held by the whole geometry when the price is s * s. */
  ghost function Tokens(rs: seq<Range>, s: real): real { Sum(TokenColumn(rs, s)) }

  /** Quote that crosses every range. */
  ghost function Capacity(rs: seq<Range>): real {
    Sum(seq(|rs|, i requires 0 <= i < |rs| => QuoteBetween(rs[i], rs[i].low, rs[i].high)))
  }

  /** Tokens placed in every range before the first buy. */
  ghost function Placed(rs: seq<Range>): real {
    Sum(seq(|rs|, i requires 0 <= i < |rs| => TokensBetween(rs[i], rs[i].low, rs[i].high)))
  }

  // ----- arithmetic of one range ------------------------------------------------

  lemma InverseOrder(x: real, y: real)
    requires 0.0 < x <= y
    ensures 0.0 < 1.0 / y <= 1.0 / x
    ensures x < y ==> 1.0 / y < 1.0 / x
  {
    var a, b := 1.0 / x, 1.0 / y;
    assert a * x == 1.0 && b * y == 1.0;
    assert a > 0.0 && b > 0.0;
    assert (a - b) * (x * y) == y - x by {
      assert a * (x * y) == (a * x) * y && b * (x * y) == (b * y) * x;
    }
    assert x * y > 0.0;
    assert a < b ==> (a - b) * (x * y) < 0.0;
    assert a == b ==> (a - b) * (x * y) == 0.0;
  }

  lemma Scale(l: real, x: real, y: real)
    requires 0.0 < l && x <= y
    ensures l * x <= l * y
    ensures x < y ==> l * x < l * y
  {
    assert l * (y - x) >= 0.0;
    assert x < y ==> l * (y - x) > 0.0;
    assert l * (y - x) == l * y - l * x;
  }

  /** With a = 1/u and b = 1/v, the gap a - b prices the gap v - u between u*u and v*v. */
  lemma UnitAverage(u: real, v: real, a: real, b: real)
    requires 0.0 < u <= v && 0.0 < b <= a
    requires a * u == 1.0 && b * v == 1.0
    ensures u * u * (a - b) <= v - u <= v * v * (a - b)
  {
    assert u * u * (a - b) == u - u * (u * b) by {
      assert u * u * a == u * (u * a) && u * u * b == u * (u * b);
    }
    assert v * v * (a - b) == v * (v * a) - v by {
      assert v * v * a == v * (v * a) && v * v * b == v * (v * b);
    }
    var gap := (v - u) * (v - u);
    assert gap >= 0.0;
    assert b * gap >= 0.0 && a * gap >= 0.0;
    assert b * gap == v * (b * v) - 2.0 * (u * (b * v)) + u * (u * b);
    assert a * gap == v * (v * a) - 2.0 * (v * (a * u)) + u * (a * u);
  }

  /** Scaling an average by a liquidity keeps it between the same two prices. */
  lemma ScaledAverage(l: real, w: real, m: real, p: real, q: real, c: real, d: real)
    requires 0.0 < l && 0.0 <= w
    requires c <= p && q <= d && p * w <= m <= q * w
    ensures 0.0 <= l * w && c * (l * w) <= l * m <= d * (l * w)
  {
    assert (p - c) * w >= 0.0 && (d - q) * w >= 0.0;
    Scale(l, 0.0, w);
    Scale(l, c * w, m);
    Scale(l, m, d * w);
    assert l * (c * w) == c * (l * w) && l * (d * w) == d * (l * w);
  }

  lemma Inverse(u: real, a: real)
    requires 0.0 < u && a == 1.0 / u
    ensures 0.0 < a && a * u == 1.0
  {
  }

  /** Moving from u up to v inside a range trades at an average price between u*u and v*v. */
  lemma AverageWithin(l: real, u: real, v: real, a: real, b: real, c: real, d: real, tokens: real, quote: real)
    requires 0.0 < l && 0.0 < u <= v && 0.0 < b <= a
    requires a * u == 1.0 && b * v == 1.0
    requires c <= u * u && v * v <= d
    requires tokens == l * (a - b) && quote == l * (v - u)
    ensures SharesBetween(c, d, tokens, 0.0, 0.0, quote)
  {
    UnitAverage(u, v, a, b);
    ScaledAverage(l, a - b, v - u, u * u, v * v, c, d);
  }

  lemma Squares(x: real, u: real)
    requires 0.0 < x <= u
    ensures x * x <= u * u
  {
    Scale(x, x, u);
    Scale(u, x, u);
  }

  lemma MoveWithin(r: Range, u: real, v: real, c: real, d: real)
    requires 0.0 < u < v
    requires c <= u * u && v * v <= d
    ensures SharesBetween(c, d, TokensBetween(r, u, v), 0.0, 0.0, QuoteBetween(r, u, v))
  {
    var a, b, tokens, quote := 1.0 / u, 1.0 / v, TokensBetween(r, u, v), QuoteBetween(r, u, v);
    Inverse(u, a);
    Inverse(v, b);
    InverseOrder(u, v);
    assert tokens == r.liquidity * (a - b) && quote == r.liquidity * (v - u);
    hide TokensBetween, QuoteBetween, SharesBetween;
    AverageWithin(r.liquidity, u, v, a, b, c, d, tokens, quote);
  }

  lemma ShiftShares(c: real, d: real, t: real, q: real, a: real, b: real, p: real, p': real)
    requires SharesBetween(c, d, t, 0.0, 0.0, q)
    requires a - b == t && p' - p == q
    ensures SharesBetween(c, d, a, b, p, p')
  {
  }

  /** What one range contributes to a move between any two prices. */
  lemma RangeMove(r: Range, x: real, y: real, c: real, d: real)
    requires 0.0 < x <= y && c == x * x && d == y * y
    ensures SharesBetween(c, d, TokensBetween(r, Clamp(r, x), r.high), TokensBetween(r, Clamp(r, y), r.high),
                          QuoteBetween(r, r.low, Clamp(r, x)), QuoteBetween(r, r.low, Clamp(r, y)))
  {
    var u, v := Clamp(r, x), Clamp(r, y);
    if u < v {
      assert c <= u * u by { Squares(x, u); }
      assert v * v <= d by { Squares(v, y); }
      hide TokensBetween, QuoteBetween, SharesBetween;
      RangeParts(r, u, v);
      MoveWithin(r, u, v, c, d);
      ShiftShares(c, d, TokensBetween(r, u, v), QuoteBetween(r, u, v),
                  TokensBetween(r, u, r.high), TokensBetween(r, v, r.high),
                  QuoteBetween(r, r.low, u), QuoteBetween(r, r.low, v));
    } else {
      assert u == v;
      hide TokensBetween, QuoteBetween;
    }
  }

  lemma RangeParts(r: Range, u: real, v: real)
    requires 0.0 < u && 0.0 < v
    ensures TokensBetween(r, u, r.high) - TokensBetween(r, v, r.high) == TokensBetween(r, u, v)
    ensures QuoteBetween(r, r.low, v) - QuoteBetween(r, r.low, u) == QuoteBetween(r, u, v)
  {
  }

  // ----- the potentials ----------------------------------------------------------

  /** Only the range a move passes through changes either potential. */
  lemma ChangeAt(rs: seq<Range>, i: nat, s: real, t: real)
    requires i < |rs|
    requires forall j | 0 <= j < |rs| && j != i :: Clamp(rs[j], s) == Clamp(rs[j], t)
    ensures Quote(rs, t) - Quote(rs, s) == QuoteBetween(rs[i], Clamp(rs[i], s), Clamp(rs[i], t))
    ensures Tokens(rs, s) - Tokens(rs, t) == TokensBetween(rs[i], Clamp(rs[i], s), Clamp(rs[i], t))
  {
    SumChangesAt(QuoteColumn(rs, s), QuoteColumn(rs, t), i);
    SumChangesAt(TokenColumn(rs, s), TokenColumn(rs, t), i);
    RangeParts(rs[i], Clamp(rs[i], s), Clamp(rs[i], t));
  }

  /** Above every range the whole capacity is held. */
  lemma PotentialAbove(rs: seq<Range>, s: real)
    requires forall j | 0 <= j < |rs| :: rs[j].high <= s
    ensures Quote(rs, s) == Capacity(rs) && Tokens(rs, s) == 0.0
  {
    assert QuoteColumn(rs, s) == seq(|rs|, i requires 0 <= i < |rs| => QuoteBetween(rs[i], rs[i].low, rs[i].high));
    SumZero(TokenColumn(rs, s));
  }

  /** Below every range, none of it. */
  lemma PotentialBelow(rs: seq<Range>, s: real)
    requires forall j | 0 <= j < |rs| :: s <= rs[j].low
    ensures Quote(rs, s) == 0.0 && Tokens(rs, s) == Placed(rs)
  {
    assert TokenColumn(rs, s) == seq(|rs|, i requires 0 <= i < |rs| => TokensBetween(rs[i], rs[i].low, rs[i].high));
    SumZero(QuoteColumn(rs, s));
  }

  /**
    * The average price of any move lies between its two spot prices c and d, however many
    * ranges it crosses.
    */
  lemma AveragePriceBounds(rs: seq<Range>, x: real, y: real, c: real, d: real)
    requires 0.0 < x <= y && c == x * x && d == y * y
    ensures SharesBetween(c, d, Tokens(rs, x), Tokens(rs, y), Quote(rs, x), Quote(rs, y))
  {
    hide TokensBetween, QuoteBetween, SharesBetween;
    forall i | 0 <= i < |rs|
      ensures SharesBetween(c, d, TokenColumn(rs, x)[i], TokenColumn(rs, y)[i],
                            QuoteColumn(rs, x)[i], QuoteColumn(rs, y)[i])
    {
      RangeMove(rs[i], x, y, c, d);
    }
    SumsBetween(c, d, TokenColumn(rs, x), TokenColumn(rs, y), QuoteColumn(rs, x), QuoteColumn(rs, y));
  }

  /** Both potentials are monotone, in opposite directions, and move only together. */
  lemma PotentialsMonotone(rs: seq<Range>, x: real, y: real)
    requires 0.0 < x <= y
    ensures Quote(rs, x) <= Quote(rs, y) && Tokens(rs, y) <= Tokens(rs, x)
    ensures Quote(rs, x) == Quote(rs, y) <==> Tokens(rs, x) == Tokens(rs, y)
  {
    var c, d := x * x, y * y;
    AveragePriceBounds(rs, x, y, c, d);
    PositiveProduct(x, x, c);
    Monotone(c, d, Tokens(rs, x), Tokens(rs, y), Quote(rs, x), Quote(rs, y));
  }

  lemma PositiveProduct(x: real, y: real, c: real)
    requires 0.0 < x && 0.0 < y && c == x * y
    ensures 0.0 < c
  {
  }

  lemma Monotone(c: real, d: real, a: real, b: real, p: real, q: real)
    requires 0.0 < c && SharesBetween(c, d, a, b, p, q)
    ensures p <= q && (p == q <==> a == b)
  {
    if a - b > 0.0 {
      assert c * (a - b) > 0.0;
    }
  }

  lemma SamePotential(rs: seq<Range>, x: real, y: real)
    requires 0.0 < x && 0.0 < y
    ensures Quote(rs, x) == Quote(rs, y) <==> Tokens(rs, x) == Tokens(rs, y)
  {
    PotentialsMonotone(rs, Min(x, y), Max(x, y));
  }

  lemma PotentialBounds(rs: seq<Range>, s: real)
    requires Stacked(rs) && 0.0 < s
    ensures 0.0 <= Quote(rs, s) <= Capacity(rs)
    ensures 0.0 <= Tokens(rs, s) <= Placed(rs)
  {
    if rs != [] {
      var lo, hi := Min(s, rs[0].low), Max(s, rs[|rs| - 1].high);
      PotentialBelow(rs, lo);
      PotentialAbove(rs, hi);
      PotentialsMonotone(rs, lo, s);
      PotentialsMonotone(rs, s, hi);
    }
  }

  lemma {:induction false} RangeAt(rs: seq<Range>, x: real, y: real) returns (i: nat)
    requires Contiguous(rs) && InSpan(rs, x) && InSpan(rs, y) && x < y
    ensures i < |rs| && Clamp(rs[i], x) < Clamp(rs[i], y)
  {
    if rs[0].high <= x {
      var rest := rs[1..];
      assert rest[0] == rs[1] && rest[|rest| - 1] == rs[|rs| - 1];
      var k := RangeAt(rest, x, y);
      i := k + 1;
    } else {
      i := 0;
    }
  }

  /** Inside a contiguous geometry the quote below a price strictly rises with it. */
  lemma StrictlyRising(rs: seq<Range>, x: real, y: real)
    requires Contiguous(rs) && InSpan(rs, x) && InSpan(rs, y) && x < y
    ensures Quote(rs, x) < Quote(rs, y) && Tokens(rs, y) < Tokens(rs, x)
  {
    hide TokensBetween, QuoteBetween, Tokens;
    var i := RangeAt(rs, x, y);
    forall j | 0 <= j < |rs|
      ensures QuoteColumn(rs, x)[j] <= QuoteColumn(rs, y)[j]
      ensures j == i ==> QuoteColumn(rs, x)[j] < QuoteColumn(rs, y)[j]
    {
      QuoteRises(rs[j], Clamp(rs[j], x), Clamp(rs[j], y));
    }
    assert QuoteColumn(rs, x)[i] < QuoteColumn(rs, y)[i];
    SumMonotone(QuoteColumn(rs, x), QuoteColumn(rs, y));
    PotentialsMonotone(rs, x, y);
  }

  lemma QuoteRises(r: Range, u: real, v: real)
    requires u <= v
    ensures QuoteBetween(r, r.low, u) <= QuoteBetween(r, r.low, v)
    ensures u < v ==> QuoteBetween(r, r.low, u) < QuoteBetween(r, r.low, v)
  {
    Scale(r.liquidity, u - r.low, v - r.low);
  }

  /** So the quote below it determines a price. */
  lemma DeterminedByQuote(rs: seq<Range>, x: real, y: real)
    requires Contiguous(rs) && InSpan(rs, x) && InSpan(rs, y)
    requires Quote(rs, x) == Quote(rs, y)
    ensures x == y
  {
    if x < y {
      StrictlyRising(rs, x, y);
    } else if y < x {
      StrictlyRising(rs, y, x);
    }
  }

  // ----- what a trade means ---------------------------------------------------------

  /** Spending `quoteIn` at s moves to t: the quote held rises by it, up to the capacity. */
  ghost predicate IsBuy(rs: seq<Range>, s: real, quoteIn: real, t: real, tokensOut: real) {
    && 0.0 < s <= t
    && Quote(rs, t) == Min(Quote(rs, s) + Max(quoteIn, 0.0), Capacity(rs))
    && tokensOut == Tokens(rs, s) - Tokens(rs, t)
    && (t != s ==> 0.0 < quoteIn && InSpan(rs, t))
  }

  /** Returning `tokensIn` at s moves to t: the tokens held rise by it, up to those placed. */
  ghost predicate IsSell(rs: seq<Range>, s: real, tokensIn: real, t: real, quoteOut: real) {
    && 0.0 < t <= s
    && Tokens(rs, t) == Min(Tokens(rs, s) + Max(tokensIn, 0.0), Placed(rs))
    && quoteOut == Quote(rs, s) - Quote(rs, t)
    && (t != s ==> 0.0 < tokensIn && InSpan(rs, t))
  }

  /** The specification leaves a buy from inside the geometry no freedom at all. */
  lemma BuyDetermined(rs: seq<Range>, s: real, x: real, t1: real, out1: real, t2: real, out2: real)
    requires Contiguous(rs) && InSpan(rs, s)
    requires IsBuy(rs, s, x, t1, out1) && IsBuy(rs, s, x, t2, out2)
    ensures t1 == t2 && out1 == out2
  {
    DeterminedByQuote(rs, t1, t2);
  }

  /** Nor a sell. */
  lemma SellDetermined(rs: seq<Range>, s: real, x: real, t1: real, out1: real, t2: real, out2: real)
    requires Contiguous(rs) && InSpan(rs, s)
    requires IsSell(rs, s, x, t1, out1) && IsSell(rs, s, x, t2, out2)
    ensures t1 == t2 && out1 == out2
  {
    SamePotential(rs, t1, t2);
    DeterminedByQuote(rs, t1, t2);
  }

  /** Selling what a buy released returns the stake exactly and restores the price. */
  lemma SellUndoesBuy(rs: seq<Range>, s: real, x: real, t: real, tokens: real, u: real, back: real)
    requires Contiguous(rs) && InSpan(rs, s)
    requires 0.0 <= x <= Capacity(rs) - Quote(rs, s)
    requires IsBuy(rs, s, x, t, tokens) && IsSell(rs, t, tokens, u, back)
    ensures u == s && back == x
  {
    PotentialBounds(rs, s);
    PotentialsMonotone(rs, s, t);
    assert Tokens(rs, u) == Tokens(rs, s);
    SamePotential(rs, u, s);
    DeterminedByQuote(rs, u, s);
  }

  /** And buying back what a sale paid restores the price and the tokens. */
  lemma BuyUndoesSell(rs: seq<Range>, s: real, x: real, t: real, quote: real, u: real, back: real)
    requires Contiguous(rs) && InSpan(rs, s)
    requires 0.0 <= x <= Placed(rs) - Tokens(rs, s)
    requires IsSell(rs, s, x, t, quote) && IsBuy(rs, t, quote, u, back)
    ensures u == s && back == x
  {
    PotentialBounds(rs, s);
    PotentialsMonotone(rs, t, s);
    assert Quote(rs, u) == Quote(rs, s);
    DeterminedByQuote(rs, u, s);
  }

  /** A buy pays an average price between where it starts and where it ends. */
  lemma BuyPaysBetweenSpotPrices(rs: seq<Range>, s: real, x: real, t: real, out: real)
    requires IsBuy(rs, s, x, t, out)
    ensures (s * s) * out <= Quote(rs, t) - Quote(rs, s) <= (t * t) * out
  {
    hide Tokens, Quote;
    AveragePriceBounds(rs, s, t, s * s, t * t);
  }

  /** And so does a sell. */
  lemma SellPaysBetweenSpotPrices(rs: seq<Range>, s: real, x: real, t: real, out: real)
    requires IsSell(rs, s, x, t, out)
    ensures (t * t) * (Tokens(rs, t) - Tokens(rs, s)) <= out <= (s * s) * (Tokens(rs, t) - Tokens(rs, s))
  {
    hide Tokens, Quote;
    AveragePriceBounds(rs, t, s, t * t, s * s);
  }
}
