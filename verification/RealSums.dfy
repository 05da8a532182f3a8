/** Sums of real columns, kept apart from what the columns mean. */
module RealSums {

  function Sum(xs: seq<real>): real {
    if xs == [] then 0.0 else xs[0] + Sum(xs[1..])
  }

  /** Columns that agree everywhere but at i differ in their sums by what they differ there. */
  lemma {:induction false} SumChangesAt(xs: seq<real>, ys: seq<real>, i: nat)
    requires |xs| == |ys| && i < |xs|
    requires forall j | 0 <= j < |xs| && j != i :: xs[j] == ys[j]
    ensures Sum(ys) - Sum(xs) == ys[i] - xs[i]
  {
    if i == 0 {
      assert xs[1..] == ys[1..];
    } else {
      SumChangesAt(xs[1..], ys[1..], i - 1);
    }
  }

  lemma {:induction false} SumZero(xs: seq<real>)
    requires forall j | 0 <= j < |xs| :: xs[j] == 0.0
    ensures Sum(xs) == 0.0
  {
    if xs != [] {
      SumZero(xs[1..]);
    }
  }

  lemma {:induction false} SumMonotone(xs: seq<real>, ys: seq<real>)
    requires |xs| == |ys|
    requires forall j | 0 <= j < |xs| :: xs[j] <= ys[j]
    ensures Sum(xs) <= Sum(ys)
    ensures (exists j | 0 <= j < |xs| :: xs[j] < ys[j]) ==> Sum(xs) < Sum(ys)
  {
    if xs != [] {
      SumMonotone(xs[1..], ys[1..]);
      if j :| 0 <= j < |xs| && xs[j] < ys[j] && xs[0] == ys[0] {
        assert xs[1..][j - 1] < ys[1..][j - 1];
      }
    }
  }

  lemma {:induction false} SumScaled(c: real, xs: seq<real>, ys: seq<real>)
    requires |xs| == |ys|
    requires forall j | 0 <= j < |xs| :: ys[j] == c * xs[j]
    ensures Sum(ys) == c * Sum(xs)
  {
    if xs != [] {
      SumScaled(c, xs[1..], ys[1..]);
      assert c * (xs[0] + Sum(xs[1..])) == c * xs[0] + c * Sum(xs[1..]);
    }
  }

  /** The step from (a, p) to (b, q) exchanges tokens for quote at a price from c to d. */
  ghost predicate SharesBetween(c: real, d: real, a: real, b: real, p: real, q: real) {
    b <= a && c * (a - b) <= q - p <= d * (a - b)
  }

  /** If every row is exchanged at a price from c to d, so is the total. */
  lemma {:induction false} SumsBetween(c: real, d: real, a: seq<real>, b: seq<real>, p: seq<real>, q: seq<real>)
    requires |a| == |b| == |p| == |q|
    requires forall i | 0 <= i < |a| :: SharesBetween(c, d, a[i], b[i], p[i], q[i])
    ensures SharesBetween(c, d, Sum(a), Sum(b), Sum(p), Sum(q))
  {
    if a != [] {
      forall i | 0 <= i < |a[1..]| ensures SharesBetween(c, d, a[1..][i], b[1..][i], p[1..][i], q[1..][i]) {
        assert SharesBetween(c, d, a[i + 1], b[i + 1], p[i + 1], q[i + 1]);
      }
      SumsBetween(c, d, a[1..], b[1..], p[1..], q[1..]);
      AddShares(c, d, a[0], b[0], p[0], q[0], Sum(a[1..]), Sum(b[1..]), Sum(p[1..]), Sum(q[1..]));
    }
  }

  lemma AddShares(c: real, d: real, a: real, b: real, p: real, q: real, a': real, b': real, p': real, q': real)
    requires SharesBetween(c, d, a, b, p, q) && SharesBetween(c, d, a', b', p', q')
    ensures SharesBetween(c, d, a + a', b + b', p + p', q + q')
  {
    assert c * (a + a' - (b + b')) == c * (a - b) + c * (a' - b');
    assert d * (a + a' - (b + b')) == d * (a - b) + d * (a' - b');
  }
}
