/** Sums of natural numbers over finite sets. */
module SetSums {

  ghost function SumOver(s: set<nat>, f: nat -> nat): nat
  {
    if s == {} then 0 else
      var x :| x in s;
      f(x) + SumOver(s - {x}, f)
  }

  /** The sum does not depend on the order it is taken in. */
  lemma {:induction false} SumOverRemove(s: set<nat>, x: nat, f: nat -> nat)
    requires x in s
    ensures SumOver(s, f) == f(x) + SumOver(s - {x}, f)
    decreases |s|
  {
    var y :| y in s && SumOver(s, f) == f(y) + SumOver(s - {y}, f);
    if y != x {
      SumOverRemove(s - {y}, x, f);
      SumOverRemove(s - {x}, y, f);
      assert s - {y} - {x} == s - {x} - {y};
    }
  }

  lemma {:induction false} SumOverAgrees(s: set<nat>, f: nat -> nat, g: nat -> nat)
    requires forall x | x in s :: f(x) == g(x)
    ensures SumOver(s, f) == SumOver(s, g)
    decreases |s|
  {
    if s != {} {
      var x :| x in s;
      SumOverRemove(s, x, f);
      SumOverRemove(s, x, g);
      SumOverAgrees(s - {x}, f, g);
    }
  }

  /** Splitting a set splits its sum. */
  lemma {:induction false} SumOverSplit(s: set<nat>, t: set<nat>, f: nat -> nat)
    requires t <= s
    ensures SumOver(s, f) == SumOver(t, f) + SumOver(s - t, f)
    decreases |t|
  {
    if t == {} {
      assert s - t == s;
    } else {
      var x :| x in t;
      SumOverRemove(s, x, f);
      SumOverRemove(t, x, f);
      SumOverSplit(s - {x}, t - {x}, f);
      assert s - {x} - (t - {x}) == s - t;
    }
  }

  lemma {:induction false} SumOverZero(s: set<nat>, f: nat -> nat)
    requires forall x | x in s :: f(x) == 0
    ensures SumOver(s, f) == 0
    decreases |s|
  {
    if s != {} {
      var x :| x in s;
      SumOverRemove(s, x, f);
      SumOverZero(s - {x}, f);
    }
  }
}
