/** Sums of sequences, and of shares rounded down. */
module RivalSums {
  import opened SetSums

  function Sum(xs: seq<nat>): nat {
    if xs == [] then 0 else Sum(xs[..|xs| - 1]) + xs[|xs| - 1]
  }

  // ----- shares ------------------------------------------------------------------------

  /** A part's share of `whole`, rounded down. */
  function Share(whole: nat, part: nat, total: nat): nat
    requires total > 0
  {
    whole * part / total
  }

  lemma ShareBounds(whole: nat, part: nat, total: nat)
    requires total > 0
    ensures total * Share(whole, part, total) <= whole * part
    ensures whole * part <= total * Share(whole, part, total) + (if part > 0 then total - 1 else 0)
  {
    var product := whole * part;
    assert product == total * (product / total) + product % total;
    if part == 0 {
      assert product == 0;
    }
  }

  /** Everyone's shares together. */
  ghost function Shares(s: set<nat>, whole: nat, part: nat -> nat, total: nat): nat
    requires total > 0
  {
    SumOver(s, w => Share(whole, part(w), total))
  }

  /** How many hold a positive part. */
  ghost function Holders(s: set<nat>, part: nat -> nat): nat {
    SumOver(s, w => if part(w) > 0 then 1 else 0)
  }

  lemma RemoveOne(s: set<nat>, x: nat, whole: nat, part: nat -> nat, total: nat)
    requires total > 0 && x in s
    ensures Shares(s, whole, part, total) == Share(whole, part(x), total) + Shares(s - {x}, whole, part, total)
    ensures Holders(s, part) == (if part(x) > 0 then 1 else 0) + Holders(s - {x}, part)
    ensures SumOver(s, part) == part(x) + SumOver(s - {x}, part)
  {
    SumOverRemove(s, x, part);
    SumOverRemove(s, x, w => Share(whole, part(w), total));
    SumOverRemove(s, x, w => if part(w) > 0 then 1 else 0);
  }

  /** `shares` is what `parts` earn, short by less than a unit for each of `holders`. */
  ghost predicate RoundedDown(whole: nat, total: nat, parts: nat, shares: nat, holders: nat)
    requires total > 0
  {
    total * shares <= whole * parts <= total * shares + (total - 1) * holders
  }

  lemma OneShare(whole: nat, part: nat, total: nat)
    requires total > 0
    ensures RoundedDown(whole, total, part, Share(whole, part, total), if part > 0 then 1 else 0)
  {
    ShareBounds(whole, part, total);
  }

  lemma AddShares(whole: nat, total: nat, part: nat, parts: nat, share: nat, shares: nat, one: nat, many: nat)
    requires total > 0
    requires RoundedDown(whole, total, part, share, one) && RoundedDown(whole, total, parts, shares, many)
    ensures RoundedDown(whole, total, part + parts, share + shares, one + many)
  {
    assert whole * (part + parts) == whole * part + whole * parts;
    assert total * (share + shares) == total * share + total * shares;
    assert (total - 1) * (one + many) == (total - 1) * one + (total - 1) * many;
  }

  lemma NoShares(whole: nat, part: nat -> nat, total: nat)
    requires total > 0
    ensures RoundedDown(whole, total, SumOver({}, part), Shares({}, whole, part, total), Holders({}, part))
  {
    hide Share;
  }

  /** Rounding down loses less than one unit to each holder. */
  lemma {:induction false} SharesOf(s: set<nat>, whole: nat, part: nat -> nat, total: nat)
    requires total > 0
    ensures RoundedDown(whole, total, SumOver(s, part), Shares(s, whole, part, total), Holders(s, part))
    decreases |s|
  {
    hide Share, Shares, Holders, SumOver, RoundedDown;
    if s == {} {
      NoShares(whole, part, total);
    } else {
      var x :| x in s;
      SharesOf(s - {x}, whole, part, total);
      RemoveOne(s, x, whole, part, total);
      OneShare(whole, part(x), total);
      AddShares(whole, total, part(x), SumOver(s - {x}, part), Share(whole, part(x), total),
                Shares(s - {x}, whole, part, total), if part(x) > 0 then 1 else 0, Holders(s - {x}, part));
    }
  }

  /** If the parts make up exactly the total, the shares fit the whole and leave dust only. */
  lemma DustBounds(whole: nat, total: nat, shares: nat, many: nat)
    requires total > 0
    requires RoundedDown(whole, total, total, shares, many)
    ensures shares <= whole && (many > 0 ==> whole < shares + many) && (many == 0 ==> whole == shares)
  {
    var over: int, short: int := shares - whole, whole - shares - many;
    Multiple(total, over);
    Multiple(total, short);
    assert total * over == total * shares - total * whole;
    assert total * short == total * whole - total * shares - total * many;
    assert (total - 1) * many == total * many - many;
  }

  lemma Multiple(total: nat, d: int)
    requires total > 0
    ensures d >= 1 ==> total * d >= total
    ensures d >= 0 ==> total * d >= 0
    ensures d == 0 ==> total * d == 0
  {
  }

  // ----- splitting one holding over several ------------------------------------------------

  function SharesEach(whole: nat, parts: seq<nat>, total: nat): nat
    requires total > 0
  {
    if parts == [] then 0
    else SharesEach(whole, parts[..|parts| - 1], total) + Share(whole, parts[|parts| - 1], total)
  }

  lemma ShareOfTwo(whole: nat, a: nat, b: nat, total: nat)
    requires total > 0
    ensures Share(whole, a, total) + Share(whole, b, total) <= Share(whole, a + b, total)
    ensures Share(whole, a + b, total) <= Share(whole, a, total) + Share(whole, b, total) + 1
  {
    ShareBounds(whole, a, total);
    ShareBounds(whole, b, total);
    ShareBounds(whole, a + b, total);
    var x: int, y: int, z: int := Share(whole, a, total), Share(whole, b, total), Share(whole, a + b, total);
    hide Share;
    assert whole * (a + b) == whole * a + whole * b;
    Multiple(total, x + y - z);
    Multiple(total, z - x - y - 1);
    assert total * (x + y - z) == total * x + total * y - total * z;
    assert total * (z - x - y - 1) == total * z - total * x - total * y - total;
  }

  /** Splitting a holding over n wallets earns at most the whole share, and loses less than n units. */
  lemma {:induction false} SplittingGainsNothing(whole: nat, parts: seq<nat>, total: nat)
    requires total > 0 && parts != []
    ensures SharesEach(whole, parts, total) <= Share(whole, Sum(parts), total)
    ensures Share(whole, Sum(parts), total) < SharesEach(whole, parts, total) + |parts|
  {
    var front, last := parts[..|parts| - 1], parts[|parts| - 1];
    if front == [] {
      assert Sum(parts) == last;
    } else {
      SplittingGainsNothing(whole, front, total);
      ShareOfTwo(whole, Sum(front), last, total);
      hide Share;
    }
  }
}
