/**
  * Cutting the mark out of a lockup: `inkBox`, `markRightEdge` and their use in `logo`,
  * apps/landing/scripts/prepare-brand.ts.
  */
module InkBox {

  import opened Basics

  const INK: int := 16
  const LOCKUP_GAP: int := 24

  datatype Box = Box(left: int, top: int, width: int, height: int) {
    function Right(): int { left + width - 1 }

    function Bottom(): int { top + height - 1 }

    predicate Within(outer: Box) {
      outer.left <= left && Right() <= outer.Right() && outer.top <= top && Bottom() <= outer.Bottom()
    }
  }

  datatype Pixels = Pixels(data: seq<int>, width: nat, height: nat, channels: nat) {
    /** Reading past the buffer is reading nothing. */
    function AlphaAt(x: int, y: int): int {
      var at := (y * width + x) * channels + 3;
      if 0 <= at < |data| then data[at] else 0
    }

    predicate Inked(x: int, y: int) { AlphaAt(x, y) > INK }

    /** Ink somewhere in the columns from..to. */
    predicate HasInk(from: int, to: int) {
      exists x, y | from <= x <= to && 0 <= y < height :: Inked(x, y)
    }

    /** Ink in column x, between the top and bottom of a box. */
    predicate ColumnInked(box: Box, x: int) {
      exists y | box.top <= y < box.top + box.height :: Inked(x, y)
    }
  }

  // ----- the box -------------------------------------------------------------------------

  /** A box with every inked pixel of the columns inside it, and ink on each of its sides. */
  ghost predicate IsInkBox(image: Pixels, from: int, to: int, box: Box) {
    && (forall x, y | from <= x <= to && 0 <= y < image.height && image.Inked(x, y) ::
          box.left <= x <= box.Right() && box.top <= y <= box.Bottom())
    && (exists y | 0 <= y < image.height :: image.Inked(box.left, y))
    && (exists y | 0 <= y < image.height :: image.Inked(box.Right(), y))
    && (exists x | from <= x <= to :: image.Inked(x, box.top))
    && (exists x | from <= x <= to :: image.Inked(x, box.Bottom()))
    && from <= box.left <= to && from <= box.Right() <= to
    && 0 <= box.top < image.height && 0 <= box.Bottom() < image.height
  }

  /** Which makes it the least box holding the ink. */
  lemma InkBoxIsLeast(image: Pixels, from: int, to: int, box: Box, other: Box)
    requires IsInkBox(image, from, to, box)
    requires forall x, y | from <= x <= to && 0 <= y < image.height && image.Inked(x, y) ::
               other.left <= x <= other.Right() && other.top <= y <= other.Bottom()
    ensures box.Within(other) && 1 <= box.width && 1 <= box.height
  {
    hide Pixels.AlphaAt;
    var l :| 0 <= l < image.height && image.Inked(box.left, l);
    var r :| 0 <= r < image.height && image.Inked(box.Right(), r);
    var t :| from <= t <= to && image.Inked(t, box.top);
    var b :| from <= b <= to && image.Inked(b, box.Bottom());
  }

  /** What the scan has gathered from the pixels it has visited. */
  datatype Extent = Extent(left: int, right: int, top: int, bottom: int)

  predicate Visited(from: int, to: int, y: int, x: int, px: int, py: int) {
    from <= px <= to && 0 <= py && (py < y || (py == y && px < x))
  }

  ghost predicate Gathered(image: Pixels, from: int, to: int, y: int, x: int, e: Extent) {
    if exists px, py :: Visited(from, to, y, x, px, py) && image.Inked(px, py) then
      && (forall px, py | Visited(from, to, y, x, px, py) && image.Inked(px, py) ::
            e.left <= px <= e.right && e.top <= py <= e.bottom)
      && (exists py :: Visited(from, to, y, x, e.left, py) && image.Inked(e.left, py))
      && (exists py :: Visited(from, to, y, x, e.right, py) && image.Inked(e.right, py))
      && (exists px :: Visited(from, to, y, x, px, e.top) && image.Inked(px, e.top))
      && (exists px :: Visited(from, to, y, x, px, e.bottom) && image.Inked(px, e.bottom))
    else
      e == Extent(to, from, image.height - 1, 0)
  }

  function Widened(e: Extent, x: int, y: int): Extent {
    Extent(if x < e.left then x else e.left, if x > e.right then x else e.right,
           if y < e.top then y else e.top, if y > e.bottom then y else e.bottom)
  }

  lemma VisitedNext(from: int, to: int, y: int, x: int)
    requires from <= x <= to && 0 <= y
    ensures forall px, py :: Visited(from, to, y, x + 1, px, py) <==> Visited(from, to, y, x, px, py) || (px == x && py == y)
  {
  }

  lemma VisitedRow(from: int, to: int, y: int, x: int)
    requires to < x && 0 <= y
    ensures forall px, py :: Visited(from, to, y + 1, from, px, py) <==> Visited(from, to, y, x, px, py)
  {
  }

  lemma GatherOne(image: Pixels, from: int, to: int, y: int, x: int, e: Extent)
    requires from <= x <= to && 0 <= y < image.height && Gathered(image, from, to, y, x, e)
    ensures Gathered(image, from, to, y, x + 1, if image.Inked(x, y) then Widened(e, x, y) else e)
  {
    hide Pixels.AlphaAt;
    VisitedNext(from, to, y, x);
  }

  lemma GatherRow(image: Pixels, from: int, to: int, y: int, x: int, e: Extent)
    requires to < x && 0 <= y && Gathered(image, from, to, y, x, e)
    ensures Gathered(image, from, to, y + 1, from, e)
  {
    hide Pixels.AlphaAt;
    VisitedRow(from, to, y, x);
  }

  lemma GatherNone(image: Pixels, from: int, to: int)
    ensures Gathered(image, from, to, 0, from, Extent(to, from, image.height - 1, 0))
  {
    hide Pixels.AlphaAt;
  }

  lemma GatherAll(image: Pixels, from: int, to: int, e: Extent)
    requires Gathered(image, from, to, image.height, from, e)
    ensures
      var box := Box(e.left, e.top, e.right - e.left + 1, e.bottom - e.top + 1);
      && (image.HasInk(from, to) ==> IsInkBox(image, from, to, box))
      && (!image.HasInk(from, to) ==> e == Extent(to, from, image.height - 1, 0))
  {
    hide Pixels.AlphaAt;
    assert forall px, py :: Visited(from, to, image.height, from, px, py) <==> from <= px <= to && 0 <= py < image.height;
    if image.HasInk(from, to) {
      var x, y :| from <= x <= to && 0 <= y < image.height && image.Inked(x, y);
      assert Visited(from, to, image.height, from, x, y);
    }
  }

  /** One pass over the columns from..to, widening an extent that starts inside out. */
  method FindInkBox(image: Pixels, from: int, to: int) returns (box: Box)
    ensures image.HasInk(from, to) ==> IsInkBox(image, from, to, box)
    ensures !image.HasInk(from, to) ==> box == Box(to, image.height - 1, from - to + 1, 2 - image.height)
  {
    hide Gathered, Pixels.AlphaAt, Pixels.HasInk, IsInkBox;
    var left, right, top, bottom := to, from, image.height - 1, 0;
    GatherNone(image, from, to);
    for y := 0 to image.height
      invariant Gathered(image, from, to, y, from, Extent(left, right, top, bottom))
    {
      var x := from;
      while x <= to
        invariant from <= x
        invariant Gathered(image, from, to, y, x, Extent(left, right, top, bottom))
        decreases 1 + to - x
      {
        GatherOne(image, from, to, y, x, Extent(left, right, top, bottom));
        if image.AlphaAt(x, y) > INK {
          if x < left { left := x; }
          if x > right { right := x; }
          if y < top { top := y; }
          if y > bottom { bottom := y; }
        }
        x := x + 1;
      }
      GatherRow(image, from, to, y, x, Extent(left, right, top, bottom));
    }
    GatherAll(image, from, to, Extent(left, right, top, bottom));
    box := Box(left, top, right - left + 1, bottom - top + 1);
  }

  // ----- the gap -------------------------------------------------------------------------

  /** Columns from..to of the box hold no ink. */
  ghost predicate Empty(image: Pixels, box: Box, from: int, to: int) {
    forall c | from <= c <= to :: !image.ColumnInked(box, c)
  }

  /**
    * Column `edge` ends a stretch of ink and `next` starts another, with at least
    * LOCKUP_GAP empty columns and nothing else between them. The column before the box
    * counts as an end, since the scan starts there.
    */
  ghost predicate Gap(image: Pixels, box: Box, edge: int, next: int) {
    && box.left <= edge + 1 && next <= box.Right()
    && LOCKUP_GAP <= next - edge - 1
    && Empty(image, box, edge + 1, next - 1) && image.ColumnInked(box, next)
    && (edge + 1 == box.left || image.ColumnInked(box, edge))
  }

  /** Whether column x holds ink inside the box. */
  method ScanColumn(image: Pixels, box: Box, x: int) returns (inked: bool)
    ensures inked == image.ColumnInked(box, x)
  {
    hide Pixels.AlphaAt;
    inked := false;
    var y := box.top;
    while y < box.top + box.height
      invariant box.top <= y
      invariant !inked && forall y' | box.top <= y' < y :: !image.Inked(x, y')
    {
      if image.AlphaAt(x, y) > INK {
        assert image.Inked(x, y);
        inked := true;
        break;
      }
      y := y + 1;
    }
  }

  /** The first column before a gap, if the box has one. */
  ghost predicate IsSplit(image: Pixels, box: Box, edge: Option<int>) {
    && (edge.Some? ==>
          && (exists next :: Gap(image, box, edge.value, next))
          && (forall e, next :: Gap(image, box, e, next) ==> edge.value <= e))
    && (edge.None? ==> forall e, next :: !Gap(image, box, e, next))
  }

  /** Scan for the first wide enough run of empty columns with ink after it. */
  method MarkRightEdge(image: Pixels, box: Box) returns (edge: Option<int>)
    ensures IsSplit(image, box, edge)
  {
    hide Pixels.ColumnInked;
    var end := box.left + box.width - 1;
    var gapStart: Option<int> := None;
    var x := box.left;
    while x <= end
      invariant box.left <= x
      invariant gapStart.Some? ==>
        && box.left <= gapStart.value < x && Empty(image, box, gapStart.value, x - 1)
        && (gapStart.value == box.left || image.ColumnInked(box, gapStart.value - 1))
      invariant gapStart.None? ==> x == box.left || image.ColumnInked(box, x - 1)
      invariant forall e, next | next < x :: !Gap(image, box, e, next)
    {
      var inked := ScanColumn(image, box, x);
      if inked {
        if gapStart.Some? && x - gapStart.value >= LOCKUP_GAP {
          edge := Some(gapStart.value - 1);
          assert Gap(image, box, edge.value, x);
          forall e, next | Gap(image, box, e, next) ensures edge.value <= e {
            LaterGap(image, box, e, next, edge.value, x);
          }
          return;
        }
        gapStart := None;
      } else if gapStart.None? {
        gapStart := Some(x);
      }
      x := x + 1;
    }
    return None;
  }

  /** Gaps with smaller edges come first. */
  lemma LaterGap(image: Pixels, box: Box, e: int, next: int, e': int, next': int)
    requires Gap(image, box, e, next) && Gap(image, box, e', next')
    ensures e < e' ==> next < next'
  {
    hide Pixels.ColumnInked;
  }

  // ----- the logo --------------------------------------------------------------------------

  /** The boxes `logo` extracts: the whole lockup, and the mark left of the gap if there is one. */
  method Logo(image: Pixels) returns (lockup: Box, split: Option<int>, mark: Option<Box>)
    requires 1 <= image.width
    ensures image.HasInk(0, image.width - 1) ==> IsInkBox(image, 0, image.width - 1, lockup)
    ensures IsSplit(image, lockup, split) && (mark.Some? <==> split.Some?)
    ensures image.HasInk(0, image.width - 1) && mark.Some? ==>
              && IsInkBox(image, lockup.left, split.value, mark.value)
              && 1 <= mark.value.width && 1 <= mark.value.height && mark.value.Within(lockup)
              && mark.value.left == lockup.left && mark.value.Right() == split.value
              && mark.value.Right() + LOCKUP_GAP < lockup.Right()
  {
    lockup := FindInkBox(image, 0, image.width - 1);
    split := MarkRightEdge(image, lockup);
    mark := None;
    if split.Some? {
      var cut := FindInkBox(image, lockup.left, split.value);
      mark := Some(cut);
      if image.HasInk(0, image.width - 1) {
        MarkIsInsideLockup(image, lockup, split.value, cut);
      }
    }
  }

  /** In an ink box the column before the gap holds ink, so the mark ends exactly there. */
  lemma MarkIsInsideLockup(image: Pixels, lockup: Box, edge: int, mark: Box)
    requires IsInkBox(image, 0, image.width - 1, lockup)
    requires exists next :: Gap(image, lockup, edge, next)
    requires image.HasInk(lockup.left, edge) ==> IsInkBox(image, lockup.left, edge, mark)
    ensures image.HasInk(lockup.left, edge) && IsInkBox(image, lockup.left, edge, mark)
    ensures 1 <= mark.width && 1 <= mark.height && mark.Within(lockup)
    ensures mark.left == lockup.left && mark.Right() == edge
    ensures edge + LOCKUP_GAP < lockup.Right()
  {
    hide Pixels.AlphaAt;
    var next :| Gap(image, lockup, edge, next);
    var l :| 0 <= l < image.height && image.Inked(lockup.left, l);
    assert image.ColumnInked(lockup, lockup.left);
    assert lockup.left <= edge;
    var y :| lockup.top <= y < lockup.top + lockup.height && image.Inked(edge, y);
    assert image.HasInk(lockup.left, edge);
    assert mark.left <= lockup.left <= mark.Right() && mark.left <= edge <= mark.Right();
  }
}
