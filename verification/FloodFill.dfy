/**
  * Removing a dark background by flooding inwards from the border: `keyOutBackground` of
  * apps/agen/scripts/prepare-brand.ts.
  *
  * The fill works in place on a marking array, a queue and the pixels. What it must
  * compute is stated without any of them: reachability from the border through dark
  * pixels, one step up, down, left or right at a time.
  */
module FloodFill {

  /** One channel of one pixel. */
  type Channel = c: int | 0 <= c < 256

  const KEY_THRESHOLD: int := 26

  predicate InImage(width: nat, height: nat, index: int) {
    0 <= index < width * height
  }

  predicate DarkAt(pixels: seq<Channel>, index: int)
    requires 0 <= index && 4 * index + 3 < |pixels|
  {
    && pixels[4 * index] <= KEY_THRESHOLD
    && pixels[4 * index + 1] <= KEY_THRESHOLD
    && pixels[4 * index + 2] <= KEY_THRESHOLD
  }

  // ----- reachability ------------------------------------------------------------------

  datatype Image = Image(width: nat, height: nat, pixels: seq<Channel>) {
    predicate Valid() {
      1 <= width && 1 <= height && |pixels| == 4 * (width * height)
    }

    function X(index: int): int requires Valid() { index % width }

    function Y(index: int): int requires Valid() { index / width }

    function At(x: int, y: int): int { y * width + x }

    predicate OnBorder(index: int)
      requires Valid()
    {
      X(index) == 0 || X(index) == width - 1 || Y(index) == 0 || Y(index) == height - 1
    }

    /** Neighbours share a side: their coordinates differ by one in one direction only. */
    predicate Neighbours(i: int, j: int)
      requires Valid()
    {
      Distance(X(i), X(j)) + Distance(Y(i), Y(j)) == 1
    }

    predicate Dark(index: int)
      requires Valid()
    {
      InImage(width, height, index) && DarkAt(pixels, index)
    }

    /** A walk from the border through dark pixels only. */
    ghost predicate IsPath(path: seq<int>)
      requires Valid()
    {
      && |path| > 0 && OnBorder(path[0])
      && (forall k | 0 <= k < |path| :: Dark(path[k]))
      && (forall k | 0 < k < |path| :: Neighbours(path[k - 1], path[k]))
    }

    /** The background: everything such a walk can end at. */
    ghost predicate Background(index: int)
      requires Valid()
    {
      exists path: seq<int> :: IsPath(path) && path[|path| - 1] == index
    }
  }

  /** A pixel is dark if each of its three colour channels is at most 26; its alpha does not matter. */
  lemma DarkIsNearlyBlack(image: Image, index: int)
    requires image.Valid()
    ensures image.Dark(index) <==> 0 <= index < image.width * image.height
                                   && forall c | 4 * index <= c < 4 * index + 3 :: image.pixels[c] <= 26
  {
    if 0 <= index < image.width * image.height && !image.Dark(index) {
      var p := image.pixels;
      assert p[4 * index] > 26 || p[4 * index + 1] > 26 || p[4 * index + 2] > 26;
    }
  }

  function Distance(a: int, b: int): int { if a < b then b - a else a - b }

  lemma BorderIsBackground(image: Image, i: int)
    requires image.Valid() && image.Dark(i) && image.OnBorder(i)
    ensures image.Background(i)
  {
    assert image.IsPath([i]);
    assert [i][|[i]| - 1] == i;
  }

  lemma BackgroundSpreads(image: Image, i: int, j: int)
    requires image.Valid() && image.Background(i) && image.Neighbours(i, j) && image.Dark(j)
    ensures image.Background(j)
  {
    var path :| image.IsPath(path) && path[|path| - 1] == i;
    var longer := path + [j];
    assert image.IsPath(longer);
    assert longer[|longer| - 1] == j;
  }

  /** A set holding the dark border and every dark neighbour of its members. */
  ghost predicate Closed(image: Image, marked: set<int>)
    requires image.Valid()
  {
    && (forall i | image.Dark(i) && image.OnBorder(i) :: i in marked)
    && (forall i, j | i in marked && image.Dark(j) && image.Neighbours(i, j) :: j in marked)
  }

  lemma {:induction false} ClosedHoldsPath(image: Image, marked: set<int>, path: seq<int>)
    requires image.Valid() && Closed(image, marked) && image.IsPath(path)
    ensures path[|path| - 1] in marked
  {
    if |path| > 1 {
      var front := path[..|path| - 1];
      assert image.IsPath(front);
      ClosedHoldsPath(image, marked, front);
      assert image.Neighbours(front[|front| - 1], path[|path| - 1]);
    }
  }

  /** Such a set misses none of the background. */
  lemma ClosedHoldsBackground(image: Image, marked: set<int>, i: int)
    requires image.Valid() && Closed(image, marked) && image.Background(i)
    ensures i in marked
  {
    var path :| image.IsPath(path) && path[|path| - 1] == i;
    ClosedHoldsPath(image, marked, path);
  }

  // ----- indices and coordinates ---------------------------------------------------------

  lemma Multiple(d: int, width: int)
    requires 0 < width
    ensures d >= 1 ==> d * width >= width
    ensures d <= -1 ==> d * width <= -width
    ensures d >= 0 ==> d * width >= 0
  {
  }

  lemma SameQuotient(width: int, q: int, r: int, q': int, r': int)
    requires 0 <= r < width && 0 <= r' < width && q * width + r == q' * width + r'
    ensures q == q' && r == r'
  {
    var d := q - q';
    assert d * width == q * width - q' * width;
    Multiple(d, width);
  }

  lemma Coordinates(width: nat, x: int, y: int, i: int)
    requires 1 <= width && 0 <= x < width && i == y * width + x
    ensures i / width == y && i % width == x
  {
    SameQuotient(width, y, x, i / width, i % width);
  }

  lemma Decompose(image: Image, i: int)
    requires image.Valid() && InImage(image.width, image.height, i)
    ensures 0 <= image.X(i) < image.width && 0 <= image.Y(i) < image.height
    ensures i == image.Y(i) * image.width + image.X(i)
  {
    var y := image.Y(i);
    var below := y - image.height;
    assert below * image.width == y * image.width - image.height * image.width;
    Multiple(y, image.width);
    Multiple(below, image.width);
  }

  /** The index steps the fill takes are exactly the moves to a neighbour. */
  lemma NeighbourSteps(image: Image, i: int, j: int)
    requires image.Valid() && InImage(image.width, image.height, i) && InImage(image.width, image.height, j)
    ensures image.Neighbours(i, j) <==>
      || (image.X(i) > 0 && j == i - 1)
      || (image.X(i) < image.width - 1 && j == i + 1)
      || (image.Y(i) > 0 && j == i - image.width)
      || (image.Y(i) < image.height - 1 && j == i + image.width)
  {
    Decompose(image, i);
    Decompose(image, j);
    var w, x, y := image.width, image.X(i), image.Y(i);
    var x', y' := image.X(j), image.Y(j);
    hide Image.X, Image.Y;
    if image.Neighbours(i, j) {
      if y' == y + 1 {
        assert y' * w == y * w + w;
      } else if y' == y - 1 {
        assert y' * w == y * w - w;
      }
    }
    if x > 0 && j == i - 1 {
      SameQuotient(w, y, x - 1, y', x');
    }
    if x < w - 1 && j == i + 1 {
      SameQuotient(w, y, x + 1, y', x');
    }
    if y > 0 && j == i - w {
      assert (y - 1) * w == y * w - w;
      SameQuotient(w, y - 1, x, y', x');
    }
    if y < image.height - 1 && j == i + w {
      assert (y + 1) * w == y * w + w;
      SameQuotient(w, y + 1, x, y', x');
    }
  }

  // ----- the queue ---------------------------------------------------------------------

  /** A set of indices below n has at most n members, and fewer when it misses one. */
  lemma {:induction false} AtMost(s: set<int>, n: nat)
    requires forall i | i in s :: 0 <= i < n
    ensures |s| <= n
    ensures (exists i :: 0 <= i < n && i !in s) ==> |s| < n
  {
    if n == 0 {
      forall i ensures i !in s {}
      assert s == {};
    } else {
      AtMost(s - {n - 1}, n - 1);
    }
  }

  /** Exactly the marked indices are queued, each once. */
  ghost predicate Queued(seen: seq<int>, queue: seq<int>, tail: int, marked: set<int>) {
    && |seen| == |queue| && 0 <= tail == |marked| <= |queue|
    && (forall i | i in marked :: 0 <= i < |seen|)
    && (forall i | 0 <= i < |seen| :: seen[i] == 1 <==> i in marked)
    && (forall k | 0 <= k < tail :: queue[k] in marked)
    && (forall i | i in marked :: i in queue[..tail])
  }

  /** Marking and enqueueing one more index keeps the two in step. */
  lemma Enqueued(seen: seq<int>, queue: seq<int>, tail: int, marked: set<int>, index: int)
    requires Queued(seen, queue, tail, marked) && 0 <= index < |seen| && index !in marked
    ensures tail < |queue|
    ensures Queued(seen[index := 1], queue[tail := index], tail + 1, marked + {index})
  {
    AtMost(marked, |seen|);
    assert queue[tail := index][..tail + 1] == queue[..tail] + [index];
  }

  /** Mark and enqueue an index, unless it is light or already marked. */
  method Seed(pixels: array<Channel>, seen: array<int>, queue: array<int>, tail: int, index: int,
              ghost marked: set<int>)
    returns (tail': int, ghost marked': set<int>)
    requires seen != queue && Queued(seen[..], queue[..], tail, marked)
    requires 0 <= index < seen.Length && pixels.Length == 4 * seen.Length
    modifies seen, queue
    ensures Queued(seen[..], queue[..], tail', marked')
    ensures marked' == if DarkAt(pixels[..], index) then marked + {index} else marked
    ensures tail <= tail' && forall k | 0 <= k < tail :: queue[k] == old(queue[k])
  {
    tail', marked' := tail, marked;
    var at := index * 4;
    if seen[index] == 1
      || !(pixels[at] <= KEY_THRESHOLD && pixels[at + 1] <= KEY_THRESHOLD && pixels[at + 2] <= KEY_THRESHOLD)
    {
      assert seen[index] == 1 ==> marked + {index} == marked;
      return;
    }
    Enqueued(seen[..], queue[..], tail, marked, index);
    hide Queued;
    marked' := marked + {index};
    seen[index] := 1;
    queue[tail] := index;
    tail' := tail + 1;
    assert seen[..] == old(seen[..])[index := 1] && queue[..] == old(queue[..])[tail := index];
  }

  // ----- the fill ------------------------------------------------------------------------

  ghost predicate AllBackground(image: Image, marked: set<int>)
    requires image.Valid()
  {
    forall i | i in marked :: image.Dark(i) && image.Background(i)
  }

  /** The pixel at column x of row y is marked if it is dark. */
  ghost predicate Covered(image: Image, marked: set<int>, x: int, y: int)
    requires image.Valid()
  {
    image.Dark(image.At(x, y)) ==> image.At(x, y) in marked
  }

  predicate Edge(image: Image, x: int, y: int) {
    && 0 <= x < image.width && 0 <= y < image.height
    && (x == 0 || x == image.width - 1 || y == 0 || y == image.height - 1)
  }

  lemma InsideImage(image: Image, x: int, y: int, i: int)
    requires image.Valid() && 0 <= x < image.width && 0 <= y < image.height
    requires i == y * image.width + x
    ensures InImage(image.width, image.height, i)
  {
    var w, below := image.width, image.height - y;
    assert below * w == image.height * w - y * w;
    Multiple(y, w);
    Multiple(below, w);
  }

  /** Every edge position is a border pixel, and every border pixel is at one. */
  lemma EdgesAreBorder(image: Image, x: int, y: int)
    requires image.Valid() && Edge(image, x, y)
    ensures InImage(image.width, image.height, image.At(x, y)) && image.OnBorder(image.At(x, y))
  {
    InsideImage(image, x, y, image.At(x, y));
    Coordinates(image.width, x, y, image.At(x, y));
  }

  lemma EdgesCoverBorder(image: Image, marked: set<int>)
    requires image.Valid()
    requires forall x, y | Edge(image, x, y) :: Covered(image, marked, x, y)
    ensures forall i | image.Dark(i) && image.OnBorder(i) :: i in marked
  {
    forall i | image.Dark(i) && image.OnBorder(i) ensures i in marked {
      Decompose(image, i);
      assert Covered(image, marked, image.X(i), image.Y(i));
    }
  }

  /** Seed one pixel of the edge. */
  method SeedEdge(ghost image: Image, pixels: array<Channel>, seen: array<int>, queue: array<int>, tail: int,
                  index: int, ghost x: int, ghost y: int, ghost marked: set<int>)
    returns (tail': int, ghost marked': set<int>)
    requires image.Valid() && pixels[..] == image.pixels
    requires seen != queue && seen.Length == image.width * image.height
    requires Queued(seen[..], queue[..], tail, marked) && AllBackground(image, marked)
    requires Edge(image, x, y) && index == image.At(x, y)
    modifies seen, queue
    ensures Queued(seen[..], queue[..], tail', marked') && AllBackground(image, marked')
    ensures Covered(image, marked', x, y)
    ensures forall x', y' | Covered(image, marked, x', y') :: Covered(image, marked', x', y')
  {
    EdgesAreBorder(image, x, y);
    if image.Dark(index) {
      BorderIsBackground(image, index);
    }
    hide Image.At, Image.OnBorder;
    tail', marked' := Seed(pixels, seen, queue, tail, index, marked);
  }

  method SeedBorder(ghost image: Image, pixels: array<Channel>, seen: array<int>, queue: array<int>, width: nat, height: nat)
    returns (tail: int, ghost marked: set<int>)
    requires image.Valid() && image == Image(width, height, pixels[..])
    requires seen != queue && seen.Length == queue.Length == width * height
    requires forall i | 0 <= i < seen.Length :: seen[i] == 0
    modifies seen, queue
    ensures Queued(seen[..], queue[..], tail, marked) && AllBackground(image, marked)
    ensures forall i | image.Dark(i) && image.OnBorder(i) :: i in marked
  {
    tail, marked := 0, {};
    assert Queued(seen[..], queue[..], tail, marked) && AllBackground(image, marked);
    hide Queued, AllBackground, Covered, Image.OnBorder, Image.Dark;
    ghost var right, bottom := width - 1, height - 1;
    for x := 0 to width
      invariant pixels[..] == image.pixels
      invariant Queued(seen[..], queue[..], tail, marked) && AllBackground(image, marked)
      invariant forall x' | 0 <= x' < x :: Covered(image, marked, x', 0)
      invariant forall x' | 0 <= x' < x :: Covered(image, marked, x', bottom)
    {
      tail, marked := SeedEdge(image, pixels, seen, queue, tail, x, x, 0, marked);
      tail, marked := SeedEdge(image, pixels, seen, queue, tail, (height - 1) * width + x, x, height - 1, marked);
    }
    for y := 0 to height
      invariant pixels[..] == image.pixels
      invariant Queued(seen[..], queue[..], tail, marked) && AllBackground(image, marked)
      invariant forall x' | 0 <= x' < width :: Covered(image, marked, x', 0)
      invariant forall x' | 0 <= x' < width :: Covered(image, marked, x', bottom)
      invariant forall y' | 0 <= y' < y :: Covered(image, marked, 0, y')
      invariant forall y' | 0 <= y' < y :: Covered(image, marked, right, y')
    {
      tail, marked := SeedEdge(image, pixels, seen, queue, tail, y * width, 0, y, marked);
      tail, marked := SeedEdge(image, pixels, seen, queue, tail, y * width + width - 1, width - 1, y, marked);
    }
    EdgesCoverBorder(image, marked);
  }

  /** Every dark neighbour of a queued pixel before `head` is marked. */
  ghost predicate Spread(image: Image, queue: seq<int>, head: int, marked: set<int>)
    requires image.Valid() && 0 <= head <= |queue|
  {
    forall k, j | 0 <= k < head && image.Dark(j) && image.Neighbours(queue[k], j) :: j in marked
  }

  /** Seed one neighbour of a background pixel, if it is inside the image. */
  method SeedNeighbour(ghost image: Image, pixels: array<Channel>, seen: array<int>, queue: array<int>, tail: int,
                       ghost from: int, inside: bool, index: int, ghost marked: set<int>)
    returns (tail': int, ghost marked': set<int>)
    requires image.Valid() && pixels[..] == image.pixels
    requires seen != queue && seen.Length == image.width * image.height
    requires Queued(seen[..], queue[..], tail, marked) && AllBackground(image, marked)
    requires from in marked
    requires inside ==> InImage(image.width, image.height, index) && image.Neighbours(from, index)
    modifies seen, queue
    ensures Queued(seen[..], queue[..], tail', marked') && AllBackground(image, marked')
    ensures marked <= marked' && (inside && image.Dark(index) ==> index in marked')
    ensures tail <= tail' && forall k | 0 <= k < tail :: queue[k] == old(queue[k])
  {
    tail', marked' := tail, marked;
    if inside {
      if image.Dark(index) {
        BackgroundSpreads(image, from, index);
      }
      hide Image.Neighbours;
      tail', marked' := Seed(pixels, seen, queue, tail, index, marked);
    }
  }

  /** The moves the fill makes along a row stay inside the image. */
  lemma RowSteps(image: Image, i: int)
    requires image.Valid() && InImage(image.width, image.height, i)
    ensures image.X(i) > 0 ==> InImage(image.width, image.height, i - 1) && image.Neighbours(i, i - 1)
    ensures image.X(i) < image.width - 1 ==> InImage(image.width, image.height, i + 1) && image.Neighbours(i, i + 1)
  {
    Decompose(image, i);
    var x, y := image.X(i), image.Y(i);
    if x > 0 {
      InsideImage(image, x - 1, y, i - 1);
      NeighbourSteps(image, i, i - 1);
    }
    if x < image.width - 1 {
      InsideImage(image, x + 1, y, i + 1);
      NeighbourSteps(image, i, i + 1);
    }
  }

  /** And so do the moves between rows. */
  lemma ColumnSteps(image: Image, i: int, above: int, below: int)
    requires image.Valid() && InImage(image.width, image.height, i)
    requires above == i - image.width && below == i + image.width
    ensures image.Y(i) > 0 ==> InImage(image.width, image.height, above) && image.Neighbours(i, above)
    ensures image.Y(i) < image.height - 1 ==> InImage(image.width, image.height, below) && image.Neighbours(i, below)
  {
    Decompose(image, i);
    var w, x, y := image.width, image.X(i), image.Y(i);
    assert (y - 1) * w == y * w - w && (y + 1) * w == y * w + w;
    hide Image.Neighbours;
    if y > 0 {
      InsideImage(image, x, y - 1, above);
      NeighbourSteps(image, i, above);
    }
    if y < image.height - 1 {
      InsideImage(image, x, y + 1, below);
      NeighbourSteps(image, i, below);
    }
  }

  ghost predicate RowCovered(image: Image, i: int, marked: set<int>)
    requires image.Valid()
  {
    && (image.X(i) > 0 && image.Dark(i - 1) ==> i - 1 in marked)
    && (image.X(i) < image.width - 1 && image.Dark(i + 1) ==> i + 1 in marked)
  }

  ghost predicate ColumnCovered(image: Image, i: int, marked: set<int>)
    requires image.Valid()
  {
    && (image.Y(i) > 0 && image.Dark(i - image.width) ==> i - image.width in marked)
    && (image.Y(i) < image.height - 1 && image.Dark(i + image.width) ==> i + image.width in marked)
  }

  lemma AllNeighbours(image: Image, i: int, marked: set<int>)
    requires image.Valid() && InImage(image.width, image.height, i)
    requires RowCovered(image, i, marked) && ColumnCovered(image, i, marked)
    ensures forall j | image.Dark(j) && image.Neighbours(i, j) :: j in marked
  {
    forall j | image.Dark(j) && image.Neighbours(i, j) ensures j in marked {
      NeighbourSteps(image, i, j);
    }
  }

  /** Seed the neighbours left and right of a background pixel. */
  method SeedRow(ghost image: Image, pixels: array<Channel>, seen: array<int>, queue: array<int>, tail: int,
                 index: int, x: int, width: nat, ghost marked: set<int>)
    returns (tail': int, ghost marked': set<int>)
    requires image.Valid() && pixels[..] == image.pixels && width == image.width
    requires seen != queue && seen.Length == image.width * image.height
    requires Queued(seen[..], queue[..], tail, marked) && AllBackground(image, marked)
    requires index in marked && InImage(image.width, image.height, index) && x == image.X(index)
    modifies seen, queue
    ensures Queued(seen[..], queue[..], tail', marked') && AllBackground(image, marked')
    ensures marked <= marked' && RowCovered(image, index, marked')
    ensures tail <= tail' && forall k | 0 <= k < tail :: queue[k] == old(queue[k])
  {
    hide Queued, AllBackground, InImage, Image.Neighbours, Image.Dark, Image.X;
    RowSteps(image, index);
    tail', marked' := SeedNeighbour(image, pixels, seen, queue, tail, index, x > 0, index - 1, marked);
    tail', marked' := SeedNeighbour(image, pixels, seen, queue, tail', index, x < width - 1, index + 1, marked');
  }

  /** And those above and below it. */
  method SeedColumn(ghost image: Image, pixels: array<Channel>, seen: array<int>, queue: array<int>, tail: int,
                    index: int, y: int, width: nat, height: nat, ghost marked: set<int>)
    returns (tail': int, ghost marked': set<int>)
    requires image.Valid() && pixels[..] == image.pixels && width == image.width && height == image.height
    requires seen != queue && seen.Length == image.width * image.height
    requires Queued(seen[..], queue[..], tail, marked) && AllBackground(image, marked)
    requires index in marked && InImage(image.width, image.height, index) && y == image.Y(index)
    modifies seen, queue
    ensures Queued(seen[..], queue[..], tail', marked') && AllBackground(image, marked')
    ensures marked <= marked' && ColumnCovered(image, index, marked')
    ensures tail <= tail' && forall k | 0 <= k < tail :: queue[k] == old(queue[k])
  {
    hide Queued, AllBackground, InImage, Image.Neighbours, Image.Dark, Image.Y;
    ColumnSteps(image, index, index - width, index + width);
    tail', marked' := SeedNeighbour(image, pixels, seen, queue, tail, index, y > 0, index - width, marked);
    tail', marked' := SeedNeighbour(image, pixels, seen, queue, tail', index, y < height - 1, index + width, marked');
  }

  /** Seed the four neighbours of a background pixel. */
  method Expand(ghost image: Image, pixels: array<Channel>, seen: array<int>, queue: array<int>, tail: int,
                index: int, width: nat, height: nat, ghost marked: set<int>)
    returns (tail': int, ghost marked': set<int>)
    requires image.Valid() && image == Image(width, height, pixels[..])
    requires seen != queue && seen.Length == width * height
    requires Queued(seen[..], queue[..], tail, marked) && AllBackground(image, marked)
    requires index in marked
    modifies seen, queue
    ensures Queued(seen[..], queue[..], tail', marked') && AllBackground(image, marked')
    ensures marked <= marked' && forall j | image.Dark(j) && image.Neighbours(index, j) :: j in marked'
    ensures tail <= tail' && forall k | 0 <= k < tail :: queue[k] == old(queue[k])
  {
    assert InImage(width, height, index);
    var x := index % width;
    var y := index / width;
    assert x == image.X(index) && y == image.Y(index);
    hide Queued, AllBackground, InImage, Image.Neighbours, Image.Dark, Image.X, Image.Y, RowCovered, ColumnCovered;
    tail', marked' := SeedRow(image, pixels, seen, queue, tail, index, x, width, marked);
    ghost var row := marked';
    tail', marked' := SeedColumn(image, pixels, seen, queue, tail', index, y, width, height, marked');
    StillCovered(image, index, row, marked');
    AllNeighbours(image, index, marked');
  }

  lemma StillCovered(image: Image, i: int, marked: set<int>, more: set<int>)
    requires image.Valid() && RowCovered(image, i, marked) && marked <= more
    ensures RowCovered(image, i, more)
  {
  }

  /** Flood inwards until the queue is empty: the marked set is then closed. */
  method Flood(ghost image: Image, pixels: array<Channel>, seen: array<int>, queue: array<int>, tail: int,
               width: nat, height: nat, ghost marked: set<int>)
    returns (ghost flooded: set<int>)
    requires image.Valid() && image == Image(width, height, pixels[..])
    requires seen != queue && seen.Length == width * height
    requires Queued(seen[..], queue[..], tail, marked) && AllBackground(image, marked)
    modifies seen, queue
    ensures marked <= flooded && AllBackground(image, flooded)
    ensures forall i, j | i in flooded && image.Dark(j) && image.Neighbours(i, j) :: j in flooded
    ensures forall i | 0 <= i < seen.Length :: seen[i] == 1 <==> i in flooded
  {
    hide AllBackground, Image.Neighbours, Image.Dark;
    flooded := marked;
    var head, last := 0, tail;
    while head < last
      invariant 0 <= head <= last <= queue.Length && pixels[..] == image.pixels
      invariant marked <= flooded && AllBackground(image, flooded)
      invariant Queued(seen[..], queue[..], last, flooded)
      invariant Spread(image, queue[..], head, flooded)
      decreases queue.Length - head
    {
      var index := queue[head];
      last, flooded := Expand(image, pixels, seen, queue, last, index, width, height, flooded);
      head := head + 1;
    }
    forall i, j | i in flooded && image.Dark(j) && image.Neighbours(i, j) ensures j in flooded {
      assert i in queue[..last];
    }
  }

  // ----- the whole pass --------------------------------------------------------------------

  /** The image with its background made transparent and every other byte untouched. */
  ghost function KeyedOut(image: Image): (pixels: seq<Channel>)
    requires image.Valid()
  {
    seq(|image.pixels|, k requires 0 <= k < |image.pixels| =>
      if k % 4 == 3 && image.Background(k / 4) then 0 else image.pixels[k])
  }

  method KeyOutBackground(pixels: array<Channel>, width: nat, height: nat)
    requires 1 <= width && 1 <= height && pixels.Length == 4 * (width * height)
    modifies pixels
    ensures pixels[..] == KeyedOut(Image(width, height, old(pixels[..])))
  {
    ghost var image := Image(width, height, pixels[..]);
    var count := width * height;
    var seen := new int[count](_ => 0);
    var queue := new int[count](_ => 0);
    ghost var marked, flooded;
    var tail;
    tail, marked := SeedBorder(image, pixels, seen, queue, width, height);
    flooded := Flood(image, pixels, seen, queue, tail, width, height, marked);
    assert forall i | 0 <= i < count :: seen[i] == 1 <==> image.Background(i) by {
      assert Closed(image, flooded);
      forall i | image.Background(i) ensures i in flooded {
        ClosedHoldsBackground(image, flooded, i);
      }
    }
    ClearAlpha(pixels, seen);
  }

  /** Make every marked pixel transparent. */
  method ClearAlpha(pixels: array<Channel>, seen: array<int>)
    requires pixels.Length == 4 * seen.Length
    modifies pixels
    ensures forall k | 0 <= k < pixels.Length ::
      pixels[k] == if k % 4 == 3 && seen[k / 4] == 1 then 0 else old(pixels[k])
  {
    for index := 0 to seen.Length
      invariant forall k | 0 <= k < 4 * index ::
        pixels[k] == if k % 4 == 3 && seen[k / 4] == 1 then 0 else old(pixels[k])
      invariant forall k | 4 * index <= k < pixels.Length :: pixels[k] == old(pixels[k])
    {
      if seen[index] == 1 {
        pixels[index * 4 + 3] := 0;
      }
    }
  }
}
