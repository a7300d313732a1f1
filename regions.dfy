/**
 * The region post-processing stage of `process_image` (image_processing.py).
 *
 * It starts where OpenCV has produced the contours of the dilated colour
 * mask and the colour-isolated image, both of which are inputs here:
 * each contour as its `contourArea` and its `boundingRect`, the image as
 * rows of pixels, each pixel the list of its channel values.
 *
 * Python's `//` and `%` by a positive number floor, as Dafny's `/` and `%`
 * do for a positive divisor, so they are written as `/` and `%` here.
 */
module Regions {

  import opened Results
  import opened Sorting
  import Python
  import Utils

  /** The channel values of one pixel. */
  type Pixel = seq<nat>

  /** The colour-isolated image: rows of pixels. */
  type Image = seq<seq<Pixel>>

  /** One contour as OpenCV reports it: its area and its bounding rectangle. */
  datatype Contour = Contour(area: real, x: int, y: int, w: int, h: int)

  datatype Rect = Rect(x: int, y: int, w: int, h: int)

  /** A rectangle with the sum of the isolated pixels inside it. */
  datatype Scored = Scored(rect: Rect, sum: nat)

  /** The corners of a centred square, as slice bounds. */
  datatype Square = Square(x1: int, y1: int, x2: int, y2: int)

  /** `((center_y, center_x), number, crop)` */
  datatype Region = Region(centreY: int, centreX: int, number: int, crop: Image)

  /** `((center_y, center_x), number, crop, area)` */
  datatype Measured = Measured(centreY: int, centreX: int, number: int, crop: Image, area: real)

  /** `((center_y, center_x), label, crop, area)` */
  datatype Labeled = Labeled(centreY: int, centreX: int, tag: string, crop: Image, area: real)

  /** A subplot position in the display grid. */
  datatype Cell = Cell(row: int, col: int)

  /** The subplots that show a region, in region order, and those switched off. */
  datatype Layout = Layout(cells: seq<Cell>, blank: seq<Cell>)

  datatype Output = Output(regions: seq<Labeled>, layout: Layout, text: string)

  datatype Error =
    | EmptyMax                        // max() of an empty sequence: no rectangle survived
    | KeyError(key: int)              // a region number the label table has no entry for
    | SubplotsError                   // plt.subplots refuses a non-positive grid
    | AxesNotGrid                     // a grid with one row or one column gives a 1-D axes array
    | AxesIndexError(row: int, col: int)  // a region beyond the last grid row

  /** The contour-area threshold: the literal of the filter, not `min_area`. */
  const AreaThreshold: real := 1000.0

  /** How many rectangles survive the ranking. */
  const TopCount: nat := 24

  /** The number of regions per row band that the ordering assumes. */
  const RowWidth: nat := 4

  // ----- pixel sums -----

  function ChannelSum(p: Pixel): nat
  {
    if p == [] then 0 else p[0] + ChannelSum(p[1..])
  }

  function RowSum(row: seq<Pixel>): nat
  {
    if row == [] then 0 else ChannelSum(row[0]) + RowSum(row[1..])
  }

  /** `np.sum` of an image: all channel values added up. */
  function ImageSum(img: Image): nat
  {
    if img == [] then 0 else RowSum(img[0]) + ImageSum(img[1..])
  }

  function ChannelNonZero(p: Pixel): nat
  {
    if p == [] then 0 else (if p[0] != 0 then 1 else 0) + ChannelNonZero(p[1..])
  }

  function RowNonZero(row: seq<Pixel>): nat
  {
    if row == [] then 0 else ChannelNonZero(row[0]) + RowNonZero(row[1..])
  }

  /** `np.count_nonzero` of an image: the non-zero channel values. */
  function ImageNonZero(img: Image): nat
  {
    if img == [] then 0 else RowNonZero(img[0]) + ImageNonZero(img[1..])
  }

  /** One pixel with three non-zero channels counts three times. */
  lemma CountsChannelsNotPixels()
    ensures ImageNonZero([[[60, 120, 40]]]) == 3
    ensures ImageNonZero([[[0, 120, 0], [0, 0, 0]]]) == 1
  {
  }

  /** `img[y1:y2, x1:x2]` with Python's slice rules on both axes. */
  function Crop(img: Image, y1: int, y2: int, x1: int, x2: int): Image
  {
    var rows := Python.Slice(img, y1, y2);
    seq(|rows|, i requires 0 <= i < |rows| => Python.Slice(rows[i], x1, x2))
  }

  // ----- 1. filter by contour area -----

  function RectOf(c: Contour): Rect
  {
    Rect(c.x, c.y, c.w, c.h)
  }

  /** The bounding rectangles of the contours whose area exceeds the threshold. */
  function KeptRects(cs: seq<Contour>): seq<Rect>
  {
    if cs == [] then []
    else
      var last := cs[|cs| - 1];
      KeptRects(cs[..|cs| - 1]) + (if last.area > AreaThreshold then [RectOf(last)] else [])
  }

  /** The positions of the contours that are kept, in increasing order. */
  function KeptIndices(cs: seq<Contour>): seq<nat>
  {
    if cs == [] then []
    else
      var last := cs[|cs| - 1];
      KeptIndices(cs[..|cs| - 1]) + (if last.area > AreaThreshold then [|cs| - 1] else [])
  }

  /**
   * A contour's rectangle is kept exactly when its area exceeds the
   * threshold, and the kept rectangles are in contour order.
   */
  lemma KeptRectsCharacterised(cs: seq<Contour>)
    ensures |KeptIndices(cs)| == |KeptRects(cs)|
    ensures forall k :: 0 <= k < |KeptIndices(cs)| ==>
      KeptIndices(cs)[k] < |cs| && cs[KeptIndices(cs)[k]].area > AreaThreshold &&
      KeptRects(cs)[k] == RectOf(cs[KeptIndices(cs)[k]])
    ensures forall k, l :: 0 <= k < l < |KeptIndices(cs)| ==> KeptIndices(cs)[k] < KeptIndices(cs)[l]
    ensures forall i :: 0 <= i < |cs| && cs[i].area > AreaThreshold ==> i in KeptIndices(cs)
  {
    KeptSources(cs);
    KeptIncreasing(cs);
    KeptComplete(cs);
  }

  /** Each kept rectangle is that of a large contour at the recorded position. */
  lemma {:induction false} KeptSources(cs: seq<Contour>)
    ensures |KeptIndices(cs)| == |KeptRects(cs)|
    ensures forall k :: 0 <= k < |KeptIndices(cs)| ==>
      KeptIndices(cs)[k] < |cs| && cs[KeptIndices(cs)[k]].area > AreaThreshold &&
      KeptRects(cs)[k] == RectOf(cs[KeptIndices(cs)[k]])
  {
    if cs != [] {
      var init := cs[..|cs| - 1];
      KeptSources(init);
      var ki, kr := KeptIndices(cs), KeptRects(cs);
      forall k | 0 <= k < |KeptIndices(init)|
        ensures ki[k] < |cs| && cs[ki[k]].area > AreaThreshold && kr[k] == RectOf(cs[ki[k]])
      {
        assert ki[k] == KeptIndices(init)[k] && kr[k] == KeptRects(init)[k];
        assert cs[ki[k]] == init[ki[k]];
      }
    }
  }

  /** The recorded positions increase. */
  lemma {:induction false} KeptIncreasing(cs: seq<Contour>)
    ensures forall k :: 0 <= k < |KeptIndices(cs)| ==> KeptIndices(cs)[k] < |cs|
    ensures forall k, l :: 0 <= k < l < |KeptIndices(cs)| ==> KeptIndices(cs)[k] < KeptIndices(cs)[l]
  {
    if cs != [] {
      var init := cs[..|cs| - 1];
      KeptIncreasing(init);
      var ki, pi := KeptIndices(cs), KeptIndices(init);
      forall k | 0 <= k < |pi|
        ensures ki[k] == pi[k] && ki[k] < |cs| - 1
      {
      }
    }
  }

  /** Every large contour is recorded. */
  lemma {:induction false} KeptComplete(cs: seq<Contour>)
    ensures forall i :: 0 <= i < |cs| && cs[i].area > AreaThreshold ==> i in KeptIndices(cs)
  {
    if cs != [] {
      var init := cs[..|cs| - 1];
      KeptComplete(init);
      forall i | 0 <= i < |init| && init[i].area > AreaThreshold
        ensures i in KeptIndices(cs)
      {
        assert i in KeptIndices(init);
      }
    }
  }

  method FindRectangles(contours: seq<Contour>) returns (rects: seq<Rect>)
    ensures rects == KeptRects(contours)
  {
    rects := [];
    for i := 0 to |contours|
      invariant rects == KeptRects(contours[..i])
    {
      var c := contours[i];
      if c.area > AreaThreshold {
        rects := rects + [Rect(c.x, c.y, c.w, c.h)];
      }
      assert contours[..i + 1][..i] == contours[..i];
    }
    assert contours[..|contours|] == contours;
  }

  // ----- 2. score each rectangle -----

  /** The sum of the isolated pixels inside `r`: `np.sum(isolated[y:y+h, x:x+w])`. */
  function RegionSum(img: Image, r: Rect): nat
  {
    ImageSum(Crop(img, r.y, r.y + r.h, r.x, r.x + r.w))
  }

  function ScoreAll(img: Image, rects: seq<Rect>): seq<Scored>
  {
    seq(|rects|, k requires 0 <= k < |rects| => Scored(rects[k], RegionSum(img, rects[k])))
  }

  method ScoreRectangles(img: Image, rects: seq<Rect>) returns (scored: seq<Scored>)
    ensures |scored| == |rects|
    ensures forall k :: 0 <= k < |rects| ==> scored[k].rect == rects[k] && scored[k].sum == RegionSum(img, rects[k])
    ensures scored == ScoreAll(img, rects)
  {
    scored := [];
    for i := 0 to |rects|
      invariant |scored| == i
      invariant forall k :: 0 <= k < i ==> scored[k] == Scored(rects[k], RegionSum(img, rects[k]))
    {
      var r := rects[i];
      var sumPixels := ImageSum(Crop(img, r.y, r.y + r.h, r.x, r.x + r.w));
      scored := scored + [Scored(r, sumPixels)];
    }
    assert scored == ScoreAll(img, rects);
  }

  // ----- 3. rank by score, descending -----

  /** `sort(key=lambda rect: rect[4], reverse=True)` is the stable sort by the negated sum. */
  function NegSum(s: Scored): int
  {
    -(s.sum as int)
  }

  function Ranked(scored: seq<Scored>): seq<Scored>
  {
    SortBy(scored, NegSum)
  }

  /**
   * The ranking is a permutation of the scores, ordered by non-increasing
   * sum, and rectangles with equal sums keep their contour order.
   */
  lemma RankedProperties(scored: seq<Scored>)
    ensures multiset(Ranked(scored)) == multiset(scored) && |Ranked(scored)| == |scored|
    ensures forall i, j :: 0 <= i < j < |Ranked(scored)| ==> Ranked(scored)[i].sum >= Ranked(scored)[j].sum
    ensures forall k: int :: WithKey(Ranked(scored), NegSum, k) == WithKey(scored, NegSum, k)
  {
    SortByPermutation(scored, NegSum);
    var r := Ranked(scored);
    SortByIsSorted(scored, NegSum);
    forall i, j | 0 <= i < j < |r|
      ensures r[i].sum >= r[j].sum
    {
      assert NegSum(r[i]) <= NegSum(r[j]);
    }
    forall k: int
      ensures WithKey(r, NegSum, k) == WithKey(scored, NegSum, k)
    {
      SortByStable(scored, NegSum, k);
    }
  }

  // ----- 4. keep the top 24 -----

  /** `[rect[:4] for rect in ranked[:24]]` */
  function TopRects(ranked: seq<Scored>): seq<Rect>
  {
    var p := Python.Take(ranked, TopCount);
    seq(|p|, k requires 0 <= k < |p| => p[k].rect)
  }

  /** The top rectangles are the first min(24, n) of the ranking. */
  lemma TopRectsPrefix(ranked: seq<Scored>)
    ensures |TopRects(ranked)| == if |ranked| < TopCount then |ranked| else TopCount
    ensures forall k :: 0 <= k < |TopRects(ranked)| ==> TopRects(ranked)[k] == ranked[k].rect
  {
    Python.TakePrefix(ranked, TopCount);
  }

  // ----- 5. common square size and re-centring -----

  /** `max(w, h)` */
  function Side(r: Rect): int
  {
    if r.h > r.w then r.h else r.w
  }

  /** `max(max(w, h) for ...)`: fails on an empty sequence. */
  function MaxSquareSize(rects: seq<Rect>): (r: Result<int, Error>)
    ensures r.Ok? <==> |rects| > 0
    ensures r.Err? ==> r.error == EmptyMax
    ensures r.Ok? ==> forall k :: 0 <= k < |rects| ==> rects[k].w <= r.value && rects[k].h <= r.value
    ensures r.Ok? ==> exists k :: 0 <= k < |rects| && Side(rects[k]) == r.value
  {
    if |rects| == 0 then Err(EmptyMax)
    else if |rects| == 1 then Ok(Side(rects[0]))
    else
      var m := MaxSquareSize(rects[1..]).value;
      var first := Side(rects[0]);
      if first >= m then Ok(first)
      else
        var k :| 0 <= k < |rects[1..]| && Side(rects[1..][k]) == m;
        assert Side(rects[k + 1]) == m;
        Ok(m)
  }

  function CentreOf(r: Rect): (int, int)
  {
    (r.x + r.w / 2, r.y + r.h / 2)
  }

  /** The slice bounds of the square of size `s` around the centre of `r`. */
  function SquareOf(r: Rect, s: int): (q: Square)
    ensures q.x1 + q.x2 == 2 * CentreOf(r).0 && q.y1 + q.y2 == 2 * CentreOf(r).1
    ensures q.x2 - q.x1 == q.y2 - q.y1 == 2 * (s / 2)
    ensures s % 2 == 0 ==> q.x2 - q.x1 == s
    ensures s % 2 == 1 ==> q.x2 - q.x1 == s - 1
  {
    var (cx, cy) := CentreOf(r);
    Square(cx - s / 2, cy - s / 2, cx + s / 2, cy + s / 2)
  }

  function CentredRegion(img: Image, r: Rect, s: int, number: int): Region
  {
    var (cx, cy) := CentreOf(r);
    var q := SquareOf(r, s);
    Region(cy, cx, number, Crop(img, q.y1, q.y2, q.x1, q.x2))
  }

  function CentreAll(img: Image, rects: seq<Rect>, s: int): seq<Region>
  {
    seq(|rects|, k requires 0 <= k < |rects| => CentredRegion(img, rects[k], s, k + 1))
  }

  method CentreRegions(img: Image, rects: seq<Rect>, maxSquareSize: int) returns (regions: seq<Region>)
    ensures |regions| == |rects|
    ensures forall k :: 0 <= k < |rects| ==> regions[k] == CentredRegion(img, rects[k], maxSquareSize, k + 1)
    ensures regions == CentreAll(img, rects, maxSquareSize)
  {
    regions := [];
    for idx := 0 to |rects|
      invariant |regions| == idx
      invariant forall k :: 0 <= k < idx ==> regions[k] == CentredRegion(img, rects[k], maxSquareSize, k + 1)
    {
      var r := rects[idx];
      var centerX := r.x + r.w / 2;
      var centerY := r.y + r.h / 2;
      var x1 := centerX - maxSquareSize / 2;
      var x2 := centerX + maxSquareSize / 2;
      var y1 := centerY - maxSquareSize / 2;
      var y2 := centerY + maxSquareSize / 2;
      assert SquareOf(r, maxSquareSize) == Square(x1, y1, x2, y2);
      regions := regions + [Region(centerY, centerX, idx + 1, Crop(img, y1, y2, x1, x2))];
    }
    assert regions == CentreAll(img, rects, maxSquareSize);
  }

  /** A square that lies inside a rectangular image crops to exactly its size. */
  lemma CropInside(img: Image, width: nat, q: Square)
    requires forall i :: 0 <= i < |img| ==> |img[i]| == width
    requires 0 <= q.y1 <= q.y2 <= |img| && 0 <= q.x1 <= q.x2 <= width
    ensures |Crop(img, q.y1, q.y2, q.x1, q.x2)| == q.y2 - q.y1
    ensures forall i :: 0 <= i < q.y2 - q.y1 ==>
      Crop(img, q.y1, q.y2, q.x1, q.x2)[i] == img[q.y1 + i][q.x1..q.x2]
  {
  }

  // ----- 6. row order: by centre y, then each run of 4 by centre x -----

  function CentreY(r: Region): int
  {
    r.centreY
  }

  function CentreX(r: Region): int
  {
    r.centreX
  }

  /** Each consecutive run of 4 sorted by centre x (the last run may be shorter). */
  function SortBlocks(s: seq<Region>): seq<Region>
    decreases |s|
  {
    if |s| <= RowWidth then SortBy(s, CentreX)
    else SortBy(s[..RowWidth], CentreX) + SortBlocks(s[RowWidth..])
  }

  function RowOrder(regions: seq<Region>): seq<Region>
  {
    SortBlocks(SortBy(regions, CentreY))
  }

  lemma {:induction false} SortBlocksLength(s: seq<Region>)
    ensures |SortBlocks(s)| == |s|
    decreases |s|
  {
    if |s| > RowWidth {
      SortBlocksLength(s[RowWidth..]);
    }
  }

  lemma {:induction false} SortBlocksAppend(a: seq<Region>, b: seq<Region>)
    requires |a| % RowWidth == 0 || b == []
    ensures SortBlocks(a + b) == SortBlocks(a) + SortBlocks(b)
    decreases |a|
  {
    assert SortBlocks([]) == [];
    if a == [] {
      assert a + b == b;
    } else if b == [] {
      assert a + b == a;
    } else {
      var head, tail := a[..RowWidth], a[RowWidth..];
      assert (a + b)[..RowWidth] == head;
      assert (a + b)[RowWidth..] == tail + b;
      SortBlocksAppend(tail, b);
      assert SortBlocks(a + b) == SortBy(head, CentreX) + (SortBlocks(tail) + SortBlocks(b));
      if tail == [] {
        assert SortBlocks(a) == SortBy(head, CentreX) + SortBlocks(tail);
      }
    }
  }

  /** The end of block `b` of a sequence of length `n`: the last block may be shorter. */
  function BlockEnd(b: nat, n: nat): nat
  {
    if RowWidth * b + RowWidth <= n then RowWidth * b + RowWidth else n
  }

  /** Block `b` of the result is block `b` of the input sorted by centre x. */
  lemma {:induction false} SortBlocksBlock(s: seq<Region>, b: nat)
    requires RowWidth * b < |s|
    ensures |SortBlocks(s)| == |s|
    ensures SortBlocks(s)[RowWidth * b..BlockEnd(b, |s|)] == SortBy(s[RowWidth * b..BlockEnd(b, |s|)], CentreX)
    decreases b
  {
    SortBlocksLength(s);
    if |s| <= RowWidth {
      Python.WholeSlice(s);
      Python.WholeSlice(SortBlocks(s));
    } else {
      var head, tail := s[..RowWidth], s[RowWidth..];
      var sortedHead := SortBy(head, CentreX);
      SortBlocksLength(tail);
      assert SortBlocks(s) == sortedHead + SortBlocks(tail);
      if b == 0 {
        Python.PrefixSlice(sortedHead, SortBlocks(tail));
        Python.TakeAsSlice(s, RowWidth);
      } else {
        SortBlocksBlock(tail, b - 1);
        var lo, hi := RowWidth * b, BlockEnd(b, |s|);
        assert BlockEnd(b - 1, |tail|) == hi - RowWidth;
        Python.ShiftSlice(sortedHead, SortBlocks(tail), lo, hi);
        Python.SliceOfDrop(s, RowWidth, lo, hi);
      }
    }
  }

  lemma {:induction false} SortBlocksPermutation(s: seq<Region>)
    ensures multiset(SortBlocks(s)) == multiset(s)
    decreases |s|
  {
    if |s| <= RowWidth {
      SortByPermutation(s, CentreX);
    } else {
      SortByPermutation(s[..RowWidth], CentreX);
      SortBlocksPermutation(s[RowWidth..]);
      assert s == s[..RowWidth] + s[RowWidth..];
    }
  }

  /** The row order is a permutation of the regions. */
  lemma RowOrderPermutation(regions: seq<Region>)
    ensures multiset(RowOrder(regions)) == multiset(regions) && |RowOrder(regions)| == |regions|
  {
    var byY := SortBy(regions, CentreY);
    SortByPermutation(regions, CentreY);
    SortBlocksPermutation(byY);
    SortBlocksLength(byY);
  }

  /** The row order has as many regions as its input. */
  lemma RowOrderLength(regions: seq<Region>)
    ensures |RowOrder(regions)| == |regions|
  {
    SortBlocksLength(SortBy(regions, CentreY));
  }

  /**
   * Every block of 4 of the row order holds the same regions as that block
   * of the stable y-order, ordered by non-decreasing centre x.
   */
  lemma RowOrderBlock(regions: seq<Region>, b: nat)
    requires RowWidth * b < |regions|
    ensures |RowOrder(regions)| == |SortBy(regions, CentreY)| == |regions|
    ensures var lo, hi := RowWidth * b, BlockEnd(b, |regions|);
      multiset(RowOrder(regions)[lo..hi]) == multiset(SortBy(regions, CentreY)[lo..hi])
    ensures var lo, hi := RowWidth * b, BlockEnd(b, |regions|);
      forall i, j :: lo <= i < j < hi ==> RowOrder(regions)[i].centreX <= RowOrder(regions)[j].centreX
  {
    var byY := SortBy(regions, CentreY);
    var lo, hi := RowWidth * b, BlockEnd(b, |regions|);
    SortBlocksBlock(byY, b);
    BlockOrdered(RowOrder(regions), byY[lo..hi], lo, hi);
  }

  /** A region in block `b` of the row order comes from the same block of the y-order. */
  lemma BlockSource(regions: seq<Region>, b: nat, i: nat) returns (k: nat)
    requires RowWidth * b <= i < BlockEnd(b, |regions|)
    ensures |RowOrder(regions)| == |SortBy(regions, CentreY)| == |regions|
    ensures RowWidth * b <= k < BlockEnd(b, |regions|)
    ensures RowOrder(regions)[i] == SortBy(regions, CentreY)[k]
  {
    RowOrderBlock(regions, b);
    k := SameElementsSource(RowOrder(regions), SortBy(regions, CentreY), RowWidth * b, BlockEnd(b, |regions|), i);
  }

  /** An element of a slice is found in any slice with the same multiset. */
  lemma SameElementsSource<T>(t: seq<T>, src: seq<T>, lo: nat, hi: nat, i: nat) returns (k: nat)
    requires lo <= i < hi <= |t| && hi <= |src|
    requires multiset(t[lo..hi]) == multiset(src[lo..hi])
    ensures lo <= k < hi && t[i] == src[k]
  {
    assert t[lo..hi][i - lo] == t[i];
    assert t[i] in multiset(src[lo..hi]);
    var k' :| 0 <= k' < hi - lo && src[lo..hi][k'] == t[i];
    k := lo + k';
  }

  /**
   * The row order reads like text: within a block of 4 the centre x does
   * not decrease, and no region of a block lies below (larger centre y)
   * a region of a later block.
   */
  lemma RowOrderRows(regions: seq<Region>)
    ensures |RowOrder(regions)| == |regions|
    ensures forall i, j :: 0 <= i < j < |RowOrder(regions)| && i / RowWidth == j / RowWidth ==>
      RowOrder(regions)[i].centreX <= RowOrder(regions)[j].centreX
    ensures forall i, j :: 0 <= i < |RowOrder(regions)| && 0 <= j < |RowOrder(regions)| && i / RowWidth < j / RowWidth ==>
      RowOrder(regions)[i].centreY <= RowOrder(regions)[j].centreY
  {
    var t, byY := RowOrder(regions), SortBy(regions, CentreY);
    RowOrderLength(regions);
    SortByIsSorted(regions, CentreY);
    forall i, j | 0 <= i < j < |t| && i / RowWidth == j / RowWidth
      ensures t[i].centreX <= t[j].centreX
    {
      RowOrderBlock(regions, i / RowWidth);
    }
    forall i, j | 0 <= i < |t| && 0 <= j < |t| && i / RowWidth < j / RowWidth
      ensures t[i].centreY <= t[j].centreY
    {
      var ki := BlockSource(regions, i / RowWidth, i);
      var kj := BlockSource(regions, j / RowWidth, j);
      assert ki < kj;
      assert CentreY(byY[ki]) <= CentreY(byY[kj]);
    }
  }

  /** A slice that is a sort by centre x holds the same regions, ordered by centre x. */
  lemma BlockOrdered(t: seq<Region>, src: seq<Region>, lo: nat, hi: nat)
    requires lo <= hi <= |t| && t[lo..hi] == SortBy(src, CentreX)
    ensures multiset(t[lo..hi]) == multiset(src)
    ensures forall i, j :: lo <= i < j < hi ==> t[i].centreX <= t[j].centreX
  {
    var blk := t[lo..hi];
    SortByPermutation(src, CentreX);
    SortByIsSorted(src, CentreX);
    forall i, j | lo <= i < j < hi
      ensures t[i].centreX <= t[j].centreX
    {
      assert t[i] == blk[i - lo] && t[j] == blk[j - lo];
      assert CentreX(blk[i - lo]) <= CentreX(blk[j - lo]);
    }
  }

  /** Sorting the block that starts at `i` extends the sorted prefix by one block. */
  lemma SortRowsStep(byY: seq<Region>, r: seq<Region>, i: nat, j: nat)
    requires i % RowWidth == 0 && i < |byY|
    requires j == if i + RowWidth <= |byY| then i + RowWidth else |byY|
    requires |r| == |byY| && r == SortBlocks(byY[..i]) + byY[i..]
    ensures r[..i] + SortBy(r[i..j], CentreX) + r[j..] == SortBlocks(byY[..j]) + byY[j..]
    ensures |r[..i] + SortBy(r[i..j], CentreX) + r[j..]| == |byY|
    ensures i < j <= |byY| && (j % RowWidth == 0 || j == |byY|)
  {
    var pre, blk, post := byY[..i], byY[i..j], byY[j..];
    var done, sorted := SortBlocks(pre), SortBy(blk, CentreX);
    SortBlocksLength(pre);
    RowsPieces(byY, r, i, j);
    assert pre + blk == byY[..j];
    SortBlocksAppend(pre, blk);
    ShortBlock(blk);
    assert r[..i] + SortBy(r[i..j], CentreX) + r[j..] == done + sorted + post;
    BlockStepBounds(i, j, |byY|);
  }

  /** A run no longer than one block is sorted as a whole. */
  lemma ShortBlock(blk: seq<Region>)
    requires |blk| <= RowWidth
    ensures SortBlocks(blk) == SortBy(blk, CentreX)
  {
  }

  lemma BlockStepBounds(i: nat, j: nat, n: nat)
    requires i % RowWidth == 0 && i < n
    requires j == if i + RowWidth <= n then i + RowWidth else n
    ensures i < j <= n && (j % RowWidth == 0 || j == n)
  {
  }

  /** The pieces of the partly sorted sequence around the block `i..j`. */
  lemma RowsPieces(byY: seq<Region>, r: seq<Region>, i: nat, j: nat)
    requires i <= j <= |byY| && |SortBlocks(byY[..i])| == i
    requires r == SortBlocks(byY[..i]) + byY[i..]
    ensures r[..i] == SortBlocks(byY[..i]) && r[i..j] == byY[i..j] && r[j..] == byY[j..]
  {
    var done := SortBlocks(byY[..i]);
    assert r[i..] == byY[i..];
    assert r[i..j] == r[i..][..j - i];
    assert r[j..] == r[i..][j - i..];
  }

  method SortRows(regions: seq<Region>) returns (r: seq<Region>)
    ensures r == RowOrder(regions)
  {
    r := SortBy(regions, CentreY);  // labeled_regions.sort(key=centre y), a stable sort
    ghost var byY := r;
    var i := 0;
    while i < |r|
      invariant |r| == |byY|
      invariant 0 <= i <= |r|
      invariant i % RowWidth == 0 || i == |r|
      invariant r == SortBlocks(byY[..i]) + byY[i..]
    {
      // labeled_regions[i:i+4] = sorted(labeled_regions[i:i+4], key=centre x)
      var j := if i + RowWidth <= |r| then i + RowWidth else |r|;
      SortRowsStep(byY, r, i, j);
      r := r[..i] + SortBy(r[i..j], CentreX) + r[j..];
      i := j;
    }
    assert byY[..|byY|] == byY;
  }

  // ----- 7. renumber 1..N -----

  function Renumbered(s: seq<Region>): seq<Region>
  {
    seq(|s|, i requires 0 <= i < |s| => s[i].(number := i + 1))
  }

  method Renumber(regions: seq<Region>) returns (r: seq<Region>)
    ensures |r| == |regions|
    ensures forall i :: 0 <= i < |r| ==> r[i].number == i + 1
    ensures forall i :: 0 <= i < |r| ==> r[i].centreY == regions[i].centreY && r[i].centreX == regions[i].centreX && r[i].crop == regions[i].crop
    ensures r == Renumbered(regions)
  {
    r := regions;
    for i := 0 to |r|
      invariant |r| == |regions|
      invariant forall k :: 0 <= k < i ==> r[k] == regions[k].(number := k + 1)
      invariant forall k :: i <= k < |r| ==> r[k] == regions[k]
    {
      r := r[i := Region(r[i].centreY, r[i].centreX, i + 1, r[i].crop)];
    }
    assert r == Renumbered(regions);
  }

  // ----- 8. area -----

  /**
   * A count of non-zero channel values times the square of the conversion
   * factor (no rounding). A pixel with several non-zero channels counts once
   * per channel.
   */
  function Area(count: nat, conversionFactor: real): real
  {
    count as real * (conversionFactor * conversionFactor)
  }

  function Measure(r: Region, conversionFactor: real): Measured
  {
    Measured(r.centreY, r.centreX, r.number, r.crop, Area(ImageNonZero(r.crop), conversionFactor))
  }

  function MeasureAll(s: seq<Region>, conversionFactor: real): seq<Measured>
  {
    seq(|s|, i requires 0 <= i < |s| => Measure(s[i], conversionFactor))
  }

  method MeasureRegions(regions: seq<Region>, conversionFactor: real) returns (measured: seq<Measured>)
    ensures |measured| == |regions|
    ensures forall i :: 0 <= i < |regions| ==>
      var r := regions[i];
      measured[i] == Measured(r.centreY, r.centreX, r.number, r.crop, Area(ImageNonZero(r.crop), conversionFactor))
    ensures measured == MeasureAll(regions, conversionFactor)
  {
    measured := [];
    for i := 0 to |regions|
      invariant |measured| == i
      invariant forall k :: 0 <= k < i ==> measured[k] == Measure(regions[k], conversionFactor)
    {
      var region := regions[i];
      var nonZeroPixels := ImageNonZero(region.crop) as real * (conversionFactor * conversionFactor);
      measured := measured + [Measured(region.centreY, region.centreX, region.number, region.crop, nonZeroPixels)];
    }
    assert measured == MeasureAll(regions, conversionFactor);
  }

  /** Scaling the conversion factor by `k` scales every area by `k * k`. */
  lemma AreaScaling(count: nat, conversionFactor: real, k: real)
    ensures Area(count, k * conversionFactor) == k * k * Area(count, conversionFactor)
  {
    calc {
      Area(count, k * conversionFactor);
      count as real * ((k * conversionFactor) * (k * conversionFactor));
      { assert (k * conversionFactor) * (k * conversionFactor) == k * k * (conversionFactor * conversionFactor); }
      count as real * (k * k * (conversionFactor * conversionFactor));
      k * k * Area(count, conversionFactor);
    }
  }

  // ----- 9. label lookup -----

  /** The position of the first region whose number has no label, or the length. */
  function FirstMissing(s: seq<Measured>, labelMapping: map<int, string>): (k: nat)
    ensures k <= |s|
    ensures forall j :: 0 <= j < k ==> s[j].number in labelMapping
    ensures k < |s| ==> s[k].number !in labelMapping
  {
    if s == [] then 0
    else if s[0].number !in labelMapping then 0
    else 1 + FirstMissing(s[1..], labelMapping)
  }

  function WithLabel(m: Measured, tag: string): Labeled
  {
    Labeled(m.centreY, m.centreX, tag, m.crop, m.area)
  }

  /** `label_mapping[label]` for every region, raising KeyError at the first miss. */
  function LabelAll(s: seq<Measured>, labelMapping: map<int, string>): Result<seq<Labeled>, Error>
  {
    var k := FirstMissing(s, labelMapping);
    if k < |s| then Err(KeyError(s[k].number))
    else Ok(seq(|s|, i requires 0 <= i < |s| => WithLabel(s[i], labelMapping[s[i].number])))
  }

  method ApplyLabels(s: seq<Measured>, labelMapping: map<int, string>) returns (res: Result<seq<Labeled>, Error>)
    ensures res == LabelAll(s, labelMapping)
    ensures res.Err? <==> exists k :: 0 <= k < |s| && s[k].number !in labelMapping
    ensures res.Err? ==>
      exists k :: (0 <= k < |s| && s[k].number !in labelMapping &&
        (forall j :: 0 <= j < k ==> s[j].number in labelMapping) && res.error == KeyError(s[k].number))
    ensures res.Ok? ==> |res.value| == |s| && forall i :: 0 <= i < |s| ==>
      s[i].number in labelMapping && res.value[i] == WithLabel(s[i], labelMapping[s[i].number])
  {
    var out: seq<Labeled> := [];
    for i := 0 to |s|
      invariant |out| == i
      invariant forall k :: 0 <= k < i ==> s[k].number in labelMapping && out[k] == WithLabel(s[k], labelMapping[s[k].number])
    {
      var m := s[i];
      if m.number !in labelMapping {
        return Err(KeyError(m.number));
      }
      out := out + [WithLabel(m, labelMapping[m.number])];
    }
    ghost var k := FirstMissing(s, labelMapping);
    assert k == |s|;
    assert out == seq(|s|, i requires 0 <= i < |s| => WithLabel(s[i], labelMapping[s[i].number]));
    return Ok(out);
  }

  // ----- 10. grid layout -----

  /** Subplot `idx` in row-major order: `(idx // num_columns, idx % num_columns)`. */
  function CellAt(idx: int, numColumns: int): (cell: Cell)
    requires numColumns > 0
    ensures cell.row * numColumns + cell.col == idx && 0 <= cell.col < numColumns
    ensures idx >= 0 ==> cell.row >= 0
  {
    Cell(idx / numColumns, idx % numColumns)
  }

  /**
   * `plt.subplots(grid_size, num_columns)` followed by `axes[row, col]` for
   * every region and for every remaining subplot.
   */
  function GridLayout(n: nat, gridSize: int, numColumns: int): Result<Layout, Error>
  {
    if gridSize < 1 || numColumns < 1 then Err(SubplotsError)
    else if gridSize == 1 || numColumns == 1 then Err(AxesNotGrid)
    else if n > gridSize * numColumns then Err(AxesIndexError(gridSize, 0))
    else
      Ok(Layout(seq(n, idx requires 0 <= idx < n => CellAt(idx, numColumns)),
                seq(gridSize * numColumns - n, j requires 0 <= j < gridSize * numColumns - n => CellAt(n + j, numColumns))))
  }

  lemma MulMonotone(a: int, b: int, c: nat)
    requires a <= b
    ensures a * c <= b * c
  {
  }

  /** A row-major index lies in the grid exactly when its row does. */
  lemma RowInGrid(idx: nat, gridSize: nat, numColumns: nat)
    requires numColumns > 0
    ensures idx / numColumns < gridSize <==> idx < gridSize * numColumns
  {
    var q, r := idx / numColumns, idx % numColumns;
    assert idx == q * numColumns + r;
    if q < gridSize {
      MulMonotone(q, gridSize - 1, numColumns);
      assert (gridSize - 1) * numColumns == gridSize * numColumns - numColumns;
    } else {
      MulMonotone(gridSize, q, numColumns);
    }
  }

  /** The first index whose row lies below the grid is the first one after it. */
  lemma FirstOutside(idx: nat, gridSize: nat, numColumns: nat)
    requires numColumns > 0 && idx <= gridSize * numColumns && idx / numColumns >= gridSize
    ensures idx == gridSize * numColumns && idx / numColumns == gridSize && idx % numColumns == 0
  {
    RowInGrid(idx, gridSize, numColumns);
    var q, r := idx / numColumns, idx % numColumns;
    assert q * numColumns + r == gridSize * numColumns;
    if q > gridSize {
      MulMonotone(gridSize + 1, q, numColumns);
    }
  }

  method LayOutGrid(n: nat, gridSize: int, numColumns: int) returns (res: Result<Layout, Error>)
    ensures res == GridLayout(n, gridSize, numColumns)
  {
    if gridSize < 1 || numColumns < 1 {
      return Err(SubplotsError);
    }
    if gridSize == 1 || numColumns == 1 {
      return Err(AxesNotGrid);
    }
    var cells: seq<Cell> := [];
    for idx := 0 to n
      invariant |cells| == idx
      invariant idx <= gridSize * numColumns
      invariant forall k :: 0 <= k < idx ==> cells[k] == CellAt(k, numColumns)
    {
      var row := idx / numColumns;
      var col := idx % numColumns;
      if row >= gridSize {
        FirstOutside(idx, gridSize, numColumns);
        return Err(AxesIndexError(row, col));
      }
      RowInGrid(idx, gridSize, numColumns);
      cells := cells + [Cell(row, col)];
    }
    var totalPlots := gridSize * numColumns;
    var blank: seq<Cell> := [];
    for idx := n to totalPlots
      invariant |blank| == idx - n
      invariant forall j :: 0 <= j < idx - n ==> blank[j] == CellAt(n + j, numColumns)
    {
      blank := blank + [Cell(idx / numColumns, idx % numColumns)];
    }
    assert cells == seq(n, idx requires 0 <= idx < n => CellAt(idx, numColumns));
    assert blank == seq(totalPlots - n, j requires 0 <= j < totalPlots - n => CellAt(n + j, numColumns));
    res := Ok(Layout(cells, blank));
  }

  /**
   * Region `idx` goes to subplot (idx // num_columns, idx % num_columns),
   * inside the grid; the subplots from the last region to the end of the
   * grid are switched off; together each subplot is used exactly once, in
   * row-major order.
   */
  lemma GridIsRowMajor(n: nat, gridSize: int, numColumns: int)
    requires GridLayout(n, gridSize, numColumns).Ok?
    ensures var g := GridLayout(n, gridSize, numColumns).value;
      && |g.cells| == n && |g.cells| + |g.blank| == gridSize * numColumns
      && (forall idx :: 0 <= idx < n ==>
            0 <= g.cells[idx].row < gridSize && 0 <= g.cells[idx].col < numColumns &&
            g.cells[idx].row * numColumns + g.cells[idx].col == idx)
      && (forall j :: 0 <= j < |g.blank| ==>
            0 <= g.blank[j].row < gridSize && 0 <= g.blank[j].col < numColumns &&
            g.blank[j].row * numColumns + g.blank[j].col == n + j)
  {
    var g := GridLayout(n, gridSize, numColumns).value;
    forall idx | 0 <= idx < n
      ensures 0 <= g.cells[idx].row < gridSize
    {
      RowInGrid(idx, gridSize, numColumns);
    }
    assert |g.blank| == gridSize * numColumns - n;
    forall j | 0 <= j < |g.blank|
      ensures 0 <= g.blank[j].row < gridSize && 0 <= g.blank[j].col < numColumns
      ensures g.blank[j].row * numColumns + g.blank[j].col == n + j
    {
      assert g.blank[j] == CellAt(n + j, numColumns);
      RowInGrid(n + j, gridSize, numColumns);
    }
  }

  // ----- 11. report -----

  const Unit: string := " cm²"

  /** `f'{label}: {area} cm²'`, the area rendered by `formatArea`. */
  function ReportLine(r: Labeled, formatArea: real -> string): string
  {
    r.tag + ": " + formatArea(r.area) + Unit
  }

  function ReportLines(rs: seq<Labeled>, formatArea: real -> string): seq<string>
  {
    seq(|rs|, i requires 0 <= i < |rs| => ReportLine(rs[i], formatArea))
  }

  /** `'\n'.join(...)` of the report lines. */
  function ReportText(rs: seq<Labeled>, formatArea: real -> string): string
  {
    Utils.Join(ReportLines(rs, formatArea), '\n')
  }

  /**
   * Splitting the report at newlines gives back one line per region, in
   * region order, provided no label and no rendered area holds a newline.
   */
  lemma ReportOneLinePerRegion(rs: seq<Labeled>, formatArea: real -> string)
    requires |rs| >= 1
    requires forall i :: 0 <= i < |rs| ==> '\n' !in rs[i].tag
    requires forall a :: '\n' !in formatArea(a)
    ensures Utils.Split(ReportText(rs, formatArea), '\n') == ReportLines(rs, formatArea)
    ensures |Utils.Split(ReportText(rs, formatArea), '\n')| == |rs|
  {
    var lines := ReportLines(rs, formatArea);
    forall i | 0 <= i < |lines|
      ensures '\n' !in lines[i]
    {
      var a := rs[i].tag;
      var b := formatArea(rs[i].area);
      assert lines[i] == a + ": " + b + Unit;
      assert forall c :: c in lines[i] ==> c in a || c in ": " || c in b || c in Unit;
    }
    Utils.SplitJoin(lines, '\n');
  }

  // ----- the whole stage -----

  /** The rectangles that pass the filter, ranked by score and cut to the first 24. */
  function TopOf(contours: seq<Contour>, img: Image): seq<Rect>
  {
    TopRects(Ranked(ScoreAll(img, KeptRects(contours))))
  }

  /** The regions the label loop sees: centred, row-ordered, renumbered, measured, cut to `max_regions`. */
  function Candidates(img: Image, top: seq<Rect>, s: int, conversionFactor: real, maxRegions: int): seq<Measured>
  {
    Python.Take(MeasureAll(Renumbered(RowOrder(CentreAll(img, top, s))), conversionFactor), maxRegions)
  }

  /** What `process_image` computes from the contours onward. */
  function Process(contours: seq<Contour>, img: Image, conversionFactor: real, labelMapping: map<int, string>,
                   maxRegions: int, gridSize: int, numColumns: int, formatArea: real -> string): Result<Output, Error>
  {
    var top := TopOf(contours, img);
    match MaxSquareSize(top)
    case Err(e) => Err(e)
    case Ok(s) =>
      match LabelAll(Candidates(img, top, s, conversionFactor, maxRegions), labelMapping)
      case Err(e) => Err(e)
      case Ok(labeled) =>
        match GridLayout(|labeled|, gridSize, numColumns)
        case Err(e) => Err(e)
        case Ok(layout) => Ok(Output(labeled, layout, ReportText(labeled, formatArea)))
  }

  /**
   * process_image from the contours onward.  `minArea` is accepted and,
   * as in the source, not used: the filter compares with the literal 1000.
   */
  method ProcessImage(contours: seq<Contour>, img: Image, conversionFactor: real, labelMapping: map<int, string>,
                      minArea: int, maxRegions: int, gridSize: int, numColumns: int,
                      formatArea: real -> string) returns (res: Result<Output, Error>)
    ensures res == Process(contours, img, conversionFactor, labelMapping, maxRegions, gridSize, numColumns, formatArea)
  {
    var boundingRectangles := FindRectangles(contours);
    var sumPixelValues := ScoreRectangles(img, boundingRectangles);
    sumPixelValues := SortBy(sumPixelValues, NegSum);  // sort(key=sum, reverse=True)
    var top := TopRects(sumPixelValues);
    var maxSquareSize := MaxSquareSize(top);
    if maxSquareSize.Err? {
      return Err(maxSquareSize.error);
    }
    var labeledRegions := CentreRegions(img, top, maxSquareSize.value);
    labeledRegions := SortRows(labeledRegions);
    labeledRegions := Renumber(labeledRegions);
    var withArea := MeasureRegions(labeledRegions, conversionFactor);
    withArea := Python.Take(withArea, maxRegions);
    var labeled := ApplyLabels(withArea, labelMapping);
    if labeled.Err? {
      return Err(labeled.error);
    }
    var layout := LayOutGrid(|labeled.value|, gridSize, numColumns);
    if layout.Err? {
      return Err(layout.error);
    }
    var textData := ReportText(labeled.value, formatArea);
    res := Ok(Output(labeled.value, layout.value, textData));
  }
}
