/** The marker images `MakeVesselMask` and `MakeVesselOverlay` draw: one image
    per emitter line, blank except for a rectangle of 255s stamped around the
    pixel each source point projects to.  Rectangles are cut with Python slice
    semantics, so a negative start index counts from the far end. */
module VesselImages {
  import opened Vectors
  import opened Numbers
  import opened Results
  import opened PerspectiveTransform
  import opened Pixels
  import opened Projection
  import opened Registration

  /** An 8-bit image as rows of cell values, indexed `array[row, col]`. */
  type Grid = seq<seq<int>>

  /** The value a stamp writes. */
  const Marked: int := 255

  /** Only positions with x in [0, 1536) and y in [0, 2048) are stamped,
      whatever the image size. */
  const WindowColumns: real := 1536.0
  const WindowRows: real := 2048.0

  /** Half-heights and half-widths of the two markers. */
  const MaskHalfRows: nat := 10
  const MaskHalfColumns: nat := 12
  const OverlayHalfRows: nat := 3
  const OverlayHalfColumns: nat := 3

  /** `np.zeros(shape=[rows, cols])`. */
  function Blank(rows: nat, cols: nat): (g: Grid)
    ensures |g| == rows && forall i :: 0 <= i < rows ==> |g[i]| == cols && forall j :: 0 <= j < cols ==> g[i][j] == 0
  {
    seq(rows, i => seq(cols, j => 0))
  }

  /** Where a slice bound lands in a sequence of length n: a negative bound
      counts from the end, and the result is clamped into [0, n]. */
  function SliceBound(b: int, n: nat): (k: nat)
    ensures k <= n
    ensures 0 <= b <= n ==> k == b
    ensures b > n ==> k == n
    ensures b < 0 ==> k == if b + n < 0 then 0 else b + n
  {
    if b < 0 then (if b + n < 0 then 0 else b + n)
    else if b > n then n
    else b
  }

  /** Index k is selected by the slice `[lb:ub]` of a length-n sequence. */
  predicate InSlice(k: int, lb: int, ub: int, n: nat) {
    SliceBound(lb, n) <= k < SliceBound(ub, n)
  }

  /** The stamping window of the source. */
  predicate InWindow(px: Pixel) {
    0.0 <= px.x < WindowColumns && 0.0 <= px.y < WindowRows
  }

  /** The marker of a pixel covers cell (i, j) of a grid with the given
      dimensions. */
  predicate Covers(px: Pixel, hr: nat, hc: nat, rows: nat, cols: nat, i: int, j: int) {
    && InWindow(px)
    && InSlice(i, Trunc(px.y) - hr, Trunc(px.y) + hr, rows)
    && InSlice(j, Trunc(px.x) - hc, Trunc(px.x) + hc, cols)
  }

  /** Same dimensions, row by row. */
  predicate SameShape(a: Grid, b: Grid) {
    |a| == |b| && forall i :: 0 <= i < |a| ==> |a[i]| == |b[i]|
  }

  /** `array[ind_1lb:ind_1ub, ind_2lb:ind_2ub] = 255` for one position: every
      covered cell becomes 255, all others keep their value. */
  function Stamp(g: Grid, px: Pixel, hr: nat, hc: nat): (r: Grid)
    ensures SameShape(r, g)
    ensures forall i, j :: 0 <= i < |g| && 0 <= j < |g[i]| ==>
      r[i][j] == if Covers(px, hr, hc, |g|, |g[i]|, i, j) then Marked else g[i][j]
  {
    if !InWindow(px) then g
    else
      var row, col := Trunc(px.y), Trunc(px.x);
      seq(|g|, i requires 0 <= i < |g| =>
        if InSlice(i, row - hr, row + hr, |g|) then
          seq(|g[i]|, j requires 0 <= j < |g[i]| => if InSlice(j, col - hc, col + hc, |g[i]|) then Marked else g[i][j])
        else g[i])
  }

  /** Two grids with the same shape and the same cells are equal. */
  lemma GridsEqual(a: Grid, b: Grid)
    requires SameShape(a, b)
    requires forall i, j :: 0 <= i < |a| && 0 <= j < |a[i]| ==> a[i][j] == b[i][j]
    ensures a == b
  {
    forall i | 0 <= i < |a|
      ensures a[i] == b[i]
    {
      assert forall j :: 0 <= j < |a[i]| ==> a[i][j] == b[i][j];
    }
  }

  /** A position outside the window leaves the grid as it is. */
  lemma OutsideWindowUnchanged(g: Grid, px: Pixel, hr: nat, hc: nat)
    requires px.x >= WindowColumns || px.x < 0.0 || px.y >= WindowRows || px.y < 0.0
    ensures Stamp(g, px, hr, hc) == g
  {
    GridsEqual(Stamp(g, px, hr, hc), g);
  }

  /** Away from the edges the marker is the plain rectangle of rows
      row − hr … row + hr − 1 and columns col − hc … col + hc − 1. */
  lemma InteriorStampIsBox(g: Grid, px: Pixel, hr: nat, hc: nat, i: nat, j: nat)
    requires InWindow(px)
    requires hr <= Trunc(px.y) && Trunc(px.y) + hr <= |g|
    requires i < |g| && hc <= Trunc(px.x) && Trunc(px.x) + hc <= |g[i]| && j < |g[i]|
    ensures Stamp(g, px, hr, hc)[i][j] ==
      if Trunc(px.y) - hr <= i < Trunc(px.y) + hr && Trunc(px.x) - hc <= j < Trunc(px.x) + hc then Marked
      else g[i][j]
  {
  }

  /** The slice wrap-around: a position closer than hr rows to the top, in a
      grid at least 2·hr rows tall, gives a slice that starts after it ends,
      and nothing is drawn at all.  The same happens closer than hc columns
      to the left edge. */
  lemma NearEdgeDrawsNothing(g: Grid, px: Pixel, hr: nat, hc: nat)
    requires InWindow(px)
    requires (Trunc(px.y) < hr && 2 * hr <= |g|)
          || (Trunc(px.x) < hc && forall i :: 0 <= i < |g| ==> 2 * hc <= |g[i]|)
    ensures Stamp(g, px, hr, hc) == g
  {
    var r := Stamp(g, px, hr, hc);
    forall i, j | 0 <= i < |g| && 0 <= j < |g[i]|
      ensures r[i][j] == g[i][j]
    {
      if Trunc(px.y) < hr && 2 * hr <= |g| {
        assert !InSlice(i, Trunc(px.y) - hr, Trunc(px.y) + hr, |g|);
      } else {
        assert !InSlice(j, Trunc(px.x) - hc, Trunc(px.x) + hc, |g[i]|);
      }
    }
    GridsEqual(r, g);
  }

  /** Stamping the same position twice is stamping it once. */
  lemma StampIdempotent(g: Grid, px: Pixel, hr: nat, hc: nat)
    ensures Stamp(Stamp(g, px, hr, hc), px, hr, hc) == Stamp(g, px, hr, hc)
  {
    GridsEqual(Stamp(Stamp(g, px, hr, hc), px, hr, hc), Stamp(g, px, hr, hc));
  }

  /** The order in which two positions are stamped does not matter. */
  lemma StampsCommute(g: Grid, p: Pixel, q: Pixel, hr: nat, hc: nat)
    ensures Stamp(Stamp(g, p, hr, hc), q, hr, hc) == Stamp(Stamp(g, q, hr, hc), p, hr, hc)
  {
    GridsEqual(Stamp(Stamp(g, p, hr, hc), q, hr, hc), Stamp(Stamp(g, q, hr, hc), p, hr, hc));
  }

  /** The stamping loop over all projected positions, in order.  A cell ends
      up 255 when some position covers it and keeps its value otherwise. */
  function StampAll(g: Grid, pixels: seq<Pixel>, hr: nat, hc: nat): (r: Grid)
    ensures SameShape(r, g)
    ensures forall i, j :: 0 <= i < |g| && 0 <= j < |g[i]| ==>
      r[i][j] == if exists k :: 0 <= k < |pixels| && Covers(pixels[k], hr, hc, |g|, |g[i]|, i, j) then Marked
                 else g[i][j]
    decreases |pixels|
  {
    if |pixels| == 0 then g
    else
      var r := StampAll(Stamp(g, pixels[0], hr, hc), pixels[1..], hr, hc);
      assert forall k :: 0 <= k < |pixels| - 1 ==> pixels[1..][k] == pixels[k + 1];
      r
  }

  /** Only the set of positions matters, not their order or repetition. */
  lemma StampAllDependsOnSet(g: Grid, a: seq<Pixel>, b: seq<Pixel>, hr: nat, hc: nat)
    requires forall px :: px in a <==> px in b
    ensures StampAll(g, a, hr, hc) == StampAll(g, b, hr, hc)
  {
    var ra, rb := StampAll(g, a, hr, hc), StampAll(g, b, hr, hc);
    forall i, j | 0 <= i < |g| && 0 <= j < |g[i]|
      ensures ra[i][j] == rb[i][j]
    {
      CoveredByEither(a, b, hr, hc, |g|, |g[i]|, i, j);
      CoveredByEither(b, a, hr, hc, |g|, |g[i]|, i, j);
    }
    GridsEqual(ra, rb);
  }

  /** A cell covered by a position of a is covered by one of b when every
      position of a occurs in b. */
  lemma CoveredByEither(a: seq<Pixel>, b: seq<Pixel>, hr: nat, hc: nat, rows: nat, cols: nat, i: int, j: int)
    requires forall px :: px in a ==> px in b
    ensures (exists k :: 0 <= k < |a| && Covers(a[k], hr, hc, rows, cols, i, j)) ==>
            (exists k :: 0 <= k < |b| && Covers(b[k], hr, hc, rows, cols, i, j))
  {
    if exists k :: 0 <= k < |a| && Covers(a[k], hr, hc, rows, cols, i, j) {
      var k :| 0 <= k < |a| && Covers(a[k], hr, hc, rows, cols, i, j);
      assert a[k] in b;
      var k2 :| 0 <= k2 < |b| && b[k2] == a[k];
      assert Covers(b[k2], hr, hc, rows, cols, i, j);
    }
  }

  /** The projector `MakeVesselMask` builds for one emitter line: the plane is
      centred at half the image size, with unit x and y axes, and the emitter
      is placed relative to that centre in millimetres. */
  function MaskProjector(size: ImageSize, line: Vec3): (p: Projector)
    ensures p.AxisU() == Vec3(1.0, 0.0, 0.0) && p.AxisV() == Vec3(0.0, 1.0, 0.0)
    ensures p.planeCenter == Vec3(Half(size.x), Half(size.y), 0.0)
  {
    var centre := Vec3(Half(size.x), Half(size.y), 0.0);
    Projector(Vec3(0.0, 0.0, 0.0),
              Vec3(Half(size.x) * PixelPitch - line.x, Half(size.y) * PixelPitch + line.y, line.z),
              centre, Vec3(0.0, 0.0, 1.0),
              Vec3(Half(size.x) + 1.0, Half(size.y), 0.0), Vec3(Half(size.x), Half(size.y) + 1.0, 0.0))
  }

  /** The projector `MakeVesselOverlay` builds for one emitter line: the
      registration's detector, with unit x and y axes through the origin,
      and the emitter at the line mirrored in x. */
  function OverlayProjector(line: Vec3): (p: Projector)
    ensures p.AxisU() == Vec3(1.0, 0.0, 0.0) && p.AxisV() == Vec3(0.0, 1.0, 0.0)
    ensures p.planeCenter == Vec3(0.0, 0.0, 0.0)
    ensures p.emitterPosition == Vec3(-line.x, line.y, line.z)
  {
    CtDetector.(emitterPosition := CtEmitter(line))
  }

  /** One marker image: a blank grid of size.y rows and size.x columns with a
      marker stamped at every position.  A cell is 255 exactly when some
      position's marker covers it, and 0 otherwise. */
  function MarkerImage(size: ImageSize, pixels: seq<Pixel>, hr: nat, hc: nat): (g: Grid)
    ensures |g| == size.y
    ensures forall i :: 0 <= i < size.y ==> |g[i]| == size.x
    ensures forall i, j :: 0 <= i < size.y && 0 <= j < size.x ==>
      g[i][j] == if exists k :: 0 <= k < |pixels| && Covers(pixels[k], hr, hc, size.y, size.x, i, j) then Marked else 0
  {
    StampAll(Blank(size.y, size.x), pixels, hr, hc)
  }

  /** The tomosynthesis-reconstruction pixels of all source points through one
      projector, when every point projects. */
  function TomoReconPixels(p: Projector, source: seq<Vec3>, size: ImageSize): (pixels: seq<Pixel>)
    requires forall n :: 0 <= n < |source| ==> TomoReconProjection(p, source[n], size).Success?
    ensures |pixels| == |source|
  {
    seq(|source|, n requires 0 <= n < |source| => TomoReconProjection(p, source[n], size).value.pixel)
  }

  /** The CT pixels of all source points through one projector, when every
      point projects. */
  function CtPixels(p: Projector, source: seq<Vec3>, size: ImageSize, spacing: real): (pixels: seq<Pixel>)
    requires forall n :: 0 <= n < |source| ==> CtProjection(p, source[n], size, spacing).Success?
    ensures |pixels| == |source|
  {
    seq(|source|, n requires 0 <= n < |source| => CtProjection(p, source[n], size, spacing).value.pixel)
  }

  /** The projectors of the mask, one per emitter line. */
  function MaskProjectors(size: ImageSize, lines: seq<Vec3>): (ps: seq<Projector>)
    ensures |ps| == |lines| && forall k :: 0 <= k < |lines| ==> ps[k] == MaskProjector(size, lines[k])
  {
    seq(|lines|, k requires 0 <= k < |lines| => MaskProjector(size, lines[k]))
  }

  /** The projectors of the overlay, one per emitter line. */
  function OverlayProjectors(lines: seq<Vec3>): (ps: seq<Projector>)
    ensures |ps| == |lines| && forall k :: 0 <= k < |lines| ==> ps[k] == OverlayProjector(lines[k])
  {
    seq(|lines|, k requires 0 <= k < |lines| => OverlayProjector(lines[k]))
  }

  /** `MakeVesselMask` without the file writing: one 20×24-marker image per
      emitter line.  It succeeds exactly when every source point projects for
      every line, and image k then marks the pixels of line k's projections. */
  method MakeVesselMask(lines: seq<Vec3>, source: seq<Vec3>, size: ImageSize) returns (r: Result<seq<Grid>>)
    ensures r.Success? <==> forall k, n :: 0 <= k < |lines| && 0 <= n < |source| ==>
      TomoReconProjection(MaskProjector(size, lines[k]), source[n], size).Success?
    ensures r.Failure? ==> r.error == DegenerateGeometry
    ensures r.Success? ==> |r.value| == |lines| && forall k :: 0 <= k < |lines| ==>
      r.value[k] == MarkerImage(size, TomoReconPixels(MaskProjector(size, lines[k]), source, size),
                                MaskHalfRows, MaskHalfColumns)
  {
    r := TomoReconMarkers(MaskProjectors(size, lines), source, size);
  }

  /** The projection loop of `MakeVesselMask` for one line: the pixel of
      every source point, in order.  Nothing is reshaped here, so an empty
      source gives no pixels rather than an error. */
  method MaskLinePixels(p: Projector, source: seq<Vec3>, size: ImageSize) returns (r: Result<seq<Pixel>>)
    ensures r.Success? <==> forall n :: 0 <= n < |source| ==> TomoReconProjection(p, source[n], size).Success?
    ensures r.Failure? ==> r.error == DegenerateGeometry
    ensures r.Success? ==> r.value == TomoReconPixels(p, source, size)
  {
    var pixels: seq<Pixel> := [];
    for n := 0 to |source|
      invariant |pixels| == n
      invariant forall n' :: 0 <= n' < n ==> TomoReconProjection(p, source[n'], size).Success?
      invariant forall n' :: 0 <= n' < n ==> pixels[n'] == TomoReconProjection(p, source[n'], size).value.pixel
    {
      var q := TomoReconProjection(p, source[n], size);
      if q.Failure? {
        return Failure(q.error);
      }
      pixels := pixels + [q.value.pixel];
    }
    return Success(pixels);
  }

  /** The loop of `MakeVesselMask` for any projectors. */
  method TomoReconMarkers(ps: seq<Projector>, source: seq<Vec3>, size: ImageSize) returns (r: Result<seq<Grid>>)
    ensures r.Success? <==> forall k, n :: 0 <= k < |ps| && 0 <= n < |source| ==>
      TomoReconProjection(ps[k], source[n], size).Success?
    ensures r.Failure? ==> r.error == DegenerateGeometry
    ensures r.Success? ==> |r.value| == |ps| && forall k :: 0 <= k < |ps| ==>
      r.value[k] == MarkerImage(size, TomoReconPixels(ps[k], source, size), MaskHalfRows, MaskHalfColumns)
  {
    var images: seq<Grid> := [];
    for k := 0 to |ps|
      invariant |images| == k
      invariant forall k', n :: 0 <= k' < k && 0 <= n < |source| ==> TomoReconProjection(ps[k'], source[n], size).Success?
      invariant forall k' :: 0 <= k' < k ==>
        images[k'] == MarkerImage(size, TomoReconPixels(ps[k'], source, size), MaskHalfRows, MaskHalfColumns)
    {
      var pixels := MaskLinePixels(ps[k], source, size);
      if pixels.Failure? {
        return Failure(pixels.error);
      }
      images := images + [MarkerImage(size, pixels.value, MaskHalfRows, MaskHalfColumns)];
    }
    return Success(images);
  }

  /** A pixel coordinate as the overlay computes it in floating point.  With
      a zero spacing the CT conversion divides an integer by 0.0: numpy gives
      an infinity of the integer's sign, or NaN for 0/0, and adding half the
      image size keeps it. */
  datatype Coordinate = Finite(value: real) | PlusInfinity | MinusInfinity | NotANumber

  /** One coordinate of `projected_point`.  A nonzero spacing gives the CT
      pixel position, which converts back to the plane coordinate; a zero
      spacing gives the infinity of u's sign, or NaN when u is zero. */
  function OverlayCoordinate(u: int, n: nat, spacing: real): (c: Coordinate)
    ensures spacing != 0.0 ==> c.Finite? && CtCoordinate(c.value, n, spacing) == u as real
    ensures spacing == 0.0 ==> !c.Finite?
    ensures c == NotANumber <==> spacing == 0.0 && u == 0
    ensures c == PlusInfinity <==> spacing == 0.0 && u > 0
  {
    if spacing != 0.0 then
      CtRoundTrip(u as real, 0.0, n, spacing);
      Finite(CtPixel(u as real, n, spacing).value)
    else if u > 0 then PlusInfinity
    else if u < 0 then MinusInfinity
    else NotANumber
  }

  /** `projected_point` of the overlay: both coordinates of one point. */
  datatype Position = Position(x: Coordinate, y: Coordinate)

  /** The overlay's position of one source point.  It fails exactly when the
      projector does.  With a nonzero spacing it is the CT pixel; with a zero
      spacing a coordinate is NaN exactly when its truncated plane coordinate
      is zero. */
  function OverlayPosition(p: Projector, target: Vec3, size: ImageSize, spacing: real): (r: Result<Position>)
    ensures r.Failure? <==> Denominator(p, target) == 0.0
    ensures r.Failure? ==> r.error == DegenerateGeometry
    ensures r.Success? && spacing != 0.0 ==>
      var px := CtProjection(p, target, size, spacing).value.pixel;
      r.value == Position(Finite(px.x), Finite(px.y))
    ensures r.Success? && spacing == 0.0 ==>
      && !r.value.x.Finite? && !r.value.y.Finite?
      && (r.value.x == NotANumber <==> TransformPoint(p, target).value.u == 0)
      && (r.value.y == NotANumber <==> TransformPoint(p, target).value.v == 0)
  {
    var pr :- TransformPoint(p, target);
    var x, y := OverlayCoordinate(pr.u, size.x, spacing), OverlayCoordinate(pr.v, size.y, spacing);
    if spacing != 0.0 then
      CtRoundTrip(pr.u as real, 0.0, size.x, spacing);
      CtRoundTrip(pr.v as real, 0.0, size.y, spacing);
      Success(Position(x, y))
    else
      Success(Position(x, y))
  }

  /** Floating-point `c >= b`: true for +inf, false for −inf and NaN. */
  predicate AtLeast(c: Coordinate, b: real) {
    match c
    case Finite(v) => v >= b
    case PlusInfinity => true
    case MinusInfinity => false
    case NotANumber => false
  }

  /** Floating-point `c < b`: true for −inf, false for +inf and NaN. */
  predicate Below(c: Coordinate, b: real) {
    match c
    case Finite(v) => v < b
    case PlusInfinity => false
    case MinusInfinity => true
    case NotANumber => false
  }

  /** What the stamping loop does with one position. */
  datatype Mark = Skipped | Drawn(pixel: Pixel) | Unindexable

  /** The window test of the overlay's stamping loop.  A position is skipped
      when x ≥ 1536, x < 0, y ≥ 2048 or y < 0; a position that gets past all
      four tests is drawn when both coordinates are finite, and otherwise
      reaches `int()` of a NaN, which raises. */
  function OverlayMark(q: Position): (m: Mark)
    ensures m.Drawn? <==> q.x.Finite? && q.y.Finite? && InWindow(Pixel(q.x.value, q.y.value))
    ensures m.Drawn? ==> m.pixel == Pixel(q.x.value, q.y.value)
    ensures m.Unindexable? ==> q.x == NotANumber || q.y == NotANumber
    ensures q.x == NotANumber && q.y == NotANumber ==> m.Unindexable?
    ensures q.x == NotANumber && (q.y == PlusInfinity || q.y == MinusInfinity) ==> m.Skipped?
    ensures (q.x == PlusInfinity || q.x == MinusInfinity) ==> m.Skipped?
  {
    if AtLeast(q.x, WindowColumns) then Skipped
    else if Below(q.x, 0.0) then Skipped
    else if AtLeast(q.y, WindowRows) then Skipped
    else if Below(q.y, 0.0) then Skipped
    else if q.x.Finite? && q.y.Finite? then Drawn(Pixel(q.x.value, q.y.value))
    else Unindexable
  }

  /** With a nonzero spacing every position is finite: a point is drawn at
      its CT pixel exactly when that pixel is inside the window, and nothing
      raises. */
  lemma NonzeroSpacingMark(p: Projector, target: Vec3, size: ImageSize, spacing: real)
    requires spacing != 0.0 && Denominator(p, target) != 0.0
    ensures var px := CtProjection(p, target, size, spacing).value.pixel;
      OverlayMark(OverlayPosition(p, target, size, spacing).value) == if InWindow(px) then Drawn(px) else Skipped
  {
  }

  /** With a zero spacing nothing is ever drawn: a point is skipped by the
      window test, unless both of its truncated plane coordinates are zero,
      in which case `int()` of NaN raises. */
  lemma ZeroSpacingMark(p: Projector, target: Vec3, size: ImageSize)
    requires Denominator(p, target) != 0.0
    ensures var pr := TransformPoint(p, target).value;
      OverlayMark(OverlayPosition(p, target, size, 0.0).value) == if pr.u == 0 && pr.v == 0 then Unindexable else Skipped
  {
  }

  /** The pixels the stamping loop draws, in order. */
  function DrawnPixels(qs: seq<Position>): (d: seq<Pixel>)
    ensures forall px :: px in d <==> exists n :: 0 <= n < |qs| && OverlayMark(qs[n]) == Drawn(px)
  {
    if |qs| == 0 then []
    else
      var init, m := qs[..|qs| - 1], OverlayMark(qs[|qs| - 1]);
      assert forall n :: 0 <= n < |init| ==> init[n] == qs[n];
      DrawnPixels(init) + if m.Drawn? then [m.pixel] else []
  }

  /** One more position draws its pixel, if any, after the earlier ones. */
  lemma DrawnPixelsAppend(qs: seq<Position>, n: nat)
    requires n < |qs|
    ensures DrawnPixels(qs[..n + 1]) == DrawnPixels(qs[..n]) + match OverlayMark(qs[n]) case Drawn(px) => [px] case _ => []
  {
    assert qs[..n + 1][..n] == qs[..n];
  }

  /** The stamping loop of the overlay for one line: a blank image, then a
      6×6 marker for every drawn position, in order.  The loop collects the
      drawn positions and stamps them afterwards, which gives the same image
      since a raise discards it anyway.  It fails exactly when some position
      reaches `int()` of a NaN; otherwise the image marks the drawn pixels. */
  method StampOverlay(size: ImageSize, qs: seq<Position>) returns (r: Result<Grid>)
    ensures r.Success? <==> forall n :: 0 <= n < |qs| ==> !OverlayMark(qs[n]).Unindexable?
    ensures r.Failure? ==> r.error == NaNPosition
    ensures r.Success? ==> r.value == MarkerImage(size, DrawnPixels(qs), OverlayHalfRows, OverlayHalfColumns)
  {
    var drawn: seq<Pixel> := [];
    for n := 0 to |qs|
      invariant forall n' :: 0 <= n' < n ==> !OverlayMark(qs[n']).Unindexable?
      invariant drawn == DrawnPixels(qs[..n])
    {
      var m := OverlayMark(qs[n]);
      if m.Unindexable? {
        return Failure(NaNPosition);
      }
      DrawnPixelsAppend(qs, n);
      if m.Drawn? {
        drawn := drawn + [m.pixel];
      }
    }
    assert qs[..|qs|] == qs;
    return Success(MarkerImage(size, drawn, OverlayHalfRows, OverlayHalfColumns));
  }

  /** Every source point of one line gets a position. */
  predicate OverlayProjects(p: Projector, source: seq<Vec3>, size: ImageSize, spacing: real) {
    forall n :: 0 <= n < |source| ==> OverlayPosition(p, source[n], size, spacing).Success?
  }

  /** The positions of all source points through one projector, when every
      point projects. */
  function OverlayPositions(p: Projector, source: seq<Vec3>, size: ImageSize, spacing: real): (qs: seq<Position>)
    requires OverlayProjects(p, source, size, spacing)
    ensures |qs| == |source|
    ensures forall n :: 0 <= n < |source| ==> qs[n] == OverlayPosition(p, source[n], size, spacing).value
  {
    seq(|source|, n requires 0 <= n < |source| => OverlayPosition(p, source[n], size, spacing).value)
  }

  /** One line of the overlay completes: every point projects and no
      position reaches `int()` of a NaN. */
  predicate OverlayLineSucceeds(p: Projector, source: seq<Vec3>, size: ImageSize, spacing: real) {
    && OverlayProjects(p, source, size, spacing)
    && forall n :: 0 <= n < |source| ==> !OverlayMark(OverlayPosition(p, source[n], size, spacing).value).Unindexable?
  }

  /** The error a failing line reports: projection comes first. */
  function OverlayLineError(p: Projector, source: seq<Vec3>, size: ImageSize, spacing: real): Error {
    if OverlayProjects(p, source, size, spacing) then NaNPosition else DegenerateGeometry
  }

  /** The image of a line that completes. */
  function OverlayImage(p: Projector, source: seq<Vec3>, size: ImageSize, spacing: real): (g: Grid)
    requires OverlayProjects(p, source, size, spacing)
    ensures |g| == size.y
  {
    MarkerImage(size, DrawnPixels(OverlayPositions(p, source, size, spacing)), OverlayHalfRows, OverlayHalfColumns)
  }

  /** Both loops of the overlay for one line. */
  method OverlayLine(p: Projector, source: seq<Vec3>, size: ImageSize, spacing: real) returns (r: Result<Grid>)
    ensures r.Success? <==> OverlayLineSucceeds(p, source, size, spacing)
    ensures r.Failure? ==> r.error == OverlayLineError(p, source, size, spacing)
    ensures r.Success? ==> r.value == OverlayImage(p, source, size, spacing)
  {
    var qs: seq<Position> := [];
    for n := 0 to |source|
      invariant |qs| == n
      invariant forall n' :: 0 <= n' < n ==> OverlayPosition(p, source[n'], size, spacing).Success?
      invariant forall n' :: 0 <= n' < n ==> qs[n'] == OverlayPosition(p, source[n'], size, spacing).value
    {
      var q := OverlayPosition(p, source[n], size, spacing);
      if q.Failure? {
        return Failure(q.error);
      }
      qs := qs + [q.value];
    }
    assert qs == OverlayPositions(p, source, size, spacing);
    r := StampOverlay(size, qs);
  }

  /** With a nonzero spacing a line always gets past the stamping loop, and
      its image marks exactly the CT pixels of its points. */
  lemma OverlayWithNonzeroSpacing(p: Projector, source: seq<Vec3>, size: ImageSize, spacing: real)
    requires spacing != 0.0
    requires forall n :: 0 <= n < |source| ==> CtProjection(p, source[n], size, spacing).Success?
    ensures OverlayLineSucceeds(p, source, size, spacing)
    ensures OverlayImage(p, source, size, spacing)
         == MarkerImage(size, CtPixels(p, source, size, spacing), OverlayHalfRows, OverlayHalfColumns)
  {
    NonzeroSpacingMarks(p, source, size, spacing);
    var qs := OverlayPositions(p, source, size, spacing);
    var ct := CtPixels(p, source, size, spacing);
    var d := DrawnPixels(qs);
    forall px | px in d
      ensures px in ct
    {
      var n :| 0 <= n < |qs| && OverlayMark(qs[n]) == Drawn(px);
    }
    forall n | 0 <= n < |ct| && InWindow(ct[n])
      ensures ct[n] in d
    {
      assert OverlayMark(qs[n]) == Drawn(ct[n]);
    }
    SameWindowPixelsSameImage(size, d, ct, OverlayHalfRows, OverlayHalfColumns);
  }

  /** The marks of a line with a nonzero spacing, point by point. */
  lemma NonzeroSpacingMarks(p: Projector, source: seq<Vec3>, size: ImageSize, spacing: real)
    requires spacing != 0.0
    requires forall n :: 0 <= n < |source| ==> CtProjection(p, source[n], size, spacing).Success?
    ensures OverlayProjects(p, source, size, spacing)
    ensures forall n :: 0 <= n < |source| ==>
      var px := CtPixels(p, source, size, spacing)[n];
      OverlayMark(OverlayPositions(p, source, size, spacing)[n]) == if InWindow(px) then Drawn(px) else Skipped
  {
    forall n | 0 <= n < |source|
      ensures OverlayPosition(p, source[n], size, spacing).Success?
    {
    }
    var qs := OverlayPositions(p, source, size, spacing);
    var ct := CtPixels(p, source, size, spacing);
    forall n | 0 <= n < |source|
      ensures OverlayMark(qs[n]) == if InWindow(ct[n]) then Drawn(ct[n]) else Skipped
    {
      NonzeroSpacingMark(p, source[n], size, spacing);
    }
  }

  /** Two position lists that agree on the positions inside the window give
      the same marker image: a marker outside the window draws nothing. */
  lemma SameWindowPixelsSameImage(size: ImageSize, d: seq<Pixel>, ct: seq<Pixel>, hr: nat, hc: nat)
    requires forall px :: px in d ==> px in ct
    requires forall n :: 0 <= n < |ct| && InWindow(ct[n]) ==> ct[n] in d
    ensures MarkerImage(size, d, hr, hc) == MarkerImage(size, ct, hr, hc)
  {
    var a, b := MarkerImage(size, d, hr, hc), MarkerImage(size, ct, hr, hc);
    forall i, j | 0 <= i < size.y && 0 <= j < size.x
      ensures a[i][j] == b[i][j]
    {
      CoveredByEither(d, ct, hr, hc, size.y, size.x, i, j);
      if exists n :: 0 <= n < |ct| && Covers(ct[n], hr, hc, size.y, size.x, i, j) {
        var n :| 0 <= n < |ct| && Covers(ct[n], hr, hc, size.y, size.x, i, j);
        assert ct[n] in d;
        var k :| 0 <= k < |d| && d[k] == ct[n];
      }
    }
    GridsEqual(a, b);
  }

  /** With a zero spacing a line fails exactly when some point's truncated
      plane coordinates are both zero; otherwise its image stays blank. */
  lemma OverlayWithZeroSpacing(p: Projector, source: seq<Vec3>, size: ImageSize)
    requires forall n :: 0 <= n < |source| ==> Denominator(p, source[n]) != 0.0
    ensures OverlayLineSucceeds(p, source, size, 0.0) <==>
      forall n :: 0 <= n < |source| ==> TransformPoint(p, source[n]).value.u != 0 || TransformPoint(p, source[n]).value.v != 0
    ensures OverlayLineSucceeds(p, source, size, 0.0) ==> OverlayImage(p, source, size, 0.0) == Blank(size.y, size.x)
  {
    var qs := OverlayPositions(p, source, size, 0.0);
    forall n | 0 <= n < |source|
      ensures OverlayMark(qs[n]) == if TransformPoint(p, source[n]).value.u == 0 && TransformPoint(p, source[n]).value.v == 0
                                    then Unindexable else Skipped
    {
      ZeroSpacingMark(p, source[n], size);
    }
    var d := DrawnPixels(qs);
    if |d| > 0 {
      assert d[0] in d;
      var n :| 0 <= n < |qs| && OverlayMark(qs[n]) == Drawn(d[0]);
      assert false;
    }
    assert StampAll(Blank(size.y, size.x), d, OverlayHalfRows, OverlayHalfColumns) == Blank(size.y, size.x);
  }

  /** What the overlay loop delivers for projectors ps: success exactly when
      every line completes; otherwise the error of the first line that does
      not; on success one 6×6-marker image per projector. */
  predicate CtMarkersOutcome(ps: seq<Projector>, source: seq<Vec3>, size: ImageSize, spacing: real, r: Result<seq<Grid>>) {
    && (r.Success? <==> forall k :: 0 <= k < |ps| ==> OverlayLineSucceeds(ps[k], source, size, spacing))
    && (r.Failure? ==> exists k ::
          && 0 <= k < |ps|
          && !OverlayLineSucceeds(ps[k], source, size, spacing)
          && r.error == OverlayLineError(ps[k], source, size, spacing)
          && forall k' :: 0 <= k' < k ==> OverlayLineSucceeds(ps[k'], source, size, spacing))
    && (r.Success? ==> |r.value| == |ps| && forall k :: 0 <= k < |ps| ==>
          r.value[k] == OverlayImage(ps[k], source, size, spacing))
  }

  /** `MakeVesselOverlay` without the file writing: as the mask, with the
      registration's detector, the CT conversion and 6×6 markers, and with
      the floating-point behaviour of a zero spacing. */
  method MakeVesselOverlay(lines: seq<Vec3>, source: seq<Vec3>, size: ImageSize, spacing: real)
    returns (r: Result<seq<Grid>>)
    ensures CtMarkersOutcome(OverlayProjectors(lines), source, size, spacing, r)
  {
    r := CtMarkers(OverlayProjectors(lines), source, size, spacing);
  }

  /** The loop of `MakeVesselOverlay` for any projectors. */
  method CtMarkers(ps: seq<Projector>, source: seq<Vec3>, size: ImageSize, spacing: real) returns (r: Result<seq<Grid>>)
    ensures CtMarkersOutcome(ps, source, size, spacing, r)
  {
    var images: seq<Grid> := [];
    for k := 0 to |ps|
      invariant |images| == k
      invariant forall k' :: 0 <= k' < k ==> OverlayLineSucceeds(ps[k'], source, size, spacing)
      invariant forall k' :: 0 <= k' < k ==> images[k'] == OverlayImage(ps[k'], source, size, spacing)
    {
      var image := OverlayLine(ps[k], source, size, spacing);
      if image.Failure? {
        return Failure(image.error);
      }
      images := images + [image.value];
    }
    return Success(images);
  }
}
