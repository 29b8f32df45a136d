/**
 * Two-dimensional pixel and mask data: PIL images and numpy layers alike are
 * `height` rows of `width` integer cells. The operations follow the two libraries:
 * PIL's crop fills outside cells with 0 and its paste clips at the borders, while
 * numpy slices clamp (and count negative indices from the end) and a slice
 * assignment needs shapes that broadcast.
 */
module Grids {
  import opened Wrappers

  datatype Grid = Grid(height: nat, width: nat, cells: seq<seq<int>>)

  predicate WellFormed(g: Grid)
  {
    |g.cells| == g.height && forall i :: 0 <= i < |g.cells| ==> |g.cells[i]| == g.width
  }

  /** The cell at row `i`, column `j`; 0 outside the grid (PIL's fill value). */
  function At(g: Grid, i: int, j: int): int
  {
    if 0 <= i < |g.cells| && 0 <= j < |g.cells[i]| then g.cells[i][j] else 0
  }

  /** The grid of the given size whose cell `(i, j)` is `f(i, j)`. */
  function Build(h: nat, w: nat, f: (int, int) -> int): (g: Grid)
    ensures WellFormed(g) && g.height == h && g.width == w
    ensures forall i, j :: 0 <= i < h && 0 <= j < w ==> At(g, i, j) == f(i, j)
  {
    Grid(h, w, seq(h, i => seq(w, j => f(i, j))))
  }

  /** Two well-formed grids of one size that agree on every cell are equal. */
  lemma {:induction false} Extensionality(a: Grid, b: Grid)
    requires WellFormed(a) && WellFormed(b) && a.height == b.height && a.width == b.width
    requires forall i, j :: 0 <= i < a.height && 0 <= j < a.width ==> At(a, i, j) == At(b, i, j)
    ensures a == b
  {
    forall i | 0 <= i < a.height
      ensures a.cells[i] == b.cells[i]
    {
      assert forall j :: 0 <= j < a.width ==> a.cells[i][j] == At(a, i, j) == At(b, i, j) == b.cells[i][j];
    }
  }

  /** A grid of zeros (`np.zeros`, `Image.new`). */
  function Zeros(h: nat, w: nat): (g: Grid)
    ensures WellFormed(g) && g.height == h && g.width == w
    ensures forall i, j :: At(g, i, j) == 0
  {
    Build(h, w, (i, j) => 0)
  }

  /** Whether every cell is 0 and there is at least one cell: numpy's `np.unique(a)` being `[0]`. */
  predicate IsBlank(g: Grid)
  {
    g.height > 0 && g.width > 0 && forall i, j :: 0 <= i < g.height && 0 <= j < g.width ==> At(g, i, j) == 0
  }

  // ---------------------------------------------------------------------------
  // numpy slicing

  /** A Python slice bound `i` on a sequence of length `n` (step 1). */
  function PyIndex(i: int, n: nat): (k: nat)
    ensures k <= n
    ensures 0 <= i <= n ==> k == i
  {
    if i < 0 then (if i + n < 0 then 0 else i + n) else if i > n then n else i
  }

  /** `max(0, b - a)` for slice bounds. */
  function SpanLen(a: nat, b: nat): nat { if b > a then b - a else 0 }

  /** numpy's `g[r0:r1, c0:c1]`. */
  function Slice(g: Grid, r0: int, r1: int, c0: int, c1: int): (s: Grid)
    ensures WellFormed(s)
    ensures s.height == SpanLen(PyIndex(r0, g.height), PyIndex(r1, g.height))
    ensures s.width == SpanLen(PyIndex(c0, g.width), PyIndex(c1, g.width))
    ensures forall i, j :: 0 <= i < s.height && 0 <= j < s.width ==>
      At(s, i, j) == At(g, PyIndex(r0, g.height) + i, PyIndex(c0, g.width) + j)
  {
    var a, b := PyIndex(r0, g.height), PyIndex(r1, g.height);
    var c, d := PyIndex(c0, g.width), PyIndex(c1, g.width);
    Build(SpanLen(a, b), SpanLen(c, d), (i, j) => At(g, a + i, c + j))
  }

  /** Whether a source of shape `(sh, sw)` broadcasts onto a target of shape `(h, w)`. */
  predicate Broadcasts(sh: nat, sw: nat, h: nat, w: nat)
  {
    (sh == h || sh == 1) && (sw == w || sw == 1)
  }

  /**
   * numpy's `dst[r0:r1, c0:c1] = src`: the slice is overwritten with `src` (broadcast along a
   * dimension of size 1), everything else stays; None when the shapes do not broadcast
   * (numpy raises).
   */
  function AssignSlice(dst: Grid, r0: int, r1: int, c0: int, c1: int, src: Grid): (r: Option<Grid>)
    ensures r.Some? <==> Broadcasts(src.height, src.width,
      SpanLen(PyIndex(r0, dst.height), PyIndex(r1, dst.height)),
      SpanLen(PyIndex(c0, dst.width), PyIndex(c1, dst.width)))
    ensures r.Some? ==> WellFormed(r.value) && r.value.height == dst.height && r.value.width == dst.width
  {
    var a, b := PyIndex(r0, dst.height), PyIndex(r1, dst.height);
    var c, d := PyIndex(c0, dst.width), PyIndex(c1, dst.width);
    var h, w := SpanLen(a, b), SpanLen(c, d);
    if !Broadcasts(src.height, src.width, h, w) then None
    else
      Some(Build(dst.height, dst.width, (i, j) =>
        if a <= i < a + h && c <= j < c + w then
          At(src, if src.height == 1 then 0 else i - a, if src.width == 1 then 0 else j - c)
        else At(dst, i, j)))
  }

  /**
   * `r` is `dst` with the `rows` by `cols` block at `(y, x)` replaced by the top-left cells of `src`:
   * the same shape, and every other cell as it was.
   */
  predicate Overwritten(r: Grid, dst: Grid, src: Grid, y: int, x: int, rows: int, cols: int)
  {
    r.height == dst.height && r.width == dst.width &&
    forall i, j :: 0 <= i < dst.height && 0 <= j < dst.width ==>
      At(r, i, j) == if y <= i < y + rows && x <= j < x + cols then At(src, i - y, j - x) else At(dst, i, j)
  }

  /** With matching shapes, the slice holds the source and the rest holds what was there. */
  lemma AssignSliceCells(dst: Grid, y: nat, x: nat, src: Grid)
    requires y + src.height <= dst.height && x + src.width <= dst.width
    ensures AssignSlice(dst, y, y + src.height, x, x + src.width, src).Some?
    ensures Overwritten(AssignSlice(dst, y, y + src.height, x, x + src.width, src).value, dst, src, y, x, src.height, src.width)
  {
  }

  /**
   * A slice that runs past the bottom or right edge is clamped to it; a source of the clamped shape
   * fills exactly the part of the slice inside the grid, and the rest stays.
   */
  lemma AssignSliceClamped(dst: Grid, y: nat, x: nat, h: nat, w: nat, src: Grid)
    requires y <= dst.height && x <= dst.width
    requires src.height == (if y + h <= dst.height then h else dst.height - y)
    requires src.width == (if x + w <= dst.width then w else dst.width - x)
    ensures AssignSlice(dst, y, y + h, x, x + w, src).Some?
    ensures Overwritten(AssignSlice(dst, y, y + h, x, x + w, src).value, dst, src, y, x, src.height, src.width)
  {
    assert PyIndex(y + h, dst.height) == y + src.height;
    assert PyIndex(x + w, dst.width) == x + src.width;
  }

  // ---------------------------------------------------------------------------
  // PIL crop and paste

  /** PIL's `img.crop((left, upper, right, lower))`: cells outside the image read 0; None when the box is inverted. */
  function PilCrop(g: Grid, left: int, upper: int, right: int, lower: int): (r: Option<Grid>)
    ensures r.Some? <==> left <= right && upper <= lower
    ensures r.Some? ==> WellFormed(r.value) && r.value.width == right - left && r.value.height == lower - upper
    ensures r.Some? ==> forall i, j :: 0 <= i < r.value.height && 0 <= j < r.value.width ==>
      At(r.value, i, j) == At(g, upper + i, left + j)
  {
    if right < left || lower < upper then None
    else Some(Build(lower - upper, right - left, (i, j) => At(g, upper + i, left + j)))
  }

  /** PIL's `dst.paste(src, (x, y))`: the part of `src` that falls inside `dst` replaces those cells. */
  function Paste(dst: Grid, src: Grid, x: int, y: int): (r: Grid)
    ensures WellFormed(r) && r.height == dst.height && r.width == dst.width
    ensures forall i, j :: 0 <= i < dst.height && 0 <= j < dst.width ==>
      At(r, i, j) == if y <= i < y + src.height && x <= j < x + src.width then At(src, i - y, j - x) else At(dst, i, j)
  {
    Build(dst.height, dst.width, (i, j) =>
      if y <= i < y + src.height && x <= j < x + src.width then At(src, i - y, j - x) else At(dst, i, j))
  }

  // ---------------------------------------------------------------------------
  // pad_image and crop_image

  /** The size `pad_image`/`crop_image` aim for, and whether it differs from the current one. */
  datatype Target = Target(width: int, height: int, change: bool)

  function TargetSize(g: Grid, w: Option<int>, h: Option<int>): (t: Target)
    ensures t.change <==> (w.Some? && w.value != g.width) || (h.Some? && h.value != g.height)
    ensures t.width == w.GetOr(g.width) && t.height == h.GetOr(g.height)
  {
    match (w, h)
    case (Some(tw), Some(th)) => Target(tw, th, g.width != tw || g.height != th)
    case (Some(tw), None) => Target(tw, g.height, g.width != tw)
    case (None, Some(th)) => Target(g.width, th, g.height != th)
    case (None, None) => Target(g.width, g.height, false)
  }

  /**
   * `pad_image` on a PIL image: a new blank image of the target size with the original pasted at
   * the top-left corner (None when a target dimension is negative: PIL raises).
   */
  function PadImage(g: Grid, w: Option<int>, h: Option<int>): (r: Option<Grid>)
    requires WellFormed(g)
    ensures w.None? && h.None? ==> r == Some(g)
    ensures r.None? <==> TargetSize(g, w, h).change && (w.GetOr(g.width) < 0 || h.GetOr(g.height) < 0)
    ensures r.Some? ==> WellFormed(r.value) && r.value.width == w.GetOr(g.width) && r.value.height == h.GetOr(g.height)
    ensures r.Some? ==> forall i, j :: 0 <= i < r.value.height && 0 <= j < r.value.width ==>
      At(r.value, i, j) == if i < g.height && j < g.width then At(g, i, j) else 0
  {
    var t := TargetSize(g, w, h);
    if !t.change then Some(g)
    else if t.width < 0 || t.height < 0 then None
    else Some(Paste(Zeros(t.height, t.width), g, 0, 0))
  }

  /**
   * `pad_image` on a numpy layer: `np.zeros` of the target shape, then `result[0:h, 0:w] = layer`;
   * None when a target dimension is negative or the layer does not fit the slice.
   */
  function PadLayer(g: Grid, w: Option<int>, h: Option<int>): (r: Option<Grid>)
    requires WellFormed(g)
    ensures w.None? && h.None? ==> r == Some(g)
    ensures r.Some? ==> WellFormed(r.value) && r.value.width == w.GetOr(g.width) && r.value.height == h.GetOr(g.height)
  {
    var t := TargetSize(g, w, h);
    if !t.change then Some(g)
    else if t.width < 0 || t.height < 0 then None
    else AssignSlice(Zeros(t.height, t.width), 0, g.height, 0, g.width, g)
  }

  /** `crop_image` on a PIL image: `img.crop((0, 0, w, h))`. */
  function CropImage(g: Grid, w: Option<int>, h: Option<int>): (r: Option<Grid>)
    requires WellFormed(g)
    ensures w.None? && h.None? ==> r == Some(g)
    ensures r.Some? ==> WellFormed(r.value) && r.value.width == w.GetOr(g.width) && r.value.height == h.GetOr(g.height)
    ensures r.Some? ==> forall i, j :: 0 <= i < r.value.height && 0 <= j < r.value.width ==> At(r.value, i, j) == At(g, i, j)
  {
    var t := TargetSize(g, w, h);
    if !t.change then Some(g) else PilCrop(g, 0, 0, t.width, t.height)
  }

  /** `crop_image` on a numpy layer: `layer[0:h, 0:w]`. */
  function CropLayer(g: Grid, w: Option<int>, h: Option<int>): (r: Grid)
    requires WellFormed(g)
    ensures w.None? && h.None? ==> r == g
    ensures WellFormed(r)
    ensures forall i, j :: 0 <= i < r.height && 0 <= j < r.width ==> At(r, i, j) == At(g, i, j)
  {
    var t := TargetSize(g, w, h);
    if !t.change then g else Slice(g, 0, t.height, 0, t.width)
  }

  /** Cropping a layer to a size within its own keeps exactly that many rows and columns. */
  lemma CropLayerSize(g: Grid, w: nat, h: nat)
    requires WellFormed(g) && w <= g.width && h <= g.height
    ensures CropLayer(g, Some(w), Some(h)).width == w && CropLayer(g, Some(w), Some(h)).height == h
  {
    if TargetSize(g, Some(w), Some(h)).change {
      assert CropLayer(g, Some(w), Some(h)) == Slice(g, 0, h, 0, w);
    }
  }

  /**
   * A layer cropped to the part of a slice inside the grid, then assigned to that slice, fills
   * exactly that part with its own cells, and the rest stays.
   */
  lemma AssignCroppedClamped(dst: Grid, y: nat, x: nat, h: nat, w: nat, g: Grid, cw: nat, ch: nat)
    requires WellFormed(g) && cw <= g.width && ch <= g.height && y <= dst.height && x <= dst.width
    requires ch == (if y + h <= dst.height then h else dst.height - y)
    requires cw == (if x + w <= dst.width then w else dst.width - x)
    ensures AssignSlice(dst, y, y + h, x, x + w, CropLayer(g, Some(cw), Some(ch))).Some?
    ensures Overwritten(AssignSlice(dst, y, y + h, x, x + w, CropLayer(g, Some(cw), Some(ch))).value, dst, g, y, x, ch, cw)
  {
    CropLayerSize(g, cw, ch);
    AssignSliceClamped(dst, y, x, h, w, CropLayer(g, Some(cw), Some(ch)));
  }

  /** Padding a layer to at least its own size always succeeds and only adds zeros at the right and bottom. */
  lemma PadLayerGrows(g: Grid, w: int, h: int)
    requires WellFormed(g) && w >= g.width && h >= g.height
    ensures PadLayer(g, Some(w), Some(h)).Some?
    ensures var p := PadLayer(g, Some(w), Some(h)).value;
      forall i, j :: 0 <= i < h && 0 <= j < w ==> At(p, i, j) == if i < g.height && j < g.width then At(g, i, j) else 0
  {
    var t := TargetSize(g, Some(w), Some(h));
    if t.change {
      AssignSliceCells(Zeros(h, w), 0, 0, g);
    }
  }

  /** Cropping an image padded to at least its size back to that size restores it. */
  lemma CropPadImage(g: Grid, w: int, h: int)
    requires WellFormed(g) && w >= g.width && h >= g.height
    ensures PadImage(g, Some(w), Some(h)).Some?
    ensures CropImage(PadImage(g, Some(w), Some(h)).value, Some(g.width), Some(g.height)) == Some(g)
  {
    var p := PadImage(g, Some(w), Some(h)).value;
    var c := CropImage(p, Some(g.width), Some(g.height)).value;
    Extensionality(c, g);
  }

  /** Cropping a layer padded to at least its size back to that size restores it. */
  lemma CropPadLayer(g: Grid, w: int, h: int)
    requires WellFormed(g) && w >= g.width && h >= g.height
    ensures PadLayer(g, Some(w), Some(h)).Some?
    ensures CropLayer(PadLayer(g, Some(w), Some(h)).value, Some(g.width), Some(g.height)) == g
  {
    PadLayerGrows(g, w, h);
    var p := PadLayer(g, Some(w), Some(h)).value;
    var c := CropLayer(p, Some(g.width), Some(g.height));
    Extensionality(c, g);
  }
}
