/**
 * Cutting a record into sub-records, one per region: the image is cropped (the region
 * clamped to the image), optionally padded, and the annotation is cut to the region —
 * a classification label is copied, located objects are fitted into the region, and
 * segmentation layers are sliced.
 */
module Extraction {
  import opened Wrappers
  import opened Text
  import opened Geometry
  import opened Grids
  import opened Records
  import opened Regions

  // ---------------------------------------------------------------------------
  // fit_located_object

  /** The polygon a shapely result contributes: itself, or the first polygon of a collection. */
  function PolygonOf(g: Geom): (p: Option<seq<Point>>)
    ensures g.Poly? ==> p == Some(g.ring)
    ensures g.Other? || g.Raised? ==> p.None?
  {
    match g
    case Poly(r) => Some(r)
    case Multi(ps) => FirstPoly(ps)
    case Collection(ps) => FirstPoly(ps)
    case _ => None
  }

  /** The metadata of a fitted object: the original one, plus the region tags for a region index above -1. */
  function FittedMeta(index: int, region: Box, meta: Meta): (m: Meta)
    ensures index > -1 ==> m == meta["region_index" := Int(index)]["region_xywh" := Text(FormatRegion(region))]
    ensures index <= -1 ==> m == meta
  {
    if index > -1 then meta["region_index" := Int(index)]["region_xywh" := Text(FormatRegion(region))] else meta
  }

  /** Whether a point lies in the rectangle `(x, y, w, h)` shifted by `(dx, dy)`. */
  predicate InShifted(b: Box, dx: int, dy: int, px: int, py: int)
  {
    dx + b.x <= px <= dx + b.x + b.width - 1 && dy + b.y <= py <= dy + b.y + b.height - 1
  }

  /**
   * `fit_located_object`: the object's rectangle cut to the region, in region coordinates;
   * None when the two do not meet (the bounds of an empty intersection are not numbers and
   * the conversion to int raises).
   */
  function FitLocatedObject(index: int, region: Box, obj: Obj, shapes: Shapes): (r: Option<Obj>)
    ensures r.Some? <==> exists px, py :: Covers(obj.box, px, py) && Covers(region, px, py)
    ensures r.Some? ==> r.value.box.width >= 1 && r.value.box.height >= 1
    ensures r.Some? ==> forall px, py ::
      (Covers(obj.box, px, py) && Covers(region, px, py)) <==> InShifted(r.value.box, region.x, region.y, px, py)
    ensures r.Some? ==> r.value.meta == FittedMeta(index, region, obj.meta)
    ensures r.Some? ==> r.value.polygon == FittedPolygon(region, obj, shapes)
  {
    match Intersection(obj.box, region)
    case None => None
    case Some(c) =>
      var box := Box(c.x0 - region.x, c.y0 - region.y, c.x1 - c.x0 + 1, c.y1 - c.y0 + 1);
      Some(Obj(box, FittedPolygon(region, obj, shapes), FittedMeta(index, region, obj.meta)))
  }

  /**
   * The polygon of a fitted object: the polygon the library returns for the intersection of the
   * object's ring with the region's ring, in region coordinates; none when it returns no polygon
   * or raises.
   */
  function FittedPolygon(region: Box, obj: Obj, shapes: Shapes): Option<seq<Point>>
  {
    match PolygonOf(shapes.intersect(Ring(obj), Corners(region)))
    case Some(q) => Some(Translate(q, -region.x, -region.y))
    case None => None
  }

  /** An object lying inside the region is only moved into region coordinates. */
  lemma FitInside(index: int, region: Box, obj: Obj, shapes: Shapes)
    requires obj.box.width >= 1 && obj.box.height >= 1 && region.width >= 1 && region.height >= 1
    requires region.x <= obj.box.x && obj.box.x + obj.box.width <= region.x + region.width
    requires region.y <= obj.box.y && obj.box.y + obj.box.height <= region.y + region.height
    ensures FitLocatedObject(index, region, obj, shapes).Some?
    ensures FitLocatedObject(index, region, obj, shapes).value.box ==
      Box(obj.box.x - region.x, obj.box.y - region.y, obj.box.width, obj.box.height)
  {
    assert Covers(obj.box, obj.box.x, obj.box.y) && Covers(region, obj.box.x, obj.box.y);
  }

  // ---------------------------------------------------------------------------
  // selecting the objects of a tile

  /** Whether an object with this overlap ratio goes into the tile. */
  predicate Keep(ratio: real, includePartial: bool)
  {
    (ratio > 0.0 && includePartial) || ratio >= 1.0
  }

  /** The fitted objects of the kept ones, in order; None when a fit fails. */
  function SelectObjects(objs: seq<Obj>, index: nat, region: Box, includePartial: bool, shapes: Shapes): Option<seq<Obj>>
  {
    if |objs| == 0 then Some([])
    else
      match SelectObjects(objs[..|objs| - 1], index, region, includePartial, shapes)
      case None => None
      case Some(kept) =>
        var o := objs[|objs| - 1];
        if Keep(shapes.overlapRatio(region, o.box), includePartial) then
          match FitLocatedObject(index, region, o, shapes)
          case None => None
          case Some(f) => Some(kept + [f])
        else Some(kept)
  }

  /**
   * Every selected object is the fit of a kept input object, in input order, and every kept input
   * object is selected.
   */
  lemma {:induction false} SelectObjectsSpec(objs: seq<Obj>, index: nat, region: Box, includePartial: bool, shapes: Shapes)
    requires SelectObjects(objs, index, region, includePartial, shapes).Some?
    ensures var kept := SelectObjects(objs, index, region, includePartial, shapes).value;
      |kept| == |Kept(objs, region, includePartial, shapes)| &&
      forall k :: 0 <= k < |kept| ==>
        Some(kept[k]) == FitLocatedObject(index, region, Kept(objs, region, includePartial, shapes)[k], shapes)
    decreases |objs|
  {
    if |objs| > 0 {
      var init := objs[..|objs| - 1];
      SelectObjectsSpec(init, index, region, includePartial, shapes);
    }
  }

  /** The input objects that go into the tile, in order. */
  function Kept(objs: seq<Obj>, region: Box, includePartial: bool, shapes: Shapes): (ks: seq<Obj>)
    ensures forall o :: o in ks <==> o in objs && Keep(shapes.overlapRatio(region, o.box), includePartial)
  {
    if |objs| == 0 then []
    else
      var ks := Kept(objs[..|objs| - 1], region, includePartial, shapes);
      var o := objs[|objs| - 1];
      assert forall p :: p in objs <==> p in objs[..|objs| - 1] || p == o by {
        assert objs == objs[..|objs| - 1] + [o];
      }
      if Keep(shapes.overlapRatio(region, o.box), includePartial) then ks + [o] else ks
  }

  /** The loop of `process_image` over a record's objects. */
  method SelectObjectsLoop(objs: seq<Obj>, index: nat, region: Box, includePartial: bool, shapes: Shapes)
    returns (r: Option<seq<Obj>>)
    ensures r == SelectObjects(objs, index, region, includePartial, shapes)
  {
    var kept: seq<Obj> := [];
    var i := 0;
    while i < |objs|
      invariant 0 <= i <= |objs|
      invariant SelectObjects(objs[..i], index, region, includePartial, shapes) == Some(kept)
    {
      assert objs[..i + 1][..i] == objs[..i];
      var ratio := shapes.overlapRatio(region, objs[i].box);
      if Keep(ratio, includePartial) {
        var f := FitLocatedObject(index, region, objs[i], shapes);
        if f.None? {
          SelectPrefixFails(objs, i + 1, index, region, includePartial, shapes);
          return None;
        }
        kept := kept + [f.value];
      }
      i := i + 1;
    }
    assert objs[..i] == objs;
    return Some(kept);
  }

  lemma {:induction false} SelectPrefixFails(objs: seq<Obj>, n: nat, index: nat, region: Box, includePartial: bool, shapes: Shapes)
    requires n <= |objs| && SelectObjects(objs[..n], index, region, includePartial, shapes).None?
    ensures SelectObjects(objs, index, region, includePartial, shapes).None?
    decreases |objs| - n
  {
    if n < |objs| {
      assert objs[..n + 1][..n] == objs[..n];
      SelectPrefixFails(objs, n + 1, index, region, includePartial, shapes);
    } else {
      assert objs[..n] == objs;
    }
  }

  // ---------------------------------------------------------------------------
  // fit_layers

  /** numpy's `layer[y:y+h, x:x+w]` for a region. */
  function RegionSlice(g: Grid, region: Box): (s: Grid)
    ensures WellFormed(s)
  {
    Slice(g, region.y, region.y + region.height, region.x, region.x + region.width)
  }

  /** The sliced layers, in order, without the blank ones when empty layers are suppressed. */
  function CropLayers(layers: seq<Layer>, region: Box, suppressEmpty: bool): seq<Layer>
  {
    if |layers| == 0 then []
    else
      var rest := CropLayers(layers[..|layers| - 1], region, suppressEmpty);
      var l := layers[|layers| - 1];
      var s := RegionSlice(l.mask, region);
      if suppressEmpty && IsBlank(s) then rest else rest + [Layer(l.key, s)]
  }

  /** The layer is the slice of one of the given layers, under the same key. */
  predicate SlicedFrom(l: Layer, layers: seq<Layer>, region: Box)
  {
    exists j :: 0 <= j < |layers| && layers[j].key == l.key && l.mask == RegionSlice(layers[j].mask, region)
  }

  /** Every layer of the result is the slice of an input layer with the same key. */
  lemma {:induction false} CropLayersFrom(layers: seq<Layer>, region: Box, suppressEmpty: bool)
    ensures forall k :: 0 <= k < |CropLayers(layers, region, suppressEmpty)| ==>
      SlicedFrom(CropLayers(layers, region, suppressEmpty)[k], layers, region)
    decreases |layers|
  {
    if |layers| > 0 {
      var init := layers[..|layers| - 1];
      CropLayersFrom(init, region, suppressEmpty);
      var rest := CropLayers(init, region, suppressEmpty);
      var r := CropLayers(layers, region, suppressEmpty);
      var last := Layer(layers[|layers| - 1].key, RegionSlice(layers[|layers| - 1].mask, region));
      assert r == rest || r == rest + [last];
      forall k | 0 <= k < |r|
        ensures SlicedFrom(r[k], layers, region)
      {
        if k < |rest| {
          assert r[k] == rest[k];
          assert SlicedFrom(rest[k], init, region);
          var j :| 0 <= j < |init| && init[j].key == rest[k].key && rest[k].mask == RegionSlice(init[j].mask, region);
          assert layers[j] == init[j];
        } else {
          assert r[k] == last;
          assert layers[|layers| - 1].key == r[k].key;
        }
      }
    }
  }

  /** With suppression no blank layer survives; every layer of the result is well formed. */
  lemma {:induction false} CropLayersNotBlank(layers: seq<Layer>, region: Box, suppressEmpty: bool)
    ensures forall l :: l in CropLayers(layers, region, suppressEmpty) ==>
      WellFormed(l.mask) && (suppressEmpty ==> !IsBlank(l.mask))
    decreases |layers|
  {
    if |layers| > 0 {
      var init := layers[..|layers| - 1];
      CropLayersNotBlank(init, region, suppressEmpty);
      var rest := CropLayers(init, region, suppressEmpty);
      var sl := RegionSlice(layers[|layers| - 1].mask, region);
      if !(suppressEmpty && IsBlank(sl)) {
        var r := rest + [Layer(layers[|layers| - 1].key, sl)];
        assert CropLayers(layers, region, suppressEmpty) == r;
        forall l | l in r
          ensures WellFormed(l.mask) && (suppressEmpty ==> !IsBlank(l.mask))
        {
          if l in rest {
          }
        }
      }
    }
  }

  /** Without suppression every layer is kept and sliced, in order. */
  lemma {:induction false} CropLayersAll(layers: seq<Layer>, region: Box)
    ensures var r := CropLayers(layers, region, false);
      |r| == |layers| && forall k :: 0 <= k < |r| ==> r[k] == Layer(layers[k].key, RegionSlice(layers[k].mask, region))
    decreases |layers|
  {
    if |layers| > 0 {
      CropLayersAll(layers[..|layers| - 1], region);
    }
  }

  /** With suppression exactly the layers whose slice is not blank are kept, in order. */
  lemma {:induction false} CropLayersKeepsNonBlank(layers: seq<Layer>, region: Box, j: nat)
    requires j < |layers| && !IsBlank(RegionSlice(layers[j].mask, region))
    ensures Layer(layers[j].key, RegionSlice(layers[j].mask, region)) in CropLayers(layers, region, true)
    decreases |layers|
  {
    if j < |layers| - 1 {
      assert layers[..|layers| - 1][j] == layers[j];
      CropLayersKeepsNonBlank(layers[..|layers| - 1], region, j);
    }
  }

  /** `fit_layers`: the labels are copied, the layers sliced to the region. */
  method FitLayers(region: Box, seg: SegAnn, suppressEmpty: bool) returns (r: SegAnn)
    ensures r == SegAnn(seg.labels, CropLayers(seg.layers, region, suppressEmpty))
  {
    var layers: seq<Layer> := [];
    var i := 0;
    while i < |seg.layers|
      invariant 0 <= i <= |seg.layers|
      invariant layers == CropLayers(seg.layers[..i], region, suppressEmpty)
    {
      assert seg.layers[..i + 1][..i] == seg.layers[..i];
      var layer := RegionSlice(seg.layers[i].mask, region);
      var add := true;
      if suppressEmpty {
        if IsBlank(layer) {
          add := false;
        }
      }
      if add {
        layers := layers + [Layer(seg.layers[i].key, layer)];
      }
      i := i + 1;
    }
    assert seg.layers[..i] == seg.layers;
    return SegAnn(seg.labels, layers);
  }

  /** Padding every layer of a tile; None when one cannot be padded. */
  function PadLayers(layers: seq<Layer>, padWidth: Option<int>, padHeight: Option<int>): (r: Option<seq<Layer>>)
    requires forall l :: l in layers ==> WellFormed(l.mask)
    ensures r.Some? ==> |r.value| == |layers| && forall k :: 0 <= k < |layers| ==>
      r.value[k].key == layers[k].key && Some(r.value[k].mask) == PadLayer(layers[k].mask, padWidth, padHeight)
  {
    if |layers| == 0 then Some([])
    else
      match (PadLayers(layers[..|layers| - 1], padWidth, padHeight), PadLayer(layers[|layers| - 1].mask, padWidth, padHeight))
      case (Some(ps), Some(m)) => Some(ps + [Layer(layers[|layers| - 1].key, m)])
      case _ => None
  }

  // ---------------------------------------------------------------------------
  // process_image

  /** One sub-record: its region, the new record, and the size of the crop before padding. */
  datatype Tile = Tile(region: Box, rec: Record, origDims: Box)

  /** What one region contributes: a tile, nothing, a stop for an unhandled kind, or an error. */
  datatype Step = Emit(tile: Tile) | Drop | Stop | Fail

  /** The result of `process_image`: the tiles, None for an unhandled kind, or an error. */
  datatype Extraction = Tiles(tiles: seq<Tile>) | Unhandled | Failed

  /** The settings `process_image` is called with. */
  datatype Settings = Settings(suffix: string, suppressEmpty: bool, includePartial: bool,
                               padWidth: Option<int>, padHeight: Option<int>)

  /**
   * `extract_regions`: the sub-records of a record for the given regions and settings, in order,
   * or None when the record is not processed. It is not part of this model and is passed in.
   */
  type ExtractRegions = (Record, seq<Box>, seq<XYXY>, Settings) -> Option<seq<Record>>

  /** The crop rectangle of a region: the far corner clamped to the image. */
  function ClampedCorners(c: XYXY, width: nat, height: nat): (k: XYXY)
    ensures k.x0 == c.x0 && k.y0 == c.y0
    ensures k.x1 == Min(c.x1, width - 1) && k.y1 == Min(c.y1, height - 1)
  {
    XYXY(c.x0, c.y0, if c.x1 >= width then width - 1 else c.x1, if c.y1 >= height then height - 1 else c.y1)
  }

  /** A cropped and padded tile image with the size of the crop before padding. */
  datatype Crop = Crop(image: Grid, origDims: Box)

  /** The pixels of a region: the crop rectangle with its far corner clamped, padded; None when either step fails. */
  function RegionImage(image: Grid, c: XYXY, padWidth: Option<int>, padHeight: Option<int>): (r: Option<Crop>)
    ensures r.Some? ==> WellFormed(r.value.image)
  {
    var k := ClampedCorners(c, image.width, image.height);
    match PilCrop(image, k.x0, k.y0, k.x1 + 1, k.y1 + 1)
    case None => None
    case Some(sub) =>
      match PadImage(sub, padWidth, padHeight)
      case None => None
      case Some(img) => Some(Crop(img, Box(0, 0, sub.width, sub.height)))
  }

  /**
   * `orig_dims` is the size of the clamped crop rectangle, and the tile's top-left block (as
   * far as padding or cropping to the target size keeps it) holds the image's pixels from the
   * rectangle's top-left corner.
   */
  lemma RegionImagePixels(image: Grid, c: XYXY, padWidth: Option<int>, padHeight: Option<int>)
    ensures var k := ClampedCorners(c, image.width, image.height);
      var r := RegionImage(image, c, padWidth, padHeight);
      r.Some? ==>
        r.value.origDims == Box(0, 0, k.x1 + 1 - k.x0, k.y1 + 1 - k.y0) &&
        forall i, j ::
          0 <= i < r.value.origDims.height && 0 <= j < r.value.origDims.width && i < r.value.image.height && j < r.value.image.width ==>
          At(r.value.image, i, j) == At(image, k.y0 + i, k.x0 + j)
  {
    var k := ClampedCorners(c, image.width, image.height);
    var sub := PilCrop(image, k.x0, k.y0, k.x1 + 1, k.y1 + 1);
    if sub.Some? {
      var img := PadImage(sub.value, padWidth, padHeight);
      if img.Some? {
        forall i, j | 0 <= i < sub.value.height && 0 <= j < sub.value.width && i < img.value.height && j < img.value.width
          ensures At(img.value, i, j) == At(image, k.y0 + i, k.x0 + j)
        {
          assert At(img.value, i, j) == At(sub.value, i, j);
        }
      }
    }
  }

  /** Without padding the crop fails only for an inverted rectangle, and the tile is exactly the crop's size. */
  lemma RegionImageUnpadded(image: Grid, c: XYXY)
    ensures var k := ClampedCorners(c, image.width, image.height);
      var r := RegionImage(image, c, None, None);
      (r.None? <==> k.x1 + 1 < k.x0 || k.y1 + 1 < k.y0) &&
      (r.Some? ==> r.value.image.width == r.value.origDims.width && r.value.image.height == r.value.origDims.height)
  {
    var k := ClampedCorners(c, image.width, image.height);
    var sub := PilCrop(image, k.x0, k.y0, k.x1 + 1, k.y1 + 1);
    if sub.Some? {
      assert PadImage(sub.value, None, None) == Some(sub.value);
    }
  }

  /** The tile for the region at `index` before its annotation is fitted: the region's pixels, renamed. */
  function CropTile(rec: Record, lobjs: seq<Box>, xyxy: seq<XYXY>, index: nat, s: Settings): (t: Option<Tile>)
    requires |lobjs| == |xyxy| && index < |xyxy|
    ensures t.Some? <==> RegionImage(rec.image, xyxy[index], s.padWidth, s.padHeight).Some?
    ensures t.Some? ==> t.value.region == lobjs[index] && t.value.rec.ann == rec.ann
    ensures t.Some? ==> t.value.rec.name == RegionFilename(rec.name, lobjs, xyxy, index, s.suffix)
    ensures t.Some? ==> t.value.rec.format == rec.format && t.value.rec.mode == rec.mode && t.value.rec.meta == rec.meta
  {
    match RegionImage(rec.image, xyxy[index], s.padWidth, s.padHeight)
    case None => None
    case Some(crop) =>
      var name := RegionFilename(rec.name, lobjs, xyxy, index, s.suffix);
      Some(Tile(lobjs[index], Record(name, rec.format, rec.mode, rec.meta, crop.image, rec.ann), crop.origDims))
  }

  /** The tile for the region at `index`: crop, pad, name, then the annotation by kind. */
  function TileFor(rec: Record, lobjs: seq<Box>, xyxy: seq<XYXY>, index: nat, s: Settings, shapes: Shapes): Step
    requires |lobjs| == |xyxy| && index < |xyxy|
  {
    match CropTile(rec, lobjs, xyxy, index, s)
    case None => Fail
    case Some(base) => KindStep(rec.ann, base, index, s, shapes)
  }

  /** The tile with another annotation. */
  function WithAnn(t: Tile, ann: Annotation): Tile
  {
    t.(rec := t.rec.(ann := ann))
  }

  /** The annotation of a tile, by the record's kind. */
  function KindStep(ann: Annotation, base: Tile, index: nat, s: Settings, shapes: Shapes): Step
  {
    match ann
    case Classification(l) => if !s.suppressEmpty || l.Some? then Emit(base) else Drop
    case Detection(objs) => DetectionStep(objs, base, index, s, shapes)
    case Segmentation(seg) => SegmentationStep(seg, base, s)
    case Unsupported => Stop
  }

  function DetectionStep(objs: Option<seq<Obj>>, base: Tile, index: nat, s: Settings, shapes: Shapes): Step
  {
    match SelectObjects(objs.GetOr([]), index, base.region, s.includePartial, shapes)
    case None => Fail
    case Some(kept) =>
      if !s.suppressEmpty || |kept| > 0 then Emit(WithAnn(base, Detection(Some(kept)))) else Drop
  }

  /** The sliced layers of a segmentation annotation (none without an annotation). */
  function FittedLayers(seg: Option<SegAnn>, region: Box, suppressEmpty: bool): (f: SegAnn)
    ensures forall l :: l in f.layers ==> WellFormed(l.mask)
  {
    match seg
    case None => SegAnn([], [])
    case Some(a) =>
      CropLayersNotBlank(a.layers, region, suppressEmpty);
      SegAnn(a.labels, CropLayers(a.layers, region, suppressEmpty))
  }

  function SegmentationStep(seg: Option<SegAnn>, base: Tile, s: Settings): Step
  {
    var fitted := FittedLayers(seg, base.region, s.suppressEmpty);
    if !s.suppressEmpty || |fitted.layers| > 0 then
      match PadLayers(fitted.layers, s.padWidth, s.padHeight)
      case None => Fail
      case Some(padded) =>
        Emit(WithAnn(base, Segmentation(if |padded| == 0 then None else Some(SegAnn(fitted.labels, padded)))))
    else Drop
  }

  /** What the regions contribute, one step per region, in region order. */
  function Steps(rec: Record, lobjs: seq<Box>, xyxy: seq<XYXY>, s: Settings, shapes: Shapes): (steps: seq<Step>)
    requires |lobjs| == |xyxy|
    ensures |steps| == |xyxy| && forall i :: 0 <= i < |xyxy| ==> steps[i] == TileFor(rec, lobjs, xyxy, i, s, shapes)
  {
    seq(|xyxy|, i requires 0 <= i < |xyxy| => TileFor(rec, lobjs, xyxy, i, s, shapes))
  }

  /** The tiles of the steps in order, up to the first stop or error. */
  function Collect(steps: seq<Step>): Extraction
  {
    if |steps| == 0 then Tiles([])
    else
      match Collect(steps[..|steps| - 1])
      case Tiles(ts) =>
        (match steps[|steps| - 1]
         case Emit(t) => Tiles(ts + [t])
         case Drop => Tiles(ts)
         case Stop => Unhandled
         case Fail => Failed)
      case other => other
  }

  /** `process_image`'s result. */
  function Extract(rec: Record, lobjs: seq<Box>, xyxy: seq<XYXY>, s: Settings, shapes: Shapes): Extraction
    requires |lobjs| == |xyxy|
  {
    Collect(Steps(rec, lobjs, xyxy, s, shapes))
  }

  /** Once the steps so far have stopped or failed, so has the whole run. */
  lemma {:induction false} CollectStays(steps: seq<Step>, n: nat)
    requires n <= |steps| && !Collect(steps[..n]).Tiles?
    ensures Collect(steps) == Collect(steps[..n])
    decreases |steps| - n
  {
    if n < |steps| {
      assert steps[..n + 1][..n] == steps[..n];
      CollectStays(steps, n + 1);
    } else {
      assert steps[..n] == steps;
    }
  }

  /** One more step extends a run that has not stopped by that step's tile, or ends it. */
  lemma CollectNext(steps: seq<Step>, i: nat, ts: seq<Tile>)
    requires i < |steps| && Collect(steps[..i]) == Tiles(ts)
    ensures steps[i].Emit? ==> Collect(steps[..i + 1]) == Tiles(ts + [steps[i].tile])
    ensures steps[i].Drop? ==> Collect(steps[..i + 1]) == Tiles(ts)
    ensures steps[i].Stop? || steps[i].Fail? ==> Collect(steps[..i + 1]) == if steps[i].Stop? then Unhandled else Failed
  {
    assert steps[..i + 1][..i] == steps[..i];
  }

  /** The body of `process_image`'s loop for the region at `index`. */
  method ProcessRegion(rec: Record, lobjs: seq<Box>, xyxy: seq<XYXY>, index: nat, s: Settings, shapes: Shapes)
    returns (step: Step)
    requires |lobjs| == |xyxy| && index < |xyxy|
    ensures step == TileFor(rec, lobjs, xyxy, index, s, shapes)
  {
    var base := CropRegion(rec, lobjs, xyxy, index, s);
    if base.None? {
      return Fail;
    }
    step := Annotate(rec.ann, base.value, index, s, shapes);
  }

  /** The cropping, padding and renaming part of the loop body. */
  method CropRegion(rec: Record, lobjs: seq<Box>, xyxy: seq<XYXY>, index: nat, s: Settings) returns (t: Option<Tile>)
    requires |lobjs| == |xyxy| && index < |xyxy|
    ensures t == CropTile(rec, lobjs, xyxy, index, s)
  {
    var c := xyxy[index];
    var k := ClampedCorners(c, rec.image.width, rec.image.height);
    var x1, y1 := k.x1, k.y1;
    var sub := PilCrop(rec.image, c.x0, c.y0, x1 + 1, y1 + 1);
    if sub.None? {
      return None;
    }
    var orig := Box(0, 0, sub.value.width, sub.value.height);
    var img := PadImage(sub.value, s.padWidth, s.padHeight);
    if img.None? {
      return None;
    }
    assert RegionImage(rec.image, c, s.padWidth, s.padHeight) == Some(Crop(img.value, orig));
    var name := RegionFilename(rec.name, lobjs, xyxy, index, s.suffix);
    t := Some(Tile(lobjs[index], Record(name, rec.format, rec.mode, rec.meta, img.value, rec.ann), orig));
  }

  /** The annotation part of the loop body, by the record's kind. */
  method Annotate(ann: Annotation, base: Tile, index: nat, s: Settings, shapes: Shapes) returns (step: Step)
    ensures step == KindStep(ann, base, index, s, shapes)
  {
    match ann {
      case Classification(l) =>
        step := if !s.suppressEmpty || l.Some? then Emit(base) else Drop;
      case Detection(objs) =>
        step := ProcessObjects(objs, base, index, s, shapes);
      case Segmentation(seg) =>
        step := ProcessLayers(seg, base, s);
      case Unsupported =>
        step := Stop;
    }
  }

  method ProcessObjects(objs: Option<seq<Obj>>, base: Tile, index: nat, s: Settings, shapes: Shapes) returns (step: Step)
    ensures step == DetectionStep(objs, base, index, s, shapes)
  {
    var kept := SelectObjectsLoop(objs.GetOr([]), index, base.region, s.includePartial, shapes);
    if kept.None? {
      return Fail;
    }
    if !s.suppressEmpty || |kept.value| > 0 {
      step := Emit(WithAnn(base, Detection(kept)));
    } else {
      step := Drop;
    }
  }

  method ProcessLayers(seg: Option<SegAnn>, base: Tile, s: Settings) returns (step: Step)
    ensures step == SegmentationStep(seg, base, s)
  {
    var fitted := SegAnn([], []);
    if seg.Some? {
      fitted := FitLayers(base.region, seg.value, s.suppressEmpty);
    }
    assert fitted == FittedLayers(seg, base.region, s.suppressEmpty);
    if !s.suppressEmpty || |fitted.layers| > 0 {
      var padded := PadLayers(fitted.layers, s.padWidth, s.padHeight);
      if padded.None? {
        return Fail;
      }
      var ann := if |padded.value| == 0 then None else Some(SegAnn(fitted.labels, padded.value));
      step := Emit(WithAnn(base, Segmentation(ann)));
    } else {
      step := Drop;
    }
  }

  /** `process_image`: one loop over the regions, in order; an unhandled kind ends it with None. */
  method ProcessImage(rec: Record, lobjs: seq<Box>, xyxy: seq<XYXY>, s: Settings, shapes: Shapes) returns (r: Extraction)
    requires |lobjs| == |xyxy|
    ensures r == Extract(rec, lobjs, xyxy, s, shapes)
  {
    ghost var steps := Steps(rec, lobjs, xyxy, s, shapes);
    var result: seq<Tile> := [];
    var i := 0;
    while i < |xyxy|
      invariant 0 <= i <= |xyxy|
      invariant Collect(steps[..i]) == Tiles(result)
    {
      var next := ProcessNext(rec, lobjs, xyxy, i, result, s, shapes);
      if !next.Tiles? {
        CollectStays(steps, i + 1);
        return next;
      }
      result := next.tiles;
      i := i + 1;
    }
    assert steps[..i] == steps;
    return Tiles(result);
  }

  /** One pass of `process_image`'s loop: the region at `index` extends the tiles so far, or ends the run. */
  method ProcessNext(rec: Record, lobjs: seq<Box>, xyxy: seq<XYXY>, index: nat, result: seq<Tile>, s: Settings, shapes: Shapes)
    returns (r: Extraction)
    requires |lobjs| == |xyxy| && index < |xyxy|
    requires Collect(Steps(rec, lobjs, xyxy, s, shapes)[..index]) == Tiles(result)
    ensures r == Collect(Steps(rec, lobjs, xyxy, s, shapes)[..index + 1])
  {
    ghost var steps := Steps(rec, lobjs, xyxy, s, shapes);
    var step := ProcessRegion(rec, lobjs, xyxy, index, s, shapes);
    assert step == steps[index];
    CollectNext(steps, index, result);
    match step {
      case Emit(t) => r := Tiles(result + [t]);
      case Drop => r := Tiles(result);
      case Stop => r := Unhandled;
      case Fail => r := Failed;
    }
  }

  // ---------------------------------------------------------------------------
  // properties of process_image

  /** The tiles of the emitting steps, in step order. */
  function Emitted(steps: seq<Step>): (ts: seq<Tile>)
    ensures |ts| <= |steps|
  {
    if |steps| == 0 then []
    else Emitted(steps[..|steps| - 1]) + (if steps[|steps| - 1].Emit? then [steps[|steps| - 1].tile] else [])
  }

  /**
   * The run yields tiles exactly when no step stops or fails, and then the tiles are those
   * of the emitting steps, in region order, at most one per region.
   */
  lemma {:induction false} CollectMeaning(steps: seq<Step>)
    ensures Collect(steps).Tiles? <==> forall i :: 0 <= i < |steps| ==> steps[i].Emit? || steps[i].Drop?
    ensures Collect(steps).Tiles? ==> Collect(steps).tiles == Emitted(steps)
  {
    if |steps| > 0 {
      var init := steps[..|steps| - 1];
      CollectMeaning(init);
      forall i | 0 <= i < |init|
        ensures init[i] == steps[i]
      {
      }
    }
  }

  /** When every step emits, the tiles are the steps' tiles, one per step, in order. */
  lemma {:induction false} EmittedAll(steps: seq<Step>)
    requires forall i :: 0 <= i < |steps| ==> steps[i].Emit?
    ensures |Emitted(steps)| == |steps| && forall i :: 0 <= i < |steps| ==> Emitted(steps)[i] == steps[i].tile
  {
    if |steps| > 0 {
      var init := steps[..|steps| - 1];
      EmittedAll(init);
      assert forall i :: 0 <= i < |init| ==> init[i] == steps[i];
    }
  }

  /**
   * An emitted tile: the region's box, the record renamed by the suffix template, the same
   * format, mode, metadata and kind of annotation; a classification label is copied unchanged,
   * a detection tile holds exactly the selected objects.
   */
  lemma TileForEmits(rec: Record, lobjs: seq<Box>, xyxy: seq<XYXY>, index: nat, s: Settings, shapes: Shapes, t: Tile)
    requires |lobjs| == |xyxy| && index < |xyxy| && TileFor(rec, lobjs, xyxy, index, s, shapes) == Emit(t)
    ensures t.region == lobjs[index] && t.rec.name == RegionFilename(rec.name, lobjs, xyxy, index, s.suffix)
    ensures t.rec.format == rec.format && t.rec.mode == rec.mode && t.rec.meta == rec.meta
    ensures SameKind(t.rec.ann, rec.ann)
    ensures rec.ann.Classification? ==> t.rec.ann == rec.ann && (s.suppressEmpty ==> rec.ann.classLabel.Some?)
    ensures rec.ann.Detection? ==>
      Some(t.rec.ann.objects.value) == SelectObjects(rec.ann.objects.GetOr([]), index, lobjs[index], s.includePartial, shapes) &&
      (s.suppressEmpty ==> |t.rec.ann.objects.value| > 0)
    ensures rec.ann.Segmentation? && s.suppressEmpty ==> t.rec.ann.seg.Some? && |t.rec.ann.seg.value.layers| > 0
  {
  }

  /** Without suppression every region of a classification record yields a tile, in region order. */
  lemma ExtractClassification(rec: Record, lobjs: seq<Box>, xyxy: seq<XYXY>, s: Settings, shapes: Shapes)
    requires |lobjs| == |xyxy| && rec.ann.Classification? && !s.suppressEmpty
    requires forall i :: 0 <= i < |xyxy| ==> CropTile(rec, lobjs, xyxy, i, s).Some?
    ensures Extract(rec, lobjs, xyxy, s, shapes).Tiles?
    ensures var ts := Extract(rec, lobjs, xyxy, s, shapes).tiles;
      |ts| == |xyxy| && forall i :: 0 <= i < |ts| ==> ts[i].region == lobjs[i] && ts[i].rec.ann == rec.ann
  {
    var steps := Steps(rec, lobjs, xyxy, s, shapes);
    forall i | 0 <= i < |steps|
      ensures steps[i].Emit? && steps[i].tile == CropTile(rec, lobjs, xyxy, i, s).value
    {
      assert steps[i] == TileFor(rec, lobjs, xyxy, i, s, shapes);
    }
    assert Collect(steps).Tiles? && Collect(steps).tiles == Emitted(steps) by {
      CollectMeaning(steps);
    }
    EmittedAll(steps);
  }

  /** A record of an unhandled kind yields no tiles once there is a region. */
  lemma ExtractUnsupported(rec: Record, lobjs: seq<Box>, xyxy: seq<XYXY>, s: Settings, shapes: Shapes)
    requires |lobjs| == |xyxy| && |xyxy| > 0 && rec.ann.Unsupported?
    ensures Extract(rec, lobjs, xyxy, s, shapes) == Unhandled || Extract(rec, lobjs, xyxy, s, shapes) == Failed
  {
    var steps := Steps(rec, lobjs, xyxy, s, shapes);
    assert steps[..1][..0] == [];
    assert !Collect(steps[..1]).Tiles?;
    CollectStays(steps, 1);
  }

  /** Every tile of a run comes from one region's step, the tiles follow region order, at most one per region. */
  lemma ExtractTiles(rec: Record, lobjs: seq<Box>, xyxy: seq<XYXY>, s: Settings, shapes: Shapes)
    requires |lobjs| == |xyxy|
    ensures var r := Extract(rec, lobjs, xyxy, s, shapes);
      r.Tiles? ==> r.tiles == Emitted(Steps(rec, lobjs, xyxy, s, shapes)) && |r.tiles| <= |xyxy|
  {
    CollectMeaning(Steps(rec, lobjs, xyxy, s, shapes));
  }
}
