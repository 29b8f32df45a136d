/**
 * The data the tiling engine works on: image records of three annotation kinds
 * (classification, object detection, image segmentation) and the located objects,
 * segmentation layers and metadata they carry. The geometry library the engine
 * calls (polygon intersection, union, convex hull, segment distance) and the
 * overlap ratio of two rectangles are not part of this model; they are passed in
 * as the function values of `Shapes`.
 */
module Records {
  import opened Wrappers
  import opened Geometry
  import opened Grids

  /** The metadata key under which a located object keeps its label. */
  const LabelKey: string := "type"

  datatype MetaValue = Text(s: string) | Int(i: int) | Real(r: real)

  type Meta = map<string, MetaValue>

  /** A LocatedObject: its rectangle, an optional polygon and its metadata. */
  datatype Obj = Obj(box: Box, polygon: Option<seq<Point>>, meta: Meta)

  /** `get_object_label`: the value under the label key, if any. */
  function Label(o: Obj): (l: Option<MetaValue>)
    ensures l.Some? <==> LabelKey in o.meta
    ensures l.Some? ==> l.value == o.meta[LabelKey]
  {
    if LabelKey in o.meta then Some(o.meta[LabelKey]) else None
  }

  /**
   * The polygon's points, or the rectangle's four inclusive corners when the object
   * has no polygon (`get_polygon_x`/`get_polygon_y`).
   */
  function Outline(o: Obj): (pts: seq<Point>)
    ensures o.polygon.Some? ==> pts == o.polygon.value
    ensures o.polygon.None? ==> |pts| == 4 && pts == Corners(o.box)[..4]
  {
    match o.polygon
    case Some(p) => p
    case None => Corners(o.box)[..4]
  }

  /** `polygon_to_shapely`: the outline closed by repeating its first point (the corner ring without a polygon). */
  function Ring(o: Obj): (ring: seq<Point>)
    ensures o.polygon.None? ==> ring == Corners(o.box)
    ensures o.polygon.Some? && |o.polygon.value| > 0 ==> ring == o.polygon.value + [o.polygon.value[0]]
  {
    match o.polygon
    case None => Corners(o.box)
    case Some(p) => if |p| == 0 then p else p + [p[0]]
  }

  // ---------------------------------------------------------------------------
  // segmentation annotations

  /** One named mask layer of a segmentation annotation. */
  datatype Layer = Layer(key: string, mask: Grid)

  /**
   * ImageSegmentationAnnotations: the list of labels and the dictionary of layers,
   * the latter kept as a sequence in insertion order.
   */
  datatype SegAnn = SegAnn(labels: seq<string>, layers: seq<Layer>)

  /** The position of the layer with the given label. */
  function FindLayer(ls: seq<Layer>, key: string): (k: Option<nat>)
    ensures k.Some? ==> k.value < |ls| && ls[k.value].key == key && forall j :: 0 <= j < k.value ==> ls[j].key != key
    ensures k.None? ==> forall i :: 0 <= i < |ls| ==> ls[i].key != key
  {
    if |ls| == 0 then None
    else if ls[0].key == key then Some(0)
    else match FindLayer(ls[1..], key)
      case None => None
      case Some(k) => Some(k + 1)
  }

  predicate DistinctLabels(ls: seq<Layer>)
  {
    forall i, j :: 0 <= i < j < |ls| ==> ls[i].key != ls[j].key
  }

  /**
   * `layers[key] = mask`: an existing entry keeps its place and gets the new mask,
   * a new key is appended at the end.
   */
  function PutLayer(ls: seq<Layer>, key: string, mask: Grid): (r: seq<Layer>)
    ensures FindLayer(ls, key).Some? ==> |r| == |ls| && r == ls[FindLayer(ls, key).value := Layer(key, mask)]
    ensures FindLayer(ls, key).None? ==> r == ls + [Layer(key, mask)]
    ensures DistinctLabels(ls) ==> DistinctLabels(r)
  {
    match FindLayer(ls, key)
    case Some(k) => ls[k := Layer(key, mask)]
    case None => ls + [Layer(key, mask)]
  }

  // ---------------------------------------------------------------------------
  // records

  /**
   * The annotation of a record, by kind: a classification label, the located objects of an
   * object-detection record, the layers of a segmentation record (each may be None), or the
   * annotation of any other kind of image data, which the engine does not handle.
   */
  datatype Annotation =
    | Classification(classLabel: Option<string>)
    | Detection(objects: Option<seq<Obj>>)
    | Segmentation(seg: Option<SegAnn>)
    | Unsupported

  /** An ImageData record: name, image format and mode, metadata, the pixels and the annotation. */
  datatype Record = Record(name: string, format: string, mode: string, meta: Meta, image: Grid, ann: Annotation)

  /** The pixel arrays of a record are rectangular: the image and every layer of a segmentation. */
  predicate WellFormedRecord(r: Record)
  {
    WellFormed(r.image) &&
    (r.ann.Segmentation? && r.ann.seg.Some? ==> forall l :: l in r.ann.seg.value.layers ==> WellFormed(l.mask))
  }

  /** A record whose pixel arrays are rectangular, as every record a reader or filter produces is. */
  type Rectangular = r: Record | WellFormedRecord(r) witness Record("", "", "", map[], Grid(0, 0, []), Unsupported)

  /**
   * `has_annotation`: whether the record carries an annotation. The annotation of a kind the
   * engine does not handle is taken to be present.
   */
  predicate HasAnnotation(a: Annotation)
  {
    match a
    case Classification(l) => l.Some?
    case Detection(o) => o.Some?
    case Segmentation(s) => s.Some?
    case Unsupported => true
  }

  /** Whether two annotations are of the same kind. */
  predicate SameKind(a: Annotation, b: Annotation)
  {
    (a.Classification? && b.Classification?) || (a.Detection? && b.Detection?) ||
    (a.Segmentation? && b.Segmentation?) || (a.Unsupported? && b.Unsupported?)
  }

  // ---------------------------------------------------------------------------
  // the geometry library

  /** The geometry a shapely operation returns. */
  datatype Geom =
    | Poly(ring: seq<Point>)
    | Multi(parts: seq<Geom>)
    | Collection(parts: seq<Geom>)
    | Other
    | Raised

  /** A straight segment between two points (a shapely LineString of two points). */
  datatype Segment = Segment(from: Point, to: Point)

  /**
   * `get_absolute`: the located objects of a record in absolute pixel coordinates, None when they
   * cannot be obtained. It is not part of this model and is passed in.
   */
  type GetAbsolute = Record -> Option<seq<Obj>>

  /** The library operations the engine calls but this model does not define. */
  datatype Shapes = Shapes(
    overlapRatio: (Box, Box) -> real,
    intersect: (seq<Point>, seq<Point>) -> Geom,
    union: (Geom, Geom) -> Geom,
    hull: Geom -> Geom,
    distance: (Segment, Segment) -> real)

  /** The first polygon among the parts of a collection, if any. */
  function FirstPoly(parts: seq<Geom>): (g: Option<seq<Point>>)
    ensures g.Some? ==> exists k :: 0 <= k < |parts| && parts[k] == Poly(g.value) && forall j :: 0 <= j < k ==> !parts[j].Poly?
    ensures g.None? ==> forall i :: 0 <= i < |parts| ==> !parts[i].Poly?
  {
    if |parts| == 0 then None
    else if parts[0].Poly? then
      assert parts[0] == Poly(parts[0].ring);
      Some(parts[0].ring)
    else
      var r := FirstPoly(parts[1..]);
      if r.Some? then
        var k :| 0 <= k < |parts| - 1 && parts[1..][k] == Poly(r.value) && forall j :: 0 <= j < k ==> !parts[1..][j].Poly?;
        assert parts[k + 1] == Poly(r.value) && forall j :: 0 <= j < k + 1 ==> !parts[j].Poly?;
        r
      else r
  }
}
