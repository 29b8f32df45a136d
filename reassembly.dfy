/**
 * Putting tiles back together: an empty full-size record made from a template, each tile
 * transferred back at its region's offset (pixels pasted, classification labels gathered,
 * located objects moved back and refitted at the image border, segmentation layers written
 * into the full layers), and the empty annotation state pruned at the end.
 */
module Reassembly {
  import opened Wrappers
  import opened Text
  import opened Geometry
  import opened Grids
  import opened Records
  import opened Extraction

  // ---------------------------------------------------------------------------
  // new_from_template

  /**
   * One all-zero layer of the given size per label, in label order; assigning a repeated label
   * again keeps its one layer at its first place.
   */
  function ZeroLayers(labels: seq<string>, h: nat, w: nat): (ls: seq<Layer>)
    ensures DistinctLabels(ls)
    ensures forall l :: l in ls ==> l.key in labels && l.mask == Zeros(h, w)
    ensures forall key :: key in labels ==> FindLayer(ls, key).Some?
  {
    var d := Dedup(labels);
    var ls := seq(|d|, i requires 0 <= i < |d| => Layer(d[i], Zeros(h, w)));
    forall key | key in labels
      ensures FindLayer(ls, key).Some?
    {
      var i :| 0 <= i < |d| && d[i] == key;
      assert ls[i].key == key;
    }
    ls
  }

  /**
   * `new_from_template`: a record with the template's name, format, mode and metadata, the
   * template's image or a blank one of its size, and an empty annotation of the same kind
   * (one zero layer per label of a segmentation); None for a kind the engine does not handle.
   */
  function NewFromTemplate(item: Record, rebuild: bool): (r: Option<Record>)
    ensures r.None? <==> item.ann.Unsupported?
    ensures r.Some? ==>
      r.value.name == item.name && r.value.format == item.format &&
      r.value.mode == item.mode && r.value.meta == item.meta && SameKind(r.value.ann, item.ann)
    ensures r.Some? ==> r.value.image == if rebuild then Zeros(item.image.height, item.image.width) else item.image
  {
    var image := if rebuild then Zeros(item.image.height, item.image.width) else item.image;
    match item.ann
    case Classification(_) => Some(Record(item.name, item.format, item.mode, item.meta, image, Classification(None)))
    case Detection(_) => Some(Record(item.name, item.format, item.mode, item.meta, image, Detection(Some([]))))
    case Segmentation(seg) =>
      var labels := if seg.Some? then seg.value.labels else [];
      var layers := ZeroLayers(labels, item.image.height, item.image.width);
      Some(Record(item.name, item.format, item.mode, item.meta, image, Segmentation(Some(SegAnn(labels, layers)))))
    case Unsupported => None
  }

  // ---------------------------------------------------------------------------
  // transfer_region: the image

  /**
   * The pixels of a transfer: unchanged unless the image is rebuilt; otherwise the tile, cropped
   * to the crop size, is pasted at the region's offset (None when the crop size is negative).
   */
  function TransferImage(full: Grid, sub: Grid, region: Box, rebuild: bool, cropWidth: Option<int>, cropHeight: Option<int>): (r: Option<Grid>)
    requires WellFormed(sub)
    ensures !rebuild ==> r == Some(full)
    ensures rebuild ==> (r.None? <==> CropImage(sub, cropWidth, cropHeight).None?)
    ensures rebuild && r.Some? ==> WellFormed(r.value) && r.value.height == full.height && r.value.width == full.width
    ensures rebuild && r.Some? ==> var ch, cw := cropHeight.GetOr(sub.height), cropWidth.GetOr(sub.width);
      forall i, j :: 0 <= i < full.height && 0 <= j < full.width ==>
        At(r.value, i, j) ==
          if region.y <= i < region.y + ch && region.x <= j < region.x + cw then At(sub, i - region.y, j - region.x)
          else At(full, i, j)
  {
    if !rebuild then Some(full)
    else
      match CropImage(sub, cropWidth, cropHeight)
      case None => None
      case Some(c) => Some(Paste(full, c, region.x, region.y))
  }

  // ---------------------------------------------------------------------------
  // transfer_region: classification

  /**
   * A tile's label added to the comma-separated labels of the full record: taken as is when
   * there are none yet, appended when it is not among them.
   */
  function AddLabel(full: Option<string>, lbl: string): (r: string)
    ensures full.None? ==> r == lbl
    ensures full.Some? && lbl in Split(full.value, ',') ==> r == full.value
  {
    match full
    case None => lbl
    case Some(f) =>
      var labels := Split(f, ',');
      if lbl in labels then f else Join(labels + [lbl], ',')
  }

  /** The labels in order of first occurrence, each once. */
  function Dedup(ls: seq<string>): (d: seq<string>)
    ensures forall x :: x in d <==> x in ls
    ensures forall i, j :: 0 <= i < j < |d| ==> d[i] != d[j]
  {
    if |ls| == 0 then []
    else
      var init := Dedup(ls[..|ls| - 1]);
      assert forall x :: x in ls <==> x in ls[..|ls| - 1] || x == ls[|ls| - 1];
      if ls[|ls| - 1] in init then init else init + [ls[|ls| - 1]]
  }

  /** The label of the full record after transferring tiles with these labels, in order. */
  function AddLabels(full: Option<string>, labels: seq<string>): Option<string>
  {
    if |labels| == 0 then full else Some(AddLabel(AddLabels(full, labels[..|labels| - 1]), labels[|labels| - 1]))
  }

  /** Adding a label to a joined list of labels without commas extends the list unless the label is on it. */
  lemma AddLabelJoined(ls: seq<string>, lbl: string)
    requires |ls| > 0 && FreeOf(ls, ',') && ',' !in lbl
    ensures Split(AddLabel(Some(Join(ls, ',')), lbl), ',') == if lbl in ls then ls else ls + [lbl]
  {
    SplitJoin(ls, ',');
    if lbl !in ls {
      SplitJoin(ls + [lbl], ',');
    }
  }

  /**
   * Labels without commas accumulate into a comma-joined list holding each label once, in the
   * order they were first seen.
   */
  lemma {:induction false} AddLabelsDedup(labels: seq<string>)
    requires |labels| > 0 && FreeOf(labels, ',')
    ensures AddLabels(None, labels).Some?
    ensures Split(AddLabels(None, labels).value, ',') == Dedup(labels)
  {
    var n := |labels|;
    var init := labels[..n - 1];
    var l := labels[n - 1];
    if n == 1 {
      assert Dedup(labels) == [l];
      assert Join([l], ',') == l;
      SplitJoin([l], ',');
    } else {
      assert FreeOf(init, ',');
      AddLabelsDedup(init);
      var prev := AddLabels(None, init).value;
      var d := Dedup(init);
      assert FreeOf(d, ',');
      if l in d {
        assert AddLabel(Some(prev), l) == prev;
      } else {
        assert AddLabel(Some(prev), l) == Join(d + [l], ',');
        SplitJoin(d + [l], ',');
      }
    }
  }

  // ---------------------------------------------------------------------------
  // transfer_region: object detection

  /**
   * An object moved by `(dx, dy)`: its rectangle is shifted, its metadata kept, and it always gets
   * the shifted outline as polygon (the source tests the polygon method without calling it, so
   * the branch always runs).
   */
  function Shift(o: Obj, dx: int, dy: int): (n: Obj)
    ensures n.box == Box(o.box.x + dx, o.box.y + dy, o.box.width, o.box.height) && n.meta == o.meta
    ensures n.polygon == Some(Translate(Outline(o), dx, dy))
  {
    Obj(Box(o.box.x + dx, o.box.y + dy, o.box.width, o.box.height), Some(Translate(Outline(o), dx, dy)), o.meta)
  }

  /** Whether a moved object reaches the right or the bottom edge of a `w` by `h` image. */
  predicate NeedsFit(b: Box, w: int, h: int)
  {
    (b.x < w && b.x + b.width >= w) || (b.y < h && b.y + b.height >= h)
  }

  /** What becomes of one object of a tile: skipped, placed in the full record, or a failed refit. */
  datatype Placement = Skipped | Placed(obj: Obj) | Unfit

  /**
   * One object moved back by the region's offset: skipped when it starts right of or below the
   * image, refitted to the whole image when it reaches the right or bottom edge.
   */
  function Place(o: Obj, region: Box, w: int, h: int, shapes: Shapes): Placement
  {
    var n := Shift(o, region.x, region.y);
    if n.box.x >= w || n.box.y >= h then Skipped
    else if NeedsFit(n.box, w, h) then
      match FitLocatedObject(-1, Box(0, 0, w, h), n, shapes)
      case None => Unfit
      case Some(f) => Placed(f)
    else Placed(n)
  }

  /**
   * An object is skipped exactly when it starts right of or below the image; a placed object keeps
   * its metadata and ends inside the image's right and bottom edges; one that does not reach them
   * is only shifted by the region's offset.
   */
  lemma PlaceSpec(o: Obj, region: Box, w: int, h: int, shapes: Shapes)
    requires o.box.width >= 1 && o.box.height >= 1 && w >= 1 && h >= 1
    ensures Place(o, region, w, h, shapes).Skipped? <==> o.box.x + region.x >= w || o.box.y + region.y >= h
    ensures Place(o, region, w, h, shapes).Placed? ==>
      var p := Place(o, region, w, h, shapes).obj;
      p.meta == o.meta && p.box.x < w && p.box.y < h &&
      p.box.x + p.box.width <= w && p.box.y + p.box.height <= h
    ensures o.box.x + region.x + o.box.width < w && o.box.y + region.y + o.box.height < h ==>
      Place(o, region, w, h, shapes) == Placed(Shift(o, region.x, region.y))
  {
    var n := Shift(o, region.x, region.y);
    if !(n.box.x >= w || n.box.y >= h) && NeedsFit(n.box, w, h) {
      var canvas := Box(0, 0, w, h);
      var f := FitLocatedObject(-1, canvas, n, shapes);
      if f.Some? {
        var b := f.value.box;
        assert InShifted(b, 0, 0, b.x, b.y);
        assert InShifted(b, 0, 0, b.x + b.width - 1, b.y + b.height - 1);
        assert Covers(canvas, b.x + b.width - 1, b.y + b.height - 1);
      }
    }
  }

  /** The objects a tile adds to the full record, in order; None when a refit fails. */
  function Relocated(objs: seq<Obj>, region: Box, w: int, h: int, shapes: Shapes): (r: Option<seq<Obj>>)
    ensures r.Some? ==> |r.value| <= |objs|
  {
    if |objs| == 0 then Some([])
    else
      match Relocated(objs[..|objs| - 1], region, w, h, shapes)
      case None => None
      case Some(placed) =>
        match Place(objs[|objs| - 1], region, w, h, shapes)
        case Skipped => Some(placed)
        case Placed(p) => Some(placed + [p])
        case Unfit => None
  }

  /** The objects kept by a placement rule, in order; None as soon as one object is unfit. */
  function Gathered(objs: seq<Obj>, place: Obj -> Placement): Option<seq<Obj>>
  {
    if |objs| == 0 then Some([])
    else
      match Gathered(objs[..|objs| - 1], place)
      case None => None
      case Some(kept) =>
        match place(objs[|objs| - 1])
        case Skipped => Some(kept)
        case Placed(p) => Some(kept + [p])
        case Unfit => None
  }

  /** Gathering fails exactly when the rule finds some object unfit. */
  lemma {:induction false} GatheredFails(objs: seq<Obj>, place: Obj -> Placement)
    ensures Gathered(objs, place).None? <==> exists i :: 0 <= i < |objs| && place(objs[i]).Unfit?
    decreases |objs|
  {
    if |objs| > 0 {
      var init := objs[..|objs| - 1];
      assert forall i :: 0 <= i < |init| ==> init[i] == objs[i];
      GatheredFails(init, place);
    }
  }

  /** A successful gathering holds exactly the objects the rule places. */
  lemma {:induction false} GatheredContents(objs: seq<Obj>, place: Obj -> Placement)
    requires Gathered(objs, place).Some?
    ensures forall i :: 0 <= i < |objs| && place(objs[i]).Placed? ==> place(objs[i]).obj in Gathered(objs, place).value
    ensures forall p :: p in Gathered(objs, place).value ==> exists i :: 0 <= i < |objs| && place(objs[i]) == Placed(p)
    decreases |objs|
  {
    if |objs| > 0 {
      var init := objs[..|objs| - 1];
      var last := |objs| - 1;
      assert forall i :: 0 <= i < |init| ==> init[i] == objs[i];
      GatheredContents(init, place);
      var kept := Gathered(init, place).value;
      var pl := place(objs[last]);
      var r := Gathered(objs, place).value;
      assert r == if pl.Placed? then kept + [pl.obj] else kept;
      forall p | p in r
        ensures exists i :: 0 <= i < |objs| && place(objs[i]) == Placed(p)
      {
        if p in kept {
          var i :| 0 <= i < |init| && place(init[i]) == Placed(p);
          assert place(objs[i]) == Placed(p);
        } else {
          assert place(objs[last]) == Placed(p);
        }
      }
    }
  }

  /** Relocating a tile's objects is gathering them with `Place`. */
  lemma {:induction false} RelocatedGathered(objs: seq<Obj>, region: Box, w: int, h: int, shapes: Shapes)
    ensures Relocated(objs, region, w, h, shapes) == Gathered(objs, o => Place(o, region, w, h, shapes))
    decreases |objs|
  {
    if |objs| > 0 {
      RelocatedGathered(objs[..|objs| - 1], region, w, h, shapes);
    }
  }

  /**
   * Relocation fails exactly when some object of the tile cannot be refitted; otherwise it holds
   * exactly the placed objects, and each of them ends inside the `w` by `h` image.
   */
  lemma RelocatedSpec(objs: seq<Obj>, region: Box, w: int, h: int, shapes: Shapes)
    requires w >= 1 && h >= 1
    requires forall i :: 0 <= i < |objs| ==> objs[i].box.width >= 1 && objs[i].box.height >= 1
    ensures Relocated(objs, region, w, h, shapes).None? <==>
      exists i :: 0 <= i < |objs| && Place(objs[i], region, w, h, shapes).Unfit?
    ensures Relocated(objs, region, w, h, shapes).Some? ==>
      forall i :: 0 <= i < |objs| && Place(objs[i], region, w, h, shapes).Placed? ==>
        Place(objs[i], region, w, h, shapes).obj in Relocated(objs, region, w, h, shapes).value
    ensures Relocated(objs, region, w, h, shapes).Some? ==>
      forall p :: p in Relocated(objs, region, w, h, shapes).value ==>
        p.box.x + p.box.width <= w && p.box.y + p.box.height <= h &&
        exists i :: 0 <= i < |objs| && Place(objs[i], region, w, h, shapes) == Placed(p)
  {
    var place := o => Place(o, region, w, h, shapes);
    RelocatedGathered(objs, region, w, h, shapes);
    GatheredFails(objs, place);
    if Gathered(objs, place).Some? {
      GatheredContents(objs, place);
      forall p | p in Gathered(objs, place).value
        ensures p.box.x + p.box.width <= w && p.box.y + p.box.height <= h
      {
        var i :| 0 <= i < |objs| && place(objs[i]) == Placed(p);
        PlaceSpec(objs[i], region, w, h, shapes);
      }
    }
  }

  /**
   * The objects as the source relocates them: a refit rebinds the region to the whole image, so
   * every later object of the same tile is moved by `(0, 0)` instead of the region's offset.
   */
  function RelocatedAsWritten(objs: seq<Obj>, region: Box, w: int, h: int, shapes: Shapes): Option<seq<Obj>>
  {
    if |objs| == 0 then Some([])
    else
      var n := Shift(objs[0], region.x, region.y);
      if n.box.x >= w || n.box.y >= h then RelocatedAsWritten(objs[1..], region, w, h, shapes)
      else if NeedsFit(n.box, w, h) then
        match FitLocatedObject(-1, Box(0, 0, w, h), n, shapes)
        case None => None
        case Some(f) =>
          match RelocatedAsWritten(objs[1..], Box(0, 0, w, h), w, h, shapes)
          case None => None
          case Some(rest) => Some([f] + rest)
      else
        match RelocatedAsWritten(objs[1..], region, w, h, shapes)
        case None => None
        case Some(rest) => Some([n] + rest)
  }

  /**
   * A tile at `(10, 0)` of a 15-pixel-wide image: its first object reaches the right edge and is
   * refitted, after which the source puts the second object at x = 0 rather than x = 10.
   */
  lemma RegionRebinding(shapes: Shapes)
    ensures var objs := [Obj(Box(0, 0, 5, 1), None, map[]), Obj(Box(0, 2, 1, 1), None, map[])];
      var region := Box(10, 0, 5, 5);
      var asWritten := RelocatedAsWritten(objs, region, 15, 100, shapes);
      var intended := Relocated(objs, region, 15, 100, shapes);
      asWritten.Some? && |asWritten.value| == 2 && asWritten.value[1].box == Box(0, 2, 1, 1) &&
      intended.Some? && |intended.value| == 2 && intended.value[1].box == Box(10, 2, 1, 1)
  {
    var objs := [Obj(Box(0, 0, 5, 1), None, map[]), Obj(Box(0, 2, 1, 1), None, map[])];
    var region := Box(10, 0, 5, 5);
    var canvas := Box(0, 0, 15, 100);
    var first := Shift(objs[0], 10, 0);
    assert Covers(first.box, 10, 0) && Covers(canvas, 10, 0);
    assert FitLocatedObject(-1, canvas, first, shapes).Some?;
    var tail := objs[1..];
    assert tail == [objs[1]] && tail[1..] == [];
    var second := Shift(tail[0], canvas.x, canvas.y);
    assert second.box == Box(0, 2, 1, 1) && !NeedsFit(second.box, 15, 100);
    assert RelocatedAsWritten(tail[1..], canvas, 15, 100, shapes) == Some([]);
    assert [second] + [] == [second];
    assert RelocatedAsWritten(tail, canvas, 15, 100, shapes) == Some([second]);
    assert objs[..1][..0] == [];
    assert Relocated(objs[..1], region, 15, 100, shapes).Some?;
    assert objs[..2] == objs;
  }

  // ---------------------------------------------------------------------------
  // transfer_region: segmentation

  /** The full layer a tile's layer is written into: the existing one, or a new zero layer of the image's size. */
  function Before(a: Option<SegAnn>, key: string, h: nat, w: nat): Grid
  {
    if a.Some? && FindLayer(a.value.layers, key).Some? then a.value.layers[FindLayer(a.value.layers, key).value].mask
    else Zeros(h, w)
  }

  /**
   * `new_layer` when the full record has no annotation or no layer under the label: a zero layer of
   * the image's size is added (with its label) and the annotation is created when missing.
   */
  function EnsureLayer(a: Option<SegAnn>, key: string, h: nat, w: nat): (s: SegAnn)
    ensures FindLayer(s.layers, key).Some?
    ensures s.layers[FindLayer(s.layers, key).value].mask == Before(a, key, h, w)
  {
    match a
    case None => SegAnn([key], [Layer(key, Zeros(h, w))])
    case Some(s) =>
      if FindLayer(s.layers, key).Some? then s
      else
        var ls := PutLayer(s.layers, key, Zeros(h, w));
        FindLayerUnique(ls, key, |s.layers|);
        SegAnn(if key in s.labels then s.labels else s.labels + [key], ls)
  }

  /**
   * One layer of a tile: cropped to the crop size and assigned to the region's slice of the full
   * layer, replacing what was there; None when the shapes do not broadcast.
   */
  function StitchLayer(a: Option<SegAnn>, l: Layer, region: Box, cropWidth: Option<int>, cropHeight: Option<int>, h: nat, w: nat): Option<SegAnn>
    requires WellFormed(l.mask)
  {
    var s := EnsureLayer(a, l.key, h, w);
    var k := FindLayer(s.layers, l.key).value;
    var src := CropLayer(l.mask, cropWidth, cropHeight);
    match AssignSlice(s.layers[k].mask, region.y, region.y + region.height, region.x, region.x + region.width, src)
    case None => None
    case Some(m) => Some(SegAnn(s.labels, s.layers[k := Layer(l.key, m)]))
  }

  /**
   * A tile's layer that exactly fills its region inside the image overwrites that part of the full
   * layer and leaves the rest of it as it was: later tiles replace earlier ones where they overlap.
   */
  lemma StitchOverwrites(a: Option<SegAnn>, l: Layer, region: Box, h: nat, w: nat)
    requires WellFormed(l.mask) && l.mask.height == region.height && l.mask.width == region.width
    requires 0 <= region.x && region.x + region.width <= w && 0 <= region.y && region.y + region.height <= h
    requires var b := Before(a, l.key, h, w); WellFormed(b) && b.height == h && b.width == w
    ensures StitchLayer(a, l, region, None, None, h, w).Some?
    ensures var s := StitchLayer(a, l, region, None, None, h, w).value;
      FindLayer(s.layers, l.key).Some? &&
      Overwritten(s.layers[FindLayer(s.layers, l.key).value].mask, Before(a, l.key, h, w), l.mask,
                  region.y, region.x, region.height, region.width)
  {
    var b := Before(a, l.key, h, w);
    var m := AssignSlice(b, region.y, region.y + region.height, region.x, region.x + region.width, l.mask);
    assert m.Some? && Overwritten(m.value, b, l.mask, region.y, region.x, region.height, region.width) by {
      AssignSliceCells(b, region.y, region.x, l.mask);
    }
    var r := StitchLayer(a, l, region, None, None, h, w);
    assert r.Some? && FindLayer(r.value.layers, l.key).Some? && r.value.layers[FindLayer(r.value.layers, l.key).value].mask == m.value by {
      StitchLayerWrites(a, l, region, None, None, h, w);
    }
  }

  /** The tile's layer, cropped, is assigned to its slice of the layer under its label. */
  lemma StitchLayerWrites(a: Option<SegAnn>, l: Layer, region: Box, cropWidth: Option<int>, cropHeight: Option<int>, h: nat, w: nat)
    requires WellFormed(l.mask)
    ensures var m := AssignSlice(Before(a, l.key, h, w), region.y, region.y + region.height, region.x, region.x + region.width,
                                 CropLayer(l.mask, cropWidth, cropHeight));
      StitchLayer(a, l, region, cropWidth, cropHeight, h, w).Some? <==> m.Some?
    ensures var m := AssignSlice(Before(a, l.key, h, w), region.y, region.y + region.height, region.x, region.x + region.width,
                                 CropLayer(l.mask, cropWidth, cropHeight));
      var r := StitchLayer(a, l, region, cropWidth, cropHeight, h, w);
      r.Some? ==> FindLayer(r.value.layers, l.key).Some? && r.value.layers[FindLayer(r.value.layers, l.key).value].mask == m.value
  {
    var s := EnsureLayer(a, l.key, h, w);
    var k := FindLayer(s.layers, l.key).value;
    var src := CropLayer(l.mask, cropWidth, cropHeight);
    var m := AssignSlice(s.layers[k].mask, region.y, region.y + region.height, region.x, region.x + region.width, src);
    if m.Some? {
      var r := SegAnn(s.labels, s.layers[k := Layer(l.key, m.value)]);
      assert StitchLayer(a, l, region, cropWidth, cropHeight, h, w) == Some(r);
      assert FindLayer(r.layers, l.key) == Some(k) by {
        FindLayerUnique(r.layers, l.key, k);
      }
    }
  }

  /**
   * The filter's case: the tile's layer is cropped to the part of its region inside the image (the
   * size it had before padding) and written there, clamped at the image's right and bottom edges;
   * that part of the full layer becomes the tile's layer and the rest stays as it was.
   */
  lemma StitchCroppedOverwrites(a: Option<SegAnn>, l: Layer, region: Box, cw: nat, ch: nat, h: nat, w: nat)
    requires WellFormed(l.mask) && cw <= l.mask.width && ch <= l.mask.height
    requires 0 <= region.x <= w && 0 <= region.y <= h && region.width >= 0 && region.height >= 0
    requires ch == (if region.y + region.height <= h then region.height else h - region.y)
    requires cw == (if region.x + region.width <= w then region.width else w - region.x)
    requires var b := Before(a, l.key, h, w); WellFormed(b) && b.height == h && b.width == w
    ensures StitchLayer(a, l, region, Some(cw), Some(ch), h, w).Some?
    ensures var s := StitchLayer(a, l, region, Some(cw), Some(ch), h, w).value;
      FindLayer(s.layers, l.key).Some? &&
      Overwritten(s.layers[FindLayer(s.layers, l.key).value].mask, Before(a, l.key, h, w), l.mask, region.y, region.x, ch, cw)
  {
    var b := Before(a, l.key, h, w);
    var m := AssignSlice(b, region.y, region.y + region.height, region.x, region.x + region.width, CropLayer(l.mask, Some(cw), Some(ch)));
    assert m.Some? && Overwritten(m.value, b, l.mask, region.y, region.x, ch, cw) by {
      AssignCroppedClamped(b, region.y, region.x, region.height, region.width, l.mask, cw, ch);
    }
    var r := StitchLayer(a, l, region, Some(cw), Some(ch), h, w);
    assert r.Some? && FindLayer(r.value.layers, l.key).Some? && r.value.layers[FindLayer(r.value.layers, l.key).value].mask == m.value by {
      StitchLayerWrites(a, l, region, Some(cw), Some(ch), h, w);
    }
  }

  /** The first layer with a key is the one at any position holding that key, when only one does. */
  lemma FindLayerUnique(ls: seq<Layer>, key: string, k: nat)
    requires k < |ls| && ls[k].key == key && forall j :: 0 <= j < k ==> ls[j].key != key
    ensures FindLayer(ls, key) == Some(k)
  {
    if k > 0 {
      FindLayerUnique(ls[1..], key, k - 1);
    }
  }

  /** The outcome of writing a tile's layers: the new segmentation annotation, or a failure. */
  datatype Stitched = Stitched(seg: Option<SegAnn>) | StitchFailed

  /** All layers of a tile, written in their order. */
  function StitchLayers(a: Option<SegAnn>, layers: seq<Layer>, region: Box, cropWidth: Option<int>, cropHeight: Option<int>, h: nat, w: nat): Stitched
    requires forall l :: l in layers ==> WellFormed(l.mask)
    decreases |layers|
  {
    if |layers| == 0 then Stitched(a)
    else
      match StitchLayer(a, layers[0], region, cropWidth, cropHeight, h, w)
      case None => StitchFailed
      case Some(b) => StitchLayers(Some(b), layers[1..], region, cropWidth, cropHeight, h, w)
  }

  // ---------------------------------------------------------------------------
  // transfer_region

  /**
   * `transfer_region`: the pixels, then the annotation of a tile that has one, moved into the full
   * record; None where the source raises: a failed crop, paste or refit, an object to add to a
   * record without annotation, a layer that does not fit its slice or a kind the engine does not
   * handle. A tile of another kind than the full record also gives None: a typed annotation cannot
   * hold a foreign one, though the source copies it into a classification record without labels.
   */
  function Transfer(full: Record, sub: Record, region: Box, rebuild: bool, cropWidth: Option<int>, cropHeight: Option<int>, shapes: Shapes): (r: Option<Record>)
    requires WellFormedRecord(sub)
    ensures r.Some? ==>
      r.value.name == full.name && r.value.format == full.format &&
      r.value.mode == full.mode && r.value.meta == full.meta && SameKind(r.value.ann, full.ann)
    ensures r.Some? && !HasAnnotation(sub.ann) ==> r.value.ann == full.ann
  {
    match TransferImage(full.image, sub.image, region, rebuild, cropWidth, cropHeight)
    case None => None
    case Some(img) =>
      match TransferAnnotation(full.ann, sub, region, cropWidth, cropHeight, img.width, img.height, shapes)
      case None => None
      case Some(a) => Some(full.(image := img, ann := a))
  }

  /**
   * The annotation half of `transfer_region`, into a full image `w` wide and `h` high: unchanged
   * for a tile without annotation, else the tile's label, objects or layers added to those of the
   * same kind.
   */
  function TransferAnnotation(cur: Annotation, sub: Record, region: Box, cropWidth: Option<int>, cropHeight: Option<int>, w: nat, h: nat, shapes: Shapes): (r: Option<Annotation>)
    requires WellFormedRecord(sub)
    ensures r.Some? ==> SameKind(r.value, cur)
    ensures r.Some? && !HasAnnotation(sub.ann) ==> r.value == cur
  {
    if !HasAnnotation(sub.ann) then Some(cur)
    else
      match cur
      case Classification(labels) =>
        if sub.ann.Classification? then Some(Classification(Some(AddLabel(labels, sub.ann.classLabel.value))))
        else None
      case Detection(objs) =>
        if !sub.ann.Detection? then None
        else
          (match Relocated(sub.ann.objects.value, region, w, h, shapes)
           case None => None
           case Some(placed) =>
             if |placed| == 0 then Some(cur)
             else if objs.None? then None
             else Some(Detection(Some(objs.value + placed))))
      case Segmentation(seg) =>
        if !sub.ann.Segmentation? then None
        else
          (match StitchLayers(seg, sub.ann.seg.value.layers, region, cropWidth, cropHeight, h, w)
           case StitchFailed => None
           case Stitched(s) => Some(Segmentation(s)))
      case Unsupported => None
  }

  /**
   * A tile's objects are appended after those already in the full record, in the tile's order,
   * each one placed by `Place`.
   */
  lemma TransferObjects(full: Record, sub: Record, region: Box, rebuild: bool, cropWidth: Option<int>, cropHeight: Option<int>, shapes: Shapes)
    requires WellFormedRecord(sub) && full.ann.Detection? && full.ann.objects.Some? && sub.ann.Detection? && sub.ann.objects.Some?
    requires Transfer(full, sub, region, rebuild, cropWidth, cropHeight, shapes).Some?
    ensures var r := Transfer(full, sub, region, rebuild, cropWidth, cropHeight, shapes).value;
      r.ann.objects.Some? &&
      r.ann.objects.value == full.ann.objects.value + Relocated(sub.ann.objects.value, region, r.image.width, r.image.height, shapes).value
  {
  }

  /** A classification tile adds its label to the full record's comma-separated labels. */
  lemma TransferLabel(full: Record, sub: Record, region: Box, rebuild: bool, cropWidth: Option<int>, cropHeight: Option<int>, shapes: Shapes)
    requires WellFormedRecord(sub) && full.ann.Classification? && sub.ann.Classification? && sub.ann.classLabel.Some?
    requires TransferImage(full.image, sub.image, region, rebuild, cropWidth, cropHeight).Some?
    ensures Transfer(full, sub, region, rebuild, cropWidth, cropHeight, shapes).Some?
    ensures Transfer(full, sub, region, rebuild, cropWidth, cropHeight, shapes).value.ann ==
      Classification(Some(AddLabel(full.ann.classLabel, sub.ann.classLabel.value)))
  {
  }

  // ---------------------------------------------------------------------------
  // prune_annotations

  /** The layers that are not blank, in order. */
  function NonBlank(ls: seq<Layer>): (r: seq<Layer>)
    ensures forall l :: l in r <==> l in ls && !IsBlank(l.mask)
  {
    if |ls| == 0 then []
    else
      var init := NonBlank(ls[..|ls| - 1]);
      assert forall l :: l in ls <==> l in ls[..|ls| - 1] || l == ls[|ls| - 1];
      if IsBlank(ls[|ls| - 1].mask) then init else init + [ls[|ls| - 1]]
  }

  /**
   * `prune_annotations`: a detection without objects and a segmentation without non-blank layers
   * lose their annotation, blank layers are removed, a classification is left alone; None where the
   * source raises (a detection or segmentation without annotation, a kind it does not handle).
   */
  function Prune(a: Annotation): (r: Option<Annotation>)
    ensures r.Some? ==> SameKind(r.value, a)
    ensures r.Some? && r.value.Segmentation? && r.value.seg.Some? ==>
      a.Segmentation? && a.seg.Some? && r.value.seg.value.labels == a.seg.value.labels && |r.value.seg.value.layers| > 0 &&
      forall l :: l in r.value.seg.value.layers <==> l in a.seg.value.layers && !IsBlank(l.mask)
  {
    match a
    case Classification(_) => Some(a)
    case Detection(objs) =>
      if objs.None? then None
      else if |objs.value| == 0 then Some(Detection(None))
      else Some(a)
    case Segmentation(seg) =>
      if seg.None? then None
      else
        var kept := NonBlank(seg.value.layers);
        if |kept| == 0 then Some(Segmentation(None)) else Some(Segmentation(Some(SegAnn(seg.value.labels, kept))))
    case Unsupported => None
  }

  /** Pruning what pruning left with an annotation changes nothing more. */
  lemma PruneStable(a: Annotation)
    requires Prune(a).Some? && HasAnnotation(Prune(a).value)
    ensures Prune(Prune(a).value) == Prune(a)
  {
    match a
    case Segmentation(seg) =>
      var kept := NonBlank(seg.value.layers);
      if |kept| > 0 {
        assert forall i :: 0 <= i < |kept| ==> kept[i] in kept;
        NonBlankKeepsAll(kept);
      }
    case _ =>
  }

  /** Layers none of which is blank are all kept. */
  lemma {:induction false} NonBlankKeepsAll(ls: seq<Layer>)
    requires forall i :: 0 <= i < |ls| ==> !IsBlank(ls[i].mask)
    ensures NonBlank(ls) == ls
  {
    if |ls| > 0 {
      var init := ls[..|ls| - 1];
      NonBlankKeepsAll(init);
      assert init + [ls[|ls| - 1]] == ls;
    }
  }

  /** Layers that are all blank are all dropped. */
  lemma {:induction false} NonBlankAllBlank(ls: seq<Layer>)
    requires forall l :: l in ls ==> IsBlank(l.mask)
    ensures NonBlank(ls) == []
  {
    if |ls| > 0 {
      assert forall l :: l in ls[..|ls| - 1] ==> l in ls;
      NonBlankAllBlank(ls[..|ls| - 1]);
      assert ls[|ls| - 1] in ls;
    }
  }

  /** A record freshly made from a template has nothing left after pruning. */
  lemma PruneTemplate(item: Record, rebuild: bool)
    requires !item.ann.Unsupported? && item.image.height > 0 && item.image.width > 0
    ensures var t := NewFromTemplate(item, rebuild).value;
      Prune(t.ann).Some? && !HasAnnotation(Prune(t.ann).value)
  {
    var t := NewFromTemplate(item, rebuild).value;
    if t.ann.Segmentation? {
      var layers := t.ann.seg.value.layers;
      NonBlankAllBlank(layers);
    }
  }

  // ---------------------------------------------------------------------------
  // the full record, updated in place

  /** The objects a tile adds, one at a time (the loop over a tile's objects). */
  method PlaceObjects(objs: seq<Obj>, region: Box, w: int, h: int, shapes: Shapes) returns (r: Option<seq<Obj>>)
    ensures r == Relocated(objs, region, w, h, shapes)
  {
    var placed: seq<Obj> := [];
    var i := 0;
    while i < |objs|
      invariant 0 <= i <= |objs|
      invariant Relocated(objs[..i], region, w, h, shapes) == Some(placed)
    {
      RelocatedNext(objs, i, placed, region, w, h, shapes);
      var n := Shift(objs[i], region.x, region.y);
      if n.box.x >= w || n.box.y >= h {
        i := i + 1;
        continue;
      }
      if NeedsFit(n.box, w, h) {
        var f := FitLocatedObject(-1, Box(0, 0, w, h), n, shapes);
        if f.None? {
          assert Relocated(objs[..i + 1], region, w, h, shapes).None?;
          RelocatedStaysFailed(objs, region, w, h, shapes, i + 1);
          return None;
        }
        n := f.value;
      }
      placed := placed + [n];
      i := i + 1;
    }
    assert objs[..i] == objs;
    return Some(placed);
  }

  /** One more object of a tile is skipped, added after those placed so far, or fails the tile. */
  lemma RelocatedNext(objs: seq<Obj>, i: nat, placed: seq<Obj>, region: Box, w: int, h: int, shapes: Shapes)
    requires i < |objs| && Relocated(objs[..i], region, w, h, shapes) == Some(placed)
    ensures Relocated(objs[..i + 1], region, w, h, shapes) ==
      match Place(objs[i], region, w, h, shapes)
      case Skipped => Some(placed)
      case Placed(p) => Some(placed + [p])
      case Unfit => None
  {
    assert objs[..i + 1][..i] == objs[..i];
  }

  /** Once a refit has failed, the whole tile fails. */
  lemma {:induction false} RelocatedStaysFailed(objs: seq<Obj>, region: Box, w: int, h: int, shapes: Shapes, n: nat)
    requires n <= |objs| && Relocated(objs[..n], region, w, h, shapes).None?
    ensures Relocated(objs, region, w, h, shapes).None?
    decreases |objs| - n
  {
    if n < |objs| {
      assert objs[..n + 1][..n] == objs[..n];
      RelocatedStaysFailed(objs, region, w, h, shapes, n + 1);
    } else {
      assert objs[..n] == objs;
    }
  }

  /** A tile's layers written one after the other (the loop over a tile's layers). */
  method StitchAll(a: Option<SegAnn>, layers: seq<Layer>, region: Box, cropWidth: Option<int>, cropHeight: Option<int>, h: nat, w: nat)
    returns (r: Stitched)
    requires forall l :: l in layers ==> WellFormed(l.mask)
    ensures r == StitchLayers(a, layers, region, cropWidth, cropHeight, h, w)
  {
    var cur := a;
    var i := 0;
    while i < |layers|
      invariant 0 <= i <= |layers|
      invariant forall l :: l in layers[i..] ==> WellFormed(l.mask)
      invariant StitchLayers(a, layers, region, cropWidth, cropHeight, h, w) ==
        StitchLayers(cur, layers[i..], region, cropWidth, cropHeight, h, w)
    {
      assert layers[i..][1..] == layers[i + 1..];
      var next := StitchOne(cur, layers[i], region, cropWidth, cropHeight, h, w);
      if next.None? {
        return StitchFailed;
      }
      cur := next;
      i := i + 1;
    }
    return Stitched(cur);
  }

  /** The body of the loop over a tile's layers: add the layer when missing, crop, assign the slice. */
  method StitchOne(cur: Option<SegAnn>, l: Layer, region: Box, cropWidth: Option<int>, cropHeight: Option<int>, h: nat, w: nat)
    returns (r: Option<SegAnn>)
    requires WellFormed(l.mask)
    ensures r == StitchLayer(cur, l, region, cropWidth, cropHeight, h, w)
  {
    var s := EnsureLayer(cur, l.key, h, w);
    var k := FindLayer(s.layers, l.key).value;
    var src := CropLayer(l.mask, cropWidth, cropHeight);
    var m := AssignSlice(s.layers[k].mask, region.y, region.y + region.height, region.x, region.x + region.width, src);
    if m.None? {
      return None;
    }
    return Some(SegAnn(s.labels, s.layers[k := Layer(l.key, m.value)]));
  }

  /** A full-size record under reassembly: its pixels and annotation change as tiles come in. */
  class Canvas {
    const name: string
    const format: string
    const mode: string
    const meta: Meta
    var image: Grid
    var ann: Annotation

    /** The record as it stands. */
    function Contents(): Record
      reads this
    {
      Record(name, format, mode, meta, image, ann)
    }

    constructor (r: Record)
      ensures Contents() == r
    {
      name, format, mode, meta := r.name, r.format, r.mode, r.meta;
      image, ann := r.image, r.ann;
    }

    /**
     * `transfer_region`: on success the record is the transfer of the tile into the old one.
     * On failure (where the source raises) the record is left unspecified.
     */
    method TransferRegion(sub: Record, region: Box, rebuild: bool, cropWidth: Option<int>, cropHeight: Option<int>, shapes: Shapes)
      returns (ok: bool)
      requires WellFormedRecord(sub)
      modifies this
      ensures ok <==> Transfer(old(Contents()), sub, region, rebuild, cropWidth, cropHeight, shapes).Some?
      ensures ok ==> Contents() == Transfer(old(Contents()), sub, region, rebuild, cropWidth, cropHeight, shapes).value
    {
      if rebuild {
        var cropped := CropImage(sub.image, cropWidth, cropHeight);
        if cropped.None? {
          return false;
        }
        image := Paste(image, cropped.value, region.x, region.y);
      }
      ok := TransferAnn(sub, region, cropWidth, cropHeight, shapes);
    }

    /** The annotation half of `transfer_region`, into the image as it now stands. */
    method TransferAnn(sub: Record, region: Box, cropWidth: Option<int>, cropHeight: Option<int>, shapes: Shapes)
      returns (ok: bool)
      requires WellFormedRecord(sub)
      modifies this
      ensures ok <==> TransferAnnotation(old(ann), sub, region, cropWidth, cropHeight, image.width, image.height, shapes).Some?
      ensures ok ==> ann == TransferAnnotation(old(ann), sub, region, cropWidth, cropHeight, image.width, image.height, shapes).value
      ensures image == old(image)
    {
      if !HasAnnotation(sub.ann) {
        return true;
      }
      match ann {
        case Classification(cur) =>
          if !sub.ann.Classification? {
            return false;
          }
          ann := Classification(Some(AddLabel(cur, sub.ann.classLabel.value)));
          ok := true;
        case Detection(cur) =>
          if !sub.ann.Detection? {
            return false;
          }
          var placed := PlaceObjects(sub.ann.objects.value, region, image.width, image.height, shapes);
          if placed.None? {
            return false;
          }
          if |placed.value| > 0 {
            if cur.None? {
              return false;
            }
            ann := Detection(Some(cur.value + placed.value));
          }
          ok := true;
        case Segmentation(cur) =>
          if !sub.ann.Segmentation? {
            return false;
          }
          var s := StitchAll(cur, sub.ann.seg.value.layers, region, cropWidth, cropHeight, image.height, image.width);
          if s.StitchFailed? {
            return false;
          }
          ann := Segmentation(s.seg);
          ok := true;
        case Unsupported =>
          ok := false;
      }
    }

    /** `prune_annotations`: on success the annotation is the pruned one and nothing else changes. */
    method PruneAnnotations() returns (ok: bool)
      modifies this
      ensures ok <==> Prune(old(ann)).Some?
      ensures ok ==> ann == Prune(old(ann)).value
      ensures image == old(image)
    {
      match ann {
        case Classification(_) =>
          ok := true;
        case Detection(objs) =>
          if objs.None? {
            return false;
          }
          if |objs.value| == 0 {
            ann := Detection(None);
          }
          ok := true;
        case Segmentation(seg) =>
          if seg.None? {
            return false;
          }
          var kept := KeepNonBlank(seg.value.layers);
          if |kept| == 0 {
            ann := Segmentation(None);
          } else {
            ann := Segmentation(Some(SegAnn(seg.value.labels, kept)));
          }
          ok := true;
        case Unsupported =>
          ok := false;
      }
    }
  }

  /** The loop over the layers that drops the blank ones. */
  method KeepNonBlank(ls: seq<Layer>) returns (kept: seq<Layer>)
    ensures kept == NonBlank(ls)
  {
    kept := [];
    var i := 0;
    while i < |ls|
      invariant 0 <= i <= |ls|
      invariant kept == NonBlank(ls[..i])
    {
      assert ls[..i + 1][..i] == ls[..i];
      if !IsBlank(ls[i].mask) {
        kept := kept + [ls[i]];
      }
      i := i + 1;
    }
    assert ls[..i] == ls;
  }
}
