/**
 * The meta-sub-images filter: every record is cut into tiles, each tile goes through a base
 * filter, and the results are stitched back into a record of the original size, pruned and,
 * for object detection on request, with adjacent polygons merged. The base filter is a
 * parameter of the model.
 */
module MetaSubImagesFilter {
  import opened Wrappers
  import opened Records
  import opened Regions
  import opened Extraction
  import opened Reassembly
  import opened Merging

  /** What the base filter returns for one tile: one record, or a list of records. */
  datatype FilterOutput = Single(rec: Rectangular) | Several(recs: seq<Record>)

  /**
   * The tiles moved into the full record in order, each with the crop size of its region before
   * padding; a tile the base filter turns into a list is skipped. None where a transfer raises.
   */
  function TransferTiles(full: Record, tiles: seq<Tile>, rebuild: bool, filter: Record -> FilterOutput, shapes: Shapes): (r: Option<Record>)
    ensures r.Some? ==>
      r.value.name == full.name && r.value.format == full.format && r.value.mode == full.mode &&
      r.value.meta == full.meta && SameKind(r.value.ann, full.ann)
  {
    if |tiles| == 0 then Some(full)
    else
      match TransferTiles(full, tiles[..|tiles| - 1], rebuild, filter, shapes)
      case None => None
      case Some(f) =>
        var t := tiles[|tiles| - 1];
        match filter(t.rec)
        case Several(_) => Some(f)
        case Single(out) => Transfer(f, out, t.region, rebuild, Some(t.origDims.width), Some(t.origDims.height), shapes)
  }

  /** Tiles the base filter turns into lists leave the full record as it is. */
  lemma {:induction false} SkippedTiles(full: Record, tiles: seq<Tile>, rebuild: bool, filter: Record -> FilterOutput, shapes: Shapes)
    requires forall i :: 0 <= i < |tiles| ==> filter(tiles[i].rec).Several?
    ensures TransferTiles(full, tiles, rebuild, filter, shapes) == Some(full)
  {
    if |tiles| > 0 {
      SkippedTiles(full, tiles[..|tiles| - 1], rebuild, filter, shapes);
    }
  }

  lemma {:induction false} TransferTilesStaysFailed(full: Record, tiles: seq<Tile>, rebuild: bool, filter: Record -> FilterOutput, shapes: Shapes, n: nat)
    requires n <= |tiles| && TransferTiles(full, tiles[..n], rebuild, filter, shapes).None?
    ensures TransferTiles(full, tiles, rebuild, filter, shapes).None?
    decreases |tiles| - n
  {
    if n < |tiles| {
      assert tiles[..n + 1][..n] == tiles[..n];
      TransferTilesStaysFailed(full, tiles, rebuild, filter, shapes, n + 1);
    } else {
      assert tiles[..n] == tiles;
    }
  }

  /** The tiles moved into the new record, which is then pruned. */
  function Reassembled(template: Record, tiles: seq<Tile>, rebuild: bool, filter: Record -> FilterOutput, shapes: Shapes): Option<Record>
  {
    match TransferTiles(template, tiles, rebuild, filter, shapes)
    case None => None
    case Some(full) =>
      match Prune(full.ann)
      case None => None
      case Some(a) => Some(full.(ann := a))
  }

  /**
   * One record through the filter: passed on unchanged when the extraction does not handle its
   * kind; otherwise the tiles are filtered and moved into a new record made from it, which is
   * then pruned and possibly merged. None where the source raises.
   */
  function ProcessItem(item: Record, p: Parsed, s: Settings, rebuild: bool, mergeAdjacent: bool,
                       filter: Record -> FilterOutput, shapes: Shapes, parseReal: string -> Option<real>): Option<Record>
    requires |p.lobjs| == |p.xyxy|
  {
    match Extract(item, p.lobjs, p.xyxy, s, shapes)
    case Failed => None
    case Unhandled => Some(item)
    case Tiles(tiles) =>
      match NewFromTemplate(item, rebuild)
      case None => None
      case Some(template) =>
        match Reassembled(template, tiles, rebuild, filter, shapes)
        case None => None
        case Some(full) => MergeOnRequest(full, mergeAdjacent, shapes, parseReal)
  }

  /**
   * A record the extraction does not handle passes through unchanged. Otherwise the output keeps
   * the record's name, format, mode, metadata and kind, and without merging its annotation is
   * already pruned: pruning it again changes nothing.
   */
  lemma ProcessItemSpec(item: Record, p: Parsed, s: Settings, rebuild: bool, mergeAdjacent: bool,
                        filter: Record -> FilterOutput, shapes: Shapes, parseReal: string -> Option<real>)
    requires |p.lobjs| == |p.xyxy|
    ensures Extract(item, p.lobjs, p.xyxy, s, shapes).Unhandled? ==>
      ProcessItem(item, p, s, rebuild, mergeAdjacent, filter, shapes, parseReal) == Some(item)
    ensures Extract(item, p.lobjs, p.xyxy, s, shapes).Failed? ==>
      ProcessItem(item, p, s, rebuild, mergeAdjacent, filter, shapes, parseReal).None?
    ensures var r := ProcessItem(item, p, s, rebuild, mergeAdjacent, filter, shapes, parseReal);
      Extract(item, p.lobjs, p.xyxy, s, shapes).Tiles? && r.Some? ==>
        r.value.name == item.name && r.value.format == item.format && r.value.mode == item.mode &&
        r.value.meta == item.meta && SameKind(r.value.ann, item.ann) &&
        (!mergeAdjacent && HasAnnotation(r.value.ann) ==> Prune(r.value.ann) == Some(r.value.ann))
  {
    var r := ProcessItem(item, p, s, rebuild, mergeAdjacent, filter, shapes, parseReal);
    if Extract(item, p.lobjs, p.xyxy, s, shapes).Tiles? && r.Some? {
      var template := NewFromTemplate(item, rebuild).value;
      var tiles := Extract(item, p.lobjs, p.xyxy, s, shapes).tiles;
      var full := TransferTiles(template, tiles, rebuild, filter, shapes).value;
      var a := Prune(full.ann).value;
      assert Reassembled(template, tiles, rebuild, filter, shapes) == Some(full.(ann := a));
      if !mergeAdjacent && HasAnnotation(a) {
        PruneStable(full.ann);
      }
    }
  }

  /** `ProcessItem` with the filter's settings fixed, as a function of the record. */
  function ItemStep(p: Parsed, s: Settings, rebuild: bool, mergeAdjacent: bool,
                    filter: Record -> FilterOutput, shapes: Shapes, parseReal: string -> Option<real>): Record -> Option<Record>
    requires |p.lobjs| == |p.xyxy|
  {
    item => ProcessItem(item, p, s, rebuild, mergeAdjacent, filter, shapes, parseReal)
  }

  /** The loop of `_do_process` over the records. */
  method ProcessAll(items: seq<Record>, p: Parsed, s: Settings, rebuild: bool, mergeAdjacent: bool,
                    filter: Record -> FilterOutput, shapes: Shapes, parseReal: string -> Option<real>) returns (r: Option<seq<Record>>)
    requires |p.lobjs| == |p.xyxy|
    ensures r == MapAll(items, ItemStep(p, s, rebuild, mergeAdjacent, filter, shapes, parseReal))
  {
    var step := ItemStep(p, s, rebuild, mergeAdjacent, filter, shapes, parseReal);
    var result: seq<Record> := [];
    for i := 0 to |items|
      invariant |result| == i
      invariant forall k :: 0 <= k < i ==> step(items[k]) == Some(result[k])
    {
      var o := ProcessOne(items[i], p, s, rebuild, mergeAdjacent, filter, shapes, parseReal);
      assert step(items[i]) == o;
      if o.None? {
        MapAllFails(items, i, step);
        return None;
      }
      MapAllPrefix(items, step, result, o.value);
      result := result + [o.value];
    }
    MapAllSucceeds(items, step, result);
    return Some(result);
  }

  /** One record through the filter: extraction, the transfer loop over the tiles, pruning and merging. */
  method ProcessOne(item: Record, p: Parsed, s: Settings, rebuild: bool, mergeAdjacent: bool,
                    filter: Record -> FilterOutput, shapes: Shapes, parseReal: string -> Option<real>) returns (r: Option<Record>)
    requires |p.lobjs| == |p.xyxy|
    ensures r == ProcessItem(item, p, s, rebuild, mergeAdjacent, filter, shapes, parseReal)
  {
    var extraction := ProcessImage(item, p.lobjs, p.xyxy, s, shapes);
    if extraction.Failed? {
      return None;
    }
    if extraction.Unhandled? {
      return Some(item);
    }
    var template := NewFromTemplate(item, rebuild);
    if template.None? {
      return None;
    }
    var full := Reassemble(template.value, extraction.tiles, rebuild, filter, shapes);
    if full.None? {
      return None;
    }
    if mergeAdjacent && full.value.ann.Detection? {
      r := MergeDetections(full.value, shapes, parseReal);
    } else {
      r := full;
    }
  }

  /** A new record under reassembly: the transfer loop over the tiles, then pruning. */
  method Reassemble(template: Record, tiles: seq<Tile>, rebuild: bool, filter: Record -> FilterOutput, shapes: Shapes)
    returns (r: Option<Record>)
    ensures r == Reassembled(template, tiles, rebuild, filter, shapes)
  {
    var canvas := new Canvas(template);
    var i := 0;
    while i < |tiles|
      invariant 0 <= i <= |tiles|
      invariant TransferTiles(template, tiles[..i], rebuild, filter, shapes) == Some(canvas.Contents())
    {
      assert tiles[..i + 1][..i] == tiles[..i];
      var t := tiles[i];
      var out := filter(t.rec);
      if out.Single? {
        var ok := canvas.TransferRegion(out.rec, t.region, rebuild, Some(t.origDims.width), Some(t.origDims.height), shapes);
        if !ok {
          TransferTilesStaysFailed(template, tiles, rebuild, filter, shapes, i + 1);
          return None;
        }
      }
      i := i + 1;
    }
    assert tiles[..i] == tiles;
    var ok := canvas.PruneAnnotations();
    if !ok {
      return None;
    }
    return Some(canvas.Contents());
  }

  /** The filter's options, as set by the caller and then completed by `Initialize`. */
  class MetaSubImages {
    var regions: Option<seq<string>>
    var sorting: Option<string>
    var includePartial: Option<bool>
    var suppressEmpty: Option<bool>
    var suffix: Option<string>
    var rebuild: Option<bool>
    var mergeAdjacent: Option<bool>
    var padWidth: Option<int>
    var padHeight: Option<int>
    var parsed: Option<Parsed>

    constructor (regions: Option<seq<string>>, sorting: Option<string>, includePartial: Option<bool>,
                 suppressEmpty: Option<bool>, suffix: Option<string>, rebuild: Option<bool>,
                 mergeAdjacent: Option<bool>, padWidth: Option<int>, padHeight: Option<int>)
      ensures this.regions == regions && this.sorting == sorting && this.includePartial == includePartial
      ensures this.suppressEmpty == suppressEmpty && this.suffix == suffix && this.rebuild == rebuild
      ensures this.mergeAdjacent == mergeAdjacent && this.padWidth == padWidth && this.padHeight == padHeight
      ensures parsed.None?
    {
      this.regions, this.sorting, this.includePartial := regions, sorting, includePartial;
      this.suppressEmpty, this.suffix, this.rebuild := suppressEmpty, suffix, rebuild;
      this.mergeAdjacent, this.padWidth, this.padHeight := mergeAdjacent, padWidth, padHeight;
      parsed := None;
    }

    /** Every option has a value and the regions are parsed. */
    predicate Initialized()
      reads this
    {
      sorting.Some? && includePartial.Some? && suppressEmpty.Some? && suffix.Some? &&
      rebuild.Some? && mergeAdjacent.Some? && parsed.Some? && |parsed.value.lobjs| == |parsed.value.xyxy|
    }

    /** The settings the extraction runs with. */
    function Configured(): Settings
      reads this
      requires Initialized()
    {
      Settings(suffix.value, suppressEmpty.value, includePartial.value, padWidth, padHeight)
    }

    /**
     * `initialize`: fails without regions or with regions `parse_regions` rejects; otherwise unset
     * options take their defaults (no sorting, no partial objects, no suppression, the default
     * suffix, no rebuilding, no merging) and the regions are parsed.
     */
    method Initialize() returns (ok: bool)
      modifies this
      ensures ok <==> old(regions).Some? && |old(regions).value| > 0 &&
                      RegionsOf(old(regions).value, old(sorting).GetOr(SortingNone)).Some?
      ensures ok ==> Initialized() && regions == old(regions) && padWidth == old(padWidth) && padHeight == old(padHeight)
      ensures ok ==> sorting == Some(old(sorting).GetOr(SortingNone)) && suffix == Some(old(suffix).GetOr(DefaultSuffix))
      ensures ok ==> includePartial == Some(old(includePartial).GetOr(false)) && suppressEmpty == Some(old(suppressEmpty).GetOr(false))
      ensures ok ==> rebuild == Some(old(rebuild).GetOr(false)) && mergeAdjacent == Some(old(mergeAdjacent).GetOr(false))
      ensures ok ==> parsed == RegionsOf(regions.value, sorting.value)
    {
      if regions.None? || |regions.value| == 0 {
        return false;
      }
      sorting := Some(sorting.GetOr(SortingNone));
      includePartial := Some(includePartial.GetOr(false));
      suppressEmpty := Some(suppressEmpty.GetOr(false));
      suffix := Some(suffix.GetOr(DefaultSuffix));
      rebuild := Some(rebuild.GetOr(false));
      mergeAdjacent := Some(mergeAdjacent.GetOr(false));
      var p := ParseRegions(regions.value, sorting.value);
      if p.None? {
        return false;
      }
      parsed := p;
      ok := true;
    }

    /** The record-by-record function of the filter as configured. */
    function Step(filter: Record -> FilterOutput, shapes: Shapes, parseReal: string -> Option<real>): Record -> Option<Record>
      reads this
      requires Initialized()
    {
      ItemStep(parsed.value, Configured(), rebuild.value, mergeAdjacent.value, filter, shapes, parseReal)
    }

    /** `_do_process`: one output per record, in order; None when one of them raises. */
    method Process(items: seq<Record>, filter: Record -> FilterOutput, shapes: Shapes, parseReal: string -> Option<real>)
      returns (r: Option<seq<Record>>)
      requires Initialized()
      ensures r == MapAll(items, Step(filter, shapes, parseReal))
    {
      r := ProcessAll(items, parsed.value, Configured(), rebuild.value, mergeAdjacent.value, filter, shapes, parseReal);
    }
  }
}
