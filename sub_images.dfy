/**
 * The sub-images filter: every record is cut into sub-records along fixed regions or, without
 * them, along regions generated for its size from a number of rows and columns or from a row
 * height and column width.
 */
module SubImagesFilter {
  import opened Wrappers
  import opened Text
  import opened Geometry
  import opened Records
  import opened Regions
  import opened Extraction

  /** How regions are generated without fixed ones: by a number of rows and columns, or by a row height and column width. */
  datatype Layout = ByCount(numRows: int, numCols: int) | BySize(rowHeight: int, colWidth: int)

  /**
   * `regions_to_string(generate_regions(...))` for an image of the given width and height, with
   * the given layout and right and bottom overlaps. Neither function is part of this model; the
   * composition is passed in.
   */
  type GenerateRegions = (nat, nat, Layout, int, int) -> string

  /**
   * The regions a record is cut along: the fixed ones, or those generated for its size, split on
   * spaces and parsed with the sorting. None where parsing raises.
   */
  function RegionsFor(item: Record, fixed: Option<Parsed>, layout: Layout, overlapRight: int, overlapBottom: int,
                      sorting: string, generate: GenerateRegions): (r: Option<Parsed>)
    ensures fixed.Some? ==> r == fixed
    ensures fixed.None? ==>
      r == RegionsOf(Split(generate(item.image.width, item.image.height, layout, overlapRight, overlapBottom), ' '), sorting)
  {
    if fixed.Some? then fixed
    else RegionsOf(Split(generate(item.image.width, item.image.height, layout, overlapRight, overlapBottom), ' '), sorting)
  }

  /**
   * Generated regions survive the trip through text: when the generator renders its rectangles
   * as "x,y,w,h" tokens joined by spaces, the record is cut along exactly those rectangles, in
   * the generator's order when unsorted.
   */
  lemma {:induction false} GeneratedRoundTrip(bs: seq<Box>)
    requires |bs| > 0
    ensures RegionsOf(Split(Join(FormatRegions(bs), ' '), ' '), SortingNone) ==
      Some(Parsed(bs, seq(|bs|, i requires 0 <= i < |bs| => ToXYXY(bs[i]))))
  {
    forall i | 0 <= i < |bs|
      ensures ' ' !in FormatRegions(bs)[i]
    {
      FormatRegionNoSpace(bs[i]);
    }
    SplitJoin(FormatRegions(bs), ' ');
    UnsortedFormatted(bs);
  }

  /** One record through the filter: its sub-records in order, or itself when the extraction does not process it. */
  function Outputs(item: Record, regions: Option<Parsed>, s: Settings, extract: ExtractRegions): (r: Option<seq<Record>>)
    ensures r.None? <==> regions.None?
  {
    match regions
    case None => None
    case Some(p) =>
      match extract(item, p.lobjs, p.xyxy, s)
      case None => Some([item])
      case Some(subs) => Some(subs)
  }

  /** The filter's options, as set by the caller and then normalised by `Initialize`. */
  class SubImages {
    var regions: Option<seq<string>>
    var sorting: Option<string>
    var numRows: Option<int>
    var numCols: Option<int>
    var rowHeight: Option<int>
    var colWidth: Option<int>
    var overlapRight: Option<int>
    var overlapBottom: Option<int>
    var includePartial: Option<bool>
    var suppressEmpty: Option<bool>
    var suffix: Option<string>
    var padWidth: Option<int>
    var padHeight: Option<int>
    var parsed: Option<Parsed>

    constructor (regions: Option<seq<string>>, sorting: Option<string>, numRows: Option<int>, numCols: Option<int>,
                 rowHeight: Option<int>, colWidth: Option<int>, overlapRight: Option<int>, overlapBottom: Option<int>,
                 includePartial: Option<bool>, suppressEmpty: Option<bool>, suffix: Option<string>,
                 padWidth: Option<int>, padHeight: Option<int>)
      ensures this.regions == regions && this.sorting == sorting
      ensures this.numRows == numRows && this.numCols == numCols && this.rowHeight == rowHeight && this.colWidth == colWidth
      ensures this.overlapRight == overlapRight && this.overlapBottom == overlapBottom
      ensures this.includePartial == includePartial && this.suppressEmpty == suppressEmpty && this.suffix == suffix
      ensures this.padWidth == padWidth && this.padHeight == padHeight && parsed.None?
    {
      this.regions, this.sorting := regions, sorting;
      this.numRows, this.numCols, this.rowHeight, this.colWidth := numRows, numCols, rowHeight, colWidth;
      this.overlapRight, this.overlapBottom := overlapRight, overlapBottom;
      this.includePartial, this.suppressEmpty, this.suffix := includePartial, suppressEmpty, suffix;
      this.padWidth, this.padHeight := padWidth, padHeight;
      parsed := None;
    }

    /** Whether the options say where to cut: fixed regions, a rows/columns pair or a height/width pair. */
    predicate HasSource()
      reads this
    {
      regions.Some? || numRows.Some? || rowHeight.Some?
    }

    /** Every option has a value, and the records are cut along parsed regions or generated ones. */
    predicate Initialized()
      reads this
    {
      sorting.Some? && includePartial.Some? && suppressEmpty.Some? && suffix.Some? &&
      overlapRight.Some? && overlapBottom.Some? &&
      (parsed.Some? || (numRows.Some? && numCols.Some?) || (rowHeight.Some? && colWidth.Some?)) &&
      (parsed.Some? ==> |parsed.value.lobjs| == |parsed.value.xyxy|)
    }

    /** The layout of generated regions: by rows and columns when both are set, else by height and width. */
    function GeneratedLayout(): Layout
      reads this
      requires Initialized() && parsed.None?
    {
      if numRows.Some? && numCols.Some? then ByCount(numRows.value, numCols.value)
      else BySize(rowHeight.value, colWidth.value)
    }

    /** The settings the extraction runs with. */
    function Configured(): Settings
      reads this
      requires Initialized()
    {
      Settings(suffix.value, suppressEmpty.value, includePartial.value, padWidth, padHeight)
    }

    /**
     * `initialize`, first part: an empty region list counts as none, and rows/columns and
     * height/width are each kept only as a complete pair.
     */
    method Normalise()
      modifies this
      ensures regions == if old(regions).Some? && |old(regions).value| == 0 then None else old(regions)
      ensures old(numRows).Some? && old(numCols).Some? ==> numRows == old(numRows) && numCols == old(numCols)
      ensures !(old(numRows).Some? && old(numCols).Some?) ==> numRows.None? && numCols.None?
      ensures old(rowHeight).Some? && old(colWidth).Some? ==> rowHeight == old(rowHeight) && colWidth == old(colWidth)
      ensures !(old(rowHeight).Some? && old(colWidth).Some?) ==> rowHeight.None? && colWidth.None?
      ensures sorting == old(sorting) && overlapRight == old(overlapRight) && overlapBottom == old(overlapBottom)
      ensures includePartial == old(includePartial) && suppressEmpty == old(suppressEmpty) && suffix == old(suffix)
      ensures padWidth == old(padWidth) && padHeight == old(padHeight) && parsed == old(parsed)
    {
      if regions.Some? && |regions.value| == 0 {
        regions := None;
      }
      if numRows.None? || numCols.None? {
        numRows, numCols := None, None;
      }
      if rowHeight.None? || colWidth.None? {
        rowHeight, colWidth := None, None;
      }
    }

    /**
     * `initialize`: after normalising, fails when nothing says where to cut; otherwise unset
     * options take their defaults (no sorting, no partial objects, no suppression, the default
     * suffix, no overlaps) and fixed regions are parsed, failing where parsing raises.
     */
    method Initialize() returns (ok: bool)
      modifies this
      ensures ok ==> Initialized()
      ensures ok <==> HasSource() && (regions.Some? ==> RegionsOf(regions.value, old(sorting).GetOr(SortingNone)).Some?)
      ensures HasSource() ==>
        sorting == Some(old(sorting).GetOr(SortingNone)) && suffix == Some(old(suffix).GetOr(DefaultSuffix)) &&
        includePartial == Some(old(includePartial).GetOr(false)) && suppressEmpty == Some(old(suppressEmpty).GetOr(false)) &&
        overlapRight == Some(old(overlapRight).GetOr(0)) && overlapBottom == Some(old(overlapBottom).GetOr(0))
      ensures ok ==> parsed == if regions.Some? then RegionsOf(regions.value, sorting.value) else None
      ensures regions == if old(regions).Some? && |old(regions).value| == 0 then None else old(regions)
      ensures numRows == (if old(numRows).Some? && old(numCols).Some? then old(numRows) else None)
      ensures numCols == (if old(numRows).Some? && old(numCols).Some? then old(numCols) else None)
      ensures rowHeight == (if old(rowHeight).Some? && old(colWidth).Some? then old(rowHeight) else None)
      ensures colWidth == (if old(rowHeight).Some? && old(colWidth).Some? then old(colWidth) else None)
      ensures padWidth == old(padWidth) && padHeight == old(padHeight)
    {
      Normalise();
      if !HasSource() {
        return false;
      }
      ApplyDefaults();
      if regions.Some? {
        parsed := ParseRegions(regions.value, sorting.value);
        if parsed.None? {
          return false;
        }
      }
      ok := true;
    }

    /** `initialize`, second part: unset options take their defaults and nothing is parsed yet. */
    method ApplyDefaults()
      modifies this
      ensures sorting == Some(old(sorting).GetOr(SortingNone)) && suffix == Some(old(suffix).GetOr(DefaultSuffix))
      ensures includePartial == Some(old(includePartial).GetOr(false)) && suppressEmpty == Some(old(suppressEmpty).GetOr(false))
      ensures overlapRight == Some(old(overlapRight).GetOr(0)) && overlapBottom == Some(old(overlapBottom).GetOr(0))
      ensures parsed.None?
      ensures regions == old(regions) && numRows == old(numRows) && numCols == old(numCols)
      ensures rowHeight == old(rowHeight) && colWidth == old(colWidth)
      ensures padWidth == old(padWidth) && padHeight == old(padHeight)
    {
      sorting, suffix := Some(sorting.GetOr(SortingNone)), Some(suffix.GetOr(DefaultSuffix));
      includePartial, suppressEmpty := Some(includePartial.GetOr(false)), Some(suppressEmpty.GetOr(false));
      overlapRight, overlapBottom := Some(overlapRight.GetOr(0)), Some(overlapBottom.GetOr(0));
      parsed := None;
    }

    /** The record-by-record function of the filter as configured. */
    function Step(generate: GenerateRegions, extract: ExtractRegions): Record -> Option<seq<Record>>
      reads this
      requires Initialized()
    {
      var fixed, s, sorting, right, bottom := parsed, Configured(), sorting.value, overlapRight.value, overlapBottom.value;
      var layout := if parsed.None? then GeneratedLayout() else ByCount(0, 0);
      item => Outputs(item, RegionsFor(item, fixed, layout, right, bottom, sorting, generate), s, extract)
    }

    /** `_do_process`: the outputs of every record, concatenated in order; None when one of them raises. */
    method Process(items: seq<Record>, generate: GenerateRegions, extract: ExtractRegions)
      returns (r: Option<seq<Record>>)
      requires Initialized()
      ensures r == ConcatAll(items, Step(generate, extract))
    {
      var step := Step(generate, extract);
      var layout := if parsed.None? then GeneratedLayout() else ByCount(0, 0);
      var result: seq<Record> := [];
      for i := 0 to |items|
        invariant ConcatAll(items[..i], step) == Some(result)
      {
        ConcatAllSnoc(items[..i], items[i], step);
        assert items[..i + 1] == items[..i] + [items[i]];
        var item := items[i];
        var p := parsed;
        if p.None? {
          var text := generate(item.image.width, item.image.height, layout, overlapRight.value, overlapBottom.value);
          p := ParseRegions(Split(text, ' '), sorting.value);
        }
        if p.None? {
          assert step(item).None?;
          return None;
        }
        var subs := extract(item, p.value.lobjs, p.value.xyxy, Configured());
        if subs.None? {
          result := result + [item];
        } else {
          result := result + subs.value;
        }
      }
      assert items[..|items|] == items;
      return Some(result);
    }
  }
}
