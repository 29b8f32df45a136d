/**
 * The region-of-interest filter: the located objects of a record, all of them or those whose
 * label is in a given set, become the regions of sub-records.
 */
module RegionOfInterestFilter {
  import opened Wrappers
  import opened Geometry
  import opened Records
  import opened Regions
  import opened Extraction

  /** Whether an object becomes a region: any object without a label set, else one whose label is in the set. */
  predicate Selected(o: Obj, labels: Option<set<string>>)
  {
    labels.None? || (LabelKey in o.meta && o.meta[LabelKey].Text? && o.meta[LabelKey].s in labels.value)
  }

  /** The objects that become regions, in annotation order. */
  function Selection(objs: seq<Obj>, labels: Option<set<string>>): seq<Obj>
  {
    if |objs| == 0 then []
    else
      var init := Selection(objs[..|objs| - 1], labels);
      if Selected(objs[|objs| - 1], labels) then init + [objs[|objs| - 1]] else init
  }

  /** An object is among the regions exactly when it is an object of the record that is selected. */
  lemma {:induction false} SelectionSpec(objs: seq<Obj>, labels: Option<set<string>>)
    ensures forall o :: o in Selection(objs, labels) <==> o in objs && Selected(o, labels)
    ensures |Selection(objs, labels)| <= |objs|
  {
    if |objs| > 0 {
      var init := objs[..|objs| - 1];
      SelectionSpec(init, labels);
      assert objs == init + [objs[|objs| - 1]];
    }
  }

  /** Without a label set every object becomes a region, in order. */
  lemma {:induction false} SelectionAll(objs: seq<Obj>)
    ensures Selection(objs, None) == objs
  {
    if |objs| > 0 {
      SelectionAll(objs[..|objs| - 1]);
      assert objs == objs[..|objs| - 1] + [objs[|objs| - 1]];
    }
  }

  /** The boxes of the objects. */
  function Boxes(objs: seq<Obj>): (bs: seq<Box>)
    ensures |bs| == |objs| && forall i :: 0 <= i < |objs| ==> bs[i] == objs[i].box
  {
    seq(|objs|, i requires 0 <= i < |objs| => objs[i].box)
  }

  /** The corners of the objects. */
  function CornersOf(objs: seq<Obj>, cornersOf: Obj -> XYXY): (cs: seq<XYXY>)
    ensures |cs| == |objs| && forall i :: 0 <= i < |objs| ==> cs[i] == cornersOf(objs[i])
  {
    seq(|objs|, i requires 0 <= i < |objs| => cornersOf(objs[i]))
  }

  /** The settings of the extraction: the filter's suffix, no suppression, whole objects only, no padding. */
  function RoiSettings(suffix: string): Settings
  {
    Settings(suffix, false, false, None, None)
  }

  /**
   * One record through the filter: passed on when its absolute annotation is unavailable or the
   * extraction does not process it; otherwise the sub-records of the selected objects.
   */
  function Outputs(item: Record, labels: Option<set<string>>, suffix: string,
                   absolute: GetAbsolute, extract: ExtractRegions, cornersOf: Obj -> XYXY): seq<Record>
  {
    match absolute(item)
    case None => [item]
    case Some(objs) =>
      var sel := Selection(objs, labels);
      match extract(item, Boxes(sel), CornersOf(sel, cornersOf), RoiSettings(suffix))
      case None => [item]
      case Some(subs) => subs
  }

  /**
   * The regions handed to the extraction are the selected objects' boxes and corners, as many of
   * one as of the other; whatever is not extracted passes through as it is.
   */
  lemma OutputsSpec(item: Record, labels: Option<set<string>>, suffix: string,
                    absolute: GetAbsolute, extract: ExtractRegions, cornersOf: Obj -> XYXY)
    ensures absolute(item).None? ==> Outputs(item, labels, suffix, absolute, extract, cornersOf) == [item]
    ensures absolute(item).Some? ==>
      var sel := Selection(absolute(item).value, labels);
      var e := extract(item, Boxes(sel), CornersOf(sel, cornersOf), Settings(suffix, false, false, None, None));
      |Boxes(sel)| == |CornersOf(sel, cornersOf)| &&
      (forall i :: 0 <= i < |sel| ==> sel[i] in absolute(item).value && Selected(sel[i], labels)) &&
      Outputs(item, labels, suffix, absolute, extract, cornersOf) == (if e.None? then [item] else e.value)
  {
    if absolute(item).Some? {
      SelectionSpec(absolute(item).value, labels);
    }
  }

  /** The regions of a record: the loop over its objects that collects the selected boxes and corners. */
  method SelectRegions(objs: seq<Obj>, labels: Option<set<string>>, cornersOf: Obj -> XYXY)
    returns (lobjs: seq<Box>, xyxys: seq<XYXY>)
    ensures lobjs == Boxes(Selection(objs, labels)) && xyxys == CornersOf(Selection(objs, labels), cornersOf)
  {
    lobjs, xyxys := [], [];
    for i := 0 to |objs|
      invariant lobjs == Boxes(Selection(objs[..i], labels))
      invariant xyxys == CornersOf(Selection(objs[..i], labels), cornersOf)
    {
      assert objs[..i + 1][..i] == objs[..i];
      var o := objs[i];
      if Selected(o, labels) {
        lobjs := lobjs + [o.box];
        xyxys := xyxys + [cornersOf(o)];
      }
    }
    assert objs[..|objs|] == objs;
  }

  /** The body of `_do_process`'s loop for one record. */
  method ProcessItem(item: Record, labels: Option<set<string>>, suffix: string,
                     absolute: GetAbsolute, extract: ExtractRegions, cornersOf: Obj -> XYXY)
    returns (subs: seq<Record>)
    ensures subs == Outputs(item, labels, suffix, absolute, extract, cornersOf)
  {
    var objs := absolute(item);
    if objs.None? {
      return [item];
    }
    var lobjs, xyxys := SelectRegions(objs.value, labels, cornersOf);
    var e := extract(item, lobjs, xyxys, RoiSettings(suffix));
    if e.None? {
      return [item];
    }
    return e.value;
  }

  /** The filter's options, as set by the caller and then completed by `Initialize`. */
  class RegionOfInterestImages {
    var labels: Option<seq<string>>
    var suffix: Option<string>

    constructor (labels: Option<seq<string>>, suffix: Option<string>)
      ensures this.labels == labels && this.suffix == suffix
    {
      this.labels, this.suffix := labels, suffix;
    }

    predicate Initialized()
      reads this
    {
      suffix.Some?
    }

    /** The labels as the set the objects are matched against; None for all objects. */
    function LabelSet(): (s: Option<set<string>>)
      reads this
      ensures s.None? <==> labels.None?
      ensures s.Some? ==> forall l :: l in s.value <==> l in labels.value
    {
      if labels.None? then None else Some(set l | l in labels.value)
    }

    /** `initialize`: an empty label list means all objects, and an unset suffix takes the default. */
    method Initialize()
      modifies this
      ensures labels == if old(labels).Some? && |old(labels).value| == 0 then None else old(labels)
      ensures suffix == Some(old(suffix).GetOr(DefaultSuffix))
      ensures Initialized()
    {
      if labels.Some? && |labels.value| == 0 {
        labels := None;
      }
      suffix := Some(suffix.GetOr(DefaultSuffix));
    }

    /** The record-by-record function of the filter as configured; it never fails. */
    function Step(absolute: GetAbsolute, extract: ExtractRegions, cornersOf: Obj -> XYXY): Record -> Option<seq<Record>>
      reads this
      requires Initialized()
    {
      var ls, sfx := LabelSet(), suffix.value;
      item => Some(Outputs(item, ls, sfx, absolute, extract, cornersOf))
    }

    /** `_do_process`: the outputs of every record, concatenated in order. */
    method Process(items: seq<Record>, absolute: GetAbsolute, extract: ExtractRegions, cornersOf: Obj -> XYXY)
      returns (result: seq<Record>)
      requires Initialized()
      ensures ConcatAll(items, Step(absolute, extract, cornersOf)) == Some(result)
    {
      var step := Step(absolute, extract, cornersOf);
      var ls := LabelSet();
      result := [];
      for i := 0 to |items|
        invariant ConcatAll(items[..i], step) == Some(result)
      {
        ConcatAllSnoc(items[..i], items[i], step);
        assert items[..i + 1] == items[..i] + [items[i]];
        var subs := ProcessItem(items[i], ls, suffix.value, absolute, extract, cornersOf);
        result := result + subs;
      }
      assert items[..|items|] == items;
    }
  }
}
