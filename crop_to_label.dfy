/**
 * The crop-to-label filter: an object-detection record is cut down to the box of its first
 * object carrying a given label. Records without such an object are dropped, or kept on request.
 */
module CropToLabelFilter {
  import opened Wrappers
  import opened Geometry
  import opened Records
  import opened Extraction

  /** Whether an object carries the label `wanted`: its metadata holds that text under the label key. */
  predicate HasLabel(o: Obj, wanted: string)
  {
    LabelKey in o.meta && o.meta[LabelKey] == Text(wanted)
  }

  /** The index of the first object that carries the label, if any. */
  function FirstMatch(objs: seq<Obj>, wanted: string): (k: Option<nat>)
    ensures k.Some? ==> k.value < |objs| && HasLabel(objs[k.value], wanted)
    ensures k.Some? ==> forall j :: 0 <= j < k.value ==> !HasLabel(objs[j], wanted)
    ensures k.None? ==> forall j :: 0 <= j < |objs| ==> !HasLabel(objs[j], wanted)
  {
    if |objs| == 0 then None
    else if HasLabel(objs[0], wanted) then Some(0)
    else
      match FirstMatch(objs[1..], wanted)
      case None => None
      case Some(k) => Some(k + 1)
  }

  /** The linear search of `_crop`, stopping at the first object that carries the label. */
  method FindRegion(objs: seq<Obj>, wanted: string) returns (k: Option<nat>)
    ensures k == FirstMatch(objs, wanted)
  {
    var i := 0;
    while i < |objs|
      invariant 0 <= i <= |objs|
      invariant forall j :: 0 <= j < i ==> !HasLabel(objs[j], wanted)
    {
      if HasLabel(objs[i], wanted) {
        FirstMatchAt(objs, wanted, i);
        return Some(i);
      }
      i := i + 1;
    }
    FirstMatchNone(objs, wanted);
    return None;
  }

  /** An object that carries the label with none before it is the first match. */
  lemma {:induction false} FirstMatchAt(objs: seq<Obj>, wanted: string, i: nat)
    requires i < |objs| && HasLabel(objs[i], wanted)
    requires forall j :: 0 <= j < i ==> !HasLabel(objs[j], wanted)
    ensures FirstMatch(objs, wanted) == Some(i)
  {
    if i > 0 {
      FirstMatchAt(objs[1..], wanted, i - 1);
    }
  }

  /** Without an object that carries the label there is no match. */
  lemma {:induction false} FirstMatchNone(objs: seq<Obj>, wanted: string)
    requires forall j :: 0 <= j < |objs| ==> !HasLabel(objs[j], wanted)
    ensures FirstMatch(objs, wanted).None?
  {
    if |objs| > 0 {
      FirstMatchNone(objs[1..], wanted);
    }
  }

  /** The settings of the extraction: no suffix, empty tiles suppressed, partial objects included, no padding. */
  const CropSettings: Settings := Settings("", true, true, None, None)

  /** What a record the filter cannot crop turns into: itself when kept, nothing otherwise. */
  function Missing(item: Record, keepMissing: bool): (r: seq<Record>)
    ensures keepMissing ==> r == [item]
    ensures !keepMissing ==> r == []
  {
    if keepMissing then [item] else []
  }

  /**
   * `_crop`: the first sub-record extracted for the box of the first object carrying the label;
   * the record is missing when its absolute annotation is unavailable, no object carries the
   * label or nothing is extracted. None where the source raises (the extraction does not
   * process the record).
   */
  function Crop(item: Record, wanted: string, keepMissing: bool, absolute: GetAbsolute, extract: ExtractRegions): Option<seq<Record>>
  {
    match absolute(item)
    case None => Some(Missing(item, keepMissing))
    case Some(objs) =>
      match FirstMatch(objs, wanted)
      case None => Some(Missing(item, keepMissing))
      case Some(k) =>
        match extract(item, [objs[k].box], [ToXYXY(objs[k].box)], CropSettings)
        case None => None
        case Some(subs) => if |subs| == 0 then Some(Missing(item, keepMissing)) else Some([subs[0]])
  }

  /**
   * A crop yields at most one record, exactly one when missing records are kept. A record that is
   * not the original comes from extracting the single region of the first labelled object's box,
   * with inclusive corners.
   */
  lemma CropSpec(item: Record, wanted: string, keepMissing: bool, absolute: GetAbsolute, extract: ExtractRegions)
    ensures var r := Crop(item, wanted, keepMissing, absolute, extract);
      r.Some? ==> |r.value| <= 1 && (keepMissing ==> |r.value| == 1)
    ensures var r := Crop(item, wanted, keepMissing, absolute, extract);
      r.Some? && |r.value| == 1 && r.value[0] != item ==>
        absolute(item).Some? &&
        var objs := absolute(item).value;
        exists k :: 0 <= k < |objs| && HasLabel(objs[k], wanted) && (forall j :: 0 <= j < k ==> !HasLabel(objs[j], wanted)) &&
          var e := extract(item, [objs[k].box], [XYXY(objs[k].box.x, objs[k].box.y, objs[k].box.x + objs[k].box.width - 1, objs[k].box.y + objs[k].box.height - 1)],
                           Settings("", true, true, None, None));
          e.Some? && |e.value| > 0 && e.value[0] == r.value[0]
  {
    var r := Crop(item, wanted, keepMissing, absolute, extract);
    if r.Some? && |r.value| == 1 && r.value[0] != item {
      var k := FirstMatch(absolute(item).value, wanted).value;
      assert HasLabel(absolute(item).value[k], wanted);
    }
  }

  /** `_do_process`'s gate: only object-detection records with an annotation are cropped. */
  function Outputs(item: Record, wanted: string, keepMissing: bool, absolute: GetAbsolute, extract: ExtractRegions): Option<seq<Record>>
  {
    if !item.ann.Detection? || !HasAnnotation(item.ann) then Some(Missing(item, keepMissing))
    else Crop(item, wanted, keepMissing, absolute, extract)
  }

  /** Records of another kind or without objects are dropped, unless missing records are kept. */
  lemma OutputsGate(item: Record, wanted: string, keepMissing: bool, absolute: GetAbsolute, extract: ExtractRegions)
    requires !item.ann.Detection? || item.ann.objects.None?
    ensures Outputs(item, wanted, keepMissing, absolute, extract) == if keepMissing then Some([item]) else Some([])
  {
  }

  /** `_crop` as the source writes it: the search loop, then the extraction. */
  method CropItem(item: Record, wanted: string, keepMissing: bool, absolute: GetAbsolute, extract: ExtractRegions)
    returns (r: Option<seq<Record>>)
    ensures r == Crop(item, wanted, keepMissing, absolute, extract)
  {
    var objs := absolute(item);
    if objs.None? {
      return Some(Missing(item, keepMissing));
    }
    var k := FindRegion(objs.value, wanted);
    if k.None? {
      return Some(Missing(item, keepMissing));
    }
    var obj := objs.value[k.value];
    var bbox := XYXY(obj.box.x, obj.box.y, obj.box.x + obj.box.width - 1, obj.box.y + obj.box.height - 1);
    var subs := extract(item, [obj.box], [bbox], CropSettings);
    if subs.None? {
      return None;
    }
    if |subs.value| == 0 {
      return Some(Missing(item, keepMissing));
    }
    return Some([subs.value[0]]);
  }

  /** The filter's options, as set by the caller and then completed by `Initialize`. */
  class CropToLabel {
    var regionLabel: Option<string>
    var keepMissing: Option<bool>

    constructor (regionLabel: Option<string>, keepMissing: Option<bool>)
      ensures this.regionLabel == regionLabel && this.keepMissing == keepMissing
    {
      this.regionLabel, this.keepMissing := regionLabel, keepMissing;
    }

    predicate Initialized()
      reads this
    {
      regionLabel.Some? && keepMissing.Some?
    }

    /** `initialize`: missing records are dropped unless requested otherwise; fails without a label. */
    method Initialize() returns (ok: bool)
      modifies this
      ensures keepMissing == Some(old(keepMissing).GetOr(false)) && regionLabel == old(regionLabel)
      ensures ok <==> regionLabel.Some?
      ensures ok ==> Initialized()
    {
      keepMissing := Some(keepMissing.GetOr(false));
      ok := regionLabel.Some?;
    }

    /** The record-by-record function of the filter as configured. */
    function Step(absolute: GetAbsolute, extract: ExtractRegions): Record -> Option<seq<Record>>
      reads this
      requires Initialized()
    {
      var wanted, keep := regionLabel.value, keepMissing.value;
      item => Outputs(item, wanted, keep, absolute, extract)
    }

    /** `_do_process`: the outputs of every record, concatenated in order; None when one of them raises. */
    method Process(items: seq<Record>, absolute: GetAbsolute, extract: ExtractRegions)
      returns (r: Option<seq<Record>>)
      requires Initialized()
      ensures r == ConcatAll(items, Step(absolute, extract))
    {
      var step := Step(absolute, extract);
      var result: seq<Record> := [];
      for i := 0 to |items|
        invariant ConcatAll(items[..i], step) == Some(result)
      {
        ConcatAllSnoc(items[..i], items[i], step);
        assert items[..i + 1] == items[..i] + [items[i]];
        var item := items[i];
        var out: Option<seq<Record>>;
        if !item.ann.Detection? || !HasAnnotation(item.ann) {
          out := Some(Missing(item, keepMissing.value));
        } else {
          out := CropItem(item, regionLabel.value, keepMissing.value, absolute, extract);
        }
        if out.None? {
          assert step(items[i]).None?;
          return None;
        }
        result := result + out.value;
      }
      assert items[..|items|] == items;
      return Some(result);
    }
  }
}
