/**
 * Region definitions: parsing "x,y,w,h" tokens into rectangles, the optional sorting by
 * a zero-padded "%06d %06d" key, the inclusive corner tuples, and the file name of the
 * sub-image cut from a region.
 */
module Regions {
  import opened Wrappers
  import opened Text
  import opened Geometry

  const SortingNone: string := "none"
  const SortingXY: string := "x-then-y"
  const SortingYX: string := "y-then-x"

  const DefaultSuffix: string := "-{INDEX}"

  // ---------------------------------------------------------------------------
  // tokens

  /** `[int(x) for x in fields]`: None as soon as one field is not an integer (Python raises). */
  function ParseFields(fields: seq<string>): (r: Option<seq<int>>)
    ensures r.None? <==> exists i :: 0 <= i < |fields| && ParseInt(fields[i]).None?
    ensures r.Some? ==> |r.value| == |fields| && forall i :: 0 <= i < |fields| ==> ParseInt(fields[i]) == Some(r.value[i])
  {
    if |fields| == 0 then Some([])
    else match (ParseInt(fields[0]), ParseFields(fields[1..]))
      case (Some(v), Some(vs)) =>
        assert forall i :: 1 <= i < |fields| ==> fields[i] == fields[1..][i - 1];
        Some([v] + vs)
      case (None, _) => None
      case (_, None) =>
        var i :| 0 <= i < |fields[1..]| && ParseInt(fields[1..][i]).None?;
        assert fields[i + 1] == fields[1..][i];
        None
  }

  /** What one region token contributes: an error, nothing, or a rectangle. */
  datatype TokenOutcome = Bad | Skip | Region(box: Box)

  /** A token whose comma-separated fields are all integers gives a region exactly when there are four of them. */
  function ParseToken(token: string): (t: TokenOutcome)
    ensures t.Bad? <==> ParseFields(Split(token, ',')).None?
    ensures t.Region? <==> ParseFields(Split(token, ',')).Some? && |Split(token, ',')| == 4
    ensures t.Region? ==> var f := Split(token, ',');
      ParseInt(f[0]) == Some(t.box.x) && ParseInt(f[1]) == Some(t.box.y) &&
      ParseInt(f[2]) == Some(t.box.width) && ParseInt(f[3]) == Some(t.box.height)
  {
    match ParseFields(Split(token, ','))
    case None => Bad
    case Some(c) => if |c| == 4 then Region(Box(c[0], c[1], c[2], c[3])) else Skip
  }

  /** The regions of the tokens, in token order, before sorting; None when a token does not parse. */
  function Unsorted(tokens: seq<string>): Option<seq<Box>>
  {
    if |tokens| == 0 then Some([])
    else match Unsorted(tokens[..|tokens| - 1])
      case None => None
      case Some(bs) =>
        match ParseToken(tokens[|tokens| - 1])
        case Bad => None
        case Skip => Some(bs)
        case Region(b) => Some(bs + [b])
  }

  /** Parsing fails exactly when some token has a field that is not an integer. */
  lemma {:induction false} UnsortedFails(tokens: seq<string>)
    ensures Unsorted(tokens).None? <==> exists i :: 0 <= i < |tokens| && ParseToken(tokens[i]).Bad?
    decreases |tokens|
  {
    if |tokens| > 0 {
      var init := tokens[..|tokens| - 1];
      UnsortedFails(init);
      assert forall i :: 0 <= i < |init| ==> init[i] == tokens[i];
      if exists i :: 0 <= i < |tokens| && ParseToken(tokens[i]).Bad? {
        var i :| 0 <= i < |tokens| && ParseToken(tokens[i]).Bad?;
        if i < |init| {
          assert ParseToken(init[i]).Bad?;
        }
      }
    }
  }

  /** The "x,y,w,h" rendering of a rectangle (also the `region_xywh` metadata value). */
  function FormatRegion(b: Box): string
  {
    Join([IntToStr(b.x), IntToStr(b.y), IntToStr(b.width), IntToStr(b.height)], ',')
  }

  lemma IntToStrNoComma(n: int)
    ensures ',' !in IntToStr(n)
  {
    var d := NatToStr(if n < 0 then -n else n);
    assert forall i :: 0 <= i < |d| ==> d[i] != ',';
    if n < 0 {
      assert forall i :: 0 <= i < |IntToStr(n)| ==> IntToStr(n)[i] == '-' || IntToStr(n)[i] == d[i - 1];
    }
  }

  /** A rendered rectangle parses back to itself. */
  lemma ParseFormatted(b: Box)
    ensures ParseToken(FormatRegion(b)) == Region(b)
  {
    var parts := [IntToStr(b.x), IntToStr(b.y), IntToStr(b.width), IntToStr(b.height)];
    IntToStrNoComma(b.x);
    IntToStrNoComma(b.y);
    IntToStrNoComma(b.width);
    IntToStrNoComma(b.height);
    SplitJoin(parts, ',');
    ParseIntToStr(b.x);
    ParseIntToStr(b.y);
    ParseIntToStr(b.width);
    ParseIntToStr(b.height);
  }

  /** A rendered rectangle holds no space, so rendered rectangles can be joined by spaces. */
  lemma FormatRegionNoSpace(b: Box)
    ensures ' ' !in FormatRegion(b)
  {
    IntToStrChars(b.x);
    IntToStrChars(b.y);
    IntToStrChars(b.width);
    IntToStrChars(b.height);
    JoinFree([IntToStr(b.x), IntToStr(b.y), IntToStr(b.width), IntToStr(b.height)], ',', ' ');
  }

  function FormatRegions(bs: seq<Box>): (ts: seq<string>)
    ensures |ts| == |bs| && forall i :: 0 <= i < |bs| ==> ts[i] == FormatRegion(bs[i])
  {
    seq(|bs|, i requires 0 <= i < |bs| => FormatRegion(bs[i]))
  }

  /** Rendering rectangles as tokens and parsing the tokens gives the rectangles back, in order. */
  lemma {:induction false} UnsortedFormatted(bs: seq<Box>)
    ensures Unsorted(FormatRegions(bs)) == Some(bs)
    decreases |bs|
  {
    if |bs| > 0 {
      var init := bs[..|bs| - 1];
      UnsortedFormatted(init);
      assert FormatRegions(bs)[..|bs| - 1] == FormatRegions(init);
      ParseFormatted(bs[|bs| - 1]);
      assert init + [bs[|bs| - 1]] == bs;
    }
  }

  // ---------------------------------------------------------------------------
  // sorting

  datatype Order = XThenY | YThenX

  /** The sort key `"%06d %06d" % (x, y)` (or `(y, x)`). */
  function Key(b: Box, order: Order): string
  {
    match order
    case XThenY => FormatZeroPadded(b.x, 6) + " " + FormatZeroPadded(b.y, 6)
    case YThenX => FormatZeroPadded(b.y, 6) + " " + FormatZeroPadded(b.x, 6)
  }

  /** Inserts `b` after every element whose key is not greater: the step of a stable sort. */
  function Insert(b: Box, s: seq<Box>, key: Box -> string): seq<Box>
  {
    if |s| == 0 then [b]
    else if !KeyLe(s[0], b, key) then [b] + s
    else [s[0]] + Insert(b, s[1..], key)
  }

  /** `list.sort(key=...)`: a stable sort by key. */
  function SortByKey(s: seq<Box>, key: Box -> string): seq<Box>
  {
    if |s| == 0 then [] else Insert(s[|s| - 1], SortByKey(s[..|s| - 1], key), key)
  }

  /** Whether the key of `a` does not exceed the key of `b`. */
  predicate KeyLe(a: Box, b: Box, key: Box -> string)
  {
    StrLe(key(a), key(b))
  }

  predicate SortedBy(s: seq<Box>, key: Box -> string)
  {
    forall i, j :: 0 <= i < j < |s| ==> KeyLe(s[i], s[j], key)
  }

  lemma {:induction false} InsertPermutes(b: Box, s: seq<Box>, key: Box -> string)
    ensures multiset(Insert(b, s, key)) == multiset(s) + multiset{b}
    decreases |s|
  {
    if |s| > 0 && KeyLe(s[0], b, key) {
      InsertPermutes(b, s[1..], key);
      assert s == [s[0]] + s[1..];
    }
  }

  lemma SortedCons(a: Box, t: seq<Box>, key: Box -> string)
    requires SortedBy(t, key)
    requires forall k :: 0 <= k < |t| ==> KeyLe(a, t[k], key)
    ensures SortedBy([a] + t, key)
  {
    forall i, j | 0 <= i < j < |t| + 1
      ensures KeyLe(([a] + t)[i], ([a] + t)[j], key)
    {
      if i > 0 {
        assert ([a] + t)[i] == t[i - 1];
      }
      assert ([a] + t)[j] == t[j - 1];
    }
  }

  lemma InsertFront(b: Box, s: seq<Box>, key: Box -> string)
    requires SortedBy(s, key) && |s| > 0 && !KeyLe(s[0], b, key)
    ensures forall k :: 0 <= k < |s| ==> KeyLe(b, s[k], key)
  {
    StrLeTotal(key(s[0]), key(b));
    forall k | 1 <= k < |s|
      ensures KeyLe(b, s[k], key)
    {
      StrLeTransitive(key(b), key(s[0]), key(s[k]));
    }
  }

  lemma {:induction false} InsertSorted(b: Box, s: seq<Box>, key: Box -> string)
    requires SortedBy(s, key)
    ensures SortedBy(Insert(b, s, key), key)
    decreases |s|
  {
    if |s| == 0 {
    } else if !KeyLe(s[0], b, key) {
      InsertFront(b, s, key);
      SortedCons(b, s, key);
    } else {
      var t := Insert(b, s[1..], key);
      assert SortedBy(s[1..], key) by {
        forall i, j | 0 <= i < j < |s| - 1
          ensures KeyLe(s[1..][i], s[1..][j], key)
        {
          assert s[1..][i] == s[i + 1] && s[1..][j] == s[j + 1];
        }
      }
      InsertSorted(b, s[1..], key);
      InsertPermutes(b, s[1..], key);
      forall k | 0 <= k < |t|
        ensures KeyLe(s[0], t[k], key)
      {
        assert t[k] in multiset(s[1..]) + multiset{b};
        if t[k] != b {
          assert t[k] in s[1..];
          var m :| 0 <= m < |s[1..]| && s[1..][m] == t[k];
          assert s[m + 1] == t[k];
        }
      }
      SortedCons(s[0], t, key);
    }
  }

  /** The sorted regions are in key order and are a permutation of the input. */
  lemma {:induction false} SortByKeySpec(s: seq<Box>, key: Box -> string)
    ensures SortedBy(SortByKey(s, key), key)
    ensures multiset(SortByKey(s, key)) == multiset(s)
    decreases |s|
  {
    if |s| > 0 {
      var init := s[..|s| - 1];
      SortByKeySpec(init, key);
      InsertSorted(s[|s| - 1], SortByKey(init, key), key);
      InsertPermutes(s[|s| - 1], SortByKey(init, key), key);
      assert init + [s[|s| - 1]] == s;
    }
  }

  /** Whether both coordinates of a region fit the six digits of the key. */
  predicate SixDigits(b: Box)
  {
    0 <= b.x < 1000000 && 0 <= b.y < 1000000
  }

  /** Comparing two keys whose parts have equal length: the first parts decide unless they are equal. */
  lemma KeyCompare(p1: string, q1: string, p2: string, q2: string)
    requires |p1| == |p2|
    ensures StrLe(p1 + " " + q1, p2 + " " + q2) == if p1 == p2 then StrLe(q1, q2) else StrLe(p1, p2)
  {
    assert p1 + " " + q1 == p1 + (" " + q1);
    assert p2 + " " + q2 == p2 + (" " + q2);
    StrLeConcat(p1, " " + q1, p2, " " + q2);
    StrLeConcat(" ", q1, " ", q2);
  }

  /** Six-digit rendering of two coordinates compares like the coordinates. */
  lemma SixDigitOrder(m: int, n: int)
    requires 0 <= m < 1000000 && 0 <= n < 1000000
    ensures |FormatZeroPadded(m, 6)| == |FormatZeroPadded(n, 6)|
    ensures StrLe(FormatZeroPadded(m, 6), FormatZeroPadded(n, 6)) <==> m <= n
  {
    assert Pow10(6) == 1000000;
    FormatZeroPaddedDigits(m, 6);
    FormatZeroPaddedDigits(n, 6);
    DigitOrder(FormatZeroPadded(m, 6), FormatZeroPadded(n, 6));
  }

  /** For coordinates of at most six digits the key order is the numeric order of (x, y), resp. (y, x). */
  lemma KeyOrder(a: Box, b: Box, order: Order)
    requires SixDigits(a) && SixDigits(b)
    ensures order == XThenY ==> (StrLe(Key(a, order), Key(b, order)) <==> a.x < b.x || (a.x == b.x && a.y <= b.y))
    ensures order == YThenX ==> (StrLe(Key(a, order), Key(b, order)) <==> a.y < b.y || (a.y == b.y && a.x <= b.x))
  {
    SixDigitOrder(a.x, b.x);
    SixDigitOrder(b.x, a.x);
    SixDigitOrder(a.y, b.y);
    SixDigitOrder(b.y, a.y);
    if order == XThenY {
      KeyCompare(FormatZeroPadded(a.x, 6), FormatZeroPadded(a.y, 6), FormatZeroPadded(b.x, 6), FormatZeroPadded(b.y, 6));
    } else {
      KeyCompare(FormatZeroPadded(a.y, 6), FormatZeroPadded(a.x, 6), FormatZeroPadded(b.y, 6), FormatZeroPadded(b.x, 6));
    }
  }

  function KeyXY(b: Box): string { Key(b, XThenY) }
  function KeyYX(b: Box): string { Key(b, YThenX) }

  /** The regions after the requested sorting; None for an unknown sorting (Python raises). */
  function SortRegions(bs: seq<Box>, sorting: string): (r: Option<seq<Box>>)
    ensures r.None? <==> sorting !in {SortingNone, SortingXY, SortingYX}
    ensures sorting == SortingNone ==> r == Some(bs)
  {
    if sorting == SortingNone then Some(bs)
    else if sorting == SortingXY then Some(SortByKey(bs, KeyXY))
    else if sorting == SortingYX then Some(SortByKey(bs, KeyYX))
    else None
  }

  lemma SortedXY(r: seq<Box>)
    requires SortedBy(r, KeyXY) && forall k :: 0 <= k < |r| ==> SixDigits(r[k])
    ensures forall i, j :: 0 <= i < j < |r| ==> r[i].x < r[j].x || (r[i].x == r[j].x && r[i].y <= r[j].y)
  {
    forall i, j | 0 <= i < j < |r|
      ensures r[i].x < r[j].x || (r[i].x == r[j].x && r[i].y <= r[j].y)
    {
      assert KeyLe(r[i], r[j], KeyXY);
      KeyOrder(r[i], r[j], XThenY);
    }
  }

  lemma SortedYX(r: seq<Box>)
    requires SortedBy(r, KeyYX) && forall k :: 0 <= k < |r| ==> SixDigits(r[k])
    ensures forall i, j :: 0 <= i < j < |r| ==> r[i].y < r[j].y || (r[i].y == r[j].y && r[i].x <= r[j].x)
  {
    forall i, j | 0 <= i < j < |r|
      ensures r[i].y < r[j].y || (r[i].y == r[j].y && r[i].x <= r[j].x)
    {
      assert KeyLe(r[i], r[j], KeyYX);
      KeyOrder(r[i], r[j], YThenX);
    }
  }

  /**
   * Sorting keeps the regions (as a multiset) and, when every coordinate has at most six
   * digits, orders them by x then y (resp. y then x).
   */
  lemma SortRegionsSpec(bs: seq<Box>, sorting: string)
    requires SortRegions(bs, sorting).Some?
    ensures multiset(SortRegions(bs, sorting).value) == multiset(bs)
    ensures sorting == SortingXY && (forall b :: b in bs ==> SixDigits(b)) ==>
      var r := SortRegions(bs, sorting).value;
      forall i, j :: 0 <= i < j < |r| ==> r[i].x < r[j].x || (r[i].x == r[j].x && r[i].y <= r[j].y)
    ensures sorting == SortingYX && (forall b :: b in bs ==> SixDigits(b)) ==>
      var r := SortRegions(bs, sorting).value;
      forall i, j :: 0 <= i < j < |r| ==> r[i].y < r[j].y || (r[i].y == r[j].y && r[i].x <= r[j].x)
  {
    if sorting == SortingXY {
      SortByKeySpec(bs, KeyXY);
      var r := SortByKey(bs, KeyXY);
      if forall b :: b in bs ==> SixDigits(b) {
        forall k | 0 <= k < |r| ensures SixDigits(r[k]) {
          assert r[k] in multiset(bs);
        }
        SortedXY(r);
      }
    } else if sorting == SortingYX {
      SortByKeySpec(bs, KeyYX);
      var r := SortByKey(bs, KeyYX);
      if forall b :: b in bs ==> SixDigits(b) {
        forall k | 0 <= k < |r| ensures SixDigits(r[k]) {
          assert r[k] in multiset(bs);
        }
        SortedYX(r);
      }
    }
  }

  // ---------------------------------------------------------------------------
  // parse_regions

  /** The parsed regions and their inclusive corner tuples. */
  datatype Parsed = Parsed(lobjs: seq<Box>, xyxy: seq<XYXY>)

  /** Every corner tuple is that of the region at the same position. */
  predicate CornersMatch(lobjs: seq<Box>, xyxy: seq<XYXY>)
  {
    |xyxy| == |lobjs| && forall i :: 0 <= i < |lobjs| ==> xyxy[i] == ToXYXY(lobjs[i])
  }

  lemma {:induction false} UnsortedPrefixFails(tokens: seq<string>, n: nat)
    requires n <= |tokens| && Unsorted(tokens[..n]).None?
    ensures Unsorted(tokens).None?
  {
    UnsortedFails(tokens[..n]);
    UnsortedFails(tokens);
    var i :| 0 <= i < n && ParseToken(tokens[..n][i]).Bad?;
    assert tokens[..n][i] == tokens[i];
  }

  /** What `parse_regions` returns: the parsed tokens, sorted, with their corner tuples; None where it raises. */
  function RegionsOf(regions: seq<string>, sorting: string): (r: Option<Parsed>)
    ensures r.Some? ==> CornersMatch(r.value.lobjs, r.value.xyxy)
  {
    match Unsorted(regions)
    case None => None
    case Some(bs) =>
      match SortRegions(bs, sorting)
      case None => None
      case Some(s) => Some(Parsed(s, seq(|s|, i requires 0 <= i < |s| => ToXYXY(s[i]))))
  }

  /**
   * `parse_regions`: the tokens with four integer fields become regions, in token order, other
   * all-integer tokens are skipped; the list is then sorted as requested and paired with its
   * corner tuples. None when a field is not an integer or the sorting is unknown.
   */
  method ParseRegions(regions: seq<string>, sorting: string) returns (r: Option<Parsed>)
    ensures r.None? <==> Unsorted(regions).None? || sorting !in {SortingNone, SortingXY, SortingYX}
    ensures r.Some? ==> Some(r.value.lobjs) == SortRegions(Unsorted(regions).value, sorting)
    ensures r.Some? ==> CornersMatch(r.value.lobjs, r.value.xyxy)
    ensures r == RegionsOf(regions, sorting)
  {
    var lobjs: seq<Box> := [];
    var i := 0;
    while i < |regions|
      invariant 0 <= i <= |regions|
      invariant Unsorted(regions[..i]) == Some(lobjs)
    {
      assert regions[..i + 1][..i] == regions[..i];
      match ParseToken(regions[i]) {
        case Bad =>
          UnsortedPrefixFails(regions, i + 1);
          return None;
        case Skip =>
        case Region(b) =>
          lobjs := lobjs + [b];
      }
      i := i + 1;
    }
    assert regions[..i] == regions;
    var sorted := SortRegions(lobjs, sorting);
    if sorted.None? {
      return None;
    }
    lobjs := sorted.value;
    var xyxy := CornerTuples(lobjs);
    return Some(Parsed(lobjs, xyxy));
  }

  /** The loop that derives the inclusive corner tuple of each region. */
  method CornerTuples(lobjs: seq<Box>) returns (xyxy: seq<XYXY>)
    ensures CornersMatch(lobjs, xyxy)
    ensures xyxy == seq(|lobjs|, i requires 0 <= i < |lobjs| => ToXYXY(lobjs[i]))
  {
    xyxy := [];
    var k := 0;
    while k < |lobjs|
      invariant 0 <= k <= |lobjs|
      invariant CornersMatch(lobjs[..k], xyxy)
    {
      xyxy := xyxy + [XYXY(lobjs[k].x, lobjs[k].y, lobjs[k].x + lobjs[k].width - 1, lobjs[k].y + lobjs[k].height - 1)];
      k := k + 1;
    }
    assert lobjs[..k] == lobjs;
  }

  // ---------------------------------------------------------------------------
  // region_filename

  /** The number of digits the region index is padded to: that of the number of regions. */
  function IndexWidth(count: nat): nat
  {
    |NatToStr(count)|
  }

  /** The index as `"%0<width>d"`, the width being the number of digits of the region count. */
  function IndexText(index: nat, count: nat): string
  {
    FormatZeroPadded(index, IndexWidth(count))
  }

  /** The placeholders other than `{INDEX}`, replaced corners first. */
  function ExpandCoordinates(s: string, lobj: Box, corners: XYXY): string
  {
    var s := ReplaceAll(s, "{X0}", IntToStr(corners.x0));
    var s := ReplaceAll(s, "{Y0}", IntToStr(corners.y0));
    var s := ReplaceAll(s, "{X1}", IntToStr(corners.x1));
    var s := ReplaceAll(s, "{Y1}", IntToStr(corners.y1));
    ExpandSides(s, lobj)
  }

  function ExpandSides(s: string, lobj: Box): string
  {
    var s := ReplaceAll(s, "{X}", IntToStr(lobj.x));
    var s := ReplaceAll(s, "{Y}", IntToStr(lobj.y));
    var s := ReplaceAll(s, "{W}", IntToStr(lobj.width));
    ReplaceAll(s, "{H}", IntToStr(lobj.height))
  }

  /** The suffix template with every placeholder replaced, in the engine's order. */
  function ExpandSuffix(template: string, index: nat, count: nat, lobj: Box, corners: XYXY): string
  {
    ExpandCoordinates(ReplaceAll(template, "{INDEX}", IndexText(index, count)), lobj, corners)
  }

  /** `region_filename`: the path's stem, the expanded suffix, the path's extension. */
  function RegionFilename(path: string, lobjs: seq<Box>, xyxy: seq<XYXY>, index: nat, template: string): (name: string)
    requires index < |lobjs| && index < |xyxy|
    ensures var (stem, ext) := SplitExt(path);
      |name| >= |stem| + |ext| && name[..|stem|] == stem && name[|name| - |ext|..] == ext
  {
    var parts := SplitExt(path);
    var suffix := ExpandSuffix(template, index, |lobjs|, lobjs[index], xyxy[index]);
    ConcatEnds(parts.0, suffix, parts.1);
    parts.0 + suffix + parts.1
  }

  /** A concatenation of three texts starts with the first and ends with the last. */
  lemma ConcatEnds(a: string, b: string, c: string)
    ensures var s := a + b + c; |s| >= |a| + |c| && s[..|a|] == a && s[|s| - |c|..] == c
  {
    var s := a + b + c;
    assert s[..|a|] == a;
    assert s[|s| - |c|..] == c;
  }

  lemma IntToStrChars(n: int)
    ensures forall i :: 0 <= i < |IntToStr(n)| ==> IntToStr(n)[i] == '-' || IsDigit(IntToStr(n)[i])
  {
    if n < 0 {
      var d := NatToStr(-n);
      assert forall i :: 1 <= i < |IntToStr(n)| ==> IntToStr(n)[i] == d[i - 1];
    }
  }

  /** A text without '{' holds no placeholder and passes the coordinate replacements unchanged. */
  lemma ExpandCoordinatesPlain(s: string, lobj: Box, corners: XYXY)
    requires '{' !in s
    ensures ExpandCoordinates(s, lobj, corners) == s
  {
    ReplaceLacking(s, "{X0}", IntToStr(corners.x0));
    ReplaceLacking(s, "{Y0}", IntToStr(corners.y0));
    ReplaceLacking(s, "{X1}", IntToStr(corners.x1));
    ReplaceLacking(s, "{Y1}", IntToStr(corners.y1));
    ExpandSidesPlain(s, lobj);
  }

  lemma ExpandSidesPlain(s: string, lobj: Box)
    requires '{' !in s
    ensures ExpandSides(s, lobj) == s
  {
    ReplaceLacking(s, "{X}", IntToStr(lobj.x));
    ReplaceLacking(s, "{Y}", IntToStr(lobj.y));
    ReplaceLacking(s, "{W}", IntToStr(lobj.width));
    ReplaceLacking(s, "{H}", IntToStr(lobj.height));
  }

  /** A suffix template without placeholders is used as it is. */
  lemma RegionFilenamePlain(path: string, lobjs: seq<Box>, xyxy: seq<XYXY>, index: nat, template: string)
    requires index < |lobjs| && index < |xyxy| && '{' !in template
    ensures RegionFilename(path, lobjs, xyxy, index, template) == SplitExt(path).0 + template + SplitExt(path).1
  {
    ReplaceLacking(template, "{INDEX}", IndexText(index, |lobjs|));
    ExpandCoordinatesPlain(template, lobjs[index], xyxy[index]);
  }

  lemma {:induction false} CountBelowPow10(n: nat)
    ensures n < Pow10(IndexWidth(n))
  {
    NatToStrValue(n);
  }

  /**
   * With the default suffix `-{INDEX}` the name is stem, '-', the index written with exactly
   * as many digits as the region count has (leading zeros), and the extension.
   */
  lemma RegionFilenameDefault(path: string, lobjs: seq<Box>, xyxy: seq<XYXY>, index: nat)
    requires index < |lobjs| && index < |xyxy|
    ensures var digits := IndexText(index, |lobjs|);
      RegionFilename(path, lobjs, xyxy, index, DefaultSuffix) == SplitExt(path).0 + "-" + digits + SplitExt(path).1 &&
      |digits| == IndexWidth(|lobjs|) && AllDigits(digits) && DigitsValue(digits) == index
  {
    var digits := IndexText(index, |lobjs|);
    IndexTextDigits(index, |lobjs|);
    DefaultSuffixExpands(digits);
    var t := ReplaceAll(DefaultSuffix, "{INDEX}", digits);
    ExpandCoordinatesPlain(t, lobjs[index], xyxy[index]);
    assert ExpandSuffix(DefaultSuffix, index, |lobjs|, lobjs[index], xyxy[index]) == t;
  }

  /** An index below the region count is written with exactly as many digits as the count has. */
  lemma IndexTextDigits(index: nat, count: nat)
    requires index < count
    ensures var digits := IndexText(index, count);
      |digits| == IndexWidth(count) && AllDigits(digits) && DigitsValue(digits) == index
  {
    CountBelowPow10(count);
    FormatZeroPaddedDigits(index, IndexWidth(count));
  }

  /** The default suffix with its index replaced by digits is '-' and the digits, with no placeholder left. */
  lemma DefaultSuffixExpands(digits: string)
    requires AllDigits(digits)
    ensures ReplaceAll(DefaultSuffix, "{INDEX}", digits) == "-" + digits
    ensures '{' !in "-" + digits
  {
    assert DefaultSuffix[..7][0] == '-' != "{INDEX}"[0];
    assert DefaultSuffix[1..] == "{INDEX}";
    ReplaceWhole("{INDEX}", digits);
    assert forall i :: 1 <= i < |"-" + digits| ==> ("-" + digits)[i] == digits[i - 1];
  }

  /**
   * The corner placeholder `{X0}` gets the region's left corner and is not touched by the later
   * replacement of `{X}`.
   */
  lemma RegionFilenameCorner(path: string, lobjs: seq<Box>, xyxy: seq<XYXY>, index: nat)
    requires index < |lobjs| && index < |xyxy|
    ensures RegionFilename(path, lobjs, xyxy, index, "{X0}") == SplitExt(path).0 + IntToStr(xyxy[index].x0) + SplitExt(path).1
  {
    var v := IntToStr(xyxy[index].x0);
    IntToStrChars(xyxy[index].x0);
    assert '{' !in v;
    ReplaceWhole("{X0}", v);
    ReplaceLacking(v, "{Y0}", IntToStr(xyxy[index].y0));
    ReplaceLacking(v, "{X1}", IntToStr(xyxy[index].x1));
    ReplaceLacking(v, "{Y1}", IntToStr(xyxy[index].y1));
    ExpandSidesPlain(v, lobjs[index]);
  }
}
