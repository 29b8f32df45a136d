/**
 * The combine tool: sub-image files are grouped by a key taken from their names, each file's
 * offset is taken from its name too, and every group is stitched into one record of a given
 * size, with adjacent polygons merged on request.
 */
module CombineSubImages {
  import opened Wrappers
  import opened Text
  import opened Geometry
  import opened Grids
  import opened Records
  import opened Reassembly
  import opened Merging

  /**
   * `re.search(regexp, name).group(1)`: the first capture group of the first match, None
   * without a match. The regular-expression engine is not part of this model and is passed in.
   */
  type Search = (string, string) -> Option<string>

  /** The records a reader produces for a list of files. The reader is not part of this model and is passed in. */
  type ReadImages = seq<string> -> seq<Rectangular>

  // ---------------------------------------------------------------------------
  // group_files

  /** The key of a file: the first capture group of the expression on its base name. */
  function KeyOf(file: string, regexp: string, search: Search): Option<string>
  {
    search(regexp, Basename(file))
  }

  /** The groups of files: the keys in the order they first occur, and the files of each key. */
  datatype Groups = Groups(keys: seq<string>, members: map<string, seq<string>>)

  /** The files of a key (none for a key without a group). */
  function FilesOf(g: Groups, key: string): seq<string>
  {
    if key in g.members then g.members[key] else []
  }

  /** The files whose key is `key`, in list order. */
  function FilesWithKey(files: seq<string>, regexp: string, search: Search, key: string): seq<string>
  {
    if |files| == 0 then []
    else
      var init := FilesWithKey(files[..|files| - 1], regexp, search, key);
      if KeyOf(files[|files| - 1], regexp, search) == Some(key) then init + [files[|files| - 1]] else init
  }

  /** A file is among the files of a key exactly when it is in the list and has that key. */
  lemma {:induction false} FilesWithKeySpec(files: seq<string>, regexp: string, search: Search, key: string)
    ensures forall f :: f in FilesWithKey(files, regexp, search, key) <==> f in files && KeyOf(f, regexp, search) == Some(key)
  {
    if |files| > 0 {
      var init := files[..|files| - 1];
      FilesWithKeySpec(init, regexp, search, key);
      assert files == init + [files[|files| - 1]];
    }
  }

  /** No file has a key that no file has. */
  lemma {:induction false} FilesWithKeyNone(files: seq<string>, regexp: string, search: Search, key: string)
    requires forall i :: 0 <= i < |files| ==> KeyOf(files[i], regexp, search) != Some(key)
    ensures FilesWithKey(files, regexp, search, key) == []
  {
    if |files| > 0 {
      FilesWithKeyNone(files[..|files| - 1], regexp, search, key);
    }
  }

  /** `group_files`: the groups in the making; None when a file's name does not match. */
  function Grouped(files: seq<string>, regexp: string, search: Search): Option<Groups>
  {
    if |files| == 0 then Some(Groups([], map[]))
    else
      match Grouped(files[..|files| - 1], regexp, search)
      case None => None
      case Some(g) =>
        var f := files[|files| - 1];
        match KeyOf(f, regexp, search)
        case None => None
        case Some(k) =>
          if k in g.members then Some(Groups(g.keys, g.members[k := g.members[k] + [f]]))
          else Some(Groups(g.keys + [k], g.members[k := [f]]))
  }

  /** Grouping fails exactly when some file's name does not match. */
  lemma {:induction false} GroupedFails(files: seq<string>, regexp: string, search: Search)
    ensures Grouped(files, regexp, search).None? <==> exists i :: 0 <= i < |files| && KeyOf(files[i], regexp, search).None?
  {
    if |files| > 0 {
      var init := files[..|files| - 1];
      GroupedFails(init, regexp, search);
      assert forall i :: 0 <= i < |init| ==> init[i] == files[i];
    }
  }

  /** The keys of the groups are distinct and are exactly those of the files. */
  lemma {:induction false} GroupedKeys(files: seq<string>, regexp: string, search: Search)
    ensures var g := Grouped(files, regexp, search);
      g.Some? ==>
        (forall k :: k in g.value.members <==> k in g.value.keys) &&
        (forall i, j :: 0 <= i < j < |g.value.keys| ==> g.value.keys[i] != g.value.keys[j]) &&
        (forall i :: 0 <= i < |files| ==> KeyOf(files[i], regexp, search).Some? && KeyOf(files[i], regexp, search).value in g.value.members)
  {
    if |files| > 0 {
      var init := files[..|files| - 1];
      var f := files[|files| - 1];
      GroupedKeys(init, regexp, search);
      var g := Grouped(init, regexp, search);
      if g.Some? && KeyOf(f, regexp, search).Some? {
        var k := KeyOf(f, regexp, search).value;
        var n := Grouped(files, regexp, search).value;
        assert n.keys == if k in g.value.members then g.value.keys else g.value.keys + [k];
        assert n.members == g.value.members[k := if k in g.value.members then g.value.members[k] + [f] else [f]];
        forall i | 0 <= i < |files|
          ensures KeyOf(files[i], regexp, search).Some? && KeyOf(files[i], regexp, search).value in n.members
        {
          if i < |init| {
            assert files[i] == init[i];
          }
        }
      }
    }
  }

  /** Each key's group is the files with that key, in list order. */
  lemma {:induction false} GroupedMembers(files: seq<string>, regexp: string, search: Search)
    ensures var g := Grouped(files, regexp, search);
      g.Some? ==> forall k :: k in g.value.members ==> g.value.members[k] == FilesWithKey(files, regexp, search, k)
  {
    if |files| > 0 {
      var init := files[..|files| - 1];
      GroupedMembers(init, regexp, search);
      var g := Grouped(init, regexp, search);
      var f := files[|files| - 1];
      if g.Some? && KeyOf(f, regexp, search).Some? {
        var k := KeyOf(f, regexp, search).value;
        var n := Grouped(files, regexp, search).value;
        if k !in g.value.members {
          GroupedKeys(init, regexp, search);
          FilesWithKeyNone(init, regexp, search, k);
        }
        forall key | key in n.members
          ensures n.members[key] == FilesWithKey(files, regexp, search, key)
        {
          assert FilesWithKey(files, regexp, search, key) ==
            if KeyOf(f, regexp, search) == Some(key) then FilesWithKey(init, regexp, search, key) + [f]
            else FilesWithKey(init, regexp, search, key);
          if key != k {
            assert key in g.value.members;
          }
        }
      }
    }
  }

  /**
   * Grouping fails exactly when some file's name does not match. Otherwise the keys are distinct
   * and are those of the files, and each key's group is the files with that key in list order,
   * so that every file lands in exactly one group.
   */
  lemma GroupedSpec(files: seq<string>, regexp: string, search: Search)
    ensures Grouped(files, regexp, search).None? <==> exists i :: 0 <= i < |files| && KeyOf(files[i], regexp, search).None?
    ensures var g := Grouped(files, regexp, search);
      g.Some? ==>
        (forall k :: k in g.value.members <==> k in g.value.keys) &&
        (forall i, j :: 0 <= i < j < |g.value.keys| ==> g.value.keys[i] != g.value.keys[j]) &&
        (forall i :: 0 <= i < |files| ==> KeyOf(files[i], regexp, search).Some? && KeyOf(files[i], regexp, search).value in g.value.members) &&
        (forall k :: k in g.value.members ==> g.value.members[k] == FilesWithKey(files, regexp, search, k))
  {
    GroupedFails(files, regexp, search);
    GroupedKeys(files, regexp, search);
    GroupedMembers(files, regexp, search);
  }

  /** `group_files` as the source writes it: one pass that appends each file to its key's list. */
  method GroupFiles(files: seq<string>, regexp: string, search: Search) returns (r: Option<Groups>)
    ensures r == Grouped(files, regexp, search)
  {
    var keys: seq<string> := [];
    var members: map<string, seq<string>> := map[];
    for i := 0 to |files|
      invariant Grouped(files[..i], regexp, search) == Some(Groups(keys, members))
    {
      assert files[..i + 1][..i] == files[..i];
      var f := files[i];
      var k := search(regexp, Basename(f));
      if k.None? {
        GroupedStaysFailed(files, regexp, search, i + 1);
        return None;
      }
      if k.value in members {
        members := members[k.value := members[k.value] + [f]];
      } else {
        keys := keys + [k.value];
        members := members[k.value := [f]];
      }
    }
    assert files[..|files|] == files;
    return Some(Groups(keys, members));
  }

  lemma {:induction false} GroupedStaysFailed(files: seq<string>, regexp: string, search: Search, n: nat)
    requires n <= |files| && Grouped(files[..n], regexp, search).None?
    ensures Grouped(files, regexp, search).None?
    decreases |files| - n
  {
    if n < |files| {
      assert files[..n + 1][..n] == files[..n];
      GroupedStaysFailed(files, regexp, search, n + 1);
    } else {
      assert files[..n] == files;
    }
  }

  // ---------------------------------------------------------------------------
  // extract_coordinate(s)

  /** `extract_coordinate`: the first capture group on the base name as an integer; None when there is no match or no integer. */
  function Coordinate(file: string, regexp: string, search: Search): Option<int>
  {
    match search(regexp, Basename(file))
    case None => None
    case Some(g) => ParseInt(g)
  }

  /** A group that is a rendered integer yields that integer. */
  lemma CoordinateOfNumber(file: string, regexp: string, search: Search, n: int)
    requires search(regexp, Basename(file)) == Some(IntToStr(n))
    ensures Coordinate(file, regexp, search) == Some(n)
  {
    ParseIntToStr(n);
  }

  /** The offset of one file: its x and y coordinates, each less one when they count from 1. */
  function Offset(file: string, x: string, y: string, oneBased: bool, search: Search): (o: Option<(int, int)>)
    ensures o.Some? <==> Coordinate(file, x, search).Some? && Coordinate(file, y, search).Some?
  {
    match Coordinate(file, x, search)
    case None => None
    case Some(cx) =>
      match Coordinate(file, y, search)
      case None => None
      case Some(cy) => if oneBased then Some((cx - 1, cy - 1)) else Some((cx, cy))
  }

  /** `extract_coordinates`: one offset per file, in order; None when a coordinate cannot be extracted. */
  function Offsets(files: seq<string>, x: string, y: string, oneBased: bool, search: Search): Option<seq<(int, int)>>
  {
    MapAll(files, f => Offset(f, x, y, oneBased, search))
  }

  /**
   * Counting from 1 changes nothing but the offsets, each of which is one less in x and in y
   * than when counting from 0.
   */
  lemma OneBasedOffsets(files: seq<string>, x: string, y: string, search: Search)
    ensures var one, zero := Offsets(files, x, y, true, search), Offsets(files, x, y, false, search);
      (one.Some? <==> zero.Some?) &&
      (one.Some? ==>
        |one.value| == |zero.value| == |files| &&
        forall i :: 0 <= i < |files| ==> one.value[i] == (zero.value[i].0 - 1, zero.value[i].1 - 1))
  {
    var one, zero := Offsets(files, x, y, true, search), Offsets(files, x, y, false, search);
    if one.Some? && zero.Some? {
      forall i | 0 <= i < |files|
        ensures one.value[i] == (zero.value[i].0 - 1, zero.value[i].1 - 1)
      {
        assert Offset(files[i], x, y, true, search) == Some(one.value[i]);
        assert Offset(files[i], x, y, false, search) == Some(zero.value[i]);
      }
    }
  }

  /** `extract_coordinates` as the source writes it: a loop that extracts and shifts. */
  method ExtractCoordinates(files: seq<string>, x: string, y: string, oneBased: bool, search: Search)
    returns (r: Option<seq<(int, int)>>)
    ensures r == Offsets(files, x, y, oneBased, search)
  {
    var step := f => Offset(f, x, y, oneBased, search);
    var result: seq<(int, int)> := [];
    for i := 0 to |files|
      invariant |result| == i
      invariant forall k :: 0 <= k < i ==> step(files[k]) == Some(result[k])
    {
      var cx := Coordinate(files[i], x, search);
      var cy := Coordinate(files[i], y, search);
      if cx.None? || cy.None? {
        assert step(files[i]).None?;
        MapAllFails(files, i, step);
        return None;
      }
      var px, py := cx.value, cy.value;
      if oneBased {
        px, py := px - 1, py - 1;
      }
      MapAllPrefix(files, step, result, (px, py));
      result := result + [(px, py)];
    }
    MapAllSucceeds(files, step, result);
    return Some(result);
  }

  // ---------------------------------------------------------------------------
  // merge_images

  /** An annotation of the same kind that is not there. */
  function Absent(a: Annotation): (n: Annotation)
    ensures SameKind(n, a) && (!a.Unsupported? ==> !HasAnnotation(n))
  {
    match a
    case Classification(_) => Classification(None)
    case Detection(_) => Detection(None)
    case Segmentation(_) => Segmentation(None)
    case Unsupported => Unsupported
  }

  /** The record `merge_images` starts from: a black RGB canvas of the given size, named, in the first sub-image's format and kind. */
  function Canvas0(first: Record, name: string, width: nat, height: nat): Record
  {
    Record(name, first.format, "RGB", map[], Zeros(height, width), Absent(first.ann))
  }

  /** The sub-images moved into the full record in order, each at its offset with its own size, the image rebuilt. */
  function Stitched(full: Record, images: seq<Rectangular>, offsets: seq<(int, int)>, shapes: Shapes): (r: Option<Record>)
    requires |images| == |offsets|
    ensures r.Some? ==>
      r.value.name == full.name && r.value.format == full.format && r.value.mode == full.mode &&
      r.value.meta == full.meta && SameKind(r.value.ann, full.ann)
  {
    if |images| == 0 then Some(full)
    else
      var n := |images| - 1;
      match Stitched(full, images[..n], offsets[..n], shapes)
      case None => None
      case Some(f) =>
        var sub := images[n];
        Transfer(f, sub, Box(offsets[n].0, offsets[n].1, sub.image.width, sub.image.height), true, None, None, shapes)
  }

  /**
   * `merge_images`: the sub-images and offsets paired up to the shorter list, moved into a new
   * record made from the canvas. None where the source raises: no sub-images, a negative size
   * or a transfer that fails.
   */
  function MergedImage(images: seq<Rectangular>, offsets: seq<(int, int)>, width: int, height: int, name: string, shapes: Shapes): (r: Option<Record>)
  {
    if |images| == 0 || width < 0 || height < 0 then None
    else
      var n := if |images| < |offsets| then |images| else |offsets|;
      match NewFromTemplate(Canvas0(images[0], name, width, height), false)
      case None => None
      case Some(template) => Stitched(template, images[..n], offsets[..n], shapes)
  }

  /** A combined record has the given name, the first sub-image's format and kind, mode RGB and no metadata. */
  lemma MergedImageSpec(images: seq<Rectangular>, offsets: seq<(int, int)>, width: int, height: int, name: string, shapes: Shapes)
    ensures var r := MergedImage(images, offsets, width, height, name, shapes);
      r.Some? ==>
        r.value.name == name && r.value.format == images[0].format && r.value.mode == "RGB" &&
        r.value.meta == map[] && SameKind(r.value.ann, images[0].ann)
  {
  }

  /** Whether sub-image `k`, placed at its offset `(x, y)`, covers cell `(i, j)` (row `i`, column `j`). */
  predicate Covers(images: seq<Rectangular>, offsets: seq<(int, int)>, k: int, i: int, j: int)
  {
    0 <= k < |images| && k < |offsets| &&
    offsets[k].1 <= i < offsets[k].1 + images[k].image.height &&
    offsets[k].0 <= j < offsets[k].0 + images[k].image.width
  }

  /** Whether sub-image `k` is the last one covering cell `(i, j)`. */
  predicate LastCover(images: seq<Rectangular>, offsets: seq<(int, int)>, k: int, i: int, j: int)
  {
    Covers(images, offsets, k, i, j) && forall m :: k < m < |images| ==> !Covers(images, offsets, m, i, j)
  }

  /** Whether no sub-image covers cell `(i, j)`. */
  predicate Uncovered(images: seq<Rectangular>, offsets: seq<(int, int)>, i: int, j: int)
  {
    forall m :: 0 <= m < |images| ==> !Covers(images, offsets, m, i, j)
  }

  /**
   * `g` is `base` with the sub-images pasted in order: the same size, each cell holding the pixel of
   * the last sub-image that covers it and the base's value where none does.
   */
  predicate Composed(g: Grid, base: Grid, images: seq<Rectangular>, offsets: seq<(int, int)>)
  {
    g.height == base.height && g.width == base.width &&
    (forall i, j :: 0 <= i < base.height && 0 <= j < base.width && Uncovered(images, offsets, i, j) ==>
      At(g, i, j) == At(base, i, j)) &&
    (forall i, j, k :: 0 <= i < base.height && 0 <= j < base.width && 0 <= k < |images| && LastCover(images, offsets, k, i, j) ==>
      At(g, i, j) == At(images[k].image, i - offsets[k].1, j - offsets[k].0))
  }

  /** Pasting one more sub-image over a composition of the ones before it composes them all. */
  lemma PasteComposed(prev: Grid, next: Grid, base: Grid, images: seq<Rectangular>, offsets: seq<(int, int)>)
    requires |images| == |offsets| > 0
    requires Composed(prev, base, images[..|images| - 1], offsets[..|offsets| - 1])
    requires next.height == prev.height && next.width == prev.width
    requires var n := |images| - 1;
      forall i, j :: 0 <= i < prev.height && 0 <= j < prev.width ==>
        At(next, i, j) == if Covers(images, offsets, n, i, j) then At(images[n].image, i - offsets[n].1, j - offsets[n].0) else At(prev, i, j)
    ensures Composed(next, base, images, offsets)
  {
    var n := |images| - 1;
    var ims, offs := images[..n], offsets[..n];
    forall m, i, j | 0 <= m < n
      ensures Covers(ims, offs, m, i, j) == Covers(images, offsets, m, i, j)
    {
      assert ims[m] == images[m] && offs[m] == offsets[m];
    }
    forall i, j | 0 <= i < base.height && 0 <= j < base.width && Uncovered(images, offsets, i, j)
      ensures At(next, i, j) == At(base, i, j)
    {
      assert !Covers(images, offsets, n, i, j);
      assert Uncovered(ims, offs, i, j);
    }
    forall i, j, k | 0 <= i < base.height && 0 <= j < base.width && LastCover(images, offsets, k, i, j)
      ensures At(next, i, j) == At(images[k].image, i - offsets[k].1, j - offsets[k].0)
    {
      if k < n {
        assert !Covers(images, offsets, n, i, j);
        assert LastCover(ims, offs, k, i, j);
      }
    }
  }

  /** Stitching pastes the sub-images over the full image in order: later ones over earlier ones. */
  lemma {:induction false} StitchedPixels(full: Record, images: seq<Rectangular>, offsets: seq<(int, int)>, shapes: Shapes)
    requires |images| == |offsets|
    ensures var r := Stitched(full, images, offsets, shapes);
      r.Some? ==> Composed(r.value.image, full.image, images, offsets)
  {
    var r := Stitched(full, images, offsets, shapes);
    if |images| > 0 && r.Some? {
      var n := |images| - 1;
      StitchedPixels(full, images[..n], offsets[..n], shapes);
      var f := Stitched(full, images[..n], offsets[..n], shapes).value;
      var sub := images[n];
      var region := Box(offsets[n].0, offsets[n].1, sub.image.width, sub.image.height);
      assert TransferImage(f.image, sub.image, region, true, None, None) == Some(r.value.image);
      PasteComposed(f.image, r.value.image, full.image, images, offsets);
    }
  }

  /**
   * The combined image is `width` by `height`; each cell holds the pixel of the last sub-image
   * covering it, and is black where no sub-image does.
   */
  lemma MergedImagePixels(images: seq<Rectangular>, offsets: seq<(int, int)>, width: int, height: int, name: string, shapes: Shapes)
    requires |images| == |offsets|
    ensures var r := MergedImage(images, offsets, width, height, name, shapes);
      r.Some? ==> r.value.image.width == width && r.value.image.height == height
    ensures var r := MergedImage(images, offsets, width, height, name, shapes);
      r.Some? ==> forall i, j :: 0 <= i < height && 0 <= j < width && Uncovered(images, offsets, i, j) ==> At(r.value.image, i, j) == 0
    ensures var r := MergedImage(images, offsets, width, height, name, shapes);
      r.Some? ==> forall i, j, k :: 0 <= i < height && 0 <= j < width && LastCover(images, offsets, k, i, j) ==>
        At(r.value.image, i, j) == At(images[k].image, i - offsets[k].1, j - offsets[k].0)
  {
    var r := MergedImage(images, offsets, width, height, name, shapes);
    if r.Some? {
      var template := NewFromTemplate(Canvas0(images[0], name, width, height), false).value;
      assert images[..|images|] == images && offsets[..|offsets|] == offsets;
      assert r == Stitched(template, images, offsets, shapes);
      StitchedPixels(template, images, offsets, shapes);
    }
  }

  /** `merge_images` as the source writes it: the canvas, then the transfer loop. */
  method MergeImages(images: seq<Rectangular>, offsets: seq<(int, int)>, width: int, height: int, name: string, shapes: Shapes)
    returns (r: Option<Record>)
    ensures r == MergedImage(images, offsets, width, height, name, shapes)
  {
    if |images| == 0 || width < 0 || height < 0 {
      return None;
    }
    var template := NewFromTemplate(Canvas0(images[0], name, width, height), false);
    if template.None? {
      return None;
    }
    var n := if |images| < |offsets| then |images| else |offsets|;
    r := StitchAll(template.value, images[..n], offsets[..n], shapes);
  }

  /** The transfer loop of `merge_images`. */
  method StitchAll(full: Record, images: seq<Rectangular>, offsets: seq<(int, int)>, shapes: Shapes) returns (r: Option<Record>)
    requires |images| == |offsets|
    ensures r == Stitched(full, images, offsets, shapes)
  {
    var canvas := new Canvas(full);
    for i := 0 to |images|
      invariant Stitched(full, images[..i], offsets[..i], shapes) == Some(canvas.Contents())
    {
      assert images[..i + 1][..i] == images[..i] && offsets[..i + 1][..i] == offsets[..i];
      var sub := images[i];
      var region := Box(offsets[i].0, offsets[i].1, sub.image.width, sub.image.height);
      var ok := canvas.TransferRegion(sub, region, true, None, None, shapes);
      if !ok {
        StitchedStaysFailed(full, images, offsets, shapes, i + 1);
        return None;
      }
    }
    assert images[..|images|] == images && offsets[..|offsets|] == offsets;
    return Some(canvas.Contents());
  }

  lemma {:induction false} StitchedStaysFailed(full: Record, images: seq<Rectangular>, offsets: seq<(int, int)>, shapes: Shapes, n: nat)
    requires |images| == |offsets| && n <= |images| && Stitched(full, images[..n], offsets[..n], shapes).None?
    ensures Stitched(full, images, offsets, shapes).None?
    decreases |images| - n
  {
    if n < |images| {
      assert images[..n + 1][..n] == images[..n] && offsets[..n + 1][..n] == offsets[..n];
      StitchedStaysFailed(full, images, offsets, shapes, n + 1);
    } else {
      assert images[..n] == images && offsets[..n] == offsets;
    }
  }

  // ---------------------------------------------------------------------------
  // combine

  /** The name of a combined image: the key, a dot and the lower-case format, with "jpeg" shortened to "jpg". */
  function CombinedName(key: string, format: string): string
  {
    key + "." + ReplaceAll(Lower(format), "jpeg", "jpg")
  }

  /** A JPEG group gets the extension ".jpg". */
  lemma CombinedNameJpeg(key: string)
    ensures CombinedName(key, "JPEG") == key + ".jpg"
  {
    assert Lower("JPEG") == "jpeg";
    ReplaceWhole("jpeg", "jpg");
  }

  /** A format without a 'j' or 'J' becomes the extension in lower case. */
  lemma CombinedNamePlain(key: string, format: string)
    requires 'j' !in format && 'J' !in format
    ensures CombinedName(key, format) == key + "." + Lower(format)
  {
    assert 'j' !in Lower(format) by {
      forall i | 0 <= i < |format|
        ensures Lower(format)[i] != 'j'
      {
      }
    }
    ReplaceLacking(Lower(format), "jpeg", "jpg");
  }

  /** The options of a run of the tool. */
  datatype Options = Options(group: string, x: string, y: string, width: int, height: int, oneBased: bool, mergeAdjacent: bool)

  /**
   * One group of `combine`: its files read, their offsets extracted, stitched into a record named
   * after the key, then merged on request. None where the source raises.
   */
  function CombinedGroup(key: string, files: seq<string>, opts: Options, read: ReadImages, search: Search,
                         shapes: Shapes, parseReal: string -> Option<real>): Option<Record>
  {
    var images := read(files);
    if |images| == 0 then None
    else
      match Offsets(files, opts.x, opts.y, opts.oneBased, search)
      case None => None
      case Some(offsets) =>
        match MergedImage(images, offsets, opts.width, opts.height, CombinedName(key, images[0].format), shapes)
        case None => None
        case Some(combined) => MergeOnRequest(combined, opts.mergeAdjacent, shapes, parseReal)
  }

  /**
   * `combine`: the records it writes, one per group in the order the keys first occur; None where
   * it raises.
   */
  function Combined(files: seq<string>, opts: Options, read: ReadImages, search: Search,
                    shapes: Shapes, parseReal: string -> Option<real>): Option<seq<Record>>
  {
    match Grouped(files, opts.group, search)
    case None => None
    case Some(g) => MapAll(g.keys, GroupStep(g, opts, read, search, shapes, parseReal))
  }

  /** The combination of one key's group, as a function of the key. */
  function GroupStep(g: Groups, opts: Options, read: ReadImages, search: Search,
                     shapes: Shapes, parseReal: string -> Option<real>): string -> Option<Record>
  {
    key => CombinedGroup(key, FilesOf(g, key), opts, read, search, shapes, parseReal)
  }

  /**
   * A combined record carries the key and the format in its name and keeps the kind of the
   * group's first sub-image; merging happens only on request and only for object detection.
   */
  lemma CombinedGroupSpec(key: string, files: seq<string>, opts: Options, read: ReadImages, search: Search,
                          shapes: Shapes, parseReal: string -> Option<real>)
    ensures var r := CombinedGroup(key, files, opts, read, search, shapes, parseReal);
      r.Some? ==>
        |read(files)| > 0 && r.value.name == CombinedName(key, read(files)[0].format) &&
        r.value.mode == "RGB" && SameKind(r.value.ann, read(files)[0].ann)
    ensures var r := CombinedGroup(key, files, opts, read, search, shapes, parseReal);
      var images := read(files);
      var offsets := Offsets(files, opts.x, opts.y, opts.oneBased, search);
      r.Some? && !(opts.mergeAdjacent && images[0].ann.Detection?) ==>
        offsets.Some? &&
        r == MergedImage(images, offsets.value, opts.width, opts.height, CombinedName(key, images[0].format), shapes)
  {
    var r := CombinedGroup(key, files, opts, read, search, shapes, parseReal);
    if r.Some? {
      var images := read(files);
      var offsets := Offsets(files, opts.x, opts.y, opts.oneBased, search).value;
      MergedImageSpec(images, offsets, opts.width, opts.height, CombinedName(key, images[0].format), shapes);
    }
  }

  /**
   * Every group is combined: one record per key, in key order, each from exactly the files with
   * that key.
   */
  lemma CombinedSpec(files: seq<string>, opts: Options, read: ReadImages, search: Search,
                     shapes: Shapes, parseReal: string -> Option<real>)
    ensures var r := Combined(files, opts, read, search, shapes, parseReal);
      r.Some? ==>
        var g := Grouped(files, opts.group, search).value;
        |r.value| == |g.keys| &&
        forall i :: 0 <= i < |g.keys| ==>
          Some(r.value[i]) == CombinedGroup(g.keys[i], FilesWithKey(files, opts.group, search, g.keys[i]), opts, read, search, shapes, parseReal)
  {
    var r := Combined(files, opts, read, search, shapes, parseReal);
    if r.Some? {
      var g := Grouped(files, opts.group, search).value;
      var step := GroupStep(g, opts, read, search, shapes, parseReal);
      assert |r.value| == |g.keys| && forall i :: 0 <= i < |g.keys| ==> step(g.keys[i]) == Some(r.value[i]);
      assert forall k :: k in g.keys ==> FilesOf(g, k) == FilesWithKey(files, opts.group, search, k) by {
        GroupedSpec(files, opts.group, search);
      }
      forall i | 0 <= i < |g.keys|
        ensures Some(r.value[i]) == CombinedGroup(g.keys[i], FilesWithKey(files, opts.group, search, g.keys[i]), opts, read, search, shapes, parseReal)
      {
        assert step(g.keys[i]) == CombinedGroup(g.keys[i], FilesOf(g, g.keys[i]), opts, read, search, shapes, parseReal);
      }
    }
  }

  /** One group of `combine` as the source writes it. */
  method CombineGroup(key: string, files: seq<string>, opts: Options, read: ReadImages, search: Search,
                      shapes: Shapes, parseReal: string -> Option<real>) returns (r: Option<Record>)
    ensures r == CombinedGroup(key, files, opts, read, search, shapes, parseReal)
  {
    var images := read(files);
    if |images| == 0 {
      return None;
    }
    var offsets := ExtractCoordinates(files, opts.x, opts.y, opts.oneBased, search);
    if offsets.None? {
      return None;
    }
    var name := key + "." + ReplaceAll(Lower(images[0].format), "jpeg", "jpg");
    var combined := MergeImages(images, offsets.value, opts.width, opts.height, name, shapes);
    if combined.None? {
      return None;
    }
    if opts.mergeAdjacent && combined.value.ann.Detection? {
      r := MergeDetections(combined.value, shapes, parseReal);
    } else {
      r := combined;
    }
  }

  /** `combine` as the source writes it: group the files, then combine the groups one by one. */
  method Combine(files: seq<string>, opts: Options, read: ReadImages, search: Search,
                 shapes: Shapes, parseReal: string -> Option<real>) returns (r: Option<seq<Record>>)
    ensures r == Combined(files, opts, read, search, shapes, parseReal)
  {
    var grouped := GroupFiles(files, opts.group, search);
    if grouped.None? {
      return None;
    }
    r := CombineAll(grouped.value, grouped.value.keys, opts, read, search, shapes, parseReal);
  }

  /** One key's group, combined. */
  method CombineKey(g: Groups, key: string, opts: Options, read: ReadImages, search: Search,
                    shapes: Shapes, parseReal: string -> Option<real>) returns (r: Option<Record>)
    ensures r == GroupStep(g, opts, read, search, shapes, parseReal)(key)
  {
    r := CombineGroup(key, FilesOf(g, key), opts, read, search, shapes, parseReal);
  }

  /** The loop over the groups' keys, combining and collecting one group at a time. */
  method CombineAll(g: Groups, keys: seq<string>, opts: Options, read: ReadImages, search: Search,
                    shapes: Shapes, parseReal: string -> Option<real>) returns (r: Option<seq<Record>>)
    ensures r == MapAll(keys, GroupStep(g, opts, read, search, shapes, parseReal))
  {
    var step := GroupStep(g, opts, read, search, shapes, parseReal);
    var written: seq<Record> := [];
    for i := 0 to |keys|
      invariant |written| == i
      invariant forall k :: 0 <= k < i ==> step(keys[k]) == Some(written[k])
    {
      var combined := CombineKey(g, keys[i], opts, read, search, shapes, parseReal);
      if combined.None? {
        MapAllFails(keys, i, step);
        return None;
      }
      MapAllPrefix(keys, step, written, combined.value);
      written := written + [combined.value];
    }
    MapAllSucceeds(keys, step, written);
    return Some(written);
  }
}
