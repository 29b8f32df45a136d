/**
 * Merging adjacent polygons of a reassembled object-detection record: objects with the same label
 * that have a pair of parallel edges close to each other are grouped, the groups are gathered into
 * merge sets, and each merge set is replaced by the union of its members' polygons, carrying the
 * shared label and the mean score. Objects in no merge set are kept unchanged, ahead of the merged
 * ones. Slopes are exact reals; the distance between two edges and polygon union and convex hull
 * come from the geometry library (`Shapes`).
 */
module Merging {
  import opened Wrappers
  import opened Geometry
  import opened Records

  // ---------------------------------------------------------------------------
  // edges and slopes

  /** The edges of an outline: edge `n` runs from point `n - 1` (the last point for `n = 0`) to point `n`. */
  function Edges(pts: seq<Point>): (es: seq<Segment>)
    ensures |es| == |pts|
  {
    seq(|pts|, n requires 0 <= n < |pts| => Segment(pts[if n == 0 then |pts| - 1 else n - 1], pts[n]))
  }

  /** The slope of an edge: infinite for a vertical one (no change in x), else the change in y over the change in x. */
  datatype Slope = Vertical | Finite(m: real)

  function SlopeOf(e: Segment): Slope
  {
    if e.to.x - e.from.x == 0 then Vertical
    else Finite((e.to.y - e.from.y) as real / (e.to.x - e.from.x) as real)
  }

  function Abs(r: real): real { if r < 0.0 then -r else r }

  /** Whether two slopes count as parallel: both horizontal, both vertical, or differing by at most `maxSlopeDiff`. */
  predicate Parallel(a: Slope, b: Slope, maxSlopeDiff: real)
  {
    if a == Finite(0.0) && b == Finite(0.0) then true
    else if a.Vertical? && b.Vertical? then true
    else a.Finite? && b.Finite? && Abs(a.m - b.m) <= maxSlopeDiff
  }

  /** Whether two edges are parallel and at most `maxDist` apart. */
  predicate ParallelClose(a: Segment, b: Segment, maxSlopeDiff: real, maxDist: real, shapes: Shapes)
  {
    Parallel(SlopeOf(a), SlopeOf(b), maxSlopeDiff) && shapes.distance(a, b) <= maxDist
  }

  /** Whether some edge of one object is parallel and close to some edge of the other. */
  predicate Touching(a: Obj, b: Obj, maxSlopeDiff: real, maxDist: real, shapes: Shapes)
  {
    var ea, eb := Edges(Outline(a)), Edges(Outline(b));
    exists i, j :: 0 <= i < |ea| && 0 <= j < |eb| && ParallelClose(ea[i], eb[j], maxSlopeDiff, maxDist, shapes)
  }

  /** The loops over the edge pairs of two objects. */
  method EdgesTouch(a: Obj, b: Obj, maxSlopeDiff: real, maxDist: real, shapes: Shapes) returns (t: bool)
    ensures t == Touching(a, b, maxSlopeDiff, maxDist, shapes)
  {
    var ea, eb := Edges(Outline(a)), Edges(Outline(b));
    t := false;
    var i := 0;
    while i < |ea|
      invariant 0 <= i <= |ea|
      invariant t <==> exists p, q :: 0 <= p < i && 0 <= q < |eb| && ParallelClose(ea[p], eb[q], maxSlopeDiff, maxDist, shapes)
    {
      var j := 0;
      while j < |eb|
        invariant 0 <= j <= |eb|
        invariant t <==> (exists p, q :: 0 <= p < i && 0 <= q < |eb| && ParallelClose(ea[p], eb[q], maxSlopeDiff, maxDist, shapes)) ||
                         (exists q :: 0 <= q < j && ParallelClose(ea[i], eb[q], maxSlopeDiff, maxDist, shapes))
      {
        var isParallel := false;
        var si, sj := SlopeOf(ea[i]), SlopeOf(eb[j]);
        if si == Finite(0.0) && sj == Finite(0.0) {
          isParallel := true;
        } else if si.Vertical? && sj.Vertical? {
          isParallel := true;
        } else if si.Finite? && sj.Finite? && Abs(si.m - sj.m) <= maxSlopeDiff {
          isParallel := true;
        }
        if isParallel {
          if shapes.distance(ea[i], eb[j]) <= maxDist {
            t := true;
          }
        }
        j := j + 1;
      }
      i := i + 1;
    }
  }

  // ---------------------------------------------------------------------------
  // parallel objects

  /**
   * An object together with the later objects it is to be merged with. The partners are kept in
   * ascending order; CPython iterates the source's set of partners in hash-table order, which need
   * not be ascending, and that order decides which merge set a group joins.
   */
  datatype Group = Group(first: nat, partners: seq<nat>)

  function Members(g: Group): seq<nat>
  {
    [g.first] + g.partners
  }

  /** Whether object `n` is a partner of object `i`: same label and touching. */
  predicate Partner(objs: seq<Obj>, i: nat, n: nat, maxSlopeDiff: real, maxDist: real, shapes: Shapes)
    requires i < |objs| && n < |objs|
  {
    Label(objs[i]) == Label(objs[n]) && Touching(objs[i], objs[n], maxSlopeDiff, maxDist, shapes)
  }

  /** The numbers from `lo` up to `m` that satisfy `p`, ascending. */
  function Matching(lo: nat, m: nat, p: nat -> bool): (ps: seq<nat>)
    ensures forall k :: 0 <= k < |ps| ==> lo <= ps[k] < m && p(ps[k])
    ensures forall n :: lo <= n < m && p(n) ==> n in ps
    ensures forall k, l :: 0 <= k < l < |ps| ==> ps[k] < ps[l]
  {
    if m <= lo then []
    else
      var init := Matching(lo, m - 1, p);
      var last := if p(m - 1) then [m - 1] else [];
      assert forall k :: 0 <= k < |init| ==> (init + last)[k] == init[k];
      init + last
  }

  /** The test applied to each later object in the inner loop. */
  function PartnerOf(objs: seq<Obj>, i: nat, maxSlopeDiff: real, maxDist: real, shapes: Shapes): nat -> bool
    requires i < |objs|
  {
    (n: nat) => n < |objs| && Partner(objs, i, n, maxSlopeDiff, maxDist, shapes)
  }

  /** The partners of object `i` among the objects after it and before `m`, ascending. */
  function PartnersBelow(objs: seq<Obj>, i: nat, m: nat, maxSlopeDiff: real, maxDist: real, shapes: Shapes): (ps: seq<nat>)
    requires i < |objs| && m <= |objs|
    ensures forall k :: 0 <= k < |ps| ==> i < ps[k] < m && Partner(objs, i, ps[k], maxSlopeDiff, maxDist, shapes)
    ensures forall n :: i < n < m && Partner(objs, i, n, maxSlopeDiff, maxDist, shapes) ==> n in ps
    ensures forall k, l :: 0 <= k < l < |ps| ==> ps[k] < ps[l]
  {
    var p := PartnerOf(objs, i, maxSlopeDiff, maxDist, shapes);
    var ps := Matching(i + 1, m, p);
    assert forall n: nat :: n < |objs| ==> (p(n) <==> Partner(objs, i, n, maxSlopeDiff, maxDist, shapes));
    ps
  }

  /** Looking at one more later object appends it when it is a partner. */
  lemma PartnersBelowSnoc(objs: seq<Obj>, i: nat, n: nat, maxSlopeDiff: real, maxDist: real, shapes: Shapes)
    requires i < n < |objs|
    ensures PartnersBelow(objs, i, n + 1, maxSlopeDiff, maxDist, shapes) ==
      PartnersBelow(objs, i, n, maxSlopeDiff, maxDist, shapes) + (if Partner(objs, i, n, maxSlopeDiff, maxDist, shapes) then [n] else [])
  {
    var p := PartnerOf(objs, i, maxSlopeDiff, maxDist, shapes);
    assert Matching(i + 1, n + 1, p) == Matching(i + 1, n, p) + (if p(n) then [n] else []);
  }

  /** The groups of the objects before `m`, one per object that has partners, in object order. */
  function GroupsBelow(objs: seq<Obj>, m: nat, maxSlopeDiff: real, maxDist: real, shapes: Shapes): (gs: seq<Group>)
    requires m <= |objs|
    ensures forall k :: 0 <= k < |gs| ==>
      gs[k].first < m && |gs[k].partners| > 0 && gs[k].partners == PartnersBelow(objs, gs[k].first, |objs|, maxSlopeDiff, maxDist, shapes)
  {
    if m == 0 then []
    else
      var ps := PartnersBelow(objs, m - 1, |objs|, maxSlopeDiff, maxDist, shapes);
      var init := GroupsBelow(objs, m - 1, maxSlopeDiff, maxDist, shapes);
      var last := if |ps| > 0 then [Group(m - 1, ps)] else [];
      assert forall k :: 0 <= k < |init| ==> (init + last)[k] == init[k];
      init + last
  }

  /** The `parallel` dictionary: every object with partners, and its partners. */
  function ParallelGroups(objs: seq<Obj>, maxSlopeDiff: real, maxDist: real, shapes: Shapes): seq<Group>
  {
    GroupsBelow(objs, |objs|, maxSlopeDiff, maxDist, shapes)
  }

  /** Whether `s` holds objects of the record only, all with the same label. */
  predicate SameLabel(objs: seq<Obj>, s: set<nat>)
  {
    (forall x :: x in s ==> x < |objs|) &&
    forall x, y :: x in s && y in s && x < |objs| && y < |objs| ==> Label(objs[x]) == Label(objs[y])
  }

  /** The members of every group are objects of the record that share one label. */
  lemma GroupsShareLabel(objs: seq<Obj>, maxSlopeDiff: real, maxDist: real, shapes: Shapes)
    ensures var gs := ParallelGroups(objs, maxSlopeDiff, maxDist, shapes);
      forall k :: 0 <= k < |gs| ==> SameLabel(objs, Elems(Members(gs[k])))
  {
    var gs := ParallelGroups(objs, maxSlopeDiff, maxDist, shapes);
    forall k | 0 <= k < |gs|
      ensures SameLabel(objs, Elems(Members(gs[k])))
    {
      var g := gs[k];
      assert forall x :: x in Elems(Members(g)) ==> x == g.first || x in g.partners;
      assert forall x :: x in Elems(Members(g)) ==> x < |objs| && Label(objs[x]) == Label(objs[g.first]);
    }
  }

  /** The inner loop: the later objects that share object `i`'s label and touch it. */
  method PartnerLoop(objs: seq<Obj>, i: nat, maxSlopeDiff: real, maxDist: real, shapes: Shapes) returns (ps: seq<nat>)
    requires i < |objs|
    ensures ps == PartnersBelow(objs, i, |objs|, maxSlopeDiff, maxDist, shapes)
  {
    ps := [];
    var n := i + 1;
    while n < |objs|
      invariant i + 1 <= n <= |objs|
      invariant ps == PartnersBelow(objs, i, n, maxSlopeDiff, maxDist, shapes)
    {
      PartnersBelowSnoc(objs, i, n, maxSlopeDiff, maxDist, shapes);
      if Label(objs[i]) == Label(objs[n]) {
        var t := EdgesTouch(objs[i], objs[n], maxSlopeDiff, maxDist, shapes);
        if t {
          ps := ps + [n];
        }
      }
      n := n + 1;
    }
  }

  /** The nested loops that fill the `parallel` dictionary. */
  method ParallelLoop(objs: seq<Obj>, maxSlopeDiff: real, maxDist: real, shapes: Shapes) returns (groups: seq<Group>)
    ensures groups == ParallelGroups(objs, maxSlopeDiff, maxDist, shapes)
  {
    groups := [];
    var i := 0;
    while i < |objs|
      invariant 0 <= i <= |objs|
      invariant groups == GroupsBelow(objs, i, maxSlopeDiff, maxDist, shapes)
    {
      var ps := PartnerLoop(objs, i, maxSlopeDiff, maxDist, shapes);
      if |ps| > 0 {
        groups := groups + [Group(i, ps)];
      }
      i := i + 1;
    }
  }

  // ---------------------------------------------------------------------------
  // merge sets

  function Elems(s: seq<nat>): set<nat>
  {
    set x | x in s
  }

  /** The first merge set holding `a`. */
  function FirstSet(sets: seq<set<nat>>, a: nat): (r: Option<nat>)
    ensures r.Some? ==> r.value < |sets| && a in sets[r.value] && forall j :: 0 <= j < r.value ==> a !in sets[j]
    ensures r.None? ==> forall j :: 0 <= j < |sets| ==> a !in sets[j]
  {
    if |sets| == 0 then None
    else if a in sets[0] then Some(0)
    else match FirstSet(sets[1..], a)
      case None => None
      case Some(j) => Some(j + 1)
  }

  /** The first member (by position) that already lies in a merge set, and that set. */
  datatype Hit = Hit(pos: nat, set_: nat)

  function FirstHit(all: seq<nat>, sets: seq<set<nat>>): (r: Option<Hit>)
    ensures r.Some? ==>
      r.value.pos < |all| && FirstSet(sets, all[r.value.pos]) == Some(r.value.set_) &&
      forall k :: 0 <= k < r.value.pos ==> FirstSet(sets, all[k]).None?
    ensures r.None? ==> forall k :: 0 <= k < |all| ==> FirstSet(sets, all[k]).None?
  {
    if |all| == 0 then None
    else match FirstSet(sets, all[0])
      case Some(j) => Some(Hit(0, j))
      case None =>
        match FirstHit(all[1..], sets)
        case None => None
        case Some(h) => Some(Hit(h.pos + 1, h.set_))
  }

  /** A group joins the first merge set one of its members is in, or starts a new one. */
  function JoinSets(sets: seq<set<nat>>, all: seq<nat>): seq<set<nat>>
  {
    match FirstHit(all, sets)
    case None => sets + [Elems(all)]
    case Some(h) => sets[h.set_ := sets[h.set_] + Elems(all)]
  }

  /** The merge sets and the objects to merge. */
  datatype MergeState = MergeState(sets: seq<set<nat>>, toMerge: set<nat>)

  /** One group added: all its members are marked for merging. */
  function AddGroup(st: MergeState, all: seq<nat>): MergeState
  {
    MergeState(JoinSets(st.sets, all), st.toMerge + Elems(all))
  }

  /**
   * One group added as the source does it: the scan that marks members for merging stops at the
   * first member found in a merge set, so the members after it are not marked.
   */
  function AddGroupAsWritten(st: MergeState, all: seq<nat>): MergeState
  {
    match FirstHit(all, st.sets)
    case None => MergeState(st.sets + [Elems(all)], st.toMerge + Elems(all))
    case Some(h) => MergeState(st.sets[h.set_ := st.sets[h.set_] + Elems(all)], st.toMerge + Elems(all[..h.pos + 1]))
  }

  function MergeSets(groups: seq<Group>): MergeState
  {
    if |groups| == 0 then MergeState([], {})
    else AddGroup(MergeSets(groups[..|groups| - 1]), Members(groups[|groups| - 1]))
  }

  function MergeSetsAsWritten(groups: seq<Group>): MergeState
  {
    if |groups| == 0 then MergeState([], {})
    else AddGroupAsWritten(MergeSetsAsWritten(groups[..|groups| - 1]), Members(groups[|groups| - 1]))
  }

  /** Whether `x` lies in one of the merge sets. */
  predicate InSomeSet(sets: seq<set<nat>>, x: nat)
  {
    exists j :: 0 <= j < |sets| && x in sets[j]
  }

  /** The objects marked for merging are exactly those in some merge set. */
  lemma {:induction false} MergeSetsCover(groups: seq<Group>)
    ensures forall x :: x in MergeSets(groups).toMerge <==> InSomeSet(MergeSets(groups).sets, x)
  {
    if |groups| > 0 {
      var st := MergeSets(groups[..|groups| - 1]);
      MergeSetsCover(groups[..|groups| - 1]);
      var all := Members(groups[|groups| - 1]);
      var sets := JoinSets(st.sets, all);
      forall x
        ensures x in st.toMerge + Elems(all) <==> InSomeSet(sets, x)
      {
        match FirstHit(all, st.sets)
        case None =>
          if x in Elems(all) {
            assert x in sets[|st.sets|];
          }
          if InSomeSet(sets, x) {
            var j :| 0 <= j < |sets| && x in sets[j];
            if j < |st.sets| {
              assert x in st.sets[j];
            }
          }
          if InSomeSet(st.sets, x) {
            var j :| 0 <= j < |st.sets| && x in st.sets[j];
            assert x in sets[j];
          }
        case Some(h) =>
          if x in Elems(all) {
            assert x in sets[h.set_];
          }
          if InSomeSet(sets, x) {
            var j :| 0 <= j < |sets| && x in sets[j];
            if j != h.set_ || x !in Elems(all) {
              assert x in st.sets[j];
            }
          }
          if InSomeSet(st.sets, x) {
            var j :| 0 <= j < |st.sets| && x in st.sets[j];
            assert x in sets[j];
          }
      }
    }
  }

  /** Two sets of one label that share a member make a set of one label. */
  lemma SameLabelJoin(objs: seq<Obj>, a: set<nat>, b: set<nat>, m: nat)
    requires SameLabel(objs, a) && SameLabel(objs, b) && m in a && m in b
    ensures SameLabel(objs, a + b)
  {
    forall x, y | x in a + b && y in a + b && x < |objs| && y < |objs|
      ensures Label(objs[x]) == Label(objs[y])
    {
      assert Label(objs[x]) == Label(objs[m]) == Label(objs[y]);
    }
  }

  /** When the members of each group share a label, so do the members of each merge set. */
  lemma {:induction false} MergeSetsShareLabel(groups: seq<Group>, objs: seq<Obj>)
    requires forall k :: 0 <= k < |groups| ==> SameLabel(objs, Elems(Members(groups[k])))
    ensures var sets := MergeSets(groups).sets; forall j :: 0 <= j < |sets| ==> SameLabel(objs, sets[j])
  {
    if |groups| > 0 {
      var init := groups[..|groups| - 1];
      MergeSetsShareLabel(init, objs);
      var st := MergeSets(init);
      forall j | 0 <= j < |st.sets|
        ensures SameLabel(objs, st.sets[j])
      {
        assert SameLabel(objs, MergeSets(init).sets[j]);
      }
      var all := Members(groups[|groups| - 1]);
      var sets := MergeSets(groups).sets;
      assert sets == JoinSets(st.sets, all);
      assert SameLabel(objs, Elems(all));
      match FirstHit(all, st.sets)
      case None =>
        forall j | 0 <= j < |sets|
          ensures SameLabel(objs, sets[j])
        {
          if j < |st.sets| {
            assert sets[j] == st.sets[j];
          } else {
            assert sets[j] == Elems(all);
          }
        }
      case Some(h) =>
        var a := all[h.pos];
        assert a in st.sets[h.set_] && a in Elems(all);
        assert SameLabel(objs, st.sets[h.set_]);
        SameLabelJoin(objs, st.sets[h.set_], Elems(all), a);
        forall j | 0 <= j < |sets|
          ensures SameLabel(objs, sets[j])
        {
          if j != h.set_ {
            assert sets[j] == st.sets[j];
          }
        }
    }
  }

  /**
   * Three tiles of one object, where object 0 touches 1 and 1 touches 2: the source puts all three
   * in one merge set but marks only objects 0 and 1 for merging, so object 2 is both kept unchanged
   * and merged.
   */
  lemma MergeSetsMissMember()
    ensures MergeSetsAsWritten([Group(0, [1]), Group(1, [2])]) == MergeState([{0, 1, 2}], {0, 1})
    ensures MergeSets([Group(0, [1]), Group(1, [2])]) == MergeState([{0, 1, 2}], {0, 1, 2})
  {
    var g := [Group(0, [1]), Group(1, [2])];
    var first := MergeState([{0, 1}], {0, 1});
    FirstGroupState();
    assert g[..1] == [Group(0, [1])] && Members(g[1]) == [1, 2];
    SecondGroupHit(first);
    assert Elems([1, 2]) == {1, 2} && Elems([1, 2][..1]) == {1};
    assert {0, 1} + {1, 2} == {0, 1, 2};
  }

  /** After the first group alone, both versions hold the one set {0, 1}, fully marked. */
  lemma FirstGroupState()
    ensures MergeSetsAsWritten([Group(0, [1])]) == MergeState([{0, 1}], {0, 1})
    ensures MergeSets([Group(0, [1])]) == MergeState([{0, 1}], {0, 1})
  {
    var g := [Group(0, [1])];
    assert g[..0] == [];
    assert Members(g[0]) == [0, 1];
    assert Elems([0, 1]) == {0, 1};
    assert FirstHit([0, 1], []) == None;
  }

  /** The second group's first member, 1, already lies in the first set. */
  lemma SecondGroupHit(first: MergeState)
    requires first == MergeState([{0, 1}], {0, 1})
    ensures FirstHit([1, 2], first.sets) == Some(Hit(0, 0))
  {
    assert FirstSet(first.sets, 1) == Some(0);
  }

  /** The loop that builds the merge sets, with every member of a group marked for merging. */
  method BuildMergeSets(groups: seq<Group>) returns (sets: seq<set<nat>>, toMerge: set<nat>)
    ensures MergeState(sets, toMerge) == MergeSets(groups)
  {
    sets, toMerge := [], {};
    var g := 0;
    while g < |groups|
      invariant 0 <= g <= |groups|
      invariant MergeState(sets, toMerge) == MergeSets(groups[..g])
    {
      assert groups[..g + 1][..g] == groups[..g];
      var all := Members(groups[g]);
      var found := FindHit(all, sets);
      if found.None? {
        sets := sets + [Elems(all)];
      } else {
        sets := sets[found.value := sets[found.value] + Elems(all)];
      }
      toMerge := toMerge + Elems(all);
      g := g + 1;
    }
    assert groups[..g] == groups;
  }

  /** The scan over a group's members for one already in a merge set. */
  method FindHit(all: seq<nat>, sets: seq<set<nat>>) returns (found: Option<nat>)
    ensures FirstHit(all, sets).None? ==> found.None?
    ensures FirstHit(all, sets).Some? ==> found == Some(FirstHit(all, sets).value.set_)
  {
    found := None;
    var k := 0;
    while k < |all|
      invariant 0 <= k <= |all|
      invariant forall p :: 0 <= p < k ==> FirstSet(sets, all[p]).None?
    {
      var n := 0;
      while n < |sets|
        invariant 0 <= n <= |sets|
        invariant forall j :: 0 <= j < n ==> all[k] !in sets[j]
      {
        if all[k] in sets[n] {
          FirstHitAt(all, sets, k, n);
          return Some(n);
        }
        n := n + 1;
      }
      k := k + 1;
    }
  }

  /** The first member in a set, in the first set that holds it, is the hit. */
  lemma {:induction false} FirstHitAt(all: seq<nat>, sets: seq<set<nat>>, k: nat, n: nat)
    requires k < |all| && n < |sets| && all[k] in sets[n]
    requires forall j :: 0 <= j < n ==> all[k] !in sets[j]
    requires forall p :: 0 <= p < k ==> FirstSet(sets, all[p]).None?
    ensures FirstHit(all, sets) == Some(Hit(k, n))
    decreases k
  {
    assert FirstSet(sets, all[k]) == Some(n);
    if k > 0 {
      assert forall p :: 0 <= p < k - 1 ==> all[1..][p] == all[p + 1];
      FirstHitAt(all[1..], sets, k - 1, n);
    }
  }

  // ---------------------------------------------------------------------------
  // the merged objects

  /** Every index in `members` is below `n`. */
  predicate Within(members: seq<nat>, n: nat)
  {
    forall k :: 0 <= k < |members| ==> members[k] < n
  }

  /**
   * The elements of a set in ascending order: the order in which the members of a merge set are
   * merged. CPython iterates a set in hash-table order instead, which need not be ascending; with
   * every member of a set under one label, neither the label, the mean score nor the union of the
   * outlines depends on that order.
   */
  function Ascending(s: set<nat>): (r: seq<nat>)
    ensures forall x :: x in r <==> x in s
    ensures forall k :: 0 <= k < |r| ==> r[k] in s
    ensures |r| == |s|
    decreases |s|
  {
    if s == {} then []
    else
      var m := Least(s);
      assert |s - {m}| == |s| - 1;
      [m] + Ascending(s - {m})
  }

  /** The least element of a non-empty set of naturals. */
  function Least(s: set<nat>): (m: nat)
    requires s != {}
    ensures m in s && forall x :: x in s ==> m <= x
  {
    MinExists(s);
    MinUnique(s);
    var m :| m in s && forall x :: x in s ==> m <= x;
    m
  }

  lemma MinExists(s: set<nat>)
    requires s != {}
    ensures exists m :: m in s && forall x :: x in s ==> m <= x
  {
    var y :| y in s;
    LeastBelow(s, y);
  }

  /** A set has at most one least element. */
  lemma MinUnique(s: set<nat>)
    ensures forall a, b :: a in s && b in s && (forall x :: x in s ==> a <= x) && (forall x :: x in s ==> b <= x) ==> a == b
  {
  }

  /** A set of naturals holding `y` has a least element, found by descending from `y`. */
  lemma {:induction false} LeastBelow(s: set<nat>, y: nat)
    requires y in s
    ensures exists m :: m in s && forall x :: x in s ==> m <= x
    decreases y
  {
    if exists z :: z in s && z < y {
      var z :| z in s && z < y;
      LeastBelow(s, z);
    } else {
      assert forall x :: x in s ==> y <= x;
    }
  }

  /** `float()` of a metadata value; None where it raises. Parsing a text is the library's. */
  function ToReal(v: MetaValue, parseReal: string -> Option<real>): Option<real>
  {
    match v
    case Int(i) => Some(i as real)
    case Real(r) => Some(r)
    case Text(t) => parseReal(t)
  }

  /** The scores of the members that have one, in member order; None when one is not a number. */
  function Scores(objs: seq<Obj>, members: seq<nat>, parseReal: string -> Option<real>): (r: Option<seq<real>>)
    requires Within(members, |objs|)
    ensures r.Some? ==> |r.value| <= |members|
    ensures r.Some? && |r.value| == 0 ==> forall k :: 0 <= k < |members| ==> "score" !in objs[members[k]].meta
  {
    if |members| == 0 then Some([])
    else
      var o := objs[members[|members| - 1]];
      match Scores(objs, members[..|members| - 1], parseReal)
      case None => None
      case Some(init) =>
        if "score" in o.meta then
          match ToReal(o.meta["score"], parseReal)
          case None => None
          case Some(v) => Some(init + [v])
        else Some(init)
  }

  function Sum(xs: seq<real>): real
  {
    if |xs| == 0 then 0.0 else Sum(xs[..|xs| - 1]) + xs[|xs| - 1]
  }

  /** The label of a merge set: the first member label that is present. */
  function FirstLabel(objs: seq<Obj>, members: seq<nat>): (l: Option<MetaValue>)
    requires Within(members, |objs|)
    ensures l.Some? ==> exists k :: 0 <= k < |members| && Label(objs[members[k]]) == l
    ensures l.None? ==> forall k :: 0 <= k < |members| ==> Label(objs[members[k]]).None?
  {
    if |members| == 0 then None
    else if Label(objs[members[0]]).Some? then Label(objs[members[0]])
    else FirstLabel(objs, members[1..])
  }

  /** The union of the members' polygons, in member order; None when the library raises. */
  function UnionOf(objs: seq<Obj>, members: seq<nat>, shapes: Shapes): Option<Geom>
    requires Within(members, |objs|)
  {
    if |members| == 0 then None
    else if |members| == 1 then Some(Poly(Ring(objs[members[0]])))
    else
      match UnionOf(objs, members[..|members| - 1], shapes)
      case None => None
      case Some(g) =>
        var u := shapes.union(g, Poly(Ring(objs[members[|members| - 1]])));
        if u.Raised? then None else Some(u)
  }

  function MinX(ring: seq<Point>): (m: int)
    requires |ring| > 0
    ensures forall p :: p in ring ==> m <= p.x
    ensures exists p :: p in ring && m == p.x
  {
    if |ring| == 1 then ring[0].x else Min(ring[0].x, MinX(ring[1..]))
  }

  function MaxX(ring: seq<Point>): (m: int)
    requires |ring| > 0
    ensures forall p :: p in ring ==> p.x <= m
    ensures exists p :: p in ring && m == p.x
  {
    if |ring| == 1 then ring[0].x else Max(ring[0].x, MaxX(ring[1..]))
  }

  function MinY(ring: seq<Point>): (m: int)
    requires |ring| > 0
    ensures forall p :: p in ring ==> m <= p.y
    ensures exists p :: p in ring && m == p.y
  {
    if |ring| == 1 then ring[0].y else Min(ring[0].y, MinY(ring[1..]))
  }

  function MaxY(ring: seq<Point>): (m: int)
    requires |ring| > 0
    ensures forall p :: p in ring ==> p.y <= m
    ensures exists p :: p in ring && m == p.y
  {
    if |ring| == 1 then ring[0].y else Max(ring[0].y, MaxY(ring[1..]))
  }

  /** The rectangle spanning a ring's bounds inclusively. */
  function BoundsBox(ring: seq<Point>): (b: Box)
    requires |ring| > 0
    ensures b.width >= 1 && b.height >= 1
    ensures forall p :: p in ring ==> Covers(b, p.x, p.y)
  {
    var x0, y0, x1, y1 := MinX(ring), MinY(ring), MaxX(ring), MaxY(ring);
    Box(x0, y0, x1 - x0 + 1, y1 - y0 + 1)
  }

  /**
   * `shapely_to_locatedobject`: a multi-polygon is replaced by its convex hull; the rectangle spans
   * the polygon's bounds inclusively and the polygon is its ring. None for a result that is not a
   * polygon with points (its bounds are not part of this model).
   */
  function ToObject(g: Geom, lbl: Option<MetaValue>, shapes: Shapes): (o: Option<Obj>)
    ensures o.Some? ==> o.value.polygon.Some? && |o.value.polygon.value| > 0
    ensures o.Some? ==> forall p :: p in o.value.polygon.value ==> Covers(o.value.box, p.x, p.y)
    ensures o.Some? ==> o.value.box.width >= 1 && o.value.box.height >= 1
    ensures o.Some? ==> (lbl.Some? ==> o.value.meta == map[LabelKey := lbl.value]) && (lbl.None? ==> o.value.meta == map[])
  {
    var h := if g.Multi? then shapes.hull(g) else g;
    if h.Poly? && |h.ring| > 0 then
      var meta: Meta := if lbl.Some? then map[LabelKey := lbl.value] else map[];
      Some(Obj(BoundsBox(h.ring), Some(h.ring), meta))
    else None
  }

  /** The object a merge set becomes: the union's outline, the set's label and, when any member has one, the mean score. */
  function MergedObject(objs: seq<Obj>, members: seq<nat>, shapes: Shapes, parseReal: string -> Option<real>): (o: Option<Obj>)
    requires Within(members, |objs|)
  {
    match (UnionOf(objs, members, shapes), Scores(objs, members, parseReal))
    case (Some(g), Some(scores)) =>
      (match ToObject(g, FirstLabel(objs, members), shapes)
       case None => None
       case Some(obj) =>
         if |scores| > 0 then Some(obj.(meta := obj.meta["score" := Real(Sum(scores) / |scores| as real)])) else Some(obj))
    case _ => None
  }

  /**
   * A merged object carries only the set's label and, when a member has a score, the mean of the
   * members' scores; its rectangle covers its polygon.
   */
  lemma MergedObjectSpec(objs: seq<Obj>, members: seq<nat>, shapes: Shapes, parseReal: string -> Option<real>)
    requires Within(members, |objs|)
    requires MergedObject(objs, members, shapes, parseReal).Some?
    ensures var o := MergedObject(objs, members, shapes, parseReal).value;
      var scores := Scores(objs, members, parseReal).value;
      (forall k :: k in o.meta ==> k == LabelKey || k == "score") &&
      (LabelKey in o.meta <==> FirstLabel(objs, members).Some?) &&
      (LabelKey in o.meta ==> o.meta[LabelKey] == FirstLabel(objs, members).value) &&
      ("score" in o.meta <==> exists k :: 0 <= k < |members| && "score" in objs[members[k]].meta) &&
      ("score" in o.meta ==> o.meta["score"] == Real(Sum(scores) / |scores| as real)) &&
      forall p :: p in o.polygon.value ==> Covers(o.box, p.x, p.y)
  {
    var scores := Scores(objs, members, parseReal).value;
    var o := MergedObject(objs, members, shapes, parseReal).value;
    if |scores| > 0 {
      assert "score" in o.meta;
      ScoresFromMembers(objs, members, parseReal);
    }
  }

  /** A score was collected only from a member that has one. */
  lemma {:induction false} ScoresFromMembers(objs: seq<Obj>, members: seq<nat>, parseReal: string -> Option<real>)
    requires Within(members, |objs|)
    requires Scores(objs, members, parseReal).Some? && |Scores(objs, members, parseReal).value| > 0
    ensures exists k :: 0 <= k < |members| && "score" in objs[members[k]].meta
  {
    var init := members[..|members| - 1];
    var last := members[|members| - 1];
    if "score" !in objs[last].meta {
      ScoresFromMembers(objs, init, parseReal);
    } else {
      assert "score" in objs[members[|members| - 1]].meta;
    }
  }

  /** The objects whose index is not marked for merging, in their order. */
  function Unmerged(objs: seq<Obj>, toMerge: set<nat>): (r: seq<Obj>)
    ensures |r| <= |objs|
    ensures forall i :: 0 <= i < |objs| && i !in toMerge ==> objs[i] in r
    ensures forall o :: o in r ==> exists i :: 0 <= i < |objs| && i !in toMerge && objs[i] == o
  {
    if |objs| == 0 then []
    else
      var init := Unmerged(objs[..|objs| - 1], toMerge);
      var n := |objs| - 1;
      assert forall i :: 0 <= i < n ==> objs[..n][i] == objs[i];
      if n in toMerge then init else init + [objs[n]]
  }

  /** Every merge set holds objects of the record only. */
  predicate SetsWithin(sets: seq<set<nat>>, n: nat)
  {
    forall j :: 0 <= j < |sets| ==> forall x :: x in sets[j] ==> x < n
  }

  /** The merged object of one set of objects of the record, as a function of the set. */
  function SetMerge(objs: seq<Obj>, shapes: Shapes, parseReal: string -> Option<real>): set<nat> -> Option<Obj>
  {
    s => if forall x :: x in s ==> x < |objs| then MergedObject(objs, Ascending(s), shapes, parseReal) else None
  }

  /** The merged object of each set, in set order; None when one cannot be built. */
  function MergeAll(objs: seq<Obj>, sets: seq<set<nat>>, shapes: Shapes, parseReal: string -> Option<real>): (r: Option<seq<Obj>>)
    requires SetsWithin(sets, |objs|)
    ensures r.Some? <==> forall j :: 0 <= j < |sets| ==> MergedObject(objs, Ascending(sets[j]), shapes, parseReal).Some?
    ensures r.Some? ==> |r.value| == |sets|
    ensures r.Some? ==> forall j :: 0 <= j < |sets| ==> MergedObject(objs, Ascending(sets[j]), shapes, parseReal) == Some(r.value[j])
  {
    var f := SetMerge(objs, shapes, parseReal);
    assert forall j :: 0 <= j < |sets| ==> f(sets[j]) == MergedObject(objs, Ascending(sets[j]), shapes, parseReal);
    MapAll(sets, f)
  }

  /** Every merge set holds objects of the record that share one label. */
  lemma MergeSetsInRange(objs: seq<Obj>, maxSlopeDiff: real, maxDist: real, shapes: Shapes)
    ensures var sets := MergeSets(ParallelGroups(objs, maxSlopeDiff, maxDist, shapes)).sets;
      SetsWithin(sets, |objs|) && forall j :: 0 <= j < |sets| ==> SameLabel(objs, sets[j])
  {
    GroupsShareLabel(objs, maxSlopeDiff, maxDist, shapes);
    MergeSetsShareLabel(ParallelGroups(objs, maxSlopeDiff, maxDist, shapes), objs);
  }

  /**
   * `merge_polygons` on the objects of a record: unchanged when no objects are to be merged;
   * otherwise the unmerged objects in order, followed by one object per merge set. None where the
   * source raises.
   */
  function MergePolygons(objs: seq<Obj>, maxSlopeDiff: real, maxDist: real, shapes: Shapes, parseReal: string -> Option<real>): (r: Option<seq<Obj>>)
  {
    var st := MergeSets(ParallelGroups(objs, maxSlopeDiff, maxDist, shapes));
    if |st.sets| == 0 then Some(objs)
    else
      MergeSetsInRange(objs, maxSlopeDiff, maxDist, shapes);
      match MergeAll(objs, st.sets, shapes, parseReal)
      case None => None
      case Some(merged) => Some(Unmerged(objs, st.toMerge) + merged)
  }

  /**
   * Without a parallel pair the objects are returned unchanged; otherwise the objects that are not
   * merged come first, unchanged and in order, then one object per merge set; each merge set holds
   * objects of one label, and an object is left out of the unmerged part exactly when it is in a
   * merge set.
   */
  lemma MergePolygonsSpec(objs: seq<Obj>, maxSlopeDiff: real, maxDist: real, shapes: Shapes, parseReal: string -> Option<real>)
    ensures |ParallelGroups(objs, maxSlopeDiff, maxDist, shapes)| == 0 ==> MergePolygons(objs, maxSlopeDiff, maxDist, shapes, parseReal) == Some(objs)
    ensures var st := MergeSets(ParallelGroups(objs, maxSlopeDiff, maxDist, shapes));
      var r := MergePolygons(objs, maxSlopeDiff, maxDist, shapes, parseReal);
      |st.sets| > 0 && r.Some? ==>
        |r.value| == |Unmerged(objs, st.toMerge)| + |st.sets| &&
        r.value[..|Unmerged(objs, st.toMerge)|] == Unmerged(objs, st.toMerge) &&
        (forall i :: 0 <= i < |objs| ==> (i in st.toMerge <==> InSomeSet(st.sets, i))) &&
        (forall j :: 0 <= j < |st.sets| ==> SameLabel(objs, st.sets[j])) &&
        forall j :: 0 <= j < |st.sets| ==>
          Some(r.value[|Unmerged(objs, st.toMerge)| + j]) == MergedObject(objs, Ascending(st.sets[j]), shapes, parseReal)
  {
    var groups := ParallelGroups(objs, maxSlopeDiff, maxDist, shapes);
    var st := MergeSets(groups);
    MergeSetsCover(groups);
    MergeSetsInRange(objs, maxSlopeDiff, maxDist, shapes);
  }

  /** The defaults `merge_polygons` is called with. */
  const DefaultMaxSlopeDiff: real := 0.000001
  const DefaultMaxDist: real := 1.0

  /**
   * `merge_polygons` on an object-detection record with the default thresholds: the objects are
   * replaced by the merged ones and nothing else changes. A record without objects is returned as
   * it is; the source first takes the record's absolute objects with `get_absolute`, whose code is
   * not part of this model.
   */
  function MergeRecord(r: Record, shapes: Shapes, parseReal: string -> Option<real>): (m: Option<Record>)
    requires r.ann.Detection?
    ensures m.Some? ==> m.value.(ann := r.ann) == r && m.value.ann.Detection?
    ensures r.ann.objects.None? ==> m == Some(r)
    ensures r.ann.objects.Some? ==>
      (m.Some? <==> MergePolygons(r.ann.objects.value, DefaultMaxSlopeDiff, DefaultMaxDist, shapes, parseReal).Some?)
    ensures r.ann.objects.Some? && m.Some? ==>
      m.value.ann.objects == MergePolygons(r.ann.objects.value, DefaultMaxSlopeDiff, DefaultMaxDist, shapes, parseReal)
  {
    match r.ann.objects
    case None => Some(r)
    case Some(objs) =>
      match MergePolygons(objs, DefaultMaxSlopeDiff, DefaultMaxDist, shapes, parseReal)
      case None => None
      case Some(merged) => Some(r.(ann := Detection(Some(merged))))
  }

  /** The merge of a record, through the loops of `MergeObjects`. */
  method MergeDetections(r: Record, shapes: Shapes, parseReal: string -> Option<real>) returns (m: Option<Record>)
    requires r.ann.Detection?
    ensures m == MergeRecord(r, shapes, parseReal)
  {
    if r.ann.objects.None? {
      return Some(r);
    }
    var merged := MergeObjects(r.ann.objects.value, DefaultMaxSlopeDiff, DefaultMaxDist, shapes, parseReal);
    if merged.None? {
      return None;
    }
    return Some(r.(ann := Detection(Some(merged.value))));
  }

  // ---------------------------------------------------------------------------
  // the loops

  /** The loop over one merge set's members: label, scores and the running union. */
  method MergeSet(objs: seq<Obj>, members: seq<nat>, shapes: Shapes, parseReal: string -> Option<real>) returns (o: Option<Obj>)
    requires Within(members, |objs|)
    ensures o == MergedObject(objs, members, shapes, parseReal)
  {
    var lbl: Option<MetaValue> := None;
    var merged: Option<Geom> := None;
    var scores: seq<real> := [];
    var i := 0;
    while i < |members|
      invariant 0 <= i <= |members|
      invariant lbl == FirstLabel(objs, members[..i])
      invariant Scores(objs, members[..i], parseReal) == Some(scores)
      invariant merged == UnionOf(objs, members[..i], shapes)
      invariant i > 0 ==> merged.Some?
    {
      assert members[..i + 1] == members[..i] + [members[i]];
      var ok;
      ok, lbl, scores, merged := MergeMember(objs, members[..i], members[i], lbl, scores, merged, shapes, parseReal);
      if !ok {
        if Scores(objs, members[..i + 1], parseReal).None? {
          ScoresStayFailed(objs, members, parseReal, i + 1);
        } else {
          UnionStaysFailed(objs, members, shapes, i + 1);
        }
        MergedObjectFails(objs, members, shapes, parseReal);
        return None;
      }
      i := i + 1;
    }
    assert members[..i] == members;
    o := MergedFrom(objs, members, lbl, scores, merged, shapes, parseReal);
  }

  /** The end of the loop over a merge set: the object built from the label, scores and union gathered. */
  method MergedFrom(objs: seq<Obj>, members: seq<nat>, lbl: Option<MetaValue>, scores: seq<real>, merged: Option<Geom>,
                    shapes: Shapes, parseReal: string -> Option<real>) returns (o: Option<Obj>)
    requires Within(members, |objs|)
    requires lbl == FirstLabel(objs, members) && Scores(objs, members, parseReal) == Some(scores)
    requires merged == UnionOf(objs, members, shapes)
    ensures o == MergedObject(objs, members, shapes, parseReal)
  {
    if merged.None? {
      return None;
    }
    var obj := ToObject(merged.value, lbl, shapes);
    if obj.None? {
      return None;
    }
    if |scores| > 0 {
      return Some(obj.value.(meta := obj.value.meta["score" := Real(Sum(scores) / |scores| as real)]));
    }
    return obj;
  }

  /** One member of a merge set: its label, its score and its polygon folded into the running values. */
  method MergeMember(objs: seq<Obj>, prefix: seq<nat>, x: nat, lbl: Option<MetaValue>, scores: seq<real>, merged: Option<Geom>,
                     shapes: Shapes, parseReal: string -> Option<real>)
    returns (ok: bool, lbl': Option<MetaValue>, scores': seq<real>, merged': Option<Geom>)
    requires Within(prefix, |objs|) && x < |objs|
    requires lbl == FirstLabel(objs, prefix) && Scores(objs, prefix, parseReal) == Some(scores)
    requires merged == UnionOf(objs, prefix, shapes) && (|prefix| > 0 ==> merged.Some?)
    ensures Within(prefix + [x], |objs|)
    ensures ok ==>
      lbl' == FirstLabel(objs, prefix + [x]) && Scores(objs, prefix + [x], parseReal) == Some(scores') &&
      merged' == UnionOf(objs, prefix + [x], shapes) && merged'.Some?
    ensures !ok ==> Scores(objs, prefix + [x], parseReal).None? || (|prefix| > 0 && UnionOf(objs, prefix + [x], shapes).None?)
  {
    var all := prefix + [x];
    assert all[..|prefix|] == prefix && all[|prefix|] == x;
    assert Within(all, |objs|);
    var obj := objs[x];
    FirstLabelSnoc(objs, prefix, x);
    lbl' := if lbl.None? then Label(obj) else lbl;
    scores', merged' := scores, merged;
    ok := false;
    if "score" in obj.meta {
      var v := ToReal(obj.meta["score"], parseReal);
      if v.None? {
        return;
      }
      scores' := scores + [v.value];
    }
    if merged.None? {
      merged' := Some(Poly(Ring(obj)));
    } else {
      var u := shapes.union(merged.value, Poly(Ring(obj)));
      if u.Raised? {
        return;
      }
      merged' := Some(u);
    }
    ok := true;
  }

  lemma {:induction false} FirstLabelSnoc(objs: seq<Obj>, members: seq<nat>, x: nat)
    requires Within(members, |objs|)
    requires x < |objs|
    ensures FirstLabel(objs, members + [x]) == if FirstLabel(objs, members).Some? then FirstLabel(objs, members) else Label(objs[x])
    decreases |members|
  {
    if |members| == 0 {
      assert members + [x] == [x];
    } else {
      assert (members + [x])[1..] == members[1..] + [x];
      FirstLabelSnoc(objs, members[1..], x);
    }
  }

  /** A set whose scores or union fail has no merged object. */
  lemma MergedObjectFails(objs: seq<Obj>, members: seq<nat>, shapes: Shapes, parseReal: string -> Option<real>)
    requires Within(members, |objs|)
    requires Scores(objs, members, parseReal).None? || UnionOf(objs, members, shapes).None?
    ensures MergedObject(objs, members, shapes, parseReal).None?
  {
  }

  lemma {:induction false} ScoresStayFailed(objs: seq<Obj>, members: seq<nat>, parseReal: string -> Option<real>, n: nat)
    requires Within(members, |objs|)
    requires n <= |members|
    requires Scores(objs, members[..n], parseReal).None?
    ensures Scores(objs, members, parseReal).None?
    decreases |members| - n
  {
    if n < |members| {
      assert members[..n + 1][..n] == members[..n];
      ScoresStayFailed(objs, members, parseReal, n + 1);
    } else {
      assert members[..n] == members;
    }
  }

  lemma {:induction false} UnionStaysFailed(objs: seq<Obj>, members: seq<nat>, shapes: Shapes, n: nat)
    requires Within(members, |objs|)
    requires 1 < n <= |members|
    requires UnionOf(objs, members[..n], shapes).None?
    ensures UnionOf(objs, members, shapes).None?
    decreases |members| - n
  {
    if n < |members| {
      assert members[..n + 1][..n] == members[..n];
      UnionStaysFailed(objs, members, shapes, n + 1);
    } else {
      assert members[..n] == members;
    }
  }

  /** `merge_polygons`: the loops that find the parallel objects, build the merge sets and assemble the new objects. */
  method MergeObjects(objs: seq<Obj>, maxSlopeDiff: real, maxDist: real, shapes: Shapes, parseReal: string -> Option<real>)
    returns (r: Option<seq<Obj>>)
    ensures r == MergePolygons(objs, maxSlopeDiff, maxDist, shapes, parseReal)
  {
    var groups := ParallelLoop(objs, maxSlopeDiff, maxDist, shapes);
    var sets, toMerge := BuildMergeSets(groups);
    if |sets| == 0 {
      return Some(objs);
    }
    MergeSetsInRange(objs, maxSlopeDiff, maxDist, shapes);
    var kept := KeepUnmerged(objs, toMerge);
    var merged := MergeEach(objs, sets, shapes, parseReal);
    if merged.None? {
      return None;
    }
    return Some(kept + merged.value);
  }

  /** The loop that keeps the objects not marked for merging. */
  method KeepUnmerged(objs: seq<Obj>, toMerge: set<nat>) returns (kept: seq<Obj>)
    ensures kept == Unmerged(objs, toMerge)
  {
    kept := [];
    var i := 0;
    while i < |objs|
      invariant 0 <= i <= |objs|
      invariant kept == Unmerged(objs[..i], toMerge)
    {
      assert objs[..i + 1][..i] == objs[..i];
      if i !in toMerge {
        kept := kept + [objs[i]];
      }
      i := i + 1;
    }
    assert objs[..i] == objs;
  }

  /** The loop that builds the merged object of each merge set. */
  method MergeEach(objs: seq<Obj>, sets: seq<set<nat>>, shapes: Shapes, parseReal: string -> Option<real>) returns (r: Option<seq<Obj>>)
    requires SetsWithin(sets, |objs|)
    ensures r == MergeAll(objs, sets, shapes, parseReal)
  {
    var step := SetMerge(objs, shapes, parseReal);
    var merged: seq<Obj> := [];
    for j := 0 to |sets|
      invariant |merged| == j
      invariant forall k :: 0 <= k < j ==> step(sets[k]) == Some(merged[k])
    {
      var members := Ascending(sets[j]);
      assert Within(members, |objs|);
      var o := MergeSet(objs, members, shapes, parseReal);
      assert step(sets[j]) == o;
      if o.None? {
        MapAllFails(sets, j, step);
        return None;
      }
      MapAllPrefix(sets, step, merged, o.value);
      merged := merged + [o.value];
    }
    MapAllSucceeds(sets, step, merged);
    return Some(merged);
  }

  /** Polygons are merged only in object-detection records, and only on request. */
  function MergeOnRequest(r: Record, mergeAdjacent: bool, shapes: Shapes, parseReal: string -> Option<real>): (f: Option<Record>)
    ensures !(mergeAdjacent && r.ann.Detection?) ==> f == Some(r)
    ensures f.Some? ==> f.value.(ann := r.ann) == r && SameKind(f.value.ann, r.ann)
  {
    if mergeAdjacent && r.ann.Detection? then MergeRecord(r, shapes, parseReal) else Some(r)
  }
}
