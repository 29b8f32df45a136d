/** Option: the value that Python's `None` stands for; and the two ways a batch of records is mapped. */
module Wrappers {

  datatype Option<+T> = None | Some(value: T) {

    /** The value, or `default` when there is none. */
    function GetOr(default: T): T {
      match this
      case Some(v) => v
      case None => default
    }
  }

  /** `f` applied to every element, in order; None when one application fails (the source raises). */
  function MapAll<T, U>(xs: seq<T>, f: T -> Option<U>): (r: Option<seq<U>>)
    ensures r.None? <==> exists i :: 0 <= i < |xs| && f(xs[i]).None?
    ensures r.Some? ==> |r.value| == |xs| && forall i :: 0 <= i < |xs| ==> f(xs[i]) == Some(r.value[i])
  {
    if |xs| == 0 then Some([])
    else
      var init := xs[..|xs| - 1];
      assert forall i :: 0 <= i < |init| ==> init[i] == xs[i];
      match MapAll(init, f)
      case None => None
      case Some(done) =>
        match f(xs[|xs| - 1])
        case None => None
        case Some(o) => Some(done + [o])
  }

  /** One failing element fails the whole map. */
  lemma MapAllFails<T, U>(xs: seq<T>, i: nat, f: T -> Option<U>)
    requires i < |xs| && f(xs[i]).None?
    ensures MapAll(xs, f).None?
  {
  }

  /** The outputs of a prefix of successful applications, extended by one more. */
  lemma MapAllPrefix<T, U>(xs: seq<T>, f: T -> Option<U>, out: seq<U>, y: U)
    requires |out| < |xs| && forall k :: 0 <= k < |out| ==> f(xs[k]) == Some(out[k])
    requires f(xs[|out|]) == Some(y)
    ensures forall k :: 0 <= k < |out| + 1 ==> f(xs[k]) == Some((out + [y])[k])
  {
  }

  /** A map whose every application succeeds yields exactly those outputs. */
  lemma {:induction false} MapAllSucceeds<T, U>(xs: seq<T>, f: T -> Option<U>, ys: seq<U>)
    requires |ys| == |xs| && forall k :: 0 <= k < |xs| ==> f(xs[k]) == Some(ys[k])
    ensures MapAll(xs, f) == Some(ys)
  {
    if |xs| > 0 {
      var n := |xs| - 1;
      MapAllSucceeds(xs[..n], f, ys[..n]);
      assert ys == ys[..n] + [ys[n]];
    }
  }

  /** The outputs of `f` on every element, concatenated in order; None when one application fails. */
  function ConcatAll<T, U>(xs: seq<T>, f: T -> Option<seq<U>>): (r: Option<seq<U>>)
    ensures r.None? <==> exists i :: 0 <= i < |xs| && f(xs[i]).None?
  {
    if |xs| == 0 then Some([])
    else
      var init := xs[..|xs| - 1];
      assert forall i :: 0 <= i < |init| ==> init[i] == xs[i];
      match ConcatAll(init, f)
      case None => None
      case Some(done) =>
        match f(xs[|xs| - 1])
        case None => None
        case Some(o) => Some(done + o)
  }

  /** Every element's outputs appear, in order: the concatenation of one element more. */
  lemma ConcatAllSnoc<T, U>(xs: seq<T>, x: T, f: T -> Option<seq<U>>)
    ensures ConcatAll(xs + [x], f) ==
      if ConcatAll(xs, f).None? || f(x).None? then None else Some(ConcatAll(xs, f).value + f(x).value)
  {
    assert (xs + [x])[..|xs|] == xs;
  }

  /** A map that fails on no element yields one output per element. */
  lemma {:induction false} ConcatAllSingles<T, U>(xs: seq<T>, f: T -> Option<seq<U>>)
    requires forall i :: 0 <= i < |xs| ==> f(xs[i]).Some? && |f(xs[i]).value| == 1
    ensures ConcatAll(xs, f).Some? && |ConcatAll(xs, f).value| == |xs|
    ensures forall i :: 0 <= i < |xs| ==> ConcatAll(xs, f).value[i] == f(xs[i]).value[0]
  {
    if |xs| > 0 {
      var init := xs[..|xs| - 1];
      ConcatAllSingles(init, f);
    }
  }
}
