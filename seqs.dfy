/** Order-preserving sequence combinators shared by every script: list comprehensions and the
    loops that append to a list in input order are all instances of these. */
module Seqs {
  import opened Wrappers

  /** `[f(x) for x in xs]`. */
  function Map<T, U>(xs: seq<T>, f: T -> U): (r: seq<U>)
    ensures |r| == |xs|
    ensures forall i :: 0 <= i < |xs| ==> r[i] == f(xs[i])
  {
    if xs == [] then [] else Map(xs[..|xs| - 1], f) + [f(xs[|xs| - 1])]
  }

  /** `[y for x in xs if (y := sel(x)) is not None]`: keeps the selected images in input order. */
  function FilterMap<T, U>(xs: seq<T>, sel: T -> Option<U>): (r: seq<U>)
    ensures |r| <= |xs|
  {
    if xs == [] then []
    else
      var rest := FilterMap(xs[..|xs| - 1], sel);
      match sel(xs[|xs| - 1])
      case Some(y) => rest + [y]
      case None => rest
  }

  /** The positions of `xs` that `sel` keeps, in increasing order. */
  function Kept<T, U>(xs: seq<T>, sel: T -> Option<U>): seq<nat> {
    if xs == [] then []
    else
      var rest := Kept(xs[..|xs| - 1], sel);
      if sel(xs[|xs| - 1]).Some? then rest + [|xs| - 1] else rest
  }

  ghost predicate Increasing(idx: seq<nat>) {
    forall i, j :: 0 <= i < j < |idx| ==> idx[i] < idx[j]
  }

  /** `FilterMap(xs, sel)` is exactly the subsequence of selected elements, in input order:
      the k-th output comes from the k-th kept position, and a position is kept iff `sel` accepts it. */
  lemma {:induction false} FilterMapKeeps<T, U>(xs: seq<T>, sel: T -> Option<U>)
    ensures |Kept(xs, sel)| == |FilterMap(xs, sel)|
    ensures Increasing(Kept(xs, sel))
    ensures forall k :: 0 <= k < |Kept(xs, sel)| ==>
      Kept(xs, sel)[k] < |xs| && sel(xs[Kept(xs, sel)[k]]) == Some(FilterMap(xs, sel)[k])
    ensures forall j :: 0 <= j < |xs| ==> (sel(xs[j]).Some? <==> j in Kept(xs, sel))
  {
    if xs != [] {
      var n := |xs| - 1;
      var front := xs[..n];
      FilterMapKeeps(front, sel);
      assert forall j :: 0 <= j < n ==> front[j] == xs[j];
      var idx := Kept(xs, sel);
      assert forall k :: 0 <= k < |Kept(front, sel)| ==> Kept(front, sel)[k] < n;
    }
  }
}
