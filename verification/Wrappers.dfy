/** Optional values and results shared by the other modules. */
module Wrappers {
  datatype Option<+T> = None | Some(value: T)

  datatype Result<+T, +E> = Ok(value: T) | Err(error: E)

  /** xs in front of a list that may not be there. */
  function Prepend<T>(xs: seq<T>, ys: Option<seq<T>>): Option<seq<T>> {
    if ys.Some? then Some(xs + ys.value) else None
  }

  lemma PrependNothing<T>(ys: Option<seq<T>>)
    ensures Prepend([], ys) == ys
  {
    assert ys.Some? ==> [] + ys.value == ys.value;
  }

  lemma PrependEnds<T>(xs: seq<T>)
    ensures Prepend(xs, None) == None && Prepend(xs, Some([])) == Some(xs)
  {
    assert xs + [] == xs;
  }

  lemma PrependTwice<T>(ws: seq<T>, xs: seq<T>, ys: Option<seq<T>>)
    ensures Prepend(ws, Prepend(xs, ys)) == Prepend(ws + xs, ys)
  {
    assert ys.Some? ==> ws + (xs + ys.value) == ws + xs + ys.value;
  }

  lemma SliceOfSlice<T>(s: seq<T>, lo: nat, hi: nat, i: nat, j: nat)
    requires lo <= hi <= |s| && i <= j <= hi - lo
    ensures s[lo..hi][i..j] == s[lo + i..lo + j]
  {
    assert forall k | 0 <= k < j - i :: s[lo..hi][i..j][k] == s[lo..hi][i + k];
  }

  lemma PrefixCons<T>(p: seq<T>, a: seq<T>)
    requires p != [] && a != []
    ensures p <= a <==> p[0] == a[0] && p[1..] <= a[1..]
  {
    assert p == [p[0]] + p[1..] && a == [a[0]] + a[1..];
  }
}
