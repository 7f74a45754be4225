/** Small facts about sequences shared by the other modules. */
module Sequences {

  datatype Option<+T> = None | Some(value: T)

  datatype Result<+T, +E> = Ok(value: T) | Err(error: E)

  function Map<T, U>(xs: seq<T>, f: T -> U): (r: seq<U>)
    ensures |r| == |xs|
  {
    seq(|xs|, i requires 0 <= i < |xs| => f(xs[i]))
  }

  /** The concatenation of a sequence of sequences. */
  function Flatten<T>(xss: seq<seq<T>>): seq<T> {
    if xss == [] then [] else xss[0] + Flatten(xss[1..])
  }

  lemma {:induction false} FlattenAppend<T>(xss: seq<seq<T>>, yss: seq<seq<T>>)
    ensures Flatten(xss + yss) == Flatten(xss) + Flatten(yss)
  {
    if xss == [] {
      assert xss + yss == yss;
    } else {
      assert (xss + yss)[1..] == xss[1..] + yss;
      FlattenAppend(xss[1..], yss);
    }
  }

  lemma FlattenSnoc<T>(xss: seq<seq<T>>, ys: seq<T>)
    ensures Flatten(xss + [ys]) == Flatten(xss) + ys
  {
    FlattenAppend(xss, [ys]);
    assert Flatten([ys]) == ys + Flatten([ys][1..]) == ys;
  }

  lemma AddedKeyCounts<K, V>(m: map<K, V>, k: K, v: V)
    requires k !in m
    ensures |m[k := v]| == |m| + 1
  {
    assert m[k := v].Keys == m.Keys + {k};
  }

  lemma SomeKey<K, V>(m: map<K, V>) returns (k: K)
    requires m != map[]
    ensures k in m
  {
    assert m.Keys != {};
    k :| k in m.Keys;
  }

  lemma RemovedKeyCounts<K, V>(m: map<K, V>, k: K)
    requires k in m
    ensures |m - {k}| == |m| - 1
  {
    assert (m - {k}).Keys == m.Keys - {k};
  }

  /** Strictly increasing integers that are exactly 1..n are listed as 1, 2, ..., n. */
  lemma IncreasingIsInterval(s: seq<int>, n: nat)
    requires forall i, j :: 0 <= i < j < |s| ==> s[i] < s[j]
    requires forall k :: k in s <==> 1 <= k <= n
    ensures |s| == n
    ensures forall i :: 0 <= i < |s| ==> s[i] == i + 1
  {
    for i := 0 to |s|
      invariant forall j :: 0 <= j < i ==> s[j] == j + 1
    {
      assert s[i] in s;
      if i > 0 { assert s[i - 1] < s[i]; }
      assert i + 1 in s;
      var j :| 0 <= j < |s| && s[j] == i + 1;
      assert j >= i;
    }
    if n > 0 {
      assert n in s;
    }
    if |s| > 0 {
      assert s[|s| - 1] in s;
    }
  }
}
