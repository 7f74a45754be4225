/**
 Stable sorting of keyed values: the specification of Rust's `sort_by_key`, which orders the
 completed parts of an upload, and of `sort_by`, which orders the layers of a policy.
 */
module StableSort {

  datatype Keyed<T> = Keyed(key: int, value: T)

  predicate Sorted<T>(s: seq<Keyed<T>>) {
    forall i, j :: 0 <= i < j < |s| ==> s[i].key <= s[j].key
  }

  /** The elements with key k, in the order in which they occur. */
  function Group<T>(s: seq<Keyed<T>>, k: int): seq<Keyed<T>> {
    if s == [] then []
    else if s[0].key == k then [s[0]] + Group(s[1..], k)
    else Group(s[1..], k)
  }

  /** Puts x behind the elements whose key is not larger. */
  function Insert<T>(s: seq<Keyed<T>>, x: Keyed<T>): seq<Keyed<T>> {
    if s == [] || x.key < s[0].key then [x] + s else [s[0]] + Insert(s[1..], x)
  }

  function Sort<T>(s: seq<Keyed<T>>): seq<Keyed<T>> {
    if s == [] then [] else Insert(Sort(s[..|s| - 1]), s[|s| - 1])
  }

  lemma {:induction false} InsertMember<T>(s: seq<Keyed<T>>, x: Keyed<T>, y: Keyed<T>)
    ensures y in Insert(s, x) <==> y in s || y == x
  {
    if s == [] || x.key < s[0].key {
    } else {
      InsertMember(s[1..], x, y);
      assert s == [s[0]] + s[1..];
    }
  }

  lemma {:induction false} InsertSorts<T>(s: seq<Keyed<T>>, x: Keyed<T>)
    requires Sorted(s)
    ensures Sorted(Insert(s, x))
  {
    if s == [] || x.key < s[0].key {
    } else {
      InsertSorts(s[1..], x);
      forall y | y in Insert(s[1..], x) ensures s[0].key <= y.key {
        InsertMember(s[1..], x, y);
      }
    }
  }

  /** Sorting orders the keys. */
  lemma {:induction false} SortSorts<T>(s: seq<Keyed<T>>)
    ensures Sorted(Sort(s))
  {
    if s != [] {
      SortSorts(s[..|s| - 1]);
      InsertSorts(Sort(s[..|s| - 1]), s[|s| - 1]);
    }
  }

  lemma {:induction false} GroupAppend<T>(s: seq<Keyed<T>>, t: seq<Keyed<T>>, k: int)
    ensures Group(s + t, k) == Group(s, k) + Group(t, k)
  {
    if s == [] {
      assert s + t == t;
    } else {
      assert (s + t)[1..] == s[1..] + t;
      GroupAppend(s[1..], t, k);
    }
  }

  lemma {:induction false} GroupAbsent<T>(s: seq<Keyed<T>>, k: int)
    requires forall y :: y in s ==> y.key != k
    ensures Group(s, k) == []
  {
    if s != [] {
      assert s[0] in s;
      GroupAbsent(s[1..], k);
    }
  }

  /** A group holds exactly the elements with its key. */
  lemma {:induction false} GroupMembers<T>(s: seq<Keyed<T>>, k: int)
    ensures forall y :: y in Group(s, k) <==> y in s && y.key == k
  {
    if s != [] {
      GroupMembers(s[1..], k);
      assert s == [s[0]] + s[1..];
    }
  }

  /** Two elements with one key make a group of at least two. */
  lemma {:induction false} GroupOfTwo<T>(s: seq<Keyed<T>>, i: nat, j: nat)
    requires i < j < |s| && s[i].key == s[j].key
    ensures |Group(s, s[i].key)| >= 2
  {
    if i > 0 {
      GroupOfTwo(s[1..], i - 1, j - 1);
    } else {
      GroupMembers(s[1..], s[0].key);
      assert s[j] == s[1..][j - 1];
      assert s[j] in Group(s[1..], s[0].key);
    }
  }

  lemma {:induction false} InsertKeepsGroups<T>(s: seq<Keyed<T>>, x: Keyed<T>, k: int)
    requires Sorted(s)
    ensures Group(Insert(s, x), k) == Group(s, k) + (if x.key == k then [x] else [])
  {
    if s == [] {
    } else if x.key < s[0].key {
      assert ([x] + s)[1..] == s;
      if x.key == k { GroupAbsent(s, k); }
    } else {
      InsertKeepsGroups(s[1..], x, k);
      assert ([s[0]] + Insert(s[1..], x))[1..] == Insert(s[1..], x);
    }
  }

  /** Stability: elements that share a key keep their order, and none is added or lost. */
  lemma {:induction false} SortIsStable<T>(s: seq<Keyed<T>>, k: int)
    ensures Group(Sort(s), k) == Group(s, k)
  {
    if s != [] {
      var init, last := s[..|s| - 1], s[|s| - 1];
      SortIsStable(init, k);
      SortSorts(init);
      InsertKeepsGroups(Sort(init), last, k);
      assert s == init + [last];
      GroupAppend(init, [last], k);
      assert Group([last], k) == if last.key == k then [last] else [];
    }
  }

  lemma SameGroupsSameMembers<T>(s: seq<Keyed<T>>, t: seq<Keyed<T>>)
    requires forall k :: Group(s, k) == Group(t, k)
    ensures forall y :: y in s <==> y in t
    ensures s == [] <==> t == []
  {
    forall y ensures y in s <==> y in t {
      GroupMembers(s, y.key);
      GroupMembers(t, y.key);
    }
    assert s != [] ==> s[0] in t;
    assert t != [] ==> t[0] in s;
  }

  /** A sorted sequence is determined by its groups, so there is one stable result only. */
  lemma {:induction false} SortedByGroups<T>(s: seq<Keyed<T>>, t: seq<Keyed<T>>)
    requires Sorted(s) && Sorted(t)
    requires forall k :: Group(s, k) == Group(t, k)
    ensures s == t
  {
    SameGroupsSameMembers(s, t);
    if s != [] {
      assert Group(s, s[0].key) == Group(t, s[0].key);
      assert Group(s, t[0].key) == Group(t, t[0].key);
      if s[0].key < t[0].key { GroupAbsent(t, s[0].key); assert false; }
      if t[0].key < s[0].key { GroupAbsent(s, t[0].key); assert false; }
      assert s[0] == Group(s, s[0].key)[0] == t[0];
      forall k ensures Group(s[1..], k) == Group(t[1..], k) {
        assert Group(s, k) == Group(t, k);
        if s[0].key == k {
          assert Group(s[1..], k) == Group(s, k)[1..] == Group(t, k)[1..] == Group(t[1..], k);
        }
      }
      SortedByGroups(s[1..], t[1..]);
    }
  }

  /** Keys that occur once each come out strictly increasing, and no element gets lost. */
  lemma SortOfUniqueKeys<T>(s: seq<Keyed<T>>)
    requires forall k :: |Group(s, k)| <= 1
    ensures forall i, j :: 0 <= i < j < |Sort(s)| ==> Sort(s)[i].key < Sort(s)[j].key
    ensures forall y :: y in Sort(s) <==> y in s
  {
    SortSorts(s);
    forall i, j | 0 <= i < j < |Sort(s)| ensures Sort(s)[i].key < Sort(s)[j].key {
      if Sort(s)[i].key == Sort(s)[j].key {
        GroupOfTwo(Sort(s), i, j);
        SortIsStable(s, Sort(s)[i].key);
      }
    }
    forall y ensures y in Sort(s) <==> y in s {
      SortIsStable(s, y.key);
      GroupMembers(s, y.key);
      GroupMembers(Sort(s), y.key);
    }
  }

  /** Inputs that agree group by group are sorted to the same sequence. */
  lemma SortDependsOnGroups<T>(s: seq<Keyed<T>>, t: seq<Keyed<T>>)
    requires forall k :: Group(s, k) == Group(t, k)
    ensures Sort(s) == Sort(t)
  {
    SortSorts(s);
    SortSorts(t);
    forall k ensures Group(Sort(s), k) == Group(Sort(t), k) {
      SortIsStable(s, k);
      SortIsStable(t, k);
      assert Group(s, k) == Group(t, k);
    }
    SortedByGroups(Sort(s), Sort(t));
  }
}
