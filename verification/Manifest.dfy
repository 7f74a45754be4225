/**
 Policy manifests and their merge: row filters are concatenated, masks are overridden, the
 sampling cap is the smaller one, and what must be encrypted is united. The hash maps of the
 incoming manifest are iterated in an arbitrary order.
 */
module Manifest {
  import opened Sequences

  datatype PolicyLevel = Local | Domain | Global

  datatype EncryptionBlock = EncryptionBlock(requiredTags: seq<string>, requiredColumns: seq<string>)

  datatype PrincipalPolicy = PrincipalPolicy(
    globalRowFilters: seq<string>,
    selectiveRowFilters: seq<string>,
    columnMasks: map<string, string>,
    tagMasks: map<string, string>,
    samplingCap: Option<nat>)

  datatype PolicyManifest = PolicyManifest(
    version: string,
    principals: map<string, PrincipalPolicy>,
    encryption: Option<EncryptionBlock>,
    purposeBindings: Option<map<string, string>>)

  const NO_POLICY := PrincipalPolicy([], [], map[], map[], None)

  // ---------------------------------------------------------------- the specification

  function LowerCap(a: Option<nat>, b: Option<nat>): Option<nat> {
    match (a, b)
    case (Some(x), Some(y)) => Some(if x <= y then x else y)
    case (Some(x), None) => Some(x)
    case (None, _) => b
  }

  function MergePrincipal(a: PrincipalPolicy, b: PrincipalPolicy): PrincipalPolicy {
    PrincipalPolicy(a.globalRowFilters + b.globalRowFilters, a.selectiveRowFilters + b.selectiveRowFilters,
                    a.columnMasks + b.columnMasks, a.tagMasks + b.tagMasks, LowerCap(a.samplingCap, b.samplingCap))
  }

  /** The policy of a principal, or the empty one. */
  function PolicyOf(m: map<string, PrincipalPolicy>, p: string): PrincipalPolicy {
    if p in m then m[p] else NO_POLICY
  }

  function MergePrincipals(a: map<string, PrincipalPolicy>, b: map<string, PrincipalPolicy>): map<string, PrincipalPolicy> {
    map p | p in a.Keys + b.Keys :: if p in b then MergePrincipal(PolicyOf(a, p), b[p]) else a[p]
  }

  /** Appends the elements that are not there yet, keeping their order. */
  function AddNew(a: seq<string>, b: seq<string>): seq<string>
    decreases |b|
  {
    if b == [] then a
    else AddNew(if b[0] in a then a else a + [b[0]], b[1..])
  }

  function MergeEncryption(a: Option<EncryptionBlock>, b: Option<EncryptionBlock>): Option<EncryptionBlock> {
    match (a, b)
    case (_, None) => a
    case (None, Some(_)) => b
    case (Some(x), Some(y)) =>
      Some(EncryptionBlock(AddNew(x.requiredTags, y.requiredTags), AddNew(x.requiredColumns, y.requiredColumns)))
  }

  function MergeBindings(a: Option<map<string, string>>, b: Option<map<string, string>>): Option<map<string, string>> {
    match (a, b)
    case (_, None) => a
    case (None, Some(_)) => b
    case (Some(x), Some(y)) => Some(x + y)
  }

  function Merged(a: PolicyManifest, b: PolicyManifest): PolicyManifest {
    PolicyManifest(a.version, MergePrincipals(a.principals, b.principals),
                   MergeEncryption(a.encryption, b.encryption), MergeBindings(a.purposeBindings, b.purposeBindings))
  }

  // ---------------------------------------------------------------- the loops

  /** Inserts every entry of b, in any order. */
  method InsertAll(a: map<string, string>, b: map<string, string>) returns (r: map<string, string>)
    ensures r == a + b
  {
    r := a;
    var todo := b.Keys;
    while todo != {}
      invariant todo <= b.Keys
      invariant r.Keys == a.Keys + (b.Keys - todo)
      invariant forall k :: k in r ==> r[k] == if k in b && k !in todo then b[k] else a[k]
      decreases todo
    {
      var k :| k in todo;
      r := r[k := b[k]];
      todo := todo - {k};
    }
  }

  method PushNew(a: seq<string>, b: seq<string>) returns (r: seq<string>)
    ensures r == AddNew(a, b)
  {
    r := a;
    for i := 0 to |b|
      invariant AddNew(r, b[i..]) == AddNew(a, b)
    {
      assert b[i..][1..] == b[i + 1..];
      if b[i] !in r {
        r := r + [b[i]];
      }
    }
  }

  /** The principals outside of `todo` are merged, the others are as before. */
  ghost predicate PartlyMerged(r: map<string, PrincipalPolicy>, a: map<string, PrincipalPolicy>,
                               b: map<string, PrincipalPolicy>, todo: set<string>)
  {
    && todo <= b.Keys
    && r.Keys == a.Keys + (b.Keys - todo)
    && forall p :: p in r ==> r[p] == if p in b && p !in todo then MergePrincipal(PolicyOf(a, p), b[p]) else a[p]
  }

  lemma PartlyMergedStep(r: map<string, PrincipalPolicy>, a: map<string, PrincipalPolicy>,
                         b: map<string, PrincipalPolicy>, todo: set<string>, p: string)
    requires PartlyMerged(r, a, b, todo) && p in todo
    ensures PolicyOf(r, p) == PolicyOf(a, p)
    ensures PartlyMerged(r[p := MergePrincipal(PolicyOf(a, p), b[p])], a, b, todo - {p})
  {
  }

  lemma PartlyMergedEnds(r: map<string, PrincipalPolicy>, a: map<string, PrincipalPolicy>, b: map<string, PrincipalPolicy>)
    requires PartlyMerged(r, a, b, {})
    ensures r == MergePrincipals(a, b)
  {
  }

  /** Whatever the iteration order of the incoming principals, the result is the merge. */
  method MergePrincipalMaps(a: map<string, PrincipalPolicy>, b: map<string, PrincipalPolicy>)
    returns (r: map<string, PrincipalPolicy>)
    ensures r == MergePrincipals(a, b)
  {
    r := a;
    var todo := b.Keys;
    while todo != {}
      invariant PartlyMerged(r, a, b, todo)
      decreases todo
    {
      var p :| p in todo;
      PartlyMergedStep(r, a, b, todo, p);
      var merged := MergeOne(if p in r then r[p] else NO_POLICY, b[p]);
      r := r[p := merged];
      todo := todo - {p};
    }
    PartlyMergedEnds(r, a, b);
  }

  method MergeOne(self: PrincipalPolicy, other: PrincipalPolicy) returns (r: PrincipalPolicy)
    ensures r == MergePrincipal(self, other)
  {
    var columnMasks := InsertAll(self.columnMasks, other.columnMasks);
    var tagMasks := InsertAll(self.tagMasks, other.tagMasks);
    var cap := match (self.samplingCap, other.samplingCap)
      case (Some(x), Some(y)) => Some(if x <= y then x else y)
      case (Some(x), None) => Some(x)
      case (None, Some(y)) => Some(y)
      case (None, None) => None;
    r := PrincipalPolicy(self.globalRowFilters + other.globalRowFilters,
                         self.selectiveRowFilters + other.selectiveRowFilters, columnMasks, tagMasks, cap);
  }

  /** `self.merge(other)`: the right-hand manifest has the higher precedence. */
  method Merge(self: PolicyManifest, other: PolicyManifest) returns (r: PolicyManifest)
    ensures r == Merged(self, other)
  {
    var principals := MergePrincipalMaps(self.principals, other.principals);
    var encryption, bindings := self.encryption, self.purposeBindings;
    if other.encryption.Some? {
      if self.encryption.Some? {
        var tags := PushNew(self.encryption.value.requiredTags, other.encryption.value.requiredTags);
        var columns := PushNew(self.encryption.value.requiredColumns, other.encryption.value.requiredColumns);
        encryption := Some(EncryptionBlock(tags, columns));
      } else {
        encryption := other.encryption;
      }
    }
    if other.purposeBindings.Some? {
      if self.purposeBindings.Some? {
        var entries := InsertAll(self.purposeBindings.value, other.purposeBindings.value);
        bindings := Some(entries);
      } else {
        bindings := other.purposeBindings;
      }
    }
    r := PolicyManifest(self.version, principals, encryption, bindings);
  }

  // ---------------------------------------------------------------- associativity

  lemma {:induction false} AddNewMembers(a: seq<string>, b: seq<string>, x: string)
    ensures x in AddNew(a, b) <==> x in a || x in b
    decreases |b|
  {
    if b != [] {
      assert b == [b[0]] + b[1..];
      AddNewMembers(if b[0] in a then a else a + [b[0]], b[1..], x);
    }
  }

  lemma {:induction false} AddNewSnoc(a: seq<string>, b: seq<string>, x: string)
    ensures AddNew(a, b + [x]) == AddNew(AddNew(a, b), [x])
    decreases |b|
  {
    if b == [] {
      assert b + [x] == [x];
    } else {
      assert (b + [x])[1..] == b[1..] + [x] && (b + [x])[0] == b[0];
      AddNewSnoc(if b[0] in a then a else a + [b[0]], b[1..], x);
    }
  }

  lemma AddOne(a: seq<string>, x: string)
    ensures AddNew(a, [x]) == if x in a then a else a + [x]
  {
    assert [x][1..] == [];
    assert forall s: seq<string> :: AddNew(s, []) == s;
  }

  /** Adding b and then c is adding what b and c make together. */
  lemma {:induction false} AddNewAssociative(a: seq<string>, b: seq<string>, c: seq<string>)
    ensures AddNew(AddNew(a, b), c) == AddNew(a, AddNew(b, c))
    decreases |c|
  {
    if c != [] {
      var b' := if c[0] in b then b else b + [c[0]];
      AddNewAssociative(a, b', c[1..]);
      AddNewMembers(a, b, c[0]);
      AddNewSnoc(a, b, c[0]);
      AddOne(AddNew(a, b), c[0]);
    }
  }

  lemma OverrideAssociative(a: map<string, string>, b: map<string, string>, c: map<string, string>)
    ensures (a + b) + c == a + (b + c)
  {
  }

  lemma MergePrincipalAssociative(a: PrincipalPolicy, b: PrincipalPolicy, c: PrincipalPolicy)
    ensures MergePrincipal(MergePrincipal(a, b), c) == MergePrincipal(a, MergePrincipal(b, c))
  {
    OverrideAssociative(a.columnMasks, b.columnMasks, c.columnMasks);
    OverrideAssociative(a.tagMasks, b.tagMasks, c.tagMasks);
    assert (a.globalRowFilters + b.globalRowFilters) + c.globalRowFilters ==
           a.globalRowFilters + (b.globalRowFilters + c.globalRowFilters);
    assert (a.selectiveRowFilters + b.selectiveRowFilters) + c.selectiveRowFilters ==
           a.selectiveRowFilters + (b.selectiveRowFilters + c.selectiveRowFilters);
  }

  lemma NoPolicyIsNeutral(a: PrincipalPolicy)
    ensures MergePrincipal(a, NO_POLICY) == a == MergePrincipal(NO_POLICY, a)
  {
    assert a.columnMasks + map[] == a.columnMasks == map[] + a.columnMasks;
    assert a.tagMasks + map[] == a.tagMasks == map[] + a.tagMasks;
  }

  lemma MergePrincipalsAt(a: map<string, PrincipalPolicy>, b: map<string, PrincipalPolicy>, p: string)
    ensures PolicyOf(MergePrincipals(a, b), p) == MergePrincipal(PolicyOf(a, p), PolicyOf(b, p))
  {
    NoPolicyIsNeutral(PolicyOf(a, p));
  }

  lemma MergePrincipalsAssociative(a: map<string, PrincipalPolicy>, b: map<string, PrincipalPolicy>, c: map<string, PrincipalPolicy>)
    ensures MergePrincipals(MergePrincipals(a, b), c) == MergePrincipals(a, MergePrincipals(b, c))
  {
    var l, r := MergePrincipals(MergePrincipals(a, b), c), MergePrincipals(a, MergePrincipals(b, c));
    assert l.Keys == r.Keys;
    forall p | p in l ensures l[p] == r[p] {
      MergePrincipalsAt(MergePrincipals(a, b), c, p);
      MergePrincipalsAt(a, b, p);
      MergePrincipalsAt(b, c, p);
      MergePrincipalsAt(a, MergePrincipals(b, c), p);
      MergePrincipalAssociative(PolicyOf(a, p), PolicyOf(b, p), PolicyOf(c, p));
    }
  }

  lemma MergeEncryptionAssociative(a: Option<EncryptionBlock>, b: Option<EncryptionBlock>, c: Option<EncryptionBlock>)
    ensures MergeEncryption(MergeEncryption(a, b), c) == MergeEncryption(a, MergeEncryption(b, c))
  {
    if a.Some? && b.Some? && c.Some? {
      AddNewAssociative(a.value.requiredTags, b.value.requiredTags, c.value.requiredTags);
      AddNewAssociative(a.value.requiredColumns, b.value.requiredColumns, c.value.requiredColumns);
    }
  }

  lemma MergeBindingsAssociative(a: Option<map<string, string>>, b: Option<map<string, string>>, c: Option<map<string, string>>)
    ensures MergeBindings(MergeBindings(a, b), c) == MergeBindings(a, MergeBindings(b, c))
  {
    if a.Some? && b.Some? && c.Some? {
      OverrideAssociative(a.value, b.value, c.value);
    }
  }

  /** Merging is associative exactly, including the order of filters and of required names. */
  lemma MergeAssociative(a: PolicyManifest, b: PolicyManifest, c: PolicyManifest)
    ensures Merged(Merged(a, b), c) == Merged(a, Merged(b, c))
  {
    MergePrincipalsAssociative(a.principals, b.principals, c.principals);
    MergeEncryptionAssociative(a.encryption, b.encryption, c.encryption);
    MergeBindingsAssociative(a.purposeBindings, b.purposeBindings, c.purposeBindings);
  }

  // ---------------------------------------------------------------- obligations only grow

  function RequiredTags(m: PolicyManifest): seq<string> {
    if m.encryption.Some? then m.encryption.value.requiredTags else []
  }

  function RequiredColumns(m: PolicyManifest): seq<string> {
    if m.encryption.Some? then m.encryption.value.requiredColumns else []
  }

  /** The merge requires what either manifest requires, and nothing else. */
  lemma MergeUnitesObligations(a: PolicyManifest, b: PolicyManifest, x: string)
    ensures x in RequiredTags(Merged(a, b)) <==> x in RequiredTags(a) || x in RequiredTags(b)
    ensures x in RequiredColumns(Merged(a, b)) <==> x in RequiredColumns(a) || x in RequiredColumns(b)
  {
    AddNewMembers(RequiredTags(a), RequiredTags(b), x);
    AddNewMembers(RequiredColumns(a), RequiredColumns(b), x);
  }
}
