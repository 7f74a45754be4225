/**
 Composition of policy layers: signatures are checked, layers are sorted stably by level and
 folded with `merge`, so the global level has the last word; and what the result has encrypted.
 */
module PolicyLayers {
  import opened Sequences
  import opened StableSort
  import opened Text
  import opened Manifest
  import opened Contract

  datatype PolicyError = InvalidSignature | ParseError(reason: string)

  /** Signature check and parsing of one layer. */
  type Verifier = string -> Result<PolicyManifest, PolicyError>

  const EMPTY_POLICY := PolicyManifest("1.0", map[], None, None)

  function Rank(level: PolicyLevel): int {
    match level case Local => 0 case Domain => 1 case Global => 2
  }

  function FoldMerge(ms: seq<PolicyManifest>): PolicyManifest {
    if ms == [] then EMPTY_POLICY
    else if |ms| == 1 then ms[0]
    else Merged(FoldMerge(ms[..|ms| - 1]), ms[|ms| - 1])
  }

  function Values<T>(s: seq<Keyed<T>>): seq<T> {
    seq(|s|, i requires 0 <= i < |s| => s[i].value)
  }

  /** The layers in order of level, later ones of the same level behind earlier ones. */
  function InLevelOrder(layers: seq<Keyed<PolicyManifest>>): seq<PolicyManifest> {
    Values(Sort(layers))
  }

  function Compose(layers: seq<Keyed<PolicyManifest>>): PolicyManifest {
    FoldMerge(InLevelOrder(layers))
  }

  predicate AllVerify(policies: seq<(PolicyLevel, string)>, verify: Verifier) {
    forall i :: 0 <= i < |policies| ==> verify(policies[i].1).Ok?
  }

  function Layers(policies: seq<(PolicyLevel, string)>, verify: Verifier): seq<Keyed<PolicyManifest>>
    requires AllVerify(policies, verify)
  {
    seq(|policies|, i requires 0 <= i < |policies| => Keyed(Rank(policies[i].0), verify(policies[i].1).value))
  }

  /** A single layer that fails its check fails the whole composition. */
  method VerifySignatures(policies: seq<(PolicyLevel, string)>, verify: Verifier)
    returns (r: Result<seq<Keyed<PolicyManifest>>, PolicyError>)
    ensures r.Ok? <==> AllVerify(policies, verify)
    ensures r.Ok? ==> r.value == Layers(policies, verify)
    ensures r.Err? ==> exists n :: 0 <= n < |policies| && AllVerify(policies[..n], verify) && verify(policies[n].1) == Err(r.error)
  {
    var parsed: seq<Keyed<PolicyManifest>> := [];
    for i := 0 to |policies|
      invariant AllVerify(policies[..i], verify)
      invariant parsed == Layers(policies[..i], verify)
    {
      var manifest := verify(policies[i].1);
      if manifest.Err? {
        return Err(manifest.error);
      }
      parsed := parsed + [Keyed(Rank(policies[i].0), manifest.value)];
      assert parsed == Layers(policies[..i + 1], verify);
    }
    assert policies[..|policies|] == policies;
    return Ok(parsed);
  }

  method FoldLayers(sorted: seq<PolicyManifest>) returns (acc: PolicyManifest)
    ensures acc == FoldMerge(sorted)
  {
    if sorted == [] {
      return EMPTY_POLICY;
    }
    acc := sorted[0];
    for i := 1 to |sorted|
      invariant acc == FoldMerge(sorted[..i])
    {
      assert sorted[..i + 1][..i] == sorted[..i];
      acc := Merge(acc, sorted[i]);
    }
    assert sorted[..|sorted|] == sorted;
  }

  /** The layers are checked, sorted and folded from the local level up. */
  method MergeLayers(policies: seq<(PolicyLevel, string)>, verify: Verifier) returns (r: Result<PolicyManifest, PolicyError>)
    ensures r.Ok? <==> AllVerify(policies, verify)
    ensures r.Ok? ==> r.value == Compose(Layers(policies, verify)) == FoldMerge(LevelByLevel(policies, verify))
    ensures r.Err? ==> exists n :: 0 <= n < |policies| && AllVerify(policies[..n], verify) && verify(policies[n].1) == Err(r.error)
  {
    var parsed := VerifySignatures(policies, verify);
    if parsed.Err? {
      return Err(parsed.error);
    }
    LevelsInOrder(policies, verify);
    var merged := FoldLayers(InLevelOrder(parsed.value));
    return Ok(merged);
  }

  // ---------------------------------------------------------------- order of the layers

  /** The result depends only on the relative order of the layers within each level. */
  lemma CompositionDependsOnLevels(a: seq<Keyed<PolicyManifest>>, b: seq<Keyed<PolicyManifest>>)
    requires forall k :: Group(a, k) == Group(b, k)
    ensures Compose(a) == Compose(b)
  {
    SortDependsOnGroups(a, b);
  }

  /** With at most one layer per level, every permutation of the layers gives the same policy. */
  lemma DistinctLevelsInAnyOrder(a: seq<Keyed<PolicyManifest>>, b: seq<Keyed<PolicyManifest>>)
    requires forall k :: |Group(a, k)| <= 1
    requires forall k :: |Group(b, k)| <= 1
    requires forall y :: y in a <==> y in b
    ensures Compose(a) == Compose(b)
  {
    forall k ensures Group(a, k) == Group(b, k) {
      GroupMembers(a, k);
      GroupMembers(b, k);
      ShortAndSameMembers(Group(a, k), Group(b, k));
    }
    CompositionDependsOnLevels(a, b);
  }

  lemma ShortAndSameMembers<T>(s: seq<T>, t: seq<T>)
    requires |s| <= 1 && |t| <= 1 && forall y :: y in s <==> y in t
    ensures s == t
  {
    assert s != [] ==> s[0] in t;
    assert t != [] ==> t[0] in s;
  }

  // ---------------------------------------------------------------- what the fold computes

  /** What one layer says about a principal. */
  function Says(m: PolicyManifest, p: string): PrincipalPolicy {
    PolicyOf(m.principals, p)
  }

  function ConcatGlobalFilters(ms: seq<PolicyManifest>, p: string): seq<string> {
    if ms == [] then [] else ConcatGlobalFilters(ms[..|ms| - 1], p) + Says(ms[|ms| - 1], p).globalRowFilters
  }

  function ConcatSelectiveFilters(ms: seq<PolicyManifest>, p: string): seq<string> {
    if ms == [] then [] else ConcatSelectiveFilters(ms[..|ms| - 1], p) + Says(ms[|ms| - 1], p).selectiveRowFilters
  }

  lemma {:induction false} FoldPrincipal(ms: seq<PolicyManifest>, p: string)
    requires ms != []
    ensures Says(FoldMerge(ms), p) ==
            if |ms| == 1 then Says(ms[0], p)
            else MergePrincipal(Says(FoldMerge(ms[..|ms| - 1]), p), Says(ms[|ms| - 1], p))
  {
    if |ms| > 1 {
      MergePrincipalsAt(FoldMerge(ms[..|ms| - 1]).principals, ms[|ms| - 1].principals, p);
    }
  }

  /** Row filters of all layers apply, in level order. */
  lemma {:induction false} FiltersConcatenate(ms: seq<PolicyManifest>, p: string)
    ensures Says(FoldMerge(ms), p).globalRowFilters == ConcatGlobalFilters(ms, p)
    ensures Says(FoldMerge(ms), p).selectiveRowFilters == ConcatSelectiveFilters(ms, p)
  {
    if ms != [] {
      FoldPrincipal(ms, p);
      if |ms| == 1 {
        assert ms[..0] == [];
        assert ConcatGlobalFilters([], p) == [] && ConcatSelectiveFilters([], p) == [];
      } else {
        FiltersConcatenate(ms[..|ms| - 1], p);
      }
    }
  }

  /** The entries of maps that are inserted one after the other. */
  function Overridden(ms: seq<map<string, string>>): map<string, string> {
    if ms == [] then map[] else Overridden(ms[..|ms| - 1]) + ms[|ms| - 1]
  }

  /** Map i is the last one with the key. */
  predicate LastToDefine(ms: seq<map<string, string>>, key: string, i: int) {
    0 <= i < |ms| && key in ms[i] && forall j :: i < j < |ms| ==> key !in ms[j]
  }

  lemma {:induction false} LastDefinitionWins(ms: seq<map<string, string>>, key: string, i: int)
    requires LastToDefine(ms, key, i)
    ensures key in Overridden(ms) && Overridden(ms)[key] == ms[i][key]
  {
    var n := |ms| - 1;
    if i < n {
      assert LastToDefine(ms[..n], key, i);
      LastDefinitionWins(ms[..n], key, i);
      assert key !in ms[n];
    }
  }

  lemma {:induction false} DefinedByTheLast(ms: seq<map<string, string>>, key: string) returns (i: int)
    requires key in Overridden(ms)
    ensures LastToDefine(ms, key, i)
  {
    var n := |ms| - 1;
    i := n;
    if key !in ms[n] {
      i := DefinedByTheLast(ms[..n], key);
      LastStays(ms, key, i);
    }
  }

  lemma LastStays(ms: seq<map<string, string>>, key: string, i: int)
    requires ms != [] && LastToDefine(ms[..|ms| - 1], key, i) && key !in ms[|ms| - 1]
    ensures LastToDefine(ms, key, i)
  {
    assert forall j :: 0 <= j < |ms| - 1 ==> ms[..|ms| - 1][j] == ms[j];
  }

  function ColumnMasks(ms: seq<PolicyManifest>, p: string): seq<map<string, string>> {
    Map(ms, (m: PolicyManifest) => Says(m, p).columnMasks)
  }

  function TagMasks(ms: seq<PolicyManifest>, p: string): seq<map<string, string>> {
    Map(ms, (m: PolicyManifest) => Says(m, p).tagMasks)
  }

  lemma {:induction false} MasksOverride(ms: seq<PolicyManifest>, p: string)
    ensures Says(FoldMerge(ms), p).columnMasks == Overridden(ColumnMasks(ms, p))
    ensures Says(FoldMerge(ms), p).tagMasks == Overridden(TagMasks(ms, p))
  {
    if ms != [] {
      var n := |ms| - 1;
      FoldPrincipal(ms, p);
      MasksOverride(ms[..n], p);
      assert ColumnMasks(ms, p)[..n] == ColumnMasks(ms[..n], p);
      assert TagMasks(ms, p)[..n] == TagMasks(ms[..n], p);
    }
  }

  /** The mask of a column is the one of the last layer that defines it. */
  lemma LastMaskWins(ms: seq<PolicyManifest>, p: string, column: string, i: int)
    requires LastToDefine(ColumnMasks(ms, p), column, i)
    ensures column in Says(FoldMerge(ms), p).columnMasks
    ensures Says(FoldMerge(ms), p).columnMasks[column] == Says(ms[i], p).columnMasks[column]
  {
    MasksOverride(ms, p);
    LastDefinitionWins(ColumnMasks(ms, p), column, i);
  }

  /** A column is masked only if some layer masks it. */
  lemma MaskComesFromLayer(ms: seq<PolicyManifest>, p: string, column: string)
    requires column in Says(FoldMerge(ms), p).columnMasks
    ensures exists i :: LastToDefine(ColumnMasks(ms, p), column, i)
  {
    MasksOverride(ms, p);
    var i := DefinedByTheLast(ColumnMasks(ms, p), column);
  }

  /** The mask of a tag is the one of the last layer that defines it. */
  lemma LastTagMaskWins(ms: seq<PolicyManifest>, p: string, tag: string, i: int)
    requires LastToDefine(TagMasks(ms, p), tag, i)
    ensures tag in Says(FoldMerge(ms), p).tagMasks
    ensures Says(FoldMerge(ms), p).tagMasks[tag] == Says(ms[i], p).tagMasks[tag]
  {
    MasksOverride(ms, p);
    LastDefinitionWins(TagMasks(ms, p), tag, i);
  }

  /** A tag has a mask only if some layer gives it one. */
  lemma TagMaskComesFromLayer(ms: seq<PolicyManifest>, p: string, tag: string)
    requires tag in Says(FoldMerge(ms), p).tagMasks
    ensures exists i :: LastToDefine(TagMasks(ms, p), tag, i)
  {
    MasksOverride(ms, p);
    var i := DefinedByTheLast(TagMasks(ms, p), tag);
  }

  function Lowest(caps: seq<Option<nat>>): Option<nat> {
    if caps == [] then None else LowerCap(Lowest(caps[..|caps| - 1]), caps[|caps| - 1])
  }

  /** The lowest cap is one of the caps, and none is lower. */
  predicate IsLowest(caps: seq<Option<nat>>, cap: Option<nat>) {
    && (cap.None? <==> forall i :: 0 <= i < |caps| ==> caps[i].None?)
    && (cap.Some? ==> cap in caps)
    && (cap.Some? ==> forall i :: 0 <= i < |caps| && caps[i].Some? ==> cap.value <= caps[i].value)
  }

  lemma {:induction false} LowestIsLowest(caps: seq<Option<nat>>)
    ensures IsLowest(caps, Lowest(caps))
  {
    if caps != [] {
      var n := |caps| - 1;
      LowestIsLowest(caps[..n]);
      assert caps == caps[..n] + [caps[n]];
    }
  }

  function Caps(ms: seq<PolicyManifest>, p: string): seq<Option<nat>> {
    Map(ms, (m: PolicyManifest) => Says(m, p).samplingCap)
  }

  lemma {:induction false} CapsFold(ms: seq<PolicyManifest>, p: string)
    ensures Says(FoldMerge(ms), p).samplingCap == Lowest(Caps(ms, p))
  {
    if ms != [] {
      FoldPrincipal(ms, p);
      CapsFold(ms[..|ms| - 1], p);
      assert Caps(ms, p)[..|ms| - 1] == Caps(ms[..|ms| - 1], p);
    }
  }

  /** The cap is set iff a layer sets one, no layer has a smaller one, and it is one of theirs. */
  lemma SmallestCapWins(ms: seq<PolicyManifest>, p: string)
    ensures IsLowest(Caps(ms, p), Says(FoldMerge(ms), p).samplingCap)
  {
    CapsFold(ms, p);
    LowestIsLowest(Caps(ms, p));
  }

  // ---------------------------------------------------------------- what each level decides

  /** The manifests of one level, in the order in which they were given. */
  function AtLevel(policies: seq<(PolicyLevel, string)>, verify: Verifier, level: PolicyLevel): seq<PolicyManifest>
    requires AllVerify(policies, verify)
  {
    if policies == [] then []
    else
      var n := |policies| - 1;
      AtLevel(policies[..n], verify, level) + (if policies[n].0 == level then [verify(policies[n].1).value] else [])
  }

  /** The local layers, then those of the domain, then the global ones. */
  function LevelByLevel(policies: seq<(PolicyLevel, string)>, verify: Verifier): seq<PolicyManifest>
    requires AllVerify(policies, verify)
  {
    AtLevel(policies, verify, Local) + AtLevel(policies, verify, Domain) + AtLevel(policies, verify, Global)
  }

  function KeyedAt(ms: seq<PolicyManifest>, key: int): (r: seq<Keyed<PolicyManifest>>)
    ensures |r| == |ms| && forall i :: 0 <= i < |r| ==> r[i] == Keyed(key, ms[i])
  {
    seq(|ms|, i requires 0 <= i < |ms| => Keyed(key, ms[i]))
  }

  lemma LayersSnoc(policies: seq<(PolicyLevel, string)>, verify: Verifier)
    requires policies != [] && AllVerify(policies, verify)
    ensures AllVerify(policies[..|policies| - 1], verify)
    ensures var n := |policies| - 1;
            Layers(policies, verify) ==
              Layers(policies[..n], verify) + [Keyed(Rank(policies[n].0), verify(policies[n].1).value)]
  {
  }

  lemma RanksDiffer(a: PolicyLevel, b: PolicyLevel)
    ensures Rank(a) == Rank(b) <==> a == b
  {
  }

  lemma KeyedSnoc(ms: seq<PolicyManifest>, m: PolicyManifest, key: int)
    ensures KeyedAt(ms + [m], key) == KeyedAt(ms, key) + [Keyed(key, m)]
    ensures KeyedAt(ms + [], key) == KeyedAt(ms, key) + []
  {
    assert ms + [] == ms;
  }

  lemma {:induction false} LevelIsGroup(policies: seq<(PolicyLevel, string)>, verify: Verifier, level: PolicyLevel)
    requires AllVerify(policies, verify)
    ensures Group(Layers(policies, verify), Rank(level)) == KeyedAt(AtLevel(policies, verify, level), Rank(level))
  {
    if policies != [] {
      var n := |policies| - 1;
      var (at, text) := policies[n];
      var last := Keyed(Rank(at), verify(text).value);
      LayersSnoc(policies, verify);
      LevelIsGroup(policies[..n], verify, level);
      GroupAppend(Layers(policies[..n], verify), [last], Rank(level));
      RanksDiffer(at, level);
      assert Group([last], Rank(level)) == if at == level then [last] else [];
      KeyedSnoc(AtLevel(policies[..n], verify, level), verify(text).value, Rank(level));
    }
  }

  lemma {:induction false} GroupOfKeyed(ms: seq<PolicyManifest>, key: int, k: int)
    ensures Group(KeyedAt(ms, key), k) == if k == key then KeyedAt(ms, key) else []
  {
    if ms != [] {
      GroupOfKeyed(ms[1..], key, k);
      assert KeyedAt(ms, key)[1..] == KeyedAt(ms[1..], key);
      assert KeyedAt(ms, key) == [Keyed(key, ms[0])] + KeyedAt(ms[1..], key);
    }
  }

  lemma NoOtherGroup(policies: seq<(PolicyLevel, string)>, verify: Verifier, k: int)
    requires AllVerify(policies, verify) && k != Rank(Local) && k != Rank(Domain) && k != Rank(Global)
    ensures Group(Layers(policies, verify), k) == []
  {
    forall y | y in Layers(policies, verify) ensures y.key != k {
      var i :| 0 <= i < |policies| && y.key == Rank(policies[i].0);
    }
    GroupAbsent(Layers(policies, verify), k);
  }

  /** The layers as they are sorted, with their ranks. */
  function RankedLevels(policies: seq<(PolicyLevel, string)>, verify: Verifier): seq<Keyed<PolicyManifest>>
    requires AllVerify(policies, verify)
  {
    KeyedAt(AtLevel(policies, verify, Local), Rank(Local)) + KeyedAt(AtLevel(policies, verify, Domain), Rank(Domain)) +
    KeyedAt(AtLevel(policies, verify, Global), Rank(Global))
  }

  lemma RankedGroups(policies: seq<(PolicyLevel, string)>, verify: Verifier, k: int)
    requires AllVerify(policies, verify)
    ensures Group(RankedLevels(policies, verify), k) == Group(Layers(policies, verify), k)
  {
    var low, middle, high := KeyedAt(AtLevel(policies, verify, Local), Rank(Local)),
      KeyedAt(AtLevel(policies, verify, Domain), Rank(Domain)), KeyedAt(AtLevel(policies, verify, Global), Rank(Global));
    GroupAppend(low + middle, high, k);
    GroupAppend(low, middle, k);
    GroupOfKeyed(AtLevel(policies, verify, Local), Rank(Local), k);
    GroupOfKeyed(AtLevel(policies, verify, Domain), Rank(Domain), k);
    GroupOfKeyed(AtLevel(policies, verify, Global), Rank(Global), k);
    GroupAtLevels(policies, verify, k);
  }

  lemma RankedIsSorted(policies: seq<(PolicyLevel, string)>, verify: Verifier)
    requires AllVerify(policies, verify)
    ensures Sorted(RankedLevels(policies, verify))
    ensures Values(RankedLevels(policies, verify)) == LevelByLevel(policies, verify)
  {
  }

  /** Sorting puts the layers in order level by level: local, domain, global. */
  lemma LevelsInOrder(policies: seq<(PolicyLevel, string)>, verify: Verifier)
    requires AllVerify(policies, verify)
    ensures InLevelOrder(Layers(policies, verify)) == LevelByLevel(policies, verify)
  {
    SortSorts(Layers(policies, verify));
    RankedIsSorted(policies, verify);
    forall k ensures Group(Sort(Layers(policies, verify)), k) == Group(RankedLevels(policies, verify), k) {
      SortIsStable(Layers(policies, verify), k);
      RankedGroups(policies, verify, k);
    }
    SortedByGroups(Sort(Layers(policies, verify)), RankedLevels(policies, verify));
  }

  lemma GroupAtLevels(policies: seq<(PolicyLevel, string)>, verify: Verifier, k: int)
    requires AllVerify(policies, verify)
    ensures Group(Layers(policies, verify), k) ==
            if k == Rank(Local) then KeyedAt(AtLevel(policies, verify, Local), k)
            else if k == Rank(Domain) then KeyedAt(AtLevel(policies, verify, Domain), k)
            else if k == Rank(Global) then KeyedAt(AtLevel(policies, verify, Global), k)
            else []
  {
    LevelIsGroup(policies, verify, Local);
    LevelIsGroup(policies, verify, Domain);
    LevelIsGroup(policies, verify, Global);
    if k != Rank(Local) && k != Rank(Domain) && k != Rank(Global) {
      NoOtherGroup(policies, verify, k);
    }
  }

  /** The composed manifest has the version of its lowest layer. */
  lemma {:induction false} LowestVersionStays(ms: seq<PolicyManifest>)
    ensures FoldMerge(ms).version == if ms == [] then "1.0" else ms[0].version
  {
    if |ms| > 1 {
      LowestVersionStays(ms[..|ms| - 1]);
    }
  }

  function Entry(m: map<string, string>, key: string): Option<string> {
    if key in m then Some(m[key]) else None
  }

  /** What the last of some layers that says anything about a key says. */
  function LastEntry(ms: seq<PolicyManifest>, says: PolicyManifest -> map<string, string>, key: string): Option<string> {
    if ms == [] then None
    else if key in says(ms[|ms| - 1]) then Some(says(ms[|ms| - 1])[key])
    else LastEntry(ms[..|ms| - 1], says, key)
  }

  lemma {:induction false} LastEntryIsOverridden(ms: seq<PolicyManifest>, says: PolicyManifest -> map<string, string>, key: string)
    ensures LastEntry(ms, says, key) == Entry(Overridden(Map(ms, says)), key)
  {
    if ms != [] {
      var n := |ms| - 1;
      LastEntryIsOverridden(ms[..n], says, key);
      assert Map(ms, says)[..n] == Map(ms[..n], says);
    }
  }

  lemma {:induction false} LastEntryAppend(a: seq<PolicyManifest>, b: seq<PolicyManifest>,
                                           says: PolicyManifest -> map<string, string>, key: string)
    ensures LastEntry(a + b, says, key) ==
            if LastEntry(b, says, key).Some? then LastEntry(b, says, key) else LastEntry(a, says, key)
  {
    if b == [] {
      assert a + b == a;
    } else {
      assert (a + b)[..|a + b| - 1] == a + b[..|b| - 1];
      LastEntryAppend(a, b[..|b| - 1], says, key);
    }
  }

  /** The last global layer with the key decides, else the last one of the domain, else the last local one. */
  function Decision(policies: seq<(PolicyLevel, string)>, verify: Verifier, says: PolicyManifest -> map<string, string>,
                    key: string): Option<string>
    requires AllVerify(policies, verify)
  {
    var byGlobal, byDomain, byLocal := LastEntry(AtLevel(policies, verify, Global), says, key),
      LastEntry(AtLevel(policies, verify, Domain), says, key), LastEntry(AtLevel(policies, verify, Local), says, key);
    if byGlobal.Some? then byGlobal else if byDomain.Some? then byDomain else byLocal
  }

  lemma DecisionIsLast(policies: seq<(PolicyLevel, string)>, verify: Verifier, says: PolicyManifest -> map<string, string>,
                       key: string)
    requires AllVerify(policies, verify)
    ensures Entry(Overridden(Map(LevelByLevel(policies, verify), says)), key) == Decision(policies, verify, says, key)
  {
    var low, middle, high := AtLevel(policies, verify, Local), AtLevel(policies, verify, Domain), AtLevel(policies, verify, Global);
    LastEntryIsOverridden(LevelByLevel(policies, verify), says, key);
    LastEntryAppend(low + middle, high, says, key);
    LastEntryAppend(low, middle, says, key);
  }

  /** The mask of a column is the last global layer's that has one, else the domain's, else a local one's. */
  lemma GlobalColumnMaskWins(policies: seq<(PolicyLevel, string)>, verify: Verifier, p: string, column: string)
    requires AllVerify(policies, verify)
    ensures Entry(Says(Compose(Layers(policies, verify)), p).columnMasks, column) ==
            Decision(policies, verify, (m: PolicyManifest) => Says(m, p).columnMasks, column)
  {
    LevelsInOrder(policies, verify);
    MasksOverride(LevelByLevel(policies, verify), p);
    DecisionIsLast(policies, verify, (m: PolicyManifest) => Says(m, p).columnMasks, column);
  }

  /** And so is the mask of a tag. */
  lemma GlobalTagMaskWins(policies: seq<(PolicyLevel, string)>, verify: Verifier, p: string, tag: string)
    requires AllVerify(policies, verify)
    ensures Entry(Says(Compose(Layers(policies, verify)), p).tagMasks, tag) ==
            Decision(policies, verify, (m: PolicyManifest) => Says(m, p).tagMasks, tag)
  {
    LevelsInOrder(policies, verify);
    MasksOverride(LevelByLevel(policies, verify), p);
    DecisionIsLast(policies, verify, (m: PolicyManifest) => Says(m, p).tagMasks, tag);
  }

  function BindingsOf(m: PolicyManifest): map<string, string> {
    if m.purposeBindings.Some? then m.purposeBindings.value else map[]
  }

  lemma BindingsMerge(a: PolicyManifest, b: PolicyManifest)
    ensures BindingsOf(Merged(a, b)) == BindingsOf(a) + BindingsOf(b)
  {
    assert BindingsOf(a) + map[] == BindingsOf(a) && map[] + BindingsOf(b) == BindingsOf(b);
  }

  lemma OverriddenSnoc(ms: seq<PolicyManifest>, m: PolicyManifest)
    ensures Overridden(Map(ms + [m], BindingsOf)) == Overridden(Map(ms, BindingsOf)) + BindingsOf(m)
  {
    var all := Map(ms + [m], BindingsOf);
    assert all[..|ms|] == Map(ms, BindingsOf) && all[|ms|] == BindingsOf(m);
  }

  lemma FoldSnoc(ms: seq<PolicyManifest>, m: PolicyManifest)
    ensures BindingsOf(FoldMerge(ms + [m])) == BindingsOf(FoldMerge(ms)) + BindingsOf(m)
  {
    assert (ms + [m])[..|ms|] == ms;
    if ms == [] {
      assert map[] + BindingsOf(m) == BindingsOf(m);
    } else {
      BindingsMerge(FoldMerge(ms), m);
    }
  }

  lemma {:induction false} BindingsOverride(ms: seq<PolicyManifest>)
    ensures BindingsOf(FoldMerge(ms)) == Overridden(Map(ms, BindingsOf))
  {
    if ms != [] {
      var init, last := ms[..|ms| - 1], ms[|ms| - 1];
      BindingsOverride(init);
      assert ms == init + [last];
      OverriddenSnoc(init, last);
      FoldSnoc(init, last);
    }
  }

  /** The role that a purpose is bound to is decided in the same order. */
  lemma GlobalBindingWins(policies: seq<(PolicyLevel, string)>, verify: Verifier, purpose: string)
    requires AllVerify(policies, verify)
    ensures Entry(BindingsOf(Compose(Layers(policies, verify))), purpose) == Decision(policies, verify, BindingsOf, purpose)
  {
    LevelsInOrder(policies, verify);
    BindingsOverride(LevelByLevel(policies, verify));
    DecisionIsLast(policies, verify, BindingsOf, purpose);
  }

  lemma {:induction false} ConcatGlobalAppend(a: seq<PolicyManifest>, b: seq<PolicyManifest>, p: string)
    ensures ConcatGlobalFilters(a + b, p) == ConcatGlobalFilters(a, p) + ConcatGlobalFilters(b, p)
  {
    if b == [] {
      assert a + b == a;
    } else {
      var n := |b| - 1;
      assert (a + b)[..|a + b| - 1] == a + b[..n] && (a + b)[|a + b| - 1] == b[n];
      ConcatGlobalAppend(a, b[..n], p);
    }
  }

  lemma {:induction false} ConcatSelectiveAppend(a: seq<PolicyManifest>, b: seq<PolicyManifest>, p: string)
    ensures ConcatSelectiveFilters(a + b, p) == ConcatSelectiveFilters(a, p) + ConcatSelectiveFilters(b, p)
  {
    if b == [] {
      assert a + b == a;
    } else {
      var n := |b| - 1;
      assert (a + b)[..|a + b| - 1] == a + b[..n] && (a + b)[|a + b| - 1] == b[n];
      ConcatSelectiveAppend(a, b[..n], p);
    }
  }

  /** All row filters apply: the local ones come first, then those of the domain, then the global ones. */
  lemma FiltersLevelByLevel(policies: seq<(PolicyLevel, string)>, verify: Verifier, p: string)
    requires AllVerify(policies, verify)
    ensures var low, middle, high :=
              AtLevel(policies, verify, Local), AtLevel(policies, verify, Domain), AtLevel(policies, verify, Global);
            var composed := Says(Compose(Layers(policies, verify)), p);
            && composed.globalRowFilters ==
                 ConcatGlobalFilters(low, p) + ConcatGlobalFilters(middle, p) + ConcatGlobalFilters(high, p)
            && composed.selectiveRowFilters ==
                 ConcatSelectiveFilters(low, p) + ConcatSelectiveFilters(middle, p) + ConcatSelectiveFilters(high, p)
  {
    var low, middle, high := AtLevel(policies, verify, Local), AtLevel(policies, verify, Domain), AtLevel(policies, verify, Global);
    LevelsInOrder(policies, verify);
    FiltersConcatenate(LevelByLevel(policies, verify), p);
    ConcatGlobalAppend(low + middle, high, p);
    ConcatGlobalAppend(low, middle, p);
    ConcatSelectiveAppend(low + middle, high, p);
    ConcatSelectiveAppend(low, middle, p);
  }

  /** For instance, a local layer cannot lift a global mask, in whichever order the two are given. */
  lemma LocalCannotLift(verify: Verifier, p: string, local: string, global: string)
    requires verify(local).Ok? && Says(verify(local).value, p).columnMasks == map["ssn" := "PLAINTEXT"]
    requires verify(global).Ok? && Says(verify(global).value, p).columnMasks == map["ssn" := "REDACT"]
    ensures forall policies :: policies in {[(Local, local), (Global, global)], [(Global, global), (Local, local)]} ==>
              AllVerify(policies, verify) &&
              Entry(Says(Compose(Layers(policies, verify)), p).columnMasks, "ssn") == Some("REDACT")
  {
    forall policies | policies in {[(Local, local), (Global, global)], [(Global, global), (Local, local)]}
      ensures AllVerify(policies, verify)
      ensures Entry(Says(Compose(Layers(policies, verify)), p).columnMasks, "ssn") == Some("REDACT")
    {
      var m := verify(global).value;
      GlobalColumnMaskWins(policies, verify, p, "ssn");
      assert policies[..1][..0] == [];
      assert AtLevel([], verify, Global) == [];
      assert AtLevel(policies, verify, Global) == [m];
    }
  }

  // ---------------------------------------------------------------- obligations

  /** A layer has a property iff one of the first or the last one has it. */
  lemma SomewhereInInit(ms: seq<PolicyManifest>, init: seq<PolicyManifest>, holds: PolicyManifest -> bool)
    requires ms != [] && init == ms[..|ms| - 1]
    ensures (exists i :: 0 <= i < |ms| && holds(ms[i])) <==>
            (exists i :: 0 <= i < |init| && holds(init[i])) || holds(ms[|ms| - 1])
  {
    if i :| 0 <= i < |ms| && holds(ms[i]) {
      assert i < |init| ==> holds(init[i]);
    }
    if i :| 0 <= i < |init| && holds(init[i]) {
      assert holds(ms[i]);
    }
  }

  /** What must be encrypted is exactly what some layer says must be encrypted. */
  lemma {:induction false} ObligationsUnite(ms: seq<PolicyManifest>, x: string)
    ensures x in RequiredTags(FoldMerge(ms)) <==> exists i :: 0 <= i < |ms| && x in RequiredTags(ms[i])
    ensures x in RequiredColumns(FoldMerge(ms)) <==> exists i :: 0 <= i < |ms| && x in RequiredColumns(ms[i])
  {
    if |ms| > 1 {
      var init, last := ms[..|ms| - 1], ms[|ms| - 1];
      ObligationsUnite(init, x);
      MergeUnitesObligations(FoldMerge(init), last, x);
      SomewhereInInit(ms, init, (m: PolicyManifest) => x in RequiredTags(m));
      SomewhereInInit(ms, init, (m: PolicyManifest) => x in RequiredColumns(m));
    }
  }

  /** A column is sensitive by a lower-cased tag or because a required name occurs in its own. */
  predicate Sensitive(lower: string -> string, policy: PolicyManifest, col: ColumnPolicy) {
    || (exists i :: 0 <= i < |TagsOf(col)| && lower(TagsOf(col)[i]) in RequiredTags(policy))
    || (exists j :: 0 <= j < |RequiredColumns(policy)| &&
          Contains(lower(col.name), lower(RequiredColumns(policy)[j])))
  }

  function SensitiveNames(lower: string -> string, policy: PolicyManifest, columns: seq<ColumnPolicy>): seq<string> {
    if columns == [] then []
    else
      SensitiveNames(lower, policy, columns[..|columns| - 1]) +
      (if Sensitive(lower, policy, columns[|columns| - 1]) then [columns[|columns| - 1].name] else [])
  }

  /** The flag is set by the first tag that is required, else by the column's name. */
  method IsSensitive(lower: string -> string, policy: PolicyManifest, col: ColumnPolicy) returns (isSensitive: bool)
    ensures isSensitive == Sensitive(lower, policy, col)
  {
    var reqTags, reqCols, tags := RequiredTags(policy), RequiredColumns(policy), TagsOf(col);
    isSensitive := false;
    var i := 0;
    while i < |tags| && !isSensitive
      invariant 0 <= i <= |tags|
      invariant isSensitive <==> exists k :: 0 <= k < i && lower(tags[k]) in reqTags
    {
      isSensitive := lower(tags[i]) in reqTags;
      i := i + 1;
    }
    if !isSensitive {
      isSensitive := exists j :: 0 <= j < |reqCols| && Contains(lower(col.name), lower(reqCols[j]));
    }
  }

  /** The loop that collects the columns to encrypt, in contract order. */
  method ResolveColumnsToEncrypt(lower: string -> string, contract: DataContract, policy: PolicyManifest)
    returns (columnsToEncrypt: seq<string>)
    ensures columnsToEncrypt == SensitiveNames(lower, policy, contract.columns)
  {
    columnsToEncrypt := [];
    for n := 0 to |contract.columns|
      invariant columnsToEncrypt == SensitiveNames(lower, policy, contract.columns[..n])
    {
      assert contract.columns[..n + 1][..n] == contract.columns[..n];
      var isSensitive := IsSensitive(lower, policy, contract.columns[n]);
      if isSensitive {
        columnsToEncrypt := columnsToEncrypt + [contract.columns[n].name];
      }
    }
    assert contract.columns[..|contract.columns|] == contract.columns;
  }

  lemma {:induction false} SensitiveNamesExactly(lower: string -> string, policy: PolicyManifest, columns: seq<ColumnPolicy>, name: string)
    ensures name in SensitiveNames(lower, policy, columns) <==>
            exists i :: 0 <= i < |columns| && columns[i].name == name && Sensitive(lower, policy, columns[i])
  {
    if columns != [] {
      var init := columns[..|columns| - 1];
      SensitiveNamesExactly(lower, policy, init, name);
      assert forall i :: 0 <= i < |init| ==> init[i] == columns[i];
    }
  }

  /** Composition never lifts an obligation: what one layer alone would encrypt stays encrypted. */
  lemma CompositionKeepsEncryption(lower: string -> string, layers: seq<Keyed<PolicyManifest>>, y: Keyed<PolicyManifest>,
                                   contract: DataContract, name: string)
    requires y in layers
    requires name in SensitiveNames(lower, y.value, contract.columns)
    ensures name in SensitiveNames(lower, Compose(layers), contract.columns)
  {
    var ms := InLevelOrder(layers);
    SortIsStable(layers, y.key);
    GroupMembers(layers, y.key);
    GroupMembers(Sort(layers), y.key);
    assert y in Sort(layers);
    var n :| 0 <= n < |Sort(layers)| && Sort(layers)[n] == y;
    SensitiveNamesExactly(lower, y.value, contract.columns, name);
    SensitiveNamesExactly(lower, Compose(layers), contract.columns, name);
    var i :| 0 <= i < |contract.columns| && contract.columns[i].name == name && Sensitive(lower, y.value, contract.columns[i]);
    SensitivityGrows(lower, ms, n, contract.columns[i]);
  }

  lemma SensitivityGrows(lower: string -> string, ms: seq<PolicyManifest>, n: nat, col: ColumnPolicy)
    requires n < |ms| && Sensitive(lower, ms[n], col)
    ensures Sensitive(lower, FoldMerge(ms), col)
  {
    if i :| 0 <= i < |TagsOf(col)| && lower(TagsOf(col)[i]) in RequiredTags(ms[n]) {
      ObligationsUnite(ms, lower(TagsOf(col)[i]));
    } else {
      var j :| 0 <= j < |RequiredColumns(ms[n])| && Contains(lower(col.name), lower(RequiredColumns(ms[n])[j]));
      var c := RequiredColumns(ms[n])[j];
      ObligationsUnite(ms, c);
      var l :| 0 <= l < |RequiredColumns(FoldMerge(ms))| && RequiredColumns(FoldMerge(ms))[l] == c;
    }
  }
}
