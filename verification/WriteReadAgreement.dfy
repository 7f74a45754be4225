/**
 The writer decides which columns to encrypt, the reader decides which columns it insists are
 encrypted, and they use different rules: lower-cased tags and substrings on one side, raw tags
 from the file's metadata and underscore-separated name parts on the other.
 */
module WriteReadAgreement {
  import opened Sequences
  import opened Text
  import opened Contract
  import opened Manifest
  import opened PolicyLayers
  import opened Governance

  datatype KeyValue = KeyValue(key: string, value: string)

  function TagKey(name: string): string {
    "holonomy.tags." + name
  }

  function EncodeTags(tags: seq<string>): string {
    Join(tags)
  }

  function DecodeTags(text: string): seq<string> {
    TrimAll(Split(text))
  }

  // ---------------------------------------------------------------- the tag round trip

  predicate CleanTag(t: string) {
    ',' !in t && Trimmed(t)
  }

  predicate CleanTags(tags: seq<string>) {
    forall i :: 0 <= i < |tags| ==> CleanTag(tags[i])
  }

  lemma {:induction false} SplitJoin(tags: seq<string>)
    requires tags != [] && forall i :: 0 <= i < |tags| ==> ',' !in tags[i]
    ensures Split(Join(tags)) == tags
  {
    if |tags| == 1 {
      SplitWithoutComma(tags[0]);
    } else {
      SplitAtComma(tags[0], Join(tags[1..]));
      SplitJoin(tags[1..]);
      assert tags == [tags[0]] + tags[1..];
    }
  }

  lemma {:induction false} CommasAdd(s: string, t: string)
    ensures Commas(s + t) == Commas(s) + Commas(t)
  {
    if s == [] {
      assert s + t == t;
    } else {
      assert (s + t)[1..] == s[1..] + t;
      CommasAdd(s[1..], t);
    }
  }

  lemma {:induction false} CommasIn(s: string)
    requires ',' in s
    ensures Commas(s) > 0
  {
    if s[0] != ',' {
      CommasIn(s[1..]);
    }
  }

  /** Joining puts at least one comma between two tags, so a comma inside makes one piece too many. */
  lemma {:induction false} JoinCommas(tags: seq<string>, i: nat)
    requires i < |tags|
    ensures Commas(Join(tags)) >= |tags| - 1 + Commas(tags[i])
  {
    if |tags| > 1 {
      CommasAdd(tags[0] + ",", Join(tags[1..]));
      CommasAdd(tags[0], ",");
      assert Commas(",") == 1;
      JoinCommas(tags[1..], if i == 0 then 0 else i - 1);
    }
  }

  lemma TrimIsIdentityIff(s: string)
    ensures Trim(s) == s <==> Trimmed(s)
  {
    var pad, pad' := TrimSplits(s);
    if Trimmed(s) {
      TrimPads("", s, "");
      assert "" + s + "" == s;
    }
  }

  /** Tags come back from the metadata exactly when none has a comma or outer whitespace. */
  lemma TagsComeBackIff(tags: seq<string>)
    requires tags != []
    ensures DecodeTags(EncodeTags(tags)) == tags <==> CleanTags(tags)
  {
    if i :| 0 <= i < |tags| && ',' in tags[i] {
      CommasIn(tags[i]);
      JoinCommas(tags, i);
      SplitCounts(Join(tags));
    } else {
      SplitJoin(tags);
      forall i | 0 <= i < |tags| ensures TrimAll(tags)[i] == tags[i] <==> CleanTag(tags[i]) {
        TrimIsIdentityIff(tags[i]);
      }
    }
  }

  // ---------------------------------------------------------------- metadata

  /** What the writer stores: one entry for every column with tags. */
  function TagEntries(columns: seq<ColumnPolicy>): seq<KeyValue> {
    if columns == [] then []
    else
      var col, before := columns[|columns| - 1], TagEntries(columns[..|columns| - 1]);
      if TagsOf(col) == [] then before else before + [KeyValue(TagKey(col.name), EncodeTags(TagsOf(col)))]
  }

  method WriteTagEntries(contract: DataContract) returns (entries: seq<KeyValue>)
    ensures entries == TagEntries(contract.columns)
  {
    entries := [];
    for i := 0 to |contract.columns|
      invariant entries == TagEntries(contract.columns[..i])
    {
      assert contract.columns[..i + 1][..i] == contract.columns[..i];
      var col := contract.columns[i];
      if col.tags.Some? && col.tags.value != [] {
        entries := entries + [KeyValue(TagKey(col.name), EncodeTags(col.tags.value))];
      }
    }
    assert contract.columns[..|contract.columns|] == contract.columns;
  }

  /** What the reader takes: the last entry for the column. */
  function TagsFor(entries: seq<KeyValue>, name: string): seq<string> {
    if entries == [] then []
    else if entries[|entries| - 1].key == TagKey(name) then DecodeTags(entries[|entries| - 1].value)
    else TagsFor(entries[..|entries| - 1], name)
  }

  method ReadTagsFor(entries: seq<KeyValue>, name: string) returns (tags: seq<string>)
    ensures tags == TagsFor(entries, name)
  {
    tags := [];
    for i := 0 to |entries|
      invariant tags == TagsFor(entries[..i], name)
    {
      assert entries[..i + 1][..i] == entries[..i];
      if entries[i].key == TagKey(name) {
        tags := DecodeTags(entries[i].value);
      }
    }
    assert entries[..|entries|] == entries;
  }

  lemma TagKeyInjective(a: string, b: string)
    requires TagKey(a) == TagKey(b)
    ensures a == b
  {
    assert TagKey(a)[14..] == a && TagKey(b)[14..] == b;
  }

  lemma {:induction false} NoEntry(columns: seq<ColumnPolicy>, name: string)
    requires forall i :: 0 <= i < |columns| ==> columns[i].name != name
    ensures TagsFor(TagEntries(columns), name) == []
  {
    if columns != [] {
      var init, col := columns[..|columns| - 1], columns[|columns| - 1];
      NoEntry(init, name);
      if TagKey(col.name) == TagKey(name) {
        TagKeyInjective(col.name, name);
      }
      var entry := KeyValue(TagKey(col.name), EncodeTags(TagsOf(col)));
      assert (TagEntries(init) + [entry])[..|TagEntries(init)|] == TagEntries(init);
    }
  }

  /** Through the metadata, the reader sees the tags of the contract's column, if they are clean. */
  lemma {:induction false} TagsArrive(columns: seq<ColumnPolicy>, i: nat)
    requires i < |columns| && forall j, k :: 0 <= j < k < |columns| ==> columns[j].name != columns[k].name
    requires CleanTags(TagsOf(columns[i]))
    ensures TagsFor(TagEntries(columns), columns[i].name) == TagsOf(columns[i])
  {
    var n := |columns| - 1;
    var init, col := columns[..n], columns[n];
    var entry := KeyValue(TagKey(col.name), EncodeTags(TagsOf(col)));
    assert (TagEntries(init) + [entry])[..|TagEntries(init)|] == TagEntries(init);
    if i == n {
      if TagsOf(col) == [] {
        NoEntry(init, col.name);
      } else {
        TagsComeBackIff(TagsOf(col));
      }
    } else {
      TagsArrive(init, i);
      if TagKey(col.name) == TagKey(columns[i].name) {
        TagKeyInjective(col.name, columns[i].name);
      }
    }
  }

  // ---------------------------------------------------------------- agreement

  /** A name part is a substring: the reader's rule for names is the stricter one. */
  lemma NamePartIsSubstring(lower: string -> string, name: string, column: string)
    requires NamePartOf(lower, name, column)
    ensures Contains(lower(column), lower(name))
  {
    var x, y := lower(column), lower(name);
    var i :| 0 <= i <= |x| + 2 && OccursAt("_" + x + "_", "_" + y + "_", i);
    forall k | 0 <= k < |y| ensures x[i + k] == y[k] {
      assert ("_" + x + "_")[i + (k + 1)] == ("_" + y + "_")[k + 1];
    }
    assert OccursAt(x, y, i);
  }

  /** With a clean required tag its lower-case form is required too. */
  predicate LowerClosed(lower: string -> string, policy: PolicyManifest) {
    forall j :: 0 <= j < |RequiredTags(policy)| && CleanTag(RequiredTags(policy)[j]) ==>
      lower(RequiredTags(policy)[j]) in RequiredTags(policy)
  }

  /** What the reader insists on for clean tags, the writer does. */
  lemma InsistedIsSensitive(lower: string -> string, policy: PolicyManifest, col: ColumnPolicy)
    requires LowerClosed(lower, policy) && CleanTags(TagsOf(col))
    requires MustBeEncrypted(lower, policy, col.name, TagsOf(col))
    ensures Sensitive(lower, policy, col)
  {
    if j :| 0 <= j < |RequiredColumns(policy)| && NamePartOf(lower, RequiredColumns(policy)[j], col.name) {
      NamePartIsSubstring(lower, RequiredColumns(policy)[j], col.name);
    } else {
      var j :| 0 <= j < |RequiredTags(policy)| && RequiredTags(policy)[j] in TagsOf(col);
      var i :| 0 <= i < |TagsOf(col)| && TagsOf(col)[i] == RequiredTags(policy)[j];
      assert CleanTag(TagsOf(col)[i]);
    }
  }

  /** The writer encrypts a column of this name whatever its tags. */
  predicate NameRequired(lower: string -> string, policy: PolicyManifest, name: string) {
    exists j :: 0 <= j < |RequiredColumns(policy)| && Contains(lower(name), lower(RequiredColumns(policy)[j]))
  }

  /** The writer encrypts columns of every name. */
  ghost predicate EveryNameRequired(lower: string -> string, policy: PolicyManifest) {
    forall name :: NameRequired(lower, policy, name)
  }

  /** Which comes down to a required name that is empty in lower case. */
  lemma EveryNameRequiredIff(lower: string -> string, policy: PolicyManifest)
    requires lower("") == ""
    ensures EveryNameRequired(lower, policy) <==>
            exists j :: 0 <= j < |RequiredColumns(policy)| && lower(RequiredColumns(policy)[j]) == ""
  {
    if EveryNameRequired(lower, policy) {
      assert NameRequired(lower, policy, "");
    } else if j :| 0 <= j < |RequiredColumns(policy)| && lower(RequiredColumns(policy)[j]) == "" {
      forall name ensures NameRequired(lower, policy, name) {
        assert OccursAt(lower(name), "", 0);
      }
    }
  }

  /** Wherever the reader insists on encryption of a column with clean tags, the writer encrypts it. */
  ghost predicate RulesAgree(lower: string -> string, policy: PolicyManifest) {
    forall col: ColumnPolicy :: CleanTags(TagsOf(col)) && MustBeEncrypted(lower, policy, col.name, TagsOf(col)) ==>
      Sensitive(lower, policy, col)
  }

  /**
   Whether the writer's and the reader's rules agree on every column with clean tags is a property
   of the policy alone: its required tags must be closed under lower-casing, unless its required
   names cover every name anyway.
   */
  lemma TagRulesAgreeIff(lower: string -> string, policy: PolicyManifest)
    ensures RulesAgree(lower, policy) <==> LowerClosed(lower, policy) || EveryNameRequired(lower, policy)
  {
    if LowerClosed(lower, policy) {
      forall col: ColumnPolicy | CleanTags(TagsOf(col)) && MustBeEncrypted(lower, policy, col.name, TagsOf(col))
        ensures Sensitive(lower, policy, col)
      {
        InsistedIsSensitive(lower, policy, col);
      }
    } else if EveryNameRequired(lower, policy) {
      forall col: ColumnPolicy ensures Sensitive(lower, policy, col) {
        assert NameRequired(lower, policy, col.name);
      }
    } else {
      var j :| 0 <= j < |RequiredTags(policy)| && CleanTag(RequiredTags(policy)[j])
               && lower(RequiredTags(policy)[j]) !in RequiredTags(policy);
      var name :| !NameRequired(lower, policy, name);
      var t := RequiredTags(policy)[j];
      var col := ColumnPolicy(name, "", false, None, None, None, Some([t]));
      assert TagsOf(col) == [t];
      assert MustBeEncrypted(lower, policy, col.name, TagsOf(col));
      assert !Sensitive(lower, policy, col);
    }
  }

  /** For instance a required tag PII is insisted on by the reader and overlooked by the writer. */
  lemma UpperCaseTagDisagrees(lower: string -> string, reader: Reader)
    requires lower("PII") == "pii"
    ensures var policy := EMPTY_POLICY.(encryption := Some(EncryptionBlock(["PII"], [])));
            var col := ColumnPolicy("mail", "string", true, None, None, None, Some(["PII"]));
            SensitiveNames(lower, policy, [col]) == [] &&
            Decide(lower, reader, policy, col.name, false, TagsFor(TagEntries([col]), col.name)) == Err(DataLeakPrevented(col.name))
  {
    var policy := EMPTY_POLICY.(encryption := Some(EncryptionBlock(["PII"], [])));
    var col := ColumnPolicy("mail", "string", true, None, None, None, Some(["PII"]));
    assert RequiredTags(policy) == ["PII"] && TagsOf(col) == ["PII"];
    assert [col][..0] == [];
    assert !Sensitive(lower, policy, col);
    assert "PII" == ['P', 'I', 'I'];
    TagsArrive([col], 0);
    assert RequiredTags(policy)[0] in TagsOf(col);
  }

  /**
   The agreement: whatever this writer stored under a policy, a reader under the same policy never
   reports a data leak for a column with clean tags.
   */
  lemma WrittenColumnsNeverLeak(lower: string -> string, contract: DataContract, policy: PolicyManifest, i: nat, reader: Reader)
    requires DistinctNames(contract) && i < |contract.columns|
    requires LowerClosed(lower, policy) || EveryNameRequired(lower, policy)
    requires CleanTags(TagsOf(contract.columns[i]))
    ensures var name := contract.columns[i].name;
            var encrypted := name in SensitiveNames(lower, policy, contract.columns);
            var tags := TagsFor(TagEntries(contract.columns), name);
            Decide(lower, reader, policy, name, encrypted, tags) != Err(DataLeakPrevented(name))
  {
    var col := contract.columns[i];
    TagsArrive(contract.columns, i);
    SensitiveNamesExactly(lower, policy, contract.columns, col.name);
    TagRulesAgreeIff(lower, policy);
  }
}
