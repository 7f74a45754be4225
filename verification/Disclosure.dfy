/**
 What a reader gets to see of a column, from the file to the delivered cells: which columns are shown
 at all, which cells each mask leaves, and what that makes of the columns that the writer encrypted.
 */
module Disclosure {
  import opened Sequences
  import opened Text
  import opened Comparisons
  import opened RowFilters
  import opened FilterSyntax
  import opened Tables
  import opened Pruning
  import opened FileRows
  import opened Contract
  import opened Manifest
  import opened PolicyLayers
  import opened Governance
  import opened WriteReadAgreement
  import opened ReadPath
  import opened FileScan
  import opened EagerRead
  import opened Prefetch
  import opened WholeScan
  import opened RowSecurity

  // ---------------------------------------------------------------- what counts

  /** Entry i of the metadata is the last one with tags for the column. */
  predicate TagEntryAt(entries: seq<KeyValue>, name: string, i: int) {
    && 0 <= i < |entries| && entries[i].key == "holonomy.tags." + name
    && forall j :: i < j < |entries| ==> entries[j].key != "holonomy.tags." + name
  }

  /** The tag stands between the commas of the last entry for the column. */
  ghost predicate Tagged(entries: seq<KeyValue>, name: string, tag: string) {
    exists i :: TagEntryAt(entries, name, i) && tag in DecodeTags(entries[i].value)
  }

  lemma {:induction false} TaggedIffRead(entries: seq<KeyValue>, name: string, tag: string)
    ensures Tagged(entries, name, tag) <==> tag in TagsFor(entries, name)
  {
    if entries != [] {
      var n := |entries| - 1;
      if entries[n].key == "holonomy.tags." + name {
        assert forall i :: TagEntryAt(entries, name, i) <==> i == n;
      } else {
        TaggedIffRead(entries[..n], name, tag);
        assert forall i :: TagEntryAt(entries, name, i) <==> TagEntryAt(entries[..n], name, i);
      }
    }
  }

  /** One name is a part of the other, in lower case and between underscores. */
  predicate PartOf(lower: string -> string, part: string, name: string) {
    Contains("_" + lower(name) + "_", "_" + lower(part) + "_")
  }

  /** The policy wants the column encrypted, for a part of its name or one of its tags. */
  ghost predicate Obliged(c: Context, f: StoredFile, name: string) {
    || (exists part :: part in RequiredColumns(c.policy) && PartOf(c.lower, part, name))
    || (exists tag :: tag in RequiredTags(c.policy) && Tagged(f.metadata, name, tag))
  }

  /** The role gives the column the mask, for a part of its name or for one of its tags. */
  ghost predicate Gives(c: Context, f: StoredFile, role: string, name: string, mask: string)
    requires role in c.policy.principals
  {
    var own := c.policy.principals[role];
    || (exists key :: key in own.columnMasks && own.columnMasks[key] == mask && PartOf(c.lower, key, name))
    || (exists tag :: tag in own.tagMasks && own.tagMasks[tag] == mask && Tagged(f.metadata, name, tag))
  }

  ghost predicate Unlisted(c: Context, f: StoredFile, role: string, name: string)
    requires role in c.policy.principals
  {
    Gives(c, f, role, name, "UNLISTED") || forall mask :: !Gives(c, f, role, name, mask)
  }

  /** The reader acts in this role, and the policy knows it. */
  ghost predicate ActsAs(c: Context, role: string) {
    Activates(c.reader, c.policy, role) && role in c.policy.principals
  }

  // ---------------------------------------------------------------- the two specifications

  /**
   When a column may be shown: in plaintext if the policy does not want it encrypted; encrypted, to
   an active role of the policy, unless it is unlisted for the role and the mode is strict.
   */
  ghost predicate MayBeShown(c: Context, f: StoredFile, name: string) {
    if name !in f.encrypted then !Obliged(c, f, name)
    else
      exists role :: ActsAs(c, role) &&
        (|| Gives(c, f, role, name, "PLAINTEXT") || Gives(c, f, role, name, "HASH") || Gives(c, f, role, name, "REDACT")
         || !Unlisted(c, f, role, name) || c.reader.mode == GracefulMasking)
  }

  /** Masked text is replaced and stays null where it was, values of other types become null. */
  predicate ReplacedBy(t: ColumnType, cell: Cell, out: Cell, replacement: string -> string) {
    out == if (t == TUtf8 || t == TLargeUtf8) && cell.Chars? then Chars(replacement(cell.s)) else Null
  }

  /** How a cell of an encrypted column is shown to a role; masks with other names mask nothing. */
  ghost predicate ShownTo(c: Context, f: StoredFile, role: string, name: string, t: ColumnType, cell: Cell, out: Cell)
    requires role in c.policy.principals
  {
    if Gives(c, f, role, name, "PLAINTEXT") then out == cell
    else if Gives(c, f, role, name, "HASH") then ReplacedBy(t, cell, out, s => Hex(c.digest(s)))
    else if Gives(c, f, role, name, "REDACT") || Unlisted(c, f, role, name) then ReplacedBy(t, cell, out, s => "***")
    else out == cell
  }

  /** How the cells of a column are shown: as they are in plaintext, else as the active role's masks have it. */
  ghost predicate Shows(c: Context, f: StoredFile, name: string, t: ColumnType, cells: seq<Cell>, out: seq<Cell>) {
    && |out| == |cells|
    && (name !in f.encrypted ==> out == cells)
    && (name in f.encrypted ==>
          forall role, i :: ActsAs(c, role) && 0 <= i < |cells| ==> ShownTo(c, f, role, name, t, cells[i], out[i]))
  }

  // ---------------------------------------------------------------- the decision meets them

  lemma ObligedIff(c: Context, f: StoredFile, name: string)
    ensures MustBeEncrypted(c.lower, c.policy, name, TagsFor(f.metadata, name)) <==> Obliged(c, f, name)
  {
    var tags := TagsFor(f.metadata, name);
    forall tag ensures Tagged(f.metadata, name, tag) <==> tag in tags {
      TaggedIffRead(f.metadata, name, tag);
    }
    if MustBeEncrypted(c.lower, c.policy, name, tags) {
      if j :| 0 <= j < |RequiredColumns(c.policy)| && NamePartOf(c.lower, RequiredColumns(c.policy)[j], name) {
        assert PartOf(c.lower, RequiredColumns(c.policy)[j], name);
      } else {
        var j :| 0 <= j < |RequiredTags(c.policy)| && RequiredTags(c.policy)[j] in tags;
        assert RequiredTags(c.policy)[j] in RequiredTags(c.policy);
      }
    }
  }

  lemma GivesIff(c: Context, f: StoredFile, role: string, name: string, mask: string)
    requires role in c.policy.principals
    ensures Gives(c, f, role, name, mask) <==>
            mask in MatchedMasks(c.lower, c.policy.principals[role], name, TagsFor(f.metadata, name))
  {
    var own, tags := c.policy.principals[role], TagsFor(f.metadata, name);
    forall tag ensures Tagged(f.metadata, name, tag) <==> tag in tags {
      TaggedIffRead(f.metadata, name, tag);
    }
    forall key ensures PartOf(c.lower, key, name) <==> NamePartOf(c.lower, key, name) {
    }
  }

  /** The masks of a column are those that the role gives it, or UNLISTED alone. */
  lemma MasksAre(c: Context, f: StoredFile, role: string, name: string, mask: string)
    requires role in c.policy.principals
    ensures mask in MasksOf(c.lower, c.policy.principals[role], name, TagsFor(f.metadata, name)) <==>
            if mask == "UNLISTED" then Unlisted(c, f, role, name) else Gives(c, f, role, name, mask)
  {
    var matched := MatchedMasks(c.lower, c.policy.principals[role], name, TagsFor(f.metadata, name));
    forall m ensures Gives(c, f, role, name, m) <==> m in matched {
      GivesIff(c, f, role, name, m);
    }
  }

  lemma TreatEncrypted(c: Context, f: StoredFile, name: string, role: string)
    requires name in f.encrypted && ActsAs(c, role)
    ensures Treat(c, f, name) ==
            if Gives(c, f, role, name, "PLAINTEXT") then Ok(InClear)
            else if Gives(c, f, role, name, "HASH") then Ok(Hashed)
            else if Gives(c, f, role, name, "REDACT") then Ok(Redacted)
            else if Unlisted(c, f, role, name) then
              (if c.reader.mode == StrictError then Err(AccessDenied) else Ok(Redacted))
            else Ok(InClear)
  {
    ActiveRoleExactly(c.reader, c.policy, role);
    MasksAre(c, f, role, name, "PLAINTEXT");
    MasksAre(c, f, role, name, "HASH");
    MasksAre(c, f, role, name, "REDACT");
    MasksAre(c, f, role, name, "UNLISTED");
  }

  lemma TreatWithoutRole(c: Context, f: StoredFile, name: string)
    requires name in f.encrypted && forall role :: !ActsAs(c, role)
    ensures Treat(c, f, name).Err?
  {
    var active := ResolveActiveRole(c.reader, c.policy);
    if active.Ok? {
      ActiveRoleExactly(c.reader, c.policy, active.value);
      assert !ActsAs(c, active.value);
    }
  }

  lemma OneActiveRole(c: Context, a: string, b: string)
    requires ActsAs(c, a) && ActsAs(c, b)
    ensures a == b
  {
    ActiveRoleExactly(c.reader, c.policy, a);
    ActiveRoleExactly(c.reader, c.policy, b);
  }

  /** The decision lets a column through exactly when it may be shown; plaintext is refused as a leak. */
  lemma TreatSucceedsIff(c: Context, f: StoredFile, name: string)
    ensures Treat(c, f, name).Ok? <==> MayBeShown(c, f, name)
    ensures Treat(c, f, name).Err? ==>
              Treat(c, f, name).error == if name in f.encrypted then AccessDenied else DataLeakPrevented(name)
  {
    if name !in f.encrypted {
      ObligedIff(c, f, name);
    } else if role :| ActsAs(c, role) {
      TreatEncrypted(c, f, name, role);
      forall other | ActsAs(c, other) ensures other == role {
        OneActiveRole(c, other, role);
      }
    } else {
      TreatWithoutRole(c, f, name);
    }
  }

  /** And the cells that masking leaves are those that are shown. */
  lemma TreatShows(c: Context, f: StoredFile, name: string, t: ColumnType, cells: seq<Cell>)
    requires Treat(c, f, name).Ok?
    ensures Shows(c, f, name, t, cells, MaskCells(c.digest, t, HowToShow(c, f, name), cells))
  {
    var out := MaskCells(c.digest, t, HowToShow(c, f, name), cells);
    if name in f.encrypted {
      forall role, i | ActsAs(c, role) && 0 <= i < |cells| ensures ShownTo(c, f, role, name, t, cells[i], out[i]) {
        TreatEncrypted(c, f, name, role);
      }
    }
  }

  // ---------------------------------------------------------------- the pipelines meet them

  /**
   A scanned batch is delivered exactly when its filters apply, something requested is visible, every
   requested column that is present may be shown, and the columns fit the schema.
   */
  lemma BatchIsPermitted(c: Context, plan: Plan, f: StoredFile, b: Batch)
    requires WellFormed(b)
    ensures BatchSucceeds(c, plan, f, b) <==>
            && AllApply(c.dates, plan.policyFilters, b)
            && (plan.projected != plan.requested ==> exists k :: 0 <= k < |plan.requested| && Lookup(b, plan.requested[k]).Some?)
            && (forall k :: 0 <= k < |plan.requested| && Lookup(b, plan.requested[k]).Some? ==> MayBeShown(c, f, plan.requested[k]))
            && Accepts(plan.schema, OutputColumns(c, plan, f, FilterPassing(c.dates, plan.policyFilters, b)))
  {
    forall k | 0 <= k < |plan.requested| ensures Treat(c, f, plan.requested[k]).Ok? <==> MayBeShown(c, f, plan.requested[k]) {
      TreatSucceedsIff(c, f, plan.requested[k]);
    }
  }

  /** No column is delivered in plaintext that the policy wants encrypted, by its name or by its tags in the file. */
  lemma PlaintextIsPermitted(c: Context, plan: Plan, f: StoredFile, b: Batch, k: nat)
    requires WellFormed(b) && BatchSucceeds(c, plan, f, b)
    requires k < |plan.requested| && Lookup(b, plan.requested[k]).Some? && plan.requested[k] !in f.encrypted
    ensures forall i, tag :: TagEntryAt(f.metadata, plan.requested[k], i) && tag in RequiredTags(c.policy) ==>
              tag !in DecodeTags(f.metadata[i].value)
    ensures forall part :: part in RequiredColumns(c.policy) ==> !PartOf(c.lower, part, plan.requested[k])
  {
    TreatSucceedsIff(c, f, plan.requested[k]);
    forall i, tag | TagEntryAt(f.metadata, plan.requested[k], i) && tag in RequiredTags(c.policy)
      ensures tag !in DecodeTags(f.metadata[i].value)
    {
      assert !Tagged(f.metadata, plan.requested[k], tag);
    }
  }

  /** The cells of a delivered column, row by row: those of the rows that are left, as they are to be shown. */
  lemma DeliveredCells(c: Context, plan: Plan, f: StoredFile, b: Batch, k: nat)
    requires GoodPlan(plan) && WellFormed(b) && BatchSucceeds(c, plan, f, b)
    requires k < |plan.requested| && Lookup(b, plan.requested[k]).Some?
    ensures var left := FilterPassing(c.dates, plan.policyFilters, b);
            && Lookup(left, plan.requested[k]).Some?
            && var column := Lookup(left, plan.requested[k]).value;
               Shows(c, f, plan.requested[k], column.field.ctype, column.cells, Rendered(c, plan, f, left).columns[k].cells)
  {
    var name, left := plan.requested[k], FilterPassing(c.dates, plan.policyFilters, b);
    LookupAfterFilter(b, Passing(c.dates, plan.policyFilters, b), name);
    var column := Lookup(left, name).value;
    TreatShows(c, f, name, column.field.ctype, column.cells);
    assert OutputColumns(c, plan, f, left)[k] == OutputColumn(c, plan, f, left, name);
  }

  /** A column of a file is read exactly when its filters apply, a row is left and it may be shown. */
  lemma ReadIsPermitted(c: Context, f: StoredFile, name: string, filters: seq<Predicate>, cut: seq<Batch>)
    requires Regular(f.table)
    ensures ReadSucceeds(c, f, name, filters, cut) <==>
            && AllApplyToCut(c, filters, cut)
            && Count(ReadSelection(c, f, name, filters)) > 0
            && MayBeShown(c, f, name)
  {
    TreatSucceedsIff(c, f, name);
  }

  /** What `read` returns are the selected cells, as they are to be shown. */
  lemma ReadCells(c: Context, f: StoredFile, name: string, filters: seq<Predicate>, cut: seq<Batch>)
    requires Regular(f.table) && FieldIndex(f.table.fields, name).Some? && ReadSucceeds(c, f, name, filters, cut)
    ensures Shows(c, f, name, f.table.fields[FieldIndex(f.table.fields, name).value].ctype,
                  SelectedCells(c, f, name, filters), ReadResult(c, f, name, filters))
  {
    TreatShows(c, f, name, f.table.fields[FieldIndex(f.table.fields, name).value].ctype, SelectedCells(c, f, name, filters));
  }

  /** If the masks of all matching names and tags agree, every shown cell is that mask's cell. */
  lemma OnlyMaskDecides(c: Context, f: StoredFile, name: string, t: ColumnType, cells: seq<Cell>, out: seq<Cell>,
                        role: string, mask: string)
    requires name in f.encrypted && ActsAs(c, role) && Shows(c, f, name, t, cells, out)
    requires forall m :: Gives(c, f, role, name, m) <==> m == mask
    ensures mask == "PLAINTEXT" ==> out == cells
    ensures mask == "HASH" ==> forall i :: 0 <= i < |cells| ==> ReplacedBy(t, cells[i], out[i], s => Hex(c.digest(s)))
    ensures mask == "REDACT" ==> forall i :: 0 <= i < |cells| ==> ReplacedBy(t, cells[i], out[i], s => "***")
  {
    forall i | 0 <= i < |cells| ensures ShownTo(c, f, role, name, t, cells[i], out[i]) {
    }
  }

  // ---------------------------------------------------------------- whole scans

  /** The cell that a batch shows in row k of the requested column is the cell in row i of the file, as it may be shown. */
  ghost predicate GovernedCell(c: Context, plan: Plan, f: StoredFile, out: Batch, k: nat, i: nat, r: nat)
    requires Regular(f.table) && Square(out) && k < out.rows && i < AllRows(f.table).rows
    requires |out.columns| == |plan.requested| && r < |plan.requested|
  {
    match FieldIndex(f.table.fields, plan.requested[r])
    case None => out.columns[r].cells[k] == Null
    case Some(n) =>
      && MayBeShown(c, f, plan.requested[r])
      && Shows(c, f, plan.requested[r], f.table.fields[n].ctype, [AllRows(f.table).columns[n].cells[i]], [out.columns[r].cells[k]])
  }

  lemma ShownRowIsGoverned(c: Context, plan: Plan, f: StoredFile, out: Batch, k: nat, i: nat, r: nat)
    requires GoodPlan(plan) && Regular(f.table) && ShowsRow(c, plan, f, out, k, i) && r < |plan.requested|
    requires FieldIndex(f.table.fields, plan.requested[r]).Some? ==> MayBeShown(c, f, plan.requested[r])
    ensures |out.columns| == |plan.requested| && GovernedCell(c, plan, f, out, k, i, r)
  {
    var name, row := plan.requested[r], OneRow(AllRows(f.table), i);
    OneRowShaped(f.table.fields, AllRows(f.table), i);
    ColumnOfField(f.table.fields, row, name);
    assert OneRow(out, k).columns[r].cells == OutputColumn(c, plan, f, row, name).cells;
    assert OneRow(out, k).columns[r].cells == [out.columns[r].cells[k]];
    var n := FieldIndex(f.table.fields, name);
    if n.Some? {
      TreatSucceedsIff(c, f, name);
      TreatShows(c, f, name, f.table.fields[n.value].ctype, [AllRows(f.table).columns[n.value].cells[i]]);
    } else {
      assert OutputColumn(c, plan, f, row, name).cells[0] == Null;
    }
  }

  lemma DeliveredColumnsMayBeShown(c: Context, plan: Plan, f: StoredFile, cut: seq<Batch>, j: nat, out: Batch, r: nat)
    requires GoodPlan(plan) && Regular(f.table) && ScanCut(plan, f, cut) && j < |cut|
    requires DeliveredFor(c, plan, f, cut[j], out)
    requires r < |plan.requested| && FieldIndex(f.table.fields, plan.requested[r]).Some?
    ensures MayBeShown(c, f, plan.requested[r])
  {
    assert Shaped(ProjectFields(f.table.fields, plan.projected), cut[j]);
    ColumnIsRead(f.table.fields, plan.projected, cut[j], plan.requested[r]);
    TreatSucceedsIff(c, f, plan.requested[r]);
  }

  /**
   The read side in one statement. In every run of a scan, also of one that fails or is abandoned,
   each row that the consumer got comes from a row of a file that passes the policy's filters, and each
   of its cells is null if the file has no such column, or else the row's cell as it may be shown.
   */
  lemma EveryDeliveredCellIsGoverned(c: Context, plan: Plan, files: seq<StoredFile>, cuts: seq<seq<Batch>>, targets: seq<Target>,
                                     events: seq<Event>, m: nat, k: nat, r: nat) returns (n: nat, i: nat)
    requires GoodPlan(plan) && TargetsOf(c, plan, files, cuts, targets) && Prefetch.Run(Initial(targets), events)
    requires var delivered := After(Initial(targets), events).consumer.delivered;
             m < |delivered| && delivered[m].Ok? && k < delivered[m].value.rows
    requires r < |plan.requested|
    ensures n < |files| && Regular(files[n].table)
    ensures var out := After(Initial(targets), events).consumer.delivered[m].value;
            && ComesFrom(c, plan, files, out, k, n, i)
            && |out.columns| == |plan.requested|
            && GovernedCell(c, plan, files[n], out, k, i, r)
  {
    PipelineRefinesSequentialScan(targets, events);
    var out := After(Initial(targets), events).consumer.delivered[m];
    assert Sequential(targets)[m] == out;
    var j: nat;
    n, j := ItemOfTarget(targets, m);
    assert Regular(files[n].table);
    assert DeliveredFor(c, plan, files[n], cuts[n][j], out.value);
    i := DeliveredRowPasses(c, plan, files[n], cuts[n], j, out.value, k);
    if FieldIndex(files[n].table.fields, plan.requested[r]).Some? {
      DeliveredColumnsMayBeShown(c, plan, files[n], cuts[n], j, out.value, r);
    }
    ShownRowIsGoverned(c, plan, files[n], out.value, k, i, r);
  }

  // ---------------------------------------------------------------- files written under the policy

  /** The writer stored the file for a contract, with the tags and the encryption that the policy asks for. */
  predicate WrittenUnder(lower: string -> string, contract: DataContract, policy: PolicyManifest, f: StoredFile) {
    && DistinctNames(contract)
    && f.metadata == TagEntries(contract.columns)
    && f.encrypted == set name | name in SensitiveNames(lower, policy, contract.columns)
  }

  /** The tags of a written column are those of the contract. */
  lemma WrittenTags(contract: DataContract, f: StoredFile, i: nat, tag: string)
    requires DistinctNames(contract) && i < |contract.columns| && f.metadata == TagEntries(contract.columns)
    requires CleanTags(TagsOf(contract.columns[i]))
    ensures Tagged(f.metadata, contract.columns[i].name, tag) <==> tag in TagsOf(contract.columns[i])
  {
    TagsArrive(contract.columns, i);
    TaggedIffRead(f.metadata, contract.columns[i].name, tag);
  }

  /** So the masks of a written column are given by its name and by the contract's own tags. */
  lemma MasksOfContract(c: Context, contract: DataContract, f: StoredFile, i: nat, role: string, mask: string)
    requires WrittenUnder(c.lower, contract, c.policy, f) && i < |contract.columns|
    requires CleanTags(TagsOf(contract.columns[i])) && role in c.policy.principals
    ensures var own, name := c.policy.principals[role], contract.columns[i].name;
            Gives(c, f, role, name, mask) <==>
              || (exists key :: key in own.columnMasks && own.columnMasks[key] == mask && PartOf(c.lower, key, name))
              || (exists tag :: tag in own.tagMasks && own.tagMasks[tag] == mask && tag in TagsOf(contract.columns[i]))
  {
    forall tag ensures Tagged(f.metadata, contract.columns[i].name, tag) <==> tag in TagsOf(contract.columns[i]) {
      WrittenTags(contract, f, i, tag);
    }
  }

  /**
   No reader under the policy of the writer is ever refused a column that the writer left in
   plaintext, if the writer's and the reader's rules agree and the column's tags are clean.
   */
  lemma WrittenPlaintextIsShown(c: Context, contract: DataContract, f: StoredFile, i: nat)
    requires WrittenUnder(c.lower, contract, c.policy, f) && i < |contract.columns|
    requires LowerClosed(c.lower, c.policy) || EveryNameRequired(c.lower, c.policy)
    requires CleanTags(TagsOf(contract.columns[i])) && contract.columns[i].name !in f.encrypted
    ensures MayBeShown(c, f, contract.columns[i].name)
  {
    WrittenColumnsNeverLeak(c.lower, contract, c.policy, i, c.reader);
    TreatSucceedsIff(c, f, contract.columns[i].name);
  }

  /** The column is one of the contract, with clean tags. */
  predicate CleanlyNamed(contract: DataContract, name: string) {
    exists i :: 0 <= i < |contract.columns| && contract.columns[i].name == name && CleanTags(TagsOf(contract.columns[i]))
  }

  /** So a scan of a written file never fails because of a leak. */
  lemma WrittenFilesNeverLeak(c: Context, contract: DataContract, plan: Plan, f: StoredFile, b: Batch, refusal: GovernanceError)
    requires WrittenUnder(c.lower, contract, c.policy, f)
    requires LowerClosed(c.lower, c.policy) || EveryNameRequired(c.lower, c.policy)
    requires WellFormed(b) && FailsWith(c, plan, f, b, Refused(refusal))
    requires forall k :: 0 <= k < |plan.requested| && Lookup(b, plan.requested[k]).Some? ==> CleanlyNamed(contract, plan.requested[k])
    ensures refusal == AccessDenied
  {
    var k :| 0 <= k < |plan.requested| && Lookup(b, plan.requested[k]).Some? && Treat(c, f, plan.requested[k]) == Err(refusal);
    var name := plan.requested[k];
    assert CleanlyNamed(contract, name);
    var i :| 0 <= i < |contract.columns| && contract.columns[i].name == name && CleanTags(TagsOf(contract.columns[i]));
    TreatSucceedsIff(c, f, name);
    if name !in f.encrypted {
      WrittenPlaintextIsShown(c, contract, f, i);
      assert false;
    }
  }

  /** The policy asks for encryption of the contract's column: by a tag in lower case, or a name within its own. */
  ghost predicate AskedFor(lower: string -> string, policy: PolicyManifest, col: ColumnPolicy) {
    || (exists tag :: tag in TagsOf(col) && lower(tag) in RequiredTags(policy))
    || (exists part :: part in RequiredColumns(policy) && Contains(lower(col.name), lower(part)))
  }

  lemma AskedForIsEncrypted(c: Context, contract: DataContract, f: StoredFile, i: nat)
    requires WrittenUnder(c.lower, contract, c.policy, f) && i < |contract.columns|
    requires AskedFor(c.lower, c.policy, contract.columns[i])
    ensures contract.columns[i].name in f.encrypted
  {
    SensitiveNamesExactly(c.lower, c.policy, contract.columns, contract.columns[i].name);
  }

  /** The role's masks for the contract's column: some documented one, or none at all, and not PLAINTEXT. */
  ghost predicate Withheld(c: Context, f: StoredFile, role: string, name: string)
    requires role in c.policy.principals
  {
    && !Gives(c, f, role, name, "PLAINTEXT")
    && (Gives(c, f, role, name, "HASH") || Gives(c, f, role, name, "REDACT") || Unlisted(c, f, role, name))
  }

  /**
   From the contract to the reader: of a column that the policy asks the writer to encrypt, a role
   without PLAINTEXT for it is delivered nothing but nulls, stars and digests.
   */
  lemma SensitiveTextIsHidden(c: Context, contract: DataContract, plan: Plan, f: StoredFile, b: Batch, i: nat, k: nat, role: string)
    requires WrittenUnder(c.lower, contract, c.policy, f) && i < |contract.columns|
    requires AskedFor(c.lower, c.policy, contract.columns[i])
    requires GoodPlan(plan) && WellFormed(b) && BatchSucceeds(c, plan, f, b)
    requires k < |plan.requested| && plan.requested[k] == contract.columns[i].name && Lookup(b, plan.requested[k]).Some?
    requires ActsAs(c, role) && Withheld(c, f, role, plan.requested[k])
    ensures var left := FilterPassing(c.dates, plan.policyFilters, b);
            && Lookup(left, plan.requested[k]).Some?
            && var cells, out := Lookup(left, plan.requested[k]).value.cells, Rendered(c, plan, f, left).columns[k].cells;
               |out| == |cells| && forall r :: 0 <= r < |out| ==>
                 || out[r] == Null
                 || out[r] == Chars("***")
                 || (cells[r].Chars? && out[r] == Chars(Hex(c.digest(cells[r].s))))
  {
    AskedForIsEncrypted(c, contract, f, i);
    DeliveredCells(c, plan, f, b, k);
    var left := FilterPassing(c.dates, plan.policyFilters, b);
    var column, out := Lookup(left, plan.requested[k]).value, Rendered(c, plan, f, left).columns[k].cells;
    forall r | 0 <= r < |out| ensures ShownTo(c, f, role, plan.requested[k], column.field.ctype, column.cells[r], out[r]) {
    }
  }

  /** For instance, a plaintext column whose metadata says PII is not delivered under a policy that requires PII. */
  lemma TaggedPlaintextIsWithheld(c: Context, plan: Plan, f: StoredFile, b: Batch, k: nat)
    requires f.metadata == [KeyValue("holonomy.tags.mail", "PII")] && f.encrypted == {}
    requires c.policy.encryption == Some(EncryptionBlock(["PII"], []))
    requires WellFormed(b) && k < |plan.requested| && plan.requested[k] == "mail" && Lookup(b, "mail").Some?
    ensures !BatchSucceeds(c, plan, f, b)
  {
    assert "holonomy.tags." + "mail" == "holonomy.tags.mail";
    assert TagEntryAt(f.metadata, "mail", 0);
    SplitWithoutComma("PII");
    TrimIsIdentityIff("PII");
    assert DecodeTags("PII")[0] == "PII";
    assert RequiredTags(c.policy)[0] == "PII";
    assert Tagged(f.metadata, "mail", "PII");
    if BatchSucceeds(c, plan, f, b) {
      PlaintextIsPermitted(c, plan, f, b, k);
    }
  }
}
