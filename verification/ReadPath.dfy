/**
 The governed read pipeline on one batch: policy filters are collected, the projection is widened by
 the columns they need, a batch is filtered, hidden columns are dropped, and every requested column
 is masked or padded with nulls.
 */
module ReadPath {
  import opened Sequences
  import opened FilterSyntax
  import opened Comparisons
  import opened RowFilters
  import opened Tables
  import opened Pruning
  import opened Manifest
  import opened Governance
  import opened WriteReadAgreement

  /** What the pipeline takes from its surroundings. */
  datatype Context = Context(
    lower: string -> string,
    dates: Calendar,
    digest: string -> Bytes32,
    reader: Reader,
    policy: PolicyManifest)

  /** A file with the columns that are encrypted in it and its key-value metadata. */
  datatype StoredFile = StoredFile(table: File, encrypted: set<string>, metadata: seq<KeyValue>)

  // ---------------------------------------------------------------- policy filters

  datatype Collected = Collected(preds: seq<Predicate>) | MissingGlobal(column: string) | FilterPanics

  function RolePolicy(reader: Reader, policy: PolicyManifest): Option<PrincipalPolicy> {
    match ResolveActiveRole(reader, policy)
    case Ok(role) => if role in policy.principals then Some(policy.principals[role]) else None
    case Err(_) => None
  }

  function Parses(filters: seq<string>): seq<Parse> {
    Map(filters, (s: string) => ParseFilter(s))
  }

  /** The filters that parse; the others are skipped. */
  function ParsedOnes(parses: seq<Parse>): seq<Predicate> {
    if parses == [] then []
    else
      var before, last := ParsedOnes(parses[..|parses| - 1]), parses[|parses| - 1];
      if last.Parsed? then before + [last.pred] else before
  }

  function Present(preds: seq<Predicate>, columns: seq<string>): seq<Predicate> {
    if preds == [] then []
    else
      var before, last := Present(preds[..|preds| - 1], columns), preds[|preds| - 1];
      if last.column in columns then before + [last] else before
  }

  predicate AllIn(preds: seq<Predicate>, columns: seq<string>) {
    forall j :: 0 <= j < |preds| ==> preds[j].column in columns
  }

  lemma ParsedSnoc(parses: seq<Parse>, n: nat)
    requires n < |parses|
    ensures ParsedOnes(parses[..n + 1]) ==
            if parses[n].Parsed? then ParsedOnes(parses[..n]) + [parses[n].pred] else ParsedOnes(parses[..n])
  {
    assert parses[..n + 1][..n] == parses[..n];
  }

  lemma PresentSnoc(preds: seq<Predicate>, p: Predicate, columns: seq<string>)
    ensures Present(preds + [p], columns) == if p.column in columns then Present(preds, columns) + [p] else Present(preds, columns)
  {
    assert (preds + [p])[..|preds|] == preds;
  }

  lemma {:induction false} ParsedMembers(parses: seq<Parse>, p: Predicate)
    ensures p in ParsedOnes(parses) <==> Parsed(p) in parses
  {
    if parses != [] {
      var n := |parses| - 1;
      ParsedMembers(parses[..n], p);
      assert parses == parses[..n] + [parses[n]];
    }
  }

  lemma {:induction false} PresentMembers(preds: seq<Predicate>, columns: seq<string>, p: Predicate)
    ensures p in Present(preds, columns) <==> p in preds && p.column in columns
  {
    if preds != [] {
      var n := |preds| - 1;
      PresentMembers(preds[..n], columns, p);
      assert preds == preds[..n] + [preds[n]];
    }
  }

  /** The filters that a role's reader is subject to in a file with these columns. */
  function PolicyFilters(role: PrincipalPolicy, columns: seq<string>): seq<Predicate> {
    ParsedOnes(Parses(role.globalRowFilters)) + Present(ParsedOnes(Parses(role.selectiveRowFilters)), columns)
  }

  /** The first loop: a global filter on a missing column refuses the request. */
  method CollectGlobal(parses: seq<Parse>, columns: seq<string>) returns (r: Collected)
    ensures r.Collected? <==> Panics !in parses && AllIn(ParsedOnes(parses), columns)
    ensures r.Collected? ==> r.preds == ParsedOnes(parses)
  {
    var preds := [];
    for n := 0 to |parses|
      invariant preds == ParsedOnes(parses[..n]) && Panics !in parses[..n] && AllIn(preds, columns)
    {
      ParsedSnoc(parses, n);
      assert parses[..n + 1] == parses[..n] + [parses[n]];
      match parses[n]
      case Skipped =>
      case Panics => return FilterPanics;
      case Parsed(p) =>
        if p.column !in columns {
          ParsedMembers(parses, p);
          assert p in ParsedOnes(parses);
          return MissingGlobal(p.column);
        }
        preds := preds + [p];
    }
    assert parses[..|parses|] == parses;
    return Collected(preds);
  }

  /** The second loop: a selective filter on a missing column is dropped. */
  method CollectSelective(parses: seq<Parse>, columns: seq<string>) returns (r: Collected)
    ensures r.Collected? <==> Panics !in parses
    ensures r.Collected? ==> r.preds == Present(ParsedOnes(parses), columns)
  {
    var preds := [];
    for n := 0 to |parses|
      invariant preds == Present(ParsedOnes(parses[..n]), columns) && Panics !in parses[..n]
    {
      ParsedSnoc(parses, n);
      assert parses[..n + 1] == parses[..n] + [parses[n]];
      match parses[n]
      case Skipped =>
      case Panics => return FilterPanics;
      case Parsed(p) =>
        PresentSnoc(ParsedOnes(parses[..n]), p, columns);
        if p.column in columns {
          preds := preds + [p];
        }
    }
    assert parses[..|parses|] == parses;
    return Collected(preds);
  }

  /** Without an active role of the policy there are no filters. */
  method CollectPolicyFilters(reader: Reader, policy: PolicyManifest, columns: seq<string>) returns (r: Collected)
    ensures var role := RolePolicy(reader, policy);
            && (role.None? ==> r == Collected([]))
            && (role.Some? ==>
                  (r.Collected? <==> (Panics !in Parses(role.value.globalRowFilters) && Panics !in Parses(role.value.selectiveRowFilters)
                                      && AllIn(ParsedOnes(Parses(role.value.globalRowFilters)), columns)))
                  && (r.Collected? ==> r.preds == PolicyFilters(role.value, columns)))
    ensures r.Collected? ==> AllIn(r.preds, columns)
  {
    var active := RolePolicy(reader, policy);
    if active.None? {
      return Collected([]);
    }
    var global := CollectGlobal(Parses(active.value.globalRowFilters), columns);
    if !global.Collected? {
      return global;
    }
    var selective := CollectSelective(Parses(active.value.selectiveRowFilters), columns);
    if !selective.Collected? {
      return selective;
    }
    forall j | 0 <= j < |selective.preds| ensures selective.preds[j].column in columns {
      PresentMembers(ParsedOnes(Parses(active.value.selectiveRowFilters)), columns, selective.preds[j]);
    }
    return Collected(global.preds + selective.preds);
  }

  /** Enforced are exactly the global filters that parse and the selective ones on existing columns. */
  lemma EnforcedFilters(role: PrincipalPolicy, columns: seq<string>, p: Predicate)
    ensures p in PolicyFilters(role, columns) <==>
              || (exists s :: s in role.globalRowFilters && ParseFilter(s) == Parsed(p))
              || (p.column in columns && exists s :: s in role.selectiveRowFilters && ParseFilter(s) == Parsed(p))
  {
    EnforcedParses(role, columns, p);
    ParsesMembers(role.globalRowFilters, p);
    ParsesMembers(role.selectiveRowFilters, p);
  }

  /** A selective filter on a column of a later file is enforced because the first file has the column too. */
  predicate SelectiveCovered(role: PrincipalPolicy, first: seq<string>, later: seq<string>) {
    forall s :: s in role.selectiveRowFilters && ParseFilter(s).Parsed? && ParseFilter(s).pred.column in later ==>
      || ParseFilter(s).pred.column in first
      || Parsed(ParseFilter(s).pred) in Parses(role.globalRowFilters)
  }

  /**
   The filters are chosen on the columns of the first file. A later file gets all of its own
   filters exactly when the first file has the column of each of its selective filters, or the
   filter is also a global one.
   */
  lemma LaterFiltersAreEnforcedIff(role: PrincipalPolicy, first: seq<string>, later: seq<string>)
    ensures (forall p :: p in PolicyFilters(role, later) ==> p in PolicyFilters(role, first)) <==>
            SelectiveCovered(role, first, later)
  {
    forall p ensures p in PolicyFilters(role, later) && p !in PolicyFilters(role, first) <==>
        && Parsed(p) in Parses(role.selectiveRowFilters) && p.column in later
        && p.column !in first && Parsed(p) !in Parses(role.globalRowFilters)
    {
      EnforcedParses(role, first, p);
      EnforcedParses(role, later, p);
    }
    forall s | s in role.selectiveRowFilters && ParseFilter(s).Parsed?
      ensures Parsed(ParseFilter(s).pred) in Parses(role.selectiveRowFilters)
    {
      ParsesMembers(role.selectiveRowFilters, ParseFilter(s).pred);
    }
    if SelectiveCovered(role, first, later) {
      forall p | p in PolicyFilters(role, later) ensures p in PolicyFilters(role, first) {
        ParsesMembers(role.selectiveRowFilters, p);
      }
    }
  }

  lemma EnforcedParses(role: PrincipalPolicy, columns: seq<string>, p: Predicate)
    ensures p in PolicyFilters(role, columns) <==>
              || Parsed(p) in Parses(role.globalRowFilters)
              || (p.column in columns && Parsed(p) in Parses(role.selectiveRowFilters))
  {
    ParsedMembers(Parses(role.globalRowFilters), p);
    ParsedMembers(Parses(role.selectiveRowFilters), p);
    PresentMembers(ParsedOnes(Parses(role.selectiveRowFilters)), columns, p);
  }

  lemma ParsesMembers(filters: seq<string>, p: Predicate)
    ensures Parsed(p) in Parses(filters) <==> exists s :: s in filters && ParseFilter(s) == Parsed(p)
  {
    var parses := Parses(filters);
    assert forall i :: 0 <= i < |filters| ==> parses[i] == ParseFilter(filters[i]);
    if Parsed(p) in parses {
      var i :| 0 <= i < |parses| && parses[i] == Parsed(p);
      assert filters[i] in filters;
    }
    if s :| s in filters && ParseFilter(s) == Parsed(p) {
      var i :| 0 <= i < |filters| && filters[i] == s;
      assert parses[i] == Parsed(p);
    }
  }

  // ---------------------------------------------------------------- the plan of a scan

  /** What a scan decides on the first file and then does with every file. */
  datatype Plan = Plan(
    requested: seq<string>,
    projected: seq<string>,
    policyFilters: seq<Predicate>,
    userFilters: seq<Predicate>,
    schema: seq<Field>,
    unified: Option<seq<Field>>)

  predicate GoodPlan(plan: Plan) {
    && |plan.schema| == |plan.requested|
    && (forall k :: 0 <= k < |plan.requested| ==> plan.requested[k] in plan.projected)
    && AllIn(plan.policyFilters, plan.projected)
  }

  function UnifiedField(unified: Option<seq<Field>>, name: string): Option<Field> {
    if unified.Some? && FieldIndex(unified.value, name).Some?
    then Some(unified.value[FieldIndex(unified.value, name).value]) else None
  }

  /** The field of a requested column in the output: of the contract, else of the first file, else null. */
  function SchemaField(unified: Option<seq<Field>>, first: seq<Field>, name: string): Field {
    if UnifiedField(unified, name).Some? then UnifiedField(unified, name).value
    else if FieldIndex(first, name).Some? then first[FieldIndex(first, name).value]
    else Field(name, TNull, true)
  }

  function Names(fields: seq<Field>): (r: seq<string>)
    ensures |r| == |fields| && forall k :: 0 <= k < |r| ==> r[k] == fields[k].name
  {
    Map(fields, (f: Field) => f.name)
  }

  /** Requested columns, then the columns of the policy's filters that are not among them. */
  method Widen(requested: seq<string>, preds: seq<Predicate>) returns (projected: seq<string>)
    ensures projected == AddNew(requested, Map(preds, (p: Predicate) => p.column))
    ensures forall k :: 0 <= k < |requested| ==> requested[k] in projected
    ensures AllIn(preds, projected)
  {
    var hidden: seq<string> := Map(preds, (p: Predicate) => p.column);
    projected := PushNew(requested, hidden);
    forall k | 0 <= k < |requested| ensures requested[k] in projected {
      AddNewMembers(requested, hidden, requested[k]);
    }
    forall j | 0 <= j < |preds| ensures preds[j].column in projected {
      assert hidden[j] == preds[j].column;
      AddNewMembers(requested, hidden, preds[j].column);
    }
  }

  method OutputSchema(unified: Option<seq<Field>>, first: seq<Field>, requested: seq<string>) returns (schema: seq<Field>)
    ensures |schema| == |requested|
    ensures forall k :: 0 <= k < |requested| ==> schema[k] == SchemaField(unified, first, requested[k])
  {
    schema := [];
    for k := 0 to |requested|
      invariant |schema| == k && forall l :: 0 <= l < k ==> schema[l] == SchemaField(unified, first, requested[l])
    {
      schema := schema + [SchemaField(unified, first, requested[k])];
    }
  }

  /** The filters of the reader's role, for a file with these columns. */
  function ReaderFilters(reader: Reader, policy: PolicyManifest, columns: seq<string>): seq<Predicate> {
    match RolePolicy(reader, policy) case Some(role) => PolicyFilters(role, columns) case None => []
  }

  /** No filter of the active role makes the parser panic, and its global filters have their columns. */
  predicate FiltersCollectable(reader: Reader, policy: PolicyManifest, columns: seq<string>) {
    match RolePolicy(reader, policy)
    case None => true
    case Some(role) =>
      && Panics !in Parses(role.globalRowFilters) && Panics !in Parses(role.selectiveRowFilters)
      && AllIn(ParsedOnes(Parses(role.globalRowFilters)), columns)
  }

  predicate NothingParses(filters: seq<string>) {
    forall s :: s in filters ==> !ParseFilter(s).Parsed?
  }

  /** A role whose filters all fail to parse does not filter. */
  predicate Unfiltered(role: PrincipalPolicy) {
    NothingParses(role.globalRowFilters) && NothingParses(role.selectiveRowFilters)
  }

  lemma UnfilteredIff(role: PrincipalPolicy)
    ensures (forall columns :: PolicyFilters(role, columns) == []) <==> Unfiltered(role)
  {
    if Unfiltered(role) {
      forall columns ensures PolicyFilters(role, columns) == [] {
        if PolicyFilters(role, columns) != [] {
          EnforcedFilters(role, columns, PolicyFilters(role, columns)[0]);
        }
      }
    } else {
      var s :| (s in role.globalRowFilters || s in role.selectiveRowFilters) && ParseFilter(s).Parsed?;
      var p := ParseFilter(s).pred;
      EnforcedFilters(role, [p.column], p);
      assert p in PolicyFilters(role, [p.column]);
    }
  }

  /**
   A reader escapes every row filter, whatever the columns of the files, exactly when no role of
   the policy becomes active, or the active one has no filter that parses.
   */
  lemma EscapesFiltersIff(reader: Reader, policy: PolicyManifest)
    ensures (forall columns :: ReaderFilters(reader, policy, columns) == []) <==>
            forall role :: Activates(reader, policy, role) && role in policy.principals ==> Unfiltered(policy.principals[role])
  {
    match ResolveActiveRole(reader, policy)
    case Err(_) =>
      forall role ensures !Activates(reader, policy, role) {
        ActiveRoleExactly(reader, policy, role);
      }
    case Ok(active) =>
      forall role ensures Activates(reader, policy, role) <==> role == active {
        ActiveRoleExactly(reader, policy, role);
      }
      if active in policy.principals {
        UnfilteredIff(policy.principals[active]);
        assert forall columns :: ReaderFilters(reader, policy, columns) == PolicyFilters(policy.principals[active], columns);
      }
  }

  /** For instance with two principals in the policy and none bound or assumed: plaintext columns are shown unfiltered. */
  lemma TwoRolesEscape(c: Context, column: string, columns: seq<string>)
    requires c.reader.principals == ["analyst", "auditor"] && c.reader.assumedRole.None?
    requires BoundRole(c.policy, c.reader.purpose).None?
    requires "analyst" in c.policy.principals && "auditor" in c.policy.principals && c.policy.encryption.None?
    ensures ReaderFilters(c.reader, c.policy, columns) == []
    ensures Decide(c.lower, c.reader, c.policy, column, false, []) == Ok(InClear)
  {
    var names := c.reader.principals;
    assert names[1..] == ["auditor"] && names[1..][1..] == [];
    assert MatchingRoles([], c.policy) == [] && MatchingRoles(["auditor"], c.policy) == ["auditor"];
    assert MatchingRoles(names, c.policy) == ["analyst", "auditor"];
    assert RequiredTags(c.policy) == [] && RequiredColumns(c.policy) == [];
  }

  method PlanScan(reader: Reader, policy: PolicyManifest, columns: Option<seq<string>>, userFilters: seq<Predicate>,
                  unified: Option<seq<Field>>, first: seq<Field>)
    returns (r: Result<Plan, Collected>)
    ensures r.Ok? <==> FiltersCollectable(reader, policy, Names(first))
    ensures r.Err? ==> !r.error.Collected?
    ensures r.Ok? ==>
              && GoodPlan(r.value)
              && r.value.policyFilters == ReaderFilters(reader, policy, Names(first))
              && AllIn(r.value.policyFilters, Names(first))
              && r.value.userFilters == userFilters && r.value.unified == unified
              && r.value.requested == (if columns.Some? then columns.value
                                       else if unified.Some? then Names(unified.value) else Names(first))
              && forall k :: 0 <= k < |r.value.schema| ==> r.value.schema[k] == SchemaField(unified, first, r.value.requested[k])
  {
    var collected := CollectPolicyFilters(reader, policy, Names(first));
    if !collected.Collected? {
      return Err(collected);
    }
    var requested := if columns.Some? then columns.value else if unified.Some? then Names(unified.value) else Names(first);
    var projected := Widen(requested, collected.preds);
    var schema := OutputSchema(unified, first, requested);
    return Ok(Plan(requested, projected, collected.preds, userFilters, schema, unified));
  }

  // ---------------------------------------------------------------- what a row is shown as

  function Treat(c: Context, f: StoredFile, name: string): Result<Treatment, GovernanceError> {
    Decide(c.lower, c.reader, c.policy, name, name in f.encrypted, TagsFor(f.metadata, name))
  }

  /** A column that may not be read is never shown; the default only matters where there are no rows. */
  function HowToShow(c: Context, f: StoredFile, name: string): Treatment {
    match Treat(c, f, name) case Ok(how) => how case Err(_) => Redacted
  }

  function Nulls(n: nat): (r: seq<Cell>)
    ensures |r| == n && forall i :: 0 <= i < n ==> r[i] == Null
  {
    seq(n, i => Null)
  }

  /** A requested column of some rows of the file: masked, or nulls if the file does not have it. */
  function OutputColumn(c: Context, plan: Plan, f: StoredFile, b: Batch, name: string): Column {
    match Lookup(b, name)
    case Some(col) => Column(col.field, MaskCells(c.digest, col.field.ctype, HowToShow(c, f, name), col.cells))
    case None =>
      var unified := UnifiedField(plan.unified, name);
      Column(Field(name, if unified.Some? then unified.value.ctype else TNull, true), Nulls(b.rows))
  }

  function OutputColumns(c: Context, plan: Plan, f: StoredFile, b: Batch): (r: seq<Column>)
    ensures |r| == |plan.requested|
  {
    seq(|plan.requested|, k requires 0 <= k < |plan.requested| => OutputColumn(c, plan, f, b, plan.requested[k]))
  }

  /** The columns under the schema of the plan. */
  function Delivered(plan: Plan, columns: seq<Column>, rows: nat): Batch
    requires |columns| == |plan.schema|
  {
    Batch(seq(|plan.schema|, k requires 0 <= k < |plan.schema| => Column(plan.schema[k], columns[k].cells)), rows)
  }

  /** Some rows of the file as the scan shows them: the simple specification. */
  function Rendered(c: Context, plan: Plan, f: StoredFile, b: Batch): (r: Batch)
    requires GoodPlan(plan)
    ensures |r.columns| == |plan.schema|
  {
    Delivered(plan, OutputColumns(c, plan, f, b), b.rows)
  }

  /** Types agree, and no null is where none may be. */
  predicate ColumnFits(field: Field, col: Column) {
    col.field.ctype == field.ctype && (field.nullable || Null !in col.cells)
  }

  /** A record batch is accepted if it has columns and all of them fit the schema. */
  predicate Accepts(schema: seq<Field>, columns: seq<Column>) {
    && columns != []
    && |columns| == |schema|
    && forall k :: 0 <= k < |schema| ==> ColumnFits(schema[k], columns[k])
  }

  /** Everything that must go well for a batch to be delivered. */
  predicate BatchSucceeds(c: Context, plan: Plan, f: StoredFile, b: Batch)
    requires WellFormed(b)
  {
    && AllApply(c.dates, plan.policyFilters, b)
    && (plan.projected != plan.requested ==> exists k :: 0 <= k < |plan.requested| && Lookup(b, plan.requested[k]).Some?)
    && (forall k :: 0 <= k < |plan.requested| && Lookup(b, plan.requested[k]).Some? ==> Treat(c, f, plan.requested[k]).Ok?)
    && Accepts(plan.schema, OutputColumns(c, plan, f, FilterPassing(c.dates, plan.policyFilters, b)))
  }

  // ---------------------------------------------------------------- one batch

  datatype ScanError =
    | RowFilterFailed(filter: FilterError)
    | NoColumns
    | Refused(error: GovernanceError)
    | SchemaMismatch

  /** The loop over the fields that keeps the requested ones. */
  method DropHidden(b: Batch, requested: seq<string>) returns (r: Batch)
    ensures r == Project(b, requested)
  {
    var columns := [];
    for i := 0 to |b.columns|
      invariant columns + ProjectColumns(b.columns[i..], requested) == ProjectColumns(b.columns, requested)
    {
      assert b.columns[i..][1..] == b.columns[i + 1..];
      if b.columns[i].field.name in requested {
        columns := columns + [b.columns[i]];
      }
    }
    return Batch(columns, b.rows);
  }

  lemma {:induction false} NothingVisible(cs: seq<Column>, names: seq<string>)
    ensures ProjectColumns(cs, names) == [] <==> forall k :: 0 <= k < |names| ==> LookupIn(cs, names[k]).None?
  {
    if cs != [] {
      NothingVisible(cs[1..], names);
      if cs[0].field.name in names {
        var k :| 0 <= k < |names| && names[k] == cs[0].field.name;
        assert LookupIn(cs, names[k]) == Some(cs[0]);
      } else {
        assert forall k :: 0 <= k < |names| ==> LookupIn(cs, names[k]) == LookupIn(cs[1..], names[k]);
      }
    }
  }

  lemma LookupAfterFilter(b: Batch, keep: seq<bool>, name: string)
    requires WellFormed(b) && |keep| == b.rows
    ensures Lookup(FilterBatch(b, keep), name).Some? <==> Lookup(b, name).Some?
  {
    FilterKeepsForm(b, keep);
    assert ColumnIndex(FilterBatch(b, keep), name) == ColumnIndex(b, name);
  }

  lemma VisibleColumns(b: Batch, requested: seq<string>)
    ensures ProjectColumns(b.columns, requested) == [] <==>
            forall k :: 0 <= k < |requested| ==> Lookup(b, requested[k]).None?
  {
    NothingVisible(b.columns, requested);
    forall k | 0 <= k < |requested| ensures Lookup(b, requested[k]) == LookupIn(b.columns, requested[k]) {
      LookupIsIn(b, requested[k]);
    }
  }

  /** A column of a batch as the reader may see it, or the refusal. */
  method ShowColumn(c: Context, plan: Plan, f: StoredFile, b: Batch, name: string) returns (r: Result<Column, ScanError>)
    requires WellFormed(b)
    ensures r.Ok? <==> (Lookup(b, name).Some? ==> Treat(c, f, name).Ok?)
    ensures r.Ok? ==> r.value == OutputColumn(c, plan, f, b, name)
    ensures r.Err? ==> r.error == Refused(Treat(c, f, name).error)
  {
    var k := ColumnIndex(b, name);
    if k.Some? {
      var col := b.columns[k.value];
      assert forall i :: 0 <= i < b.rows ==> CellFits(col.field.ctype, col.cells[i]);
      var decision := Treat(c, f, name);
      if decision.Err? {
        return Err(Refused(decision.error));
      }
      var cells := MaskColumn(c.digest, col.field.ctype, decision.value, col.cells);
      return Ok(Column(col.field, cells));
    }
    var unified := UnifiedField(plan.unified, name);
    return Ok(Column(Field(name, if unified.Some? then unified.value.ctype else TNull, true), Nulls(b.rows)));
  }

  /** The first requested column of a batch that the reader may not see refuses the batch. */
  ghost predicate FirstRefusal(c: Context, plan: Plan, f: StoredFile, b: Batch, error: GovernanceError) {
    exists k :: 0 <= k < |plan.requested|
                && Lookup(b, plan.requested[k]).Some? && Treat(c, f, plan.requested[k]) == Err(error)
                && forall l :: 0 <= l < k && Lookup(b, plan.requested[l]).Some? ==> Treat(c, f, plan.requested[l]).Ok?
  }

  /** Why a batch fails: its filters come first, then what is visible, then access, then the schema. */
  ghost predicate FailsWith(c: Context, plan: Plan, f: StoredFile, b: Batch, error: ScanError)
    requires WellFormed(b)
  {
    match error
    case RowFilterFailed(filter) => FirstFailure(c.dates, plan.policyFilters, b, filter)
    case NoColumns =>
      && AllApply(c.dates, plan.policyFilters, b)
      && plan.projected != plan.requested
      && forall k :: 0 <= k < |plan.requested| ==> Lookup(b, plan.requested[k]).None?
    case Refused(refusal) => AllApply(c.dates, plan.policyFilters, b) && FirstRefusal(c, plan, f, b, refusal)
    case SchemaMismatch =>
      && AllApply(c.dates, plan.policyFilters, b)
      && (forall k :: 0 <= k < |plan.requested| && Lookup(b, plan.requested[k]).Some? ==> Treat(c, f, plan.requested[k]).Ok?)
      && !Accepts(plan.schema, OutputColumns(c, plan, f, FilterPassing(c.dates, plan.policyFilters, b)))
  }

  method ShowColumns(c: Context, plan: Plan, f: StoredFile, b: Batch) returns (r: Result<seq<Column>, ScanError>)
    requires WellFormed(b)
    ensures r.Ok? <==> forall k :: 0 <= k < |plan.requested| && Lookup(b, plan.requested[k]).Some? ==>
                         Treat(c, f, plan.requested[k]).Ok?
    ensures r.Ok? ==> r.value == OutputColumns(c, plan, f, b)
    ensures r.Err? ==> r.error.Refused? && FirstRefusal(c, plan, f, b, r.error.error)
  {
    var columns := [];
    for k := 0 to |plan.requested|
      invariant |columns| == k
      invariant forall l :: 0 <= l < k ==> columns[l] == OutputColumn(c, plan, f, b, plan.requested[l])
      invariant forall l :: 0 <= l < k && Lookup(b, plan.requested[l]).Some? ==> Treat(c, f, plan.requested[l]).Ok?
    {
      var shown := ShowColumn(c, plan, f, b, plan.requested[k]);
      if shown.Err? {
        return Err(shown.error);
      }
      columns := columns + [shown.value];
    }
    return Ok(columns);
  }

  /** Dropping the hidden columns does not change what is shown. */
  lemma HiddenColumnsAreUnused(c: Context, plan: Plan, f: StoredFile, b: Batch, names: seq<string>)
    requires forall k :: 0 <= k < |plan.requested| ==> plan.requested[k] in names
    ensures OutputColumns(c, plan, f, Project(b, names)) == OutputColumns(c, plan, f, b)
    ensures forall k :: 0 <= k < |plan.requested| ==> Lookup(Project(b, names), plan.requested[k]) == Lookup(b, plan.requested[k])
  {
    forall k | 0 <= k < |plan.requested|
      ensures Lookup(Project(b, names), plan.requested[k]) == Lookup(b, plan.requested[k])
    {
      ProjectLookup(b, names, plan.requested[k]);
    }
  }

  lemma FilteredLookups(plan: Plan, b: Batch, keep: seq<bool>)
    requires WellFormed(b) && |keep| == b.rows
    ensures WellFormed(FilterBatch(b, keep))
    ensures forall k :: 0 <= k < |plan.requested| ==>
              (Lookup(FilterBatch(b, keep), plan.requested[k]).Some? <==> Lookup(b, plan.requested[k]).Some?)
  {
    FilterKeepsForm(b, keep);
    forall k | 0 <= k < |plan.requested|
      ensures Lookup(FilterBatch(b, keep), plan.requested[k]).Some? <==> Lookup(b, plan.requested[k]).Some?
    {
      LookupAfterFilter(b, keep, plan.requested[k]);
    }
  }

  lemma ProjectKeepsForm(b: Batch, names: seq<string>)
    requires WellFormed(b)
    ensures WellFormed(Project(b, names))
  {
    ProjectFilter(b, names, seq(b.rows, i => true));
  }

  /** Two batches that show the same requested columns. */
  predicate SameView(plan: Plan, a: Batch, b: Batch) {
    a.rows == b.rows && forall k :: 0 <= k < |plan.requested| ==> Lookup(a, plan.requested[k]) == Lookup(b, plan.requested[k])
  }

  lemma SameViewSameOutput(c: Context, plan: Plan, f: StoredFile, a: Batch, b: Batch)
    requires SameView(plan, a, b)
    ensures OutputColumns(c, plan, f, a) == OutputColumns(c, plan, f, b)
  {
  }

  /** Hidden columns are dropped; it is an error if nothing is left. */
  method KeepVisible(plan: Plan, b: Batch) returns (r: Option<Batch>)
    requires WellFormed(b)
    ensures r.None? <==> plan.projected != plan.requested && forall k :: 0 <= k < |plan.requested| ==> Lookup(b, plan.requested[k]).None?
    ensures r.Some? ==> WellFormed(r.value) && SameView(plan, r.value, b)
  {
    if plan.projected == plan.requested {
      return Some(b);
    }
    forall k | 0 <= k < |plan.requested|
      ensures Lookup(Project(b, plan.requested), plan.requested[k]) == Lookup(b, plan.requested[k])
    {
      ProjectLookup(b, plan.requested, plan.requested[k]);
    }
    VisibleColumns(b, plan.requested);
    ProjectKeepsForm(b, plan.requested);
    var visible := DropHidden(b, plan.requested);
    return if visible.columns == [] then None else Some(visible);
  }

  /** The body of the loop over the batches of a file. */
  method ProcessBatch(c: Context, plan: Plan, f: StoredFile, b: Batch) returns (r: Result<Batch, ScanError>)
    requires GoodPlan(plan) && WellFormed(b)
    ensures r.Ok? <==> BatchSucceeds(c, plan, f, b)
    ensures r.Ok? ==> r.value == Rendered(c, plan, f, FilterPassing(c.dates, plan.policyFilters, b))
    ensures r.Err? ==> FailsWith(c, plan, f, b, r.error)
  {
    var filtered := ApplyRowFilters(c.dates, plan.policyFilters, b);
    if filtered.Err? {
      return Err(RowFilterFailed(filtered.error));
    }
    PassingIsRowMask(c.dates, plan.policyFilters, b);
    FilteredLookups(plan, b, Passing(c.dates, plan.policyFilters, b));
    var visible := KeepVisible(plan, filtered.value);
    if visible.None? {
      return Err(NoColumns);
    }
    SameViewSameOutput(c, plan, f, visible.value, filtered.value);
    var shown := ShowColumns(c, plan, f, visible.value);
    if shown.Err? {
      return Err(shown.error);
    }
    if !Accepts(plan.schema, shown.value) {
      return Err(SchemaMismatch);
    }
    return Ok(Delivered(plan, shown.value, visible.value.rows));
  }
}
