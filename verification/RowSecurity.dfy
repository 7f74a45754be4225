/**
 Row security of whole scans: whatever happens to a scan, every row that reaches the consumer is the
 rendering of a row of a file that passes the policy's filters. The filters are those of the first
 file, so the filters of a later file are enforced under the condition that is proved exact here.
 */
module RowSecurity {
  import opened Sequences
  import opened FilterSyntax
  import opened Comparisons
  import opened RowFilters
  import opened Tables
  import opened Pruning
  import opened FileRows
  import opened Manifest
  import opened PolicyLayers
  import opened Governance
  import opened ReadPath
  import opened FileScan
  import opened Prefetch
  import opened WholeScan

  // ---------------------------------------------------------------- one row of a batch

  /** Row k of what is delivered is row i of the file, masked and padded. */
  predicate ShowsRow(c: Context, plan: Plan, f: StoredFile, out: Batch, k: nat, i: nat)
    requires GoodPlan(plan) && Regular(f.table)
  {
    && Square(out) && k < out.rows
    && i < AllRows(f.table).rows
    && OneRow(out, k) == Rendered(c, plan, f, OneRow(AllRows(f.table), i))
  }

  lemma OneRowOutput(c: Context, plan: Plan, f: StoredFile, b: Batch, k: nat, name: string)
    requires Square(b) && k < b.rows
    ensures |OutputColumn(c, plan, f, b, name).cells| == b.rows
    ensures OutputColumn(c, plan, f, OneRow(b, k), name).cells == [OutputColumn(c, plan, f, b, name).cells[k]]
  {
    SameColumns(OneRow(b, k), b, name);
  }

  /** Rendering works row by row. */
  lemma OneRowRendered(c: Context, plan: Plan, f: StoredFile, b: Batch, k: nat)
    requires GoodPlan(plan) && Square(b) && k < b.rows
    ensures Square(Rendered(c, plan, f, b))
    ensures OneRow(Rendered(c, plan, f, b), k) == Rendered(c, plan, f, OneRow(b, k))
  {
    forall m | 0 <= m < |plan.requested|
      ensures |OutputColumn(c, plan, f, b, plan.requested[m]).cells| == b.rows
      ensures OutputColumn(c, plan, f, OneRow(b, k), plan.requested[m]).cells ==
              [OutputColumn(c, plan, f, b, plan.requested[m]).cells[k]]
    {
      OneRowOutput(c, plan, f, b, k, plan.requested[m]);
    }
  }

  /** The row that a filtered row was before. */
  lemma OneRowFiltered(fields: seq<Field>, b: Batch, keep: seq<bool>, k: nat) returns (i: nat)
    requires Shaped(fields, b) && |keep| == b.rows && k < Count(keep)
    ensures Shaped(fields, FilterBatch(b, keep)) && i < b.rows && keep[i]
    ensures OneRow(FilterBatch(b, keep), k) == OneRow(b, i)
  {
    FilterKeepsForm(b, keep);
    i := Source(keep, k);
    forall m | 0 <= m < |fields| ensures FilterBy(b.columns[m].cells, keep)[k] == b.columns[m].cells[i] {
      FilterAt(b.columns[m].cells, keep, k);
    }
  }

  // ---------------------------------------------------------------- from the batch back to the file

  /** Every row that is read is a row of the file. */
  lemma ReadRowOfFile(f: File, names: seq<string>, columnName: string, pruners: seq<Predicate>, cut: seq<Batch>, j: nat, k: nat)
    returns (i: nat)
    requires Regular(f) && CutOf(f, names, columnName, pruners, cut) && j < |cut| && k < cut[j].rows
    ensures i < AllRows(f).rows && Shaped(ProjectFields(f.fields, names), cut[j])
    ensures OneRow(cut[j], k) == Project(OneRow(AllRows(f), i), names)
  {
    var rows := RowsRead(f, columnName, pruners);
    var o := OneRowOfStack(ProjectFields(f.fields, names), cut, j, k);
    OneRowProject(rows, names, o);
    ReadIsMasked(f, columnName, pruners);
    i := OneRowFiltered(f.fields, AllRows(f), ReadMask(f, columnName, pruners), o);
  }

  /** A row that passes in the batch passes in the file. */
  lemma PassesInFile(dates: Calendar, filters: seq<Predicate>, f: File, names: seq<string>, b: Batch, k: nat, i: nat)
    requires Regular(f) && Shaped(ProjectFields(f.fields, names), b) && AllIn(filters, names)
    requires k < b.rows && i < AllRows(f).rows && OneRow(b, k) == Project(OneRow(AllRows(f), i), names)
    requires PassesAll(dates, filters, b, k)
    ensures PassesAll(dates, filters, AllRows(f), i)
  {
    OneRowPasses(dates, filters, ProjectFields(f.fields, names), b, k);
    OneRowPasses(dates, filters, f.fields, AllRows(f), i);
    ProjectPassing(dates, filters, OneRow(AllRows(f), i), names);
    assert Passing(dates, filters, OneRow(b, k))[0];
  }

  /** A delivered batch shows only rows of its file that pass the policy's filters. */
  lemma DeliveredRowPasses(c: Context, plan: Plan, f: StoredFile, cut: seq<Batch>, j: nat, out: Batch, k: nat) returns (i: nat)
    requires GoodPlan(plan) && Regular(f.table) && ScanCut(plan, f, cut) && j < |cut|
    requires DeliveredFor(c, plan, f, cut[j], out) && k < out.rows
    ensures ShowsRow(c, plan, f, out, k, i) && PassesAll(c.dates, plan.policyFilters, AllRows(f.table), i)
  {
    var fields, filters := ProjectFields(f.table.fields, plan.projected), plan.policyFilters;
    assert Shaped(fields, cut[j]);
    FilterPassingShaped(c.dates, filters, fields, cut[j]);
    OneRowRendered(c, plan, f, FilterPassing(c.dates, filters, cut[j]), k);
    var r := OneRowFiltered(fields, cut[j], Passing(c.dates, filters, cut[j]), k);
    i := ReadRowOfFile(f.table, plan.projected, FirstPresent(f.table.fields, plan.projected),
                       plan.userFilters + plan.policyFilters, cut, j, r);
    RenderProject(c, plan, f, OneRow(AllRows(f.table), i));
    PassesInFile(c.dates, filters, f.table, plan.projected, cut[j], r, i);
  }

  // ---------------------------------------------------------------- whole scans

  /** What the sequential scan emits comes from a file that opened. */
  lemma {:induction false} ItemOfTarget(targets: seq<Target>, m: nat) returns (n: nat, j: nat)
    requires m < |Sequential(targets)| && Sequential(targets)[m].Ok?
    ensures n < |targets| && targets[n].Opens? && j < |targets[n].results| && targets[n].results[j] == Sequential(targets)[m]
  {
    var first := UpToError(targets[0].results);
    if m < |first| {
      n := 0;
      UpToErrorIsPrefix(targets[0].results);
      j := m;
    } else {
      n, j := ItemOfTarget(targets[1..], m - |first|);
      n := n + 1;
    }
  }

  lemma {:induction false} UpToErrorIsPrefix(results: seq<Item>)
    ensures UpToError(results) <= results
  {
    if results != [] && results[0].Ok? {
      UpToErrorIsPrefix(results[1..]);
    }
  }

  /** Row i of a file passes the filters of the plan and is what row k of a delivered batch shows. */
  ghost predicate ComesFrom(c: Context, plan: Plan, files: seq<StoredFile>, out: Batch, k: nat, n: nat, i: nat)
    requires GoodPlan(plan) && n < |files| && Regular(files[n].table)
  {
    ShowsRow(c, plan, files[n], out, k, i) && PassesAll(c.dates, plan.policyFilters, AllRows(files[n].table), i)
  }

  /**
   Safety of every run, also of those that fail or are abandoned: each row of each batch that the
   consumer got shows a row of a file that passes all filters of the plan.
   */
  lemma EveryDeliveredRowPasses(c: Context, plan: Plan, files: seq<StoredFile>, cuts: seq<seq<Batch>>, targets: seq<Target>,
                                events: seq<Event>, m: nat, k: nat) returns (n: nat, i: nat)
    requires GoodPlan(plan) && TargetsOf(c, plan, files, cuts, targets) && Prefetch.Run(Initial(targets), events)
    requires var delivered := After(Initial(targets), events).consumer.delivered;
             m < |delivered| && delivered[m].Ok? && k < delivered[m].value.rows
    ensures n < |files| && Regular(files[n].table)
    ensures ComesFrom(c, plan, files, After(Initial(targets), events).consumer.delivered[m].value, k, n, i)
  {
    PipelineRefinesSequentialScan(targets, events);
    var out := After(Initial(targets), events).consumer.delivered[m];
    assert Sequential(targets)[m] == out;
    var j: nat;
    n, j := ItemOfTarget(targets, m);
    assert Regular(files[n].table);
    assert DeliveredFor(c, plan, files[n], cuts[n][j], targets[n].results[j].value);
    i := DeliveredRowPasses(c, plan, files[n], cuts[n], j, out.value, k);
  }

  /** The filters that the reader's role has for a file of its own. */
  function OwnFilters(role: PrincipalPolicy, f: StoredFile): seq<Predicate> {
    PolicyFilters(role, Names(f.table.fields))
  }

  lemma CoveredRowPasses(dates: Calendar, role: PrincipalPolicy, first: seq<string>, f: StoredFile, i: nat)
    requires Regular(f.table) && i < AllRows(f.table).rows
    requires SelectiveCovered(role, first, Names(f.table.fields))
    requires forall p :: p in OwnFilters(role, f) ==> Faithful(dates, p, f.table.fields)
    requires PassesAll(dates, PolicyFilters(role, first), AllRows(f.table), i)
    ensures SatisfiesAll(dates, OwnFilters(role, f), f.table.fields, AllRows(f.table), i)
  {
    LaterFiltersAreEnforcedIff(role, first, Names(f.table.fields));
    var own, enforced := OwnFilters(role, f), PolicyFilters(role, first);
    forall j | 0 <= j < |own| ensures RowSatisfies(dates, own[j], f.table.fields, AllRows(f.table), i) {
      assert own[j] in own;
      var l :| 0 <= l < |enforced| && enforced[l] == own[j];
      assert Passes(dates, enforced[l], AllRows(f.table), i);
      PassesIsSatisfies(dates, own[j], f.table.fields, AllRows(f.table), i);
    }
  }

  /**
   Row security over many files: when the first file covers the selective filters of the others,
   every delivered row satisfies every filter that the role has for the row's own file.
   */
  lemma RowsSatisfyOwnFilters(c: Context, plan: Plan, role: PrincipalPolicy, first: seq<string>, files: seq<StoredFile>,
                    cuts: seq<seq<Batch>>, targets: seq<Target>, events: seq<Event>, m: nat, k: nat) returns (n: nat, i: nat)
    requires GoodPlan(plan) && TargetsOf(c, plan, files, cuts, targets) && Prefetch.Run(Initial(targets), events)
    requires plan.policyFilters == PolicyFilters(role, first)
    requires forall f :: f in files ==> SelectiveCovered(role, first, Names(f.table.fields))
    requires forall f, p :: f in files && p in OwnFilters(role, f) ==> Faithful(c.dates, p, f.table.fields)
    requires var delivered := After(Initial(targets), events).consumer.delivered;
             m < |delivered| && delivered[m].Ok? && k < delivered[m].value.rows
    ensures n < |files| && Regular(files[n].table)
    ensures ShowsRow(c, plan, files[n], After(Initial(targets), events).consumer.delivered[m].value, k, i)
    ensures SatisfiesAll(c.dates, OwnFilters(role, files[n]), files[n].table.fields, AllRows(files[n].table), i)
  {
    n, i := EveryDeliveredRowPasses(c, plan, files, cuts, targets, events, m, k);
    assert files[n] in files;
    CoveredRowPasses(c.dates, role, first, files[n], i);
  }

  // ---------------------------------------------------------------- a later file that is not covered

  const V := Field("v", TInt64, true)
  const R := Field("r", TInt64, true)
  const R_IS_ONE := Predicate(Eq, "r", Int64(1))

  /** A role with one selective filter, and a policy and a reader for it. */
  const SELECTIVE_ROLE := NO_POLICY.(selectiveRowFilters := ["r == 1"])
  const SELECTIVE_POLICY := EMPTY_POLICY.(principals := map["analyst" := SELECTIVE_ROLE])
  const ANALYST := Reader(["analyst"], None, None, StrictError)

  lemma RIsOneParses()
    ensures ParseFilter("r == 1") == Parsed(R_IS_ONE)
  {
    assert RenderValue(Int64(1)) == "1";
    assert "r" + " " + "==" + " " + RenderValue(Int64(1)) + "" == "r == 1";
    ParseUndoesRender("r", " ", "==", " ", Int64(1), "");
  }

  lemma OneSelectiveFilter(role: PrincipalPolicy, s: string, p: Predicate, columns: seq<string>)
    requires role.globalRowFilters == [] && role.selectiveRowFilters == [s] && ParseFilter(s) == Parsed(p)
    ensures PolicyFilters(role, columns) == if p.column in columns then [p] else []
  {
    assert Parses([s]) == [Parsed(p)];
    assert [Parsed(p)][..0] == [];
    assert ParsedOnes([]) == [];
    assert ParsedOnes([Parsed(p)]) == [p];
    assert [p][..0] == [];
    assert Present([], columns) == [];
  }

  lemma AnalystIsActive()
    ensures RolePolicy(ANALYST, SELECTIVE_POLICY) == Some(SELECTIVE_ROLE)
  {
    assert MatchingRoles([], SELECTIVE_POLICY) == [];
    assert ["analyst"][1..] == [];
    assert MatchingRoles(["analyst"], SELECTIVE_POLICY) == ["analyst"];
  }

  lemma AnalystFilters(columns: seq<string>)
    ensures PolicyFilters(SELECTIVE_ROLE, columns) == if "r" in columns then [R_IS_ONE] else []
    ensures ReaderFilters(ANALYST, SELECTIVE_POLICY, columns) == PolicyFilters(SELECTIVE_ROLE, columns)
  {
    AnalystIsActive();
    RIsOneParses();
    OneSelectiveFilter(SELECTIVE_ROLE, "r == 1", R_IS_ONE, columns);
  }

  /** The filter of the role is dropped when the first file only has v. */
  lemma FilterIsDropped()
    ensures ReaderFilters(ANALYST, SELECTIVE_POLICY, ["v"]) == []
    ensures ReaderFilters(ANALYST, SELECTIVE_POLICY, ["v", "r"]) == [R_IS_ONE]
  {
    AnalystFilters(["v"]);
    AnalystFilters(["v", "r"]);
    assert ["v", "r"][1] == "r";
  }

  lemma FilterIsNotCovered()
    ensures !SelectiveCovered(SELECTIVE_ROLE, ["v"], ["v", "r"])
  {
    AnalystFilters(["v"]);
    AnalystFilters(["v", "r"]);
    assert ["v", "r"][1] == "r";
    assert R_IS_ONE in PolicyFilters(SELECTIVE_ROLE, ["v", "r"]) && R_IS_ONE !in PolicyFilters(SELECTIVE_ROLE, ["v"]);
    LaterFiltersAreEnforcedIff(SELECTIVE_ROLE, ["v"], ["v", "r"]);
  }

  /** The plan of a scan of v whose first file only has v. */
  const V_PLAN := Plan(["v"], ["v"], [], [], [V], None)

  /** A later file with both columns and a row with r = 2, and the batch that is read of it. */
  const LATER_ROWS := Batch([Column(V, [Num(0)]), Column(R, [Num(2)])], 1)
  const LATER_GROUP := RowGroup(LATER_ROWS, [None, None])
  const LATER_FILE := StoredFile(File([V, R], [LATER_GROUP]), {}, [])
  const V_BATCH := Batch([Column(V, [Num(0)])], 1)

  lemma VIsProjected()
    ensures ProjectFields([V, R], ["v"]) == [V] && Project(LATER_ROWS, ["v"]) == V_BATCH
    ensures Shaped([V, R], LATER_ROWS) && Shaped([V], V_BATCH)
    ensures FieldIndex([V, R], "v") == Some(0) && FirstPresent([V, R], ["v"]) == "v"
  {
    assert [V, R][1..] == [R] && [R][1..] == [];
    assert ProjectFields([], ["v"]) == [] && ProjectFields([R], ["v"]) == [];
    var cs := LATER_ROWS.columns;
    assert cs[1..] == [Column(R, [Num(2)])] && cs[1..][1..] == [];
    assert ProjectColumns([], ["v"]) == [] && ProjectColumns(cs[1..], ["v"]) == [];
  }

  lemma LaterFileIsRead()
    ensures Regular(LATER_FILE.table) && ScanCut(V_PLAN, LATER_FILE, [V_BATCH])
  {
    VIsProjected();
    OnlyGroupRead([V, R], LATER_GROUP, "v");
    StackOfOne([V], V_BATCH);
    assert V_PLAN.userFilters + V_PLAN.policyFilters == [];
  }

  lemma PlainColumnIsShown(c: Context)
    requires c.reader == ANALYST && c.policy == SELECTIVE_POLICY
    ensures Treat(c, LATER_FILE, "v") == Ok(InClear)
  {
    assert RequiredTags(SELECTIVE_POLICY) == [] && RequiredColumns(SELECTIVE_POLICY) == [];
  }

  lemma VBatchIsShown(c: Context)
    requires c.reader == ANALYST && c.policy == SELECTIVE_POLICY
    ensures FilterPassing(c.dates, [], V_BATCH) == V_BATCH
    ensures OutputColumn(c, V_PLAN, LATER_FILE, V_BATCH, "v") == Column(V, [Num(0)])
  {
    VIsProjected();
    KeepAllRows([V], V_BATCH, Passing(c.dates, [], V_BATCH));
    PlainColumnIsShown(c);
    ColumnOfField([V], V_BATCH, "v");
    assert FieldIndex([V], "v") == Some(0);
  }

  lemma VBatchSucceeds(c: Context)
    requires c.reader == ANALYST && c.policy == SELECTIVE_POLICY
    ensures GoodPlan(V_PLAN) && DeliveredFor(c, V_PLAN, LATER_FILE, V_BATCH, V_BATCH)
  {
    VIsProjected();
    VBatchIsShown(c);
    PlainColumnIsShown(c);
    assert OutputColumns(c, V_PLAN, LATER_FILE, V_BATCH) == [Column(V, [Num(0)])];
  }

  lemma LaterRowFails(c: Context)
    ensures Shaped([V, R], LATER_ROWS) && !RowSatisfies(c.dates, R_IS_ONE, [V, R], LATER_ROWS, 0)
  {
    VIsProjected();
    assert FieldIndex([V, R], "r") == Some(1);
  }

  /** The analyst's `r == 1` is not enforced, and a row with r = 2 is delivered. */
  predicate DeliversForbiddenRow(c: Context) {
    && !SelectiveCovered(SELECTIVE_ROLE, ["v"], ["v", "r"])
    && GoodPlan(V_PLAN) && Regular(LATER_FILE.table)
    && ReaderFilters(c.reader, c.policy, ["v"]) == V_PLAN.policyFilters
    && ReaderFilters(c.reader, c.policy, ["v", "r"]) == [R_IS_ONE]
    && ScanCut(V_PLAN, LATER_FILE, [V_BATCH]) && DeliveredFor(c, V_PLAN, LATER_FILE, V_BATCH, V_BATCH)
    && Shaped([V, R], LATER_ROWS)
    && !RowSatisfies(c.dates, R_IS_ONE, [V, R], LATER_ROWS, 0)
  }

  /**
   For instance, the analyst's filter `r == 1` is dropped because the first file only has v, and a
   row of a later file with r = 2 is delivered.
   */
  lemma LaterFileIsNotFiltered(c: Context)
    requires c.reader == ANALYST && c.policy == SELECTIVE_POLICY
    ensures DeliversForbiddenRow(c)
  {
    FilterIsDropped();
    FilterIsNotCovered();
    LaterFileIsRead();
    VBatchSucceeds(c);
    LaterRowFails(c);
  }
}
