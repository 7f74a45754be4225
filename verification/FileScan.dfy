/**
 A whole file through the pipeline. Whatever way the reader cuts what it reads into batches, a scan
 without errors shows selected rows of the file, and the selection is sandwiched between policy and
 request.
 */
module FileScan {
  import opened Sequences
  import opened FilterSyntax
  import opened Comparisons
  import opened RowFilters
  import opened Tables
  import opened Pruning
  import opened FileRows
  import opened Governance
  import opened ReadPath
  import F = FilterTree

  // ---------------------------------------------------------------- opening a file

  /** The first name that is a column of the file, or the empty name. */
  function FirstPresent(fields: seq<Field>, names: seq<string>): string {
    if names == [] then "" else if FieldIndex(fields, names[0]).Some? then names[0] else FirstPresent(fields, names[1..])
  }

  lemma {:induction false} FirstPresentIsPresent(fields: seq<Field>, names: seq<string>, name: string)
    requires name in names && FieldIndex(fields, name).Some?
    ensures FieldIndex(fields, FirstPresent(fields, names)).Some?
  {
    if FieldIndex(fields, names[0]).None? {
      FirstPresentIsPresent(fields, names[1..], name);
    }
  }

  /** The row groups that will be read from a file. */
  method OpenFile(plan: Plan, f: StoredFile) returns (groups: seq<nat>)
    ensures groups == GroupsRead(f.table, FirstPresent(f.table.fields, plan.projected), plan.userFilters + plan.policyFilters)
  {
    var existing: seq<string> := [];
    for i := 0 to |plan.projected|
      invariant existing == [] ==> FirstPresent(f.table.fields, plan.projected) == FirstPresent(f.table.fields, plan.projected[i..])
      invariant existing != [] ==> FirstPresent(f.table.fields, plan.projected) == existing[0]
    {
      assert plan.projected[i..][1..] == plan.projected[i + 1..];
      if FieldIndex(f.table.fields, plan.projected[i]).Some? {
        existing := existing + [plan.projected[i]];
      }
    }
    var columnName := if existing != [] then existing[0] else "";
    groups := GetPrunedRowGroups(f.table, columnName, plan.userFilters + plan.policyFilters);
  }

  /** The batches are the rows of the groups that are read, projected, and cut in any way. */
  predicate CutOf(f: File, names: seq<string>, columnName: string, pruners: seq<Predicate>, cut: seq<Batch>)
    requires Regular(f)
  {
    && AllShaped(ProjectFields(f.fields, names), cut)
    && Stack(ProjectFields(f.fields, names), cut) == Project(RowsRead(f, columnName, pruners), names)
  }

  predicate ScanCut(plan: Plan, f: StoredFile, cut: seq<Batch>)
    requires Regular(f.table)
  {
    CutOf(f.table, plan.projected, FirstPresent(f.table.fields, plan.projected), plan.userFilters + plan.policyFilters, cut)
  }

  // ---------------------------------------------------------------- rendering commutes with stacking

  lemma RenderAppend(c: Context, plan: Plan, f: StoredFile, fields: seq<Field>, a: Batch, b: Batch)
    requires GoodPlan(plan) && Shaped(fields, a) && Shaped(fields, b)
    ensures Rendered(c, plan, f, Append(a, b)) == Append(Rendered(c, plan, f, a), Rendered(c, plan, f, b))
  {
    AppendShaped(fields, a, b);
    var ab := Append(a, b);
    forall k | 0 <= k < |plan.requested|
      ensures OutputColumn(c, plan, f, ab, plan.requested[k]).cells ==
              OutputColumn(c, plan, f, a, plan.requested[k]).cells + OutputColumn(c, plan, f, b, plan.requested[k]).cells
    {
      OutputAppend(c, plan, f, fields, a, b, plan.requested[k]);
    }
  }

  lemma OutputAppend(c: Context, plan: Plan, f: StoredFile, fields: seq<Field>, a: Batch, b: Batch, name: string)
    requires Shaped(fields, a) && Shaped(fields, b)
    ensures OutputColumn(c, plan, f, Append(a, b), name).cells ==
            OutputColumn(c, plan, f, a, name).cells + OutputColumn(c, plan, f, b, name).cells
  {
    AppendShaped(fields, a, b);
    SameIndex(fields, Append(a, b), a, name);
    SameIndex(fields, Append(a, b), b, name);
    var n := ColumnIndex(a, name);
    if n.Some? {
      MaskAppend(c.digest, fields[n.value].ctype, HowToShow(c, f, name), a.columns[n.value].cells, b.columns[n.value].cells);
    }
  }

  lemma RenderNoRows(c: Context, plan: Plan, f: StoredFile, fields: seq<Field>)
    requires GoodPlan(plan)
    ensures Rendered(c, plan, f, NoRows(fields)) == NoRows(plan.schema)
  {
  }

  function RenderEach(c: Context, plan: Plan, f: StoredFile, bs: seq<Batch>): (r: seq<Batch>)
    requires GoodPlan(plan)
    ensures |r| == |bs| && forall j :: 0 <= j < |bs| ==> r[j] == Rendered(c, plan, f, bs[j])
  {
    seq(|bs|, j requires 0 <= j < |bs| => Rendered(c, plan, f, bs[j]))
  }

  lemma {:induction false} RenderStack(c: Context, plan: Plan, f: StoredFile, fields: seq<Field>, bs: seq<Batch>)
    requires GoodPlan(plan) && AllShaped(fields, bs)
    ensures Stack(plan.schema, RenderEach(c, plan, f, bs)) == Rendered(c, plan, f, Stack(fields, bs))
  {
    if bs == [] {
      RenderNoRows(c, plan, f, fields);
    } else {
      var n := |bs| - 1;
      RenderStack(c, plan, f, fields, bs[..n]);
      assert RenderEach(c, plan, f, bs)[..n] == RenderEach(c, plan, f, bs[..n]);
      StackShaped(fields, bs[..n]);
      RenderAppend(c, plan, f, fields, Stack(fields, bs[..n]), bs[n]);
    }
  }

  lemma RenderProject(c: Context, plan: Plan, f: StoredFile, b: Batch)
    requires GoodPlan(plan)
    ensures Rendered(c, plan, f, Project(b, plan.projected)) == Rendered(c, plan, f, b)
  {
    HiddenColumnsAreUnused(c, plan, f, b, plan.projected);
  }

  // ---------------------------------------------------------------- scanning a file

  /** The rows of a file that a scan shows. */
  function ScanSelection(c: Context, plan: Plan, f: StoredFile): (r: seq<bool>)
    requires Regular(f.table)
    ensures |r| == AllRows(f.table).rows
  {
    Selected(c.dates, f.table, FirstPresent(f.table.fields, plan.projected), plan.userFilters + plan.policyFilters,
             plan.policyFilters)
  }

  /** The simple specification: filter the rows of the file, mask or pad every requested column. */
  function ScanResult(c: Context, plan: Plan, f: StoredFile): Batch
    requires Regular(f.table) && GoodPlan(plan)
  {
    Rendered(c, plan, f, FilterBatch(AllRows(f.table), ScanSelection(c, plan, f)))
  }

  predicate AllSucceed(c: Context, plan: Plan, f: StoredFile, cut: seq<Batch>) {
    forall j {:trigger cut[j]} :: 0 <= j < |cut| ==> WellFormed(cut[j]) && BatchSucceeds(c, plan, f, cut[j])
  }

  /** The batches that are delivered make up the result, however the file is cut. */
  lemma DeliveredIsResult(c: Context, plan: Plan, f: StoredFile, cut: seq<Batch>)
    requires GoodPlan(plan) && Regular(f.table) && ScanCut(plan, f, cut)
    ensures Stack(plan.schema, RenderEach(c, plan, f, FilterEach(c.dates, plan.policyFilters, cut))) == ScanResult(c, plan, f)
  {
    var fields := ProjectFields(f.table.fields, plan.projected);
    var filtered := FilterEach(c.dates, plan.policyFilters, cut);
    forall j | 0 <= j < |cut| ensures Shaped(fields, filtered[j]) {
      FilterPassingShaped(c.dates, plan.policyFilters, fields, cut[j]);
    }
    RenderStack(c, plan, f, fields, filtered);
    BatchesSelect(c.dates, f.table, FirstPresent(f.table.fields, plan.projected), plan.userFilters + plan.policyFilters,
                  plan.policyFilters, plan.projected, cut);
    RenderProject(c, plan, f, FilterBatch(AllRows(f.table), ScanSelection(c, plan, f)));
  }

  /** A batch that succeeds, and what is delivered for it. */
  predicate DeliveredFor(c: Context, plan: Plan, f: StoredFile, b: Batch, out: Batch)
    requires GoodPlan(plan)
  {
    && WellFormed(b)
    && BatchSucceeds(c, plan, f, b)
    && out == Rendered(c, plan, f, FilterPassing(c.dates, plan.policyFilters, b))
  }

  /** The first batches have been delivered. */
  predicate DeliveredSoFar(c: Context, plan: Plan, f: StoredFile, cut: seq<Batch>, delivered: seq<Batch>)
    requires GoodPlan(plan)
  {
    && |delivered| <= |cut|
    && forall j {:trigger delivered[j]} :: 0 <= j < |delivered| ==> DeliveredFor(c, plan, f, cut[j], delivered[j])
  }

  lemma AllDelivered(c: Context, plan: Plan, f: StoredFile, cut: seq<Batch>, delivered: seq<Batch>)
    requires GoodPlan(plan) && Regular(f.table) && ScanCut(plan, f, cut)
    requires DeliveredSoFar(c, plan, f, cut, delivered) && |delivered| == |cut|
    ensures AllSucceed(c, plan, f, cut)
    ensures forall j :: 0 <= j < |delivered| ==> |delivered[j].columns| == |plan.schema|
    ensures Stack(plan.schema, delivered) == ScanResult(c, plan, f)
  {
    forall j | 0 <= j < |cut| ensures WellFormed(cut[j]) && BatchSucceeds(c, plan, f, cut[j]) {
      assert DeliveredFor(c, plan, f, cut[j], delivered[j]);
    }
    DeliveredIsResult(c, plan, f, cut);
    assert delivered == RenderEach(c, plan, f, FilterEach(c.dates, plan.policyFilters, cut));
  }

  lemma NextDelivered(c: Context, plan: Plan, f: StoredFile, cut: seq<Batch>, delivered: seq<Batch>, out: Batch)
    requires GoodPlan(plan) && DeliveredSoFar(c, plan, f, cut, delivered) && |delivered| < |cut|
    requires DeliveredFor(c, plan, f, cut[|delivered|], out)
    ensures DeliveredSoFar(c, plan, f, cut, delivered + [out])
  {
  }

  /** What is delivered has the columns of the plan. */
  lemma DeliveredWidth(c: Context, plan: Plan, f: StoredFile, cut: seq<Batch>, delivered: seq<Batch>)
    requires GoodPlan(plan) && DeliveredSoFar(c, plan, f, cut, delivered)
    ensures forall j :: 0 <= j < |delivered| ==> |delivered[j].columns| == |plan.schema|
  {
  }

  /**
   The loop over the batches of a file: batches are delivered up to the first error, and without an
   error they are the simple specification's rows and cells.
   */
  method ScanFile(c: Context, plan: Plan, f: StoredFile, cut: seq<Batch>) returns (delivered: seq<Batch>, error: Option<ScanError>)
    requires GoodPlan(plan) && Regular(f.table) && ScanCut(plan, f, cut)
    ensures DeliveredSoFar(c, plan, f, cut, delivered)
    ensures forall j :: 0 <= j < |delivered| ==> |delivered[j].columns| == |plan.schema|
    ensures error.Some? ==> |delivered| < |cut| && WellFormed(cut[|delivered|]) && !BatchSucceeds(c, plan, f, cut[|delivered|])
    ensures error.None? ==> AllSucceed(c, plan, f, cut) && Stack(plan.schema, delivered) == ScanResult(c, plan, f)
  {
    delivered := [];
    for j := 0 to |cut|
      invariant |delivered| == j && DeliveredSoFar(c, plan, f, cut, delivered)
    {
      assert Shaped(ProjectFields(f.table.fields, plan.projected), cut[j]);
      var out := ProcessBatch(c, plan, f, cut[j]);
      if out.Err? {
        DeliveredWidth(c, plan, f, cut, delivered);
        return delivered, Some(out.error);
      }
      NextDelivered(c, plan, f, cut, delivered, out.value);
      delivered := delivered + [out.value];
    }
    AllDelivered(c, plan, f, cut, delivered);
    return delivered, None;
  }

  // ---------------------------------------------------------------- the sandwich

  lemma SomeBatch(f: File, names: seq<string>, columnName: string, pruners: seq<Predicate>, cut: seq<Batch>, i: nat)
    requires Regular(f) && CutOf(f, names, columnName, pruners, cut)
    requires i < AllRows(f).rows && ReadMask(f, columnName, pruners)[i]
    ensures cut != []
  {
    ReadIsMasked(f, columnName, pruners);
    KeptCounts(ReadMask(f, columnName, pruners), i);
  }

  /** A predicate that applies to a projected batch can be evaluated on the file. */
  lemma AppliesToFile(dates: Calendar, p: Predicate, fields: seq<Field>, names: seq<string>, b: Batch)
    requires Shaped(ProjectFields(fields, names), b) && p.column in names && Applies(dates, p, b)
    ensures Evaluable(dates, p, fields)
  {
    var none := NoRows(fields);
    ProjectShaped(fields, none, names);
    SameIndex(ProjectFields(fields, names), b, Project(none, names), p.column);
    ProjectLookup(none, names, p.column);
    ColumnOfField(fields, none, p.column);
  }

  /**
   The sandwich, for every file and every row of it: a scan without errors shows only rows that
   satisfy every policy filter, and it shows every row that satisfies the policy filters and the
   caller's whole expression, whatever the parts mean that could not be pushed down.
   */
  lemma ScanIsSandwiched(c: Context, plan: Plan, f: StoredFile, cut: seq<Batch>, e: F.Expr, other: F.Expr -> bool, i: nat)
    requires GoodPlan(plan) && ValidFile(f.table) && ScanCut(plan, f, cut) && AllSucceed(c, plan, f, cut)
    requires F.Flatten(e) == Some(plan.userFilters)
    requires forall j :: 0 <= j < |plan.policyFilters| ==> Faithful(c.dates, plan.policyFilters[j], f.table.fields)
    requires forall j :: 0 <= j < |plan.userFilters + plan.policyFilters| ==>
               PrunableAt(c.dates, (plan.userFilters + plan.policyFilters)[j], f.table.fields)
    requires exists name :: name in plan.projected && FieldIndex(f.table.fields, name).Some?
    requires i < AllRows(f.table).rows
    ensures ScanSelection(c, plan, f)[i] ==> SatisfiesAll(c.dates, plan.policyFilters, f.table.fields, AllRows(f.table), i)
    ensures SatisfiesAll(c.dates, plan.policyFilters, f.table.fields, AllRows(f.table), i) &&
            F.Means(c.dates, e, RowOf(f.table.fields, AllRows(f.table), i), other) ==>
              ScanSelection(c, plan, f)[i]
  {
    var column, user, policy := FirstPresent(f.table.fields, plan.projected), plan.userFilters, plan.policyFilters;
    if ScanSelection(c, plan, f)[i] {
      SelectedRowsSatisfyPolicy(c.dates, f.table, column, user + policy, policy, i);
    } else if SatisfiesAll(c.dates, policy, f.table.fields, AllRows(f.table), i) {
      if F.Means(c.dates, e, RowOf(f.table.fields, AllRows(f.table), i), other) {
        var name :| name in plan.projected && FieldIndex(f.table.fields, name).Some?;
        FirstPresentIsPresent(f.table.fields, plan.projected, name);
        WantedRowsAreRead(c.dates, f.table, column, user, policy, e, other, i);
        SomeBatch(f.table, plan.projected, column, user + policy, cut, i);
        ReadRowsPass(c, plan, f, cut, i);
      }
    }
  }

  lemma ReadRowsPass(c: Context, plan: Plan, f: StoredFile, cut: seq<Batch>, i: nat)
    requires GoodPlan(plan) && ValidFile(f.table) && ScanCut(plan, f, cut) && AllSucceed(c, plan, f, cut) && cut != []
    requires forall j :: 0 <= j < |plan.policyFilters| ==> Faithful(c.dates, plan.policyFilters[j], f.table.fields)
    requires i < AllRows(f.table).rows
    requires SatisfiesAll(c.dates, plan.policyFilters, f.table.fields, AllRows(f.table), i)
    ensures PassesAll(c.dates, plan.policyFilters, AllRows(f.table), i)
  {
    assert BatchSucceeds(c, plan, f, cut[0]);
    forall j | 0 <= j < |plan.policyFilters| ensures Passes(c.dates, plan.policyFilters[j], AllRows(f.table), i) {
      var p := plan.policyFilters[j];
      assert Applies(c.dates, p, cut[0]);
      AppliesToFile(c.dates, p, f.table.fields, plan.projected, cut[0]);
      PassesIsSatisfies(c.dates, p, f.table.fields, AllRows(f.table), i);
    }
  }

  /** Without any column of the file in the projection, nothing of the file is shown. */
  lemma NothingProjectedNothingShown(c: Context, plan: Plan, f: StoredFile)
    requires GoodPlan(plan) && Regular(f.table)
    requires FieldIndex(f.table.fields, "").None?
    requires forall name :: name in plan.projected ==> FieldIndex(f.table.fields, name).None?
    ensures ScanResult(c, plan, f).rows == 0
  {
    NonePresent(f.table.fields, plan.projected);
    var keep := ScanSelection(c, plan, f);
    KeepNone(keep, keep);
  }

  lemma {:induction false} NonePresent(fields: seq<Field>, names: seq<string>)
    requires forall name :: name in names ==> FieldIndex(fields, name).None?
    ensures FirstPresent(fields, names) == ""
  {
    if names != [] {
      NonePresent(fields, names[1..]);
    }
  }

  // ---------------------------------------------------------------- padding

  /**
   When nulls can stand for a column that a file lacks: with a field of the contract, if it may be
   null or there are no rows; without one, if the first file lacks the column too or has it as nulls.
   */
  predicate PaddingFits(unified: Option<seq<Field>>, first: seq<Field>, name: string, rows: nat) {
    match UnifiedField(unified, name)
    case Some(field) => field.nullable || rows == 0
    case None =>
      match FieldIndex(first, name)
      case Some(i) => first[i].ctype == TNull && (first[i].nullable || rows == 0)
      case None => true
  }

  lemma PaddingFitsIff(c: Context, plan: Plan, f: StoredFile, first: seq<Field>, b: Batch, name: string)
    requires Lookup(b, name).None?
    ensures ColumnFits(SchemaField(plan.unified, first, name), OutputColumn(c, plan, f, b, name)) <==>
            PaddingFits(plan.unified, first, name, b.rows)
  {
    if b.rows > 0 {
      assert Nulls(b.rows)[0] == Null;
    }
  }

  /** The schema of the plan was made from the contract and the first file. */
  predicate SchemaFrom(plan: Plan, first: seq<Field>)
    requires GoodPlan(plan)
  {
    forall k {:trigger plan.schema[k]} :: 0 <= k < |plan.schema| ==>
      plan.schema[k] == SchemaField(plan.unified, first, plan.requested[k])
  }

  /** What a requested column needs to be delivered with the rows that are left of a batch. */
  predicate ColumnSucceeds(c: Context, plan: Plan, f: StoredFile, first: seq<Field>, left: Batch, name: string) {
    if Lookup(left, name).Some? then
      Treat(c, f, name).Ok? && ColumnFits(SchemaField(plan.unified, first, name), OutputColumn(c, plan, f, left, name))
    else PaddingFits(plan.unified, first, name, left.rows)
  }

  /**
   A batch is delivered exactly when all filters apply, something requested is visible, every
   present column may be read and fits, and every missing one can be padded.
   */
  lemma BatchSucceedsIff(c: Context, plan: Plan, f: StoredFile, first: seq<Field>, b: Batch)
    requires GoodPlan(plan) && WellFormed(b) && SchemaFrom(plan, first)
    ensures var left := FilterPassing(c.dates, plan.policyFilters, b);
            BatchSucceeds(c, plan, f, b) <==>
              && AllApply(c.dates, plan.policyFilters, b)
              && plan.requested != []
              && (plan.projected != plan.requested ==> exists k :: 0 <= k < |plan.requested| && Lookup(b, plan.requested[k]).Some?)
              && forall k :: 0 <= k < |plan.requested| ==> ColumnSucceeds(c, plan, f, first, left, plan.requested[k])
  {
    var left := FilterPassing(c.dates, plan.policyFilters, b);
    var columns := OutputColumns(c, plan, f, left);
    FilteredLookups(plan, b, Passing(c.dates, plan.policyFilters, b));
    forall k | 0 <= k < |plan.requested|
      ensures ColumnSucceeds(c, plan, f, first, left, plan.requested[k]) <==>
              (Lookup(b, plan.requested[k]).Some? ==> Treat(c, f, plan.requested[k]).Ok?) && ColumnFits(plan.schema[k], columns[k])
    {
      assert columns[k] == OutputColumn(c, plan, f, left, plan.requested[k]);
      if Lookup(left, plan.requested[k]).None? {
        PaddingFitsIff(c, plan, f, first, left, plan.requested[k]);
      }
    }
  }

  /** Without a contract, a column that the first file has cannot be padded in a later one. */
  lemma PaddingNeedsContract(c: Context, plan: Plan, f: StoredFile, first: seq<Field>, b: Batch, k: nat)
    requires GoodPlan(plan) && WellFormed(b) && k < |plan.requested| && plan.unified.None?
    requires plan.schema[k] == SchemaField(plan.unified, first, plan.requested[k])
    requires FieldIndex(first, plan.requested[k]).Some? && plan.schema[k].ctype != TNull
    requires Lookup(b, plan.requested[k]).None?
    ensures !BatchSucceeds(c, plan, f, b)
  {
    var left := FilterPassing(c.dates, plan.policyFilters, b);
    LookupAfterFilter(b, Passing(c.dates, plan.policyFilters, b), plan.requested[k]);
    assert OutputColumns(c, plan, f, left)[k] == OutputColumn(c, plan, f, left, plan.requested[k]);
  }

  /** With a contract, a required column that a file lacks fails on every batch that has a row left. */
  lemma RequiredColumnCannotBePadded(c: Context, plan: Plan, f: StoredFile, first: seq<Field>, b: Batch, k: nat)
    requires GoodPlan(plan) && WellFormed(b) && SchemaFrom(plan, first) && k < |plan.requested|
    requires Lookup(b, plan.requested[k]).None? && FilterPassing(c.dates, plan.policyFilters, b).rows > 0
    requires UnifiedField(plan.unified, plan.requested[k]).Some? && !UnifiedField(plan.unified, plan.requested[k]).value.nullable
    ensures !BatchSucceeds(c, plan, f, b)
  {
    BatchSucceedsIff(c, plan, f, first, b);
    LookupAfterFilter(b, Passing(c.dates, plan.policyFilters, b), plan.requested[k]);
    assert !ColumnSucceeds(c, plan, f, first, FilterPassing(c.dates, plan.policyFilters, b), plan.requested[k]);
  }
}
