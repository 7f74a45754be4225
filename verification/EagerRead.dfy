/**
 Reading one column at once: filter every batch, concatenate what is left, then mask. It returns the
 same cells as a scan delivers for the column, whichever way either of them cuts the rows.
 */
module EagerRead {
  import opened Sequences
  import opened FilterSyntax
  import opened Comparisons
  import opened RowFilters
  import opened Tables
  import opened Pruning
  import opened FileRows
  import opened Governance
  import opened ReadPath
  import opened FileScan

  datatype ReadError =
    | ReadFilterFailed(filter: FilterError)
    | ColumnNotFound
    | NoBatchesFound
    | ReadRefused(error: GovernanceError)

  function CellsOf(b: Batch, name: string): seq<Cell> {
    match Lookup(b, name) case Some(col) => col.cells case None => []
  }

  /** The column and the columns of the filters. */
  function ReadNames(name: string, filters: seq<Predicate>): seq<string> {
    [name] + Map(filters, (p: Predicate) => p.column)
  }

  function ReadSelection(c: Context, f: StoredFile, name: string, filters: seq<Predicate>): (r: seq<bool>)
    requires Regular(f.table)
    ensures |r| == AllRows(f.table).rows
  {
    Selected(c.dates, f.table, name, filters, filters)
  }

  /** The column of the selected rows. */
  function SelectedCells(c: Context, f: StoredFile, name: string, filters: seq<Predicate>): seq<Cell>
    requires Regular(f.table)
  {
    CellsOf(FilterBatch(AllRows(f.table), ReadSelection(c, f, name, filters)), name)
  }

  /** The simple specification: filter the rows of the file, then mask the column. */
  function ReadResult(c: Context, f: StoredFile, name: string, filters: seq<Predicate>): seq<Cell>
    requires Regular(f.table) && FieldIndex(f.table.fields, name).Some?
  {
    var t := f.table.fields[FieldIndex(f.table.fields, name).value].ctype;
    MaskCells(c.digest, t, HowToShow(c, f, name), SelectedCells(c, f, name, filters))
  }

  lemma CellsAppend(fields: seq<Field>, a: Batch, b: Batch, name: string)
    requires Shaped(fields, a) && Shaped(fields, b)
    ensures CellsOf(Append(a, b), name) == CellsOf(a, name) + CellsOf(b, name)
  {
    AppendShaped(fields, a, b);
    SameIndex(fields, Append(a, b), a, name);
    SameIndex(fields, Append(a, b), b, name);
  }

  /** The cells of a column, batch after batch. */
  function GatherCells(bs: seq<Batch>, name: string): seq<Cell> {
    if bs == [] then [] else GatherCells(bs[..|bs| - 1], name) + CellsOf(bs[|bs| - 1], name)
  }

  function TotalRows(bs: seq<Batch>): nat {
    if bs == [] then 0 else TotalRows(bs[..|bs| - 1]) + bs[|bs| - 1].rows
  }

  lemma GatherSnoc(bs: seq<Batch>, b: Batch, name: string)
    ensures GatherCells(bs + [b], name) == GatherCells(bs, name) + CellsOf(b, name)
    ensures TotalRows(bs + [b]) == TotalRows(bs) + b.rows
  {
    assert (bs + [b])[..|bs|] == bs;
  }

  /** The column of the stack is the columns of the batches, one after the other. */
  lemma {:induction false} StackCells(fields: seq<Field>, bs: seq<Batch>, name: string)
    requires AllShaped(fields, bs)
    ensures CellsOf(Stack(fields, bs), name) == GatherCells(bs, name) && Stack(fields, bs).rows == TotalRows(bs)
  {
    if bs == [] {
      NoCells(fields, name);
    } else {
      var n := |bs| - 1;
      StackCells(fields, bs[..n], name);
      StackShaped(fields, bs[..n]);
      CellsAppend(fields, Stack(fields, bs[..n]), bs[n], name);
    }
  }

  lemma NoCells(fields: seq<Field>, name: string)
    ensures CellsOf(NoRows(fields), name) == []
  {
  }

  lemma ReadNamesCover(name: string, filters: seq<Predicate>)
    ensures name in ReadNames(name, filters)
    ensures AllIn(filters, ReadNames(name, filters))
  {
    var names := ReadNames(name, filters);
    assert names[0] == name;
    forall j | 0 <= j < |filters| ensures filters[j].column in names {
      assert names[j + 1] == filters[j].column;
    }
  }

  lemma FilteredShaped(dates: Calendar, filters: seq<Predicate>, fields: seq<Field>, cut: seq<Batch>)
    requires AllShaped(fields, cut)
    ensures AllShaped(fields, FilterEach(dates, filters, cut))
  {
    forall j | 0 <= j < |cut| ensures Shaped(fields, FilterPassing(dates, filters, cut[j])) {
      FilterPassingShaped(dates, filters, fields, cut[j]);
    }
  }

  /** In the end what is gathered are the cells of the selected rows of the file. */
  lemma GatheredIsSelected(c: Context, f: StoredFile, name: string, filters: seq<Predicate>, cut: seq<Batch>)
    requires Regular(f.table) && CutOf(f.table, ReadNames(name, filters), name, filters, cut)
    ensures forall j :: 0 <= j < |cut| ==> WellFormed(cut[j])
    ensures GatherCells(FilterEach(c.dates, filters, cut), name) == SelectedCells(c, f, name, filters)
    ensures TotalRows(FilterEach(c.dates, filters, cut)) == Count(ReadSelection(c, f, name, filters))
  {
    var names := ReadNames(name, filters);
    var fields := ProjectFields(f.table.fields, names);
    ReadNamesCover(name, filters);
    FilteredShaped(c.dates, filters, fields, cut);
    StackCells(fields, FilterEach(c.dates, filters, cut), name);
    BatchesSelect(c.dates, f.table, name, filters, filters, names, cut);
    ProjectLookup(FilterBatch(AllRows(f.table), ReadSelection(c, f, name, filters)), names, name);
  }

  lemma SelectedCellsFit(c: Context, f: StoredFile, name: string, filters: seq<Predicate>)
    requires Regular(f.table) && FieldIndex(f.table.fields, name).Some?
    ensures var t := f.table.fields[FieldIndex(f.table.fields, name).value].ctype;
            var cells := SelectedCells(c, f, name, filters);
            forall i :: 0 <= i < |cells| ==> CellFits(t, cells[i])
  {
    var keep := ReadSelection(c, f, name, filters);
    FilterKeepsForm(AllRows(f.table), keep);
    ColumnOfField(f.table.fields, FilterBatch(AllRows(f.table), keep), name);
  }

  predicate AllApplyToCut(c: Context, filters: seq<Predicate>, cut: seq<Batch>) {
    forall j {:trigger cut[j]} :: 0 <= j < |cut| ==> AllApply(c.dates, filters, cut[j])
  }

  /** The column of what is left of a batch. */
  method ReadBatch(c: Context, f: StoredFile, name: string, filters: seq<Predicate>, names: seq<string>, b: Batch)
    returns (r: Result<seq<Cell>, ReadError>)
    requires Shaped(ProjectFields(f.table.fields, names), b)
    requires name in names && FieldIndex(f.table.fields, name).Some?
    ensures r.Ok? <==> AllApply(c.dates, filters, b)
    ensures r.Ok? ==> var left := FilterPassing(c.dates, filters, b);
                      r.value == CellsOf(left, name) && |r.value| == left.rows
    ensures r.Err? ==> r.error.ReadFilterFailed? && FirstFailure(c.dates, filters, b, r.error.filter)
  {
    var filtered := ApplyRowFilters(c.dates, filters, b);
    if filtered.Err? {
      return Err(ReadFilterFailed(filtered.error));
    }
    PassingIsRowMask(c.dates, filters, b);
    FilterPassingShaped(c.dates, filters, ProjectFields(f.table.fields, names), b);
    ColumnIsRead(f.table.fields, names, filtered.value, name);
    return Ok(filtered.value.columns[ColumnIndex(filtered.value, name).value].cells);
  }

  predicate AllFormed(cut: seq<Batch>) {
    forall j {:trigger cut[j]} :: 0 <= j < |cut| ==> WellFormed(cut[j])
  }

  lemma FilterEachSnoc(dates: Calendar, filters: seq<Predicate>, cut: seq<Batch>, n: nat)
    requires AllFormed(cut) && n < |cut|
    ensures FilterEach(dates, filters, cut[..n + 1]) == FilterEach(dates, filters, cut[..n]) + [FilterPassing(dates, filters, cut[n])]
  {
  }

  lemma AppliesNext(c: Context, filters: seq<Predicate>, cut: seq<Batch>, n: nat)
    requires n < |cut| && AllApplyToCut(c, filters, cut[..n]) && AllApply(c.dates, filters, cut[n])
    ensures AllApplyToCut(c, filters, cut[..n + 1])
  {
    assert cut[..n + 1] == cut[..n] + [cut[n]];
  }

  /** The first batch to which a filter does not apply fails the read. */
  ghost predicate FirstFailureIn(c: Context, filters: seq<Predicate>, cut: seq<Batch>, error: FilterError) {
    exists n :: 0 <= n < |cut| && AllApplyToCut(c, filters, cut[..n]) && FirstFailure(c.dates, filters, cut[n], error)
  }

  /** Why a column of the file is not read: its filters come first, then the rows that are left, then access. */
  ghost predicate ReadFailsWith(c: Context, f: StoredFile, name: string, filters: seq<Predicate>, cut: seq<Batch>, error: ReadError)
    requires Regular(f.table)
  {
    match error
    case ReadFilterFailed(filter) => FirstFailureIn(c, filters, cut, filter)
    case NoBatchesFound => AllApplyToCut(c, filters, cut) && Count(ReadSelection(c, f, name, filters)) == 0
    case ReadRefused(refusal) =>
      AllApplyToCut(c, filters, cut) && Count(ReadSelection(c, f, name, filters)) > 0 && Treat(c, f, name) == Err(refusal)
    case ColumnNotFound => false
  }

  /** The loop over the batches: the column of every batch that has a row left. */
  method CollectCells(c: Context, f: StoredFile, name: string, filters: seq<Predicate>, names: seq<string>, cut: seq<Batch>)
    returns (r: Result<seq<Cell>, ReadError>, found: bool)
    requires AllShaped(ProjectFields(f.table.fields, names), cut) && AllFormed(cut)
    requires name in names && FieldIndex(f.table.fields, name).Some?
    ensures r.Ok? <==> AllApplyToCut(c, filters, cut)
    ensures r.Ok? ==> r.value == GatherCells(FilterEach(c.dates, filters, cut), name)
    ensures r.Ok? ==> (found <==> TotalRows(FilterEach(c.dates, filters, cut)) > 0)
    ensures r.Err? ==> r.error.ReadFilterFailed? && FirstFailureIn(c, filters, cut, r.error.filter)
  {
    var cells := [];
    found := false;
    ghost var left: seq<Batch> := [];
    for n := 0 to |cut|
      invariant AllApplyToCut(c, filters, cut[..n])
      invariant left == FilterEach(c.dates, filters, cut[..n])
      invariant cells == GatherCells(left, name) && (found <==> TotalRows(left) > 0)
    {
      var read := ReadBatch(c, f, name, filters, names, cut[n]);
      if read.Err? {
        return Err(read.error), false;
      }
      AppliesNext(c, filters, cut, n);
      FilterEachSnoc(c.dates, filters, cut, n);
      GatherSnoc(left, FilterPassing(c.dates, filters, cut[n]), name);
      left := left + [FilterPassing(c.dates, filters, cut[n])];
      assert read.value == [] ==> cells + read.value == cells;
      if read.value != [] {
        cells := cells + read.value;
        found := true;
      }
    }
    assert cut[..|cut|] == cut;
    return Ok(cells), found;
  }

  /** When a column that the file has is read: all filters apply, a row is left, the reader may see it. */
  predicate ReadSucceeds(c: Context, f: StoredFile, name: string, filters: seq<Predicate>, cut: seq<Batch>)
    requires Regular(f.table)
  {
    AllApplyToCut(c, filters, cut) && Count(ReadSelection(c, f, name, filters)) > 0 && Treat(c, f, name).Ok?
  }

  /** The end of a read: the reader's access is decided, and the selected cells are masked. */
  method MaskSelected(c: Context, f: StoredFile, name: string, filters: seq<Predicate>, cells: seq<Cell>)
    returns (r: Result<seq<Cell>, ReadError>)
    requires Regular(f.table) && FieldIndex(f.table.fields, name).Some? && cells == SelectedCells(c, f, name, filters)
    ensures r.Ok? <==> Treat(c, f, name).Ok?
    ensures r.Ok? ==> r.value == ReadResult(c, f, name, filters)
    ensures r.Err? ==> r.error == ReadRefused(Treat(c, f, name).error)
  {
    var decision := Treat(c, f, name);
    if decision.Err? {
      return Err(ReadRefused(decision.error));
    }
    SelectedCellsFit(c, f, name, filters);
    var t := f.table.fields[FieldIndex(f.table.fields, name).value].ctype;
    var masked := MaskColumn(c.digest, t, decision.value, cells);
    return Ok(masked);
  }

  method ReadPresent(c: Context, f: StoredFile, name: string, filters: seq<Predicate>, cut: seq<Batch>)
    returns (r: Result<seq<Cell>, ReadError>)
    requires Regular(f.table) && FieldIndex(f.table.fields, name).Some?
    requires CutOf(f.table, ReadNames(name, filters), name, filters, cut)
    ensures r.Ok? <==> ReadSucceeds(c, f, name, filters, cut)
    ensures r.Ok? ==> r.value == ReadResult(c, f, name, filters)
    ensures r.Err? ==> ReadFailsWith(c, f, name, filters, cut, r.error)
  {
    ReadNamesCover(name, filters);
    assert AllShaped(ProjectFields(f.table.fields, ReadNames(name, filters)), cut);
    var cells, found := CollectCells(c, f, name, filters, ReadNames(name, filters), cut);
    if cells.Err? {
      return Err(cells.error);
    }
    GatheredIsSelected(c, f, name, filters, cut);
    if !found {
      return Err(NoBatchesFound);
    }
    r := MaskSelected(c, f, name, filters, cells.value);
  }

  /** A column that only the contract has comes back as unfiltered nulls. */
  method ReadColumn(c: Context, f: StoredFile, unified: Option<seq<Field>>, name: string, filters: seq<Predicate>, cut: seq<Batch>)
    returns (r: Result<seq<Cell>, ReadError>)
    requires Regular(f.table)
    requires FieldIndex(f.table.fields, name).Some? ==> CutOf(f.table, ReadNames(name, filters), name, filters, cut)
    ensures FieldIndex(f.table.fields, name).Some? ==>
              && (r.Ok? <==> ReadSucceeds(c, f, name, filters, cut))
              && (r.Ok? ==> r.value == ReadResult(c, f, name, filters))
              && (r.Err? ==> ReadFailsWith(c, f, name, filters, cut, r.error))
    ensures FieldIndex(f.table.fields, name).None? ==>
              r == if UnifiedField(unified, name).Some? then Ok(Nulls(AllRows(f.table).rows)) else Err(ColumnNotFound)
  {
    if FieldIndex(f.table.fields, name).Some? {
      r := ReadPresent(c, f, name, filters, cut);
    } else if UnifiedField(unified, name).Some? {
      r := Ok(Nulls(AllRows(f.table).rows));
    } else {
      r := Err(ColumnNotFound);
    }
  }

  /** The column is part of what is read. */
  lemma ColumnIsRead(fields: seq<Field>, names: seq<string>, b: Batch, name: string)
    requires Shaped(ProjectFields(fields, names), b) && name in names && FieldIndex(fields, name).Some?
    ensures Lookup(b, name).Some? && |CellsOf(b, name)| == b.rows
  {
    var none := NoRows(fields);
    ProjectShaped(fields, none, names);
    SameIndex(ProjectFields(fields, names), b, Project(none, names), name);
    ProjectLookup(none, names, name);
    ColumnOfField(fields, none, name);
  }

  /**
   Eager is lazy: for a column that the file has and no filters of the caller's own, what `read`
   returns is the column of what a scan delivers.
   */
  lemma EagerIsLazy(c: Context, plan: Plan, f: StoredFile, k: nat)
    requires GoodPlan(plan) && Regular(f.table) && k < |plan.requested| && plan.userFilters == []
    requires FieldIndex(f.table.fields, plan.requested[k]).Some?
    ensures ScanResult(c, plan, f).columns[k].cells == ReadResult(c, f, plan.requested[k], plan.policyFilters)
    ensures ScanResult(c, plan, f).rows == Count(ReadSelection(c, f, plan.requested[k], plan.policyFilters))
  {
    var name, policy := plan.requested[k], plan.policyFilters;
    FirstPresentIsPresent(f.table.fields, plan.projected, name);
    assert [] + policy == policy;
    var selected := FilterBatch(AllRows(f.table), ReadSelection(c, f, name, policy));
    FilterKeepsForm(AllRows(f.table), ReadSelection(c, f, name, policy));
    ColumnOfField(f.table.fields, selected, name);
    assert OutputColumns(c, plan, f, selected)[k] == OutputColumn(c, plan, f, selected, name);
  }

  /** For a column that the file lacks, `read` answers one null for every row, before it filters. */
  predicate MissingColumnAgrees(c: Context, plan: Plan, f: StoredFile, k: nat)
    requires GoodPlan(plan) && Regular(f.table) && k < |plan.requested|
  {
    ScanResult(c, plan, f).columns[k].cells == Nulls(AllRows(f.table).rows)
  }

  lemma AgreesWhereAllIsShown(c: Context, plan: Plan, f: StoredFile, k: nat)
    requires GoodPlan(plan) && Regular(f.table) && k < |plan.requested|
    requires FieldIndex(f.table.fields, plan.requested[k]).None?
    ensures MissingColumnAgrees(c, plan, f, k) <==>
            forall i :: 0 <= i < AllRows(f.table).rows ==> ScanSelection(c, plan, f)[i]
  {
    var keep := ScanSelection(c, plan, f);
    var selected := FilterBatch(AllRows(f.table), keep);
    FilterKeepsForm(AllRows(f.table), keep);
    ColumnOfField(f.table.fields, selected, plan.requested[k]);
    assert OutputColumns(c, plan, f, selected)[k] == OutputColumn(c, plan, f, selected, plan.requested[k]);
    assert |ScanResult(c, plan, f).columns[k].cells| == Count(keep);
    CountsAllIff(keep);
  }

  lemma {:induction false} NothingIsPruned(f: File, n: nat, i: nat)
    requires Regular(f) && n <= |f.groups| && i < RowsUpTo(f, n).rows
    ensures NotPruned(f, [], n)[i]
  {
    if i < RowsUpTo(f, n - 1).rows {
      NothingIsPruned(f, n - 1, i);
    }
  }

  /** One row of nulls, without statistics. */
  function NullRow(fields: seq<Field>): (r: Batch)
    ensures Shaped(fields, r) && r.rows == 1
  {
    Batch(seq(|fields|, k requires 0 <= k < |fields| => Column(fields[k], [Null])), 1)
  }

  function NullFile(fields: seq<Field>): (r: StoredFile)
    ensures r.table.fields == fields && Regular(r.table)
  {
    StoredFile(File(fields, [RowGroup(NullRow(fields), seq(|fields|, k => None))]), {}, [])
  }

  lemma NullRowIsNotShown(c: Context, plan: Plan, fields: seq<Field>)
    requires plan.policyFilters != [] || FieldIndex(fields, FirstPresent(fields, plan.projected)).None?
    ensures AllRows(NullFile(fields).table).rows == 1 && !ScanSelection(c, plan, NullFile(fields))[0]
  {
    var f := NullFile(fields).table;
    OnlyGroup(fields, f.groups[0]);
    if plan.policyFilters != [] {
      assert !Passes(c.dates, plan.policyFilters[0], NullRow(fields), 0);
      assert !PassesAll(c.dates, plan.policyFilters, NullRow(fields), 0);
    }
  }

  lemma AllIsShown(c: Context, plan: Plan, f: StoredFile, i: nat)
    requires Regular(f.table) && i < AllRows(f.table).rows && plan.userFilters == [] && plan.policyFilters == []
    requires FieldIndex(f.table.fields, FirstPresent(f.table.fields, plan.projected)).Some?
    ensures ScanSelection(c, plan, f)[i]
  {
    assert plan.userFilters + plan.policyFilters == [];
    NothingIsPruned(f.table, |f.table.groups|, i);
  }

  /**
   For a column that only the contract has, and no filters of the caller, `read` and scan agree on
   every file with these fields exactly when the policy has no filters and the projection has a
   column of the file.
   */
  lemma MissingColumnAgreesIff(c: Context, plan: Plan, fields: seq<Field>, k: nat)
    requires GoodPlan(plan) && k < |plan.requested| && plan.userFilters == []
    requires FieldIndex(fields, plan.requested[k]).None?
    ensures (forall f: StoredFile :: f.table.fields == fields && Regular(f.table) ==> MissingColumnAgrees(c, plan, f, k)) <==>
            plan.policyFilters == [] && FieldIndex(fields, FirstPresent(fields, plan.projected)).Some?
  {
    if plan.policyFilters == [] && FieldIndex(fields, FirstPresent(fields, plan.projected)).Some? {
      forall f: StoredFile | f.table.fields == fields && Regular(f.table) ensures MissingColumnAgrees(c, plan, f, k) {
        forall i | 0 <= i < AllRows(f.table).rows ensures ScanSelection(c, plan, f)[i] {
          AllIsShown(c, plan, f, i);
        }
        AgreesWhereAllIsShown(c, plan, f, k);
      }
    } else {
      NullRowIsNotShown(c, plan, fields);
      AgreesWhereAllIsShown(c, plan, NullFile(fields), k);
      assert !MissingColumnAgrees(c, plan, NullFile(fields), k);
    }
  }

  /** For instance, with the filter `v == 1` and a null v, `read` of a contract column w gives a null and the scan nothing. */
  lemma NullRowDisagrees(c: Context)
    ensures var v, w := Field("v", TInt64, true), Field("w", TInt64, true);
            var plan := Plan(["w"], ["w", "v"], [Predicate(Eq, "v", Int64(1))], [], [w], Some([v, w]));
            GoodPlan(plan) && !MissingColumnAgrees(c, plan, NullFile([v]), 0)
  {
    var v, w := Field("v", TInt64, true), Field("w", TInt64, true);
    var plan := Plan(["w"], ["w", "v"], [Predicate(Eq, "v", Int64(1))], [], [w], Some([v, w]));
    assert plan.projected[0] == "w" && plan.projected[1] == "v";
    NullRowIsNotShown(c, plan, [v]);
    AgreesWhereAllIsShown(c, plan, NullFile([v]), 0);
  }

  lemma {:induction false} CountsAllIff(keep: seq<bool>)
    ensures Count(keep) <= |keep|
    ensures Count(keep) == |keep| <==> forall i :: 0 <= i < |keep| ==> keep[i]
  {
    if keep != [] {
      CountsAllIff(keep[1..]);
      assert forall i :: 0 < i < |keep| ==> keep[i] == keep[1..][i - 1];
      if Count(keep) == |keep| {
        assert keep[0];
      } else if keep[0] {
        var i :| 0 <= i < |keep[1..]| && !keep[1..][i];
        assert !keep[i + 1];
      }
    }
  }
}
