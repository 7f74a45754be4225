/**
 The rows of a file: reading the groups that the statistics leave over and filtering what was read
 is selecting rows of the whole file, and the selection is sandwiched between what the policy
 allows and what the caller asked for.
 */
module FileRows {
  import opened Sequences
  import opened FilterSyntax
  import opened Comparisons
  import opened RowFilters
  import opened Tables
  import opened Pruning
  import F = FilterTree

  // ---------------------------------------------------------------- positions under a mask

  /** The position that the k-th kept element comes from. */
  function Source(keep: seq<bool>, k: nat): (i: nat)
    requires k < Count(keep)
    ensures i < |keep| && keep[i]
  {
    if keep[0] && k == 0 then 0 else 1 + Source(keep[1..], if keep[0] then k - 1 else k)
  }

  lemma {:induction false} FilterAt<T>(xs: seq<T>, keep: seq<bool>, k: nat)
    requires |xs| == |keep| && k < Count(keep)
    ensures FilterBy(xs, keep)[k] == xs[Source(keep, k)]
  {
    if !(keep[0] && k == 0) {
      FilterAt(xs[1..], keep[1..], if keep[0] then k - 1 else k);
    }
  }

  lemma {:induction false} KeptCounts(keep: seq<bool>, i: nat)
    requires i < |keep| && keep[i]
    ensures Count(keep) > 0
  {
    if i > 0 {
      KeptCounts(keep[1..], i - 1);
    }
  }

  lemma {:induction false} KeepNone<T>(xs: seq<T>, keep: seq<bool>)
    requires |xs| == |keep| && forall i :: 0 <= i < |keep| ==> !keep[i]
    ensures FilterBy(xs, keep) == [] && Count(keep) == 0
  {
    if xs != [] {
      KeepNone(xs[1..], keep[1..]);
    }
  }

  /** On the rows that are left, those pass that passed before. */
  lemma PassingAfterFilter(dates: Calendar, preds: seq<Predicate>, b: Batch, keep: seq<bool>)
    requires WellFormed(b) && |keep| == b.rows
    ensures WellFormed(FilterBatch(b, keep))
    ensures Passing(dates, preds, FilterBatch(b, keep)) == FilterBy(Passing(dates, preds, b), keep)
  {
    FilterKeepsForm(b, keep);
    var c := FilterBatch(b, keep);
    forall k | 0 <= k < c.rows
      ensures Passing(dates, preds, c)[k] == FilterBy(Passing(dates, preds, b), keep)[k]
    {
      var i := Source(keep, k);
      FilterAt(Passing(dates, preds, b), keep, k);
      forall j | 0 <= j < |preds| ensures Passes(dates, preds[j], c, k) == Passes(dates, preds[j], b, i) {
        var n := ColumnIndex(b, preds[j].column);
        if n.Some? {
          FilterAt(b.columns[n.value].cells, keep, k);
        }
      }
    }
  }

  /** Filtering what a mask leaves is filtering once by both. */
  lemma FilterPassingAfter(dates: Calendar, preds: seq<Predicate>, b: Batch, keep: seq<bool>)
    requires WellFormed(b) && |keep| == b.rows
    ensures WellFormed(FilterBatch(b, keep))
    ensures FilterPassing(dates, preds, FilterBatch(b, keep)) == FilterBatch(b, Both(keep, Passing(dates, preds, b)))
  {
    PassingAfterFilter(dates, preds, b, keep);
    var m := Passing(dates, preds, b);
    forall k | 0 <= k < |b.columns|
      ensures FilterBy(FilterBy(b.columns[k].cells, keep), FilterBy(m, keep)) == FilterBy(b.columns[k].cells, Both(keep, m))
    {
      FiltersFuse(b.columns[k].cells, keep, m);
    }
    FiltersFuse(m, keep, m);
  }

  // ---------------------------------------------------------------- the rows of a file

  function Repeat(b: bool, n: nat): (r: seq<bool>)
    ensures |r| == n && forall i :: 0 <= i < n ==> r[i] == b
  {
    seq(n, i => b)
  }

  /** The rows of the groups with the given indices, in that order. */
  function RowsAt(f: File, groups: seq<nat>): (r: Batch)
    requires Regular(f) && forall j :: 0 <= j < |groups| ==> groups[j] < |f.groups|
    ensures Shaped(f.fields, r)
  {
    if groups == [] then NoRows(f.fields)
    else
      var n := |groups| - 1;
      AppendShaped(f.fields, RowsAt(f, groups[..n]), f.groups[groups[n]].rows);
      Append(RowsAt(f, groups[..n]), f.groups[groups[n]].rows)
  }

  /** The rows of the first n groups. */
  function RowsUpTo(f: File, n: nat): (r: Batch)
    requires Regular(f) && n <= |f.groups|
    ensures Shaped(f.fields, r)
  {
    if n == 0 then NoRows(f.fields)
    else
      AppendShaped(f.fields, RowsUpTo(f, n - 1), f.groups[n - 1].rows);
      Append(RowsUpTo(f, n - 1), f.groups[n - 1].rows)
  }

  function AllRows(f: File): (r: Batch)
    requires Regular(f)
    ensures Shaped(f.fields, r)
  {
    RowsUpTo(f, |f.groups|)
  }

  /** The rows whose group no predicate rules out. */
  function NotPruned(f: File, preds: seq<Predicate>, n: nat): (r: seq<bool>)
    requires Regular(f) && n <= |f.groups|
    ensures |r| == RowsUpTo(f, n).rows
  {
    if n == 0 then []
    else
      NotPruned(f, preds, n - 1) +
      Repeat(GroupKept(f.fields, f.groups[n - 1], preds), f.groups[n - 1].rows.rows)
  }

  /** The groups that are read: none if the projection has no column of the file. */
  function GroupsRead(f: File, columnName: string, preds: seq<Predicate>): (r: seq<nat>)
    ensures forall j :: 0 <= j < |r| ==> r[j] < |f.groups|
  {
    if FieldIndex(f.fields, columnName).Some? then KeptGroups(f, preds, |f.groups|) else []
  }

  function RowsRead(f: File, columnName: string, preds: seq<Predicate>): (r: Batch)
    requires Regular(f)
    ensures Shaped(f.fields, r)
  {
    RowsAt(f, GroupsRead(f, columnName, preds))
  }

  function ReadMask(f: File, columnName: string, preds: seq<Predicate>): (r: seq<bool>)
    requires Regular(f)
    ensures |r| == AllRows(f).rows
  {
    if FieldIndex(f.fields, columnName).Some? then NotPruned(f, preds, |f.groups|) else Repeat(false, AllRows(f).rows)
  }

  lemma KeepAllRows(fields: seq<Field>, b: Batch, keep: seq<bool>)
    requires Shaped(fields, b) && |keep| == b.rows && forall i :: 0 <= i < |keep| ==> keep[i]
    ensures FilterBatch(b, keep) == b
  {
    forall k | 0 <= k < |fields| ensures FilterBy(b.columns[k].cells, keep) == b.columns[k].cells {
      KeepAll(b.columns[k].cells, keep);
    }
    KeepAll(keep, keep);
  }

  lemma KeepNoRows(fields: seq<Field>, b: Batch, keep: seq<bool>)
    requires Shaped(fields, b) && |keep| == b.rows && forall i :: 0 <= i < |keep| ==> !keep[i]
    ensures FilterBatch(b, keep) == NoRows(fields)
  {
    forall k | 0 <= k < |fields| ensures FilterBy(b.columns[k].cells, keep) == [] {
      KeepNone(b.columns[k].cells, keep);
    }
    KeepNone(keep, keep);
  }

  lemma AppendNothing(fields: seq<Field>, a: Batch)
    requires Shaped(fields, a)
    ensures Append(a, NoRows(fields)) == a
  {
    forall k | 0 <= k < |fields| ensures a.columns[k].cells + [] == a.columns[k].cells {
    }
  }

  /** One more group with a mask that is the same on all its rows. */
  lemma UniformGroup(fields: seq<Field>, before: Batch, m: seq<bool>, b: Batch, kept: bool)
    requires Shaped(fields, before) && |m| == before.rows && Shaped(fields, b)
    ensures Shaped(fields, Append(before, b))
    ensures FilterBatch(Append(before, b), m + Repeat(kept, b.rows)) ==
            if kept then Append(FilterBatch(before, m), b) else FilterBatch(before, m)
  {
    var keep := Repeat(kept, b.rows);
    FilterAppendBatch(fields, before, b, m, keep);
    if kept {
      KeepAllRows(fields, b, keep);
    } else {
      KeepNoRows(fields, b, keep);
      FilterKeepsForm(before, m);
      AppendNothing(fields, FilterBatch(before, m));
    }
  }

  lemma RowsAtSnoc(f: File, groups: seq<nat>, n: nat)
    requires Regular(f) && n < |f.groups| && forall j :: 0 <= j < |groups| ==> groups[j] < |f.groups|
    ensures RowsAt(f, groups + [n]) == Append(RowsAt(f, groups), f.groups[n].rows)
  {
    assert (groups + [n])[..|groups|] == groups;
  }

  lemma NoGroupsNotPruned(f: File, preds: seq<Predicate>)
    requires Regular(f)
    ensures FilterBatch(RowsUpTo(f, 0), NotPruned(f, preds, 0)) == NoRows(f.fields)
  {
    KeepNoRows(f.fields, NoRows(f.fields), []);
  }

  lemma NotPrunedStep(f: File, preds: seq<Predicate>, n: nat)
    requires Regular(f) && 0 < n <= |f.groups|
    ensures FilterBatch(RowsUpTo(f, n), NotPruned(f, preds, n)) ==
            if GroupKept(f.fields, f.groups[n - 1], preds)
            then Append(FilterBatch(RowsUpTo(f, n - 1), NotPruned(f, preds, n - 1)), f.groups[n - 1].rows)
            else FilterBatch(RowsUpTo(f, n - 1), NotPruned(f, preds, n - 1))
  {
    var g := f.groups[n - 1];
    UniformGroup(f.fields, RowsUpTo(f, n - 1), NotPruned(f, preds, n - 1), g.rows, GroupKept(f.fields, g, preds));
  }

  lemma KeptGroupsStep(f: File, preds: seq<Predicate>, n: nat)
    requires Regular(f) && 0 < n <= |f.groups|
    ensures RowsAt(f, KeptGroups(f, preds, n)) ==
            if GroupKept(f.fields, f.groups[n - 1], preds)
            then Append(RowsAt(f, KeptGroups(f, preds, n - 1)), f.groups[n - 1].rows)
            else RowsAt(f, KeptGroups(f, preds, n - 1))
  {
    if GroupKept(f.fields, f.groups[n - 1], preds) {
      RowsAtSnoc(f, KeptGroups(f, preds, n - 1), n - 1);
    }
  }

  /** The rows of the groups that are kept, which are the rows that are not pruned. */
  ghost function KeptRows(f: File, preds: seq<Predicate>, n: nat): (r: Batch)
    requires Regular(f) && n <= |f.groups|
    ensures r == RowsAt(f, KeptGroups(f, preds, n))
    ensures r == FilterBatch(RowsUpTo(f, n), NotPruned(f, preds, n))
  {
    if n == 0 then
      NoGroupsNotPruned(f, preds);
      NoRows(f.fields)
    else
      NotPrunedStep(f, preds, n);
      KeptGroupsStep(f, preds, n);
      if GroupKept(f.fields, f.groups[n - 1], preds) then Append(KeptRows(f, preds, n - 1), f.groups[n - 1].rows)
      else KeptRows(f, preds, n - 1)
  }

  /** What is read is what the read mask keeps of the whole file. */
  lemma ReadIsMasked(f: File, columnName: string, preds: seq<Predicate>)
    requires Regular(f)
    ensures RowsRead(f, columnName, preds) == FilterBatch(AllRows(f), ReadMask(f, columnName, preds))
  {
    if FieldIndex(f.fields, columnName).Some? {
      assert KeptRows(f, preds, |f.groups|) == RowsRead(f, columnName, preds);
    } else {
      KeepNoRows(f.fields, AllRows(f), ReadMask(f, columnName, preds));
    }
  }

  /** The rows that are read and pass the policy's filters. */
  function Selected(dates: Calendar, f: File, columnName: string, pruners: seq<Predicate>, filters: seq<Predicate>): (r: seq<bool>)
    requires Regular(f)
    ensures |r| == AllRows(f).rows
  {
    Both(ReadMask(f, columnName, pruners), Passing(dates, filters, AllRows(f)))
  }

  /** Pruning, cutting what is read into batches and filtering each of them selects rows of the file. */
  lemma BatchesSelect(dates: Calendar, f: File, columnName: string, pruners: seq<Predicate>, filters: seq<Predicate>,
                      names: seq<string>, cut: seq<Batch>)
    requires Regular(f) && forall j :: 0 <= j < |filters| ==> filters[j].column in names
    requires AllShaped(ProjectFields(f.fields, names), cut)
    requires Stack(ProjectFields(f.fields, names), cut) == Project(RowsRead(f, columnName, pruners), names)
    ensures Stack(ProjectFields(f.fields, names), FilterEach(dates, filters, cut)) ==
            Project(FilterBatch(AllRows(f), Selected(dates, f, columnName, pruners, filters)), names)
  {
    var whole, rows := AllRows(f), RowsRead(f, columnName, pruners);
    FilterStack(dates, filters, ProjectFields(f.fields, names), cut);
    ProjectPassing(dates, filters, rows, names);
    ProjectFilter(rows, names, Passing(dates, filters, rows));
    ReadIsMasked(f, columnName, pruners);
    FilterPassingAfter(dates, filters, whole, ReadMask(f, columnName, pruners));
  }

  // ---------------------------------------------------------------- the sandwich

  /** The literal means what it says for the column, if the file has it. */
  predicate Faithful(dates: Calendar, p: Predicate, fields: seq<Field>) {
    var k := FieldIndex(fields, p.column);
    k.Some? ==> ExactLiteral(dates, p, fields[k.value].ctype)
  }

  /** The predicate can be evaluated on a column of the file. */
  predicate Evaluable(dates: Calendar, p: Predicate, fields: seq<Field>) {
    var k := FieldIndex(fields, p.column);
    k.Some? && Literal(dates, p.value, fields[k.value].ctype).Some?
  }

  /** Where a predicate can be evaluated exactly, passing is satisfying. */
  lemma PassesIsSatisfies(dates: Calendar, p: Predicate, fields: seq<Field>, b: Batch, i: nat)
    requires Shaped(fields, b) && i < b.rows && Faithful(dates, p, fields)
    ensures Passes(dates, p, b, i) ==> RowSatisfies(dates, p, fields, b, i)
    ensures Evaluable(dates, p, fields) && RowSatisfies(dates, p, fields, b, i) ==> Passes(dates, p, b, i)
  {
    ColumnOfField(fields, b, p.column);
    var k := FieldIndex(fields, p.column);
    if k.Some? {
      var t := fields[k.value].ctype;
      if Literal(dates, p.value, t).Some? {
        EvaluationIsExact(dates, p, t);
        assert CellFits(t, b.columns[k.value].cells[i]);
      }
    }
  }

  predicate SatisfiesAll(dates: Calendar, preds: seq<Predicate>, fields: seq<Field>, b: Batch, i: nat)
    requires Shaped(fields, b) && i < b.rows
  {
    forall j :: 0 <= j < |preds| ==> RowSatisfies(dates, preds[j], fields, b, i)
  }

  lemma SatisfiesAppend(dates: Calendar, preds: seq<Predicate>, fields: seq<Field>, a: Batch, b: Batch, i: nat)
    requires Shaped(fields, a) && Shaped(fields, b) && i < b.rows
    ensures Shaped(fields, Append(a, b))
    ensures SatisfiesAll(dates, preds, fields, Append(a, b), a.rows + i) == SatisfiesAll(dates, preds, fields, b, i)
  {
    AppendShaped(fields, a, b);
    forall j | 0 <= j < |preds|
      ensures RowSatisfies(dates, preds[j], fields, Append(a, b), a.rows + i) == RowSatisfies(dates, preds[j], fields, b, i)
    {
    }
  }

  lemma SatisfiesFirst(dates: Calendar, preds: seq<Predicate>, fields: seq<Field>, a: Batch, b: Batch, i: nat)
    requires Shaped(fields, a) && Shaped(fields, b) && i < a.rows
    ensures Shaped(fields, Append(a, b))
    ensures SatisfiesAll(dates, preds, fields, Append(a, b), i) == SatisfiesAll(dates, preds, fields, a, i)
  {
    AppendShaped(fields, a, b);
    forall j | 0 <= j < |preds|
      ensures RowSatisfies(dates, preds[j], fields, Append(a, b), i) == RowSatisfies(dates, preds[j], fields, a, i)
    {
    }
  }

  lemma SatisfyingGroupIsKept(dates: Calendar, fields: seq<Field>, g: RowGroup, preds: seq<Predicate>, i: nat)
    requires TrueStats(fields, g) && i < g.rows.rows && SatisfiesAll(dates, preds, fields, g.rows, i)
    requires forall j :: 0 <= j < |preds| ==> PrunableAt(dates, preds[j], fields)
    ensures GroupKept(fields, g, preds)
  {
    forall j | 0 <= j < |preds| ensures !RulesOut(fields, g, preds[j]) {
      assert RowSatisfies(dates, preds[j], fields, g.rows, i);
      if RulesOut(fields, g, preds[j]) {
        RuledOutRowsFail(dates, fields, g, preds[j], i);
      }
    }
  }

  lemma StaysRead(f: File, preds: seq<Predicate>, n: nat, i: nat)
    requires Regular(f) && 0 < n <= |f.groups| && i < RowsUpTo(f, n - 1).rows && NotPruned(f, preds, n - 1)[i]
    ensures i < RowsUpTo(f, n).rows && NotPruned(f, preds, n)[i]
  {
  }

  /** Whether a row of the last group is read is decided for the group. */
  lemma LastGroupAt(f: File, preds: seq<Predicate>, n: nat, i: nat)
    requires Regular(f) && 0 < n <= |f.groups| && RowsUpTo(f, n - 1).rows <= i < RowsUpTo(f, n).rows
    ensures NotPruned(f, preds, n)[i] == GroupKept(f.fields, f.groups[n - 1], preds)
  {
  }

  lemma SatisfiesInGroup(dates: Calendar, f: File, preds: seq<Predicate>, n: nat, i: nat)
    requires Regular(f) && 0 < n <= |f.groups| && RowsUpTo(f, n - 1).rows <= i < RowsUpTo(f, n).rows
    requires SatisfiesAll(dates, preds, f.fields, RowsUpTo(f, n), i)
    ensures var k := i - RowsUpTo(f, n - 1).rows;
            k < f.groups[n - 1].rows.rows && SatisfiesAll(dates, preds, f.fields, f.groups[n - 1].rows, k)
  {
    var before := RowsUpTo(f, n - 1);
    SatisfiesAppend(dates, preds, f.fields, before, f.groups[n - 1].rows, i - before.rows);
  }

  lemma LastGroupIsRead(dates: Calendar, f: File, preds: seq<Predicate>, n: nat, i: nat)
    requires ValidFile(f) && 0 < n <= |f.groups| && RowsUpTo(f, n - 1).rows <= i < RowsUpTo(f, n).rows
    requires forall j :: 0 <= j < |preds| ==> PrunableAt(dates, preds[j], f.fields)
    requires SatisfiesAll(dates, preds, f.fields, RowsUpTo(f, n), i)
    ensures NotPruned(f, preds, n)[i]
  {
    SatisfiesInGroup(dates, f, preds, n, i);
    SatisfyingGroupIsKept(dates, f.fields, f.groups[n - 1], preds, i - RowsUpTo(f, n - 1).rows);
    LastGroupAt(f, preds, n, i);
  }

  /** Pruning is invisible: a row that satisfies all predicates is never in a pruned group. */
  lemma {:induction false} SatisfyingRowsAreRead(dates: Calendar, f: File, preds: seq<Predicate>, n: nat, i: nat)
    requires ValidFile(f) && n <= |f.groups| && i < RowsUpTo(f, n).rows
    requires forall j :: 0 <= j < |preds| ==> PrunableAt(dates, preds[j], f.fields)
    requires SatisfiesAll(dates, preds, f.fields, RowsUpTo(f, n), i)
    ensures NotPruned(f, preds, n)[i]
    decreases n
  {
    if i < RowsUpTo(f, n - 1).rows {
      SatisfiesFirst(dates, preds, f.fields, RowsUpTo(f, n - 1), f.groups[n - 1].rows, i);
      SatisfyingRowsAreRead(dates, f, preds, n - 1, i);
      StaysRead(f, preds, n, i);
    } else {
      LastGroupIsRead(dates, f, preds, n, i);
    }
  }

  /** A row that satisfies a predicate is in a group that the predicate rules out. */
  ghost predicate DropsRow(dates: Calendar, p: Predicate, f: File, i: nat) {
    && ValidFile(f) && i < AllRows(f).rows
    && RowSatisfies(dates, p, f.fields, AllRows(f), i)
    && !NotPruned(f, [p], |f.groups|)[i]
  }

  /** One group is all rows. */
  lemma OnlyGroup(fields: seq<Field>, g: RowGroup)
    requires Shaped(fields, g.rows)
    ensures var f := File(fields, [g]); Regular(f) && AllRows(f) == g.rows
  {
    var f := File(fields, [g]);
    assert RowsUpTo(f, 0) == NoRows(fields);
    assert forall k :: 0 <= k < |fields| ==> [] + g.rows.columns[k].cells == g.rows.columns[k].cells;
  }

  /** Without predicates, all rows of the only group are read. */
  lemma OnlyGroupRead(fields: seq<Field>, g: RowGroup, columnName: string)
    requires Shaped(fields, g.rows) && FieldIndex(fields, columnName).Some?
    ensures var f := File(fields, [g]); Regular(f) && RowsRead(f, columnName, []) == g.rows
  {
    var f := File(fields, [g]);
    OnlyGroup(fields, g);
    OnlyGroupPruned(fields, g, []);
    ReadIsMasked(f, columnName, []);
    KeepAllRows(fields, g.rows, ReadMask(f, columnName, []));
  }

  lemma OnlyGroupPruned(fields: seq<Field>, g: RowGroup, preds: seq<Predicate>)
    requires Shaped(fields, g.rows)
    ensures var f := File(fields, [g]);
            Regular(f) && |NotPruned(f, preds, 1)| == g.rows.rows &&
            forall i :: 0 <= i < g.rows.rows ==> NotPruned(f, preds, 1)[i] == GroupKept(fields, g, preds)
  {
    var f := File(fields, [g]);
    OnlyGroup(fields, g);
    assert NotPruned(f, preds, 0) == [];
    assert NotPruned(f, preds, 1) == [] + Repeat(GroupKept(fields, g, preds), g.rows.rows);
  }

  /** On the files of a schema, pruning by a predicate drops no matching row exactly when it is comparable. */
  lemma FilePruningIsSoundIff(dates: Calendar, p: Predicate, fields: seq<Field>)
    requires p.value.Str? ==> RealDate(dates, p.value.text)
    ensures (forall f: File, i: nat :: f.fields == fields ==> !DropsRow(dates, p, f, i)) <==> PrunableAt(dates, p, fields)
  {
    if PrunableAt(dates, p, fields) {
      forall f: File, i: nat | f.fields == fields ensures !DropsRow(dates, p, f, i) {
        if DropsRow(dates, p, f, i) {
          SatisfyingRowsAreRead(dates, f, [p], |f.groups|, i);
        }
      }
    } else {
      GroupPruningIsSoundIff(dates, p, fields);
      var g, i :| LosesRow(dates, p, fields, g, i);
      OnlyGroup(fields, g);
      OnlyGroupPruned(fields, g, [p]);
      assert RulesOut(fields, g, [p][0]);
      assert DropsRow(dates, p, File(fields, [g]), i);
    }
  }

  const UNSIGNED_FIELD := Field("u", TUInt32, true)

  /** An unsigned column of 7 and 3000000000, with the statistics that a file stores for it. */
  const UNSIGNED_GROUP := RowGroup(Batch([Column(UNSIGNED_FIELD, [Num(7), Num(3000000000)])], 2),
                                   [Some(Int32Stats(Some(7), Some(-1294967296)))])

  /** For instance, both rows satisfy the caller's `u > 5`, and neither is read. */
  lemma UnsignedRowsAreNotRead(dates: Calendar)
    ensures var p, f := Predicate(Gt, "u", Int64(5)), File([UNSIGNED_FIELD], [UNSIGNED_GROUP]);
            && DropsRow(dates, p, f, 0) && DropsRow(dates, p, f, 1)
            && Selected(dates, f, "u", [p], []) == [false, false]
  {
    var p, fields, g := Predicate(Gt, "u", Int64(5)), [UNSIGNED_FIELD], UNSIGNED_GROUP;
    OnlyGroup(fields, g);
    OnlyGroupPruned(fields, g, [p]);
    assert RulesOut(fields, g, [p][0]);
  }

  /** A row of a table with the types of its cells. */
  function RowOf(fields: seq<Field>, b: Batch, i: nat): F.Row
    requires Shaped(fields, b) && i < b.rows
  {
    (name: string) =>
      match FieldIndex(fields, name)
      case None => None
      case Some(k) => Some(F.TypedCell(fields[k].ctype, b.columns[k].cells[i]))
  }

  lemma UserFiltersHold(dates: Calendar, f: File, user: seq<Predicate>, e: F.Expr, other: F.Expr -> bool, i: nat)
    requires ValidFile(f) && i < AllRows(f).rows && F.Flatten(e) == Some(user)
    requires F.Means(dates, e, RowOf(f.fields, AllRows(f), i), other)
    ensures SatisfiesAll(dates, user, f.fields, AllRows(f), i)
  {
    F.FlattenWeakens(dates, e, RowOf(f.fields, AllRows(f), i), other);
    forall j | 0 <= j < |user| ensures RowSatisfies(dates, user[j], f.fields, AllRows(f), i) {
      assert user[j] in user;
      assert F.TrueOf(dates, user[j], RowOf(f.fields, AllRows(f), i));
    }
  }

  /** A selected row satisfies all policy filters. */
  lemma SelectedRowsSatisfyPolicy(dates: Calendar, f: File, columnName: string, pruners: seq<Predicate>,
                                  policy: seq<Predicate>, i: nat)
    requires ValidFile(f) && i < AllRows(f).rows
    requires forall j :: 0 <= j < |policy| ==> Faithful(dates, policy[j], f.fields)
    requires Selected(dates, f, columnName, pruners, policy)[i]
    ensures SatisfiesAll(dates, policy, f.fields, AllRows(f), i)
  {
    forall j | 0 <= j < |policy| ensures RowSatisfies(dates, policy[j], f.fields, AllRows(f), i) {
      assert Passes(dates, policy[j], AllRows(f), i);
      PassesIsSatisfies(dates, policy[j], f.fields, AllRows(f), i);
    }
  }

  /** A row that satisfies the policy and the caller's whole expression is read. */
  lemma WantedRowsAreRead(dates: Calendar, f: File, columnName: string, user: seq<Predicate>, policy: seq<Predicate>,
                          e: F.Expr, other: F.Expr -> bool, i: nat)
    requires ValidFile(f) && i < AllRows(f).rows && F.Flatten(e) == Some(user)
    requires FieldIndex(f.fields, columnName).Some?
    requires forall j :: 0 <= j < |user + policy| ==> PrunableAt(dates, (user + policy)[j], f.fields)
    requires SatisfiesAll(dates, policy, f.fields, AllRows(f), i)
    requires F.Means(dates, e, RowOf(f.fields, AllRows(f), i), other)
    ensures ReadMask(f, columnName, user + policy)[i]
  {
    UserFiltersHold(dates, f, user, e, other, i);
    SatisfyingRowsAreRead(dates, f, user + policy, |f.groups|, i);
  }

  /**
   Pruning by the policy's own filters is invisible: reading the groups that are left and filtering
   what was read is one filter over all rows of the file.
   */
  lemma PolicyPruningIsInvisible(dates: Calendar, f: File, columnName: string, policy: seq<Predicate>)
    requires ValidFile(f) && FieldIndex(f.fields, columnName).Some?
    requires forall j :: 0 <= j < |policy| ==> Faithful(dates, policy[j], f.fields) && PrunableAt(dates, policy[j], f.fields)
    ensures FilterBatch(AllRows(f), Selected(dates, f, columnName, policy, policy)) == FilterPassing(dates, policy, AllRows(f))
  {
    forall i | 0 <= i < AllRows(f).rows && PassesAll(dates, policy, AllRows(f), i)
      ensures ReadMask(f, columnName, policy)[i]
    {
      PassingRowsAreRead(dates, f, policy, i);
    }
    assert Selected(dates, f, columnName, policy, policy) == Passing(dates, policy, AllRows(f));
  }

  lemma PassingRowsAreRead(dates: Calendar, f: File, policy: seq<Predicate>, i: nat)
    requires ValidFile(f) && i < AllRows(f).rows && PassesAll(dates, policy, AllRows(f), i)
    requires forall j :: 0 <= j < |policy| ==> Faithful(dates, policy[j], f.fields) && PrunableAt(dates, policy[j], f.fields)
    ensures NotPruned(f, policy, |f.groups|)[i]
  {
    forall j | 0 <= j < |policy| ensures RowSatisfies(dates, policy[j], f.fields, AllRows(f), i) {
      assert Passes(dates, policy[j], AllRows(f), i);
      PassesIsSatisfies(dates, policy[j], f.fields, AllRows(f), i);
    }
    SatisfyingRowsAreRead(dates, f, policy, |f.groups|, i);
  }
}
