/**
 Record batches as tables: stacking them, projecting them to some columns and keeping the rows that
 pass the predicates commute with each other, so it does not matter how rows are cut into batches.
 */
module Tables {
  import opened Sequences
  import opened FilterSyntax
  import opened Comparisons
  import opened RowFilters

  /** A well-formed batch with the given fields. */
  predicate Shaped(fields: seq<Field>, b: Batch) {
    && WellFormed(b)
    && |b.columns| == |fields|
    && forall k :: 0 <= k < |fields| ==> b.columns[k].field == fields[k]
  }

  predicate AllShaped(fields: seq<Field>, bs: seq<Batch>) {
    forall j {:trigger bs[j]} :: 0 <= j < |bs| ==> Shaped(fields, bs[j])
  }

  // ---------------------------------------------------------------- stacking

  function NoRows(fields: seq<Field>): (r: Batch)
    ensures Shaped(fields, r)
  {
    Batch(seq(|fields|, k requires 0 <= k < |fields| => Column(fields[k], [])), 0)
  }

  function Append(a: Batch, b: Batch): Batch
    requires |a.columns| == |b.columns|
  {
    Batch(seq(|a.columns|, k requires 0 <= k < |a.columns| =>
            Column(a.columns[k].field, a.columns[k].cells + b.columns[k].cells)), a.rows + b.rows)
  }

  lemma AppendShaped(fields: seq<Field>, a: Batch, b: Batch)
    requires Shaped(fields, a) && Shaped(fields, b)
    ensures Shaped(fields, Append(a, b))
  {
  }

  /** All rows of the batches, in order. */
  function Stack(fields: seq<Field>, bs: seq<Batch>): (r: Batch)
    requires forall j :: 0 <= j < |bs| ==> |bs[j].columns| == |fields|
    ensures |r.columns| == |fields|
  {
    if bs == [] then NoRows(fields) else Append(Stack(fields, bs[..|bs| - 1]), bs[|bs| - 1])
  }

  lemma {:induction false} StackShaped(fields: seq<Field>, bs: seq<Batch>)
    requires AllShaped(fields, bs)
    ensures Shaped(fields, Stack(fields, bs))
  {
    if bs != [] {
      StackShaped(fields, bs[..|bs| - 1]);
      AppendShaped(fields, Stack(fields, bs[..|bs| - 1]), bs[|bs| - 1]);
    }
  }

  lemma StackSnoc(fields: seq<Field>, bs: seq<Batch>, b: Batch)
    requires forall j :: 0 <= j < |bs| ==> |bs[j].columns| == |fields|
    requires |b.columns| == |fields|
    ensures Stack(fields, bs + [b]) == Append(Stack(fields, bs), b)
  {
    assert (bs + [b])[..|bs|] == bs;
  }

  /** A batch on its own is the whole stack. */
  lemma StackOfOne(fields: seq<Field>, b: Batch)
    requires Shaped(fields, b)
    ensures Stack(fields, [b]) == b
  {
    assert [b][..0] == [];
    assert Stack(fields, []) == NoRows(fields);
    forall k | 0 <= k < |fields| ensures Append(NoRows(fields), b).columns[k] == b.columns[k] {
      assert [] + b.columns[k].cells == b.columns[k].cells;
    }
  }

  // ---------------------------------------------------------------- looking up columns

  function Lookup(b: Batch, name: string): Option<Column> {
    match ColumnIndex(b, name)
    case Some(k) => Some(b.columns[k])
    case None => None
  }

  function LookupIn(cs: seq<Column>, name: string): Option<Column> {
    if cs == [] then None else if cs[0].field.name == name then Some(cs[0]) else LookupIn(cs[1..], name)
  }

  lemma {:induction false} LookupFrom(cs: seq<Column>, name: string, i: nat)
    requires i <= |cs|
    ensures LookupIn(cs[i..], name) ==
            match NamedFrom(cs, ColumnName, name, i) case Some(k) => Some(cs[k]) case None => None
    decreases |cs| - i
  {
    if i < |cs| {
      assert cs[i..][1..] == cs[i + 1..];
      LookupFrom(cs, name, i + 1);
    }
  }

  lemma LookupIsIn(b: Batch, name: string)
    ensures Lookup(b, name) == LookupIn(b.columns, name)
  {
    LookupFrom(b.columns, name, 0);
    assert b.columns[0..] == b.columns;
  }

  /** In a batch with given fields, the place of a column is the place of its field. */
  lemma ColumnOfField(fields: seq<Field>, b: Batch, name: string)
    requires Shaped(fields, b)
    ensures ColumnIndex(b, name) == FieldIndex(fields, name)
  {
    SameNames(b.columns, ColumnName, fields, FieldName, name, 0);
  }

  lemma SameIndex(fields: seq<Field>, a: Batch, b: Batch, name: string)
    requires Shaped(fields, a) && Shaped(fields, b)
    ensures ColumnIndex(a, name) == ColumnIndex(b, name)
  {
    SameColumns(a, b, name);
  }

  // ---------------------------------------------------------------- projecting

  function ProjectColumns(cs: seq<Column>, names: seq<string>): seq<Column> {
    if cs == [] then []
    else if cs[0].field.name in names then [cs[0]] + ProjectColumns(cs[1..], names)
    else ProjectColumns(cs[1..], names)
  }

  function ProjectFields(fields: seq<Field>, names: seq<string>): seq<Field> {
    if fields == [] then []
    else if fields[0].name in names then [fields[0]] + ProjectFields(fields[1..], names)
    else ProjectFields(fields[1..], names)
  }

  /** The columns with one of the names, in the order of the file. */
  function Project(b: Batch, names: seq<string>): Batch {
    Batch(ProjectColumns(b.columns, names), b.rows)
  }

  lemma {:induction false} ProjectColumnsShaped(cs: seq<Column>, fields: seq<Field>, names: seq<string>, rows: nat)
    requires Shaped(fields, Batch(cs, rows))
    ensures Shaped(ProjectFields(fields, names), Batch(ProjectColumns(cs, names), rows))
  {
    if cs != [] {
      ProjectColumnsShaped(cs[1..], fields[1..], names, rows);
    }
  }

  lemma ProjectShaped(fields: seq<Field>, b: Batch, names: seq<string>)
    requires Shaped(fields, b)
    ensures Shaped(ProjectFields(fields, names), Project(b, names))
  {
    ProjectColumnsShaped(b.columns, fields, names, b.rows);
  }

  lemma {:induction false} ProjectColumnsLookup(cs: seq<Column>, names: seq<string>, name: string)
    requires name in names
    ensures LookupIn(ProjectColumns(cs, names), name) == LookupIn(cs, name)
  {
    if cs != [] {
      ProjectColumnsLookup(cs[1..], names, name);
    }
  }

  /** A projection shows the columns that it keeps. */
  lemma ProjectLookup(b: Batch, names: seq<string>, name: string)
    requires name in names
    ensures Lookup(Project(b, names), name) == Lookup(b, name)
  {
    LookupIsIn(b, name);
    LookupIsIn(Project(b, names), name);
    ProjectColumnsLookup(b.columns, names, name);
  }

  lemma {:induction false} ProjectColumnsFilter(cs: seq<Column>, names: seq<string>, keep: seq<bool>)
    requires WellFormed(Batch(cs, |keep|))
    ensures WellFormed(Batch(ProjectColumns(cs, names), |keep|))
    ensures ProjectColumns(FilterBatch(Batch(cs, |keep|), keep).columns, names) ==
            FilterBatch(Batch(ProjectColumns(cs, names), |keep|), keep).columns
  {
    if cs != [] {
      var rest := Batch(cs[1..], |keep|);
      assert WellFormed(rest);
      ProjectColumnsFilter(cs[1..], names, keep);
      assert FilterBatch(Batch(cs, |keep|), keep).columns[1..] == FilterBatch(rest, keep).columns;
    }
  }

  lemma ProjectFilter(b: Batch, names: seq<string>, keep: seq<bool>)
    requires WellFormed(b) && |keep| == b.rows
    ensures WellFormed(Project(b, names))
    ensures Project(FilterBatch(b, keep), names) == FilterBatch(Project(b, names), keep)
  {
    assert b == Batch(b.columns, |keep|);
    ProjectColumnsFilter(b.columns, names, keep);
  }

  // ---------------------------------------------------------------- rows that pass

  /** The predicate can be evaluated on the row, and is true there. */
  predicate Passes(dates: Calendar, p: Predicate, b: Batch, i: nat)
    requires WellFormed(b) && i < b.rows
  {
    match ColumnIndex(b, p.column)
    case None => false
    case Some(k) => CellPassesIn(dates, p, b.columns[k].field.ctype, b.columns[k].cells[i])
  }

  predicate CellPassesIn(dates: Calendar, p: Predicate, t: ColumnType, c: Cell) {
    match Literal(dates, p.value, t)
    case None => false
    case Some(literal) => CompareCells(p.op, c, literal) == Yes
  }

  predicate PassesAll(dates: Calendar, preds: seq<Predicate>, b: Batch, i: nat)
    requires WellFormed(b) && i < b.rows
  {
    forall j :: 0 <= j < |preds| ==> Passes(dates, preds[j], b, i)
  }

  function Passing(dates: Calendar, preds: seq<Predicate>, b: Batch): (r: seq<bool>)
    requires WellFormed(b)
    ensures |r| == b.rows
  {
    seq(b.rows, i requires 0 <= i < b.rows => PassesAll(dates, preds, b, i))
  }

  /** When every predicate applies, the rows that pass are those of the filter loop. */
  lemma PassingIsRowMask(dates: Calendar, preds: seq<Predicate>, b: Batch)
    requires WellFormed(b) && AllApply(dates, preds, b)
    ensures RowMask(dates, preds, b) == Passing(dates, preds, b)
  {
    forall i, j | 0 <= i < b.rows && 0 <= j < |preds|
      ensures Mask(dates, preds[j], b)[i] == Passes(dates, preds[j], b, i)
    {
      assert Applies(dates, preds[j], b);
    }
    forall i | 0 <= i < b.rows ensures RowMask(dates, preds, b)[i] == Passing(dates, preds, b)[i] {
    }
  }

  lemma PassesAppend(dates: Calendar, p: Predicate, fields: seq<Field>, a: Batch, b: Batch, i: nat)
    requires Shaped(fields, a) && Shaped(fields, b) && Shaped(fields, Append(a, b)) && i < a.rows + b.rows
    ensures Passes(dates, p, Append(a, b), i) ==
            if i < a.rows then Passes(dates, p, a, i) else Passes(dates, p, b, i - a.rows)
  {
    SameIndex(fields, Append(a, b), a, p.column);
    SameIndex(fields, Append(a, b), b, p.column);
  }

  lemma PassesAllAppend(dates: Calendar, preds: seq<Predicate>, fields: seq<Field>, a: Batch, b: Batch, i: nat)
    requires Shaped(fields, a) && Shaped(fields, b) && Shaped(fields, Append(a, b)) && i < a.rows + b.rows
    ensures PassesAll(dates, preds, Append(a, b), i) ==
            if i < a.rows then PassesAll(dates, preds, a, i) else PassesAll(dates, preds, b, i - a.rows)
  {
    forall j | 0 <= j < |preds|
      ensures Passes(dates, preds[j], Append(a, b), i) ==
              if i < a.rows then Passes(dates, preds[j], a, i) else Passes(dates, preds[j], b, i - a.rows)
    {
      PassesAppend(dates, preds[j], fields, a, b, i);
    }
  }

  lemma PassingAppendAt(dates: Calendar, preds: seq<Predicate>, fields: seq<Field>, a: Batch, b: Batch, i: nat)
    requires Shaped(fields, a) && Shaped(fields, b) && Shaped(fields, Append(a, b)) && i < a.rows + b.rows
    ensures Passing(dates, preds, Append(a, b))[i] ==
            if i < a.rows then Passing(dates, preds, a)[i] else Passing(dates, preds, b)[i - a.rows]
  {
    PassesAllAppend(dates, preds, fields, a, b, i);
  }

  lemma PassingAppend(dates: Calendar, preds: seq<Predicate>, fields: seq<Field>, a: Batch, b: Batch)
    requires Shaped(fields, a) && Shaped(fields, b)
    ensures Shaped(fields, Append(a, b))
    ensures Passing(dates, preds, Append(a, b)) == Passing(dates, preds, a) + Passing(dates, preds, b)
  {
    AppendShaped(fields, a, b);
    var whole, first, second := Passing(dates, preds, Append(a, b)), Passing(dates, preds, a), Passing(dates, preds, b);
    forall i | 0 <= i < a.rows + b.rows ensures whole[i] == (first + second)[i] {
      PassingAppendAt(dates, preds, fields, a, b, i);
    }
  }

  lemma FilterAppendBatch(fields: seq<Field>, a: Batch, b: Batch, m: seq<bool>, n: seq<bool>)
    requires Shaped(fields, a) && Shaped(fields, b) && |m| == a.rows && |n| == b.rows
    ensures Shaped(fields, Append(a, b))
    ensures FilterBatch(Append(a, b), m + n) == Append(FilterBatch(a, m), FilterBatch(b, n))
  {
    AppendShaped(fields, a, b);
    forall k | 0 <= k < |fields|
      ensures FilterBy(a.columns[k].cells + b.columns[k].cells, m + n) ==
              FilterBy(a.columns[k].cells, m) + FilterBy(b.columns[k].cells, n)
    {
      FilterAppend(a.columns[k].cells, b.columns[k].cells, m, n);
    }
    FilterAppend(m, n, m, n);
  }

  function FilterPassing(dates: Calendar, preds: seq<Predicate>, b: Batch): (r: Batch)
    requires WellFormed(b)
    ensures |r.columns| == |b.columns|
  {
    FilterBatch(b, Passing(dates, preds, b))
  }

  lemma FilterPassingShaped(dates: Calendar, preds: seq<Predicate>, fields: seq<Field>, b: Batch)
    requires Shaped(fields, b)
    ensures Shaped(fields, FilterPassing(dates, preds, b))
  {
    FilterKeepsForm(b, Passing(dates, preds, b));
  }

  /** Filtering two batches and appending them is appending them and filtering once. */
  lemma FilterPassingAppend(dates: Calendar, preds: seq<Predicate>, fields: seq<Field>, a: Batch, b: Batch)
    requires Shaped(fields, a) && Shaped(fields, b)
    ensures Shaped(fields, Append(a, b))
    ensures FilterPassing(dates, preds, Append(a, b)) == Append(FilterPassing(dates, preds, a), FilterPassing(dates, preds, b))
  {
    PassingAppend(dates, preds, fields, a, b);
    FilterAppendBatch(fields, a, b, Passing(dates, preds, a), Passing(dates, preds, b));
  }

  function FilterEach(dates: Calendar, preds: seq<Predicate>, bs: seq<Batch>): (r: seq<Batch>)
    requires forall j :: 0 <= j < |bs| ==> WellFormed(bs[j])
    ensures |r| == |bs| && forall j :: 0 <= j < |bs| ==> r[j] == FilterPassing(dates, preds, bs[j])
  {
    seq(|bs|, j requires 0 <= j < |bs| => FilterPassing(dates, preds, bs[j]))
  }

  /** Filtering batch by batch and filtering all rows at once agree, however the rows are cut. */
  lemma {:induction false} FilterStack(dates: Calendar, preds: seq<Predicate>, fields: seq<Field>, bs: seq<Batch>)
    requires AllShaped(fields, bs)
    ensures Shaped(fields, Stack(fields, bs))
    ensures Stack(fields, FilterEach(dates, preds, bs)) == FilterPassing(dates, preds, Stack(fields, bs))
  {
    StackShaped(fields, bs);
    if bs == [] {
      NothingPasses(dates, preds, fields);
    } else {
      var n := |bs| - 1;
      StackShaped(fields, bs[..n]);
      FilterStack(dates, preds, fields, bs[..n]);
      assert FilterEach(dates, preds, bs)[..n] == FilterEach(dates, preds, bs[..n]);
      FilterPassingAppend(dates, preds, fields, Stack(fields, bs[..n]), bs[n]);
    }
  }

  lemma NothingPasses(dates: Calendar, preds: seq<Predicate>, fields: seq<Field>)
    ensures FilterPassing(dates, preds, NoRows(fields)) == NoRows(fields)
  {
  }

  /** A projection that keeps the columns of the predicates does not change which rows pass. */
  lemma ProjectPassing(dates: Calendar, preds: seq<Predicate>, b: Batch, names: seq<string>)
    requires WellFormed(b) && forall j :: 0 <= j < |preds| ==> preds[j].column in names
    ensures WellFormed(Project(b, names))
    ensures Passing(dates, preds, Project(b, names)) == Passing(dates, preds, b)
  {
    ProjectFilter(b, names, Passing(dates, preds, b));
    forall i, j | 0 <= i < b.rows && 0 <= j < |preds|
      ensures Passes(dates, preds[j], Project(b, names), i) == Passes(dates, preds[j], b, i)
    {
      ProjectLookup(b, names, preds[j].column);
    }
    forall i | 0 <= i < b.rows
      ensures Passing(dates, preds, Project(b, names))[i] == Passing(dates, preds, b)[i]
    {
    }
  }

  // ---------------------------------------------------------------- single rows

  /** Every column has a cell for every row. */
  predicate Square(b: Batch) {
    forall k :: 0 <= k < |b.columns| ==> |b.columns[k].cells| == b.rows
  }

  /** One row as a batch of its own. */
  function OneRow(b: Batch, i: nat): (r: Batch)
    requires Square(b) && i < b.rows
    ensures Square(r) && |r.columns| == |b.columns|
    ensures forall k :: 0 <= k < |b.columns| ==> r.columns[k].field == b.columns[k].field
  {
    Batch(seq(|b.columns|, k requires 0 <= k < |b.columns| => Column(b.columns[k].field, [b.columns[k].cells[i]])), 1)
  }

  lemma OneRowShaped(fields: seq<Field>, b: Batch, i: nat)
    requires Shaped(fields, b) && i < b.rows
    ensures Shaped(fields, OneRow(b, i))
  {
    forall k | 0 <= k < |fields| ensures CellFits(fields[k].ctype, OneRow(b, i).columns[k].cells[0]) {
      assert CellFits(b.columns[k].field.ctype, b.columns[k].cells[i]);
    }
  }

  /** The row of two appended batches is a row of one of them. */
  lemma OneRowAppend(a: Batch, b: Batch, i: nat)
    requires Square(a) && Square(b) && |a.columns| == |b.columns| && i < a.rows + b.rows
    requires forall k :: 0 <= k < |a.columns| ==> a.columns[k].field == b.columns[k].field
    ensures Square(Append(a, b))
    ensures OneRow(Append(a, b), i) == if i < a.rows then OneRow(a, i) else OneRow(b, i - a.rows)
  {
  }

  lemma {:induction false} OneRowProjectColumns(cs: seq<Column>, names: seq<string>, rows: nat, i: nat)
    requires Square(Batch(cs, rows)) && i < rows
    ensures Square(Batch(ProjectColumns(cs, names), rows))
    ensures ProjectColumns(OneRow(Batch(cs, rows), i).columns, names) ==
            OneRow(Batch(ProjectColumns(cs, names), rows), i).columns
  {
    if cs != [] {
      assert Square(Batch(cs[1..], rows));
      OneRowProjectColumns(cs[1..], names, rows, i);
      assert OneRow(Batch(cs, rows), i).columns[1..] == OneRow(Batch(cs[1..], rows), i).columns;
    }
  }

  lemma OneRowProject(b: Batch, names: seq<string>, i: nat)
    requires Square(b) && i < b.rows
    ensures Square(Project(b, names)) && OneRow(Project(b, names), i) == Project(OneRow(b, i), names)
  {
    OneRowProjectColumns(b.columns, names, b.rows, i);
  }

  /** Whether a row passes is a matter of that row alone. */
  lemma OneRowPasses(dates: Calendar, preds: seq<Predicate>, fields: seq<Field>, b: Batch, i: nat)
    requires Shaped(fields, b) && i < b.rows
    ensures Shaped(fields, OneRow(b, i))
    ensures PassesAll(dates, preds, OneRow(b, i), 0) <==> PassesAll(dates, preds, b, i)
  {
    OneRowShaped(fields, b, i);
    forall j | 0 <= j < |preds| ensures Passes(dates, preds[j], OneRow(b, i), 0) == Passes(dates, preds[j], b, i) {
      SameIndex(fields, OneRow(b, i), b, preds[j].column);
    }
  }

  /** Every row of a batch is a row of the stack. */
  lemma {:induction false} OneRowOfStack(fields: seq<Field>, bs: seq<Batch>, j: nat, k: nat) returns (i: nat)
    requires AllShaped(fields, bs) && j < |bs| && k < bs[j].rows
    ensures Shaped(fields, Stack(fields, bs)) && i < Stack(fields, bs).rows
    ensures OneRow(Stack(fields, bs), i) == OneRow(bs[j], k)
  {
    StackShaped(fields, bs);
    var n := |bs| - 1;
    StackShaped(fields, bs[..n]);
    var init := Stack(fields, bs[..n]);
    if j < n {
      i := OneRowOfStack(fields, bs[..n], j, k);
    } else {
      i := init.rows + k;
    }
    OneRowAppend(init, bs[n], i);
  }
}
