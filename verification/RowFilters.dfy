/**
 Row filters on record batches: a predicate is evaluated on a column to a three-valued mask, every
 column is filtered by the mask, and the next predicate sees the batch that is left.
 */
module RowFilters {
  import opened Sequences
  import opened Text
  import opened FilterSyntax
  import opened Comparisons

  datatype Field = Field(name: string, ctype: ColumnType, nullable: bool)

  datatype Column = Column(field: Field, cells: seq<Cell>)

  datatype Batch = Batch(columns: seq<Column>, rows: nat)

  predicate WellFormed(b: Batch) {
    forall k :: 0 <= k < |b.columns| ==>
      |b.columns[k].cells| == b.rows &&
      forall i :: 0 <= i < b.rows ==> CellFits(b.columns[k].field.ctype, b.columns[k].cells[i])
  }

  /** The comparison of a column fails as a whole when there is no literal of its type. */
  function EvaluateFilter(dates: Calendar, p: Predicate, column: Column): Result<seq<Truth>, string> {
    match Literal(dates, p.value, column.field.ctype)
    case None => Err("cannot compare")
    case Some(literal) =>
      Ok(Map(column.cells, (c: Cell) => CompareCells(p.op, c, literal)))
  }

  // ---------------------------------------------------------------- masks

  function Count(keep: seq<bool>): nat {
    if keep == [] then 0 else (if keep[0] then 1 else 0) + Count(keep[1..])
  }

  /** The elements at the places that are kept; a null in a mask keeps nothing. */
  function FilterBy<T>(xs: seq<T>, keep: seq<bool>): (r: seq<T>)
    requires |xs| == |keep|
    ensures |r| == Count(keep)
  {
    if xs == [] then []
    else if keep[0] then [xs[0]] + FilterBy(xs[1..], keep[1..])
    else FilterBy(xs[1..], keep[1..])
  }

  function Both(a: seq<bool>, b: seq<bool>): seq<bool>
    requires |a| == |b|
  {
    seq(|a|, i requires 0 <= i < |a| => a[i] && b[i])
  }

  /** Filtering by b what a has left is filtering once by both. */
  lemma {:induction false} FiltersFuse<T>(xs: seq<T>, a: seq<bool>, b: seq<bool>)
    requires |xs| == |a| == |b|
    ensures FilterBy(FilterBy(xs, a), FilterBy(b, a)) == FilterBy(xs, Both(a, b))
    ensures Count(FilterBy(b, a)) == Count(Both(a, b))
  {
    if xs != [] {
      FiltersFuse(xs[1..], a[1..], b[1..]);
      assert Both(a, b)[1..] == Both(a[1..], b[1..]);
      if a[0] {
        assert FilterBy(xs, a)[1..] == FilterBy(xs[1..], a[1..]);
        assert FilterBy(b, a)[1..] == FilterBy(b[1..], a[1..]);
      }
    }
  }

  lemma {:induction false} FilterAppend<T>(xs: seq<T>, ys: seq<T>, a: seq<bool>, b: seq<bool>)
    requires |xs| == |a| && |ys| == |b|
    ensures FilterBy(xs + ys, a + b) == FilterBy(xs, a) + FilterBy(ys, b)
    ensures Count(a + b) == Count(a) + Count(b)
  {
    if xs == [] {
      assert xs + ys == ys && a + b == b;
    } else {
      assert (xs + ys)[1..] == xs[1..] + ys && (a + b)[1..] == a[1..] + b;
      FilterAppend(xs[1..], ys, a[1..], b);
    }
  }

  /** A property of single elements commutes with filtering. */
  lemma {:induction false} FilterMap<T, U>(xs: seq<T>, f: T -> U, a: seq<bool>)
    requires |xs| == |a|
    ensures FilterBy(Map(xs, f), a) == Map(FilterBy(xs, a), f)
  {
    if xs != [] {
      FilterMap(xs[1..], f, a[1..]);
      assert Map(xs, f)[1..] == Map(xs[1..], f);
    }
  }

  lemma {:induction false} FilterMember<T>(xs: seq<T>, a: seq<bool>, k: nat)
    requires |xs| == |a| && k < |FilterBy(xs, a)|
    ensures exists i :: 0 <= i < |xs| && a[i] && xs[i] == FilterBy(xs, a)[k]
  {
    if a[0] && k == 0 {
      assert xs[0] == FilterBy(xs, a)[0];
    } else {
      var k' := if a[0] then k - 1 else k;
      FilterMember(xs[1..], a[1..], k');
      var i :| 0 <= i < |xs[1..]| && a[1..][i] && xs[1..][i] == FilterBy(xs[1..], a[1..])[k'];
      assert xs[i + 1] == FilterBy(xs, a)[k] && a[i + 1];
    }
  }

  // ---------------------------------------------------------------- filtering a batch

  /** The first element at or behind i with a name. */
  function NamedFrom<T>(xs: seq<T>, nameOf: T -> string, name: string, i: nat): (r: Option<nat>)
    requires i <= |xs|
    ensures r.Some? ==> i <= r.value < |xs| && nameOf(xs[r.value]) == name
    ensures r.Some? ==> forall j :: i <= j < r.value ==> nameOf(xs[j]) != name
    ensures r.None? ==> forall j :: i <= j < |xs| ==> nameOf(xs[j]) != name
    decreases |xs| - i
  {
    if i == |xs| then None else if nameOf(xs[i]) == name then Some(i) else NamedFrom(xs, nameOf, name, i + 1)
  }

  function FieldName(field: Field): string {
    field.name
  }

  function ColumnName(column: Column): string {
    column.field.name
  }

  /** The position of the first field with a name. */
  function FieldIndex(fields: seq<Field>, name: string): (r: Option<nat>)
    ensures r.Some? ==> r.value < |fields| && fields[r.value].name == name
    ensures r.None? ==> forall k :: 0 <= k < |fields| ==> fields[k].name != name
  {
    var r := NamedFrom(fields, FieldName, name, 0);
    assert r.None? ==> forall k :: 0 <= k < |fields| ==> FieldName(fields[k]) != name;
    r
  }

  /** The position of the first column with a name. */
  function ColumnIndex(b: Batch, name: string): (r: Option<nat>)
    ensures r.Some? ==> r.value < |b.columns| && b.columns[r.value].field.name == name
  {
    NamedFrom(b.columns, ColumnName, name, 0)
  }

  lemma {:induction false} SameNames<T, U>(xs: seq<T>, f: T -> string, ys: seq<U>, g: U -> string, name: string, i: nat)
    requires |xs| == |ys| && i <= |xs| && forall k :: 0 <= k < |xs| ==> f(xs[k]) == g(ys[k])
    ensures NamedFrom(xs, f, name, i) == NamedFrom(ys, g, name, i)
    decreases |xs| - i
  {
    if i < |xs| {
      SameNames(xs, f, ys, g, name, i + 1);
    }
  }

  /** Batches with the same names have their columns in the same places. */
  lemma SameColumns(a: Batch, b: Batch, name: string)
    requires |a.columns| == |b.columns|
    requires forall k :: 0 <= k < |a.columns| ==> a.columns[k].field == b.columns[k].field
    ensures ColumnIndex(a, name) == ColumnIndex(b, name)
  {
    SameNames(a.columns, ColumnName, b.columns, ColumnName, name, 0);
  }

  /** The column exists and can be compared with the literal. */
  predicate Applies(dates: Calendar, p: Predicate, b: Batch) {
    var k := ColumnIndex(b, p.column);
    k.Some? && Literal(dates, p.value, b.columns[k.value].field.ctype).Some?
  }

  function CellPasses(dates: Calendar, p: Predicate, t: ColumnType): Cell -> bool
    requires Literal(dates, p.value, t).Some?
  {
    var literal := Literal(dates, p.value, t).value;
    (c: Cell) => CompareCells(p.op, c, literal) == Yes
  }

  /** Where a predicate is true. */
  function Mask(dates: Calendar, p: Predicate, b: Batch): (r: seq<bool>)
    requires WellFormed(b) && Applies(dates, p, b)
    ensures |r| == b.rows
  {
    var column := b.columns[ColumnIndex(b, p.column).value];
    Map(column.cells, CellPasses(dates, p, column.field.ctype))
  }

  predicate AllApply(dates: Calendar, preds: seq<Predicate>, b: Batch) {
    forall j :: 0 <= j < |preds| ==> Applies(dates, preds[j], b)
  }

  /** The conjunction of all predicates on every row: the specification of the filter loop. */
  function RowMask(dates: Calendar, preds: seq<Predicate>, b: Batch): (r: seq<bool>)
    requires WellFormed(b) && AllApply(dates, preds, b)
    ensures |r| == b.rows
  {
    seq(b.rows, i requires 0 <= i < b.rows => forall j :: 0 <= j < |preds| ==> Mask(dates, preds[j], b)[i])
  }

  /** Filters every column by the same mask, so rows stay aligned. */
  function FilterBatch(b: Batch, keep: seq<bool>): Batch
    requires WellFormed(b) && |keep| == b.rows
  {
    Batch(seq(|b.columns|, k requires 0 <= k < |b.columns| =>
            Column(b.columns[k].field, FilterBy(b.columns[k].cells, keep))), Count(keep))
  }

  lemma FilterKeepsForm(b: Batch, keep: seq<bool>)
    requires WellFormed(b) && |keep| == b.rows
    ensures WellFormed(FilterBatch(b, keep))
    ensures forall name :: ColumnIndex(FilterBatch(b, keep), name) == ColumnIndex(b, name)
  {
    var c := FilterBatch(b, keep);
    forall k | 0 <= k < |c.columns|
      ensures |c.columns[k].cells| == c.rows &&
              forall i :: 0 <= i < c.rows ==> CellFits(c.columns[k].field.ctype, c.columns[k].cells[i])
    {
      forall i | 0 <= i < c.rows ensures CellFits(c.columns[k].field.ctype, c.columns[k].cells[i]) {
        FilterMember(b.columns[k].cells, keep, i);
      }
    }
    forall name ensures ColumnIndex(c, name) == ColumnIndex(b, name) {
      SameColumns(c, b, name);
    }
  }

  /** On a batch that is already filtered, a predicate is true where it was true before. */
  lemma MaskAfterFilter(dates: Calendar, p: Predicate, b: Batch, keep: seq<bool>)
    requires WellFormed(b) && |keep| == b.rows && Applies(dates, p, b)
    ensures WellFormed(FilterBatch(b, keep)) && Applies(dates, p, FilterBatch(b, keep))
    ensures Mask(dates, p, FilterBatch(b, keep)) == FilterBy(Mask(dates, p, b), keep)
  {
    FilterKeepsForm(b, keep);
    var k := ColumnIndex(b, p.column).value;
    var column, f := b.columns[k], CellPasses(dates, p, b.columns[k].field.ctype);
    assert ColumnIndex(FilterBatch(b, keep), p.column) == Some(k);
    assert FilterBatch(b, keep).columns[k] == Column(column.field, FilterBy(column.cells, keep));
    FilterMap(column.cells, f, keep);
  }

  /** Two filter passes, the second on the shrunk batch, are one pass over all rows. */
  lemma PassesFuse(dates: Calendar, p: Predicate, b: Batch, keep: seq<bool>)
    requires WellFormed(b) && |keep| == b.rows && Applies(dates, p, b)
    ensures WellFormed(FilterBatch(b, keep)) && Applies(dates, p, FilterBatch(b, keep))
    ensures FilterBatch(FilterBatch(b, keep), Mask(dates, p, FilterBatch(b, keep))) ==
            FilterBatch(b, Both(keep, Mask(dates, p, b)))
  {
    MaskAfterFilter(dates, p, b, keep);
    var m := Mask(dates, p, b);
    forall k | 0 <= k < |b.columns|
      ensures FilterBy(FilterBy(b.columns[k].cells, keep), FilterBy(m, keep)) == FilterBy(b.columns[k].cells, Both(keep, m))
    {
      FiltersFuse(b.columns[k].cells, keep, m);
    }
    FiltersFuse(m, keep, m);
  }

  lemma RowMaskSnoc(dates: Calendar, preds: seq<Predicate>, p: Predicate, b: Batch)
    requires WellFormed(b) && AllApply(dates, preds + [p], b)
    ensures AllApply(dates, preds, b) && Applies(dates, p, b)
    ensures RowMask(dates, preds + [p], b) == Both(RowMask(dates, preds, b), Mask(dates, p, b))
  {
    assert forall j :: 0 <= j < |preds| ==> (preds + [p])[j] == preds[j];
    assert (preds + [p])[|preds|] == p;
    forall i | 0 <= i < b.rows
      ensures RowMask(dates, preds + [p], b)[i] == Both(RowMask(dates, preds, b), Mask(dates, p, b))[i]
    {
      assert RowMask(dates, preds + [p], b)[i] ==> Mask(dates, (preds + [p])[|preds|], b)[i];
      if RowMask(dates, preds + [p], b)[i] {
        forall j | 0 <= j < |preds| ensures Mask(dates, preds[j], b)[i] {
          assert Mask(dates, (preds + [p])[j], b)[i];
        }
      }
    }
  }

  lemma NoFilter(dates: Calendar, b: Batch)
    requires WellFormed(b)
    ensures FilterBatch(b, RowMask(dates, [], b)) == b
  {
    var keep := RowMask(dates, [], b);
    forall k | 0 <= k < |b.columns| ensures FilterBy(b.columns[k].cells, keep) == b.columns[k].cells {
      KeepAll(b.columns[k].cells, keep);
    }
    KeepAll(keep, keep);
  }

  lemma {:induction false} KeepAll<T>(xs: seq<T>, keep: seq<bool>)
    requires |xs| == |keep| && forall i :: 0 <= i < |keep| ==> keep[i]
    ensures FilterBy(xs, keep) == xs && Count(keep) == |keep|
  {
    if xs != [] {
      KeepAll(xs[1..], keep[1..]);
    }
  }

  datatype FilterError = MissingColumn(name: string) | NotComparable(name: string)

  /** Why a predicate does not apply to a batch. */
  function FailureOf(p: Predicate, b: Batch): FilterError {
    if exists k :: 0 <= k < |b.columns| && b.columns[k].field.name == p.column then NotComparable(p.column)
    else MissingColumn(p.column)
  }

  /** The first predicate that does not apply fails the batch. */
  ghost predicate FirstFailure(dates: Calendar, preds: seq<Predicate>, b: Batch, error: FilterError) {
    exists n :: 0 <= n < |preds| && AllApply(dates, preds[..n], b) && !Applies(dates, preds[n], b)
                && error == FailureOf(preds[n], b)
  }

  /** The body of the filter loop: the column is looked up, compared, and all columns are filtered. */
  method ApplyRowFilter(dates: Calendar, p: Predicate, b: Batch) returns (r: Result<Batch, FilterError>)
    requires WellFormed(b)
    ensures r.Ok? <==> Applies(dates, p, b)
    ensures r.Ok? ==> r.value == FilterBatch(b, Mask(dates, p, b))
    ensures r.Err? ==> r.error == FailureOf(p, b)
  {
    var k := ColumnIndex(b, p.column);
    if k.None? {
      return Err(MissingColumn(p.column));
    }
    var evaluated := EvaluateFilter(dates, p, b.columns[k.value]);
    if evaluated.Err? {
      return Err(NotComparable(p.column));
    }
    var mask := seq(|evaluated.value|, i requires 0 <= i < |evaluated.value| => evaluated.value[i] == Yes);
    assert mask == Mask(dates, p, b);
    return Ok(FilterBatch(b, mask));
  }

  /**
   What a filter keeps: where the literal is exact, the rows whose cell has a value that is in the
   operator's relation to the value of the literal. Text is compared by its characters.
   */
  lemma KeptByValue(dates: Calendar, p: Predicate, b: Batch, i: nat)
    requires WellFormed(b) && Applies(dates, p, b) && i < b.rows
    requires ExactLiteral(dates, p, b.columns[ColumnIndex(b, p.column).value].field.ctype)
    ensures var column := b.columns[ColumnIndex(b, p.column).value];
            var value, literal := ValueOf(column.field.ctype, column.cells[i]), LiteralValue(dates, p.value, column.field.ctype);
            Mask(dates, p, b)[i] <==> value.Some? && Relates(p.op, value.value, literal)
  {
    var column := b.columns[ColumnIndex(b, p.column).value];
    EvaluationIsExact(dates, p, column.field.ctype);
    assert CellFits(column.field.ctype, column.cells[i]);
    HoldsIsComparison(dates, p, column.field.ctype, column.cells[i]);
  }

  lemma LettersAroundM()
    ensures !CompareText(Gt, "A", "M") && CompareText(Gt, "Z", "M")
  {
    TextComparison("A", "M");
    TextComparison("Z", "M");
    assert PrecedesAt("A", "M", 0) && PrecedesAt("M", "Z", 0);
    PrecedesTrichotomy("A", "M");
  }

  /** For instance `region > 'M'` keeps "Z" and drops "A" and null. */
  lemma RegionsBehindM(dates: Calendar)
    ensures var field := Field("region", TUtf8, true);
            var b := Batch([Column(field, [Chars("A"), Chars("Z"), Null])], 3);
            var p := Predicate(Gt, "region", Str("M"));
            WellFormed(b) && Applies(dates, p, b) && Mask(dates, p, b) == [false, true, false]
  {
    var b, p := Batch([Column(Field("region", TUtf8, true), [Chars("A"), Chars("Z"), Null])], 3), Predicate(Gt, "region", Str("M"));
    assert ColumnIndex(b, "region") == Some(0);
    LettersAroundM();
  }

  /** On what earlier filters have left, a predicate applies if it applies to the batch. */
  lemma AppliesAfterFilter(dates: Calendar, p: Predicate, b: Batch, keep: seq<bool>)
    requires WellFormed(b) && |keep| == b.rows
    ensures WellFormed(FilterBatch(b, keep))
    ensures Applies(dates, p, FilterBatch(b, keep)) <==> Applies(dates, p, b)
    ensures FailureOf(p, FilterBatch(b, keep)) == FailureOf(p, b)
  {
    FilterKeepsForm(b, keep);
    assert ColumnIndex(FilterBatch(b, keep), p.column) == ColumnIndex(b, p.column);
    assert forall k :: 0 <= k < |b.columns| ==> FilterBatch(b, keep).columns[k].field == b.columns[k].field;
  }

  /** One more predicate that applies, on the batch that the earlier ones have left. */
  lemma NextFilter(dates: Calendar, preds: seq<Predicate>, n: nat, b: Batch)
    requires WellFormed(b) && n < |preds| && AllApply(dates, preds[..n], b) && Applies(dates, preds[n], b)
    ensures AllApply(dates, preds[..n + 1], b)
    ensures var left := FilterBatch(b, RowMask(dates, preds[..n], b));
            && WellFormed(left) && Applies(dates, preds[n], left)
            && FilterBatch(left, Mask(dates, preds[n], left)) == FilterBatch(b, RowMask(dates, preds[..n + 1], b))
  {
    assert preds[..n + 1] == preds[..n] + [preds[n]];
    PassesFuse(dates, preds[n], b, RowMask(dates, preds[..n], b));
    RowMaskSnoc(dates, preds[..n], preds[n], b);
  }

  /**
   The filter loop of `scan` and `read`: one predicate after the other on the batch that is left.
   It succeeds exactly when every predicate applies, whatever their order, and then one filter by
   the conjunction over all rows gives the same batch.
   */
  method ApplyRowFilters(dates: Calendar, preds: seq<Predicate>, batch: Batch) returns (r: Result<Batch, FilterError>)
    requires WellFormed(batch)
    ensures r.Ok? <==> AllApply(dates, preds, batch)
    ensures r.Ok? ==> r.value == FilterBatch(batch, RowMask(dates, preds, batch))
    ensures r.Err? ==> FirstFailure(dates, preds, batch, r.error)
  {
    var current := batch;
    NoFilter(dates, batch);
    for n := 0 to |preds|
      invariant AllApply(dates, preds[..n], batch)
      invariant current == FilterBatch(batch, RowMask(dates, preds[..n], batch))
    {
      AppliesAfterFilter(dates, preds[n], batch, RowMask(dates, preds[..n], batch));
      r := ApplyRowFilter(dates, preds[n], current);
      if r.Err? {
        return;
      }
      NextFilter(dates, preds, n, batch);
      current := r.value;
    }
    assert preds[..|preds|] == preds;
    return Ok(current);
  }

  /** The order of the predicates does not matter. */
  lemma FilterOrderIrrelevant(dates: Calendar, preds: seq<Predicate>, preds': seq<Predicate>, b: Batch)
    requires WellFormed(b) && forall p :: p in preds <==> p in preds'
    ensures AllApply(dates, preds, b) <==> AllApply(dates, preds', b)
    ensures AllApply(dates, preds, b) ==> RowMask(dates, preds, b) == RowMask(dates, preds', b)
  {
    AllApplyMembers(dates, preds, b);
    AllApplyMembers(dates, preds', b);
    if AllApply(dates, preds, b) {
      forall i | 0 <= i < b.rows ensures RowMask(dates, preds, b)[i] == RowMask(dates, preds', b)[i] {
        RowMaskMembers(dates, preds, b, i);
        RowMaskMembers(dates, preds', b, i);
      }
    }
  }

  lemma AllApplyMembers(dates: Calendar, preds: seq<Predicate>, b: Batch)
    ensures AllApply(dates, preds, b) <==> forall p :: p in preds ==> Applies(dates, p, b)
  {
    if forall p :: p in preds ==> Applies(dates, p, b) {
      assert forall j :: 0 <= j < |preds| ==> preds[j] in preds;
    }
  }

  lemma RowMaskMembers(dates: Calendar, preds: seq<Predicate>, b: Batch, i: nat)
    requires WellFormed(b) && AllApply(dates, preds, b) && i < b.rows
    ensures RowMask(dates, preds, b)[i] <==> forall p :: p in preds ==> Applies(dates, p, b) && Mask(dates, p, b)[i]
  {
    if forall p :: p in preds ==> Applies(dates, p, b) && Mask(dates, p, b)[i] {
      assert forall j :: 0 <= j < |preds| ==> preds[j] in preds;
    }
  }
}
