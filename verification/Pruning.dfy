/**
 Row-group pruning: the minimum and maximum that a file keeps for a column chunk may show that no
 row of the group can satisfy a predicate, and then the group is not read at all.
 */
module Pruning {
  import opened Sequences
  import opened Text
  import opened FilterSyntax
  import opened Comparisons
  import opened RowFilters
  import opened Tables

  /** Statistics by physical kind; every kind can be seen as raw bytes, and for the other kinds only that matters. */
  datatype Statistics =
    | Int32Stats(min32: Option<int>, max32: Option<int>)
    | Int64Stats(min64: Option<int>, max64: Option<int>)
    | BytesStats(minBytes: Option<seq<int>>, maxBytes: Option<seq<int>>)

  /** The two's complement encoding of a number in w bytes, lowest byte first. */
  function LittleEndian(n: int, w: nat): (r: seq<int>)
    ensures |r| == w
    decreases w
  {
    if w == 0 then [] else [n % 256] + LittleEndian(n / 256, w - 1)
  }

  function Encoded(n: Option<int>, w: nat): Option<seq<int>> {
    match n case Some(v) => Some(LittleEndian(v, w)) case None => None
  }

  function LowBytes(s: Statistics): Option<seq<int>> {
    match s
    case Int32Stats(min, _) => Encoded(min, 4)
    case Int64Stats(min, _) => Encoded(min, 8)
    case BytesStats(min, _) => min
  }

  function HighBytes(s: Statistics): Option<seq<int>> {
    match s
    case Int32Stats(_, max) => Encoded(max, 4)
    case Int64Stats(_, max) => Encoded(max, 8)
    case BytesStats(_, max) => max
  }

  predicate Between(v: int, min: Option<int>, max: Option<int>) {
    min.Some? && max.Some? ==> min.value <= v <= max.value
  }

  /** Whether the statistics leave room for a row that satisfies the predicate. */
  predicate EvaluateStatistics(p: Predicate, s: Statistics) {
    match (p.op, p.value, s)
    case (Neq, _, _) => true
    case (Eq, Int64(v), Int64Stats(min, max)) => Between(v, min, max)
    case (Eq, Int64(v), Int32Stats(min, max)) => Between(v, min, max)
    case (Gt, Int64(v), Int64Stats(_, max)) => max.Some? ==> max.value > v
    case (Gt, Int64(v), Int32Stats(_, max)) => max.Some? ==> max.value > v
    case (Lt, Int64(v), Int64Stats(min, _)) => min.Some? ==> min.value < v
    case (Lt, Int64(v), Int32Stats(min, _)) => min.Some? ==> min.value < v
    case (Eq, Str(t), _) =>
      LowBytes(s).Some? && HighBytes(s).Some? ==>
        BytesAtMost(LowBytes(s).value, Utf8(t)) && BytesAtMost(Utf8(t), HighBytes(s).value)
    case _ => true
  }

  /** What a stored word stands for: the columns of unsigned numbers store them as signed words. */
  function Meant(t: ColumnType, raw: int): int {
    if t == TUInt32 && raw < 0 then raw + 0x1_0000_0000
    else if t == TUInt64 && raw < 0 then raw + 0x1_0000_0000_0000_0000
    else raw
  }

  predicate NumberBounds(t: ColumnType, min: Option<int>, max: Option<int>, c: Cell) {
    c.Num? ==>
      && (min.Some? ==> Meant(t, min.value) <= c.n)
      && (max.Some? ==> c.n <= Meant(t, max.value))
  }

  predicate TextBounds(min: Option<seq<int>>, max: Option<seq<int>>, c: Cell) {
    c.Chars? ==>
      && (min.Some? ==> BytesAtMost(min.value, Utf8(c.s)))
      && (max.Some? ==> BytesAtMost(Utf8(c.s), max.value))
  }

  /** What it takes for statistics of a column to be true of a cell: their kind and their bounds. */
  predicate StatsAdmit(s: Statistics, t: ColumnType, c: Cell) {
    match StoredAs(t)
    case Some(Word32) =>
      && s.Int32Stats?
      && (s.min32.Some? ==> IsI32(s.min32.value)) && (s.max32.Some? ==> IsI32(s.max32.value))
      && NumberBounds(t, s.min32, s.max32, c)
    case Some(Word64) =>
      && s.Int64Stats?
      && (s.min64.Some? ==> IsI64(s.min64.value)) && (s.max64.Some? ==> IsI64(s.max64.value))
      && NumberBounds(t, s.min64, s.max64, c)
    case Some(RawBytes) => s.BytesStats?
    case None => t == TUtf8 || t == TLargeUtf8 || t == TFloat ==> s.BytesStats? && TextBounds(s.minBytes, s.maxBytes, c)
  }

  // ---------------------------------------------------------------- when pruning is sound

  /** Unsigned numbers of a word whose sign bit weighs `half`, compared with a literal by their signed words. */
  predicate UnsignedIsSound(op: Op, v: int, half: int) {
    match op
    case Eq => v < 0 || v >= 2 * half
    case Gt => v < -half || v >= 2 * half - 1
    case _ => true
  }

  /** Decimals with a fraction, compared with a literal by their unscaled numbers. */
  predicate DecimalIsSound(op: Op, v: int, t: ColumnType) {
    match op
    case Eq => v == 0 || !NumberFits(t, Scaled(t, v))
    case Gt => v >= 0 || !NumberFits(t, v)
    case Lt => v <= 0 || !NumberFits(t, v)
    case Neq => true
  }

  /** The statistics of a column of numbers can be compared with a whole number. */
  predicate IntegerIsSound(op: Op, v: int, t: ColumnType) {
    match t
    case TUInt32 => UnsignedIsSound(op, v, 0x8000_0000)
    case TUInt64 => UnsignedIsSound(op, v, 0x8000_0000_0000_0000)
    case TDecimal(storage, _, scale) => storage == RawBytes || scale == 0 || DecimalIsSound(op, v, t)
    case _ => true
  }

  /** The cell of a date or time column that a text stands for, if there is one. */
  function NumberOfText(dates: Calendar, text: string, t: ColumnType): Option<int> {
    if t == TDate32 then (match dates.days(text) case Some(d) => Some(d) case None => None)
    else if UnitOf(t).Some? && dates.millis(text).Some? then
      var ms := dates.millis(text).value;
      match UnitOf(t).value
      case Second => if ms % 1000 == 0 then Some(ms / 1000) else None
      case Millisecond => Some(ms)
      case Microsecond => if IsI64(ms * 1000) then Some(ms * 1000) else None
      case Nanosecond => if IsI64(ms * 1_000_000) then Some(ms * 1_000_000) else None
    else None
  }

  /**
   The statistics can be compared with the literal: not for unsigned numbers and decimals, apart
   from literals that cannot go wrong, and not for equality of a date or time with its text form,
   which is compared byte by byte with a number.
   */
  predicate ComparableStats(dates: Calendar, p: Predicate, t: ColumnType) {
    match p.value
    case Int64(v) => IntegerIsSound(p.op, v, t)
    case Str(text) => !(p.op == Eq && NumberOfText(dates, text, t).Some?)
  }

  lemma {:induction false} BytesAntisymmetric(a: seq<int>, b: seq<int>)
    requires BytesAtMost(a, b) && BytesAtMost(b, a)
    ensures a == b
  {
    if a != [] && b != [] {
      BytesAntisymmetric(a[1..], b[1..]);
      assert a == [a[0]] + a[1..] && b == [b[0]] + b[1..];
    }
  }

  /** A product with a power of ten above one is further from zero. */
  lemma ScalingGrows(v: int, scale: nat)
    requires scale > 0
    ensures v > 0 ==> v * PowerOfTen(scale) > v
    ensures v < 0 ==> v * PowerOfTen(scale) < v
    ensures v == 0 ==> v * PowerOfTen(scale) == 0
  {
    var m := PowerOfTen(scale);
    assert m >= 10;
    if v > 0 {
      assert v * m >= v * 10 by { assert v * (m - 10) >= 0; }
    } else if v < 0 {
      assert v * m <= v * 10 by { assert (-v) * (m - 10) >= 0; }
    }
  }

  /** Bounds of unscaled numbers that leave no room for the literal leave none for the scaled literal. */
  lemma UnscaledBounds(op: Op, v: int, t: ColumnType, n: int, min: Option<int>, max: Option<int>)
    requires t.TDecimal? && (t.scale == 0 || DecimalIsSound(op, v, t)) && NumberFits(t, n)
    requires (min.Some? ==> min.value <= n) && (max.Some? ==> n <= max.value)
    requires (op == Eq && !Between(v, min, max)) || (op == Gt && max.Some? && max.value <= v) || (op == Lt && min.Some? && v <= min.value)
    ensures !CompareNum(op, n, Scaled(t, v))
  {
    if t.scale > 0 {
      ScalingGrows(v, t.scale);
    } else {
      assert PowerOfTen(0) == 1;
    }
  }

  lemma PrunedDecimalFails(dates: Calendar, p: Predicate, t: ColumnType, s: Statistics, c: Cell)
    requires t.TDecimal? && p.value.Int64? && IntegerIsSound(p.op, p.value.n, t) && CellFits(t, c)
    requires StatsAdmit(s, t, c) && !EvaluateStatistics(p, s)
    ensures Holds(dates, p, t, c) != Yes
  {
    if c.Num? {
      match s
      case Int32Stats(min, max) => UnscaledBounds(p.op, p.value.n, t, c.n, min, max);
      case Int64Stats(min, max) => UnscaledBounds(p.op, p.value.n, t, c.n, min, max);
      case BytesStats(_, _) =>
    }
  }

  /** Statistics that rule a whole-number predicate out are true of no cell that satisfies it. */
  lemma PrunedNumberFails(dates: Calendar, p: Predicate, t: ColumnType, s: Statistics, c: Cell)
    requires p.value.Int64? && IntegerIsSound(p.op, p.value.n, t) && CellFits(t, c)
    requires StatsAdmit(s, t, c) && !EvaluateStatistics(p, s)
    ensures Holds(dates, p, t, c) != Yes
  {
    if t.TDecimal? {
      PrunedDecimalFails(dates, p, t, s, c);
    }
  }

  lemma SameInstant(dates: Calendar, text: string, t: ColumnType, n: int)
    requires UnitOf(t).Some? && dates.millis(text).Some? && IsI64(n)
    ensures CompareTime(Eq, UnitOf(t).value, n, dates.millis(text).value) <==> NumberOfText(dates, text, t) == Some(n)
  {
  }

  lemma PrunedTextFails(dates: Calendar, p: Predicate, t: ColumnType, s: Statistics, c: Cell)
    requires p.value.Str? && ComparableStats(dates, p, t) && CellFits(t, c)
    requires StatsAdmit(s, t, c) && !EvaluateStatistics(p, s)
    ensures Holds(dates, p, t, c) != Yes
  {
    if UnitOf(t).Some? && dates.millis(p.value.text).Some? && c.Num? {
      SameInstant(dates, p.value.text, t, c.n);
    }
  }

  lemma PrunedCellFails(dates: Calendar, p: Predicate, t: ColumnType, s: Statistics, c: Cell)
    requires ComparableStats(dates, p, t) && CellFits(t, c) && StatsAdmit(s, t, c) && !EvaluateStatistics(p, s)
    ensures Holds(dates, p, t, c) != Yes
  {
    match p.value
    case Int64(_) => PrunedNumberFails(dates, p, t, s, c);
    case Str(_) => PrunedTextFails(dates, p, t, s, c);
  }

  // ---------------------------------------------------------------- when it is not

  /** A cell that satisfies the predicate in a column whose true statistics rule it out. */
  predicate LosesCell(dates: Calendar, p: Predicate, t: ColumnType, s: Statistics, c: Cell) {
    && CellFits(t, c) && StatsAdmit(s, t, c)
    && !EvaluateStatistics(p, s)
    && Holds(dates, p, t, c) == Yes
  }

  /** Statistics of a column of numbers, from stored words. */
  function WordStats(t: ColumnType, min: Option<int>, max: Option<int>): Statistics {
    if StoredAs(t) == Some(Word64) then Int64Stats(min, max) else Int32Stats(min, max)
  }

  lemma UnsignedLoses(dates: Calendar, p: Predicate, t: ColumnType) returns (s: Statistics, c: Cell)
    requires (t == TUInt32 || t == TUInt64) && p.value.Int64? && !IntegerIsSound(p.op, p.value.n, t)
    ensures LosesCell(dates, p, t, s, c)
  {
    var v := p.value.n;
    var half := if t == TUInt32 then 0x8000_0000 else 0x8000_0000_0000_0000;
    if p.op == Eq {
      c := Num(v);
      s := if v < half then WordStats(t, Some(v), Some(-half)) else WordStats(t, Some(v - 2 * half), Some(v - 2 * half));
    } else if v < 0 {
      c, s := Num(0), WordStats(t, None, Some(-half));
    } else {
      c, s := Num(2 * half - 1), WordStats(t, None, Some(-1));
    }
  }

  lemma DecimalLoses(dates: Calendar, p: Predicate, t: ColumnType) returns (s: Statistics, c: Cell)
    requires t.TDecimal? && p.value.Int64? && !IntegerIsSound(p.op, p.value.n, t)
    ensures LosesCell(dates, p, t, s, c)
  {
    var v := p.value.n;
    ScalingGrows(v, t.scale);
    c := Num(if p.op == Eq then Scaled(t, v) else v);
    s := WordStats(t, Some(c.n), Some(c.n));
  }

  lemma FirstByte(s: string)
    requires s != [] && s[0] != '\0'
    ensures Utf8(s) != [] && 0 < Utf8(s)[0] < 0xFF
  {
    assert s[0] as int != 0;
  }

  lemma FirstBytesDecide(a: seq<int>, b: seq<int>)
    requires a != [] && b != []
    ensures a[0] > b[0] ==> !BytesAtMost(a, b)
  {
  }

  /** A bound below the number whose first byte is above the text's. */
  lemma LowBoundAbove(n: int, w: nat, text: string)
    requires w > 0 && text != [] && text[0] != '\0' && LittleEndian(n, w) == Utf8(text)
    ensures !BytesAtMost(LittleEndian(n - n % 256 - 1, w), Utf8(text))
  {
    var min := n - n % 256 - 1;
    FirstByte(text);
    assert min % 256 == 255;
    assert LittleEndian(min, w)[0] == min % 256 && LittleEndian(n, w)[0] == n % 256;
    FirstBytesDecide(LittleEndian(min, w), Utf8(text));
  }

  /** A bound above the number whose first byte is below the text's. */
  lemma HighBoundBelow(n: int, w: nat, text: string)
    requires w > 0 && text != [] && text[0] != '\0' && LittleEndian(n, w) == Utf8(text)
    ensures !BytesAtMost(Utf8(text), LittleEndian(n + 256 - n % 256, w))
  {
    var max := n + 256 - n % 256;
    FirstByte(text);
    assert max % 256 == 0;
    assert LittleEndian(max, w)[0] == max % 256 && LittleEndian(n, w)[0] == n % 256;
    FirstBytesDecide(Utf8(text), LittleEndian(max, w));
  }

  /** Bounds around the number that put the text outside, compared byte by byte. */
  lemma TextOutOfBytes(n: int, w: nat, low: int, text: string) returns (min: int, max: int)
    requires text != [] && text[0] != '\0'
    requires (w == 4 && low == I32_MIN) || (w == 8 && low == I64_MIN)
    requires low <= n < -low
    ensures low <= min <= n <= max < -low
    ensures !BytesAtMost(LittleEndian(min, w), Utf8(text)) || !BytesAtMost(Utf8(text), LittleEndian(max, w))
  {
    min, max := n, n;
    if LittleEndian(n, w) == Utf8(text) {
      if n - n % 256 - 1 >= low {
        min := n - n % 256 - 1;
        LowBoundAbove(n, w, text);
      } else {
        max := n + 256 - n % 256;
        HighBoundBelow(n, w, text);
      }
    } else if BytesAtMost(LittleEndian(n, w), Utf8(text)) && BytesAtMost(Utf8(text), LittleEndian(n, w)) {
      BytesAntisymmetric(LittleEndian(n, w), Utf8(text));
    }
  }

  /** Text that parses as a date starts with a visible character. */
  predicate RealDate(dates: Calendar, text: string) {
    dates.days(text).Some? || dates.millis(text).Some? ==> text != [] && text[0] != '\0'
  }

  lemma TextHolds(dates: Calendar, p: Predicate, t: ColumnType, n: int)
    requires p.value.Str? && p.op == Eq && NumberOfText(dates, p.value.text, t) == Some(n)
    ensures CellFits(t, Num(n)) && Holds(dates, p, t, Num(n)) == Yes
  {
    if UnitOf(t).Some? {
      SameInstant(dates, p.value.text, t, n);
    }
  }

  lemma DateStats(p: Predicate, n: int, min: int, max: int)
    requires p.value.Str? && p.op == Eq && min <= n <= max && IsI32(min) && IsI32(max)
    requires !BytesAtMost(LittleEndian(min, 4), Utf8(p.value.text)) || !BytesAtMost(Utf8(p.value.text), LittleEndian(max, 4))
    ensures var s := Int32Stats(Some(min), Some(max)); StatsAdmit(s, TDate32, Num(n)) && !EvaluateStatistics(p, s)
  {
  }

  lemma TimeStats(p: Predicate, t: ColumnType, n: int, min: int, max: int)
    requires p.value.Str? && p.op == Eq && min <= n <= max && IsI64(min) && IsI64(max) && UnitOf(t).Some?
    requires !BytesAtMost(LittleEndian(min, 8), Utf8(p.value.text)) || !BytesAtMost(Utf8(p.value.text), LittleEndian(max, 8))
    ensures var s := Int64Stats(Some(min), Some(max)); StatsAdmit(s, t, Num(n)) && !EvaluateStatistics(p, s)
  {
  }

  lemma TextLoses(dates: Calendar, p: Predicate, t: ColumnType) returns (s: Statistics, c: Cell)
    requires p.value.Str? && !ComparableStats(dates, p, t) && RealDate(dates, p.value.text)
    ensures LosesCell(dates, p, t, s, c)
  {
    var n := NumberOfText(dates, p.value.text, t).value;
    TextHolds(dates, p, t, n);
    c := Num(n);
    if t == TDate32 {
      var min, max := TextOutOfBytes(n, 4, I32_MIN, p.value.text);
      s := Int32Stats(Some(min), Some(max));
      DateStats(p, n, min, max);
    } else {
      var min, max := TextOutOfBytes(n, 8, I64_MIN, p.value.text);
      s := Int64Stats(Some(min), Some(max));
      TimeStats(p, t, n, min, max);
    }
  }

  lemma SomeCellIsLost(dates: Calendar, p: Predicate, t: ColumnType) returns (s: Statistics, c: Cell)
    requires !ComparableStats(dates, p, t) && (p.value.Str? ==> RealDate(dates, p.value.text))
    ensures LosesCell(dates, p, t, s, c)
  {
    if p.value.Str? {
      s, c := TextLoses(dates, p, t);
    } else if t.TDecimal? {
      s, c := DecimalLoses(dates, p, t);
    } else {
      s, c := UnsignedLoses(dates, p, t);
    }
  }

  /**
   Pruning by true statistics never drops a match exactly when the statistics can be compared with
   the literal, for every predicate and every type of column.
   */
  lemma PruningIsSoundIff(dates: Calendar, p: Predicate, t: ColumnType)
    requires p.value.Str? ==> RealDate(dates, p.value.text)
    ensures (forall s, c :: !LosesCell(dates, p, t, s, c)) <==> ComparableStats(dates, p, t)
  {
    if ComparableStats(dates, p, t) {
      forall s, c ensures !LosesCell(dates, p, t, s, c) {
        if LosesCell(dates, p, t, s, c) {
          PrunedCellFails(dates, p, t, s, c);
        }
      }
    } else {
      var s, c := SomeCellIsLost(dates, p, t);
    }
  }

  // ---------------------------------------------------------------- how much it prunes

  /** Both bounds of a column of whole numbers, or of text. */
  predicate FullBounds(t: ColumnType, s: Statistics) {
    match t
    case TInt32 => s.Int32Stats? && s.min32.Some? && s.max32.Some? && I32_MIN <= s.min32.value <= s.max32.value <= I32_MAX
    case TInt64 => s.Int64Stats? && s.min64.Some? && s.max64.Some? && I64_MIN <= s.min64.value <= s.max64.value <= I64_MAX
    case TUtf8 => s.BytesStats? && s.minBytes.Some? && s.maxBytes.Some?
    case TLargeUtf8 => s.BytesStats? && s.minBytes.Some? && s.maxBytes.Some?
    case _ => false
  }

  /** The comparisons for which the code looks at the bounds: whole numbers, and equality of text. */
  predicate LooksAtBounds(p: Predicate, t: ColumnType) {
    match p.value
    case Int64(_) => p.op != Neq && (t == TInt32 || t == TInt64)
    case Str(_) => p.op == Eq && (t == TUtf8 || t == TLargeUtf8)
  }

  predicate MayHold(dates: Calendar, p: Predicate, t: ColumnType, s: Statistics, c: Cell) {
    CellFits(t, c) && StatsAdmit(s, t, c) && Holds(dates, p, t, c) == Yes
  }

  /** The cell next to the bound that decides. */
  function BestCell(p: Predicate, s: Statistics): Cell {
    match (p.value, p.op, s)
    case (Str(text), _, _) => Chars(text)
    case (Int64(v), Gt, Int32Stats(_, Some(max))) => Num(max)
    case (Int64(v), Gt, Int64Stats(_, Some(max))) => Num(max)
    case (Int64(v), Lt, Int32Stats(Some(min), _)) => Num(min)
    case (Int64(v), Lt, Int64Stats(Some(min), _)) => Num(min)
    case (Int64(v), _, _) => Num(v)
  }

  /** Where bounds are looked at, a group is kept exactly if they leave room for a cell that satisfies the predicate. */
  lemma PrunesAllThatCannotMatch(dates: Calendar, p: Predicate, t: ColumnType, s: Statistics)
    requires LooksAtBounds(p, t) && FullBounds(t, s)
    ensures EvaluateStatistics(p, s) <==> exists c :: MayHold(dates, p, t, s, c)
  {
    if EvaluateStatistics(p, s) {
      assert MayHold(dates, p, t, s, BestCell(p, s));
    } else {
      forall c ensures !MayHold(dates, p, t, s, c) {
        if MayHold(dates, p, t, s, c) {
          PrunedCellFails(dates, p, t, s, c);
        }
      }
    }
  }

  /** For instance, a group of 7 and 3000000000 in an unsigned column is dropped for `u > 5`. */
  lemma UnsignedGroupIsDropped(dates: Calendar)
    ensures var p, s := Predicate(Gt, "u", Int64(5)), Int32Stats(Some(7), Some(-1294967296));
            LosesCell(dates, p, TUInt32, s, Num(7)) && LosesCell(dates, p, TUInt32, s, Num(3000000000))
  {
  }

  /** And prices from 50.00 up to 80.00 are dropped for `price < 100`. */
  lemma DecimalGroupIsDropped(dates: Calendar)
    ensures var p, t, s := Predicate(Lt, "price", Int64(100)), TDecimal(Word32, 9, 2), Int32Stats(Some(5000), Some(8000));
            LosesCell(dates, p, t, s, Num(5000)) && LosesCell(dates, p, t, s, Num(8000))
  {
    assert PowerOfTen(2) == 100;
    assert PowerOfTen(4) == 10000;
    assert PowerOfTen(8) == 100000000;
  }

  // ---------------------------------------------------------------- files

  datatype RowGroup = RowGroup(rows: Batch, stats: seq<Option<Statistics>>)

  datatype File = File(fields: seq<Field>, groups: seq<RowGroup>)

  /** Every group has the fields of the file. */
  predicate Regular(f: File) {
    forall j {:trigger f.groups[j]} :: 0 <= j < |f.groups| ==> Shaped(f.fields, f.groups[j].rows)
  }

  /** The statistics of a group are true of all its cells. */
  predicate TrueStats(fields: seq<Field>, g: RowGroup) {
    && Shaped(fields, g.rows)
    && |g.stats| == |fields|
    && (forall k, i :: 0 <= k < |fields| && 0 <= i < g.rows.rows && g.stats[k].Some? ==>
          StatsAdmit(g.stats[k].value, fields[k].ctype, g.rows.columns[k].cells[i]))
  }

  /** A flat file whose statistics are true. */
  predicate ValidFile(f: File) {
    && Regular(f)
    && forall j :: 0 <= j < |f.groups| ==> TrueStats(f.fields, f.groups[j])
  }

  /** The statistics of the predicate's column show that no row of the group satisfies it. */
  predicate RulesOut(fields: seq<Field>, g: RowGroup, p: Predicate) {
    var k := FieldIndex(fields, p.column);
    k.Some? && k.value < |g.stats| && g.stats[k.value].Some? && !EvaluateStatistics(p, g.stats[k.value].value)
  }

  predicate GroupKept(fields: seq<Field>, g: RowGroup, preds: seq<Predicate>) {
    forall j :: 0 <= j < |preds| ==> !RulesOut(fields, g, preds[j])
  }

  /** The indices of the groups that no predicate rules out. */
  function KeptGroups(f: File, preds: seq<Predicate>, n: nat): (r: seq<nat>)
    requires n <= |f.groups|
    ensures forall j :: 0 <= j < |r| ==> r[j] < n
  {
    if n == 0 then []
    else if GroupKept(f.fields, f.groups[n - 1], preds) then KeptGroups(f, preds, n - 1) + [n - 1]
    else KeptGroups(f, preds, n - 1)
  }

  /** Nested loops over groups and predicates; without the column nothing is kept. */
  method GetPrunedRowGroups(f: File, columnName: string, preds: seq<Predicate>) returns (rowGroups: seq<nat>)
    ensures rowGroups == if FieldIndex(f.fields, columnName).Some? then KeptGroups(f, preds, |f.groups|) else []
  {
    rowGroups := [];
    if FieldIndex(f.fields, columnName).None? {
      return;
    }
    for i := 0 to |f.groups|
      invariant rowGroups == KeptGroups(f, preds, i)
    {
      var keep := true;
      var j := 0;
      while j < |preds| && keep
        invariant 0 <= j <= |preds|
        invariant keep <==> forall l :: 0 <= l < j ==> !RulesOut(f.fields, f.groups[i], preds[l])
      {
        var k := FieldIndex(f.fields, preds[j].column);
        if k.Some? && k.value < |f.groups[i].stats| {
          var stats := f.groups[i].stats[k.value];
          if stats.Some? && !EvaluateStatistics(preds[j], stats.value) {
            keep := false;
          }
        }
        j := j + 1;
      }
      if keep {
        rowGroups := rowGroups + [i];
      }
    }
  }

  // ---------------------------------------------------------------- what predicates mean on rows

  /** A row satisfies a predicate; a predicate on a column that the file does not have is not satisfied. */
  predicate RowSatisfies(dates: Calendar, p: Predicate, fields: seq<Field>, b: Batch, i: nat)
    requires |b.columns| == |fields| && WellFormed(b) && i < b.rows
  {
    var k := FieldIndex(fields, p.column);
    k.Some? && Holds(dates, p, fields[k.value].ctype, b.columns[k.value].cells[i]) == Yes
  }

  predicate PrunableAt(dates: Calendar, p: Predicate, fields: seq<Field>) {
    var k := FieldIndex(fields, p.column);
    k.Some? ==> ComparableStats(dates, p, fields[k.value].ctype)
  }

  /** No row of a group satisfies a predicate that rules the group out. */
  lemma RuledOutRowsFail(dates: Calendar, fields: seq<Field>, g: RowGroup, p: Predicate, i: nat)
    requires TrueStats(fields, g) && i < g.rows.rows && RulesOut(fields, g, p)
    requires PrunableAt(dates, p, fields)
    ensures !RowSatisfies(dates, p, fields, g.rows, i)
  {
    var k := FieldIndex(fields, p.column).value;
    assert CellFits(fields[k].ctype, g.rows.columns[k].cells[i]);
    PrunedCellFails(dates, p, fields[k].ctype, g.stats[k].value, g.rows.columns[k].cells[i]);
  }

  /** A row of the group satisfies a predicate that rules the group out. */
  predicate LosesRow(dates: Calendar, p: Predicate, fields: seq<Field>, g: RowGroup, i: nat) {
    TrueStats(fields, g) && i < g.rows.rows && RulesOut(fields, g, p) && RowSatisfies(dates, p, fields, g.rows, i)
  }

  /** A group of one row with one value, which is all that its statistics speak of. */
  function OneValue(fields: seq<Field>, k: nat, s: Statistics, c: Cell): RowGroup {
    RowGroup(
      Batch(seq(|fields|, l requires 0 <= l < |fields| => Column(fields[l], [if l == k then c else Null])), 1),
      seq(|fields|, l => if l == k then Some(s) else None))
  }

  /** On the groups of a schema, pruning by a predicate loses no row exactly when it is comparable. */
  lemma GroupPruningIsSoundIff(dates: Calendar, p: Predicate, fields: seq<Field>)
    requires p.value.Str? ==> RealDate(dates, p.value.text)
    ensures (forall g, i :: !LosesRow(dates, p, fields, g, i)) <==> PrunableAt(dates, p, fields)
  {
    if PrunableAt(dates, p, fields) {
      forall g, i ensures !LosesRow(dates, p, fields, g, i) {
        if LosesRow(dates, p, fields, g, i) {
          RuledOutRowsFail(dates, fields, g, p, i);
        }
      }
    } else {
      var k := FieldIndex(fields, p.column).value;
      var s, c := SomeCellIsLost(dates, p, fields[k].ctype);
      assert LosesRow(dates, p, fields, OneValue(fields, k, s, c), 0);
    }
  }
}
