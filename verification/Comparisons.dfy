/**
 Comparing the cells of a column with a literal: what a predicate means on a cell, what the
 evaluation compares instead, and for which literals the two agree.
 */
module Comparisons {
  import opened Sequences
  import opened Text
  import opened FilterSyntax

  datatype TimeUnit = Second | Millisecond | Microsecond | Nanosecond

  /** How numbers are stored in a file: as signed words, or as bytes. */
  datatype Storage = Word32 | Word64 | RawBytes

  /** `TTicks` stands for times of day and durations, `TOther` for types without numbers or text. */
  datatype ColumnType =
    | TInt8 | TInt16 | TInt32 | TInt64 | TUInt8 | TUInt16 | TUInt32 | TUInt64
    | TDecimal(storage: Storage, precision: nat, scale: nat)
    | TFloat
    | TDate32 | TDate64 | TTimestamp(unit: TimeUnit) | TTicks(wide: bool)
    | TUtf8 | TLargeUtf8 | TNull | TOther

  /** A cell; a decimal's number is unscaled, `Blob` is a value that no filter can compare. */
  datatype Cell = Null | Num(n: int) | Frac(x: real) | Chars(s: string) | Blob

  datatype Truth = Yes | No | Unknown

  const I32_MIN: int := -0x8000_0000
  const I32_MAX: int := 0x7FFF_FFFF

  predicate IsI32(n: int) {
    I32_MIN <= n <= I32_MAX
  }

  type I32 = n: int | IsI32(n)
  type I64 = n: int | IsI64(n)

  /** Parses text to days and to milliseconds since the epoch; the calendar itself is not modelled. */
  datatype Calendar = Calendar(days: string -> Option<I32>, millis: string -> Option<I64>)

  /** Casts to 32 and 64 bits keep the low bits. */
  function Wrap32(n: int): int {
    (n - I32_MIN) % 0x1_0000_0000 + I32_MIN
  }

  function Wrap64(n: int): int {
    (n - I64_MIN) % 0x1_0000_0000_0000_0000 + I64_MIN
  }

  function PowerOfTen(n: nat): (r: int)
    ensures r >= 1
  {
    if n == 0 then 1 else 10 * PowerOfTen(n - 1)
  }

  // ---------------------------------------------------------------- the values of a type

  /** How a column of numbers is stored. */
  function StoredAs(t: ColumnType): Option<Storage> {
    match t
    case TInt8 => Some(Word32)
    case TInt16 => Some(Word32)
    case TInt32 => Some(Word32)
    case TInt64 => Some(Word64)
    case TUInt8 => Some(Word32)
    case TUInt16 => Some(Word32)
    case TUInt32 => Some(Word32)
    case TUInt64 => Some(Word64)
    case TDecimal(storage, _, _) => Some(storage)
    case TDate32 => Some(Word32)
    case TDate64 => Some(Word64)
    case TTimestamp(_) => Some(Word64)
    case TTicks(wide) => Some(if wide then Word64 else Word32)
    case _ => None
  }

  predicate NumberFits(t: ColumnType, n: int) {
    match t
    case TInt8 => -0x80 <= n < 0x80
    case TInt16 => -0x8000 <= n < 0x8000
    case TUInt8 => 0 <= n < 0x100
    case TUInt16 => 0 <= n < 0x1_0000
    case TUInt32 => 0 <= n < 0x1_0000_0000
    case TUInt64 => 0 <= n < 0x1_0000_0000_0000_0000
    case TDecimal(storage, precision, _) =>
      && -PowerOfTen(precision) < n < PowerOfTen(precision)
      && (storage == Word32 ==> IsI32(n)) && (storage == Word64 ==> IsI64(n))
    case _ => if StoredAs(t) == Some(Word32) then IsI32(n) else IsI64(n)
  }

  predicate CellFits(t: ColumnType, c: Cell) {
    c.Null? ||
    (if StoredAs(t).Some? then c.Num? && NumberFits(t, c.n)
     else
       match t
       case TFloat => c.Frac? || c.Blob?
       case TUtf8 => c.Chars?
       case TLargeUtf8 => c.Chars?
       case TOther => c.Blob?
       case _ => false)
  }

  // ---------------------------------------------------------------- what a predicate means

  function OfBool(b: bool): Truth {
    if b then Yes else No
  }

  function CompareNum(op: Op, a: int, b: int): bool {
    match op
    case Eq => a == b
    case Neq => a != b
    case Gt => a > b
    case Lt => a < b
  }

  function CompareReal(op: Op, a: real, b: real): bool {
    match op
    case Eq => a == b
    case Neq => a != b
    case Gt => a > b
    case Lt => a < b
  }

  /** Text is compared by the bytes of its encoding. */
  function CompareText(op: Op, a: string, b: string): bool {
    match op
    case Eq => a == b
    case Neq => a != b
    case Gt => BytesLess(Utf8(b), Utf8(a))
    case Lt => BytesLess(Utf8(a), Utf8(b))
  }

  /** A whole number in the scale of a column. */
  function Scaled(t: ColumnType, v: int): int {
    if t.TDecimal? then v * PowerOfTen(t.scale) else v
  }

  /** A time in milliseconds and a cell in the column's unit, brought to a common unit. */
  function CompareTime(op: Op, unit: TimeUnit, n: int, ms: int): bool {
    match unit
    case Second => CompareNum(op, n * 1000, ms)
    case Millisecond => CompareNum(op, n, ms)
    case Microsecond => CompareNum(op, n, ms * 1000)
    case Nanosecond => CompareNum(op, n, ms * 1_000_000)
  }

  function UnitOf(t: ColumnType): Option<TimeUnit> {
    match t
    case TDate64 => Some(Millisecond)
    case TTimestamp(unit) => Some(unit)
    case _ => None
  }

  /** What a predicate means, with exact numbers: the specification. */
  function Holds(dates: Calendar, p: Predicate, t: ColumnType, c: Cell): Truth {
    match p.value
    case Int64(v) =>
      if c.Num? && StoredAs(t).Some? then OfBool(CompareNum(p.op, c.n, Scaled(t, v)))
      else if c.Frac? && t == TFloat then OfBool(CompareReal(p.op, c.x, v as real))
      else Unknown
    case Str(s) =>
      if c.Chars? && (t == TUtf8 || t == TLargeUtf8) then OfBool(CompareText(p.op, c.s, s))
      else if c.Num? && t == TDate32 && dates.days(s).Some? then OfBool(CompareNum(p.op, c.n, dates.days(s).value))
      else if c.Num? && UnitOf(t).Some? && dates.millis(s).Some?
        then OfBool(CompareTime(p.op, UnitOf(t).value, c.n, dates.millis(s).value))
      else Unknown
  }

  // ---------------------------------------------------------------- what cells and literals stand for

  /** What a cell or a literal stands for: an amount, a day or a millisecond, or some text. */
  datatype Value = Quantity(x: real) | Letters(s: string)

  /** Ticks of a type of times, in milliseconds. */
  function MillisOf(t: ColumnType, ticks: int): Option<real> {
    match t
    case TDate64 => Some(ticks as real)
    case TTimestamp(Second) => Some(ticks as real * 1000.0)
    case TTimestamp(Millisecond) => Some(ticks as real)
    case TTimestamp(Microsecond) => Some(ticks as real / 1000.0)
    case TTimestamp(Nanosecond) => Some(ticks as real / 1_000_000.0)
    case _ => None
  }

  /** The value of a cell; the number of a decimal is unscaled, that of a time counts ticks. */
  function ValueOf(t: ColumnType, c: Cell): Option<Value> {
    match c
    case Num(n) =>
      if MillisOf(t, n).Some? then Some(Quantity(MillisOf(t, n).value))
      else if t.TDecimal? then Some(Quantity(n as real / PowerOfTen(t.scale) as real))
      else if StoredAs(t).Some? then Some(Quantity(n as real))
      else None
    case Frac(x) => if t == TFloat then Some(Quantity(x)) else None
    case Chars(s) => if t == TUtf8 || t == TLargeUtf8 then Some(Letters(s)) else None
    case _ => None
  }

  /** The value of a literal next to a column: text is a date or a time there if it parses as one. */
  function LiteralValue(dates: Calendar, v: PredicateValue, t: ColumnType): Value {
    match v
    case Int64(n) => Quantity(if MillisOf(t, n).Some? then MillisOf(t, n).value else n as real)
    case Str(s) =>
      if t == TDate32 && dates.days(s).Some? then Quantity(dates.days(s).value as real)
      else if MillisOf(t, 0).Some? && dates.millis(s).Some? then Quantity(dates.millis(s).value as real)
      else Letters(s)
  }

  predicate SameKind(x: Value, y: Value) {
    x.Quantity? <==> y.Quantity?
  }

  /** Amounts are ordered as numbers, text by its characters. */
  predicate Exceeds(x: Value, y: Value) {
    match (x, y)
    case (Quantity(a), Quantity(b)) => a > b
    case (Letters(a), Letters(b)) => Precedes(b, a)
    case _ => false
  }

  /** The relation of a filter's operator between values of one kind. */
  predicate Relates(op: Op, x: Value, y: Value) {
    SameKind(x, y) &&
    match op
    case Eq => x == y
    case Neq => x != y
    case Gt => Exceeds(x, y)
    case Lt => Exceeds(y, x)
  }

  /** A predicate as a relation between the value of a cell and the value of the literal. */
  function ByValue(dates: Calendar, p: Predicate, t: ColumnType, c: Cell): Truth {
    var value, literal := ValueOf(t, c), LiteralValue(dates, p.value, t);
    if value.None? || !SameKind(value.value, literal) then Unknown else OfBool(Relates(p.op, value.value, literal))
  }

  lemma ScaledQuotient(n: int, v: int, m: int)
    requires m > 0
    ensures n as real / m as real > v as real <==> n > v * m
    ensures n as real / m as real < v as real <==> n < v * m
    ensures n as real / m as real == v as real <==> n == v * m
  {
    var q := n as real / m as real;
    assert q * m as real == n as real;
    assert (v * m) as real == v as real * m as real;
    if q > v as real {
      assert q * m as real > v as real * m as real;
    } else if q < v as real {
      assert q * m as real < v as real * m as real;
    }
  }

  lemma NumberMeans(dates: Calendar, p: Predicate, t: ColumnType, n: int)
    requires p.value.Int64?
    ensures Holds(dates, p, t, Num(n)) == ByValue(dates, p, t, Num(n))
  {
    if t.TDecimal? {
      ScaledQuotient(n, p.value.n, PowerOfTen(t.scale));
    }
  }

  /** The byte comparison of texts is the order of their characters, and exactly one relation holds. */
  lemma TextComparison(a: string, b: string)
    ensures CompareText(Gt, a, b) <==> Precedes(b, a)
    ensures CompareText(Lt, a, b) <==> Precedes(a, b)
    ensures multiset{CompareText(Lt, a, b), CompareText(Eq, a, b), CompareText(Gt, a, b)}[true] == 1
  {
    Utf8Order(a, b);
    Utf8Order(b, a);
    PrecedesTrichotomy(a, b);
    PrecedesTrichotomy(b, a);
  }

  lemma TextMeans(dates: Calendar, p: Predicate, t: ColumnType, s: string)
    requires p.value.Str?
    ensures Holds(dates, p, t, Chars(s)) == ByValue(dates, p, t, Chars(s))
  {
    TextComparison(s, p.value.text);
  }

  /** A time in its own unit and one in milliseconds. */
  lemma TimeMeans(op: Op, t: ColumnType, n: int, ms: int)
    requires UnitOf(t).Some?
    ensures MillisOf(t, n).Some?
    ensures CompareTime(op, UnitOf(t).value, n, ms) <==> Relates(op, Quantity(MillisOf(t, n).value), Quantity(ms as real))
  {
    var x := MillisOf(t, n).value;
    match UnitOf(t).value
    case Second => assert x == (n * 1000) as real;
    case Millisecond =>
    case Microsecond => assert x * 1000.0 == n as real;
    case Nanosecond => assert x * 1_000_000.0 == n as real;
  }

  lemma DateMeans(dates: Calendar, p: Predicate, t: ColumnType, n: int)
    requires p.value.Str?
    ensures Holds(dates, p, t, Num(n)) == ByValue(dates, p, t, Num(n))
  {
    if UnitOf(t).Some? && dates.millis(p.value.text).Some? {
      TimeMeans(p.op, t, n, dates.millis(p.value.text).value);
    }
  }

  /**
   The exact comparison of numbers in the units and scales of their columns, and of text by its
   bytes, is a comparison of what the cell and the literal stand for.
   */
  lemma HoldsIsComparison(dates: Calendar, p: Predicate, t: ColumnType, c: Cell)
    ensures Holds(dates, p, t, c) == ByValue(dates, p, t, c)
  {
    match (p.value, c)
    case (Int64(_), Num(n)) => NumberMeans(dates, p, t, n);
    case (Str(_), Num(n)) => DateMeans(dates, p, t, n);
    case (Str(_), Chars(s)) => TextMeans(dates, p, t, s);
    case _ =>
  }

  // ---------------------------------------------------------------- what is compared instead

  /** Division that drops the fraction. */
  function Truncated(a: int, b: int): int
    requires b > 0
  {
    if a >= 0 then a / b else -((-a) / b)
  }

  function TimeLiteral(unit: TimeUnit, ms: int): int {
    match unit
    case Second => Truncated(ms, 1000)
    case Millisecond => ms
    case Microsecond => Wrap64(ms * 1000)
    case Nanosecond => Wrap64(ms * 1_000_000)
  }

  /** The literal against which the cells are compared, as an array of the column's type. */
  function Literal(dates: Calendar, v: PredicateValue, t: ColumnType): Option<Cell> {
    match v
    case Int64(n) =>
      if t == TInt32 || t == TDate32 then Some(Num(Wrap32(n)))
      else if t == TInt64 then Some(Num(n))
      else None
    case Str(s) =>
      if t == TDate32 then (match dates.days(s) case Some(d) => Some(Num(d)) case None => None)
      else if UnitOf(t).Some? then
        (match dates.millis(s) case Some(ms) => Some(Num(TimeLiteral(UnitOf(t).value, ms))) case None => None)
      else if t == TUtf8 then Some(Chars(s))
      else None
  }

  function CompareCells(op: Op, c: Cell, literal: Cell): Truth {
    if c.Num? && literal.Num? then OfBool(CompareNum(op, c.n, literal.n))
    else if c.Chars? && literal.Chars? then OfBool(CompareText(op, c.s, literal.s))
    else Unknown
  }

  // ---------------------------------------------------------------- when the two agree

  /** The cut-off literal is the number itself, or happens to be the extreme on the side nothing exceeds. */
  predicate HarmlessCut(op: Op, exact: int, cut: int, min: int, max: int) {
    || cut == exact
    || (op == Gt && exact > max && cut == max)
    || (op == Lt && exact < min && cut == min)
  }

  /** A time without a fraction of a second, or a comparison that the dropped fraction does not turn. */
  predicate HarmlessFraction(op: Op, ms: int) {
    || ms % 1000 == 0
    || (op == Gt && ms > 0)
    || (op == Lt && ms < 0)
  }

  predicate ExactTime(op: Op, unit: TimeUnit, ms: int) {
    match unit
    case Second => HarmlessFraction(op, ms)
    case Millisecond => true
    case Microsecond => HarmlessCut(op, ms * 1000, Wrap64(ms * 1000), I64_MIN, I64_MAX)
    case Nanosecond => HarmlessCut(op, ms * 1_000_000, Wrap64(ms * 1_000_000), I64_MIN, I64_MAX)
  }

  /** A literal that the evaluation compares as the value it stands for. */
  predicate ExactLiteral(dates: Calendar, p: Predicate, t: ColumnType) {
    match p.value
    case Int64(v) => t == TInt32 || t == TDate32 ==> HarmlessCut(p.op, v, Wrap32(v), I32_MIN, I32_MAX)
    case Str(s) => UnitOf(t).Some? && dates.millis(s).Some? ==> ExactTime(p.op, UnitOf(t).value, dates.millis(s).value)
  }

  lemma CutOffLiteral(op: Op, exact: int, cut: int, min: int, max: int)
    requires min < max && min <= cut <= max && (min <= exact <= max ==> cut == exact)
    ensures (forall n :: min <= n <= max ==> CompareNum(op, n, cut) == CompareNum(op, n, exact)) <==>
            HarmlessCut(op, exact, cut, min, max)
  {
    if !HarmlessCut(op, exact, cut, min, max) {
      var n := match op case Eq => cut case Neq => cut
               case Gt => (if exact > max then cut + 1 else cut)
               case Lt => (if exact < min then cut - 1 else cut);
      assert min <= n <= max && CompareNum(op, n, cut) != CompareNum(op, n, exact);
    }
  }

  lemma DroppedFraction(op: Op, ms: int)
    requires IsI64(ms)
    ensures (forall n :: I64_MIN <= n <= I64_MAX ==> CompareNum(op, n, Truncated(ms, 1000)) == CompareNum(op, n * 1000, ms)) <==>
            HarmlessFraction(op, ms)
  {
    var cut := Truncated(ms, 1000);
    if !HarmlessFraction(op, ms) {
      assert CompareNum(op, cut, cut) != CompareNum(op, cut * 1000, ms);
    }
  }

  lemma ExactTimeIff(op: Op, unit: TimeUnit, ms: int)
    requires IsI64(ms)
    ensures (forall n :: IsI64(n) ==> CompareNum(op, n, TimeLiteral(unit, ms)) == CompareTime(op, unit, n, ms)) <==>
            ExactTime(op, unit, ms)
  {
    match unit
    case Second => DroppedFraction(op, ms);
    case Millisecond =>
    case Microsecond => CutOffLiteral(op, ms * 1000, Wrap64(ms * 1000), I64_MIN, I64_MAX);
    case Nanosecond => CutOffLiteral(op, ms * 1_000_000, Wrap64(ms * 1_000_000), I64_MIN, I64_MAX);
  }

  /** Evaluation and meaning agree on every possible cell of the column. */
  ghost predicate EvaluatesExactly(dates: Calendar, p: Predicate, t: ColumnType)
    requires Literal(dates, p.value, t).Some?
  {
    forall c :: CellFits(t, c) ==> CompareCells(p.op, c, Literal(dates, p.value, t).value) == Holds(dates, p, t, c)
  }

  lemma IntegersEvaluateExactly(dates: Calendar, p: Predicate, t: ColumnType)
    requires p.value.Int64? && Literal(dates, p.value, t).Some?
    ensures EvaluatesExactly(dates, p, t) <==> ExactLiteral(dates, p, t)
  {
    var v := p.value.n;
    if t == TInt32 || t == TDate32 {
      CutOffLiteral(p.op, v, Wrap32(v), I32_MIN, I32_MAX);
      assert forall n :: I32_MIN <= n <= I32_MAX <==> CellFits(t, Num(n));
      assert forall n :: IsI32(n) ==> CompareCells(p.op, Num(n), Num(Wrap32(v))) == OfBool(CompareNum(p.op, n, Wrap32(v)));
      assert forall n :: IsI32(n) ==> Holds(dates, p, t, Num(n)) == OfBool(CompareNum(p.op, n, v));
    }
  }

  lemma TimesEvaluateExactly(dates: Calendar, p: Predicate, t: ColumnType)
    requires p.value.Str? && UnitOf(t).Some? && dates.millis(p.value.text).Some?
    ensures EvaluatesExactly(dates, p, t) <==> ExactLiteral(dates, p, t)
  {
    var unit, ms := UnitOf(t).value, dates.millis(p.value.text).value;
    ExactTimeIff(p.op, unit, ms);
    assert forall n :: IsI64(n) <==> CellFits(t, Num(n));
    assert forall n :: CompareCells(p.op, Num(n), Num(TimeLiteral(unit, ms))) == OfBool(CompareNum(p.op, n, TimeLiteral(unit, ms)));
    assert forall n :: Holds(dates, p, t, Num(n)) == OfBool(CompareTime(p.op, unit, n, ms));
  }

  /**
   Evaluation agrees with the meaning of a predicate on every possible cell of a column exactly
   when the literal is exact: casts to 32 and 64 bits wrap around, and whole seconds drop a fraction.
   */
  lemma EvaluationIsExact(dates: Calendar, p: Predicate, t: ColumnType)
    requires Literal(dates, p.value, t).Some?
    ensures EvaluatesExactly(dates, p, t) <==> ExactLiteral(dates, p, t)
  {
    if p.value.Int64? {
      IntegersEvaluateExactly(dates, p, t);
    } else if UnitOf(t).Some? {
      TimesEvaluateExactly(dates, p, t);
    }
  }

  /** For instance, a 32-bit column is compared with 5 where the filter says 2^32 + 5. */
  lemma LargeLiteralIsCut(dates: Calendar)
    ensures CompareCells(Eq, Num(5), Literal(dates, Int64(0x1_0000_0005), TInt32).value) == Yes
    ensures Holds(dates, Predicate(Eq, "n", Int64(0x1_0000_0005)), TInt32, Num(5)) == No
  {
  }
}
