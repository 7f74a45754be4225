/**
 Validating a record batch against a data contract: every violation is reported, with its row, and
 nothing else, so the report is empty exactly when the batch conforms.
 */
module Validator {
  import opened Sequences
  import opened Contract

  datatype DataType =
    | Utf8 | LargeUtf8 | Int8 | Int16 | Int32 | Int64 | UInt8 | UInt16 | UInt32 | UInt64
    | Float32 | Float64 | Boolean | Binary | LargeBinary | Date32 | Date64
    | TimestampS | TimestampMs | TimestampUs | TimestampNs | OtherType

  /** A number after its conversion to floating point; every comparison with NaN is false. */
  datatype Float = Real(x: real) | PlusInfinity | MinusInfinity | NotANumber

  datatype Cell = Absent | Text(s: string) | Number(f: Float) | OpaqueValue

  datatype Column = Column(name: string, dataType: DataType, cells: seq<Cell>)

  datatype LinterError =
    | MissingColumn(name: string)
    | ExtraColumn(name: string)
    | NullViolation(name: string, row: nat)
    | RegexViolation(name: string, row: nat)
    | RangeViolation(name: string, row: nat)
    | EnumViolation(name: string, row: nat)
    | TypeMismatch(name: string)

  /** Lower-casing and the regular expression engine are taken as they are. */
  datatype Environment = Environment(
    lower: string -> string,
    validPattern: string -> bool,
    matches: (string, string) -> bool)

  // ---------------------------------------------------------------- the rules

  function ExpectedDataType(env: Environment, typeName: string): Option<DataType> {
    var t := env.lower(typeName);
    if t == "string" || t == "utf8" then Some(Utf8)
    else if t == "int8" then Some(Int8)
    else if t == "int16" then Some(Int16)
    else if t == "int32" then Some(Int32)
    else if t == "int64" then Some(Int64)
    else if t == "uint8" then Some(UInt8)
    else if t == "uint16" then Some(UInt16)
    else if t == "uint32" then Some(UInt32)
    else if t == "uint64" then Some(UInt64)
    else if t == "float32" then Some(Float32)
    else if t == "float64" then Some(Float64)
    else if t == "boolean" then Some(Boolean)
    else if t == "binary" then Some(Binary)
    else if t == "large_binary" then Some(LargeBinary)
    else if t == "date32" then Some(Date32)
    else if t == "date64" then Some(Date64)
    else if t == "timestamp_ms" then Some(TimestampMs)
    else if t == "timestamp_s" then Some(TimestampS)
    else if t == "timestamp_us" then Some(TimestampUs)
    else if t == "timestamp_ns" then Some(TimestampNs)
    else None
  }

  /** The name, in lower case, by which a contract asks for a type; some types have none. */
  predicate HasName(t: DataType, name: string) {
    match t
    case Utf8 => name == "string" || name == "utf8"
    case Int8 => name == "int8"
    case Int16 => name == "int16"
    case Int32 => name == "int32"
    case Int64 => name == "int64"
    case UInt8 => name == "uint8"
    case UInt16 => name == "uint16"
    case UInt32 => name == "uint32"
    case UInt64 => name == "uint64"
    case Float32 => name == "float32"
    case Float64 => name == "float64"
    case Boolean => name == "boolean"
    case Binary => name == "binary"
    case LargeBinary => name == "large_binary"
    case Date32 => name == "date32"
    case Date64 => name == "date64"
    case TimestampS => name == "timestamp_s"
    case TimestampMs => name == "timestamp_ms"
    case TimestampUs => name == "timestamp_us"
    case TimestampNs => name == "timestamp_ns"
    case LargeUtf8 => false
    case OtherType => false
  }

  lemma ExpectedIsNamed(env: Environment, typeName: string, t: DataType)
    requires ExpectedDataType(env, typeName) == Some(t)
    ensures HasName(t, env.lower(typeName))
  {
  }

  lemma NamedIsExpected(env: Environment, typeName: string, t: DataType)
    requires HasName(t, env.lower(typeName))
    ensures ExpectedDataType(env, typeName) == Some(t)
  {
  }

  /** A contract's type name, in any case, asks for exactly the type that has the name. */
  lemma ExpectedIff(env: Environment, typeName: string, t: DataType)
    ensures ExpectedDataType(env, typeName) == Some(t) <==> HasName(t, env.lower(typeName))
  {
    if ExpectedDataType(env, typeName) == Some(t) {
      ExpectedIsNamed(env, typeName, t);
    }
    if HasName(t, env.lower(typeName)) {
      NamedIsExpected(env, typeName, t);
    }
  }

  predicate IsNumeric(t: DataType) {
    t in {Int8, Int16, Int32, Int64, UInt8, UInt16, UInt32, UInt64, Float32, Float64}
  }

  predicate Below(f: Float, m: real) {
    f == MinusInfinity || (f.Real? && f.x < m)
  }

  predicate Above(f: Float, m: real) {
    f == PlusInfinity || (f.Real? && f.x > m)
  }

  predicate InRange(f: Float, range: RangeRule) {
    (range.min.Some? ==> !Below(f, range.min.value)) && (range.max.Some? ==> !Above(f, range.max.value))
  }

  /** Ranges include their ends; not-a-number is in every range, and infinities only in open ones. */
  lemma InRangeIff(f: Float, range: RangeRule)
    ensures InRange(f, range) <==>
            match f
            case Real(x) => (range.min.Some? ==> range.min.value <= x) && (range.max.Some? ==> x <= range.max.value)
            case PlusInfinity => range.max.None?
            case MinusInfinity => range.min.None?
            case NotANumber => true
  {
  }

  predicate Allowed(c: Cell, values: set<string>) {
    c.Text? ==> c.s in values
  }

  predicate Matching(env: Environment, c: Cell, pattern: string) {
    c.Text? ==> env.matches(pattern, c.s)
  }

  predicate Ranged(c: Cell, range: RangeRule) {
    c.Number? ==> InRange(c.f, range)
  }

  /** What a column has to be like: the contract's meaning. */
  predicate ColumnConforms(env: Environment, p: ColumnPolicy, col: Column) {
    && ExpectedDataType(env, p.dataType) == Some(col.dataType)
    && (p.required ==> Absent !in col.cells)
    && (p.allowedValues.Some? ==>
          col.dataType == Utf8 && forall i :: 0 <= i < |col.cells| ==> Allowed(col.cells[i], Values(p.allowedValues.value)))
    && (p.regex.Some? ==>
          col.dataType == Utf8 && forall i :: 0 <= i < |col.cells| ==> Matching(env, col.cells[i], p.regex.value))
    && (p.range.Some? ==>
          IsNumeric(col.dataType) && forall i :: 0 <= i < |col.cells| ==> Ranged(col.cells[i], p.range.value))
  }

  function Values(xs: seq<string>): set<string> {
    set x | x in xs
  }

  function Find(batch: seq<Column>, name: string): (r: Option<Column>)
    ensures r.Some? <==> exists k :: 0 <= k < |batch| && batch[k].name == name
    ensures r.Some? ==> r.value in batch && r.value.name == name
  {
    if batch == [] then None
    else if batch[0].name == name then Some(batch[0])
    else
      var r := Find(batch[1..], name);
      assert forall k :: 0 <= k < |batch[1..]| ==> batch[1..][k] == batch[k + 1];
      assert forall k :: 0 < k < |batch| ==> batch[k] == batch[1..][k - 1];
      r
  }

  predicate Documented(contract: DataContract, name: string) {
    exists j :: 0 <= j < |contract.columns| && contract.columns[j].name == name
  }

  predicate Conforms(env: Environment, contract: DataContract, batch: seq<Column>) {
    && (forall k :: 0 <= k < |batch| ==> Documented(contract, batch[k].name))
    && forall j :: 0 <= j < |contract.columns| ==>
         match Find(batch, contract.columns[j].name)
         case None => !contract.columns[j].required
         case Some(col) => ColumnConforms(env, contract.columns[j], col)
  }

  /** Which violations a present column has, with their rows. */
  predicate ColumnViolation(env: Environment, p: ColumnPolicy, col: Column, e: LinterError) {
    e.name == p.name &&
    match e
    case TypeMismatch(_) =>
      || ExpectedDataType(env, p.dataType) != Some(col.dataType)
      || ((p.allowedValues.Some? || p.regex.Some?) && col.dataType != Utf8)
      || (p.range.Some? && !IsNumeric(col.dataType))
    case NullViolation(_, i) => p.required && i < |col.cells| && col.cells[i] == Absent
    case EnumViolation(_, i) =>
      p.allowedValues.Some? && col.dataType == Utf8 && i < |col.cells| && !Allowed(col.cells[i], Values(p.allowedValues.value))
    case RegexViolation(_, i) =>
      p.regex.Some? && col.dataType == Utf8 && i < |col.cells| && !Matching(env, col.cells[i], p.regex.value)
    case RangeViolation(_, i) =>
      p.range.Some? && IsNumeric(col.dataType) && i < |col.cells| && !Ranged(col.cells[i], p.range.value)
    case _ => false
  }

  predicate PolicyViolation(env: Environment, p: ColumnPolicy, batch: seq<Column>, e: LinterError) {
    match Find(batch, p.name)
    case None => p.required && e == MissingColumn(p.name)
    case Some(col) => ColumnViolation(env, p, col, e)
  }

  /** All violations of a batch, declaratively. */
  predicate Violation(env: Environment, contract: DataContract, batch: seq<Column>, e: LinterError) {
    || (e.ExtraColumn? && !Documented(contract, e.name) && exists k :: 0 <= k < |batch| && batch[k].name == e.name)
    || exists j :: 0 <= j < |contract.columns| && PolicyViolation(env, contract.columns[j], batch, e)
  }

  // ---------------------------------------------------------------- from a contract

  datatype Validator = Validator(
    contract: DataContract,
    compiledRegexes: map<string, string>,
    allowedSets: map<string, set<string>>)

  function Compiled(columns: seq<ColumnPolicy>): map<string, string> {
    if columns == [] then map[]
    else
      var n := |columns| - 1;
      if columns[n].regex.Some? then Compiled(columns[..n])[columns[n].name := columns[n].regex.value] else Compiled(columns[..n])
  }

  function AllowedSets(columns: seq<ColumnPolicy>): map<string, set<string>> {
    if columns == [] then map[]
    else
      var n := |columns| - 1;
      if columns[n].allowedValues.Some? then AllowedSets(columns[..n])[columns[n].name := Values(columns[n].allowedValues.value)]
      else AllowedSets(columns[..n])
  }

  predicate ValidPatterns(env: Environment, columns: seq<ColumnPolicy>) {
    forall j :: 0 <= j < |columns| && columns[j].regex.Some? ==> env.validPattern(columns[j].regex.value)
  }

  /** The part of `from_json` after parsing. */
  method FromContract(env: Environment, contract: DataContract) returns (r: Result<Validator, string>)
    ensures r.Ok? <==> ValidPatterns(env, contract.columns)
    ensures r.Ok? ==> r.value == Validator(contract, Compiled(contract.columns), AllowedSets(contract.columns))
  {
    var regexes, allowed := map[], map[];
    for j := 0 to |contract.columns|
      invariant ValidPatterns(env, contract.columns[..j])
      invariant regexes == Compiled(contract.columns[..j]) && allowed == AllowedSets(contract.columns[..j])
    {
      var col := contract.columns[j];
      assert contract.columns[..j + 1][..j] == contract.columns[..j];
      if col.regex.Some? {
        if !env.validPattern(col.regex.value) {
          return Err("Invalid regex");
        }
        regexes := regexes[col.name := col.regex.value];
      }
      if col.allowedValues.Some? {
        allowed := allowed[col.name := Values(col.allowedValues.value)];
      }
    }
    assert contract.columns[..|contract.columns|] == contract.columns;
    return Ok(Validator(contract, regexes, allowed));
  }

  /** With distinct names, the maps give every column its own pattern and values. */
  lemma {:induction false} MapsAt(columns: seq<ColumnPolicy>, j: nat)
    requires j < |columns| && forall k, l :: 0 <= k < l < |columns| ==> columns[k].name != columns[l].name
    ensures columns[j].name in Compiled(columns) <==> columns[j].regex.Some?
    ensures columns[j].regex.Some? ==> Compiled(columns)[columns[j].name] == columns[j].regex.value
    ensures columns[j].name in AllowedSets(columns) <==> columns[j].allowedValues.Some?
    ensures columns[j].allowedValues.Some? ==> AllowedSets(columns)[columns[j].name] == Values(columns[j].allowedValues.value)
  {
    var n := |columns| - 1;
    if j < n {
      MapsAt(columns[..n], j);
    } else {
      NameNotYet(columns[..n], columns[n].name);
    }
  }

  lemma {:induction false} NameNotYet(columns: seq<ColumnPolicy>, name: string)
    requires forall k :: 0 <= k < |columns| ==> columns[k].name != name
    ensures name !in Compiled(columns) && name !in AllowedSets(columns)
  {
    if columns != [] {
      NameNotYet(columns[..|columns| - 1], name);
    }
  }

  // ---------------------------------------------------------------- the checks of one column

  method CheckNulls(name: string, cells: seq<Cell>) returns (errors: seq<LinterError>)
    ensures forall e :: e in errors <==> e.NullViolation? && e.name == name && e.row < |cells| && cells[e.row] == Absent
  {
    errors := [];
    for i := 0 to |cells|
      invariant forall e :: e in errors <==> e.NullViolation? && e.name == name && e.row < i && cells[e.row] == Absent
    {
      if cells[i] == Absent {
        errors := errors + [NullViolation(name, i)];
      }
    }
  }

  method CheckValues(name: string, dataType: DataType, cells: seq<Cell>, allowed: set<string>) returns (errors: seq<LinterError>)
    ensures forall e :: e in errors <==>
              e.name == name && ((e.TypeMismatch? && dataType != Utf8) ||
                                 (e.EnumViolation? && dataType == Utf8 && e.row < |cells| && !Allowed(cells[e.row], allowed)))
  {
    if dataType != Utf8 {
      return [TypeMismatch(name)];
    }
    errors := [];
    for i := 0 to |cells|
      invariant forall e :: e in errors <==> e.EnumViolation? && e.name == name && e.row < i && !Allowed(cells[e.row], allowed)
    {
      if cells[i].Text? && cells[i].s !in allowed {
        errors := errors + [EnumViolation(name, i)];
      }
    }
  }

  method CheckPattern(env: Environment, name: string, dataType: DataType, cells: seq<Cell>, pattern: string)
    returns (errors: seq<LinterError>)
    ensures forall e :: e in errors <==>
              e.name == name && ((e.TypeMismatch? && dataType != Utf8) ||
                                 (e.RegexViolation? && dataType == Utf8 && e.row < |cells| && !Matching(env, cells[e.row], pattern)))
  {
    if dataType != Utf8 {
      return [TypeMismatch(name)];
    }
    errors := [];
    for i := 0 to |cells|
      invariant forall e :: e in errors <==> e.RegexViolation? && e.name == name && e.row < i && !Matching(env, cells[e.row], pattern)
    {
      if cells[i].Text? && !env.matches(pattern, cells[i].s) {
        errors := errors + [RegexViolation(name, i)];
      }
    }
  }

  /** A row may be reported twice, below the minimum and above the maximum. */
  method CheckRange(name: string, dataType: DataType, cells: seq<Cell>, range: RangeRule) returns (errors: seq<LinterError>)
    ensures forall e :: e in errors <==>
              e.name == name && ((e.TypeMismatch? && !IsNumeric(dataType)) ||
                                 (e.RangeViolation? && IsNumeric(dataType) && e.row < |cells| && !Ranged(cells[e.row], range)))
  {
    if !IsNumeric(dataType) {
      return [TypeMismatch(name)];
    }
    errors := [];
    for i := 0 to |cells|
      invariant forall e :: e in errors <==> e.RangeViolation? && e.name == name && e.row < i && !Ranged(cells[e.row], range)
    {
      if cells[i].Number? {
        if range.min.Some? && Below(cells[i].f, range.min.value) {
          errors := errors + [RangeViolation(name, i)];
        }
        if range.max.Some? && Above(cells[i].f, range.max.value) {
          errors := errors + [RangeViolation(name, i)];
        }
      }
    }
  }

  /** The body of the loop over the contract's columns, for a column that is there. */
  method CheckColumn(env: Environment, v: Validator, p: ColumnPolicy, col: Column) returns (errors: seq<LinterError>)
    requires p.name in v.compiledRegexes <==> p.regex.Some?
    requires p.regex.Some? ==> v.compiledRegexes[p.name] == p.regex.value
    requires p.name in v.allowedSets <==> p.allowedValues.Some?
    requires p.allowedValues.Some? ==> v.allowedSets[p.name] == Values(p.allowedValues.value)
    ensures forall e :: e in errors <==> ColumnViolation(env, p, col, e)
  {
    errors := [];
    var expected := ExpectedDataType(env, p.dataType);
    if expected.None? || expected.value != col.dataType {
      errors := [TypeMismatch(p.name)];
    }
    if p.required {
      var nulls := CheckNulls(p.name, col.cells);
      errors := errors + nulls;
    }
    if p.name in v.allowedSets {
      var enums := CheckValues(p.name, col.dataType, col.cells, v.allowedSets[p.name]);
      errors := errors + enums;
    }
    if p.name in v.compiledRegexes {
      var regexes := CheckPattern(env, p.name, col.dataType, col.cells, v.compiledRegexes[p.name]);
      errors := errors + regexes;
    }
    if p.range.Some? {
      var ranges := CheckRange(p.name, col.dataType, col.cells, p.range.value);
      errors := errors + ranges;
    }
  }

  function NamesOf(batch: seq<Column>): set<string> {
    set col | col in batch :: col.name
  }

  /** The columns that the contract does not know, in whatever order the set of names is iterated. */
  method CheckExtra(contract: DataContract, batch: seq<Column>) returns (errors: seq<LinterError>)
    ensures forall e :: e in errors <==> e.ExtraColumn? && e.name in NamesOf(batch) && !Documented(contract, e.name)
  {
    errors := [];
    var contractNames := set col | col in contract.columns :: col.name;
    assert forall name :: name in contractNames <==> Documented(contract, name);
    var todo := NamesOf(batch);
    while todo != {}
      invariant todo <= NamesOf(batch)
      invariant forall e :: e in errors <==>
                  e.ExtraColumn? && e.name in NamesOf(batch) && e.name !in todo && !Documented(contract, e.name)
      decreases todo
    {
      var name :| name in todo;
      if name !in contractNames {
        errors := errors + [ExtraColumn(name)];
      }
      todo := todo - {name};
    }
  }

  method CheckPolicy(env: Environment, v: Validator, p: ColumnPolicy, batch: seq<Column>) returns (errors: seq<LinterError>)
    requires p.name in v.compiledRegexes <==> p.regex.Some?
    requires p.regex.Some? ==> v.compiledRegexes[p.name] == p.regex.value
    requires p.name in v.allowedSets <==> p.allowedValues.Some?
    requires p.allowedValues.Some? ==> v.allowedSets[p.name] == Values(p.allowedValues.value)
    ensures forall e :: e in errors <==> PolicyViolation(env, p, batch, e)
  {
    var found := Find(batch, p.name);
    if found.None? {
      errors := if p.required then [MissingColumn(p.name)] else [];
    } else {
      errors := CheckColumn(env, v, p, found.value);
    }
  }

  /** The report is exact: it has every violation of the batch and no other error. */
  method Validate(env: Environment, v: Validator, batch: seq<Column>) returns (errors: seq<LinterError>)
    requires DistinctNames(v.contract)
    requires v == Validator(v.contract, Compiled(v.contract.columns), AllowedSets(v.contract.columns))
    ensures forall e :: e in errors <==> Violation(env, v.contract, batch, e)
    ensures errors == [] <==> Conforms(env, v.contract, batch)
  {
    errors := CheckExtra(v.contract, batch);
    ghost var extra := errors;
    var columns := v.contract.columns;
    for n := 0 to |columns|
      invariant forall e :: e in errors <==> e in extra || exists j :: 0 <= j < n && PolicyViolation(env, columns[j], batch, e)
    {
      MapsAt(columns, n);
      var more := CheckPolicy(env, v, columns[n], batch);
      errors := errors + more;
    }
    assert forall name :: name in NamesOf(batch) <==> exists k :: 0 <= k < |batch| && batch[k].name == name;
    ConformsWithoutViolations(env, v.contract, batch);
    if errors != [] {
      assert errors[0] in errors;
    }
  }

  // ---------------------------------------------------------------- no violations, conforming

  /** A column of large text never conforms: no contract can ask for its type. */
  lemma LargeTextNeverConforms(env: Environment, p: ColumnPolicy, col: Column)
    requires col.dataType == LargeUtf8
    ensures !ColumnConforms(env, p, col) && ColumnViolation(env, p, col, TypeMismatch(p.name))
  {
    ExpectedIff(env, p.dataType, LargeUtf8);
  }

  /** A range can be asked for exactly where the name of the type is that of a number. */
  lemma RangedTypes(env: Environment, typeName: string, t: DataType)
    requires ExpectedDataType(env, typeName) == Some(t)
    ensures IsNumeric(t) <==>
            env.lower(typeName) in {"int8", "int16", "int32", "int64", "uint8", "uint16", "uint32", "uint64", "float32", "float64"}
  {
    ExpectedIff(env, typeName, t);
  }

  /** The violations to look for in a column that does not conform. */
  lemma ColumnConformsIff(env: Environment, p: ColumnPolicy, col: Column)
    ensures ColumnConforms(env, p, col) <==> forall e :: !ColumnViolation(env, p, col, e)
  {
    if forall e :: !ColumnViolation(env, p, col, e) {
      assert !ColumnViolation(env, p, col, TypeMismatch(p.name));
      forall i | 0 <= i < |col.cells|
        ensures p.required ==> col.cells[i] != Absent
        ensures p.allowedValues.Some? ==> Allowed(col.cells[i], Values(p.allowedValues.value))
        ensures p.regex.Some? ==> Matching(env, col.cells[i], p.regex.value)
        ensures p.range.Some? ==> Ranged(col.cells[i], p.range.value)
      {
        assert !ColumnViolation(env, p, col, NullViolation(p.name, i));
        assert !ColumnViolation(env, p, col, EnumViolation(p.name, i));
        assert !ColumnViolation(env, p, col, RegexViolation(p.name, i));
        assert !ColumnViolation(env, p, col, RangeViolation(p.name, i));
      }
    }
  }

  lemma PolicyConformsIff(env: Environment, p: ColumnPolicy, batch: seq<Column>)
    ensures (match Find(batch, p.name) case None => !p.required case Some(col) => ColumnConforms(env, p, col)) <==>
            forall e :: !PolicyViolation(env, p, batch, e)
  {
    match Find(batch, p.name)
    case None => assert p.required ==> PolicyViolation(env, p, batch, MissingColumn(p.name));
    case Some(col) =>
      ColumnConformsIff(env, p, col);
      assert forall e :: PolicyViolation(env, p, batch, e) == ColumnViolation(env, p, col, e);
  }

  /** A batch conforms exactly when it has no violation. */
  lemma ConformsWithoutViolations(env: Environment, contract: DataContract, batch: seq<Column>)
    ensures Conforms(env, contract, batch) <==> forall e :: !Violation(env, contract, batch, e)
  {
    forall j | 0 <= j < |contract.columns|
      ensures (match Find(batch, contract.columns[j].name)
               case None => !contract.columns[j].required
               case Some(col) => ColumnConforms(env, contract.columns[j], col)) <==>
              forall e :: !PolicyViolation(env, contract.columns[j], batch, e)
    {
      PolicyConformsIff(env, contract.columns[j], batch);
    }
    if forall e :: !Violation(env, contract, batch, e) {
      forall k | 0 <= k < |batch| ensures Documented(contract, batch[k].name) {
        assert !Violation(env, contract, batch, ExtraColumn(batch[k].name));
      }
      forall j, e | 0 <= j < |contract.columns| ensures !PolicyViolation(env, contract.columns[j], batch, e) {
        assert !Violation(env, contract, batch, e);
      }
    }
  }
}
