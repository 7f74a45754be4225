/**
 The Python side of a scan: an expression tree is flattened to a list of predicates that are used
 for pruning only. Nodes that cannot be flattened are dropped, which can only weaken the filter.
 */
module FilterTree {
  import opened Sequences
  import opened Text
  import opened FilterSyntax
  import opened Comparisons

  datatype Scalar = TextValue(s: string) | IntValue(n: int) | BoolValue(b: bool) | OtherValue

  /** A Python object as the traversal sees it; an atom may carry a `_name` attribute. */
  datatype Expr =
    | Nothing
    | Atom(value: Scalar, name: Option<string>)
    | Call(op: string, args: seq<Expr>)

  /** A value as it is written to JSON: Python's booleans count as integers. */
  datatype JsonValue = JsonString(s: string) | JsonInt(n: int) | JsonBool(b: bool)

  datatype JsonPredicate = JsonPredicate(op: Op, column: string, value: JsonValue)

  function ComparisonOp(op: string): Option<Op> {
    if op == "equal" || op == "==" then Some(Eq)
    else if op == "not_equal" || op == "!=" then Some(Neq)
    else if op == "greater" || op == ">" then Some(Gt)
    else if op == "less" || op == "<" then Some(Lt)
    else None
  }

  predicate IsAnd(op: string) {
    op == "and" || op == "and_kleene"
  }

  /** The column that the left operand names; a missing or empty name drops the node. */
  function ColumnName(left: Expr): Option<string> {
    match left
    case Nothing => None
    case Call(op, args) =>
      if op == "field_ref" && args != [] && args[0].Atom? && args[0].value.TextValue? then Some(args[0].value.s) else None
    case Atom(value, name) =>
      if name.Some? then name else if value.TextValue? then Some(value.s) else None
  }

  function LiteralOf(right: Expr): Option<JsonValue> {
    if !right.Atom? then None
    else
      match right.value
      case TextValue(s) => Some(JsonString(s))
      case IntValue(n) => Some(JsonInt(n))
      case BoolValue(b) => Some(JsonBool(b))
      case OtherValue => None
  }

  /** A comparison of a named column with a text, integer or boolean literal. */
  function Comparison(e: Expr): Option<JsonPredicate> {
    if e.Call? && |e.args| >= 2 && ComparisonOp(e.op).Some? && ColumnName(e.args[0]).Some?
       && ColumnName(e.args[0]).value != "" && LiteralOf(e.args[1]).Some?
    then Some(JsonPredicate(ComparisonOp(e.op).value, ColumnName(e.args[0]).value, LiteralOf(e.args[1]).value))
    else None
  }

  /** The flattening; an operator with too few arguments raises. */
  function Traverse(e: Expr): Option<seq<JsonPredicate>> {
    if !e.Call? then Some([])
    else if IsAnd(e.op) then
      if |e.args| < 2 then None
      else
        match (Traverse(e.args[0]), Traverse(e.args[1]))
        case (Some(l), Some(r)) => Some(l + r)
        case _ => None
    else if ComparisonOp(e.op).Some? then
      if |e.args| < 2 then None
      else match Comparison(e) case Some(p) => Some([p]) case None => Some([])
    else Some([])
  }

  /** Reading the JSON back wants 64-bit integers: a boolean or a larger number is refused. */
  function Deserialize(js: seq<JsonPredicate>): Option<seq<Predicate>> {
    if js == [] then Some([])
    else
      match (ReadValue(js[0].value), Deserialize(js[1..]))
      case (Some(v), Some(rest)) => Some([Predicate(js[0].op, js[0].column, v)] + rest)
      case _ => None
  }

  function ReadValue(v: JsonValue): Option<PredicateValue> {
    match v
    case JsonString(s) => Some(Str(s))
    case JsonInt(n) => if IsI64(n) then Some(Int64(n)) else None
    case JsonBool(_) => None
  }

  /** The predicates that a scan gets for an expression, unless the call fails before. */
  function Flatten(e: Expr): Option<seq<Predicate>> {
    match Traverse(e) case Some(js) => Deserialize(js) case None => None
  }

  // ---------------------------------------------------------------- what an expression means

  datatype TypedCell = TypedCell(ctype: ColumnType, cell: Cell)

  /** A row of a table: its cell in each column that the table has. */
  type Row = string -> Option<TypedCell>

  /** The operand is a reference to the column, by name. */
  predicate RefersTo(operand: Expr, column: string) {
    match operand
    case Nothing => false
    case Call(op, args) => op == "field_ref" && args != [] && args[0].Atom? && args[0].value == TextValue(column)
    case Atom(value, name) => name == Some(column) || (name == None && value == TextValue(column))
  }

  predicate StandsFor(operand: Expr, v: PredicateValue) {
    operand.Atom? && operand.value == match v case Str(s) => TextValue(s) case Int64(n) => IntValue(n)
  }

  const COMPARISON_NAMES: set<string> := {"equal", "==", "not_equal", "!=", "greater", ">", "less", "<"}

  /** The node compares a named column with a text or a number. */
  predicate ComparesWith(e: Expr, column: string, v: PredicateValue) {
    && e.Call? && e.op in COMPARISON_NAMES && |e.args| >= 2
    && column != "" && RefersTo(e.args[0], column) && StandsFor(e.args[1], v)
  }

  /** The relation that a comparison goes by, between the values of a cell and of a literal. */
  predicate Related(op: string, x: Value, y: Value) {
    && SameKind(x, y)
    && (op == "equal" || op == "==" ==> x == y)
    && (op == "not_equal" || op == "!=" ==> x != y)
    && (op == "greater" || op == ">" ==> Exceeds(x, y))
    && (op == "less" || op == "<" ==> Exceeds(y, x))
  }

  /** The row has a value in the column, and the value is in the relation to the literal's. */
  predicate RowRelates(dates: Calendar, op: string, row: Row, column: string, v: PredicateValue) {
    match row(column)
    case None => false
    case Some(at) =>
      ValueOf(at.ctype, at.cell).Some? && Related(op, ValueOf(at.ctype, at.cell).value, LiteralValue(dates, v, at.ctype))
  }

  ghost predicate IsComparison(e: Expr) {
    exists column, v :: ComparesWith(e, column, v)
  }

  /**
   Whether a row satisfies an expression. Conjunctions and comparisons of a column with a literal
   have their meaning; every other node means whatever `other` says.
   */
  ghost predicate Means(dates: Calendar, e: Expr, row: Row, other: Expr -> bool) {
    if e.Call? && (e.op == "and" || e.op == "and_kleene") && |e.args| >= 2 then
      Means(dates, e.args[0], row, other) && Means(dates, e.args[1], row, other)
    else if IsComparison(e) then
      forall column, v :: ComparesWith(e, column, v) ==> RowRelates(dates, e.op, row, column, v)
    else other(e)
  }

  /** Nothing but conjunctions and comparisons. */
  ghost predicate Supported(e: Expr) {
    if e.Call? && (e.op == "and" || e.op == "and_kleene") && |e.args| >= 2 then Supported(e.args[0]) && Supported(e.args[1])
    else IsComparison(e)
  }

  /** The row has the predicate's column, and the predicate is true of its cell. */
  predicate TrueOf(dates: Calendar, p: Predicate, row: Row) {
    match row(p.column)
    case None => false
    case Some(at) => Holds(dates, p, at.ctype, at.cell) == Yes
  }

  /**
   The call does not fail: operators have their arguments, and a column is compared with no boolean
   and no integer beyond 64 bits.
   */
  ghost predicate Pushable(e: Expr) {
    e.Call? ==>
      && (e.op == "and" || e.op == "and_kleene" ==> |e.args| >= 2 && Pushable(e.args[0]) && Pushable(e.args[1]))
      && (e.op in COMPARISON_NAMES ==>
            && |e.args| >= 2
            && ((exists column :: column != "" && RefersTo(e.args[0], column)) && e.args[1].Atom? ==>
                  && !e.args[1].value.BoolValue?
                  && (e.args[1].value.IntValue? ==> IsI64(e.args[1].value.n))))
  }

  // ---------------------------------------------------------------- what flattening keeps

  lemma {:induction false} DeserializeAppend(a: seq<JsonPredicate>, b: seq<JsonPredicate>)
    ensures Deserialize(a + b).Some? <==> Deserialize(a).Some? && Deserialize(b).Some?
    ensures Deserialize(a + b).Some? ==> Deserialize(a + b).value == Deserialize(a).value + Deserialize(b).value
  {
    if a == [] {
      assert a + b == b;
    } else {
      assert (a + b)[1..] == a[1..] + b;
      DeserializeAppend(a[1..], b);
    }
  }

  lemma DeserializeOne(j: JsonPredicate)
    ensures Deserialize([j]) ==
            match ReadValue(j.value) case Some(v) => Some([Predicate(j.op, j.column, v)]) case None => None
  {
    assert [j][1..] == [];
    assert Deserialize([]) == Some([]);
    assert forall p: Predicate :: [p] + [] == [p];
  }

  lemma FlattenLeaf(e: Expr)
    requires !(e.Call? && IsAnd(e.op)) && Traverse(e).Some? && Deserialize(Traverse(e).value).Some?
    ensures Flatten(e).value ==
            match Comparison(e)
            case Some(j) => [Predicate(j.op, j.column, ReadValue(j.value).value)]
            case None => []
  {
    if j :| Comparison(e) == Some(j) {
      DeserializeOne(j);
    }
  }

  /** The flattener's predicate is the comparison with the operator of that name. */
  lemma ComparisonIs(e: Expr, column: string, v: PredicateValue)
    ensures ComparesWith(e, column, v) <==>
            var j := Comparison(e); j.Some? && j.value.column == column && j.value.value == JsonOf(v)
  {
    if e.Call? && |e.args| >= 2 {
      assert ColumnName(e.args[0]) == Some(column) <==> RefersTo(e.args[0], column);
      assert LiteralOf(e.args[1]) == Some(JsonOf(v)) <==> StandsFor(e.args[1], v);
      assert ComparisonOp(e.op).Some? <==> e.op in COMPARISON_NAMES;
    }
  }

  function JsonOf(v: PredicateValue): JsonValue {
    match v case Str(s) => JsonString(s) case Int64(n) => JsonInt(n)
  }

  lemma RelatedIs(op: string, x: Value, y: Value)
    requires ComparisonOp(op).Some?
    ensures Related(op, x, y) <==> Relates(ComparisonOp(op).value, x, y)
  {
  }

  lemma LeafMeans(dates: Calendar, e: Expr, j: JsonPredicate, v: PredicateValue, row: Row, other: Expr -> bool)
    requires !(e.Call? && IsAnd(e.op)) && Comparison(e) == Some(j) && ReadValue(j.value) == Some(v)
    ensures Means(dates, e, row, other) <==> TrueOf(dates, Predicate(j.op, j.column, v), row)
  {
    ComparisonIs(e, j.column, v);
    assert IsComparison(e);
    forall column, v' ensures ComparesWith(e, column, v') <==> column == j.column && v' == v {
      ComparisonIs(e, column, v');
    }
    var at := row(j.column);
    if at.Some? {
      HoldsIsComparison(dates, Predicate(j.op, j.column, v), at.value.ctype, at.value.cell);
      if ValueOf(at.value.ctype, at.value.cell).Some? {
        RelatedIs(e.op, ValueOf(at.value.ctype, at.value.cell).value, LiteralValue(dates, v, at.value.ctype));
      }
    }
  }

  /**
   Flattening only weakens: of a row that satisfies the whole expression every predicate of the
   list is true, whatever the dropped nodes mean; without dropped nodes the converse holds too.
   */
  lemma {:induction false} FlattenWeakens(dates: Calendar, e: Expr, row: Row, other: Expr -> bool)
    requires Flatten(e).Some?
    ensures Means(dates, e, row, other) ==> forall p :: p in Flatten(e).value ==> TrueOf(dates, p, row)
    ensures Supported(e) && (forall p :: p in Flatten(e).value ==> TrueOf(dates, p, row)) ==> Means(dates, e, row, other)
  {
    if e.Call? && IsAnd(e.op) {
      var l, r := Traverse(e.args[0]).value, Traverse(e.args[1]).value;
      DeserializeAppend(l, r);
      FlattenWeakens(dates, e.args[0], row, other);
      FlattenWeakens(dates, e.args[1], row, other);
    } else {
      FlattenLeaf(e);
      if j :| Comparison(e) == Some(j) {
        var p := Predicate(j.op, j.column, ReadValue(j.value).value);
        LeafMeans(dates, e, j, p.value, row, other);
        assert p in Flatten(e).value;
      } else {
        forall column, v ensures !ComparesWith(e, column, v) {
          ComparisonIs(e, column, v);
        }
      }
    }
  }

  lemma ColumnNameIs(operand: Expr)
    ensures ColumnName(operand).Some? && ColumnName(operand).value != "" <==>
            exists column :: column != "" && RefersTo(operand, column)
  {
    if ColumnName(operand).Some? {
      assert RefersTo(operand, ColumnName(operand).value);
    }
  }

  /** When the call gets as far as reading the predicates. */
  lemma {:induction false} FlattenSucceedsIff(e: Expr)
    ensures Flatten(e).Some? <==> Pushable(e)
  {
    if e.Call? && IsAnd(e.op) && |e.args| >= 2 {
      FlattenSucceedsIff(e.args[0]);
      FlattenSucceedsIff(e.args[1]);
      if Traverse(e.args[0]).Some? && Traverse(e.args[1]).Some? {
        DeserializeAppend(Traverse(e.args[0]).value, Traverse(e.args[1]).value);
      }
    } else if e.Call? && |e.args| >= 2 {
      ColumnNameIs(e.args[0]);
      assert ComparisonOp(e.op).Some? <==> e.op in COMPARISON_NAMES;
      if j :| Comparison(e) == Some(j) {
        DeserializeOne(j);
      }
    }
  }

  /** For instance `age > 30` is pushed down as such. */
  lemma GreaterIsPushed()
    ensures Flatten(Call("greater", [Call("field_ref", [Atom(TextValue("age"), None)]), Atom(IntValue(30), None)])) ==
            Some([Predicate(Gt, "age", Int64(30))])
  {
    var e := Call("greater", [Call("field_ref", [Atom(TextValue("age"), None)]), Atom(IntValue(30), None)]);
    assert Comparison(e) == Some(JsonPredicate(Gt, "age", JsonInt(30)));
    DeserializeOne(Comparison(e).value);
  }
}
