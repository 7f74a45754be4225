/**
 Row filter strings such as `age > 18` or `region == 'EU'`: parsing tries the operators in a fixed
 order, and undoes rendering exactly when the text avoids the operators that are tried earlier.
 */
module FilterSyntax {
  import opened Sequences
  import opened Text

  datatype PredicateValue = Int64(n: int) | Str(text: string)

  datatype Op = Eq | Neq | Gt | Lt

  datatype Predicate = Predicate(op: Op, column: string, value: PredicateValue)

  /** Strings without an operator are skipped; a lone quote as value makes the slice panic. */
  datatype Parse = Parsed(pred: Predicate) | Skipped | Panics

  /** The operators in the order in which they are tried. */
  datatype Symbol = EqEq | NotEq | Equals | Greater | Less

  const SYMBOLS: seq<Symbol> := [EqEq, NotEq, Equals, Greater, Less]

  function Spelling(y: Symbol): string {
    match y
    case EqEq => "=="
    case NotEq => "!="
    case Equals => "="
    case Greater => ">"
    case Less => "<"
  }

  function Meaning(y: Symbol): Op {
    match y
    case EqEq => Eq
    case NotEq => Neq
    case Equals => Eq
    case Greater => Gt
    case Less => Lt
  }

  /** The value behind an operator: quoted text, a number, or bare text. */
  function ParseValue(v: string): Option<PredicateValue> {
    if v != [] && v[0] == '\'' && v[|v| - 1] == '\'' then
      if |v| == 1 then None else Some(Str(v[1..|v| - 1]))
    else
      match ParseI64(v)
      case Some(n) => Some(Int64(n))
      case None => Some(Str(v))
  }

  function ParseAt(s: string, y: Symbol, i: nat): Parse
    requires OccursAt(s, Spelling(y), i)
  {
    match ParseValue(Trim(s[i + |Spelling(y)|..]))
    case Some(value) => Parsed(Predicate(Meaning(y), Trim(s[..i]), value))
    case None => Panics
  }

  /** The loop over the operators, from the n-th on. */
  function ParseFrom(s: string, n: nat): Parse
    decreases |SYMBOLS| - n
  {
    if n >= |SYMBOLS| then Skipped
    else
      match Find(s, Spelling(SYMBOLS[n]))
      case Some(i) => ParseAt(s, SYMBOLS[n], i)
      case None => ParseFrom(s, n + 1)
  }

  function ParseFilter(s: string): Parse {
    ParseFrom(s, 0)
  }

  function WinnerFrom(s: string, n: nat): (r: Option<Symbol>)
    ensures r.Some? ==> Find(s, Spelling(r.value)).Some?
    decreases |SYMBOLS| - n
  {
    if n >= |SYMBOLS| then None
    else if Find(s, Spelling(SYMBOLS[n])).Some? then Some(SYMBOLS[n])
    else WinnerFrom(s, n + 1)
  }

  /** The symbol that wins: the first in the order of trial that occurs anywhere. */
  function Winner(s: string): Option<Symbol> {
    if Find(s, "==").Some? then Some(EqEq)
    else if Find(s, "!=").Some? then Some(NotEq)
    else if Find(s, "=").Some? then Some(Equals)
    else if Find(s, ">").Some? then Some(Greater)
    else if Find(s, "<").Some? then Some(Less)
    else None
  }

  lemma {:induction false} ParseFromWinner(s: string, n: nat)
    ensures ParseFrom(s, n) ==
            match WinnerFrom(s, n) case Some(y) => ParseAt(s, y, Find(s, Spelling(y)).value) case None => Skipped
    decreases |SYMBOLS| - n
  {
    if n < |SYMBOLS| {
      ParseFromWinner(s, n + 1);
    }
  }

  lemma WinnerIsFirst(s: string)
    ensures WinnerFrom(s, 0) == Winner(s)
  {
    assert WinnerFrom(s, 4) == if Find(s, "<").Some? then Some(Less) else None;
    assert WinnerFrom(s, 3) == if Find(s, ">").Some? then Some(Greater) else WinnerFrom(s, 4);
    assert WinnerFrom(s, 2) == if Find(s, "=").Some? then Some(Equals) else WinnerFrom(s, 3);
    assert WinnerFrom(s, 1) == if Find(s, "!=").Some? then Some(NotEq) else WinnerFrom(s, 2);
  }

  lemma ParseByWinner(s: string)
    ensures ParseFilter(s) ==
            match Winner(s) case Some(y) => ParseAt(s, y, Find(s, Spelling(y)).value) case None => Skipped
  {
    ParseFromWinner(s, 0);
    WinnerIsFirst(s);
  }

  // ---------------------------------------------------------------- rendering

  predicate OperatorChar(c: char) {
    c == '=' || c == '!' || c == '>' || c == '<'
  }

  predicate NoOperators(s: string) {
    forall i :: 0 <= i < |s| ==> !OperatorChar(s[i])
  }

  function RenderValue(v: PredicateValue): string {
    match v
    case Int64(n) => DecimalInt(n)
    case Str(text) => "'" + text + "'"
  }

  /** A filter as a policy author writes it, with any padding between the three parts. */
  function Render(column: string, pad: string, y: Symbol, pad': string, v: PredicateValue, pad'': string): string {
    column + pad + Spelling(y) + pad' + RenderValue(v) + pad''
  }

  /** The text has none of the operators that are tried before y. */
  predicate AvoidsEarlier(y: Symbol, text: string) {
    match y
    case EqEq => true
    case NotEq => !Contains(text, "==")
    case Equals => !Contains(text, "==") && !Contains(text, "!=")
    case Greater => '=' !in text
    case Less => '=' !in text && '>' !in text
  }

  predicate ValueAvoids(y: Symbol, v: PredicateValue) {
    v.Str? ==> AvoidsEarlier(y, v.text)
  }

  /** A rendered filter whose parts can be rendered: a trimmed column without operators, blanks, an i64. */
  predicate Renderable(column: string, pad: string, pad': string, v: PredicateValue, pad'': string) {
    && Trimmed(column) && NoOperators(column)
    && Blank(pad) && Blank(pad') && Blank(pad'')
    && (v.Int64? ==> IsI64(v.n))
  }

  /** In front of the operator there is no operator character; behind it only text can have some. */
  lemma RenderedChars(column: string, pad: string, y: Symbol, pad': string, v: PredicateValue, pad'': string)
    requires Renderable(column, pad, pad', v, pad'')
    ensures NoOperators(column + pad)
    ensures v.Int64? ==> NoOperators(pad' + RenderValue(v) + pad'')
    ensures NoOperators(pad' + "'") && NoOperators("'" + pad'')
  {
    if v.Int64? {
      DecimalIsRead(if v.n < 0 then -v.n else v.n);
      assert forall c :: IsDigit(c) ==> !OperatorChar(c);
    }
    assert forall c :: IsWhitespace(c) ==> !OperatorChar(c);
  }

  function Tail(pad': string, v: PredicateValue, pad'': string): string {
    pad' + RenderValue(v) + pad''
  }

  predicate Before(z: Symbol, y: Symbol) {
    match y
    case EqEq => false
    case NotEq => z == EqEq
    case Equals => z == EqEq || z == NotEq
    case Greater => z == EqEq || z == NotEq || z == Equals
    case Less => z != Less
  }

  /** An operator occurrence in quoted text lies within the quotes. */
  lemma OccursWithin(l: string, text: string, r: string, p: string, k: int)
    requires NoOperators(l) && NoOperators(r) && p != [] && OperatorChar(p[0]) && OperatorChar(p[|p| - 1])
    requires OccursAt(l + (text + r), p, k)
    ensures OccursAt(text, p, k - |l|)
  {
    var s := l + (text + r);
    assert s[k] == p[0] && s[k + (|p| - 1)] == p[|p| - 1];
    assert k >= |l|;
    OccursBehind(l, text + r, p, k - |l|);
    assert k - |l| + |p| <= |text|;
    OccursInFront(text, r, p, k - |l|);
  }

  /**
   A symbol that is tried no later than y occurs in head + y + tail at y itself or in the tail,
   when the head has no operator character and the tail does not start with one.
   */
  lemma OccursBehindHead(head: string, y: Symbol, tail: string, z: Symbol, j: int)
    requires NoOperators(head) && tail != [] && !OperatorChar(tail[0]) && (Before(z, y) || z == y)
    requires OccursAt(head + (Spelling(y) + tail), Spelling(z), j)
    ensures (j == |head| && z == y) ||
            (j >= |head| + |Spelling(y)| && OccursAt(tail, Spelling(z), j - |head| - |Spelling(y)|))
  {
    var p, q := Spelling(z), Spelling(y);
    var s := head + (q + tail);
    assert s[j + 0] == p[0] && s[j + (|p| - 1)] == p[|p| - 1];
    assert j >= |head|;
    OccursBehind(head, q + tail, p, j - |head|);
    if j - |head| >= |q| {
      OccursBehind(q, tail, p, j - |head| - |q|);
    } else {
      var i := j - |head|;
      assert (q + tail)[i] == q[i];
      assert (q + tail)[|q|] == tail[0];
      assert (q + tail)[i + (|p| - 1)] == p[|p| - 1];
    }
  }

  lemma NumberOccurrence(pad': string, n: int, pad'': string, z: Symbol, k: int)
    requires Renderable("", "", pad', Int64(n), pad'')
    ensures var tail := Tail(pad', Int64(n), pad''); tail != [] && !OperatorChar(tail[0])
    ensures !OccursAt(Tail(pad', Int64(n), pad''), Spelling(z), k)
  {
    var tail := Tail(pad', Int64(n), pad'');
    RenderedChars("", "", EqEq, pad', Int64(n), pad'');
    DecimalIsRead(if n < 0 then -n else n);
    assert 0 <= k < |tail| ==> tail[k + 0] != Spelling(z)[0];
  }

  lemma TextOccurrence(pad': string, text: string, pad'': string, z: Symbol, k: int)
    requires Renderable("", "", pad', Str(text), pad'')
    ensures var tail := Tail(pad', Str(text), pad''); tail != [] && !OperatorChar(tail[0])
    ensures OccursAt(Tail(pad', Str(text), pad''), Spelling(z), k) <==> OccursAt(text, Spelling(z), k - |pad'| - 1)
  {
    var tail, l, r := Tail(pad', Str(text), pad''), pad' + "'", "'" + pad'';
    RenderedChars("", "", EqEq, pad', Str(text), pad'');
    assert tail == l + (text + r);
    assert tail[0] == l[0];
    if OccursAt(tail, Spelling(z), k) {
      OccursWithin(l, text, r, Spelling(z), k);
    } else if OccursAt(text, Spelling(z), k - |pad'| - 1) {
      OccursInFront(text, r, Spelling(z), k - |pad'| - 1);
      OccursBehind(l, text + r, Spelling(z), k - |pad'| - 1);
    }
  }

  /** What a rendered value looks like to the search: text between quotes, or no operator at all. */
  lemma ValueOccurrence(pad': string, v: PredicateValue, pad'': string, z: Symbol, k: int)
    requires Renderable("", "", pad', v, pad'')
    ensures var tail := Tail(pad', v, pad''); tail != [] && !OperatorChar(tail[0])
    ensures OccursAt(Tail(pad', v, pad''), Spelling(z), k) <==>
            v.Str? && OccursAt(v.text, Spelling(z), k - |pad'| - 1)
  {
    match v
    case Int64(n) => NumberOccurrence(pad', n, pad'', z, k);
    case Str(text) => TextOccurrence(pad', text, pad'', z, k);
  }

  lemma FoundBehind(head: string, q: string, tail: string, p: string, k: nat)
    requires OccursAt(tail, p, k)
    ensures Find(head + (q + tail), p).Some?
  {
    OccursBehind(q, tail, p, k);
    OccursBehind(head, q + tail, p, |q| + k);
  }

  /** An occurrence in the text is an occurrence in the whole filter. */
  lemma TextIsSearched(head: string, y: Symbol, pad': string, text: string, pad'': string, z: Symbol)
    requires Renderable("", "", pad', Str(text), pad'') && Contains(text, Spelling(z))
    ensures Find(head + (Spelling(y) + Tail(pad', Str(text), pad'')), Spelling(z)).Some?
  {
    var k :| 0 <= k <= |text| && OccursAt(text, Spelling(z), k);
    TextOccurrence(pad', text, pad'', z, |pad'| + 1 + k);
    FoundBehind(head, Spelling(y), Tail(pad', Str(text), pad''), Spelling(z), |pad'| + 1 + k);
  }

  /** A symbol tried earlier occurs in a rendered filter exactly when it occurs in its text. */
  lemma EarlierSymbols(head: string, y: Symbol, pad': string, v: PredicateValue, pad'': string, z: Symbol)
    requires NoOperators(head) && Renderable("", "", pad', v, pad'') && Before(z, y)
    ensures var f := Find(head + (Spelling(y) + Tail(pad', v, pad'')), Spelling(z));
            && (f.Some? <==> v.Str? && Contains(v.text, Spelling(z)))
            && (f.Some? ==> f.value >= |head| + |Spelling(y)|)
  {
    var tail, p, q := Tail(pad', v, pad''), Spelling(z), Spelling(y);
    if v.Str? && Contains(v.text, p) {
      TextIsSearched(head, y, pad', v.text, pad'', z);
    }
    var f := Find(head + (q + tail), p);
    if f.Some? {
      ValueOccurrence(pad', v, pad'', z, f.value - |head| - |q|);
      OccursBehindHead(head, y, tail, z, f.value);
    }
  }

  /** The winner of a rendered filter is its own symbol exactly when the text avoids earlier ones. */
  lemma RenderedWinner(head: string, y: Symbol, pad': string, v: PredicateValue, pad'': string)
    requires NoOperators(head) && Renderable("", "", pad', v, pad'')
    ensures var s := head + (Spelling(y) + Tail(pad', v, pad''));
            && (ValueAvoids(y, v) ==> Winner(s) == Some(y) && Find(s, Spelling(y)) == Some(|head|))
            && (!ValueAvoids(y, v) ==>
                  (Winner(s).Some? && Before(Winner(s).value, y) &&
                  Find(s, Spelling(Winner(s).value)).value >= |head| + |Spelling(y)|))
  {
    var s := head + (Spelling(y) + Tail(pad', v, pad''));
    OwnSymbol(head, y, pad', v, pad'');
    if Before(EqEq, y) { EarlierSymbols(head, y, pad', v, pad'', EqEq); }
    if Before(NotEq, y) { EarlierSymbols(head, y, pad', v, pad'', NotEq); }
    if Before(Equals, y) { EarlierSymbols(head, y, pad', v, pad'', Equals); }
    if Before(Greater, y) { EarlierSymbols(head, y, pad', v, pad'', Greater); }
    if v.Str? { EqualsCovers(v.text); }
  }

  lemma OwnSymbol(head: string, y: Symbol, pad': string, v: PredicateValue, pad'': string)
    requires NoOperators(head) && Renderable("", "", pad', v, pad'')
    ensures Find(head + (Spelling(y) + Tail(pad', v, pad'')), Spelling(y)) == Some(|head|)
  {
    var tail, q := Tail(pad', v, pad''), Spelling(y);
    ValueOccurrence(pad', v, pad'', y, 0);
    OccursInFront(q, tail, q, 0);
    OccursBehind(head, q + tail, q, 0);
    match Find(head + (q + tail), q)
    case Some(j) => OccursBehindHead(head, y, tail, y, j);
    case None => assert false;
  }

  lemma ContainedChars(text: string, p: string, k: nat)
    requires Contains(text, p) && k < |p|
    ensures p[k] in text
  {
    var i :| 0 <= i <= |text| && OccursAt(text, p, i);
    assert text[i + k] == p[k];
  }

  /** Text without '=' has neither "==" nor "!=". */
  lemma EqualsCovers(text: string)
    ensures Contains(text, "=") <==> '=' in text
    ensures Contains(text, ">") <==> '>' in text
    ensures Contains(text, "<") <==> '<' in text
    ensures '=' !in text ==> !Contains(text, "==") && !Contains(text, "!=")
  {
    if '=' in text {
      var i :| 0 <= i < |text| && text[i] == '=';
      assert OccursAt(text, "=", i);
    }
    if '>' in text {
      var i :| 0 <= i < |text| && text[i] == '>';
      assert OccursAt(text, ">", i);
    }
    if '<' in text {
      var i :| 0 <= i < |text| && text[i] == '<';
      assert OccursAt(text, "<", i);
    }
    if Contains(text, "<") { ContainedChars(text, "<", 0); }
    if Contains(text, "=") { ContainedChars(text, "=", 0); }
    if Contains(text, ">") { ContainedChars(text, ">", 0); }
    if Contains(text, "==") { ContainedChars(text, "==", 0); }
    if Contains(text, "!=") { ContainedChars(text, "!=", 1); }
  }

  /** An operator inside the text that wins leaves the rendered operator in the column name. */
  lemma LateWinnerSpoilsColumn(s: string, h: nat, i: nat)
    requires h < i <= |s| && OperatorChar(s[h])
    ensures !NoOperators(Trim(s[..i]))
  {
    assert s[..i][h] == s[h];
    TrimKeepsInk(s[..i], s[h]);
  }

  lemma AvoidingTextIsRead(head: string, y: Symbol, pad': string, v: PredicateValue, pad'': string)
    requires NoOperators(head) && Renderable("", "", pad', v, pad'') && ValueAvoids(y, v)
    ensures ParseFilter(head + (Spelling(y) + Tail(pad', v, pad''))) == Parsed(Predicate(Meaning(y), Trim(head), v))
  {
    RenderedWinner(head, y, pad', v, pad'');
    ParseByWinner(head + (Spelling(y) + Tail(pad', v, pad'')));
    ParseBehindHead(head, y, Tail(pad', v, pad''));
    RenderedValueIsRead(pad', v, pad'');
  }

  lemma ParseBehindHead(head: string, y: Symbol, tail: string)
    requires OccursAt(head + (Spelling(y) + tail), Spelling(y), |head|)
    ensures ParseAt(head + (Spelling(y) + tail), y, |head|) ==
            match ParseValue(Trim(tail))
            case Some(value) => Parsed(Predicate(Meaning(y), Trim(head), value))
            case None => Panics
  {
    var s := head + (Spelling(y) + tail);
    assert s[..|head|] == head;
    assert s[|head| + |Spelling(y)|..] == tail;
  }

  lemma WinnerColumn(s: string, z: Symbol, i: nat)
    requires Winner(s) == Some(z) && Find(s, Spelling(z)) == Some(i)
    ensures var r := ParseFilter(s); r == Panics || (r.Parsed? && r.pred.column == Trim(s[..i]))
  {
    ParseByWinner(s);
  }

  lemma LateWinner(head: string, y: Symbol, pad': string, v: PredicateValue, pad'': string) returns (z: Symbol, i: nat)
    requires NoOperators(head) && Renderable("", "", pad', v, pad'') && !ValueAvoids(y, v)
    ensures var s := head + (Spelling(y) + Tail(pad', v, pad''));
            Winner(s) == Some(z) && Find(s, Spelling(z)) == Some(i) && |head| < i <= |s|
  {
    RenderedWinner(head, y, pad', v, pad'');
    var s := head + (Spelling(y) + Tail(pad', v, pad''));
    z := Winner(s).value;
    i := Find(s, Spelling(z)).value;
  }

  lemma OtherTextIsMisread(head: string, y: Symbol, pad': string, v: PredicateValue, pad'': string)
    requires NoOperators(head) && Renderable("", "", pad', v, pad'') && !ValueAvoids(y, v)
    ensures var r := ParseFilter(head + (Spelling(y) + Tail(pad', v, pad'')));
            r == Panics || (r.Parsed? && !NoOperators(r.pred.column))
  {
    var s := head + (Spelling(y) + Tail(pad', v, pad''));
    var z, i := LateWinner(head, y, pad', v, pad'');
    WinnerColumn(s, z, i);
    assert s[|head|] == Spelling(y)[0];
    LateWinnerSpoilsColumn(s, |head|, i);
  }

  lemma HeadTrims(column: string, pad: string)
    requires Trimmed(column) && Blank(pad)
    ensures Trim(column + pad) == column
  {
    TrimPads("", column, pad);
    assert "" + column + pad == column + pad;
  }

  lemma RenderIsHeadAndTail(column: string, pad: string, y: Symbol, pad': string, v: PredicateValue, pad'': string)
    ensures Render(column, pad, y, pad', v, pad'') == (column + pad) + (Spelling(y) + Tail(pad', v, pad''))
  {
  }

  lemma SymbolComesBack(column: string, pad: string, y: Symbol, pad': string, v: PredicateValue, pad'': string)
    requires Renderable(column, pad, pad', v, pad'')
    ensures ParseFilter(Render(column, pad, y, pad', v, pad'')) == Parsed(Predicate(Meaning(y), column, v))
            <==> ValueAvoids(y, v)
  {
    RenderIsHeadAndTail(column, pad, y, pad', v, pad'');
    RenderedChars(column, pad, y, pad', v, pad'');
    if ValueAvoids(y, v) {
      AvoidingTextIsRead(column + pad, y, pad', v, pad'');
      HeadTrims(column, pad);
    } else {
      OtherTextIsMisread(column + pad, y, pad', v, pad'');
    }
  }

  lemma RenderedValueIsRead(pad': string, v: PredicateValue, pad'': string)
    requires Renderable("", "", pad', v, pad'')
    ensures ParseValue(Trim(Tail(pad', v, pad''))) == Some(v)
  {
    var r := RenderValue(v);
    match v
    case Int64(n) =>
      DecimalIsRead(if n < 0 then -n else n);
      DecimalIntIsRead(n);
      assert r[0] == '-' || IsDigit(r[0]);
      if n < 0 {
        assert r[|r| - 1] == Decimal(-n)[|Decimal(-n)| - 1];
      }
      assert IsDigit(r[|r| - 1]);
      TrimPads(pad', r, pad'');
    case Str(text) =>
      assert r[1..|r| - 1] == text;
      TrimPads(pad', r, pad'');
  }

  /** The operators as they are written in a policy, and the relations that they stand for. */
  const OPERATORS: map<string, Op> := map["==" := Eq, "=" := Eq, "!=" := Neq, ">" := Gt, "<" := Lt]

  /** The text has none of the operators that are tried before this one. */
  predicate Avoids(op: string, text: string) {
    && (op != "==" ==> !Contains(text, "=="))
    && (op != "==" && op != "!=" ==> !Contains(text, "!="))
    && (op == ">" || op == "<" ==> '=' !in text)
    && (op == "<" ==> '>' !in text)
  }

  lemma WrittenSymbol(op: string, text: string) returns (y: Symbol)
    requires op in OPERATORS
    ensures Spelling(y) == op && Meaning(y) == OPERATORS[op] && (AvoidsEarlier(y, text) <==> Avoids(op, text))
  {
    y := if op == "==" then EqEq else if op == "!=" then NotEq else if op == "=" then Equals else if op == ">" then Greater else Less;
    EqualsCovers(text);
  }

  /**
   A filter is parsed as it is written exactly when its text avoids the operators that are tried
   earlier; numbers always come back.
   */
  lemma ParseUndoesRender(column: string, pad: string, op: string, pad': string, v: PredicateValue, pad'': string)
    requires op in OPERATORS && Renderable(column, pad, pad', v, pad'')
    ensures ParseFilter(column + pad + op + pad' + RenderValue(v) + pad'') == Parsed(Predicate(OPERATORS[op], column, v))
            <==> (v.Str? ==> Avoids(op, v.text))
  {
    var y := WrittenSymbol(op, if v.Str? then v.text else "");
    SymbolComesBack(column, pad, y, pad', v, pad'');
  }

  /** For instance, a "greater" filter on text with an equals sign does not come back. */
  lemma GreaterOnEqualsIsMisread()
    ensures ParseFilter("t" + "" + ">" + "" + "'a=b'" + "") != Parsed(Predicate(Gt, "t", Str("a=b")))
  {
    assert "a=b"[1] == '=';
    assert RenderValue(Str("a=b")) == "'a=b'";
    ParseUndoesRender("t", "", ">", "", Str("a=b"), "");
  }

  // ---------------------------------------------------------------- filters that give no predicate

  lemma NoWinnerIff(s: string)
    ensures Winner(s).None? <==> '=' !in s && '>' !in s && '<' !in s
  {
    EqualsCovers(s);
  }

  /** A filter is skipped exactly when it has no operator character other than '!'. */
  lemma SkippedIff(s: string)
    ensures ParseFilter(s) == Skipped <==> '=' !in s && '>' !in s && '<' !in s
  {
    ParseByWinner(s);
    NoWinnerIff(s);
  }

  /** What stands behind the operator that wins. */
  function BehindWinner(s: string): string
    requires Winner(s).Some?
  {
    s[Find(s, Spelling(Winner(s).value)).value + |Spelling(Winner(s).value)|..]
  }

  /** The parser panics exactly when a single quote is all that stands behind the operator. */
  lemma PanicsIff(s: string)
    ensures ParseFilter(s) == Panics <==> Winner(s).Some? && Trim(BehindWinner(s)) == "'"
  {
    ParseByWinner(s);
    if Winner(s).Some? {
      LoneQuoteIff(Trim(BehindWinner(s)));
    }
  }

  lemma LoneQuoteIff(v: string)
    ensures ParseValue(v).None? <==> v == "'"
  {
    if v != [] && v[0] == '\'' && |v| == 1 {
      assert v == "'";
    }
  }

  lemma CharsAt(s: string, p: string, i: int, k: nat)
    requires OccursAt(s, p, i) && k < |p|
    ensures s[i + k] == p[k]
  {
  }

  lemma NotAt(s: string, p: string, i: nat, k: nat)
    requires i + k < |s| && k < |p| && s[i + k] != p[k]
    ensures !OccursAt(s, p, i)
  {
  }

  lemma FindFirst(s: string, p: string, i: nat)
    requires OccursAt(s, p, i) && forall j :: 0 <= j < i ==> !OccursAt(s, p, j)
    ensures Find(s, p) == Some(i)
  {
  }

  lemma LoneQuoteWinner()
    ensures Winner("a='") == Some(Equals) && Find("a='", "=") == Some(1)
  {
    var s := "a='";
    forall i ensures !OccursAt(s, "==", i) && !OccursAt(s, "!=", i) {
      if OccursAt(s, "==", i) {
        CharsAt(s, "==", i, 0);
        CharsAt(s, "==", i, 1);
      }
      if OccursAt(s, "!=", i) {
        CharsAt(s, "!=", i, 0);
      }
    }
    assert OccursAt(s, "=", 1);
    NotAt(s, "=", 0, 0);
    FindFirst(s, "=", 1);
  }

  /** For instance `a='`. */
  lemma LoneQuotePanics()
    ensures ParseFilter("a='") == Panics
  {
    LoneQuoteWinner();
    assert BehindWinner("a='") == "'";
    TrimPads("", "'", "");
    assert "" + "'" + "" == "'";
    PanicsIff("a='");
  }
}
