/**
 Strings as the code uses them: searching, trimming, decimal numbers, joining and splitting,
 and the byte order in which encoded text is compared.
 */
module Text {
  import opened Sequences

  // ---------------------------------------------------------------- searching

  predicate OccursAt(s: string, p: string, i: int) {
    0 <= i <= |s| - |p| && forall k :: 0 <= k < |p| ==> s[i + k] == p[k]
  }

  predicate Contains(s: string, p: string) {
    exists i :: 0 <= i <= |s| && OccursAt(s, p, i)
  }

  /** The first place at or behind i where p occurs. */
  function FindFrom(s: string, p: string, i: nat): (r: Option<nat>)
    requires i <= |s|
    ensures r.Some? ==> i <= r.value && OccursAt(s, p, r.value)
    ensures r.Some? ==> forall j :: i <= j < r.value ==> !OccursAt(s, p, j)
    ensures r.None? ==> forall j :: i <= j ==> !OccursAt(s, p, j)
    decreases |s| - i
  {
    if OccursAt(s, p, i) then Some(i)
    else if i == |s| then None
    else FindFrom(s, p, i + 1)
  }

  function Find(s: string, p: string): Option<nat> {
    FindFrom(s, p, 0)
  }

  lemma OccursBehind(a: string, b: string, p: string, k: int)
    requires k >= 0
    ensures OccursAt(a + b, p, |a| + k) <==> OccursAt(b, p, k)
  {
    forall j | OccursAt(a + b, p, |a| + k) && 0 <= j < |p| ensures b[k + j] == p[j] {
      assert (a + b)[|a| + k + j] == p[j];
    }
  }

  lemma OccursInFront(a: string, b: string, p: string, k: int)
    requires k + |p| <= |a|
    ensures OccursAt(a + b, p, k) <==> OccursAt(a, p, k)
  {
    forall j | OccursAt(a + b, p, k) && 0 <= j < |p| ensures a[k + j] == p[j] {
      assert (a + b)[k + j] == p[j];
    }
  }

  // ---------------------------------------------------------------- trimming

  /** The characters with the Unicode White_Space property. */
  predicate IsWhitespace(c: char) {
    var n := c as int;
    9 <= n <= 13 || n == 32 || n == 0x85 || n == 0xA0 || n == 0x1680 || 0x2000 <= n <= 0x200A
    || n == 0x2028 || n == 0x2029 || n == 0x202F || n == 0x205F || n == 0x3000
  }

  predicate Blank(s: string) {
    forall i :: 0 <= i < |s| ==> IsWhitespace(s[i])
  }

  function TrimStart(s: string): string {
    if s != [] && IsWhitespace(s[0]) then TrimStart(s[1..]) else s
  }

  function TrimEnd(s: string): string {
    if s != [] && IsWhitespace(s[|s| - 1]) then TrimEnd(s[..|s| - 1]) else s
  }

  function Trim(s: string): string {
    TrimEnd(TrimStart(s))
  }

  /** Without outer whitespace. */
  predicate Trimmed(s: string) {
    s != [] ==> !IsWhitespace(s[0]) && !IsWhitespace(s[|s| - 1])
  }

  lemma {:induction false} TrimStartPads(pad: string, s: string)
    requires Blank(pad)
    ensures TrimStart(pad + s) == TrimStart(s)
  {
    if pad == [] {
      assert pad + s == s;
    } else {
      assert (pad + s)[1..] == pad[1..] + s;
      TrimStartPads(pad[1..], s);
    }
  }

  lemma {:induction false} TrimEndPads(s: string, pad: string)
    requires Blank(pad)
    ensures TrimEnd(s + pad) == TrimEnd(s)
    decreases |pad|
  {
    if pad == [] {
      assert s + pad == s;
    } else {
      assert (s + pad)[..|s + pad| - 1] == s + pad[..|pad| - 1];
      TrimEndPads(s, pad[..|pad| - 1]);
    }
  }

  /** Trimming removes padding around trimmed text, and nothing else. */
  lemma TrimPads(pad: string, s: string, pad': string)
    requires Blank(pad) && Blank(pad') && Trimmed(s)
    ensures Trim(pad + s + pad') == s
  {
    assert pad + s + pad' == pad + (s + pad');
    TrimStartPads(pad, s + pad');
    if s == [] {
      assert s + pad' == pad' + [];
      TrimStartPads(pad', []);
    } else {
      TrimEndPads(s, pad');
    }
  }

  lemma {:induction false} TrimStartSplits(s: string) returns (pad: string)
    ensures Blank(pad) && s == pad + TrimStart(s)
    ensures TrimStart(s) != [] ==> !IsWhitespace(TrimStart(s)[0])
  {
    if s != [] && IsWhitespace(s[0]) {
      var rest := TrimStartSplits(s[1..]);
      pad := [s[0]] + rest;
      assert s == [s[0]] + s[1..];
    } else {
      pad := [];
    }
  }

  lemma {:induction false} TrimEndSplits(s: string) returns (pad: string)
    ensures Blank(pad) && s == TrimEnd(s) + pad
    ensures TrimEnd(s) != [] ==> !IsWhitespace(TrimEnd(s)[|TrimEnd(s)| - 1])
  {
    if s != [] && IsWhitespace(s[|s| - 1]) {
      var rest := TrimEndSplits(s[..|s| - 1]);
      pad := rest + [s[|s| - 1]];
      assert s == s[..|s| - 1] + [s[|s| - 1]];
    } else {
      pad := [];
    }
  }

  /** Every string is its trimmed core between two paddings. */
  lemma TrimSplits(s: string) returns (pad: string, pad': string)
    ensures Blank(pad) && Blank(pad') && s == pad + Trim(s) + pad' && Trimmed(Trim(s))
  {
    pad := TrimStartSplits(s);
    var core := TrimStart(s);
    pad' := TrimEndSplits(core);
    if Trim(s) != [] {
      assert core[0] == Trim(s)[0];
    }
  }

  lemma TrimKeepsInk(s: string, c: char)
    requires c in s && !IsWhitespace(c)
    ensures c in Trim(s)
  {
    var pad, pad' := TrimSplits(s);
  }

  // ---------------------------------------------------------------- decimal numbers

  predicate IsDigit(c: char) {
    '0' <= c <= '9'
  }

  predicate AllDigits(s: string) {
    forall i :: 0 <= i < |s| ==> IsDigit(s[i])
  }

  function DigitsValue(s: string): int
    requires AllDigits(s)
  {
    if s == [] then 0
    else 10 * DigitsValue(s[..|s| - 1]) + (s[|s| - 1] as int - '0' as int)
  }

  function Decimal(n: nat): string {
    if n < 10 then [(n + '0' as int) as char]
    else Decimal(n / 10) + [(n % 10 + '0' as int) as char]
  }

  lemma {:induction false} DecimalIsRead(n: nat)
    ensures Decimal(n) != [] && AllDigits(Decimal(n)) && DigitsValue(Decimal(n)) == n
  {
    if n < 10 {
      assert Decimal(n)[..0] == [];
    } else {
      DecimalIsRead(n / 10);
      assert Decimal(n)[..|Decimal(n)| - 1] == Decimal(n / 10);
    }
  }

  const I64_MIN: int := -0x8000_0000_0000_0000
  const I64_MAX: int := 0x7FFF_FFFF_FFFF_FFFF

  predicate IsI64(n: int) {
    I64_MIN <= n <= I64_MAX
  }

  function DecimalInt(n: int): string {
    if n < 0 then "-" + Decimal(-n) else Decimal(n)
  }

  /** An optional sign and at least one digit, within the range of a signed 64-bit number. */
  function ParseI64(s: string): Option<int> {
    var signed := s != [] && (s[0] == '-' || s[0] == '+');
    var digits := if signed then s[1..] else s;
    if digits == [] || !AllDigits(digits) then None
    else
      var n: int := if signed && s[0] == '-' then -DigitsValue(digits) else DigitsValue(digits);
      if IsI64(n) then Some(n) else None
  }

  lemma DecimalIntIsRead(n: int)
    requires IsI64(n)
    ensures ParseI64(DecimalInt(n)) == Some(n)
  {
    DecimalIsRead(if n < 0 then -n else n);
    if n < 0 {
      assert DecimalInt(n)[1..] == Decimal(-n);
    } else {
      assert IsDigit(Decimal(n)[0]);
    }
  }

  // ---------------------------------------------------------------- joining and splitting

  function Join(parts: seq<string>): string {
    if parts == [] then ""
    else if |parts| == 1 then parts[0]
    else parts[0] + "," + Join(parts[1..])
  }

  /** The pieces between the commas, of which there is always at least one. */
  function Split(s: string): (r: seq<string>)
    ensures r != []
    decreases |s|
  {
    if s == [] then [""]
    else
      var rest := Split(s[1..]);
      if s[0] == ',' then [""] + rest else [[s[0]] + rest[0]] + rest[1..]
  }

  function TrimAll(parts: seq<string>): seq<string> {
    seq(|parts|, i requires 0 <= i < |parts| => Trim(parts[i]))
  }

  lemma {:induction false} SplitWithoutComma(s: string)
    requires ',' !in s
    ensures Split(s) == [s]
  {
    if s != [] {
      SplitWithoutComma(s[1..]);
      assert s == [s[0]] + s[1..];
    }
  }

  lemma {:induction false} SplitAtComma(s: string, t: string)
    requires ',' !in s
    ensures Split(s + "," + t) == [s] + Split(t)
    decreases |s|
  {
    if s == [] {
      assert s + "," + t == "," + t;
      assert ("," + t)[1..] == t;
    } else {
      SplitAtComma(s[1..], t);
      assert (s + "," + t)[1..] == s[1..] + "," + t;
      assert s == [s[0]] + s[1..];
    }
  }

  lemma {:induction false} SplitCounts(s: string)
    ensures |Split(s)| == 1 + Commas(s)
  {
    if s != [] {
      SplitCounts(s[1..]);
    }
  }

  function Commas(s: string): nat {
    if s == [] then 0 else (if s[0] == ',' then 1 else 0) + Commas(s[1..])
  }

  // ---------------------------------------------------------------- bytes

  /** One to four bytes of the UTF-8 encoding. */
  function EncodeChar(c: char): seq<int> {
    var n := c as int;
    if n < 0x80 then [n]
    else if n < 0x800 then [0xC0 + n / 64, 0x80 + n % 64]
    else if n < 0x1_0000 then [0xE0 + n / 4096, 0x80 + n / 64 % 64, 0x80 + n % 64]
    else [0xF0 + n / 262144, 0x80 + n / 4096 % 64, 0x80 + n / 64 % 64, 0x80 + n % 64]
  }

  function Utf8(s: string): seq<int> {
    if s == [] then [] else EncodeChar(s[0]) + Utf8(s[1..])
  }

  /** Lexicographic order of byte sequences. */
  predicate BytesLess(a: seq<int>, b: seq<int>) {
    b != [] && (a == [] || a[0] < b[0] || (a[0] == b[0] && BytesLess(a[1..], b[1..])))
  }

  predicate BytesAtMost(a: seq<int>, b: seq<int>) {
    !BytesLess(b, a)
  }

  lemma {:induction false} BytesLessTransitive(a: seq<int>, b: seq<int>, c: seq<int>)
    requires BytesAtMost(a, b) && BytesAtMost(b, c)
    ensures BytesAtMost(a, c)
  {
    if a != [] && b != [] && c != [] && a[0] == b[0] == c[0] {
      BytesLessTransitive(a[1..], b[1..], c[1..]);
    }
  }

  // ---------------------------------------------------------------- the order of encoded text

  /** Position k is the first where a and b differ, and there a has the smaller element or has ended. */
  predicate SmallerAt(a: seq<int>, b: seq<int>, k: nat) {
    k <= |a| && k < |b| && a[..k] == b[..k] && (k == |a| || a[k] < b[k])
  }

  lemma {:induction false} BytesLessIff(a: seq<int>, b: seq<int>)
    ensures BytesLess(a, b) <==> exists k: nat :: SmallerAt(a, b, k)
  {
    if b == [] {
    } else if a == [] || a[0] < b[0] {
      assert SmallerAt(a, b, 0);
    } else if a[0] == b[0] {
      BytesLessIff(a[1..], b[1..]);
      if k: nat :| SmallerAt(a[1..], b[1..], k) {
        assert a[..k + 1] == [a[0]] + a[1..][..k] && b[..k + 1] == [b[0]] + b[1..][..k];
        assert SmallerAt(a, b, k + 1);
      }
      if k: nat :| SmallerAt(a, b, k) {
        assert a[1..][..k - 1] == a[..k][1..] && b[1..][..k - 1] == b[..k][1..];
        assert SmallerAt(a[1..], b[1..], k - 1);
      }
    } else {
      forall k: nat ensures !SmallerAt(a, b, k) {
        SharedFirst(a, b, k);
      }
    }
  }

  lemma SharedFirst<T>(a: seq<T>, b: seq<T>, k: nat)
    ensures 0 < k <= |a| && k <= |b| && a[..k] == b[..k] ==> a[0] == b[0]
  {
    if 0 < k <= |a| && k <= |b| && a[..k] == b[..k] {
      assert a[..k][0] == b[..k][0];
    }
  }

  predicate PrecedesAt(a: string, b: string, k: nat) {
    k <= |a| && k < |b| && a[..k] == b[..k] && (k == |a| || a[k] < b[k])
  }

  /** The order of text by its characters: at the first place where they differ, a's comes first. */
  predicate Precedes(a: string, b: string) {
    exists k: nat :: k <= |a| && PrecedesAt(a, b, k)
  }

  lemma PrecedesRest(a: string, b: string)
    requires a != [] && b != [] && a[0] == b[0]
    ensures Precedes(a, b) <==> Precedes(a[1..], b[1..])
  {
    if k: nat :| k <= |a| && PrecedesAt(a, b, k) {
      assert a[1..][..k - 1] == a[..k][1..] && b[1..][..k - 1] == b[..k][1..];
      assert PrecedesAt(a[1..], b[1..], k - 1);
    }
    if k: nat :| k <= |a[1..]| && PrecedesAt(a[1..], b[1..], k) {
      assert a[..k + 1] == [a[0]] + a[1..][..k] && b[..k + 1] == [b[0]] + b[1..][..k];
      assert PrecedesAt(a, b, k + 1);
    }
  }

  lemma PrecedesFirst(a: string, b: string)
    requires a != [] && b != [] && a[0] != b[0]
    ensures Precedes(a, b) <==> a[0] < b[0]
  {
    assert a[0] < b[0] ==> PrecedesAt(a, b, 0);
    if k: nat :| k <= |a| && PrecedesAt(a, b, k) {
      SharedFirst(a, b, k);
    }
  }

  /** Of two texts exactly one comes first, unless they are equal. */
  lemma {:induction false} PrecedesTrichotomy(a: string, b: string)
    ensures Precedes(a, b) ==> a != b && !Precedes(b, a)
    ensures a != b ==> Precedes(a, b) || Precedes(b, a)
  {
    if a == [] && b != [] {
      assert PrecedesAt(a, b, 0);
    } else if b == [] && a != [] {
      assert PrecedesAt(b, a, 0);
    } else if a != [] && b != [] {
      if a[0] == b[0] {
        PrecedesRest(a, b);
        PrecedesRest(b, a);
        PrecedesTrichotomy(a[1..], b[1..]);
        assert a == [a[0]] + a[1..] && b == [b[0]] + b[1..];
      } else {
        PrecedesFirst(a, b);
        PrecedesFirst(b, a);
      }
    }
  }

  lemma {:induction false} CommonFront(e: seq<int>, x: seq<int>, y: seq<int>)
    ensures BytesLess(e + x, e + y) <==> BytesLess(x, y)
  {
    if e == [] {
      assert e + x == x && e + y == y;
    } else {
      assert (e + x)[1..] == e[1..] + x && (e + y)[1..] == e[1..] + y;
      CommonFront(e[1..], x, y);
    }
  }

  lemma InBase64(n: nat)
    ensures n == n / 64 * 64 + n % 64
    ensures n / 64 / 64 == n / 4096 && n / 4096 / 64 == n / 262144
  {
  }

  /** Numbers are compared by their higher digits, and then by the last one. */
  lemma DigitOrder(n: nat, m: nat)
    requires n < m
    ensures n / 64 < m / 64 || (n / 64 == m / 64 && n % 64 < m % 64)
  {
  }

  /** Two encodings of one length have their digits in the order of the numbers. */
  predicate DigitsInOrder(e: seq<int>, f: seq<int>) {
    exists k: nat :: k < |e| && k < |f| && e[..k] == f[..k] && e[k] < f[k]
  }

  lemma FirstDifference(e: seq<int>, f: seq<int>, k: nat)
    requires |e| == |f| && k < |e| && (forall i :: 0 <= i < k ==> e[i] == f[i]) && e[k] < f[k]
    ensures DigitsInOrder(e, f)
  {
    assert e[..k] == f[..k];
  }

  lemma TwoBytesInOrder(c: char, d: char)
    requires c < d && |EncodeChar(c)| == |EncodeChar(d)| == 2
    ensures DigitsInOrder(EncodeChar(c), EncodeChar(d))
  {
    DigitOrder(c as int, d as int);
    FirstDifference(EncodeChar(c), EncodeChar(d), if c as int / 64 < d as int / 64 then 0 else 1);
  }

  lemma ThreeBytesInOrder(c: char, d: char)
    requires c < d && |EncodeChar(c)| == |EncodeChar(d)| == 3
    ensures DigitsInOrder(EncodeChar(c), EncodeChar(d))
  {
    var n, m := c as int, d as int;
    InBase64(n);
    InBase64(m);
    DigitOrder(n, m);
    if n / 64 < m / 64 {
      DigitOrder(n / 64, m / 64);
    }
    FirstDifference(EncodeChar(c), EncodeChar(d), if n / 4096 < m / 4096 then 0 else if n / 64 < m / 64 then 1 else 2);
  }

  lemma FourBytesInOrder(c: char, d: char)
    requires c < d && |EncodeChar(c)| == |EncodeChar(d)| == 4
    ensures DigitsInOrder(EncodeChar(c), EncodeChar(d))
  {
    var n, m := c as int, d as int;
    InBase64(n);
    InBase64(m);
    DigitOrder(n, m);
    if n / 64 < m / 64 {
      DigitOrder(n / 64, m / 64);
    }
    if n / 4096 < m / 4096 {
      DigitOrder(n / 4096, m / 4096);
    }
    FirstDifference(EncodeChar(c), EncodeChar(d),
                    if n / 262144 < m / 262144 then 0 else if n / 4096 < m / 4096 then 1 else if n / 64 < m / 64 then 2 else 3);
  }

  /** A smaller character has the smaller byte where the encodings first differ. */
  lemma CharsInOrder(c: char, d: char)
    requires c < d
    ensures DigitsInOrder(EncodeChar(c), EncodeChar(d))
  {
    var e, f := EncodeChar(c), EncodeChar(d);
    if |e| != |f| || |e| == 1 {
      assert e[..0] == f[..0] && e[0] < f[0];
    } else if |e| == 2 {
      TwoBytesInOrder(c, d);
    } else if |e| == 3 {
      ThreeBytesInOrder(c, d);
    } else {
      FourBytesInOrder(c, d);
    }
  }

  lemma BehindFront(front: seq<int>, a: seq<int>, b: seq<int>)
    requires a != [] && b != [] && a[0] < b[0]
    ensures BytesLess(front + a, front + b) && !BytesLess(front + b, front + a)
  {
    CommonFront(front, a, b);
    CommonFront(front, b, a);
  }

  lemma CutAt(s: seq<int>, t: seq<int>, k: nat)
    requires k < |s|
    ensures s + t == s[..k] + (s[k..] + t) && (s[k..] + t)[0] == s[k]
  {
  }

  lemma FrontDecides(e: seq<int>, f: seq<int>, x: seq<int>, y: seq<int>)
    requires DigitsInOrder(e, f)
    ensures BytesLess(e + x, f + y) && !BytesLess(f + y, e + x)
  {
    var k: nat :| k < |e| && k < |f| && e[..k] == f[..k] && e[k] < f[k];
    CutAt(e, x, k);
    CutAt(f, y, k);
    BehindFront(e[..k], e[k..] + x, f[k..] + y);
  }

  lemma EncodedInOrder(c: char, d: char, x: seq<int>, y: seq<int>)
    requires c < d
    ensures BytesLess(EncodeChar(c) + x, EncodeChar(d) + y) && !BytesLess(EncodeChar(d) + y, EncodeChar(c) + x)
  {
    CharsInOrder(c, d);
    FrontDecides(EncodeChar(c), EncodeChar(d), x, y);
  }

  /** Comparing the bytes of UTF-8 is comparing characters. */
  lemma {:induction false} Utf8Order(a: string, b: string)
    ensures BytesLess(Utf8(a), Utf8(b)) <==> Precedes(a, b)
  {
    if b == [] {
    } else if a == [] {
      assert PrecedesAt(a, b, 0);
    } else if a[0] == b[0] {
      CommonFront(EncodeChar(a[0]), Utf8(a[1..]), Utf8(b[1..]));
      PrecedesRest(a, b);
      Utf8Order(a[1..], b[1..]);
    } else {
      PrecedesFirst(a, b);
      if a[0] < b[0] {
        EncodedInOrder(a[0], b[0], Utf8(a[1..]), Utf8(b[1..]));
      } else {
        EncodedInOrder(b[0], a[0], Utf8(b[1..]), Utf8(a[1..]));
      }
    }
  }

  predicate Continues(b: int) {
    0x80 <= b < 0xC0
  }

  /** The number of the character at the start of some bytes. */
  function DecodeFirst(s: seq<int>): Option<int> {
    if |s| >= 1 && 0 <= s[0] < 0x80 then Some(s[0])
    else if |s| >= 2 && 0xC0 <= s[0] < 0xE0 && Continues(s[1]) then Some((s[0] - 0xC0) * 64 + (s[1] - 0x80))
    else if |s| >= 3 && 0xE0 <= s[0] < 0xF0 && Continues(s[1]) && Continues(s[2])
      then Some(((s[0] - 0xE0) * 64 + (s[1] - 0x80)) * 64 + (s[2] - 0x80))
    else if |s| >= 4 && 0xF0 <= s[0] < 0xF8 && Continues(s[1]) && Continues(s[2]) && Continues(s[3])
      then Some((((s[0] - 0xF0) * 64 + (s[1] - 0x80)) * 64 + (s[2] - 0x80)) * 64 + (s[3] - 0x80))
    else None
  }

  /** A character is read back from its encoding, whatever follows. */
  lemma EncodedIsDecoded(c: char, rest: seq<int>)
    ensures DecodeFirst(EncodeChar(c) + rest) == Some(c as int)
  {
    var n := c as int;
    InBase64(n);
    InBase64(n / 64);
    InBase64(n / 4096);
    var e := EncodeChar(c);
    assert forall i :: 0 <= i < |e| ==> (e + rest)[i] == e[i];
  }
}
