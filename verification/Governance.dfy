/**
 Access decisions on a column: which role is active, which masks the role's policy gives to the
 column, and what the winning mask does to every cell.
 */
module Governance {
  import opened Sequences
  import opened Text
  import opened Manifest
  import opened Comparisons

  datatype GovernanceError = AccessDenied | DataLeakPrevented(column: string)

  datatype FailClosedMode = StrictError | GracefulMasking

  /** Who reads, under which assumed role and purpose, and what an unlisted column leads to. */
  datatype Reader = Reader(
    principals: seq<string>,
    assumedRole: Option<string>,
    purpose: Option<string>,
    mode: FailClosedMode)

  // ---------------------------------------------------------------- the active role

  /** The role that the policy binds to the purpose. */
  function BoundRole(policy: PolicyManifest, purpose: Option<string>): Option<string> {
    if purpose.Some? && policy.purposeBindings.Some? && purpose.value in policy.purposeBindings.value
    then Some(policy.purposeBindings.value[purpose.value]) else None
  }

  function MatchingRoles(principals: seq<string>, policy: PolicyManifest): seq<string> {
    if principals == [] then []
    else if principals[0] in policy.principals then [principals[0]] + MatchingRoles(principals[1..], policy)
    else MatchingRoles(principals[1..], policy)
  }

  function ResolveActiveRole(reader: Reader, policy: PolicyManifest): Result<string, GovernanceError> {
    var bound := BoundRole(policy, reader.purpose);
    if bound.Some? && reader.assumedRole.Some? && bound.value != reader.assumedRole.value then Err(AccessDenied)
    else
      var target := if bound.Some? then bound else reader.assumedRole;
      match target
      case Some(role) => if role in reader.principals then Ok(role) else Err(AccessDenied)
      case None =>
        var matching := MatchingRoles(reader.principals, policy);
        if |matching| == 1 then Ok(matching[0]) else Err(AccessDenied)
  }

  /** Position i holds the only principal that the policy knows. */
  predicate OnlyMatch(principals: seq<string>, policy: PolicyManifest, i: int) {
    && 0 <= i < |principals| && principals[i] in policy.principals
    && forall j :: 0 <= j < |principals| && j != i ==> principals[j] !in policy.principals
  }

  lemma {:induction false} NoMatch(principals: seq<string>, policy: PolicyManifest)
    ensures MatchingRoles(principals, policy) == [] <==> forall j :: 0 <= j < |principals| ==> principals[j] !in policy.principals
  {
    if principals != [] {
      NoMatch(principals[1..], policy);
      assert forall j :: 0 < j < |principals| ==> principals[j] == principals[1..][j - 1];
    }
  }

  lemma {:induction false} SingleMatch(principals: seq<string>, policy: PolicyManifest, role: string)
    ensures MatchingRoles(principals, policy) == [role] <==>
            exists i :: OnlyMatch(principals, policy, i) && principals[i] == role
  {
    if principals != [] {
      var rest := principals[1..];
      assert forall j :: 0 < j < |principals| ==> principals[j] == rest[j - 1];
      assert forall j :: 0 <= j < |rest| ==> rest[j] == principals[j + 1];
      if principals[0] in policy.principals {
        NoMatch(rest, policy);
        if MatchingRoles(rest, policy) == [] {
          assert MatchingRoles(principals, policy) == [principals[0]];
          assert [principals[0]] == [role] <==> principals[0] == role;
          assert OnlyMatch(principals, policy, 0);
          assert forall i :: OnlyMatch(principals, policy, i) ==> i == 0;
        } else {
          forall i ensures !OnlyMatch(principals, policy, i) {
            if i == 0 {
              var j :| 0 <= j < |rest| && rest[j] in policy.principals;
              assert principals[j + 1] in policy.principals;
            }
          }
        }
      } else {
        SingleMatch(rest, policy, role);
        if MatchingRoles(rest, policy) == [role] {
          var i :| OnlyMatch(rest, policy, i) && rest[i] == role;
          assert OnlyMatch(principals, policy, i + 1) && principals[i + 1] == role;
        } else {
          forall i | OnlyMatch(principals, policy, i) ensures principals[i] != role {
            assert OnlyMatch(rest, policy, i - 1);
          }
        }
      }
    }
  }

  /** The policy binds the reader's purpose to the role, or the reader assumes it. */
  predicate Claims(reader: Reader, policy: PolicyManifest, role: string) {
    || reader.assumedRole == Some(role)
    || (reader.purpose.Some? && policy.purposeBindings.Some?
        && reader.purpose.value in policy.purposeBindings.value
        && policy.purposeBindings.value[reader.purpose.value] == role)
  }

  /** A role is bound or assumed without conflict and held, or else the reader's only principal in the policy. */
  ghost predicate Activates(reader: Reader, policy: PolicyManifest, role: string) {
    || (Claims(reader, policy, role) && (forall other :: Claims(reader, policy, other) ==> other == role)
        && role in reader.principals)
    || ((forall other :: !Claims(reader, policy, other))
        && exists i :: OnlyMatch(reader.principals, policy, i) && reader.principals[i] == role)
  }

  lemma ClaimsAre(reader: Reader, policy: PolicyManifest, role: string)
    ensures Claims(reader, policy, role) <==> Some(role) in {BoundRole(policy, reader.purpose), reader.assumedRole}
  {
  }

  /** A role becomes active exactly when the reader, the purpose and the policy single it out. */
  lemma ActiveRoleExactly(reader: Reader, policy: PolicyManifest, role: string)
    ensures ResolveActiveRole(reader, policy) == Ok(role) <==> Activates(reader, policy, role)
  {
    SingleMatch(reader.principals, policy, role);
    var matching := MatchingRoles(reader.principals, policy);
    assert |matching| == 1 ==> matching == [matching[0]];
    var bound := BoundRole(policy, reader.purpose);
    forall other ensures Claims(reader, policy, other) <==> Some(other) in {bound, reader.assumedRole} {
      ClaimsAre(reader, policy, other);
    }
    if bound.Some? {
      assert Claims(reader, policy, bound.value);
    }
    if reader.assumedRole.Some? {
      assert Claims(reader, policy, reader.assumedRole.value);
    }
  }

  // ---------------------------------------------------------------- masks

  function Padded(lower: string -> string, name: string): string {
    "_" + lower(name) + "_"
  }

  /** A name is one of the underscore-separated parts of the column's name. */
  predicate NamePartOf(lower: string -> string, name: string, column: string) {
    Contains(Padded(lower, column), Padded(lower, name))
  }

  function MasksByName(lower: string -> string, role: PrincipalPolicy, column: string): set<string> {
    set key | key in role.columnMasks && NamePartOf(lower, key, column) :: role.columnMasks[key]
  }

  function MasksByTag(role: PrincipalPolicy, tags: seq<string>): set<string> {
    set tag | tag in tags && tag in role.tagMasks :: role.tagMasks[tag]
  }

  /** The masks that the role's policy gives to the column, by name part and by tag. */
  function MatchedMasks(lower: string -> string, role: PrincipalPolicy, column: string, tags: seq<string>): set<string> {
    MasksByName(lower, role, column) + MasksByTag(role, tags)
  }

  function MasksOf(lower: string -> string, role: PrincipalPolicy, column: string, tags: seq<string>): set<string> {
    var matched := MatchedMasks(lower, role, column, tags);
    if matched == {} then {"UNLISTED"} else matched
  }

  /** The first loop, in whatever order the map of column masks is iterated. */
  method CollectByName(lower: string -> string, role: PrincipalPolicy, column: string) returns (masks: set<string>)
    ensures masks == MasksByName(lower, role, column)
  {
    masks := {};
    var todo := role.columnMasks.Keys;
    while todo != {}
      invariant todo <= role.columnMasks.Keys
      invariant masks == set key | key in role.columnMasks && key !in todo && NamePartOf(lower, key, column) :: role.columnMasks[key]
      decreases todo
    {
      var key :| key in todo;
      if NamePartOf(lower, key, column) {
        masks := masks + {role.columnMasks[key]};
      }
      todo := todo - {key};
    }
  }

  method CollectByTag(role: PrincipalPolicy, tags: seq<string>) returns (masks: set<string>)
    ensures masks == MasksByTag(role, tags)
  {
    masks := {};
    for i := 0 to |tags|
      invariant masks == MasksByTag(role, tags[..i])
    {
      assert tags[..i + 1] == tags[..i] + [tags[i]];
      if tags[i] in role.tagMasks {
        masks := masks + {role.tagMasks[tags[i]]};
      }
    }
    assert tags[..|tags|] == tags;
  }

  /** Both loops into one set; without a mask the column is unlisted. */
  method CollectMasks(lower: string -> string, role: PrincipalPolicy, column: string, tags: seq<string>)
    returns (masks: set<string>)
    ensures masks == MasksOf(lower, role, column, tags)
  {
    var byName := CollectByName(lower, role, column);
    var byTag := CollectByTag(role, tags);
    masks := byName + byTag;
    if masks == {} {
      masks := {"UNLISTED"};
    }
  }

  datatype Treatment = InClear | Redacted | Hashed

  /**
   The winning mask. A mask that is none of the four known ones wins only when nothing else is
   there, and then no branch masks the array.
   */
  function TreatmentOf(masks: set<string>, mode: FailClosedMode): Result<Treatment, GovernanceError> {
    if "PLAINTEXT" in masks then Ok(InClear)
    else if "HASH" in masks then Ok(Hashed)
    else if "REDACT" in masks then Ok(Redacted)
    else if "UNLISTED" in masks then (match mode case StrictError => Err(AccessDenied) case GracefulMasking => Ok(Redacted))
    else Ok(InClear)
  }

  const KNOWN_MASKS: set<string> := {"PLAINTEXT", "HASH", "REDACT", "UNLISTED"}

  /**
   "Only PLAINTEXT shows the data" holds of a set of masks, in every mode, exactly when it has a
   known mask: unknown masks alone leave the data in the clear.
   */
  lemma OnlyPlaintextRevealsIff(masks: set<string>)
    ensures (forall mode :: TreatmentOf(masks, mode) == Ok(InClear) ==> "PLAINTEXT" in masks) <==> masks * KNOWN_MASKS != {}
  {
    if masks * KNOWN_MASKS == {} {
      forall m | m in KNOWN_MASKS ensures m !in masks {
        assert m in masks ==> m in masks * KNOWN_MASKS;
      }
      assert TreatmentOf(masks, GracefulMasking) == Ok(InClear);
    } else {
      var m :| m in masks * KNOWN_MASKS;
      forall mode | TreatmentOf(masks, mode) == Ok(InClear) ensures "PLAINTEXT" in masks {
        assert m in masks;
      }
    }
  }

  // ---------------------------------------------------------------- the decision

  /** The policy requires the column to be encrypted, by name part or by tag. */
  predicate MustBeEncrypted(lower: string -> string, policy: PolicyManifest, column: string, tags: seq<string>) {
    || (exists j :: 0 <= j < |RequiredColumns(policy)| && NamePartOf(lower, RequiredColumns(policy)[j], column))
    || (exists j :: 0 <= j < |RequiredTags(policy)| && RequiredTags(policy)[j] in tags)
  }

  /** What happens to a column, before looking at its cells. */
  function Decide(lower: string -> string, reader: Reader, policy: PolicyManifest, column: string, encrypted: bool,
                  tags: seq<string>): Result<Treatment, GovernanceError>
  {
    if !encrypted then
      if MustBeEncrypted(lower, policy, column, tags) then Err(DataLeakPrevented(column)) else Ok(InClear)
    else
      match ResolveActiveRole(reader, policy)
      case Err(e) => Err(e)
      case Ok(role) =>
        if role !in policy.principals then Err(AccessDenied)
        else TreatmentOf(MasksOf(lower, policy.principals[role], column, tags), reader.mode)
  }

  /** Reading an encrypted column means that the active role is the reader's and the policy's. */
  lemma EncryptedReadIsAuthorized(lower: string -> string, reader: Reader, policy: PolicyManifest, column: string, tags: seq<string>)
    requires Decide(lower, reader, policy, column, true, tags).Ok?
    ensures exists role :: role in reader.principals && role in policy.principals && ResolveActiveRole(reader, policy) == Ok(role)
  {
    var role := ResolveActiveRole(reader, policy).value;
    ActiveRoleExactly(reader, policy, role);
    assert role in reader.principals;
  }

  /** A documented mask set never shows an encrypted column in the clear without PLAINTEXT. */
  lemma ClearOnlyByPlaintext(lower: string -> string, reader: Reader, policy: PolicyManifest, column: string, tags: seq<string>, role: string)
    requires ResolveActiveRole(reader, policy) == Ok(role) && role in policy.principals
    requires var masks := MasksOf(lower, policy.principals[role], column, tags); masks * KNOWN_MASKS != {}
    ensures Decide(lower, reader, policy, column, true, tags) == Ok(InClear) <==>
            "PLAINTEXT" in MasksOf(lower, policy.principals[role], column, tags)
  {
    OnlyPlaintextRevealsIff(MasksOf(lower, policy.principals[role], column, tags));
  }

  /** A mask called NULL, as a policy may well say, leaves an encrypted column readable. */
  lemma UnknownMaskReveals(lower: string -> string, reader: Reader, policy: PolicyManifest, role: string)
    requires ResolveActiveRole(reader, policy) == Ok(role) && role in policy.principals
    requires policy.principals[role] == NO_POLICY.(columnMasks := map["email" := "NULL"])
    ensures Decide(lower, reader, policy, "email", true, []) == Ok(InClear)
  {
    var p := policy.principals[role];
    assert OccursAt(Padded(lower, "email"), Padded(lower, "email"), 0);
    assert p.columnMasks["email"] in MatchedMasks(lower, p, "email", []);
    assert MatchedMasks(lower, p, "email", []) == {"NULL"};
  }

  // ---------------------------------------------------------------- cells

  /** A salted digest: 32 bytes for every text. */
  type Bytes32 = d: seq<int> | |d| == 32 && forall i :: 0 <= i < |d| ==> 0 <= d[i] < 256
    witness seq(32, i => 0)

  function HexDigit(n: int): char
    requires 0 <= n < 16
  {
    "0123456789abcdef"[n]
  }

  function Hex(d: seq<int>): string
    requires forall i :: 0 <= i < |d| ==> 0 <= d[i] < 256
  {
    if d == [] then "" else Hex(d[..|d| - 1]) + [HexDigit(d[|d| - 1] / 16), HexDigit(d[|d| - 1] % 16)]
  }

  /** Fills the buffer with the hexadecimal form of the digest, two characters a byte. */
  method HexInto(digest: Bytes32, buffer: array<char>)
    requires buffer.Length == 64
    modifies buffer
    ensures buffer[..] == Hex(digest)
  {
    for i := 0 to 32
      invariant buffer[..2 * i] == Hex(digest[..i])
    {
      assert digest[..i + 1][..i] == digest[..i];
      buffer[2 * i] := HexDigit(digest[i] / 16);
      buffer[2 * i + 1] := HexDigit(digest[i] % 16);
      assert buffer[..2 * (i + 1)] == buffer[..2 * i] + [HexDigit(digest[i] / 16), HexDigit(digest[i] % 16)];
    }
    assert digest[..32] == digest && buffer[..64] == buffer[..];
  }

  predicate AllBytes(d: seq<int>) {
    forall i :: 0 <= i < |d| ==> 0 <= d[i] < 256
  }

  /** The value of a hexadecimal digit, written in lower case. */
  function DigitValue(c: char): Option<int> {
    if '0' <= c <= '9' then Some(c as int - '0' as int)
    else if 'a' <= c <= 'f' then Some(c as int - 'a' as int + 10)
    else None
  }

  /** Reads two digits a byte, the higher one first. */
  function Unhex(s: string): Option<seq<int>> {
    if s == "" then Some([])
    else if |s| == 1 then None
    else
      match (Unhex(s[..|s| - 2]), DigitValue(s[|s| - 2]), DigitValue(s[|s| - 1]))
      case (Some(d), Some(high), Some(low)) => Some(d + [16 * high + low])
      case _ => None
  }

  lemma DigitIsRead(n: int)
    requires 0 <= n < 16
    ensures DigitValue(HexDigit(n)) == Some(n)
  {
    assert "0123456789abcdef"[n] == if n < 10 then ('0' as int + n) as char else ('a' as int + n - 10) as char;
  }

  lemma UnhexStep(s: string, d: seq<int>, high: int, low: int)
    requires Unhex(s) == Some(d) && 0 <= high < 16 && 0 <= low < 16
    ensures Unhex(s + [HexDigit(high), HexDigit(low)]) == Some(d + [16 * high + low])
  {
    var t := s + [HexDigit(high), HexDigit(low)];
    assert t[..|t| - 2] == s;
    DigitIsRead(high);
    DigitIsRead(low);
  }

  lemma HexStep(d: seq<int>, x: int)
    requires AllBytes(d + [x])
    ensures AllBytes(d) && 0 <= x < 256
    ensures Hex(d + [x]) == Hex(d) + [HexDigit(x / 16), HexDigit(x % 16)]
  {
    assert (d + [x])[|d|] == x;
    assert forall i :: 0 <= i < |d| ==> (d + [x])[i] == d[i];
    assert (d + [x])[..|d|] == d;
  }

  /** The hexadecimal form of a digest is read back: it has two digits a byte and loses nothing. */
  lemma {:induction false} HexIsReadBack(d: seq<int>)
    requires AllBytes(d)
    ensures |Hex(d)| == 2 * |d|
    ensures Unhex(Hex(d)) == Some(d)
  {
    if d != [] {
      var init, x := d[..|d| - 1], d[|d| - 1];
      assert d == init + [x];
      HexStep(init, x);
      HexIsReadBack(init);
      UnhexStep(Hex(init), init, x / 16, x % 16);
    }
  }

  lemma HexInjective(a: seq<int>, b: seq<int>)
    requires AllBytes(a) && AllBytes(b) && Hex(a) == Hex(b)
    ensures a == b
  {
    HexIsReadBack(a);
    HexIsReadBack(b);
  }

  predicate IsText(t: ColumnType) {
    t == TUtf8 || t == TLargeUtf8
  }

  /** Text keeps its nulls; values of other types are nulled out by every mask. */
  function MaskCell(digest: string -> Bytes32, t: ColumnType, how: Treatment, c: Cell): Cell {
    match how
    case InClear => c
    case Redacted => if IsText(t) && c.Chars? then Chars("***") else Null
    case Hashed => if IsText(t) && c.Chars? then Chars(Hex(digest(c.s))) else Null
  }

  function MaskCells(digest: string -> Bytes32, t: ColumnType, how: Treatment, cells: seq<Cell>): seq<Cell> {
    Map(cells, (c: Cell) => MaskCell(digest, t, how, c))
  }

  /** The builder loop over the rows of a text column, or a null array of the same length. */
  method MaskColumn(digest: string -> Bytes32, t: ColumnType, how: Treatment, cells: seq<Cell>) returns (r: seq<Cell>)
    requires IsText(t) ==> forall i :: 0 <= i < |cells| ==> cells[i].Null? || cells[i].Chars?
    ensures r == MaskCells(digest, t, how, cells)
  {
    if how == InClear {
      r := cells;
    } else if !IsText(t) {
      r := seq(|cells|, i => Null);
    } else {
      var hexBuffer := new char[64];
      r := [];
      for i := 0 to |cells|
        invariant r == MaskCells(digest, t, how, cells[..i])
      {
        var out := Null;
        if cells[i].Chars? {
          if how == Hashed {
            HexInto(digest(cells[i].s), hexBuffer);
            out := Chars(hexBuffer[..]);
          } else {
            out := Chars("***");
          }
        }
        r := r + [out];
        assert r == MaskCells(digest, t, how, cells[..i + 1]);
      }
      assert cells[..|cells|] == cells;
    }
  }

  /** Masking works cell by cell, so it distributes over any way of cutting a column. */
  lemma MaskAppend(digest: string -> Bytes32, t: ColumnType, how: Treatment, a: seq<Cell>, b: seq<Cell>)
    ensures MaskCells(digest, t, how, a + b) == MaskCells(digest, t, how, a) + MaskCells(digest, t, how, b)
  {
  }

  /** Hashing keeps equality and inequality of text, so hashed columns can still be joined. */
  lemma HashedTextKeepsEquality(digest: string -> Bytes32, t: ColumnType, a: string, b: string)
    requires IsText(t)
    requires digest(a) == digest(b) ==> a == b
    ensures MaskCell(digest, t, Hashed, Chars(a)) == MaskCell(digest, t, Hashed, Chars(b)) <==> a == b
  {
    if Hex(digest(a)) == Hex(digest(b)) {
      HexInjective(digest(a), digest(b));
    }
  }

  // ---------------------------------------------------------------- what each mask shows

  /** Access is denied exactly when no mask but UNLISTED is known to apply and the mode is strict. */
  lemma DeniedIff(masks: set<string>, mode: FailClosedMode)
    ensures TreatmentOf(masks, mode).Err? <==>
            mode == StrictError && "UNLISTED" in masks && masks !! {"PLAINTEXT", "HASH", "REDACT"}
    ensures TreatmentOf(masks, mode).Err? ==> TreatmentOf(masks, mode).error == AccessDenied
  {
    assert forall m :: m in masks * {"PLAINTEXT", "HASH", "REDACT"} <==> m in masks && m in {"PLAINTEXT", "HASH", "REDACT"};
    if TreatmentOf(masks, mode).Err? {
      assert masks * {"PLAINTEXT", "HASH", "REDACT"} == {};
    }
  }

  /** Under these masks the text s of a column is shown as `out`. */
  predicate ShownAs(digest: string -> Bytes32, t: ColumnType, masks: set<string>, mode: FailClosedMode, s: string, out: string) {
    TreatmentOf(masks, mode).Ok? && MaskCell(digest, t, TreatmentOf(masks, mode).value, Chars(s)) == Chars(out)
  }

  lemma TreatmentsDiffer(digest: string -> Bytes32)
    ensures |Hex(digest(""))| == 64 && |"***"| == 3
  {
    HexIsReadBack(digest(""));
  }

  /** Text is shown as its hexadecimal digest exactly under HASH without PLAINTEXT. */
  lemma HashedIff(digest: string -> Bytes32, t: ColumnType, masks: set<string>, mode: FailClosedMode)
    requires t == TUtf8 || t == TLargeUtf8
    ensures (forall s :: ShownAs(digest, t, masks, mode, s, Hex(digest(s)))) <==> "HASH" in masks && "PLAINTEXT" !in masks
  {
    TreatmentsDiffer(digest);
    if !("HASH" in masks && "PLAINTEXT" !in masks) {
      assert !ShownAs(digest, t, masks, mode, "", Hex(digest("")));
    }
  }

  /** Text is shown as stars exactly under REDACT without the two above, or unlisted and masked gracefully. */
  lemma RedactedIff(digest: string -> Bytes32, t: ColumnType, masks: set<string>, mode: FailClosedMode)
    requires t == TUtf8 || t == TLargeUtf8
    ensures (forall s :: ShownAs(digest, t, masks, mode, s, "***")) <==>
            && masks !! {"PLAINTEXT", "HASH"}
            && ("REDACT" in masks || ("UNLISTED" in masks && mode == GracefulMasking))
  {
    TreatmentsDiffer(digest);
    assert masks !! {"PLAINTEXT", "HASH"} <==> "PLAINTEXT" !in masks && "HASH" !in masks;
    if !(masks !! {"PLAINTEXT", "HASH"} && ("REDACT" in masks || ("UNLISTED" in masks && mode == GracefulMasking))) {
      assert !ShownAs(digest, t, masks, mode, "", "***");
    }
  }

  /** Text is shown as it is exactly under PLAINTEXT, or if no mask is a documented one. */
  lemma InClearIff(digest: string -> Bytes32, t: ColumnType, masks: set<string>, mode: FailClosedMode)
    requires t == TUtf8 || t == TLargeUtf8
    ensures (forall s :: ShownAs(digest, t, masks, mode, s, s)) <==>
            "PLAINTEXT" in masks || masks !! {"HASH", "REDACT", "UNLISTED"}
  {
    TreatmentsDiffer(digest);
    assert masks !! {"HASH", "REDACT", "UNLISTED"} <==> "HASH" !in masks && "REDACT" !in masks && "UNLISTED" !in masks;
    if !("PLAINTEXT" in masks || masks !! {"HASH", "REDACT", "UNLISTED"}) {
      assert !ShownAs(digest, t, masks, mode, "", "");
    }
  }

  /** Two columns with the same nulls, and for hashing with the same digests. */
  predicate LookAlike(digest: string -> Bytes32, t: ColumnType, how: Treatment, a: seq<Cell>, b: seq<Cell>) {
    && |a| == |b|
    && forall i :: 0 <= i < |a| ==>
         && CellFits(t, a[i]) && CellFits(t, b[i])
         && (a[i].Null? <==> b[i].Null?)
         && (how == Hashed && a[i].Chars? && b[i].Chars? ==> digest(a[i].s) == digest(b[i].s))
  }

  /** Apart from PLAINTEXT, a reader learns nothing of a column but its nulls and its texts' digests. */
  lemma MaskedColumnIsHidden(digest: string -> Bytes32, t: ColumnType, how: Treatment, a: seq<Cell>, b: seq<Cell>)
    requires how != InClear && LookAlike(digest, t, how, a, b)
    ensures MaskCells(digest, t, how, a) == MaskCells(digest, t, how, b)
  {
    forall i | 0 <= i < |a| ensures MaskCell(digest, t, how, a[i]) == MaskCell(digest, t, how, b[i]) {
      assert CellFits(t, a[i]) && CellFits(t, b[i]);
    }
  }
}
