/**
 Foundation's `UUID` as far as the notes code uses it: the canonical
 `uuidString` (36 characters, upper-case hex in groups 8-4-4-4-12) and the
 failable parser `UUID(uuidString:)`, which also accepts lower-case digits.
 */
module Uuids {
  import opened Common

  type Nibble = n: nat | n < 16

  /** A UUID as its 32 hexadecimal digits, most significant first. */
  type Uuid = s: seq<Nibble> | |s| == 32 witness seq(32, _ => 0)

  /** Upper-case hex digit, as `uuidString` prints it. */
  function HexChar(n: Nibble): (c: char)
    ensures IsHexChar(c) && HexValue(c) == n
  {
    if n < 10 then ('0' as int + n) as char else ('A' as int + n - 10) as char
  }

  predicate IsHexChar(c: char) {
    ('0' <= c <= '9') || ('A' <= c <= 'F') || ('a' <= c <= 'f')
  }

  function HexValue(c: char): Nibble
    requires IsHexChar(c)
  {
    if '0' <= c <= '9' then (c as int) - ('0' as int)
    else if 'A' <= c <= 'F' then (c as int) - ('A' as int) + 10
    else (c as int) - ('a' as int) + 10
  }

  /** Positions of the four hyphens in the 36-character form. */
  predicate IsDashPosition(i: int) {
    i == 8 || i == 13 || i == 18 || i == 23
  }

  /** Position in the string of hex digit `k`. */
  function CharIndex(k: nat): (i: nat)
    requires k < 32
    ensures i < 36 && !IsDashPosition(i)
  {
    k + (if k >= 8 then 1 else 0) + (if k >= 12 then 1 else 0)
      + (if k >= 16 then 1 else 0) + (if k >= 20 then 1 else 0)
  }

  /** Which hex digit sits at a non-hyphen position of the string. */
  function DigitIndex(i: nat): (k: nat)
    requires i < 36 && !IsDashPosition(i)
    ensures k < 32 && CharIndex(k) == i
  {
    i - (if i > 8 then 1 else 0) - (if i > 13 then 1 else 0)
      - (if i > 18 then 1 else 0) - (if i > 23 then 1 else 0)
  }

  /** `uuid.uuidString`. */
  function UuidString(u: Uuid): (s: string)
    ensures |s| == 36
  {
    seq(36, i requires 0 <= i < 36 =>
      if IsDashPosition(i) then '-' else HexChar(u[DigitIndex(i)]))
  }

  /** True of the strings `UUID(uuidString:)` accepts. */
  predicate WellFormed(s: string) {
    && |s| == 36
    && (forall i :: 0 <= i < 36 && IsDashPosition(i) ==> s[i] == '-')
    && (forall i :: 0 <= i < 36 && !IsDashPosition(i) ==> IsHexChar(s[i]))
  }

  /** `UUID(uuidString: s)`: `None` unless `s` is 36 characters with hyphens at
      8, 13, 18 and 23 and hex digits of either case everywhere else. */
  function ParseUuid(s: string): (r: Option<Uuid>)
    ensures r.Some? <==> WellFormed(s)
  {
    if WellFormed(s) then
      Some(seq(32, k requires 0 <= k < 32 => HexValue(s[CharIndex(k)])))
    else None
  }

  /** Parsing the canonical string gives back the UUID. */
  lemma ParseUuidString(u: Uuid)
    ensures ParseUuid(UuidString(u)) == Some(u)
  {
    var s := UuidString(u);
    forall i | 0 <= i < 36 && !IsDashPosition(i) ensures IsHexChar(s[i]) {
      assert s[i] == HexChar(u[DigitIndex(i)]);
    }
    var v := ParseUuid(s).value;
    forall k | 0 <= k < 32 ensures v[k] == u[k] {
      assert DigitIndex(CharIndex(k)) == k;
    }
    assert v == u;
  }

  predicate NoLowerCase(s: string) {
    forall i :: 0 <= i < |s| ==> !('a' <= s[i] <= 'z')
  }

  /** Conversely, a well-formed string without lower-case letters is the
      canonical string of the UUID it parses to. */
  lemma UuidStringOfParse(s: string)
    requires WellFormed(s) && NoLowerCase(s)
    ensures UuidString(ParseUuid(s).value) == s
  {
    var u := ParseUuid(s).value;
    var t := UuidString(u);
    forall i | 0 <= i < 36 ensures t[i] == s[i] {
      if !IsDashPosition(i) {
        assert u[DigitIndex(i)] == HexValue(s[i]);
      }
    }
  }

  /** Distinct UUIDs have distinct strings. */
  lemma UuidStringInjective(u: Uuid, v: Uuid)
    requires UuidString(u) == UuidString(v)
    ensures u == v
  {
    ParseUuidString(u);
    ParseUuidString(v);
  }
}
