/**
 The `m:ss` rendering of a `TimeInterval` shared by the recorder's
 `formatDuration` and the player's `formatTime` (the two bodies are identical),
 with Swift's truncating `Int(_:)` conversion and truncating `/` and `%`.
 */
module Clock {
  import opened Common
  import opened Strings

  /** Swift's `Int(x)` for a finite double: truncation toward zero. */
  function TruncateToInt(x: real): (n: int)
    ensures x >= 0.0 ==> n == x.Floor
    ensures x < 0.0 ==> n == -((-x).Floor)
  {
    if x >= 0.0 then x.Floor else -((-x).Floor)
  }

  /** Swift's integer `/` by a positive divisor: the quotient truncated toward zero. */
  function Quot(a: int, b: int): int
    requires b > 0
  {
    if a >= 0 then a / b else -((-a) / b)
  }

  /** Swift's integer `%` by a positive divisor: takes the sign of the dividend. */
  function Rem(a: int, b: int): int
    requires b > 0
  {
    a - b * Quot(a, b)
  }

  /** `String(format: "%d:%02d", Int(t) / 60, Int(t) % 60)`. */
  function FormatClock(t: real): string {
    var n := TruncateToInt(t);
    IntString(Quot(n, 60)) + ":" + Pad2(Rem(n, 60))
  }

  /** Reads an `m:ss` string back as whole seconds; `None` for any other shape
      or a seconds field of 60 or more. */
  function ParseClock(s: string): Option<int> {
    if |s| >= 4 && s[|s| - 3] == ':'
      && (forall i :: 0 <= i < |s| - 3 ==> IsDigit(s[i]))
      && IsDigit(s[|s| - 2]) && IsDigit(s[|s| - 1])
      && ParseDecimal(s[|s| - 2..]) < 60
    then Some(60 * ParseDecimal(s[..|s| - 3]) + ParseDecimal(s[|s| - 2..]))
    else None
  }

  /** For a non-negative time the rendering is a well-formed `m:ss` whose
      seconds field is below 60 and which reads back as the whole seconds of
      the time: minutes are not wrapped into hours, and nothing is lost but the
      fraction. */
  lemma FormatClockRoundTrip(t: real)
    requires t >= 0.0
    ensures ParseClock(FormatClock(t)) == Some(t.Floor)
  {
    var n := t.Floor;
    assert Quot(n, 60) == n / 60 && Rem(n, 60) == n % 60;
    var m := DecimalString(n / 60);
    var ss := Pad2(n % 60);
    assert FormatClock(t) == m + ":" + ss;
    Pad2Digits(n % 60);
    TwoDigitValue(ss);
    DecimalRoundTrip(n / 60);
    ParseJoined(m, ss);
  }

  lemma TwoDigitValue(ss: string)
    requires |ss| == 2 && IsDigit(ss[0]) && IsDigit(ss[1])
    ensures ParseDecimal(ss) == 10 * DigitValue(ss[0]) + DigitValue(ss[1])
  {
    var first := ss[..|ss| - 1];
    assert first == [ss[0]];
    assert first[..|first| - 1] == [];
    assert ParseDecimal(first) == DigitValue(ss[0]);
  }

  lemma ParseJoined(m: string, ss: string)
    requires |m| >= 1 && forall i :: 0 <= i < |m| ==> IsDigit(m[i])
    requires |ss| == 2 && IsDigit(ss[0]) && IsDigit(ss[1]) && ParseDecimal(ss) < 60
    ensures ParseClock(m + ":" + ss) == Some(60 * ParseDecimal(m) + ParseDecimal(ss))
  {
    var s := m + ":" + ss;
    var n := |s|;
    assert n == |m| + 3;
    assert s[..n - 3] == m;
    assert s[n - 2..] == ss;
    assert s[n - 3] == ':' && s[n - 2] == ss[0] && s[n - 1] == ss[1];
    assert forall i :: 0 <= i < n - 3 ==> IsDigit(s[i]) by {
      forall i | 0 <= i < n - 3 ensures IsDigit(s[i]) {
        assert s[i] == m[i];
      }
    }
  }
}
