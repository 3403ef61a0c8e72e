/** `strconv.Atoi`, for the request count of a rate specification. */
module GoConv {
  import opened Wrappers

  const MinInt64: int := -0x8000_0000_0000_0000
  const MaxInt64: int := 0x7FFF_FFFF_FFFF_FFFF

  predicate IsDigit(c: char)
  {
    '0' <= c <= '9'
  }

  predicate AllDigits(s: string)
  {
    forall i :: 0 <= i < |s| ==> IsDigit(s[i])
  }

  /** The value of a string of decimal digits. */
  function DigitsValue(s: string): nat
    requires AllDigits(s)
  {
    if s == [] then 0 else DigitsValue(s[..|s| - 1]) * 10 + (s[|s| - 1] as int - '0' as int)
  }

  /** A sign, if any, and the rest. */
  function SplitSign(s: string): (bool, string)
  {
    if |s| > 0 && (s[0] == '+' || s[0] == '-') then (s[0] == '-', s[1..]) else (false, s)
  }

  /**
   * `strconv.Atoi`: an optional sign followed by at least one decimal digit,
   * whose value must fit in a 64-bit `int`.
   */
  function Atoi(s: string): (r: Option<int>)
    ensures r.Some? ==> MinInt64 <= r.value <= MaxInt64
    ensures r.Some? ==> |s| > 0 && IsDigit(s[|s| - 1])
    ensures r.Some? && r.value < 0 ==> s[0] == '-'
  {
    var (negative, digits) := SplitSign(s);
    if digits == [] || !AllDigits(digits) then None
    else
      var v: int := if negative then 0 - DigitsValue(digits) else DigitsValue(digits);
      if MinInt64 <= v <= MaxInt64 then Some(v) else None
  }
}

/**
 * `time.ParseDuration`, restricted to integer segments: an optional sign, then
 * one or more segments, each a run of decimal digits followed by a unit
 * (`ns`, `us`, `µs`, `μs`, `ms`, `s`, `m`, `h`); `0` alone is the zero duration.
 * Durations are in nanoseconds and must fit in a 64-bit `time.Duration`.
 */
module GoTime {
  import opened Wrappers
  import opened GoConv

  const Nanosecond: nat := 1
  const Microsecond: nat := 1000 * Nanosecond
  const Millisecond: nat := 1000 * Microsecond
  const Second: nat := 1000 * Millisecond
  const Minute: nat := 60 * Second
  const Hour: nat := 60 * Minute

  /** The length of the leading run of digits. */
  function DigitRun(s: string): (n: nat)
    ensures n <= |s| && AllDigits(s[..n])
    ensures n < |s| ==> !IsDigit(s[n])
  {
    if s != [] && IsDigit(s[0]) then
      var n := 1 + DigitRun(s[1..]);
      assert forall i :: 1 <= i < n ==> s[..n][i] == s[1..][..n - 1][i - 1];
      n
    else 0
  }

  /** The length of the leading run of characters that can be part of a unit. */
  function UnitRun(s: string): (n: nat)
    ensures n <= |s|
    ensures forall i :: 0 <= i < n ==> !IsDigit(s[i]) && s[i] != '.'
    ensures n < |s| ==> IsDigit(s[n]) || s[n] == '.'
  {
    if s != [] && !IsDigit(s[0]) && s[0] != '.' then 1 + UnitRun(s[1..]) else 0
  }

  /** Nanoseconds per unit. */
  function UnitValue(u: string): (r: Option<nat>)
    ensures r.Some? ==> r.value > 0
  {
    if u == "ns" then Some(Nanosecond)
    else if u == "us" || u == "\U{00B5}s" || u == "\U{03BC}s" then Some(Microsecond)
    else if u == "ms" then Some(Millisecond)
    else if u == "s" then Some(Second)
    else if u == "m" then Some(Minute)
    else if u == "h" then Some(Hour)
    else None
  }

  /** The total of a sequence of `<digits><unit>` segments. */
  function Segments(s: string): Option<nat>
  {
    if s == [] then Some(0)
    else
      var nd := DigitRun(s);
      var rest := s[nd..];
      var nu := UnitRun(rest);
      if nd == 0 || nu == 0 then None
      else
        assert |rest[nu..]| < |s|;
        match (UnitValue(rest[..nu]), Segments(rest[nu..]))
        case (Some(unit), Some(more)) =>
          var value := DigitsValue(s[..nd]);
          NatProduct(value, unit);
          Some(value * unit + more)
        case _ => None
  }

  /** A product of naturals is a natural. */
  lemma NatProduct(a: nat, b: nat)
    ensures a * b >= 0
  {
  }

  /** `time.ParseDuration` for integer segments; `None` stands for its error. */
  function ParseDuration(s: string): (r: Option<int>)
    ensures r.Some? ==> MinInt64 <= r.value <= MaxInt64
    ensures r.Some? && r.value < 0 ==> |s| > 0 && s[0] == '-'
  {
    var (negative, body) := SplitSign(s);
    if body == "0" then Some(0)
    else if body == [] then None
    else
      match Segments(body)
      case None => None
      case Some(d) =>
        if negative then (if d <= -MinInt64 then Some(0 - d) else None)
        else if d <= MaxInt64 then Some(d) else None
  }

  lemma SegmentsThirtySeconds()
    ensures Segments("30s") == Some(30 * Second)
  {
    assert DigitRun("s") == 0;
    assert DigitRun("0s") == 1;
    assert DigitRun("30s") == 2;
    assert UnitRun("") == 0;
    assert UnitRun("s") == 1;
    assert "30s"[2..] == "s" && "s"[..1] == "s" && "s"[1..] == "";
    assert "30s"[..2] == "30" && "30"[..1] == "3";
    assert DigitsValue("30") == 30;
  }

  /** A number of seconds. */
  lemma ParseDurationSeconds()
    ensures ParseDuration("30s") == Some(30 * Second)
  {
    SegmentsThirtySeconds();
    assert SplitSign("30s") == (false, "30s");
  }

  /** The pieces of `2m30s`: the digit `2`, the unit `m`, then `30s`. */
  lemma MinuteSegmentPieces()
    ensures DigitRun("2m30s") == 1 && "2m30s"[..1] == "2" && "2m30s"[1..] == "m30s"
    ensures UnitRun("m30s") == 1 && "m30s"[..1] == "m" && "m30s"[1..] == "30s"
    ensures DigitsValue("2") == 2 && UnitValue("m") == Some(Minute)
  {
    assert DigitRun("m30s") == 0;
    assert UnitRun("30s") == 0;
  }

  lemma SegmentsMinutesSeconds()
    ensures Segments("2m30s") == Some(150 * Second)
  {
    SegmentsThirtySeconds();
    MinuteSegmentPieces();
  }

  /** Segments add up. */
  lemma ParseDurationSegments()
    ensures ParseDuration("2m30s") == Some(150 * Second)
  {
    SegmentsMinutesSeconds();
    assert SplitSign("2m30s") == (false, "2m30s");
    assert "2m30s" != "0" by { assert |"2m30s"| != |"0"|; }
  }

  /** A bare unit or a word is not a duration. */
  lemma ParseDurationRejects()
    ensures ParseDuration("s") == None
    ensures ParseDuration("xyz") == None
  {
    assert DigitRun("s") == 0;
    assert DigitRun("xyz") == 0;
  }
}
