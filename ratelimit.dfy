/**
 * The rate limiter of the client: rate specifications such as `10/s`,
 * `100/30s`, `50/m` or `1000/h`, and a limiter that is either disabled or
 * wraps a token bucket built from such a specification.
 *
 * The bucket belongs to an outside library; here it is a value that holds the
 * configured limit and burst and an integer count of tokens, observed with no
 * time passing between calls: it starts full and every admission takes one token.
 */
module RateLimit {
  import opened Wrappers
  import opened GoStrings
  import opened GoConv
  import opened GoTime

  /** `requests` admissions every `per` nanoseconds (the library's limit is their ratio). */
  datatype Limit = Limit(requests: nat, per: nat)

  /** The result of parsing a specification: the limit and the burst. */
  datatype RateConfig = RateConfig(limit: Limit, burst: nat)

  datatype DurationError = NotADuration | NotPositive

  datatype RateError =
    | NotRequestsPerDuration
    | RequestsNotPositive
    | InvalidDuration(cause: DurationError)

  datatype AdmissionError = RateLimitExceeded | Cancelled

  /** The limit in admissions per second, exactly (the source computes it in floating point). */
  function PerSecond(l: Limit): (r: real)
    requires l.per > 0
    ensures r * (l.per as real) == (l.requests as real) * (Second as real)
    ensures r > 0.0 <==> l.requests > 0
  {
    (l.requests as real) * (Second as real) / (l.per as real)
  }

  /**
   * The duration part of a specification: a bare `s`, `m` or `h` is one second,
   * minute or hour; anything else must be a Go duration and positive.
   */
  function ParseRateDuration(d: string): (r: Result<nat, DurationError>)
    ensures r.Success? ==> r.value > 0
    ensures d == "s" ==> r == Success(Second)
    ensures d == "m" ==> r == Success(Minute)
    ensures d == "h" ==> r == Success(Hour)
    ensures d !in {"s", "m", "h"} ==>
      (r.Success? <==> ParseDuration(d).Some? && ParseDuration(d).value > 0)
  {
    if d == "s" then Success(Second)
    else if d == "m" then Success(Minute)
    else if d == "h" then Success(Hour)
    else
      match ParseDuration(d)
      case None => Failure(NotADuration)
      case Some(v) => if v <= 0 then Failure(NotPositive) else Success(v)
  }

  /** `parseRate`: `<requests>/<duration>`, with the burst equal to the request count. */
  function ParseRate(spec: string): (r: Result<RateConfig, RateError>)
    ensures r.Success? ==> r.value.burst > 0 && r.value.limit.per > 0
    ensures r.Success? ==> r.value.burst == r.value.limit.requests
    ensures Count(spec, '/') != 1 ==> r == Failure(NotRequestsPerDuration)
  {
    var parts := Split(spec, '/');
    SplitTwo(spec, '/');
    if |parts| != 2 then Failure(NotRequestsPerDuration)
    else
      match Atoi(parts[0])
      case None => Failure(RequestsNotPositive)
      case Some(n) =>
        if n <= 0 then Failure(RequestsNotPositive)
        else
          match ParseRateDuration(parts[1])
          case Failure(e) => Failure(InvalidDuration(e))
          case Success(d) => Success(RateConfig(Limit(n, d), n))
  }

  /**
   * A specification with one `/` is parsed piece by piece: the count must be a
   * positive integer, then the duration must parse, and the result is the
   * count per that duration with a burst of the count.
   */
  lemma ParseRateParts(requests: string, duration: string)
    requires '/' !in requests && '/' !in duration
    ensures ParseRate(requests + "/" + duration) ==
      if Atoi(requests).None? || Atoi(requests).value <= 0 then Failure(RequestsNotPositive)
      else if ParseRateDuration(duration).Failure? then Failure(InvalidDuration(ParseRateDuration(duration).error))
      else Success(RateConfig(Limit(Atoi(requests).value, ParseRateDuration(duration).value), Atoi(requests).value))
  {
    SplitAround(requests, '/', duration);
  }

  /** `10/s`: ten per second, burst ten. */
  lemma ParseTenPerSecond()
    ensures ParseRate("10/s") == Success(RateConfig(Limit(10, Second), 10))
    ensures PerSecond(Limit(10, Second)) == 10.0
  {
    assert "10" + "/" + "s" == "10/s";
    assert Atoi("10") == Some(10) by {
      assert SplitSign("10") == (false, "10");
      assert DigitsValue("10") == 10 by { assert "10"[..1] == "1"; }
    }
    ParseRateParts("10", "s");
  }

  /** `100/30s`: a hundred per thirty seconds. */
  lemma ParseHundredPerThirtySeconds()
    ensures ParseRate("100/30s") == Success(RateConfig(Limit(100, 30 * Second), 100))
  {
    assert "100" + "/" + "30s" == "100/30s";
    assert Atoi("100") == Some(100) by {
      assert SplitSign("100") == (false, "100");
      assert DigitsValue("100") == 100 by { assert "100"[..2] == "10" && "10"[..1] == "1"; }
    }
    ParseDurationSeconds();
    ParseRateParts("100", "30s");
  }

  /** `50/m`: the bare minute unit. */
  lemma ParsePerMinute()
    ensures ParseRate("50/m") == Success(RateConfig(Limit(50, Minute), 50))
  {
    assert "50" + "/" + "m" == "50/m";
    assert Atoi("50") == Some(50) by {
      assert SplitSign("50") == (false, "50");
      assert DigitsValue("50") == 50 by { assert "50"[..1] == "5"; }
    }
    ParseRateParts("50", "m");
  }

  /** `1000/h`: the bare hour unit. */
  lemma ParsePerHour()
    ensures ParseRate("1000/h") == Success(RateConfig(Limit(1000, Hour), 1000))
  {
    assert "1000" + "/" + "h" == "1000/h";
    assert Atoi("1000") == Some(1000) by {
      assert SplitSign("1000") == (false, "1000");
      assert DigitsValue("1000") == 1000 by {
        assert "1000"[..3] == "100" && "100"[..2] == "10" && "10"[..1] == "1";
      }
    }
    ParseRateParts("1000", "h");
  }

  /** Without exactly one `/` there is no `requests/duration`. */
  lemma ParseRejectsShape()
    ensures ParseRate("invalid") == Failure(NotRequestsPerDuration)
    ensures ParseRate("1/2/s") == Failure(NotRequestsPerDuration)
  {
    CountZero("invalid", '/');
    assert Count("1/2/s", '/') == 2;
  }

  /** A count of zero or below is refused. */
  lemma ParseRejectsCount()
    ensures ParseRate("0/s") == Failure(RequestsNotPositive)
    ensures ParseRate("-10/s") == Failure(RequestsNotPositive)
  {
    assert "0" + "/" + "s" == "0/s";
    assert Atoi("0") == Some(0) by {
      assert SplitSign("0") == (false, "0");
    }
    ParseRateParts("0", "s");
    assert "-10" + "/" + "s" == "-10/s";
    assert Atoi("-10") == Some(-10) by {
      assert SplitSign("-10") == (true, "10");
      assert DigitsValue("10") == 10 by { assert "10"[..1] == "1"; }
    }
    ParseRateParts("-10", "s");
  }

  /** A duration that is not one is refused. */
  lemma ParseRejectsDuration()
    ensures ParseRate("10/xyz") == Failure(InvalidDuration(NotADuration))
  {
    assert "10" + "/" + "xyz" == "10/xyz";
    assert Atoi("10") == Some(10) by {
      assert SplitSign("10") == (false, "10");
      assert DigitsValue("10") == 10 by { assert "10"[..1] == "1"; }
    }
    ParseDurationRejects();
    ParseRateParts("10", "xyz");
  }

  /** The wrapped token bucket, seen with no time passing between calls. */
  datatype Bucket = Bucket(limit: Limit, burst: nat, tokens: nat)
  {
    ghost predicate Valid()
    {
      limit.requests > 0 && limit.per > 0 && burst > 0 && tokens <= burst
    }
  }

  /** `rate.NewLimiter(limit, burst)`: a bucket that starts full. */
  function NewBucket(c: RateConfig): (b: Bucket)
    requires c.burst > 0 && c.limit.requests > 0 && c.limit.per > 0
    ensures b.Valid() && b.tokens == b.burst
    ensures b.limit == c.limit && b.burst == c.burst
  {
    Bucket(c.limit, c.burst, c.burst)
  }

  /**
   * `SetLimit` then `SetBurst`: the new limit and burst take effect and the
   * tokens already in the bucket are kept, up to the new burst.
   */
  function Reconfigure(b: Bucket, c: RateConfig): (b': Bucket)
    requires c.burst > 0 && c.limit.requests > 0 && c.limit.per > 0
    ensures b'.Valid() && b'.limit == c.limit && b'.burst == c.burst
    ensures b'.tokens <= b.tokens
  {
    Bucket(c.limit, c.burst, if b.tokens <= c.burst then b.tokens else c.burst)
  }

  /** `RateLimiter`: the `enabled` flag and the wrapped bucket, `None` for a nil limiter. */
  class RateLimiter {
    var enabled: bool
    var bucket: Option<Bucket>

    /** An enabled limiter always has a bucket, so `Allow` and `Wait` never meet a nil limiter. */
    ghost predicate Valid()
      reads this
    {
      (bucket.Some? ==> bucket.value.Valid()) && (enabled ==> bucket.Some?)
    }

    constructor Init(enabled: bool, bucket: Option<Bucket>)
      ensures this.enabled == enabled && this.bucket == bucket
    {
      this.enabled := enabled;
      this.bucket := bucket;
    }

    /** `New`: an empty specification gives a disabled limiter with no bucket. */
    static method New(spec: string) returns (r: Result<RateLimiter, RateError>)
      ensures r.Failure? <==> spec != "" && ParseRate(spec).Failure?
      ensures r.Failure? ==> r.error == ParseRate(spec).error
      ensures r.Success? ==> fresh(r.value) && r.value.Valid()
      ensures r.Success? ==> r.value.IsEnabled() == (spec != "")
      ensures r.Success? && spec == "" ==> r.value.bucket == None
      ensures r.Success? && spec != "" ==> r.value.bucket == Some(NewBucket(ParseRate(spec).value))
    {
      if spec == "" {
        var rl := new RateLimiter.Init(false, None);
        return Success(rl);
      }
      var parsed := ParseRate(spec);
      if parsed.Failure? {
        return Failure(parsed.error);
      }
      var rl := new RateLimiter.Init(true, Some(NewBucket(parsed.value)));
      return Success(rl);
    }

    /** `IsEnabled`: whether admissions consult the bucket; an enabled limiter always has one. */
    predicate IsEnabled()
      reads this
      ensures IsEnabled() && Valid() ==> bucket.Some? && bucket.value.Valid()
    {
      enabled
    }

    /**
     * `Allow`: when disabled it admits without looking at the bucket;
     * otherwise it admits and takes a token exactly when one is left.
     */
    method Allow() returns (r: Outcome<AdmissionError>)
      requires Valid()
      modifies this
      ensures Valid() && enabled == old(enabled)
      ensures !enabled ==> r == Pass && bucket == old(bucket)
      ensures enabled ==> (r == Pass <==> old(bucket).value.tokens > 0)
      ensures enabled && r == Pass ==>
        bucket == Some(old(bucket).value.(tokens := old(bucket).value.tokens - 1))
      ensures r.Fail? ==> r.error == RateLimitExceeded && bucket == old(bucket)
    {
      if !enabled {
        return Pass;
      }
      var b := bucket.value;
      if b.tokens == 0 {
        return Fail(RateLimitExceeded);
      }
      bucket := Some(b.(tokens := b.tokens - 1));
      return Pass;
    }

    /**
     * `Wait`: when disabled it returns at once. Otherwise `cancelled` says
     * whether the caller's context ends before a token is available to it,
     * including a context that has already ended on entry, which fails even
     * with tokens left; then nothing is taken. Otherwise a token that is there
     * is taken at once, and with none left the call waits for the next one,
     * which is handed over as it arrives.
     */
    method Wait(cancelled: bool) returns (r: Outcome<AdmissionError>)
      requires Valid()
      modifies this
      ensures Valid() && enabled == old(enabled)
      ensures !enabled ==> r == Pass && bucket == old(bucket)
      ensures enabled ==> (r == Pass <==> !cancelled)
      ensures enabled && !cancelled && old(bucket).value.tokens > 0 ==>
        bucket == Some(old(bucket).value.(tokens := old(bucket).value.tokens - 1))
      ensures enabled && old(bucket).value.tokens == 0 ==> bucket == old(bucket)
      ensures r.Fail? ==> r.error == Cancelled && bucket == old(bucket)
    {
      if !enabled {
        return Pass;
      }
      if cancelled {
        return Fail(Cancelled);
      }
      var b := bucket.value;
      if b.tokens > 0 {
        bucket := Some(b.(tokens := b.tokens - 1));
      }
      return Pass;
    }

    /**
     * `SetRate`: an empty specification disables and keeps the bucket; a bad
     * one is rejected before anything changes; a good one installs its limit
     * and burst (in a new bucket if there was none) and enables.
     */
    method SetRate(spec: string) returns (r: Outcome<RateError>)
      requires Valid()
      modifies this
      ensures Valid()
      ensures spec == "" ==> r == Pass && !enabled && bucket == old(bucket)
      ensures spec != "" && ParseRate(spec).Failure? ==>
        r == Fail(ParseRate(spec).error) && enabled == old(enabled) && bucket == old(bucket)
      ensures spec != "" && ParseRate(spec).Success? ==>
        r == Pass && enabled &&
        bucket == Some(if old(bucket).None? then NewBucket(ParseRate(spec).value)
                       else Reconfigure(old(bucket).value, ParseRate(spec).value))
    {
      if spec == "" {
        enabled := false;
        return Pass;
      }
      var parsed := ParseRate(spec);
      if parsed.Failure? {
        return Fail(parsed.error);
      }
      if bucket.None? {
        bucket := Some(NewBucket(parsed.value));
      } else {
        bucket := Some(Reconfigure(bucket.value, parsed.value));
      }
      enabled := true;
      return Pass;
    }

    /**
     * `Stats`: always reports `enabled`; reports `limit`, `burst` and `tokens`
     * exactly when the limiter is enabled and has a bucket.
     */
    method Stats() returns (m: map<string, Stat>)
      ensures "enabled" in m && m["enabled"] == Flag(enabled)
      ensures m.Keys == if enabled && bucket.Some? then {"enabled", "limit", "burst", "tokens"} else {"enabled"}
      ensures enabled && bucket.Some? ==>
        m["limit"] == Rate(bucket.value.limit) && m["burst"] == Number(bucket.value.burst) &&
        m["tokens"] == Number(bucket.value.tokens)
    {
      m := map["enabled" := Flag(enabled)];
      if enabled && bucket.Some? {
        var b := bucket.value;
        m := m["limit" := Rate(b.limit)]["burst" := Number(b.burst)]["tokens" := Number(b.tokens)];
      }
    }
  }

  /** A value reported by `Stats`. */
  datatype Stat = Flag(on: bool) | Rate(limit: Limit) | Number(n: int)

  /**
   * `k` immediate calls of `Allow` on an enabled limiter: exactly the first
   * `tokens` of them pass, each taking one token, and the rest are refused.
   */
  method AllowRepeatedly(rl: RateLimiter, k: nat) returns (outcomes: seq<Outcome<AdmissionError>>)
    requires rl.Valid() && rl.enabled
    modifies rl
    ensures rl.Valid() && rl.enabled && |outcomes| == k
    ensures forall i :: 0 <= i < k ==> (outcomes[i] == Pass <==> i < old(rl.bucket.value.tokens))
    ensures forall i :: 0 <= i < k ==> outcomes[i] == Pass || outcomes[i] == Fail(RateLimitExceeded)
    ensures var t := old(rl.bucket.value.tokens);
      rl.bucket == Some(old(rl.bucket.value).(tokens := if k <= t then t - k else 0))
  {
    outcomes := [];
    var i := 0;
    while i < k
      invariant 0 <= i <= k && |outcomes| == i
      invariant rl.Valid() && rl.enabled
      invariant forall j :: 0 <= j < i ==> (outcomes[j] == Pass <==> j < old(rl.bucket.value.tokens))
      invariant forall j :: 0 <= j < i ==> outcomes[j] == Pass || outcomes[j] == Fail(RateLimitExceeded)
      invariant var t := old(rl.bucket.value.tokens);
        rl.bucket == Some(old(rl.bucket.value).(tokens := if i <= t then t - i else 0))
    {
      var r := rl.Allow();
      outcomes := outcomes + [r];
      i := i + 1;
    }
  }

  /**
   * A new limiter admits exactly `burst` immediate requests (the request count
   * of its specification) and refuses the next one.
   */
  method FullBurst(spec: string) returns (outcomes: seq<Outcome<AdmissionError>>)
    requires spec != "" && ParseRate(spec).Success?
    ensures |outcomes| == ParseRate(spec).value.burst + 1
    ensures forall i :: 0 <= i < |outcomes| - 1 ==> outcomes[i] == Pass
    ensures outcomes[|outcomes| - 1] == Fail(RateLimitExceeded)
  {
    var made := RateLimiter.New(spec);
    var rl := made.value;
    outcomes := AllowRepeatedly(rl, ParseRate(spec).value.burst + 1);
  }

  /** `TestRateLimiting`: with `2/s` two immediate admissions pass and the third is refused. */
  method BurstScenario() returns (first: Outcome<AdmissionError>, second: Outcome<AdmissionError>, third: Outcome<AdmissionError>)
    ensures first == Pass && second == Pass && third == Fail(RateLimitExceeded)
  {
    ParseRateParts("2", "s");
    assert "2" + "/" + "s" == "2/s";
    var made := RateLimiter.New("2/s");
    var rl := made.value;
    assert rl.IsEnabled();
    first := rl.Allow();
    second := rl.Allow();
    third := rl.Allow();
  }

  /** `TestSetRate`: a limiter made disabled is enabled by `5/s` and disabled again by `""`. */
  method SetRateScenario() returns (before: bool, afterSet: bool, afterClear: bool)
    ensures !before && afterSet && !afterClear
  {
    var made := RateLimiter.New("");
    var rl := made.value;
    before := rl.IsEnabled();
    ParseRateParts("5", "s");
    assert "5" + "/" + "s" == "5/s";
    var r := rl.SetRate("5/s");
    assert r == Pass && rl.bucket.value.burst == 5;
    afterSet := rl.IsEnabled();
    r := rl.SetRate("");
    assert r == Pass;
    afterClear := rl.IsEnabled();
  }
}
