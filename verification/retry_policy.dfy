/** Classification of failed requests and the backoff delays, over real numbers.  Every random
    draw is an argument. */
module RetryPolicy {

  datatype RetryConfig = RetryConfig(maxAttempts: int, baseDelay: real, factor: real, cap: real, jitterExtra: real)

  datatype RetryOutcome = Retry | StopUserAction | StopBillingOrQuota | DoNotRetry

  datatype RetryDecision = RetryDecision(outcome: RetryOutcome, delayMs: int)

  /** The "type", "code" and "message" strings of the error object in the body, "" when absent. */
  datatype ErrorFields = ErrorFields(kind: string, code: string, message: string)

  /** A draw of the generator from the unit interval. */
  type Draw = u: real | 0.0 <= u < 1.0 witness 0.0

  function Uniform(lo: real, hi: real, u: Draw): real {
    if hi <= lo then lo else lo + u * (hi - lo)
  }

  lemma UniformInRange(lo: real, hi: real, u: Draw)
    ensures lo <= Uniform(lo, hi, u) <= Max(lo, hi)
  {
    if lo < hi {
      ProductOfNonNegative(u, hi - lo);
      ProductOfNonNegative(1.0 - u, hi - lo);
      assert u * (hi - lo) + (1.0 - u) * (hi - lo) == hi - lo;
    }
  }

  lemma ProductOfNonNegative(a: real, b: real)
    requires a >= 0.0 && b >= 0.0
    ensures a * b >= 0.0
  {
  }

  function Times(a: real, b: real): real {
    a * b
  }

  function Pow(base: real, n: nat): real {
    if n == 0 then 1.0 else Times(base, Pow(base, n - 1))
  }

  /** The exponential backoff of the i-th retry before it is capped, in seconds. */
  function Uncapped(i: nat, cfg: RetryConfig): real {
    Times(cfg.baseDelay, Pow(cfg.factor, i))
  }

  function Min(a: real, b: real): real {
    if b < a then b else a
  }

  function Max(a: real, b: real): real {
    if a < b then b else a
  }

  function Millis(seconds: real): int {
    (seconds * 1000.0).Floor
  }

  function FullJitterDelay(attempt: nat, cfg: RetryConfig, u: Draw): int {
    Millis(Uniform(0.0, Min(cfg.cap, Uncapped(attempt, cfg)), u))
  }

  // ---- Strings of the error body ----

  function LowerChar(c: char): char {
    if 'A' <= c <= 'Z' then ((c as int) + 32) as char else c
  }

  function Lower(s: string): string {
    seq(|s|, i requires 0 <= i < |s| => LowerChar(s[i]))
  }

  predicate Find(s: string, w: string) {
    w <= s || (s != "" && Find(s[1..], w))
  }

  predicate Contains(haystack: string, needle: string) {
    Find(Lower(haystack), needle)
  }

  const NON_RETRYABLE: seq<string> := [
    "insufficient_quota", "invalid_api_key", "account_deactivated", "billing_not_active",
    "context_length_exceeded", "model_not_found", "invalid_model", "content_filter",
    "content_policy_violation"]

  predicate IsNonRetryableCode(code: string) {
    Lower(code) in NON_RETRYABLE
  }

  predicate IsBillingMessage(msg: string) {
    var lc := Lower(msg);
    || Contains(lc, "exceeded your current quota") || Contains(lc, "check your plan and billing")
    || Contains(lc, "monthly spend") || Contains(lc, "insufficient_quota")
  }

  function OutcomeForNonRetryableCode(code: string): RetryOutcome {
    if Lower(code) in {"insufficient_quota", "billing_not_active", "account_deactivated"} then StopBillingOrQuota
    else StopUserAction
  }

  predicate IsRateLimit(e: ErrorFields) {
    || e.kind == "rate_limit_error" || Find(Lower(e.code), "rate_limit") || Contains(e.message, "rate limit")
    || Contains(e.message, "rate_limit") || Contains(e.message, "too many requests")
  }

  function RetryAfterDelay(retryAfterSeconds: nat, cfg: RetryConfig, u: Draw): int {
    Millis(retryAfterSeconds as real + Uniform(0.0, cfg.jitterExtra, u))
  }

  function Classify(httpCode: int, e: ErrorFields, retryAfterSeconds: int, attempt: nat, cfg: RetryConfig, u: Draw):
    RetryDecision
  {
    if e.code != "" && IsNonRetryableCode(e.code) then RetryDecision(OutcomeForNonRetryableCode(e.code), 0)
    else if httpCode in {400, 401, 403, 404} then RetryDecision(StopUserAction, 0)
    else if e.message != "" && IsBillingMessage(e.message) then RetryDecision(StopBillingOrQuota, 0)
    else if httpCode == 429 then
      if IsRateLimit(e) then
        RetryDecision(Retry, if retryAfterSeconds >= 0 then RetryAfterDelay(retryAfterSeconds, cfg, u)
                             else FullJitterDelay(attempt, cfg, u))
      else if attempt == 0 then RetryDecision(Retry, FullJitterDelay(attempt, cfg, u))
      else RetryDecision(StopBillingOrQuota, 0)
    else if httpCode in {408, 409, 500, 502, 503, 504} then
      RetryDecision(Retry, if retryAfterSeconds >= 0 && (httpCode == 503 || httpCode == 429)
                           then RetryAfterDelay(retryAfterSeconds, cfg, u)
                           else FullJitterDelay(attempt, cfg, u))
    else if httpCode == 0 then RetryDecision(Retry, FullJitterDelay(attempt, cfg, u))
    else RetryDecision(DoNotRetry, 0)
  }

  // ---- What the delays and outcomes promise ----

  /** The ceiling of the i-th backoff, in seconds. */
  function BackoffCap(i: nat, cfg: RetryConfig): real {
    Max(0.0, Min(cfg.cap, Uncapped(i, cfg)))
  }

  /** The header decides the delay only on a recognised rate limit and on 503. */
  predicate HonoursRetryAfter(httpCode: int, e: ErrorFields, retryAfterSeconds: int) {
    retryAfterSeconds >= 0 && ((httpCode == 429 && IsRateLimit(e)) || httpCode == 503)
  }

  /** Truncation to milliseconds never goes below a whole number of seconds. */
  lemma MillisFloor(n: nat, extra: real)
    requires extra >= 0.0
    ensures 1000 * n <= Millis(n as real + extra)
    ensures Millis(n as real + extra) as real <= 1000.0 * (n as real + extra)
  {
    assert (1000 * n) as real == 1000.0 * n as real;
  }

  lemma MillisOfNonNegative(seconds: real)
    requires seconds >= 0.0
    ensures 0 <= Millis(seconds) && Millis(seconds) as real <= 1000.0 * seconds
  {
  }

  lemma FullJitterBounds(attempt: nat, cfg: RetryConfig, u: Draw)
    ensures 0 <= FullJitterDelay(attempt, cfg, u)
    ensures FullJitterDelay(attempt, cfg, u) as real <= 1000.0 * BackoffCap(attempt, cfg)
  {
    hide Uniform, Millis, Uncapped;
    var ceiling := Min(cfg.cap, Uncapped(attempt, cfg));
    UniformInRange(0.0, ceiling, u);
    MillisOfNonNegative(Uniform(0.0, ceiling, u));
  }

  lemma RetryAfterBounds(n: nat, cfg: RetryConfig, u: Draw)
    ensures 1000 * n <= RetryAfterDelay(n, cfg, u)
    ensures RetryAfterDelay(n, cfg, u) as real <= 1000.0 * (n as real + Max(0.0, cfg.jitterExtra))
  {
    hide Uniform, Millis;
    UniformInRange(0.0, cfg.jitterExtra, u);
    MillisFloor(n, Uniform(0.0, cfg.jitterExtra, u));
  }

  /** A delay stays below its backoff ceiling, or within the jitter above the header it honours. */
  lemma DelayBounds(httpCode: int, e: ErrorFields, retryAfterSeconds: int, attempt: nat, cfg: RetryConfig, u: Draw)
    ensures var d := Classify(httpCode, e, retryAfterSeconds, attempt, cfg, u);
            && 0 <= d.delayMs
            && (d.outcome != Retry ==> d.delayMs == 0)
            && (d.outcome == Retry && HonoursRetryAfter(httpCode, e, retryAfterSeconds) ==>
                  1000 * retryAfterSeconds <= d.delayMs
                  && d.delayMs as real <= 1000.0 * (retryAfterSeconds as real + Max(0.0, cfg.jitterExtra)))
            && (d.outcome == Retry && !HonoursRetryAfter(httpCode, e, retryAfterSeconds) ==>
                  d.delayMs as real <= 1000.0 * BackoffCap(attempt, cfg))
  {
    hide FullJitterDelay, RetryAfterDelay, BackoffCap, IsNonRetryableCode, IsBillingMessage, IsRateLimit;
    FullJitterBounds(attempt, cfg, u);
    if retryAfterSeconds >= 0 {
      RetryAfterBounds(retryAfterSeconds, cfg, u);
    }
  }

  /** An error is retried exactly when it is transient, or a 429 that is a known rate limit or
      comes at the first attempt, and nothing in the body says otherwise. */
  lemma RetriesExactly(httpCode: int, e: ErrorFields, retryAfterSeconds: int, attempt: nat, cfg: RetryConfig, u: Draw)
    ensures Classify(httpCode, e, retryAfterSeconds, attempt, cfg, u).outcome == Retry <==>
            && !IsNonRetryableCode(e.code) && !IsBillingMessage(e.message)
            && (|| httpCode in {0, 408, 409, 500, 502, 503, 504}
                || (httpCode == 429 && (IsRateLimit(e) || attempt == 0)))
  {
    EmptyTextIsHarmless();
  }

  // ---- The words of the classification ----

  /** The word stands somewhere in the text. */
  ghost predicate Occurs(s: string, w: string) {
    exists i, j :: 0 <= i <= j <= |s| && s[i..j] == w
  }

  lemma OccursAtStart(s: string, w: string)
    requires w <= s
    ensures Occurs(s, w)
  {
    assert s[0..|w|] == w;
  }

  lemma OccursLater(s: string, w: string)
    requires s != "" && Occurs(s[1..], w)
    ensures Occurs(s, w)
  {
    var i, j :| 0 <= i <= j <= |s[1..]| && s[1..][i..j] == w;
    assert s[i + 1..j + 1] == w;
  }

  lemma OccursInRest(s: string, w: string)
    requires s != "" && Occurs(s, w) && !(w <= s)
    ensures Occurs(s[1..], w)
  {
    var i, j :| 0 <= i <= j <= |s| && s[i..j] == w;
    NotAtStart(s, w, i, j);
    assert s[1..][i - 1..j - 1] == w;
  }

  lemma NotAtStart(s: string, w: string, i: nat, j: nat)
    requires i <= j <= |s| && s[i..j] == w && !(w <= s)
    ensures i > 0
  {
    assert j == i + |w|;
  }

  lemma {:induction false} FindIsOccurs(s: string, w: string)
    ensures Find(s, w) <==> Occurs(s, w)
  {
    hide Occurs;
    if w <= s {
      OccursAtStart(s, w);
    } else if s != "" {
      FindIsOccurs(s[1..], w);
      if Occurs(s, w) {
        OccursInRest(s, w);
      } else if Find(s[1..], w) {
        OccursLater(s, w);
      }
    } else if Occurs(s, w) {
      EmptyHoldsNothing(w);
    }
  }

  lemma EmptyHoldsNothing(w: string)
    requires Occurs("", w)
    ensures w == ""
  {
  }

  lemma LowerIsTable(s: string)
    ensures |Lower(s)| == |s|
    ensures forall i :: 0 <= i < |s| ==>
              Lower(s)[i] == if 'A' <= s[i] <= 'Z' then "abcdefghijklmnopqrstuvwxyz"[s[i] as int - 'A' as int] else s[i]
  {
    forall i | 0 <= i < |s|
      ensures Lower(s)[i] == if 'A' <= s[i] <= 'Z' then "abcdefghijklmnopqrstuvwxyz"[s[i] as int - 'A' as int] else s[i]
    {
      LetterTable(s[i]);
    }
  }

  lemma LetterTable(c: char)
    ensures LowerChar(c) == if 'A' <= c <= 'Z' then "abcdefghijklmnopqrstuvwxyz"[c as int - 'A' as int] else c
  {
  }

  lemma LowerTwice(s: string)
    ensures Lower(Lower(s)) == Lower(s)
  {
  }

  /** A billing message, in any case, holds one of four phrases. */
  lemma BillingExactly(msg: string)
    ensures IsBillingMessage(msg) <==>
            || Occurs(Lower(msg), "exceeded your current quota") || Occurs(Lower(msg), "check your plan and billing")
            || Occurs(Lower(msg), "monthly spend") || Occurs(Lower(msg), "insufficient_quota")
  {
    hide Find, Lower, Occurs;
    LowerTwice(msg);
    FindIsOccurs(Lower(msg), "exceeded your current quota");
    FindIsOccurs(Lower(msg), "check your plan and billing");
    FindIsOccurs(Lower(msg), "monthly spend");
    FindIsOccurs(Lower(msg), "insufficient_quota");
  }

  /** A 429 is a rate limit by its type, its code or its message. */
  lemma RateLimitExactly(e: ErrorFields)
    ensures IsRateLimit(e) <==>
            || e.kind == "rate_limit_error" || Occurs(Lower(e.code), "rate_limit")
            || Occurs(Lower(e.message), "rate limit") || Occurs(Lower(e.message), "rate_limit")
            || Occurs(Lower(e.message), "too many requests")
  {
    hide Find, Lower, Occurs;
    FindIsOccurs(Lower(e.code), "rate_limit");
    FindIsOccurs(Lower(e.message), "rate limit");
    FindIsOccurs(Lower(e.message), "rate_limit");
    FindIsOccurs(Lower(e.message), "too many requests");
  }

  ghost predicate IsBillingCode(code: string) {
    Lower(code) == "insufficient_quota" || Lower(code) == "billing_not_active" || Lower(code) == "account_deactivated"
  }

  ghost predicate IsUserCode(code: string) {
    || Lower(code) == "invalid_api_key" || Lower(code) == "context_length_exceeded" || Lower(code) == "model_not_found"
    || Lower(code) == "invalid_model" || Lower(code) == "content_filter" || Lower(code) == "content_policy_violation"
  }

  lemma NonRetryableExactly(code: string)
    ensures IsNonRetryableCode(code) <==> IsBillingCode(code) || IsUserCode(code)
    ensures IsNonRetryableCode(code) ==>
              (OutcomeForNonRetryableCode(code) == StopBillingOrQuota <==> IsBillingCode(code))
  {
    hide Lower;
  }

  /** Which way a request is given up: for the user to act, for billing or quota, or for no known reason. */
  lemma StopsExactly(httpCode: int, e: ErrorFields, retryAfterSeconds: int, attempt: nat, cfg: RetryConfig, u: Draw)
    ensures var outcome := Classify(httpCode, e, retryAfterSeconds, attempt, cfg, u).outcome;
            var byCode := IsBillingCode(e.code) || IsUserCode(e.code);
            var refused := httpCode == 400 || httpCode == 401 || httpCode == 403 || httpCode == 404;
            && (outcome == StopUserAction <==> IsUserCode(e.code) || (!byCode && refused))
            && (outcome == StopBillingOrQuota <==>
                || IsBillingCode(e.code)
                || (!byCode && !refused
                    && (IsBillingMessage(e.message) || (httpCode == 429 && !IsRateLimit(e) && attempt > 0))))
            && (outcome == DoNotRetry <==>
                !byCode && !refused && !IsBillingMessage(e.message)
                && httpCode !in {0, 408, 409, 429, 500, 502, 503, 504})
  {
    hide Lower, IsBillingCode, IsUserCode, IsBillingMessage, IsRateLimit, IsNonRetryableCode, OutcomeForNonRetryableCode,
         FullJitterDelay, RetryAfterDelay;
    EmptyTextIsHarmless();
    NonRetryableExactly(e.code);
    CodeOutcome(e.code);
  }

  lemma CodeOutcome(code: string)
    ensures OutcomeForNonRetryableCode(code) in {StopBillingOrQuota, StopUserAction}
    ensures !(IsBillingCode(code) && IsUserCode(code))
  {
    hide Lower;
  }

  // ---- The draws cover the whole interval ----

  /** A delay that scales with the ceiling: draw d / (1000 * ceiling) gives d milliseconds. */
  lemma DrawOf(ceiling: real, d: nat) returns (u: Draw)
    requires ceiling > 0.0 && d as real < 1000.0 * ceiling
    ensures Uniform(0.0, ceiling, u) == d as real / 1000.0
  {
    var t := d as real / 1000.0;
    u := Share(t, ceiling);
  }

  lemma Share(t: real, ceiling: real) returns (u: Draw)
    requires 0.0 <= t < ceiling
    ensures u * ceiling == t
  {
    var v := t / ceiling;
    assert v * ceiling == t;
    ShareIsProper(v, ceiling);
    u := v;
  }

  lemma ShareIsProper(v: real, ceiling: real)
    requires ceiling > 0.0 && 0.0 <= v * ceiling < ceiling
    ensures 0.0 <= v < 1.0
  {
    assert (v - 1.0) * ceiling == v * ceiling - ceiling;
  }

  lemma MillisOfThousandths(n: nat, d: nat)
    ensures Millis(n as real + d as real / 1000.0) == 1000 * n + d
  {
    assert (n as real + d as real / 1000.0) * 1000.0 == (1000 * n + d) as real;
  }

  /** Full jitter: every number of milliseconds below the ceiling is drawn. */
  lemma JitterCovers(attempt: nat, cfg: RetryConfig, d: nat)
    requires d as real < 1000.0 * BackoffCap(attempt, cfg)
    ensures exists u: Draw :: FullJitterDelay(attempt, cfg, u) == d
  {
    hide Uniform, Millis, Uncapped;
    var u := DrawOf(Min(cfg.cap, Uncapped(attempt, cfg)), d);
    MillisOfThousandths(0, d);
    assert 0 as real + d as real / 1000.0 == d as real / 1000.0;
    assert FullJitterDelay(attempt, cfg, u) == d;
  }

  /** And with a header every one from the header on, below the extra jitter. */
  lemma RetryAfterCovers(n: nat, cfg: RetryConfig, d: nat)
    requires d as real < 1000.0 * cfg.jitterExtra
    ensures exists u: Draw :: RetryAfterDelay(n, cfg, u) == 1000 * n + d
  {
    hide Uniform, Millis;
    var u := DrawOf(cfg.jitterExtra, d);
    MillisOfThousandths(n, d);
    assert RetryAfterDelay(n, cfg, u) == 1000 * n + d;
  }

  /** The default policy: half a second, doubling, at most thirty. */
  lemma DefaultCeilings()
    ensures var cfg := RetryConfig(5, 0.5, 2.0, 30.0, 1.0);
            && BackoffCap(0, cfg) == 0.5 && BackoffCap(1, cfg) == 1.0 && BackoffCap(2, cfg) == 2.0
            && BackoffCap(3, cfg) == 4.0 && BackoffCap(6, cfg) == 30.0
  {
    hide Pow, Times;
    PowOfTwo(0, 0.5);
    PowOfTwo(1, 1.0);
    PowOfTwo(2, 2.0);
    PowOfTwo(3, 4.0);
    PowOfTwo(4, 8.0);
    PowOfTwo(5, 16.0);
    PowOfTwo(6, 32.0);
  }

  lemma PowOfTwo(n: nat, half: real)
    requires if n == 0 then half == 0.5 else Pow(2.0, n - 1) == half
    ensures Pow(2.0, n) == 2.0 * half && Times(0.5, Pow(2.0, n)) == half
  {
  }

  lemma EmptyTextIsHarmless()
    ensures !IsNonRetryableCode("") && !IsBillingMessage("")
  {
    assert Lower("") == "";
  }

  // ---- The total backoff budget ----

  function SumCaps(n: nat, cfg: RetryConfig): real {
    if n == 0 then 0.0 else SumCaps(n - 1, cfg) + BackoffCap(n - 1, cfg)
  }

  lemma {:induction false} SumCapsLinear(n: nat, cfg: RetryConfig)
    requires cfg.cap >= 0.0
    ensures SumCaps(n, cfg) <= n as real * cfg.cap
  {
    hide Pow;
    if n > 0 {
      SumCapsLinear(n - 1, cfg);
      assert n as real * cfg.cap == (n - 1) as real * cfg.cap + cfg.cap;
    }
  }

  lemma {:induction false} PowPositive(f: real, n: nat)
    requires f > 0.0
    ensures Pow(f, n) > 0.0
  {
    if n > 0 {
      PowPositive(f, n - 1);
    }
  }

  /** A partial sum below the geometric one, multiplied out to stay free of division. */
  predicate BelowGeometric(sum: real, base: real, factor: real, power: real) {
    sum * (factor - 1.0) <= base * (power - 1.0)
  }

  /** For a growing factor the ceilings sum to at most base * (factor^n - 1) / (factor - 1). */
  lemma {:induction false} SumCapsGeometric(n: nat, cfg: RetryConfig)
    requires cfg.baseDelay >= 0.0 && cfg.factor > 1.0
    ensures BelowGeometric(SumCaps(n, cfg), cfg.baseDelay, cfg.factor, Pow(cfg.factor, n))
  {
    hide BelowGeometric, BackoffCap, Times;
    if n > 0 {
      SumCapsGeometric(n - 1, cfg);
      CapBelowUncapped(n - 1, cfg);
      GeometricStep(SumCaps(n - 1, cfg), BackoffCap(n - 1, cfg), cfg.baseDelay, cfg.factor, Pow(cfg.factor, n - 1));
    } else {
      NothingIsBelow(cfg.baseDelay, cfg.factor);
    }
  }

  lemma LessIsBelow(less: real, sum: real, base: real, factor: real, power: real)
    requires less <= sum && BelowGeometric(sum, base, factor, power) && factor > 1.0
    ensures BelowGeometric(less, base, factor, power)
  {
    ProductOfNonNegative(sum - less, factor - 1.0);
    assert (sum - less) * (factor - 1.0) == sum * (factor - 1.0) - less * (factor - 1.0);
  }

  lemma NothingIsBelow(b: real, f: real)
    ensures BelowGeometric(0.0, b, f, 1.0)
  {
  }

  lemma CapBelowUncapped(i: nat, cfg: RetryConfig)
    requires cfg.baseDelay >= 0.0 && cfg.factor > 1.0
    ensures BackoffCap(i, cfg) <= Times(cfg.baseDelay, Pow(cfg.factor, i))
  {
    PowPositive(cfg.factor, i);
    ProductOfNonNegative(cfg.baseDelay, Pow(cfg.factor, i));
  }

  lemma GeometricStep(sum: real, c: real, b: real, f: real, p: real)
    requires BelowGeometric(sum, b, f, p) && c <= Times(b, p) && f > 1.0
    ensures BelowGeometric(sum + c, b, f, Times(f, p))
  {
    var k := f - 1.0;
    ProductOfNonNegative(b * p - c, k);
    assert (sum + c) * k == sum * k + c * k;
    assert c * k <= (b * p) * k;
    assert (b * p) * k == b * (f * p) - b * p;
    assert b * (f * p - 1.0) == b * (f * p) - b;
    assert b * (p - 1.0) == b * p - b;
  }
}
