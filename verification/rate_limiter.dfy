/** The token bucket that throttles requests; clock readings are inputs of each call. */
module RateLimiters {

  datatype Bucket = Bucket(tokens: real, lastRefillMs: real)

  /** How long to wait: a number of milliseconds, or for ever when nothing refills. */
  datatype Wait = Ms(ms: int) | Forever

  function Ceil(x: real): int {
    -((-x).Floor)
  }

  lemma CeilBounds(x: real)
    ensures (Ceil(x) - 1) as real < x <= Ceil(x) as real
  {
  }

  function Least(a: real, b: real): real {
    if a < b then a else b
  }

  /** The tokens that flow in between two times. */
  function Inflow(rate: real, s: real, t: real): real {
    (t - s) / 1000.0 * rate
  }

  function Refill(rate: real, burst: real, b: Bucket, t: real): Bucket {
    Bucket(Least(burst, b.tokens + Inflow(rate, b.lastRefillMs, t)), t)
  }

  /** The bucket after a call, and the delay it answers; zero is a grant. */
  function Acquire(rate: real, burst: real, b: Bucket, t: real): (Bucket, Wait) {
    var r := Refill(rate, burst, b, t);
    if r.tokens >= 1.0 then (r.(tokens := r.tokens - 1.0), Ms(0))
    else if rate == 0.0 then (r, Forever)
    else (r, Ms(Ceil((1.0 - r.tokens) / rate * 1000.0)))
  }

  predicate Granted(rate: real, burst: real, b: Bucket, t: real) {
    Refill(rate, burst, b, t).tokens >= 1.0
  }

  class RateLimiter {
    const ratePerSec: real
    const burst: real
    var tokens: real
    var lastRefillMs: real

    ghost function View(): Bucket
      reads this
    {
      Bucket(tokens, lastRefillMs)
    }

    constructor (ratePerSec: real, burst: real, now: real)
      ensures this.ratePerSec == ratePerSec && this.burst == burst && View() == Bucket(burst, now)
    {
      this.ratePerSec, this.burst := ratePerSec, burst;
      tokens, lastRefillMs := burst, now;
    }

    method RefillAt(t: real)
      modifies this
      ensures View() == Refill(ratePerSec, burst, old(View()), t)
    {
      var elapsed := (t - lastRefillMs) / 1000.0;
      var filled := tokens + elapsed * ratePerSec;
      tokens := if burst < filled then burst else filled;
      lastRefillMs := t;
    }

    method AcquireDelayMs(now: real) returns (w: Wait)
      modifies this
      ensures View() == Acquire(ratePerSec, burst, old(View()), now).0
      ensures w == Acquire(ratePerSec, burst, old(View()), now).1
    {
      RefillAt(now);
      if tokens >= 1.0 {
        tokens := tokens - 1.0;
        return Ms(0);
      }
      if ratePerSec == 0.0 {
        return Forever;
      }
      w := Ms(Ceil((1.0 - tokens) / ratePerSec * 1000.0));
    }
  }

  // ---- the answer ----

  /** The answer is zero exactly for a grant, which takes one token; any other answer is a
      positive wait and takes nothing. */
  lemma ZeroIsGrant(rate: real, burst: real, b: Bucket, t: real)
    requires rate >= 0.0
    ensures var (after, w) := Acquire(rate, burst, b, t);
      && (w == Ms(0) <==> Granted(rate, burst, b, t))
      && (w != Ms(0) ==> w.Forever? || w.ms > 0)
      && after == (if w == Ms(0) then Refill(rate, burst, b, t).(tokens := Refill(rate, burst, b, t).tokens - 1.0) else Refill(rate, burst, b, t))
  {
    hide Ceil, Refill;
    var q := Refill(rate, burst, b, t).tokens;
    if q < 1.0 && rate > 0.0 {
      Quotient(1.0 - q, rate);
      CeilBounds((1.0 - q) / rate * 1000.0);
    }
  }

  lemma Quotient(needed: real, rate: real)
    requires needed > 0.0 && rate > 0.0
    ensures needed / rate > 0.0 && needed / rate * rate == needed
  {
  }

  /** The wait is exact: with no call in between, asking `u` milliseconds later is granted
      when `u` reaches the answered delay, and not granted when it is short of it by one
      or more. */
  lemma DelayExact(rate: real, burst: real, b: Bucket, t: real, u: real)
    requires rate > 0.0 && burst >= 1.0
    requires Acquire(rate, burst, b, t).1 != Ms(0)
    ensures var (after, w) := Acquire(rate, burst, b, t);
      && w.Ms?
      && (u >= w.ms as real ==> Granted(rate, burst, after, t + u))
      && (u <= w.ms as real - 1.0 ==> !Granted(rate, burst, after, t + u))
  {
    hide Ceil, Inflow;
    var q := Refill(rate, burst, b, t).tokens;
    assert q < 1.0;
    CeilBounds((1.0 - q) / rate * 1000.0);
    FlowsIn(rate, 1.0 - q, t, u);
    assert Acquire(rate, burst, b, t).0 == Bucket(q, t);
  }

  /** By the asked time the bucket has taken in a thousandth of the rate per millisecond, up to
      the burst. A grant takes one of what is then there; a refusal leaves it, and answers the
      least number of milliseconds that fills it up to one. */
  lemma AcquireExactly(rate: real, burst: real, b: Bucket, t: real)
    requires rate > 0.0
    ensures var (after, w) := Acquire(rate, burst, b, t);
      var filled := b.tokens + (t - b.lastRefillMs) * rate / 1000.0;
      var there := if filled < burst then filled else burst;
      && after.lastRefillMs == t
      && (w == Ms(0) <==> there >= 1.0)
      && after.tokens == (if there >= 1.0 then there - 1.0 else there)
      && w.Ms?
      && (there < 1.0 ==> w.ms > 0 && (w.ms - 1) as real * rate < (1.0 - there) * 1000.0 <= w.ms as real * rate)
  {
    hide Ceil;
    var r := Refill(rate, burst, b, t);
    assert (t - b.lastRefillMs) / 1000.0 * rate == (t - b.lastRefillMs) * rate / 1000.0;
    if r.tokens < 1.0 {
      CeilBounds((1.0 - r.tokens) / rate * 1000.0);
      Waits(1.0 - r.tokens, rate, Ceil((1.0 - r.tokens) / rate * 1000.0));
    }
  }

  lemma Waits(needed: real, rate: real, ms: int)
    requires rate > 0.0 && needed > 0.0
    requires (ms - 1) as real < needed / rate * 1000.0 <= ms as real
    ensures ms > 0
    ensures (ms - 1) as real * rate < needed * 1000.0 <= ms as real * rate
  {
    PositiveQuotient(needed, rate);
    assert needed / rate * 1000.0 * rate == needed * 1000.0;
    Between(needed / rate * 1000.0, needed * 1000.0, rate, (ms - 1) as real, ms as real);
  }

  lemma Between(y: real, whole: real, rate: real, below: real, above: real)
    requires rate > 0.0 && y * rate == whole && below < y <= above
    ensures below * rate < whole <= above * rate
  {
    Order(y, above, rate);
    StrictOrder(below, y, rate);
  }

  lemma PositiveQuotient(p: real, d: real)
    requires p > 0.0 && d > 0.0
    ensures p / d > 0.0
  {
  }

  lemma StrictOrder(x: real, y: real, rate: real)
    requires rate > 0.0 && x < y
    ensures x * rate < y * rate
  {
    assert (y - x) * rate > 0.0;
  }

  /** What is needed has flowed in exactly when needed / rate seconds have passed. */
  lemma FlowsIn(rate: real, needed: real, t: real, u: real)
    requires rate > 0.0
    ensures Inflow(rate, t, t + u) >= needed <==> u >= needed / rate * 1000.0
  {
    var x := needed / rate;
    assert x * rate == needed;
    assert Inflow(rate, t, t + u) == u / 1000.0 * rate;
    Order(x, u / 1000.0, rate);
    Order(u / 1000.0, x, rate);
  }

  lemma Order(x: real, y: real, rate: real)
    requires rate > 0.0
    ensures x <= y ==> x * rate <= y * rate
    ensures x < y ==> x * rate < y * rate
  {
    if x < y {
      assert (y - x) * rate > 0.0;
    }
  }

  /** With a burst below one nothing is ever granted, whatever wait was answered. */
  lemma SmallBurstStarves(rate: real, burst: real, b: Bucket, t: real)
    ensures burst < 1.0 ==> !Granted(rate, burst, b, t)
  {
  }

  // ---- the rate bound ----

  /** The bucket before the n-th call of a run. */
  function Before(rate: real, burst: real, start: real, times: seq<real>, n: nat): Bucket
    requires n <= |times|
  {
    if n == 0 then Bucket(burst, start)
    else Acquire(rate, burst, Before(rate, burst, start, times, n - 1), times[n - 1]).0
  }

  function Grants(rate: real, burst: real, start: real, times: seq<real>, i: nat, j: nat): nat
    requires i <= j <= |times|
    decreases j - i
  {
    if i == j then 0
    else
      Grants(rate, burst, start, times, i, j - 1)
        + if Granted(rate, burst, Before(rate, burst, start, times, j - 1), times[j - 1]) then 1 else 0
  }

  predicate Ticking(start: real, times: seq<real>) {
    && (times != [] ==> start <= times[0])
    && forall i, j :: 0 <= i < j < |times| ==> times[i] <= times[j]
  }

  lemma CallSpends(rate: real, burst: real, b: Bucket, t: real)
    ensures var after := Acquire(rate, burst, b, t).0;
      && after.lastRefillMs == t
      && after.tokens + (if Granted(rate, burst, b, t) then 1.0 else 0.0)
         == Least(burst, b.tokens + Inflow(rate, b.lastRefillMs, t))
  {
    hide Ceil, Inflow;
  }

  lemma {:induction false} TokensHeld(rate: real, burst: real, start: real, times: seq<real>, n: nat)
    requires rate >= 0.0 && burst >= 0.0 && Ticking(start, times) && n <= |times|
    ensures var b := Before(rate, burst, start, times, n);
      b.tokens >= 0.0 && b.lastRefillMs == if n == 0 then start else times[n - 1]
  {
    hide Acquire, Granted, Inflow;
    if n > 0 {
      TokensHeld(rate, burst, start, times, n - 1);
      var b := Before(rate, burst, start, times, n - 1);
      CallSpends(rate, burst, b, times[n - 1]);
      Elapsed(b.lastRefillMs, times[n - 1], rate);
      KeepsNonNegative(rate, burst, b, times[n - 1]);
    }
  }

  lemma Elapsed(s: real, t: real, rate: real)
    requires s <= t && rate >= 0.0
    ensures Inflow(rate, s, t) >= 0.0
  {
    assert (t - s) / 1000.0 >= 0.0;
  }

  lemma KeepsNonNegative(rate: real, burst: real, b: Bucket, t: real)
    requires burst >= 0.0 && b.tokens + Inflow(rate, b.lastRefillMs, t) >= 0.0
    ensures Acquire(rate, burst, b, t).0.tokens >= 0.0
  {
    hide Ceil;
  }

  lemma {:induction false} GrantsPaid(rate: real, burst: real, start: real, times: seq<real>, i: nat, j: nat)
    requires rate >= 0.0 && burst >= 0.0 && Ticking(start, times) && i < j <= |times|
    ensures Grants(rate, burst, start, times, i, j) as real + Before(rate, burst, start, times, j).tokens
      <= burst + Inflow(rate, times[i], times[j - 1])
    decreases j - i
  {
    hide Acquire, Granted, Inflow;
    var b := Before(rate, burst, start, times, j - 1);
    CallSpends(rate, burst, b, times[j - 1]);
    if j - 1 > i {
      GrantsPaid(rate, burst, start, times, i, j - 1);
      TokensHeld(rate, burst, start, times, j - 1);
      Added(times[i], times[j - 2], times[j - 1], rate);
    } else {
      assert Grants(rate, burst, start, times, i, i) == 0;
      Elapsed(times[i], times[i], rate);
    }
  }

  lemma Added(x: real, y: real, z: real, rate: real)
    ensures Inflow(rate, x, y) + Inflow(rate, y, z) == Inflow(rate, x, z)
  {
    assert (y - x) / 1000.0 + (z - y) / 1000.0 == (z - x) / 1000.0;
  }

  /** In any stretch of calls within `window` milliseconds, on a clock that does not go
      back, at most burst + rate * window / 1000 are granted. */
  lemma RateBound(rate: real, burst: real, start: real, times: seq<real>, i: nat, j: nat, window: real)
    requires rate >= 0.0 && burst >= 0.0 && Ticking(start, times) && i < j <= |times|
    requires times[j - 1] - times[i] <= window
    ensures Grants(rate, burst, start, times, i, j) as real <= burst + rate * window / 1000.0
  {
    hide Acquire, Granted, Grants, Before, Inflow;
    GrantsPaid(rate, burst, start, times, i, j);
    TokensHeld(rate, burst, start, times, j);
    WithinWindow(rate, times[i], times[j - 1], window);
  }

  lemma WithinWindow(rate: real, s: real, t: real, window: real)
    requires rate >= 0.0 && t - s <= window
    ensures Inflow(rate, s, t) <= rate * window / 1000.0
  {
    assert (window - (t - s)) * rate >= 0.0;
  }

  // ---- the loop that waits ----

  function WaitAt(rate: real, burst: real, start: real, times: seq<real>, k: nat): Wait
    requires k < |times|
  {
    Acquire(rate, burst, Before(rate, burst, start, times, k), times[k]).1
  }

  /** When the backfill loop sends its k-th request: it sleeps the answered delay and then
      sends without asking again. */
  function SentAt(rate: real, burst: real, start: real, times: seq<real>, k: nat): real
    requires k < |times|
  {
    times[k] + match WaitAt(rate, burst, start, times, k) case Ms(ms) => ms as real case Forever => 0.0
  }

  /** One request at a time: the next call comes when the last request was sent. */
  predicate Sequential(rate: real, burst: real, start: real, times: seq<real>) {
    && (times != [] ==> start <= times[0])
    && forall k :: 0 <= k < |times| - 1 ==> SentAt(rate, burst, start, times, k) <= times[k + 1]
  }

  lemma WaitThenGrant(rate: real, burst: real, start: real, times: seq<real>, k: nat)
    requires rate > 0.0 && burst >= 1.0 && Sequential(rate, burst, start, times) && k + 1 < |times|
    ensures Granted(rate, burst, Before(rate, burst, start, times, k), times[k])
      || Granted(rate, burst, Before(rate, burst, start, times, k + 1), times[k + 1])
  {
    hide Granted, Acquire, Before;
    var b := Before(rate, burst, start, times, k);
    assert Before(rate, burst, start, times, k + 1) == Acquire(rate, burst, b, times[k]).0 by { NextBucket(rate, burst, start, times, k); }
    ZeroIsGrant(rate, burst, b, times[k]);
    assert SentAt(rate, burst, start, times, k) <= times[k + 1];
    if Acquire(rate, burst, b, times[k]).1 != Ms(0) {
      DelayExact(rate, burst, b, times[k], times[k + 1] - times[k]);
    }
  }

  lemma NextBucket(rate: real, burst: real, start: real, times: seq<real>, k: nat)
    requires k < |times|
    ensures Before(rate, burst, start, times, k + 1)
      == Acquire(rate, burst, Before(rate, burst, start, times, k), times[k]).0
  {
  }

  /** One for a request that is granted when it asks, zero for one that has to wait. */
  function Granting(rate: real, burst: real, start: real, times: seq<real>, k: nat): (n: nat)
    requires k < |times|
    ensures n <= 1
  {
    if Granted(rate, burst, Before(rate, burst, start, times, k), times[k]) then 1 else 0
  }

  /** Of the requests of a sequential loop at least every second one was granted. */
  lemma {:induction false} HalfGranted(rate: real, burst: real, start: real, times: seq<real>, i: nat, j: nat)
    requires rate > 0.0 && burst >= 1.0 && Sequential(rate, burst, start, times) && i < j <= |times|
    ensures j - i + Granting(rate, burst, start, times, i) + Granting(rate, burst, start, times, j - 1)
      <= 2 * Grants(rate, burst, start, times, i, j) + 1
    decreases j - i
  {
    hide Granted, Before, Sequential;
    if j - 1 > i {
      HalfGranted(rate, burst, start, times, i, j - 1);
      WaitThenGrant(rate, burst, start, times, j - 2);
    } else {
      assert Grants(rate, burst, start, times, i, i) == 0;
    }
  }

  lemma {:induction false} SequentialTicks(rate: real, burst: real, start: real, times: seq<real>, i: nat, j: nat)
    requires rate > 0.0 && Sequential(rate, burst, start, times) && i <= j < |times|
    ensures times[i] <= times[j]
  {
    hide Before, Acquire, Granted;
    if i < j {
      SequentialTicks(rate, burst, start, times, i, j - 1);
      SentBehind(rate, burst, start, times, j - 1);
      assert SentAt(rate, burst, start, times, j - 1) <= times[j];
    }
  }

  /** A request goes out when it asked, exactly if it was granted, and later otherwise. */
  lemma SentBehind(rate: real, burst: real, start: real, times: seq<real>, k: nat)
    requires rate > 0.0 && k < |times|
    ensures SentAt(rate, burst, start, times, k) >= times[k]
    ensures Granting(rate, burst, start, times, k) == 1 ==> SentAt(rate, burst, start, times, k) == times[k]
    ensures Granting(rate, burst, start, times, k) == 1 <==> WaitAt(rate, burst, start, times, k) == Ms(0)
  {
    hide Before, Acquire, Granted;
    ZeroIsGrant(rate, burst, Before(rate, burst, start, times, k), times[k]);
  }

  lemma LoopTicks(rate: real, burst: real, start: real, times: seq<real>)
    requires rate > 0.0 && Sequential(rate, burst, start, times)
    ensures Ticking(start, times)
  {
    hide Before, Acquire, Granted, SentAt;
    forall k, l | 0 <= k < l < |times| ensures times[k] <= times[l] {
      SequentialTicks(rate, burst, start, times, k, l);
    }
  }

  /** The requests that a waiting loop sends within a window stay within twice the rate. */
  lemma LoopWithinTwice(rate: real, burst: real, start: real, times: seq<real>, i: nat, j: nat, window: real)
    requires rate > 0.0 && burst >= 1.0 && Sequential(rate, burst, start, times) && i < j <= |times|
    requires SentAt(rate, burst, start, times, j - 1) - SentAt(rate, burst, start, times, i) <= window
    ensures (j - i) as real <= 2.0 * (burst + rate * window / 1000.0)
  {
    hide Before, Acquire, Granted, SentAt, Grants, Sequential, Granting;
    SentBehind(rate, burst, start, times, i);
    var first := if Granting(rate, burst, start, times, i) == 1 then i else i + 1;
    if first < j {
      NextSent(rate, burst, start, times, i);
      GrantedFirst(rate, burst, start, times, first, j, window);
    } else {
      Elapsed(0.0, 0.0, rate);
      WithinWindow(rate, 0.0, 0.0, window);
    }
  }

  /** A stretch that starts with a granted request has room for one more. */
  lemma GrantedFirst(rate: real, burst: real, start: real, times: seq<real>, i: nat, j: nat, window: real)
    requires rate > 0.0 && burst >= 1.0 && Sequential(rate, burst, start, times) && i < j <= |times|
    requires Granting(rate, burst, start, times, i) == 1
    requires SentAt(rate, burst, start, times, j - 1) - times[i] <= window
    ensures (j - i) as real + 1.0 <= 2.0 * (burst + rate * window / 1000.0)
  {
    hide Before, Acquire, Granted, SentAt, Grants, Sequential, Granting, Inflow;
    var sent := SentAt(rate, burst, start, times, j - 1);
    LoopTicks(rate, burst, start, times);
    HalfGranted(rate, burst, start, times, i, j);
    GrantsPaid(rate, burst, start, times, i, j);
    LastSend(rate, burst, start, times, j - 1);
    Added(times[i], times[j - 1], sent, rate);
    WithinWindow(rate, times[i], sent, window);
  }

  /** Behind a request that waited comes one that did not, no earlier than it was sent. */
  lemma NextSent(rate: real, burst: real, start: real, times: seq<real>, i: nat)
    requires rate > 0.0 && burst >= 1.0 && Sequential(rate, burst, start, times) && i < |times|
    ensures i + 1 < |times| ==> SentAt(rate, burst, start, times, i) <= times[i + 1]
    ensures i + 1 < |times| && Granting(rate, burst, start, times, i) == 0 ==> Granting(rate, burst, start, times, i + 1) == 1
  {
    hide Before, Acquire, Granted, SentAt;
    if i + 1 < |times| {
      WaitThenGrant(rate, burst, start, times, i);
    }
  }

  // ---- when the loop keeps the rate ----

  /** More requests leave between two sends than the rate allows for that time. */
  predicate Exceeds(rate: real, burst: real, start: real, times: seq<real>, i: nat, j: nat) {
    && i < j <= |times|
    && (j - i) as real > burst + Inflow(rate, SentAt(rate, burst, start, times, i), SentAt(rate, burst, start, times, j - 1))
  }

  /** A stretch of requests none of which waited, except perhaps the last, keeps the rate. */
  lemma WaitlessKeepsRate(rate: real, burst: real, start: real, times: seq<real>, i: nat, j: nat)
    requires rate > 0.0 && burst >= 1.0 && Ticking(start, times) && i < j <= |times|
    requires forall k :: i <= k < j - 1 ==> WaitAt(rate, burst, start, times, k) == Ms(0)
    ensures !Exceeds(rate, burst, start, times, i, j)
  {
    hide Acquire, Granted, Grants, Before, Inflow, WaitAt, SentAt, Granting;
    var sent := SentAt(rate, burst, start, times, j - 1);
    if i < j - 1 {
      SentBehind(rate, burst, start, times, i);
      GrantsPaid(rate, burst, start, times, i, j);
      AllGranted(rate, burst, start, times, i, j - 1);
      GrantsNext(rate, burst, start, times, i, j);
      LastSend(rate, burst, start, times, j - 1);
      Added(times[i], times[j - 1], sent, rate);
    } else {
      Elapsed(sent, sent, rate);
    }
  }

  lemma GrantsNext(rate: real, burst: real, start: real, times: seq<real>, i: nat, j: nat)
    requires i < j <= |times|
    ensures Grants(rate, burst, start, times, i, j)
      == Grants(rate, burst, start, times, i, j - 1) + Granting(rate, burst, start, times, j - 1)
  {
    hide Granted, Before;
  }

  lemma {:induction false} AllGranted(rate: real, burst: real, start: real, times: seq<real>, i: nat, j: nat)
    requires rate > 0.0 && i <= j <= |times|
    requires forall k :: i <= k < j ==> WaitAt(rate, burst, start, times, k) == Ms(0)
    ensures Grants(rate, burst, start, times, i, j) == j - i
    decreases j - i
  {
    hide Granted, Before, WaitAt, Granting, SentAt;
    if i < j {
      AllGranted(rate, burst, start, times, i, j - 1);
      SentBehind(rate, burst, start, times, j - 1);
      GrantsNext(rate, burst, start, times, i, j);
    }
  }

  /** By the time a request is sent, what it took or what has flowed in pays for it. */
  lemma LastSend(rate: real, burst: real, start: real, times: seq<real>, k: nat)
    requires rate > 0.0 && k < |times|
    ensures Granting(rate, burst, start, times, k) as real + Before(rate, burst, start, times, k + 1).tokens
      + Inflow(rate, times[k], SentAt(rate, burst, start, times, k)) >= 1.0
  {
    hide Before, Inflow, Ceil;
    var b := Before(rate, burst, start, times, k);
    NextBucket(rate, burst, start, times, k);
    var q := Refill(rate, burst, b, times[k]).tokens;
    if q < 1.0 {
      CeilBounds((1.0 - q) / rate * 1000.0);
      FlowsIn(rate, 1.0 - q, times[k], SentAt(rate, burst, start, times, k) - times[k]);
    } else {
      Elapsed(times[k], times[k], rate);
    }
  }

  /** A loop that loses no time: every request is made when the one before it was sent. */
  predicate BackToBack(rate: real, burst: real, start: real, times: seq<real>) {
    && (times != [] ==> times[0] == start)
    && forall k :: 0 <= k < |times| - 1 ==> SentAt(rate, burst, start, times, k) == times[k + 1]
  }

  /** The requests that a full bucket grants at once. */
  function AtOnce(burst: real): int {
    burst.Floor
  }

  /** What the bucket then holds, short of one. */
  function Left(burst: real): real {
    burst - AtOnce(burst) as real
  }

  /** How long the next request waits. */
  function FirstWait(rate: real, burst: real): int
    requires rate > 0.0
  {
    Ceil((1.0 - Left(burst)) / rate * 1000.0)
  }

  /** What the bucket would hold by then if it could hold any amount. */
  function Uncapped(rate: real, burst: real): real
    requires rate > 0.0
  {
    Left(burst) + Inflow(rate, 0.0, FirstWait(rate, burst) as real)
  }

  /** How many requests a back-to-back loop can make without exceeding the rate: those
      granted at once, and as many as the bucket holds behind the first wait. */
  function LoopLimit(rate: real, burst: real): real
    requires rate > 0.0
  {
    AtOnce(burst) as real + Least(burst, Uncapped(rate, burst))
  }

  lemma LimitBounds(rate: real, burst: real)
    requires rate > 0.0 && burst >= 1.0
    ensures AtOnce(burst) >= 1 && 0.0 <= Left(burst) < 1.0
    ensures FirstWait(rate, burst) >= 1
    ensures 1.0 <= Uncapped(rate, burst) < 1.0 + rate / 1000.0
  {
    hide Ceil, Inflow;
    var needed, d := 1.0 - Left(burst), FirstWait(rate, burst);
    Quotient(needed, rate);
    CeilBounds(needed / rate * 1000.0);
    FlowsIn(rate, needed, 0.0, d as real);
    FlowsIn(rate, needed, 0.0, d as real - 1.0);
    Added(0.0, d as real - 1.0, d as real, rate);
    OneMillisecond(rate, d as real - 1.0);
  }

  lemma OneMillisecond(rate: real, t: real)
    ensures Inflow(rate, t, t + 1.0) == rate / 1000.0
  {
  }

  lemma Later(rate: real, s: real, t: real)
    ensures Inflow(rate, s, s) == 0.0 && Inflow(rate, s, s + t) == Inflow(rate, 0.0, t)
  {
  }

  /** A call that finds the bucket as it was left, with nothing flowing in. */
  lemma SameMoment(rate: real, burst: real, b: Bucket)
    requires b.tokens <= burst
    ensures Refill(rate, burst, b, b.lastRefillMs) == b
  {
    hide Inflow;
    Later(rate, b.lastRefillMs, 0.0);
  }

  lemma {:induction false} FullGrants(rate: real, burst: real, start: real, times: seq<real>, k: nat)
    requires rate > 0.0 && burst >= 1.0 && BackToBack(rate, burst, start, times)
    requires k < |times| && k <= AtOnce(burst)
    ensures times[k] == start && Before(rate, burst, start, times, k) == Bucket(burst - k as real, start)
    ensures k < AtOnce(burst) ==> WaitAt(rate, burst, start, times, k) == Ms(0)
  {
    hide Acquire, Refill, Before, Ceil;
    var b := Bucket(burst - k as real, start);
    if k == 0 {
      FirstBucket(rate, burst, start, times);
    } else {
      FullGrants(rate, burst, start, times, k - 1);
      NextBucket(rate, burst, start, times, k - 1);
      Takes(rate, burst, Bucket(burst - (k - 1) as real, start));
      assert SentAt(rate, burst, start, times, k - 1) == times[k];
    }
    if k < AtOnce(burst) {
      Takes(rate, burst, b);
    }
  }

  /** A call on a bucket with a token takes it, without a wait. */
  lemma Takes(rate: real, burst: real, b: Bucket)
    requires 1.0 <= b.tokens <= burst
    ensures Acquire(rate, burst, b, b.lastRefillMs) == (Bucket(b.tokens - 1.0, b.lastRefillMs), Ms(0))
  {
    SameMoment(rate, burst, b);
  }

  lemma FirstWaits(rate: real, burst: real, start: real, times: seq<real>)
    requires rate > 0.0 && burst >= 1.0 && BackToBack(rate, burst, start, times) && AtOnce(burst) < |times|
    ensures var k := AtOnce(burst);
      && WaitAt(rate, burst, start, times, k) == Ms(FirstWait(rate, burst))
      && Before(rate, burst, start, times, k + 1) == Bucket(Left(burst), start)
      && SentAt(rate, burst, start, times, k) == start + FirstWait(rate, burst) as real
  {
    hide Refill, Before, Ceil;
    var k := AtOnce(burst);
    FullGrants(rate, burst, start, times, k);
    SameMoment(rate, burst, Bucket(Left(burst), start));
    NextBucket(rate, burst, start, times, k);
  }

  /** Behind the first wait requests are granted at once while the bucket lasts. */
  lemma {:induction false} GrantsBehindWait(rate: real, burst: real, start: real, times: seq<real>, x: nat)
    requires rate > 0.0 && burst >= 1.0 && BackToBack(rate, burst, start, times)
    requires AtOnce(burst) + 1 + x < |times| && x as real + 1.0 <= Least(burst, Uncapped(rate, burst))
    ensures var k := AtOnce(burst) + 1 + x;
      && SentAt(rate, burst, start, times, k) == start + FirstWait(rate, burst) as real
      && Before(rate, burst, start, times, k + 1)
         == Bucket(Least(burst, Uncapped(rate, burst)) - x as real - 1.0, start + FirstWait(rate, burst) as real)
  {
    hide Before, Ceil, Inflow;
    var k, d := AtOnce(burst) + 1 + x, FirstWait(rate, burst) as real;
    if x == 0 {
      FirstWaits(rate, burst, start, times);
      assert SentAt(rate, burst, start, times, k - 1) == times[k];
      Later(rate, start, d);
    } else {
      GrantsBehindWait(rate, burst, start, times, x - 1);
      assert SentAt(rate, burst, start, times, k - 1) == times[k];
      SameMoment(rate, burst, Before(rate, burst, start, times, k));
    }
    NextBucket(rate, burst, start, times, k);
  }

  /** When the requests of a loop within its limit are sent. */
  lemma SentWithinLimit(rate: real, burst: real, start: real, times: seq<real>, k: nat)
    requires rate > 0.0 && burst >= 1.0 && BackToBack(rate, burst, start, times)
    requires k < |times| && k as real <= LoopLimit(rate, burst)
    ensures SentAt(rate, burst, start, times, k) == if k < AtOnce(burst) then start else start + FirstWait(rate, burst) as real
  {
    hide Before, Ceil, Inflow, Acquire, BackToBack, Uncapped;
    if k < AtOnce(burst) {
      FullGrants(rate, burst, start, times, k);
    } else if k == AtOnce(burst) {
      FirstWaits(rate, burst, start, times);
    } else {
      GrantsBehindWait(rate, burst, start, times, k - AtOnce(burst) - 1);
    }
  }

  lemma KeepsWithinLimit(rate: real, burst: real, start: real, times: seq<real>, i: nat, j: nat)
    requires rate > 0.0 && burst >= 1.0 && BackToBack(rate, burst, start, times)
    requires |times| as real <= LoopLimit(rate, burst)
    ensures !Exceeds(rate, burst, start, times, i, j)
  {
    hide Before, Ceil, Inflow, SentAt, BackToBack, FirstWait;
    if i < j <= |times| {
      LimitBounds(rate, burst);
      SentWithinLimit(rate, burst, start, times, i);
      SentWithinLimit(rate, burst, start, times, j - 1);
      Later(rate, start, FirstWait(rate, burst) as real);
      Later(rate, start + FirstWait(rate, burst) as real, 0.0);
    }
  }

  lemma ExceedsBeyondLimit(rate: real, burst: real, start: real, times: seq<real>) returns (i: nat, j: nat)
    requires rate > 0.0 && burst >= 1.0 && BackToBack(rate, burst, start, times)
    requires |times| as real > LoopLimit(rate, burst)
    ensures Exceeds(rate, burst, start, times, i, j)
  {
    hide Before, Ceil, Inflow, SentAt, BackToBack, FirstWait;
    LimitBounds(rate, burst);
    var held := Least(burst, Uncapped(rate, burst));
    j := AtOnce(burst) + 1 + held.Floor;
    i := if burst < Uncapped(rate, burst) then AtOnce(burst) else 0;
    SentWithinLimit(rate, burst, start, times, i);
    SentWithinLimit(rate, burst, start, times, j - 1);
    Later(rate, start, FirstWait(rate, burst) as real);
    Later(rate, start + FirstWait(rate, burst) as real, 0.0);
  }

  /** A back-to-back loop behind a full bucket exceeds the configured rate somewhere exactly
      when it makes more requests than its limit, which rate and burst alone determine. */
  lemma LoopKeepsRateExactly(rate: real, burst: real, start: real, times: seq<real>)
    requires rate > 0.0 && burst >= 1.0 && BackToBack(rate, burst, start, times)
    ensures (exists i: nat, j: nat :: Exceeds(rate, burst, start, times, i, j)) <==> |times| as real > LoopLimit(rate, burst)
  {
    hide Exceeds, LoopLimit, BackToBack;
    if |times| as real > LoopLimit(rate, burst) {
      var i, j := ExceedsBeyondLimit(rate, burst, start, times);
    } else {
      forall i: nat, j: nat ensures !Exceeds(rate, burst, start, times, i, j) {
        KeepsWithinLimit(rate, burst, start, times, i, j);
      }
    }
  }

  /** Up to a thousand requests a second that is the guard of the sleep: the rate is
      exceeded exactly when a request before the last one had to wait. */
  lemma WaitBreaksRate(rate: real, burst: real, start: real, times: seq<real>)
    requires 0.0 < rate <= 1000.0 && burst >= 1.0 && BackToBack(rate, burst, start, times)
    ensures (exists i: nat, j: nat :: Exceeds(rate, burst, start, times, i, j))
      <==> exists k :: 0 <= k < |times| - 1 && WaitAt(rate, burst, start, times, k) != Ms(0)
  {
    hide Exceeds, BackToBack, WaitAt, Uncapped, FirstWait;
    LoopKeepsRateExactly(rate, burst, start, times);
    LimitBounds(rate, burst);
    var n := AtOnce(burst);
    if n < |times| - 1 {
      FirstWaits(rate, burst, start, times);
      assert WaitAt(rate, burst, start, times, n) != Ms(0);
    } else {
      forall k | 0 <= k < |times| - 1 ensures WaitAt(rate, burst, start, times, k) == Ms(0) {
        FullGrants(rate, burst, start, times, k);
      }
    }
  }

  const STEADY := [0.0, 0.0, 100.0, 100.0, 200.0]

  /** And it can reach twice the rate: ten a second with a burst of one allows two
      requests in 100 ms, but a waiting loop sends four, because a request that waited
      takes no token. */
  lemma WaitingTakesNoToken()
    ensures Sequential(10.0, 1.0, 0.0, STEADY)
    ensures forall k :: 1 <= k < 5 ==> 100.0 <= SentAt(10.0, 1.0, 0.0, STEADY, k) <= 200.0
    ensures 4.0 > 1.0 + 10.0 * 100.0 / 1000.0
  {
    hide Before, Acquire;
    FirstBucket(10.0, 1.0, 0.0, STEADY);
    SteadyCalls(0.0);
    SteadyCalls(100.0);
    NextBucket(10.0, 1.0, 0.0, STEADY, 0);
    NextBucket(10.0, 1.0, 0.0, STEADY, 1);
    NextBucket(10.0, 1.0, 0.0, STEADY, 2);
    NextBucket(10.0, 1.0, 0.0, STEADY, 3);
    SteadySent(Before(10.0, 1.0, 0.0, STEADY, 4));
  }

  lemma SteadySent(b: Bucket)
    requires b == Bucket(0.0, 100.0)
    ensures Acquire(10.0, 1.0, b, 200.0).1 == Ms(0)
  {
    SteadyCalls(100.0);
  }

  /** A full bucket grants; an empty one asks for 100 ms, and has a token behind them. */
  lemma SteadyCalls(t: real)
    ensures Acquire(10.0, 1.0, Bucket(1.0, t), t) == (Bucket(0.0, t), Ms(0))
    ensures Acquire(10.0, 1.0, Bucket(0.0, t), t) == (Bucket(0.0, t), Ms(100))
    ensures Acquire(10.0, 1.0, Bucket(0.0, t), t + 100.0) == (Bucket(0.0, t + 100.0), Ms(0))
  {
    hide Inflow, Ceil;
    SteadyFlow(t);
    assert (1.0 - 0.0) / 10.0 * 1000.0 == 100.0;
    assert Ceil(100.0) == 100 by { CeilBounds(100.0); }
  }

  lemma SteadyFlow(t: real)
    ensures Inflow(10.0, t, t) == 0.0 && Inflow(10.0, t, t + 100.0) == 1.0
  {
  }

  lemma FirstBucket(rate: real, burst: real, start: real, times: seq<real>)
    ensures Before(rate, burst, start, times, 0) == Bucket(burst, start)
  {
  }
}
