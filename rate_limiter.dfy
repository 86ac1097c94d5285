/**
 * The login rate limiter: at most ten login attempts per client address in each clock minute,
 * counted in the store under "rl:login:<ip>:<minute>".
 */
module RateLimiter {
  import opened Base
  import opened Strs
  import Http
  import Kv

  const RateLimit := 10
  const WindowSec := 60
  /** The counter's TTL, two seconds longer than the window. */
  const CounterTtl := 62
  const LoginPath := "/api/v1/auth/login"

  /** Go's int64 division, which truncates toward zero. */
  function Quot(a: int, b: int): (q: int)
    requires b > 0
    ensures a >= 0 ==> q == a / b
    ensures a - b < q * b <= a || a < 0
  {
    if a >= 0 then a / b else -((-a) / b)
  }

  /** Go's int64 remainder, which takes the sign of the dividend. */
  function Rem(a: int, b: int): (r: int)
    requires b > 0
    ensures -b < r < b
    ensures a >= 0 ==> r == a % b
    ensures a < 0 ==> r <= 0
  {
    a - b * Quot(a, b)
  }

  /** Only POSTs to the login route are limited; every other request passes untouched. */
  predicate Limited(r: Http.Request) {
    r.verb == "POST" && r.fullPath == LoginPath
  }

  function CounterKey(ip: string, slot: int): string {
    "rl:login:" + ip + ":" + IntToDecimal(slot)
  }

  /**
   * The Retry-After value: the seconds left in the current minute. The fallback to a whole
   * window when that is not positive is never taken, because a Go remainder is below 60.
   */
  function RetryAfter(nowSec: int): (reset: int)
    ensures 1 <= reset < 2 * WindowSec
    ensures nowSec >= 0 ==> reset <= WindowSec && (nowSec + reset) % WindowSec == 0
  {
    var reset := WindowSec - Rem(nowSec, WindowSec);
    if reset <= 0 then WindowSec else reset
  }

  /**
   * middleware.RateLimiter. The INCR result is read as 0 when the command failed (the
   * error is dropped) and the counter's TTL is reset on every attempt, even a failed one.
   * Above ten attempts the request ends with 429 and a Retry-After header.
   */
  method RateLimiter(ctx: Http.Context, kv: Kv.Store, nowSec: int, incrFault: bool, expireFault: bool)
    requires !ctx.aborted
    modifies ctx, kv
    ensures !Limited(ctx.request) ==>
      kv.data == old(kv.data) && ctx.responses == old(ctx.responses) && ctx.headers == old(ctx.headers) && !ctx.aborted
    ensures Limited(ctx.request) ==>
      var key := CounterKey(ctx.request.clientIp, Quot(nowSec, WindowSec));
      var inc := if incrFault then None else Kv.IncrSpec(old(kv.data), key, nowSec);
      var n := if inc.None? then 0 else inc.value.1;
      var counted := if inc.None? then old(kv.data) else inc.value.0;
      kv.data == (if expireFault then counted else Kv.ExpireSpec(counted, key, CounterTtl, nowSec).0)
      && (ctx.aborted <==> n > RateLimit)
      && (n > RateLimit ==>
            ctx.headers == old(ctx.headers) + [("Retry-After", IntToDecimal(RetryAfter(nowSec)))]
            && ctx.responses == old(ctx.responses) + [Http.Error(429, "Rate limit exceeded")])
      && (n <= RateLimit ==> ctx.headers == old(ctx.headers) && ctx.responses == old(ctx.responses))
    ensures ctx.values == old(ctx.values) && ctx.cookies == old(ctx.cookies)
  {
    if !Limited(ctx.request) {
      return;
    }
    var slot := Quot(nowSec, WindowSec);
    var key := CounterKey(ctx.request.clientIp, slot);
    var incr := kv.Incr(key, nowSec, incrFault);
    var n := if incr.None? then 0 else incr.value;
    var _ := kv.Expire(key, CounterTtl, nowSec, expireFault);
    if n > RateLimit {
      var reset := RetryAfter(nowSec);
      ctx.AddHeader("Retry-After", IntToDecimal(reset));
      ctx.ErrorResponse(429, "Rate limit exceeded");
      return;
    }
  }

  // ---------------------------------------------------------------------------
  // Properties

  /** Each client address and minute has a counter of its own. */
  lemma CounterKeyInjective(ip1: string, slot1: int, ip2: string, slot2: int)
    requires CounterKey(ip1, slot1) == CounterKey(ip2, slot2)
    ensures ip1 == ip2 && slot1 == slot2
  {
    var d1, d2 := IntToDecimal(slot1), IntToDecimal(slot2);
    assert ':' !in d1 && ':' !in d2;
    assert ("rl:login:" + ip1) + [':'] + d1 == ("rl:login:" + ip2) + [':'] + d2;
    LastSeparator("rl:login:" + ip1, d1, "rl:login:" + ip2, d2, ':');
    assert ip1 == ("rl:login:" + ip1)[9..] && ip2 == ("rl:login:" + ip2)[9..];
    IntToDecimalInjective(slot1, slot2);
  }

  /** One attempt without store failures: INCR, then the counter's TTL. */
  function Attempt(db: Kv.Db, key: string, t: int): (Kv.Db, int) {
    var inc := Kv.IncrSpec(db, key, t);
    var counted := if inc.None? then db else inc.value.0;
    (Kv.ExpireSpec(counted, key, CounterTtl, t).0, if inc.None? then 0 else inc.value.1)
  }

  /** A series of attempts on one counter: the store afterwards and the count the last one saw. */
  function Attempts(db: Kv.Db, key: string, times: seq<int>): (Kv.Db, int)
    requires |times| >= 1
    decreases |times|
  {
    var (d, n) := Attempt(db, key, times[0]);
    if |times| == 1 then (d, n) else Attempts(d, key, times[1..])
  }

  /** The counter holds `n` at time `t` (no live counter when `n` is 0). */
  predicate CounterAt(db: Kv.Db, key: string, n: nat, t: int) {
    if n == 0 then Kv.Visible(db, key, t).None? else Kv.Visible(db, key, t) == Some(Kv.Text(IntToDecimal(n)))
  }

  lemma AttemptCounts(db: Kv.Db, key: string, n: nat, t: int, later: int)
    requires n + 1 < MaxInt64
    requires CounterAt(db, key, n, t)
    requires t <= later < t + CounterTtl
    ensures Attempt(db, key, t).1 == n + 1
    ensures CounterAt(Attempt(db, key, t).0, key, n + 1, later)
  {
    Kv.IncrCounts(db, key, t, n);
    var counted := Kv.IncrSpec(db, key, t).value.0;
    Kv.ExpireMovesDeadline(counted, key, CounterTtl, t, later);
  }

  /**
   * Attempts in quick succession (none later than the counter's TTL after the first) are
   * counted one by one: the k-th sees n + k.
   */
  lemma {:induction false} AttemptsCount(db: Kv.Db, key: string, n: nat, times: seq<int>)
    requires |times| >= 1 && n + |times| < MaxInt64
    requires forall i, j :: 0 <= i < j < |times| ==> times[i] <= times[j]
    requires times[|times| - 1] < times[0] + CounterTtl
    requires CounterAt(db, key, n, times[0])
    ensures Attempts(db, key, times).1 == n + |times|
    decreases |times|
  {
    if |times| == 1 {
      AttemptCounts(db, key, n, times[0], times[0]);
    } else {
      AttemptCounts(db, key, n, times[0], times[1]);
      var d := Attempt(db, key, times[0]).0;
      var rest := times[1..];
      assert rest[|rest| - 1] == times[|times| - 1];
      AttemptsCount(d, key, n + 1, rest);
    }
  }

  /**
   * Within one clock minute a client's first ten login attempts pass and every later one is
   * refused: the k-th attempt sees the count k.
   */
  lemma TenPerMinute(db: Kv.Db, ip: string, times: seq<int>)
    requires 1 <= |times| < MaxInt64
    requires forall i, j :: 0 <= i < j < |times| ==> 0 <= times[i] <= times[j]
    requires forall i :: 0 <= i < |times| ==> times[i] / WindowSec == times[0] / WindowSec
    requires Kv.Visible(db, CounterKey(ip, times[0] / WindowSec), times[0]).None?
    ensures Attempts(db, CounterKey(ip, times[0] / WindowSec), times).1 > RateLimit <==> |times| > RateLimit
  {
    var last := times[|times| - 1];
    assert last / WindowSec == times[0] / WindowSec;
    assert last < times[0] + CounterTtl;
    AttemptsCount(db, CounterKey(ip, times[0] / WindowSec), 0, times);
  }
}
