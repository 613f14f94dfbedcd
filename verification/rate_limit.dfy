/** TokenBucketRateLimitMiddleware: a token bucket per client key, refilled from the
    time elapsed since its last refill and charged one token per admitted request.

    Time is counted in .NET `DateTime` ticks (100 ns). The source computes
    `(int)(elapsed.TotalSeconds * 10)`; here that is the elapsed ticks times the
    refill rate, divided by the ticks in a second and truncated toward zero. Each
    call is one sequential step over the whole table. */
module RateLimit {
  import opened Wrappers
  import opened Http

  const Capacity: int := 100
  /** Tokens added per second. */
  const RefillRate: int := 10
  const TicksPerSecond: int := 10_000_000
  /** The bucket shared by every request without a remote address. */
  const GlobalKey: string := "global"
  const TooManyRequests: int := 429
  const RejectText: string := "Rate limit exceeded"

  datatype Bucket = Bucket(tokens: int, lastRefill: int)

  type Table = map<string, Bucket>

  datatype StepResult = StepResult(table: Table, admitted: bool)

  /** C#'s integer conversion of a quotient: truncation toward zero. */
  function TruncDiv(a: int, b: int): (q: int)
    requires b > 0
    ensures a >= 0 ==> q == a / b
    ensures a < 0 ==> q == -((-a) / b)
  {
    if a >= 0 then a / b else -((-a) / b)
  }

  /** Whole tokens earned over `elapsed` ticks. */
  function RefillAmount(elapsed: int): (n: int)
    ensures elapsed >= 0 ==> n >= 0 && n * TicksPerSecond <= elapsed * RefillRate < (n + 1) * TicksPerSecond
    ensures elapsed < 0 ==> n <= 0
  {
    TruncDiv(elapsed * RefillRate, TicksPerSecond)
  }

  /** The bucket key: the remote address, or the shared global key. */
  function Key(remoteIp: Option<string>): (k: string)
    ensures remoteIp.Some? ==> k == remoteIp.value
    ensures remoteIp.None? ==> k == GlobalKey
  {
    remoteIp.GetOr(GlobalKey)
  }

  /** `GetOrAdd(key, (capacity, now))`: the stored bucket, or a full one stamped `now`. */
  function Seed(table: Table, key: string, now: int): (b: Bucket)
    ensures key in table ==> b == table[key]
    ensures key !in table ==> b == Bucket(Capacity, now)
  {
    if key in table then table[key] else Bucket(Capacity, now)
  }

  /** The bucket after refilling, before it is charged. Under a non-decreasing clock
      the tokens grow by the whole tokens earned and are capped at the capacity;
      the refill stamp moves to `now` only when at least one token was earned, so
      time shorter than one token's worth keeps accumulating. */
  function Refill(b: Bucket, now: int): (r: Bucket)
    ensures r.tokens <= Capacity
    ensures now >= b.lastRefill ==>
      r.tokens == Min(Capacity, b.tokens + (now - b.lastRefill) * RefillRate / TicksPerSecond)
    ensures now >= b.lastRefill ==> r.lastRefill in {b.lastRefill, now}
    ensures (now - b.lastRefill) * RefillRate >= TicksPerSecond ==> r.lastRefill == now
    ensures 0 <= (now - b.lastRefill) * RefillRate < TicksPerSecond ==>
      r.lastRefill == b.lastRefill && r.tokens == Min(Capacity, b.tokens)
  {
    var add := RefillAmount(now - b.lastRefill);
    Bucket(Min(Capacity, b.tokens + add), if add > 0 then now else b.lastRefill)
  }

  function Min(a: int, b: int): int {
    if a <= b then a else b
  }

  /** A bucket the limiter can have produced by time `now`. */
  predicate ValidBucket(b: Bucket, now: int) {
    0 <= b.tokens <= Capacity && b.lastRefill <= now
  }

  predicate ValidTable(table: Table, now: int) {
    forall k :: k in table ==> ValidBucket(table[k], now)
  }

  /** One request's admission step. A request is admitted exactly when the refilled
      bucket holds a token; an admission stores one token fewer, a rejection stores
      the refilled count. Only the request's own key changes, and stored token
      counts stay within [0, capacity] while the clock does not go backwards. */
  function Step(table: Table, remoteIp: Option<string>, now: int): (r: StepResult)
    ensures r.table.Keys == table.Keys + {Key(remoteIp)}
    ensures forall k :: k in table && k != Key(remoteIp) ==> r.table[k] == table[k]
    ensures var refilled := Refill(Seed(table, Key(remoteIp), now), now);
      && (r.admitted <==> refilled.tokens > 0)
      && r.table[Key(remoteIp)].lastRefill == refilled.lastRefill
      && r.table[Key(remoteIp)].tokens == (if r.admitted then refilled.tokens - 1 else refilled.tokens)
    ensures ValidTable(table, now) ==> ValidTable(r.table, now)
  {
    var key := Key(remoteIp);
    var b := Refill(Seed(table, key, now), now);
    if b.tokens > 0 then StepResult(table[key := Bucket(b.tokens - 1, b.lastRefill)], true)
    else StepResult(table[key := b], false)
  }

  /** The response written to a rejected request; the next stage is not called. */
  function RejectResponse(): (r: Response)
    ensures r.status == TooManyRequests && r.body == PlainText(RejectText)
  {
    Response(TooManyRequests, "", PlainText(RejectText))
  }

  /** The admissions of `n` consecutive requests from one client at one instant. */
  function Burst(table: Table, remoteIp: Option<string>, now: int, n: nat): (r: (seq<bool>, Table))
    ensures |r.0| == n
    decreases n
  {
    if n == 0 then ([], table)
    else
      var s := Step(table, remoteIp, now);
      var rest := Burst(s.table, remoteIp, now, n - 1);
      ([s.admitted] + rest.0, rest.1)
  }

  /** One step on a bucket that earns nothing at `now`: it is charged a token if it has one. */
  lemma SettledStep(table: Table, remoteIp: Option<string>, now: int)
    requires Key(remoteIp) in table
    requires table[Key(remoteIp)].tokens <= Capacity
    requires RefillAmount(now - table[Key(remoteIp)].lastRefill) == 0
    ensures var b := table[Key(remoteIp)];
      var s := Step(table, remoteIp, now);
      && s.admitted == (b.tokens > 0)
      && s.table[Key(remoteIp)] == Bucket(if b.tokens > 0 then b.tokens - 1 else b.tokens, b.lastRefill)
      && s.table.Keys == table.Keys
  {
    assert Refill(table[Key(remoteIp)], now) == table[Key(remoteIp)];
  }

  /** The admission pattern of a burst, one request at a time. */
  lemma PrefixCons(n: nat, t: int)
    requires n > 0
    ensures [t > 0] + seq(n - 1, i => i < (if t > 0 then t - 1 else t)) == seq(n, i => i < t)
  {
  }

  /** Once the refill stamp is within one token's worth of `now`, a burst at `now`
      admits exactly the stored tokens and leaves every other key alone. */
  lemma {:induction false} BurstFromSettledBucket(table: Table, remoteIp: Option<string>, now: int, n: nat)
    requires Key(remoteIp) in table
    requires table[Key(remoteIp)].tokens <= Capacity
    requires RefillAmount(now - table[Key(remoteIp)].lastRefill) == 0
    ensures var b := table[Key(remoteIp)];
      && Burst(table, remoteIp, now, n).0 == seq(n, i => i < b.tokens)
      && Burst(table, remoteIp, now, n).1.Keys == table.Keys
      && Burst(table, remoteIp, now, n).1[Key(remoteIp)]
           == Bucket(if b.tokens > n then b.tokens - n else Min(b.tokens, 0), b.lastRefill)
    ensures forall k :: k in table && k != Key(remoteIp) ==> Burst(table, remoteIp, now, n).1[k] == table[k]
    decreases n
  {
    if n > 0 {
      var b := table[Key(remoteIp)];
      var s := Step(table, remoteIp, now);
      SettledStep(table, remoteIp, now);
      BurstFromSettledBucket(s.table, remoteIp, now, n - 1);
      PrefixCons(n, b.tokens);
    }
  }

  /** A burst at one instant admits a prefix of its requests as long as the refilled
      bucket's token count, and rejects the rest: no burst admits more than the
      capacity. */
  lemma {:induction false} BurstAdmitsRefilledTokens(table: Table, remoteIp: Option<string>, now: int, n: nat)
    requires n > 0
    requires Seed(table, Key(remoteIp), now).lastRefill <= now
    ensures var refilled := Refill(Seed(table, Key(remoteIp), now), now);
      Burst(table, remoteIp, now, n).0 == seq(n, i => i < refilled.tokens)
    ensures Burst(table, remoteIp, now, n).1.Keys == table.Keys + {Key(remoteIp)}
    ensures forall k :: k in table && k != Key(remoteIp) ==> Burst(table, remoteIp, now, n).1[k] == table[k]
  {
    var key := Key(remoteIp);
    var refilled := Refill(Seed(table, key, now), now);
    var s := Step(table, remoteIp, now);
    var b := s.table[key];
    assert b.lastRefill == refilled.lastRefill;
    assert RefillAmount(now - b.lastRefill) == 0;
    BurstFromSettledBucket(s.table, remoteIp, now, n - 1);
    PrefixCons(n, refilled.tokens);
  }

  /** A client never seen before, sending `n` requests at one instant, has the
      first 100 admitted and every later one rejected; other clients' buckets are
      untouched. */
  lemma FreshClientBurst(table: Table, remoteIp: Option<string>, now: int, n: nat)
    requires Key(remoteIp) !in table
    requires n > 0
    ensures Burst(table, remoteIp, now, n).0 == seq(n, i => i < Capacity)
    ensures forall k :: k in table ==> k in Burst(table, remoteIp, now, n).1
    ensures forall k :: k in table ==> Burst(table, remoteIp, now, n).1[k] == table[k]
  {
    BurstAdmitsRefilledTokens(table, remoteIp, now, n);
  }
}
