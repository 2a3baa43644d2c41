/** The caching client for the default-domain certificate: a cache with a
    jittered time to live, a retry loop with backoff, and health tracking. All
    of it runs under one lock, so callers and the background refresh interleave
    as whole operations. Times are nanoseconds. */
module CachedClient {
  import opened Wrappers

  const MAX_RETRIES: nat := 5
  const SECOND: int := 1_000_000_000
  const MAX_BACKOFF: int := 30 * SECOND
  const DEFAULT_TTL: int := 15 * 60 * SECOND
  const TTL_JITTER: real := 0.0833
  const BACKOFF_JITTER: real := 0.5

  // ---- jitter --------------------------------------------------------------------------------

  /** Conversion of a float to an integer drops the fraction. */
  function Truncate(x: real): int {
    if x >= 0.0 then x.Floor else -((-x).Floor)
  }

  /** `util.Jitter`, with the random draw as a parameter. */
  function Jitter(base: int, ratio: real, draw: real): int {
    if ratio >= 1.0 || ratio <= 0.0 then base
    else base + Truncate(draw * base as real * ratio - base as real * (ratio / 2.0))
  }

  predicate Draw(x: real) {
    0.0 <= x < 1.0
  }

  lemma DrawnShare(m: real, draw: real)
    requires m > 0.0 && Draw(draw)
    ensures 0.0 <= draw * m < m
  {
    assert (1.0 - draw) * m > 0.0;
  }

  lemma Centred(p: real, m: real, half: real)
    requires 0.0 <= p < m && half == m / 2.0
    ensures half > 0.0 && -half <= p - half < half
  {
  }

  lemma Regroup(a: real, b: real, c: real, bc: real)
    requires bc == b * c
    ensures a * b * c == a * bc
    ensures b * (c / 2.0) == bc / 2.0
  {
  }

  /** The offset that `Jitter` adds lies within half the ratio, on either side. */
  lemma SpreadBounds(b: real, ratio: real, draw: real, half: real)
    requires b > 0.0 && 0.0 < ratio && Draw(draw) && half == b * (ratio / 2.0)
    ensures half > 0.0 && -half <= draw * b * ratio - half < half
  {
    var m := b * ratio;
    assert m > 0.0;
    Regroup(draw, b, ratio, m);
    DrawnShare(m, draw);
    Centred(draw * m, m, half);
  }

  /** Dropping the fraction brings a value no further from zero. */
  lemma TruncateShrinks(x: real)
    ensures x >= 0.0 ==> 0.0 <= Truncate(x) as real <= x
    ensures x < 0.0 ==> x <= Truncate(x) as real <= 0.0
  {
    if x >= 0.0 {
      assert x.Floor as real <= x < x.Floor as real + 1.0;
    } else {
      assert (-x).Floor as real <= -x < (-x).Floor as real + 1.0;
    }
  }

  /** Adding a truncated offset smaller than `half` stays that close to the base. */
  lemma TruncatedOffset(base: int, x: real, half: real)
    requires half > 0.0 && -half <= x < half
    ensures base as real - half <= (base + Truncate(x)) as real < base as real + half
  {
    TruncateShrinks(x);
    assert (base + Truncate(x)) as real == base as real + Truncate(x) as real;
  }

  /** The jittered value stays within half the ratio of its base, on either side. */
  lemma JitterBounds(base: int, ratio: real, draw: real)
    requires base > 0 && 0.0 < ratio < 1.0 && Draw(draw)
    ensures Jitter(base, ratio, draw) as real < base as real + base as real * (ratio / 2.0)
    ensures Jitter(base, ratio, draw) as real >= base as real - base as real * (ratio / 2.0)
  {
    var b := base as real;
    var half := b * (ratio / 2.0);
    SpreadBounds(b, ratio, draw, half);
    TruncatedOffset(base, draw * b * ratio - half, half);
  }

  lemma TruncateNear(x: real)
    ensures -1.0 < Truncate(x) as real - x < 1.0
  {
    if x >= 0.0 {
      assert x.Floor as real <= x < x.Floor as real + 1.0;
    } else {
      assert (-x).Floor as real <= -x < (-x).Floor as real + 1.0;
    }
  }

  lemma NearOffset(base: int, x: real)
    ensures -1.0 < (base + Truncate(x)) as real - (base as real + x) < 1.0
  {
    TruncateNear(x);
    assert (base + Truncate(x)) as real == base as real + Truncate(x) as real;
  }

  lemma Spread(draw: real, m: real)
    ensures draw * m - m / 2.0 == (draw - 0.5) * m
  {
  }

  lemma OffsetIsSpread(draw: real, b: real, ratio: real)
    ensures draw * b * ratio - b * (ratio / 2.0) == (draw - 0.5) * (b * ratio)
  {
    var m := b * ratio;
    Regroup(draw, b, ratio, m);
    Spread(draw, m);
  }

  /** Within those bounds it follows the draw evenly, up to the fraction that is dropped. */
  lemma JitterFollowsDraw(base: int, ratio: real, draw: real)
    requires 0.0 < ratio < 1.0
    ensures var exact := base as real + (draw - 0.5) * (base as real * ratio);
            -1.0 < Jitter(base, ratio, draw) as real - exact < 1.0
  {
    OffsetIsSpread(draw, base as real, ratio);
    NearOffset(base, draw * base as real * ratio - base as real * (ratio / 2.0));
  }

  // ---- one fetch -----------------------------------------------------------------------------

  type Cert = string

  datatype Answer = Success(cert: Cert) | NotFound | Failure

  datatype FetchError = CertNotFound | Exhausted

  /** A cached certificate, when it was stored and when it expires. */
  datatype Entry = Entry(cert: Cert, storedAt: int, exp: int)

  datatype Client = Client(cache: Option<Entry>, fails: nat, healthy: bool)

  const NEW_CLIENT := Client(None, 0, true)

  function Failed(c: Client): Client {
    c.(fails := c.fails + 1, healthy := c.healthy && c.fails + 1 < MAX_RETRIES)
  }

  /** How many of the answers a fetch asks for: up to the first that is not a failure. */
  function Asked(answers: seq<Answer>): (n: nat)
    ensures n <= |answers|
    ensures forall i | 0 <= i < n - 1 :: answers[i].Failure?
    ensures n < |answers| ==> n > 0 && !answers[n - 1].Failure?
  {
    if answers == [] then 0
    else if !answers[0].Failure? then 1
    else 1 + Asked(answers[1..])
  }

  function Fetch(c: Client, answers: seq<Answer>, ttl: int, now: int): (Client, Result<Cert, FetchError>)
    decreases |answers|
  {
    if answers == [] then (c, Err(Exhausted))
    else
      match answers[0]
      case Success(cert) => (Client(Some(Entry(cert, now, now + ttl)), 0, true), Ok(cert))
      case NotFound => (Client(c.cache, 0, true), Err(CertNotFound))
      case Failure => Fetch(Failed(c), answers[1..], ttl, now)
  }

  /** A fetch that fails serves nothing and leaves the cached certificate alone; one
      that succeeds serves and stores what the last call answered. */
  lemma {:induction false} FetchOutcome(c: Client, answers: seq<Answer>, ttl: int, now: int)
    ensures var (c', r) := Fetch(c, answers, ttl, now);
            var n := Asked(answers);
            && (r.Err? ==> c'.cache == c.cache)
            && (r.Ok? <==> n > 0 && answers[n - 1].Success?)
            && (r.Ok? ==> r.value == answers[n - 1].cert && c'.cache == Some(Entry(r.value, now, now + ttl)))
            && (r == Err(CertNotFound) <==> n > 0 && answers[n - 1].NotFound?)
    decreases |answers|
  {
    if answers != [] && answers[0].Failure? {
      FetchOutcome(Failed(c), answers[1..], ttl, now);
    }
  }

  /** One attempt of the retry loop. */
  lemma FetchStep(c: Client, answers: seq<Answer>, i: nat, ttl: int, now: int)
    requires i < |answers|
    ensures Asked(answers[i..]) == if answers[i].Failure? then 1 + Asked(answers[i + 1..]) else 1
    ensures Fetch(c, answers[i..], ttl, now) ==
            match answers[i]
            case Success(cert) => (Client(Some(Entry(cert, now, now + ttl)), 0, true), Ok(cert))
            case NotFound => (Client(c.cache, 0, true), Err(CertNotFound))
            case Failure => Fetch(Failed(c), answers[i + 1..], ttl, now)
  {
    assert answers[i..][0] == answers[i] && answers[i..][1..] == answers[i + 1..];
  }

  // ---- sleeping ------------------------------------------------------------------------------

  function Pow2(n: nat): nat {
    if n == 0 then 1 else 2 * Pow2(n - 1)
  }

  /** The backoff before attempt `i`, without jitter. */
  function Backoff(i: nat): int
    requires i > 0
  {
    var b := Pow2(i - 1) * SECOND;
    if b > MAX_BACKOFF then MAX_BACKOFF else b
  }

  function Sleep(i: nat, draw: real): int {
    if i == 0 then 0 else Jitter(Backoff(i), BACKOFF_JITTER, draw)
  }

  /** Total sleep of the first `n` attempts. */
  function Slept(draws: seq<real>, n: nat): int
    requires n <= |draws|
  {
    if n == 0 then 0 else Slept(draws, n - 1) + Sleep(n - 1, draws[n - 1])
  }

  lemma SleepBound(i: nat, draw: real)
    requires 0 < i < MAX_RETRIES && Draw(draw)
    ensures 3 * Backoff(i) <= 4 * Sleep(i, draw) <= 5 * Backoff(i)
    ensures Backoff(i) == if i == 1 then SECOND else if i == 2 then 2 * SECOND else if i == 3 then 4 * SECOND else 8 * SECOND
  {
    assert Pow2(0) == 1 && Pow2(1) == 2 && Pow2(2) == 4 && Pow2(3) == 8;
    JitterBounds(Backoff(i), BACKOFF_JITTER, draw);
  }

  lemma SleptBound(draws: seq<real>, n: nat)
    requires n <= MAX_RETRIES && n <= |draws| && forall i | 0 <= i < |draws| :: Draw(draws[i])
    ensures 0 <= Slept(draws, n) && 100 * Slept(draws, n) <= 1875 * SECOND
    ensures 4 * Slept(draws, n) >= 3 * (if n <= 1 then 0 else if n == 2 then 1 else if n == 3 then 3 else if n == 4 then 7 else 15) * SECOND
  {
    if n > 1 { SleepBound(1, draws[1]); }
    if n > 2 { SleepBound(2, draws[2]); }
    if n > 3 { SleepBound(3, draws[3]); }
    if n > 4 { SleepBound(4, draws[4]); }
    assert n > 0 ==> Slept(draws, 1) == Slept(draws, 0) + Sleep(0, draws[0]);
    assert n > 1 ==> Slept(draws, 2) == Slept(draws, 1) + Sleep(1, draws[1]);
    assert n > 2 ==> Slept(draws, 3) == Slept(draws, 2) + Sleep(2, draws[2]);
    assert n > 3 ==> Slept(draws, 4) == Slept(draws, 3) + Sleep(3, draws[3]);
    assert n > 4 ==> Slept(draws, 5) == Slept(draws, 4) + Sleep(4, draws[4]);
  }

  /** One fetch makes at most five calls and sleeps at most 18.75 seconds, however the
      server answers and the jitter falls; one that gives up made five and slept at
      least 11.25 seconds between them. */
  lemma FetchCost(answers: seq<Answer>, draws: seq<real>)
    requires |answers| == |draws| == MAX_RETRIES && forall i | 0 <= i < |draws| :: Draw(draws[i])
    ensures Asked(answers) <= 5
    ensures 0 <= Slept(draws, Asked(answers)) && 100 * Slept(draws, Asked(answers)) <= 1875 * SECOND
    ensures (forall i | 0 <= i < |answers| :: answers[i].Failure?) ==>
              Asked(answers) == 5 && 100 * Slept(draws, Asked(answers)) >= 1125 * SECOND
  {
    SleptBound(draws, Asked(answers));
  }

  // ---- operations in any order ---------------------------------------------------------------

  /** One locked operation, with everything the world decides: what the server would
      answer, the draw for the time to live, and the clock when looking and storing. */
  datatype Op =
    | Get(now: int, answers: seq<Answer>, draw: real, storeAt: int)
    | Refresh(answers: seq<Answer>, draw: real, storeAt: int)

  predicate ValidOp(op: Op) {
    |op.answers| == MAX_RETRIES && Draw(op.draw)
  }

  predicate FromCache(c: Client, op: Op) {
    op.Get? && c.cache.Some? && op.now < c.cache.value.exp
  }

  function Do(ttl: int, c: Client, op: Op): (Client, Result<Cert, FetchError>) {
    if FromCache(c, op) then (c, Ok(c.cache.value.cert))
    else Fetch(c, op.answers, Jitter(ttl, TTL_JITTER, op.draw), op.storeAt)
  }

  /** The server calls an operation makes. */
  function CallsOf(c: Client, op: Op): seq<Answer> {
    if FromCache(c, op) then [] else op.answers[..Asked(op.answers)]
  }

  function After(ttl: int, ops: seq<Op>): Client {
    if ops == [] then NEW_CLIENT else Do(ttl, After(ttl, ops[..|ops| - 1]), ops[|ops| - 1]).0
  }

  function AllCalls(ttl: int, ops: seq<Op>): seq<Answer> {
    if ops == [] then []
    else AllCalls(ttl, ops[..|ops| - 1]) + CallsOf(After(ttl, ops[..|ops| - 1]), ops[|ops| - 1])
  }

  /** The failures since the last success or 404. */
  function TrailingFails(calls: seq<Answer>): nat {
    if calls == [] || !calls[|calls| - 1].Failure? then 0 else 1 + TrailingFails(calls[..|calls| - 1])
  }

  predicate Tracks(c: Client, calls: seq<Answer>) {
    c.fails == TrailingFails(calls) && (c.healthy <==> c.fails < 5)
  }

  lemma {:induction false} FetchTracks(c: Client, calls: seq<Answer>, answers: seq<Answer>, ttl: int, now: int)
    requires Tracks(c, calls)
    ensures Tracks(Fetch(c, answers, ttl, now).0, calls + answers[..Asked(answers)])
    decreases |answers|
  {
    if answers == [] {
      assert calls + answers[..0] == calls;
    } else {
      var a := answers[0];
      assert (calls + [a])[..|calls|] == calls;
      if a.Failure? {
        FetchTracks(Failed(c), calls + [a], answers[1..], ttl, now);
        assert calls + [a] + answers[1..][..Asked(answers[1..])] == calls + answers[..Asked(answers)];
      } else {
        assert answers[..1] == [a];
      }
    }
  }

  /** Whatever callers and refreshes do, in whatever order: the counter is the
      number of failed calls since the last success or 404, and the client is
      healthy exactly while that is below five. */
  lemma {:induction false} HealthTracksCalls(ttl: int, ops: seq<Op>)
    ensures Tracks(After(ttl, ops), AllCalls(ttl, ops))
  {
    if ops == [] {
    } else {
      var init, op := ops[..|ops| - 1], ops[|ops| - 1];
      HealthTracksCalls(ttl, init);
      var c := After(ttl, init);
      if FromCache(c, op) {
        assert AllCalls(ttl, ops) == AllCalls(ttl, init);
      } else {
        FetchTracks(c, AllCalls(ttl, init), op.answers, Jitter(ttl, TTL_JITTER, op.draw), op.storeAt);
      }
    }
  }

  ghost predicate EntryOk(ttl: int, e: Entry) {
    var half := ttl as real * (0.0833 / 2.0);
    ttl as real - half <= (e.exp - e.storedAt) as real < ttl as real + half
  }

  lemma {:induction false} CacheEntryOk(ttl: int, ops: seq<Op>)
    requires ttl > 0 && forall i | 0 <= i < |ops| :: ValidOp(ops[i])
    ensures var c := After(ttl, ops); c.cache.Some? ==> EntryOk(ttl, c.cache.value)
  {
    if ops == [] {
    } else {
      var init, op := ops[..|ops| - 1], ops[|ops| - 1];
      CacheEntryOk(ttl, init);
      JitterBounds(ttl, TTL_JITTER, op.draw);
      FetchOutcome(After(ttl, init), op.answers, Jitter(ttl, TTL_JITTER, op.draw), op.storeAt);
    }
  }

  /** A certificate is served from the cache for TTL * (1 - 0.0833 / 2) at least. */
  lemma StoredIsServed(ttl: int, ops: seq<Op>, op: Op)
    requires ttl > 0 && forall i | 0 <= i < |ops| :: ValidOp(ops[i])
    requires After(ttl, ops).cache.Some? && op.Get?
    requires (op.now - After(ttl, ops).cache.value.storedAt) as real < ttl as real * (1.0 - 0.0833 / 2.0)
    ensures FromCache(After(ttl, ops), op)
  {
    CacheEntryOk(ttl, ops);
    var e := After(ttl, ops).cache.value;
    assert (op.now - e.storedAt) as real < (e.exp - e.storedAt) as real;
  }

  /** A certificate served from the cache is younger than TTL * (1 + 0.0833 / 2). */
  lemma ServedIsYoung(ttl: int, ops: seq<Op>, op: Op)
    requires ttl > 0 && forall i | 0 <= i < |ops| :: ValidOp(ops[i])
    requires FromCache(After(ttl, ops), op)
    ensures var e := After(ttl, ops).cache.value;
            && Do(ttl, After(ttl, ops), op) == (After(ttl, ops), Ok(e.cert))
            && (op.now - e.storedAt) as real < ttl as real * (1.0 + 0.0833 / 2.0)
  {
    CacheEntryOk(ttl, ops);
    var e := After(ttl, ops).cache.value;
    assert (op.now - e.storedAt) as real <= (e.exp - e.storedAt) as real;
  }

  /** And while the cached certificate is valid, a caller costs no call to the server; once it
      is due, a caller is given what the server answers. */
  lemma ValidCacheNeedsNoCall(ttl: int, c: Client, op: Op)
    requires op.Get? && ValidOp(op) && c.cache.Some?
    ensures op.now < c.cache.value.exp ==> Do(ttl, c, op) == (c, Ok(c.cache.value.cert)) && CallsOf(c, op) == []
    ensures op.now >= c.cache.value.exp ==>
              && CallsOf(c, op) != []
              && (Do(ttl, c, op).1.Ok? ==> Success(Do(ttl, c, op).1.value) == CallsOf(c, op)[|CallsOf(c, op)| - 1])
  {
    FetchOutcome(c, op.answers, Jitter(ttl, TTL_JITTER, op.draw), op.storeAt);
  }

  /** A certificate in the cache was once answered by the server. */
  lemma {:induction false} CachedWasAnswered(ttl: int, ops: seq<Op>)
    ensures var c := After(ttl, ops); c.cache.Some? ==> Success(c.cache.value.cert) in AllCalls(ttl, ops)
  {
    if ops == [] {
    } else {
      var init, op := ops[..|ops| - 1], ops[|ops| - 1];
      CachedWasAnswered(ttl, init);
      FetchOutcome(After(ttl, init), op.answers, Jitter(ttl, TTL_JITTER, op.draw), op.storeAt);
    }
  }

  // ---- the background loop -------------------------------------------------------------------

  /** How long `refreshLoop` waits before the next refresh. */
  function NextWait(c: Client, ttl: int, now: int): int {
    var next := if c.cache.Some? then c.cache.value.exp else now + ttl;
    if next < now then 0 else next - now
  }

  /** After a refresh that fails, the loop goes on without any wait exactly when the
      certificate in the cache is due; on a 404 it did not sleep either. */
  lemma FailedRefreshSpinsIffDue(c: Client, ttl: int, op: Op, draws: seq<real>, now: int)
    requires ttl > 0 && op.Refresh? && ValidOp(op) && |draws| == MAX_RETRIES
    requires Do(ttl, c, op).1.Err?
    ensures var c' := Do(ttl, c, op).0;
            && (NextWait(c', ttl, now) == 0 <==> c.cache.Some? && c.cache.value.exp <= now)
            && (op.answers[0] == NotFound ==> Slept(draws, Asked(op.answers)) == 0)
  {
    FetchOutcome(c, op.answers, Jitter(ttl, TTL_JITTER, op.draw), op.storeAt);
    assert Slept(draws, 1) == Slept(draws, 0) + Sleep(0, draws[0]);
  }

  lemma JitteredTtlPositive(ttl: int, draw: real)
    requires ttl > 0 && Draw(draw)
    ensures Jitter(ttl, TTL_JITTER, draw) > 0
  {
    JitterBounds(ttl, TTL_JITTER, draw);
  }

  /** After a refresh that succeeds, it waits exactly until the stored certificate
      expires, and so for some time if it looks at the clock soon enough. */
  lemma RefreshedWaits(c: Client, ttl: int, op: Op, now: int)
    requires ttl > 0 && op.Refresh? && ValidOp(op) && Do(ttl, c, op).1.Ok?
    ensures var exp := op.storeAt + Jitter(ttl, TTL_JITTER, op.draw);
            && exp > op.storeAt
            && (NextWait(Do(ttl, c, op).0, ttl, now) > 0 <==> now < exp)
  {
    FetchOutcome(c, op.answers, Jitter(ttl, TTL_JITTER, op.draw), op.storeAt);
    JitteredTtlPositive(ttl, op.draw);
  }

  /** One turn of `refreshLoop`: it looks at the clock, waits, callers come and go
      meanwhile, and it fetches no earlier than the wait allows. */
  datatype Turn = Turn(looked: int, between: seq<Op>, fired: int, refresh: Op)

  predicate ValidTurn(ttl: int, c: Client, t: Turn) {
    && (forall i | 0 <= i < |t.between| :: t.between[i].Get? && ValidOp(t.between[i]))
    && t.refresh.Refresh? && ValidOp(t.refresh)
    && t.fired >= t.looked + NextWait(c, ttl, t.looked)
  }

  function DoAll(ttl: int, c: Client, ops: seq<Op>): Client {
    if ops == [] then c else Do(ttl, DoAll(ttl, c, ops[..|ops| - 1]), ops[|ops| - 1]).0
  }

  function AfterTurn(ttl: int, c: Client, t: Turn): Client {
    Do(ttl, DoAll(ttl, c, t.between), t.refresh).0
  }

  /** Turns follow each other, the clock never running backwards. */
  predicate ValidTurns(ttl: int, c: Client, ts: seq<Turn>, from: int)
    decreases |ts|
  {
    ts == [] || (from <= ts[0].looked && ValidTurn(ttl, c, ts[0])
                 && ValidTurns(ttl, AfterTurn(ttl, c, ts[0]), ts[1..], ts[0].fired))
  }

  function TotalWait(ttl: int, c: Client, ts: seq<Turn>): int
    decreases |ts|
  {
    if ts == [] then 0
    else NextWait(c, ttl, ts[0].looked) + TotalWait(ttl, AfterTurn(ttl, c, ts[0]), ts[1..])
  }

  /** The server has no certificate to give. */
  predicate Barren(op: Op) {
    forall a | a in op.answers :: !a.Success?
  }

  predicate BarrenTurn(t: Turn) {
    Barren(t.refresh) && forall i | 0 <= i < |t.between| :: Barren(t.between[i])
  }

  lemma BarrenKeepsCache(ttl: int, c: Client, op: Op)
    requires Barren(op)
    ensures Do(ttl, c, op).0.cache == c.cache
  {
    FetchOutcome(c, op.answers, Jitter(ttl, TTL_JITTER, op.draw), op.storeAt);
  }

  lemma {:induction false} BarrenOpsKeepCache(ttl: int, c: Client, ops: seq<Op>)
    requires forall i | 0 <= i < |ops| :: Barren(ops[i])
    ensures DoAll(ttl, c, ops).cache == c.cache
  {
    if ops == [] {
    } else {
      BarrenOpsKeepCache(ttl, c, ops[..|ops| - 1]);
      BarrenKeepsCache(ttl, DoAll(ttl, c, ops[..|ops| - 1]), ops[|ops| - 1]);
    }
  }

  lemma BarrenTurnKeepsCache(ttl: int, c: Client, t: Turn)
    requires BarrenTurn(t)
    ensures AfterTurn(ttl, c, t).cache == c.cache
  {
    BarrenOpsKeepCache(ttl, c, t.between);
    BarrenKeepsCache(ttl, DoAll(ttl, c, t.between), t.refresh);
  }

  /** A scheduled refresh never comes before the cached certificate expires; so when
      it fails, the next one follows without any wait, unless a caller stored a
      certificate in between. */
  lemma FailedTurnSpins(ttl: int, c: Client, t: Turn, now: int)
    requires ttl > 0 && ValidTurn(ttl, c, t) && c.cache.Some?
    ensures c.cache.value.exp <= t.fired
    ensures var c' := DoAll(ttl, c, t.between);
            c'.cache == c.cache && Do(ttl, c', t.refresh).1.Err? && t.fired <= now ==>
              AfterTurn(ttl, c, t).cache == c.cache && NextWait(AfterTurn(ttl, c, t), ttl, now) == 0
  {
    FetchOutcome(DoAll(ttl, c, t.between), t.refresh.answers, Jitter(ttl, TTL_JITTER, t.refresh.draw), t.refresh.storeAt);
  }

  /** For as long as the server has no certificate to give: with one in the cache the
      loop waits once, until that expires, and never again; without one it waits
      a whole time to live every time. */
  lemma {:induction false} WaitsWhileBarren(ttl: int, c: Client, ts: seq<Turn>, from: int)
    requires ttl > 0 && ValidTurns(ttl, c, ts, from) && forall i | 0 <= i < |ts| :: BarrenTurn(ts[i])
    ensures c.cache.Some? && c.cache.value.exp <= from ==> TotalWait(ttl, c, ts) == 0
    ensures c.cache.Some? && ts != [] ==> TotalWait(ttl, c, ts) == NextWait(c, ttl, ts[0].looked)
    ensures c.cache.None? ==> TotalWait(ttl, c, ts) == |ts| * ttl
    decreases |ts|
  {
    if ts == [] {
    } else {
      BarrenTurnKeepsCache(ttl, c, ts[0]);
      WaitsWhileBarren(ttl, AfterTurn(ttl, c, ts[0]), ts[1..], ts[0].fired);
      assert |ts| * ttl == (|ts| - 1) * ttl + ttl;
    }
  }

  /** Turns in which the server answers 404 the moment it is asked. */
  function HotTurns(k: nat, now: int): (ts: seq<Turn>)
    ensures |ts| == k
  {
    if k == 0 then []
    else [Turn(now, [], now, Refresh([NotFound, NotFound, NotFound, NotFound, NotFound], 0.0, now))] + HotTurns(k - 1, now)
  }

  /** So from a certificate that is due, any number of refreshes can follow each other
      at one and the same time, each a call to the server, without wait or sleep. */
  lemma {:induction false} HotLoop(ttl: int, c: Client, k: nat, now: int)
    requires ttl > 0 && c.cache.Some? && c.cache.value.exp <= now
    ensures var ts := HotTurns(k, now);
            && ValidTurns(ttl, c, ts, now) && TotalWait(ttl, c, ts) == 0
            && forall i | 0 <= i < k :: ts[i].fired == now && Asked(ts[i].refresh.answers) == 1
    decreases k
  {
    if k == 0 {
    } else {
      var t := HotTurns(k, now)[0];
      assert HotTurns(k, now)[1..] == HotTurns(k - 1, now);
      assert DoAll(ttl, c, []) == c;
      assert Barren(t.refresh);
      BarrenTurnKeepsCache(ttl, c, t);
      HotLoop(ttl, AfterTurn(ttl, c, t), k - 1, now);
    }
  }

  // ---- the object ----------------------------------------------------------------------------

  class Cached {
    const ttl: int
    var cache: Option<Entry>
    var consecutiveFails: nat
    var healthy: bool

    function Value(): Client
      reads this
    {
      Client(cache, consecutiveFails, healthy)
    }

    constructor (ttl: int)
      ensures this.ttl > 0 && (ttl > 0 ==> this.ttl == ttl) && (ttl <= 0 ==> this.ttl == 900 * SECOND)
      ensures Value() == NEW_CLIENT
    {
      this.ttl := if ttl <= 0 then DEFAULT_TTL else ttl;
      cache, consecutiveFails, healthy := None, 0, true;
    }

    /** What one answer does to the client, and the result if it ends the fetch. */
    method Record(answer: Answer, ttlDraw: real, storeAt: int) returns (done: Option<Result<Cert, FetchError>>)
      modifies this
      ensures answer.Failure? ==> done == None && Value() == Failed(old(Value()))
      ensures answer.NotFound? ==> done == Some(Err(CertNotFound)) && Value() == Client(old(cache), 0, true)
      ensures answer.Success? ==>
                && done == Some(Ok(answer.cert))
                && Value() == Client(Some(Entry(answer.cert, storeAt, storeAt + Jitter(ttl, TTL_JITTER, ttlDraw))), 0, true)
    {
      match answer {
        case Success(cert) =>
          cache := Some(Entry(cert, storeAt, storeAt + Jitter(ttl, TTL_JITTER, ttlDraw)));
          consecutiveFails, healthy := 0, true;
          done := Some(Ok(cert));
        case NotFound =>
          consecutiveFails, healthy := 0, true;
          done := Some(Err(CertNotFound));
        case Failure =>
          consecutiveFails := consecutiveFails + 1;
          if consecutiveFails >= MAX_RETRIES && healthy {
            healthy := false;
          }
          done := None;
      }
    }

    /** The retry loop: what it leaves behind, how often it called and how long it slept. */
    method FetchWithRetryLocked(answers: seq<Answer>, draws: seq<real>, ttlDraw: real, storeAt: int)
      returns (r: Result<Cert, FetchError>, calls: nat, slept: int)
      requires |answers| == |draws| == MAX_RETRIES
      modifies this
      ensures (Value(), r) == Fetch(old(Value()), answers, Jitter(ttl, TTL_JITTER, ttlDraw), storeAt)
      ensures calls == Asked(answers) && slept == Slept(draws, calls)
    {
      var attempt: nat := 0;
      slept := 0;
      ghost var jittered := Jitter(ttl, TTL_JITTER, ttlDraw);
      while attempt < MAX_RETRIES
        invariant attempt <= MAX_RETRIES && slept == Slept(draws, attempt)
        invariant Fetch(Value(), answers[attempt..], jittered, storeAt) == Fetch(old(Value()), answers, jittered, storeAt)
        invariant Asked(answers) == attempt + Asked(answers[attempt..])
      {
        FetchStep(Value(), answers, attempt, jittered, storeAt);
        if attempt > 0 {
          slept := slept + Sleep(attempt, draws[attempt]);
        }
        var done := Record(answers[attempt], ttlDraw, storeAt);
        if done.Some? {
          return done.value, attempt + 1, slept;
        }
        attempt := attempt + 1;
      }
      return Err(Exhausted), attempt, slept;
    }

    /** A caller's request, under the lock. */
    method GetTLSCertificate(op: Op, draws: seq<real>) returns (r: Result<Cert, FetchError>, calls: nat)
      requires op.Get? && ValidOp(op) && |draws| == MAX_RETRIES
      modifies this
      ensures (Value(), r) == Do(ttl, old(Value()), op)
      ensures calls == |CallsOf(old(Value()), op)|
    {
      if cache.Some? && op.now < cache.value.exp {
        return Ok(cache.value.cert), 0;
      }
      var slept;
      r, calls, slept := FetchWithRetryLocked(op.answers, draws, op.draw, op.storeAt);
    }
  }
}
