/** The per-IP rate limiter table: one token bucket per client address, and a cleanup that drops the
    buckets of addresses not seen for ten minutes.

    Times are int nanoseconds. A bucket is a real number of tokens that starts full, refills at a
    constant rate up to its burst, and loses a token only on an allowed request.

    A request takes two steps. It enters under the table's lock, where the table is swept and the request gets
    hold of its bucket; it asks the bucket after it has left the lock. Other requests come in between. */
module RateLimit {

  type IP = string

  /** Tokens per nanosecond, and the bucket size. */
  datatype Config = Config(rate: real, burst: nat)

  datatype Bucket = Bucket(tokens: real, last: int)

  const MINUTE := 60_000_000_000
  const IDLE := 10 * MINUTE
  const SWEEP := 5 * MINUTE

  function Elapsed(b: Bucket, t: int): real {
    if t < b.last then 0.0 else (t - b.last) as real
  }

  /** The tokens of a bucket at time `t`. */
  function TokensAt(cfg: Config, b: Bucket, t: int): real {
    var refilled := b.tokens + cfg.rate * Elapsed(b, t);
    if refilled > cfg.burst as real then cfg.burst as real else refilled
  }

  function Allow(cfg: Config, b: Bucket, t: int): (bool, Bucket) {
    var left := TokensAt(cfg, b, t) - 1.0;
    if left >= 0.0 then (true, Bucket(left, t)) else (false, b)
  }

  function Full(cfg: Config, t: int): Bucket {
    Bucket(cfg.burst as real, t)
  }

  // ---------------------------------------------------------------- the table

  /** An address's entry points to its bucket, which requests keep hold of when the entry is dropped. */
  datatype Entry = Entry(bucket: nat, lastSeen: int)

  datatype Table = Table(entries: map<IP, Entry>, lastCleanup: int, buckets: seq<Bucket>)

  function Cleanup(table: Table, now: int): Table {
    if now - table.lastCleanup < SWEEP then table
    else table.(entries := map k | k in table.entries && table.entries[k].lastSeen >= now - IDLE :: table.entries[k], lastCleanup := now)
  }

  /** The locked part of a request: sweep, find or make the bucket, mark the address as seen. */
  function Lookup(cfg: Config, table: Table, ip: IP, swept: int, seen: int): (nat, Table) {
    var clean := Cleanup(table, swept);
    if ip in clean.entries then
      var b := clean.entries[ip].bucket;
      (b, clean.(entries := clean.entries[ip := Entry(b, seen)]))
    else
      var b := |clean.buckets|;
      (b, clean.(entries := clean.entries[ip := Entry(b, seen)], buckets := clean.buckets + [Full(cfg, seen)]))
  }

  function AskBucket(cfg: Config, table: Table, b: nat, at: int): (bool, Table)
    requires b < |table.buckets|
  {
    var (ok, after) := Allow(cfg, table.buckets[b], at);
    (ok, table.(buckets := table.buckets[b := after]))
  }

  // ---------------------------------------------------------------- interleaved requests

  /** Request `r` of an address enters, at the clock readings of its sweep and of its mark, or asks. */
  datatype Step = Enter(r: nat, ip: IP, swept: int, seen: int) | Ask(r: nat, at: int)

  /** The limiter and the buckets that requests hold. */
  datatype Evicting = Evicting(table: Table, pending: map<nat, nat>)

  /** The answers a step gives, and the next state. A request without an address passes at once. */
  function Serve(cfg: Config, s: Evicting, step: Step): (seq<bool>, Evicting) {
    match step
    case Enter(r, ip, swept, seen) =>
      if ip == "" then ([true], s)
      else if r in s.pending then ([], s)
      else
        var (b, table) := Lookup(cfg, s.table, ip, swept, seen);
        ([], Evicting(table, s.pending[r := b]))
    case Ask(r, at) =>
      if r !in s.pending || s.pending[r] >= |s.table.buckets| then ([], s)
      else
        var (ok, table) := AskBucket(cfg, s.table, s.pending[r], at);
        ([ok], Evicting(table, s.pending - {r}))
  }

  function Decisions(cfg: Config, s: Evicting, steps: seq<Step>): seq<bool>
    decreases |steps|
  {
    if steps == [] then []
    else
      var (answers, next) := Serve(cfg, s, steps[0]);
      answers + Decisions(cfg, next, steps[1..])
  }

  /** The reference: the same limiter, keeping every bucket for ever. */
  datatype Keeping = Keeping(buckets: map<IP, Bucket>, pending: map<nat, IP>)

  function ServeKeeping(cfg: Config, k: Keeping, step: Step): (seq<bool>, Keeping) {
    match step
    case Enter(r, ip, swept, seen) =>
      if ip == "" then ([true], k)
      else if r in k.pending then ([], k)
      else ([], Keeping(if ip in k.buckets then k.buckets else k.buckets[ip := Full(cfg, seen)], k.pending[r := ip]))
    case Ask(r, at) =>
      if r !in k.pending || k.pending[r] !in k.buckets then ([], k)
      else
        var ip := k.pending[r];
        var (ok, after) := Allow(cfg, k.buckets[ip], at);
        ([ok], Keeping(k.buckets[ip := after], k.pending - {r}))
  }

  function DecisionsKeeping(cfg: Config, k: Keeping, steps: seq<Step>): seq<bool>
    decreases |steps|
  {
    if steps == [] then []
    else
      var (answers, next) := ServeKeeping(cfg, k, steps[0]);
      answers + DecisionsKeeping(cfg, next, steps[1..])
  }

  function Start(now: int): Evicting {
    Evicting(Table(map[], now, []), map[])
  }

  const NOBODY := Keeping(map[], map[])

  /** When each waiting request was marked, after one more step. */
  function Entered(entered: map<nat, int>, step: Step): map<nat, int> {
    match step
    case Enter(r, ip, _, seen) => if ip == "" || r in entered then entered else entered[r := seen]
    case Ask(r, _) => entered - {r}
  }

  /** The step reads a clock that does not go back, and a request that asks does so at most `lag` after it was
      marked. */
  predicate InTime(step: Step, now: int, entered: map<nat, int>, lag: int) {
    match step
    case Enter(_, _, swept, seen) => now <= swept <= seen
    case Ask(r, at) => now <= at && (r in entered ==> at <= entered[r] + lag)
  }

  function Clock(step: Step): int {
    match step case Enter(_, _, _, seen) => seen case Ask(_, at) => at
  }

  /** Any interleaving of requests on such a clock. */
  ghost predicate Timely(steps: seq<Step>, now: int, entered: map<nat, int>, lag: int)
    decreases |steps|
  {
    steps == [] || (InTime(steps[0], now, entered, lag) && Timely(steps[1..], Clock(steps[0]), Entered(entered, steps[0]), lag))
  }

  // ---------------------------------------------------------------- buckets

  /** The bucket is full from `now` on. */
  ghost predicate FullFrom(cfg: Config, b: Bucket, now: int) {
    b.tokens + cfg.rate * Elapsed(b, now) >= cfg.burst as real
  }

  /** No request from `now` on can tell the two buckets apart. */
  ghost predicate Alike(cfg: Config, b: Bucket, c: Bucket, now: int) {
    b == c || (FullFrom(cfg, b, now) && FullFrom(cfg, c, now))
  }

  lemma Scales(rate: real, a: real, b: real)
    requires rate >= 0.0 && a <= b
    ensures rate * a <= rate * b
  {
  }

  lemma FullStays(cfg: Config, b: Bucket, now: int, later: int)
    requires cfg.rate >= 0.0 && now <= later && FullFrom(cfg, b, now)
    ensures FullFrom(cfg, b, later)
  {
    Scales(cfg.rate, Elapsed(b, now), Elapsed(b, later));
  }

  lemma AlikeStays(cfg: Config, b: Bucket, c: Bucket, now: int, later: int)
    requires cfg.rate >= 0.0 && now <= later && Alike(cfg, b, c, now)
    ensures Alike(cfg, b, c, later)
  {
    if b != c {
      FullStays(cfg, b, now, later);
      FullStays(cfg, c, now, later);
    }
  }

  /** The rate supplies a whole burst in the shortest idle time that evicts, less the lag. */
  ghost predicate Refills(cfg: Config, lag: int) {
    cfg.rate >= 0.0 && 0 <= lag <= IDLE && cfg.burst as real <= cfg.rate * (IDLE + 1 - lag) as real
  }

  /** Ten idle minutes fill the bucket. */
  lemma IdleFills(cfg: Config, b: Bucket, lastSeen: int, lag: int, now: int)
    requires Refills(cfg, lag) && b.tokens >= 0.0 && b.last <= lastSeen + lag && lastSeen < now - IDLE
    ensures FullFrom(cfg, b, now)
  {
    Scales(cfg.rate, (IDLE + 1 - lag) as real, Elapsed(b, now));
  }

  /** Asked at the same moment, alike buckets answer alike and stay alike. */
  lemma AllowAlike(cfg: Config, b: Bucket, c: Bucket, t: int)
    requires cfg.rate >= 0.0 && Alike(cfg, b, c, t)
    ensures Allow(cfg, b, t).0 == Allow(cfg, c, t).0
    ensures Alike(cfg, Allow(cfg, b, t).1, Allow(cfg, c, t).1, t)
  {
  }

  lemma AllowKeepsSane(cfg: Config, b: Bucket, t: int)
    requires b.tokens >= 0.0 && b.last <= t
    ensures Allow(cfg, b, t).1.tokens >= 0.0 && Allow(cfg, b, t).1.last <= t
  {
  }

  lemma FullIsFull(cfg: Config, t: int)
    ensures FullFrom(cfg, Full(cfg, t), t) && Full(cfg, t).tokens >= 0.0
  {
  }

  // ---------------------------------------------------------------- eviction is not observable

  /** Entries point to different buckets. */
  ghost predicate Separate(table: Table) {
    && (forall k :: k in table.entries ==> table.entries[k].bucket < |table.buckets|)
    && (forall k, l :: k in table.entries && l in table.entries && k != l ==> table.entries[k].bucket != table.entries[l].bucket)
  }

  /** The address's entry and the bucket that was kept for it agree. */
  ghost predicate SameBucket(cfg: Config, lag: int, table: Table, kept: map<IP, Bucket>, now: int, ip: IP)
    requires ip in table.entries
  {
    var e := table.entries[ip];
    && ip in kept && e.bucket < |table.buckets| && Alike(cfg, table.buckets[e.bucket], kept[ip], now)
    && kept[ip].last <= e.lastSeen + lag
  }

  /** A kept bucket whose entry was dropped is full. */
  ghost predicate Sound(cfg: Config, table: Table, b: Bucket, now: int, ip: IP) {
    b.tokens >= 0.0 && b.last <= now && (ip in table.entries || FullFrom(cfg, b, now))
  }

  ghost predicate Related(cfg: Config, lag: int, table: Table, kept: map<IP, Bucket>, now: int) {
    && Separate(table)
    && (forall ip :: ip in table.entries ==> SameBucket(cfg, lag, table, kept, now, ip))
    && (forall ip :: ip in kept ==> Sound(cfg, table, kept[ip], now, ip))
  }

  /** A request that can still ask in time holds the bucket of its address's entry, marked no earlier. */
  ghost predicate Holds(table: Table, ip: IP, b: nat, entered: int) {
    ip in table.entries && table.entries[ip].bucket == b && entered <= table.entries[ip].lastSeen
  }

  ghost predicate Waiting(lag: int, s: Evicting, k: Keeping, entered: map<nat, int>, now: int) {
    && s.pending.Keys == k.pending.Keys == entered.Keys
    && forall r :: r in entered && now <= entered[r] + lag ==> Holds(s.table, k.pending[r], s.pending[r], entered[r])
  }

  lemma CleanupRelated(cfg: Config, lag: int, table: Table, kept: map<IP, Bucket>, now: int, later: int)
    requires Refills(cfg, lag) && Related(cfg, lag, table, kept, now) && now <= later
    ensures Related(cfg, lag, Cleanup(table, later), kept, later)
  {
    hide FullFrom, Alike, Refills;
    var swept := Cleanup(table, later);
    forall ip | ip in kept ensures Sound(cfg, swept, kept[ip], later, ip) {
      if ip in table.entries {
        if ip !in swept.entries {
          assert SameBucket(cfg, lag, table, kept, now, ip);
          IdleFills(cfg, kept[ip], table.entries[ip].lastSeen, lag, later);
        }
      } else {
        RateIsSane(cfg, lag);
        FullStays(cfg, kept[ip], now, later);
      }
    }
    forall ip | ip in swept.entries ensures SameBucket(cfg, lag, swept, kept, later, ip) {
      assert SameBucket(cfg, lag, table, kept, now, ip);
      RateIsSane(cfg, lag);
      AlikeStays(cfg, table.buckets[table.entries[ip].bucket], kept[ip], now, later);
    }
  }

  lemma RateIsSane(cfg: Config, lag: int)
    requires Refills(cfg, lag)
    ensures cfg.rate >= 0.0 && 0 <= lag <= IDLE
  {
  }

  lemma LaterRelated(cfg: Config, lag: int, table: Table, kept: map<IP, Bucket>, now: int, later: int)
    requires cfg.rate >= 0.0 && Related(cfg, lag, table, kept, now) && now <= later
    ensures Related(cfg, lag, table, kept, later)
  {
    hide FullFrom, Alike;
    forall ip | ip in kept ensures Sound(cfg, table, kept[ip], later, ip) {
      if ip !in table.entries {
        FullStays(cfg, kept[ip], now, later);
      }
    }
    forall ip | ip in table.entries ensures SameBucket(cfg, lag, table, kept, later, ip) {
      assert SameBucket(cfg, lag, table, kept, now, ip);
      AlikeStays(cfg, table.buckets[table.entries[ip].bucket], kept[ip], now, later);
    }
  }

  /** Entering keeps the tables related; a bucket made anew is as full as the one that was kept. */
  lemma LookupRelated(cfg: Config, lag: int, clean: Table, kept: map<IP, Bucket>, ip: IP, seen: int)
    requires cfg.rate >= 0.0 && lag >= 0 && Related(cfg, lag, clean, kept, seen)
    ensures var (b, table) :=
              if ip in clean.entries then (clean.entries[ip].bucket, clean.(entries := clean.entries[ip := Entry(clean.entries[ip].bucket, seen)]))
              else (|clean.buckets|, clean.(entries := clean.entries[ip := Entry(|clean.buckets|, seen)], buckets := clean.buckets + [Full(cfg, seen)]));
            Related(cfg, lag, table, if ip in kept then kept else kept[ip := Full(cfg, seen)], seen)
  {
    hide FullFrom, Full;
    FullIsFull(cfg, seen);
    FullLast(cfg, seen);
    if ip in clean.entries {
      assert SameBucket(cfg, lag, clean, kept, seen, ip);
    }
  }

  lemma FullLast(cfg: Config, t: int)
    ensures Full(cfg, t).last == t
  {
  }

  lemma EnterRelated(cfg: Config, lag: int, table: Table, kept: map<IP, Bucket>, now: int, ip: IP, swept: int, seen: int)
    requires Refills(cfg, lag) && Related(cfg, lag, table, kept, now) && now <= swept <= seen
    ensures Related(cfg, lag, Lookup(cfg, table, ip, swept, seen).1, if ip in kept then kept else kept[ip := Full(cfg, seen)], seen)
  {
    hide Related, Cleanup, Full;
    RateIsSane(cfg, lag);
    CleanupRelated(cfg, lag, table, kept, now, swept);
    LaterRelated(cfg, lag, Cleanup(table, swept), kept, swept, seen);
    LookupRelated(cfg, lag, Cleanup(table, swept), kept, ip, seen);
  }

  /** A sweep drops no entry whose bucket a request can still ask in time. */
  lemma EnterHolds(cfg: Config, lag: int, table: Table, ip: IP, swept: int, seen: int, other: IP, b: nat, entered: int)
    requires 0 <= lag <= IDLE && swept <= seen <= entered + lag && Holds(table, other, b, entered) && entered <= seen
    ensures Holds(Lookup(cfg, table, ip, swept, seen).1, other, b, entered)
  {
  }

  lemma EnterWaiting(cfg: Config, lag: int, s: Evicting, k: Keeping, entered: map<nat, int>, now: int, step: Step)
    requires Refills(cfg, lag) && Waiting(lag, s, k, entered, now) && step.Enter? && InTime(step, now, entered, lag)
    requires forall r :: r in entered ==> entered[r] <= now
    ensures Waiting(lag, Serve(cfg, s, step).1, ServeKeeping(cfg, k, step).1, Entered(entered, step), Clock(step))
  {
    hide Lookup, Full, Refills, Holds;
    RateIsSane(cfg, lag);
    if step.ip != "" && step.r !in entered {
      var t, l, next := Serve(cfg, s, step).1, ServeKeeping(cfg, k, step).1, Entered(entered, step);
      forall r | r in next && step.seen <= next[r] + lag ensures Holds(t.table, l.pending[r], t.pending[r], next[r]) {
        if r == step.r {
          NewHolds(cfg, s.table, step.ip, step.swept, step.seen);
        } else {
          EnterHolds(cfg, lag, s.table, step.ip, step.swept, step.seen, k.pending[r], s.pending[r], entered[r]);
        }
      }
    }
  }

  lemma NewHolds(cfg: Config, table: Table, ip: IP, swept: int, seen: int)
    ensures Holds(Lookup(cfg, table, ip, swept, seen).1, ip, Lookup(cfg, table, ip, swept, seen).0, seen)
  {
    hide Cleanup, Full;
  }

  /** A request in time asks alike buckets. */
  lemma AskRelated(cfg: Config, lag: int, table: Table, kept: map<IP, Bucket>, now: int, ip: IP, b: nat, entered: int, at: int)
    requires cfg.rate >= 0.0 && Related(cfg, lag, table, kept, now) && now <= at <= entered + lag && Holds(table, ip, b, entered)
    ensures b < |table.buckets| && ip in kept
    ensures AskBucket(cfg, table, b, at).0 == Allow(cfg, kept[ip], at).0
    ensures Related(cfg, lag, AskBucket(cfg, table, b, at).1, kept[ip := Allow(cfg, kept[ip], at).1], at)
  {
    hide FullFrom, Alike, Allow;
    LaterRelated(cfg, lag, table, kept, now, at);
    assert SameBucket(cfg, lag, table, kept, at, ip) && Sound(cfg, table, kept[ip], at, ip);
    AllowAlike(cfg, table.buckets[b], kept[ip], at);
    AllowKeepsSane(cfg, kept[ip], at);
    var next, keptNext := AskBucket(cfg, table, b, at).1, kept[ip := Allow(cfg, kept[ip], at).1];
    forall x | x in next.entries ensures SameBucket(cfg, lag, next, keptNext, at, x) {
      assert SameBucket(cfg, lag, table, kept, at, x);
    }
  }

  /** What every step of the two limiters keeps. */
  ghost predicate InStep(cfg: Config, lag: int, s: Evicting, k: Keeping, entered: map<nat, int>, now: int) {
    && Related(cfg, lag, s.table, k.buckets, now) && Waiting(lag, s, k, entered, now)
    && forall r :: r in entered ==> entered[r] <= now
  }

  lemma EnterInStep(cfg: Config, lag: int, s: Evicting, k: Keeping, entered: map<nat, int>, now: int, step: Step)
    requires Refills(cfg, lag) && InStep(cfg, lag, s, k, entered, now) && step.Enter? && InTime(step, now, entered, lag)
    ensures Serve(cfg, s, step).0 == ServeKeeping(cfg, k, step).0
    ensures InStep(cfg, lag, Serve(cfg, s, step).1, ServeKeeping(cfg, k, step).1, Entered(entered, step), Clock(step))
  {
    EnterWaiting(cfg, lag, s, k, entered, now, step);
    hide Lookup, Full, Refills, Related;
    RateIsSane(cfg, lag);
    if step.ip == "" || step.r in entered {
      LaterRelated(cfg, lag, s.table, k.buckets, now, step.seen);
    } else {
      EnterRelated(cfg, lag, s.table, k.buckets, now, step.ip, step.swept, step.seen);
    }
  }

  lemma AskInStep(cfg: Config, lag: int, s: Evicting, k: Keeping, entered: map<nat, int>, now: int, step: Step)
    requires Refills(cfg, lag) && InStep(cfg, lag, s, k, entered, now) && step.Ask? && InTime(step, now, entered, lag)
    ensures Serve(cfg, s, step).0 == ServeKeeping(cfg, k, step).0
    ensures InStep(cfg, lag, Serve(cfg, s, step).1, ServeKeeping(cfg, k, step).1, Entered(entered, step), Clock(step))
  {
    hide Allow, Refills, Related;
    RateIsSane(cfg, lag);
    if step.r in entered {
      AskRelated(cfg, lag, s.table, k.buckets, now, k.pending[step.r], s.pending[step.r], entered[step.r], step.at);
    } else {
      LaterRelated(cfg, lag, s.table, k.buckets, now, step.at);
    }
  }

  lemma {:induction false} SameDecisions(cfg: Config, lag: int, s: Evicting, k: Keeping, entered: map<nat, int>, now: int, steps: seq<Step>)
    requires Refills(cfg, lag) && InStep(cfg, lag, s, k, entered, now) && Timely(steps, now, entered, lag)
    ensures Decisions(cfg, s, steps) == DecisionsKeeping(cfg, k, steps)
    decreases |steps|
  {
    hide Serve, ServeKeeping, InStep, Refills, InTime;
    if steps != [] {
      var step := steps[0];
      if step.Enter? {
        EnterInStep(cfg, lag, s, k, entered, now, step);
      } else {
        AskInStep(cfg, lag, s, k, entered, now, step);
      }
      SameDecisions(cfg, lag, Serve(cfg, s, step).1, ServeKeeping(cfg, k, step).1, Entered(entered, step), Clock(step), steps[1..]);
    }
  }

  /** If the rate refills a whole burst in ten minutes less the lag, then no interleaving of requests can tell
      that idle buckets are dropped. */
  lemma EvictionUnseen(cfg: Config, lag: int, start: int, steps: seq<Step>)
    requires Refills(cfg, lag) && Timely(steps, start, map[], lag)
    ensures Decisions(cfg, Start(start), steps) == DecisionsKeeping(cfg, NOBODY, steps)
  {
    SameDecisions(cfg, lag, Start(start), NOBODY, map[], start, steps);
  }

  /** The limiter of the authentication endpoints, 20 tokens at 10 per minute, that of the watch endpoints, 30
      tokens at 30 per second, and that of the agent-to-agent endpoints, n tokens at n per minute for any n, are
      safe for requests that lag up to eight minutes. */
  lemma ConfiguredLimiters(lag: int, start: int, steps: seq<Step>, n: nat)
    requires 0 <= lag <= 8 * MINUTE && Timely(steps, start, map[], lag)
    ensures Decisions(PerMinute(n), Start(start), steps) == DecisionsKeeping(PerMinute(n), NOBODY, steps)
    ensures var auth := Config(10.0 / MINUTE as real, 20);
            Decisions(auth, Start(start), steps) == DecisionsKeeping(auth, NOBODY, steps)
    ensures var watch := Config(1800.0 / MINUTE as real, 30);
            Decisions(watch, Start(start), steps) == DecisionsKeeping(watch, NOBODY, steps)
  {
    hide Decisions, DecisionsKeeping, Timely;
    var auth, watch := Config(10.0 / MINUTE as real, 20), Config(1800.0 / MINUTE as real, 30);
    var refill := (IDLE + 1 - lag) as real;
    assert refill >= (2 * MINUTE) as real;
    Scales(auth.rate, (2 * MINUTE) as real, refill);
    Scales(watch.rate, (2 * MINUTE) as real, refill);
    EvictionUnseen(auth, lag, start, steps);
    EvictionUnseen(watch, lag, start, steps);
    PerMinuteRefills(lag, n);
    EvictionUnseen(PerMinute(n), lag, start, steps);
  }

  /** A burst that its rate supplies in one minute. */
  function PerMinute(n: nat): Config {
    Config(n as real / MINUTE as real, n)
  }

  lemma PerMinuteRefills(lag: int, n: nat)
    requires 0 <= lag <= 8 * MINUTE
    ensures Refills(PerMinute(n), lag)
  {
    var rate, minute := PerMinute(n).rate, MINUTE as real;
    assert rate * minute == n as real;
    Scales(rate, minute, (IDLE + 1 - lag) as real);
  }

  // ---------------------------------------------------------------- and exactly then

  /** Requests `i` to `n - 1` of one address enter at time `t`. */
  function Enters(t: int, i: nat, n: nat): seq<Step>
    decreases n - i
  {
    if i >= n then [] else [Enter(i, "a", t, t)] + Enters(t, i + 1, n)
  }

  /** They ask at time `u`. */
  function Asks(u: int, i: nat, n: nat): seq<Step>
    decreases n - i
  {
    if i >= n then [] else [Ask(i, u)] + Asks(u, i + 1, n)
  }

  function Burst(t: int, u: int, n: nat): seq<Step> {
    Enters(t, 0, n) + Asks(u, 0, n)
  }

  /** A burst at time 0 that asks late, and another just after the idle limit. */
  function TwoBursts(lag: int, n: nat): seq<Step> {
    Burst(0, lag, n) + Burst(IDLE + 1, IDLE + 1, n)
  }

  function Yes(n: nat): seq<bool> {
    if n == 0 then [] else [true] + Yes(n - 1)
  }

  /** Requests `i` to `n - 1` wait with `x`. */
  function Span<T>(x: T, i: nat, n: nat): map<nat, T>
    decreases n - i
  {
    if i >= n then map[] else Span(x, i + 1, n)[i := x]
  }

  lemma {:induction false} SpanIs<T>(x: T, i: nat, n: nat)
    ensures forall r :: r in Span(x, i, n) <==> i <= r < n
    ensures forall r :: r in Span(x, i, n) ==> Span(x, i, n)[r] == x
    decreases n - i
  {
    if i < n {
      SpanIs(x, i + 1, n);
    }
  }

  /** One more enters, or the first asks. */
  lemma SpanSteps<T>(x: T, i: nat, n: nat)
    requires i < n
    ensures i !in Span(x, 0, i) && Span(x, 0, i)[i := x] == Span(x, 0, i + 1)
    ensures i in Span(x, i, n) && Span(x, i, n)[i] == x && Span(x, i, n) - {i} == Span(x, i + 1, n)
  {
    SpanIs(x, 0, i);
    SpanIs(x, 0, i + 1);
    SpanIs(x, i, n);
    SpanIs(x, i + 1, n);
  }

  lemma FirstEnter(t: int, i: nat, n: nat, rest: seq<Step>)
    requires i < n
    ensures var steps := Enters(t, i, n) + rest; steps != [] && steps[0] == Enter(i, "a", t, t) && steps[1..] == Enters(t, i + 1, n) + rest
  {
  }

  lemma FirstAsk(u: int, i: nat, n: nat, rest: seq<Step>)
    requires i < n
    ensures var steps := Asks(u, i, n) + rest; steps != [] && steps[0] == Ask(i, u) && steps[1..] == Asks(u, i + 1, n) + rest
  {
  }

  lemma FirstStep(cfg: Config, s: Evicting, k: Keeping, steps: seq<Step>)
    requires steps != []
    ensures Decisions(cfg, s, steps) == Serve(cfg, s, steps[0]).0 + Decisions(cfg, Serve(cfg, s, steps[0]).1, steps[1..])
    ensures DecisionsKeeping(cfg, k, steps)
         == ServeKeeping(cfg, k, steps[0]).0 + DecisionsKeeping(cfg, ServeKeeping(cfg, k, steps[0]).1, steps[1..])
  {
    hide Serve, ServeKeeping;
  }

  lemma Nothing(d: seq<bool>)
    ensures [] + d == d
  {
  }

  // The bursts are an interleaving in time.

  lemma {:induction false} EntersTimely(t: int, i: nat, n: nat, now: int, lag: int, rest: seq<Step>)
    requires i <= n && now <= t && (i < n ==> Timely(rest, t, Span(t, 0, n), lag)) && (i == n ==> Timely(rest, now, Span(t, 0, n), lag))
    ensures Timely(Enters(t, i, n) + rest, now, Span(t, 0, i), lag)
    decreases n - i
  {
    hide Enters, Span;
    if i == n {
      NoEnters(t, i, rest);
    } else {
      FirstEnter(t, i, n, rest);
      SpanSteps(t, i, n);
      EntersTimely(t, i + 1, n, t, lag, rest);
    }
  }

  lemma NoEnters(t: int, i: nat, rest: seq<Step>)
    ensures Enters(t, i, i) + rest == rest && Asks(t, i, i) + rest == rest
  {
  }

  lemma {:induction false} AsksTimely(t: int, u: int, i: nat, n: nat, now: int, lag: int, rest: seq<Step>)
    requires i <= n && now <= u <= t + lag && (i < n ==> Timely(rest, u, map[], lag)) && (i == n ==> Timely(rest, now, map[], lag))
    ensures Timely(Asks(u, i, n) + rest, now, Span(t, i, n), lag)
    decreases n - i
  {
    if i == n {
      NoEnters(u, i, rest);
    } else {
      hide Asks, Span;
      FirstAsk(u, i, n, rest);
      SpanSteps(t, i, n);
      AsksTimely(t, u, i + 1, n, u, lag, rest);
    }
  }

  lemma BurstTimely(t: int, u: int, n: nat, now: int, lag: int, rest: seq<Step>)
    requires n > 0 && now <= t <= u <= t + lag && Timely(rest, u, map[], lag)
    ensures Timely(Burst(t, u, n) + rest, now, map[], lag)
  {
    hide Enters, Asks, Timely;
    AsksTimely(t, u, 0, n, t, lag, rest);
    EntersTimely(t, 0, n, now, lag, Asks(u, 0, n) + rest);
    assert Burst(t, u, n) + rest == Enters(t, 0, n) + (Asks(u, 0, n) + rest);
  }

  lemma TwoBurstsTimely(lag: int, n: nat)
    requires n > 0 && 0 <= lag <= IDLE
    ensures Timely(TwoBursts(lag, n), 0, map[], lag)
  {
    hide Burst;
    var second := Burst(IDLE + 1, IDLE + 1, n);
    assert second + [] == second;
    BurstTimely(IDLE + 1, IDLE + 1, n, lag, lag, []);
    BurstTimely(0, lag, n, 0, lag, second);
  }

  // What the buckets do.

  /** At one moment a bucket gives out its whole tokens one by one. */
  lemma AllowOne(cfg: Config, b: Bucket, t: int)
    requires b.last <= t
    ensures TokensAt(cfg, b, t) >= 1.0 ==> Allow(cfg, b, t) == (true, Bucket(TokensAt(cfg, b, t) - 1.0, t))
    ensures TokensAt(cfg, b, t) >= 1.0 ==> TokensAt(cfg, Bucket(TokensAt(cfg, b, t) - 1.0, t), t) == TokensAt(cfg, b, t) - 1.0
    ensures TokensAt(cfg, b, t) < 1.0 ==> !Allow(cfg, b, t).0
  {
  }

  lemma FullTokens(cfg: Config, t: int, u: int)
    requires cfg.rate >= 0.0 && t <= u
    ensures Full(cfg, t).last <= u && TokensAt(cfg, Full(cfg, t), u) == cfg.burst as real
  {
    Scales(cfg.rate, 0.0, Elapsed(Full(cfg, t), u));
  }

  // The limiter that keeps its buckets.

  lemma {:induction false} EntersKeeper(cfg: Config, k: Keeping, t: int, i: nat, n: nat, rest: seq<Step>)
    requires i <= n && "a" in k.buckets && k.pending == Span("a", 0, i)
    ensures DecisionsKeeping(cfg, k, Enters(t, i, n) + rest) == DecisionsKeeping(cfg, Keeping(k.buckets, Span("a", 0, n)), rest)
    decreases n - i
  {
    if i == n {
      NoEnters(t, i, rest);
    } else {
      hide Enters, Span, DecisionsKeeping;
      FirstEnter(t, i, n, rest);
      SpanSteps("a", i, n);
      FirstStep(cfg, Start(0), k, Enters(t, i, n) + rest);
      Nothing(DecisionsKeeping(cfg, Keeping(k.buckets, Span("a", 0, i + 1)), Enters(t, i + 1, n) + rest));
      EntersKeeper(cfg, Keeping(k.buckets, Span("a", 0, i + 1)), t, i + 1, n, rest);
    }
  }

  lemma AskKeeper(cfg: Config, b: Bucket, u: int, i: nat, n: nat, rest: seq<Step>)
    requires i < n
    ensures DecisionsKeeping(cfg, Keeping(map["a" := b], Span("a", i, n)), Asks(u, i, n) + rest)
         == [Allow(cfg, b, u).0]
            + DecisionsKeeping(cfg, Keeping(map["a" := Allow(cfg, b, u).1], Span("a", i + 1, n)), Asks(u, i + 1, n) + rest)
  {
    hide Allow, Asks, Span, DecisionsKeeping;
    FirstAsk(u, i, n, rest);
    SpanSteps("a", i, n);
    FirstStep(cfg, Start(0), Keeping(map["a" := b], Span("a", i, n)), Asks(u, i, n) + rest);
    var k, after := Keeping(map["a" := b], Span("a", i, n)), Allow(cfg, b, u).1;
    assert map["a" := b]["a" := after] == map["a" := after];
    assert ServeKeeping(cfg, k, Ask(i, u)) == ([Allow(cfg, b, u).0], Keeping(map["a" := after], Span("a", i + 1, n)));
  }

  /** A bucket with enough tokens serves the rest of a burst. */
  lemma {:induction false} AsksKeeper(cfg: Config, b: Bucket, u: int, i: nat, n: nat, rest: seq<Step>)
    requires i < n && b.last <= u && TokensAt(cfg, b, u) >= (n - i) as real
    ensures DecisionsKeeping(cfg, Keeping(map["a" := b], Span("a", i, n)), Asks(u, i, n) + rest)
         == Yes(n - i) + DecisionsKeeping(cfg, Keeping(map["a" := Bucket(TokensAt(cfg, b, u) - (n - i) as real, u)], map[]), rest)
    decreases n - i
  {
    hide Allow, TokensAt, DecisionsKeeping;
    AskKeeper(cfg, b, u, i, n, rest);
    AllowOne(cfg, b, u);
    var after := Bucket(TokensAt(cfg, b, u) - 1.0, u);
    if i + 1 == n {
      NoEnters(u, n, rest);
      assert Yes(1) == [true] + Yes(0) == [true];
    } else {
      AsksKeeper(cfg, after, u, i + 1, n, rest);
      YesMore(n - i, DecisionsKeeping(cfg, Keeping(map["a" := Bucket(TokensAt(cfg, b, u) - (n - i) as real, u)], map[]), rest));
    }
  }

  lemma YesMore(n: nat, d: seq<bool>)
    requires n > 0
    ensures [true] + (Yes(n - 1) + d) == Yes(n) + d
  {
  }

  /** A bucket with too few does not. */
  lemma {:induction false} AsksRunDry(cfg: Config, b: Bucket, u: int, i: nat, n: nat)
    requires i < n && b.last <= u && 0.0 <= TokensAt(cfg, b, u) < (n - i) as real
    ensures DecisionsKeeping(cfg, Keeping(map["a" := b], Span("a", i, n)), Asks(u, i, n)) != Yes(n - i)
    decreases n - i
  {
    hide Allow, TokensAt, DecisionsKeeping, Asks, Span;
    AskKeeper(cfg, b, u, i, n, []);
    assert Asks(u, i, n) + [] == Asks(u, i, n) && Asks(u, i + 1, n) + [] == Asks(u, i + 1, n);
    AllowOne(cfg, b, u);
    var d := DecisionsKeeping(cfg, Keeping(map["a" := b], Span("a", i, n)), Asks(u, i, n));
    if TokensAt(cfg, b, u) >= 1.0 {
      AsksRunDry(cfg, Bucket(TokensAt(cfg, b, u) - 1.0, u), u, i + 1, n);
      assert d[1..] != Yes(n - i)[1..];
    } else {
      assert !d[0];
    }
  }

  /** Without eviction the second burst is cut short. */
  lemma KeeperCutsSecond(cfg: Config, lag: int)
    requires cfg.rate >= 0.0 && cfg.burst > 0 && 0 <= lag <= IDLE && cfg.rate * (IDLE + 1 - lag) as real < cfg.burst as real
    ensures DecisionsKeeping(cfg, NOBODY, TwoBursts(lag, cfg.burst)) != Yes(cfg.burst) + Yes(cfg.burst)
  {
    hide DecisionsKeeping, TokensAt, Allow, Yes, Enters, Asks;
    var n, t := cfg.burst, IDLE + 1;
    var second := Burst(t, t, n);
    KeeperBurst(cfg, n, 0, lag, second);
    FullTokens(cfg, 0, lag);
    AsksKeeper(cfg, Full(cfg, 0), lag, 0, n, second);
    var empty := Bucket(0.0, lag);
    EntersKeeper(cfg, Keeping(map["a" := empty], map[]), t, 0, n, Asks(t, 0, n));
    EmptyRefills(cfg, lag);
    AsksRunDry(cfg, empty, t, 0, n);
    SuffixDiffers(Yes(n), DecisionsKeeping(cfg, Keeping(map["a" := empty], Span("a", 0, n)), Asks(t, 0, n)), Yes(n));
  }

  lemma EmptyRefills(cfg: Config, lag: int)
    requires cfg.rate >= 0.0 && 0 <= lag <= IDLE && cfg.rate * (IDLE + 1 - lag) as real < cfg.burst as real
    ensures 0.0 <= TokensAt(cfg, Bucket(0.0, lag), IDLE + 1) < cfg.burst as real
  {
    Scales(cfg.rate, 0.0, (IDLE + 1 - lag) as real);
  }

  /** The first burst makes the bucket and then asks it. */
  lemma KeeperBurst(cfg: Config, n: nat, t: int, u: int, rest: seq<Step>)
    requires n > 0
    ensures DecisionsKeeping(cfg, NOBODY, Burst(t, u, n) + rest)
         == DecisionsKeeping(cfg, Keeping(map["a" := Full(cfg, t)], Span("a", 0, n)), Asks(u, 0, n) + rest)
  {
    hide Enters, Asks, Full, Span, DecisionsKeeping;
    var tail := Asks(u, 0, n) + rest;
    assert Burst(t, u, n) + rest == Enters(t, 0, n) + tail;
    FirstEnter(t, 0, n, tail);
    SpanSteps("a", 0, n);
    NobodyWaits("a", 0);
    FirstStep(cfg, Start(0), NOBODY, Enters(t, 0, n) + tail);
    Nothing(DecisionsKeeping(cfg, Keeping(map["a" := Full(cfg, t)], Span("a", 0, 1)), Enters(t, 1, n) + tail));
    assert map[]["a" := Full(cfg, t)] == map["a" := Full(cfg, t)];
    EntersKeeper(cfg, Keeping(map["a" := Full(cfg, t)], Span("a", 0, 1)), t, 1, n, tail);
  }

  lemma NobodyWaits<T>(x: T, n: nat)
    ensures Span(x, n, n) == map[] && Yes(0) == []
  {
  }

  lemma SuffixDiffers<T>(a: seq<T>, b: seq<T>, c: seq<T>)
    requires b != c
    ensures a + b != a + c
  {
    assert (a + b)[|a|..] == b && (a + c)[|a|..] == c;
  }

  // The limiter that drops them.

  /** Once the address is marked at `t`, entering at `t` again changes nothing but who waits. */
  lemma {:induction false} EntersTable(cfg: Config, table: Table, b: nat, t: int, i: nat, n: nat, rest: seq<Step>)
    requires i <= n && "a" in table.entries && table.entries["a"] == Entry(b, t) && t - table.lastCleanup < SWEEP
    ensures Decisions(cfg, Evicting(table, Span(b, 0, i)), Enters(t, i, n) + rest) == Decisions(cfg, Evicting(table, Span(b, 0, n)), rest)
    decreases n - i
  {
    if i == n {
      NoEnters(t, i, rest);
    } else {
      hide Enters, Span, Decisions;
      FirstEnter(t, i, n, rest);
      SpanSteps(b, i, n);
      FirstStep(cfg, Evicting(table, Span(b, 0, i)), NOBODY, Enters(t, i, n) + rest);
      Nothing(Decisions(cfg, Evicting(table, Span(b, 0, i + 1)), Enters(t, i + 1, n) + rest));
      assert Lookup(cfg, table, "a", t, t) == (b, table) by { assert table.entries["a" := Entry(b, t)] == table.entries; }
      EntersTable(cfg, table, b, t, i + 1, n, rest);
    }
  }

  /** A bucket with enough tokens serves the rest of a burst and holds what is left. */
  lemma {:induction false} AsksTable(cfg: Config, table: Table, b: nat, u: int, i: nat, n: nat, rest: seq<Step>) returns (after: Table)
    requires i <= n && b < |table.buckets| && table.buckets[b].last <= u && TokensAt(cfg, table.buckets[b], u) >= (n - i) as real
    ensures Decisions(cfg, Evicting(table, Span(b, i, n)), Asks(u, i, n) + rest) == Yes(n - i) + Decisions(cfg, Evicting(after, map[]), rest)
    ensures after.entries == table.entries && after.lastCleanup == table.lastCleanup
    decreases n - i
  {
    hide Asks, Span, Allow, TokensAt, Decisions, Yes;
    if i == n {
      NoEnters(u, i, rest);
      NobodyWaits(b, n);
      Nothing(Decisions(cfg, Evicting(table, map[]), rest));
      after := table;
    } else {
      var next := table.(buckets := table.buckets[b := Bucket(TokensAt(cfg, table.buckets[b], u) - 1.0, u)]);
      AskTable(cfg, table, next, b, u, i, n, rest);
      AllowOne(cfg, table.buckets[b], u);
      after := AsksTable(cfg, next, b, u, i + 1, n, rest);
      YesMore(n - i, Decisions(cfg, Evicting(after, map[]), rest));
    }
  }

  lemma AskTable(cfg: Config, table: Table, next: Table, b: nat, u: int, i: nat, n: nat, rest: seq<Step>)
    requires i < n && b < |table.buckets| && table.buckets[b].last <= u && TokensAt(cfg, table.buckets[b], u) >= 1.0
    requires next == table.(buckets := table.buckets[b := Bucket(TokensAt(cfg, table.buckets[b], u) - 1.0, u)])
    ensures Decisions(cfg, Evicting(table, Span(b, i, n)), Asks(u, i, n) + rest)
         == [true] + Decisions(cfg, Evicting(next, Span(b, i + 1, n)), Asks(u, i + 1, n) + rest)
  {
    hide Asks, Span, Allow, TokensAt, Decisions;
    FirstAsk(u, i, n, rest);
    SpanSteps(b, i, n);
    FirstStep(cfg, Evicting(table, Span(b, i, n)), NOBODY, Asks(u, i, n) + rest);
    AllowOne(cfg, table.buckets[b], u);
    assert Serve(cfg, Evicting(table, Span(b, i, n)), Ask(i, u)) == ([true], Evicting(next, Span(b, i + 1, n)));
  }

  /** A burst on a table that has no entry for the address, or is about to drop it. */
  lemma TableBurst(cfg: Config, table: Table, t: int, u: int, rest: seq<Step>) returns (after: Table)
    requires cfg.rate >= 0.0 && cfg.burst > 0 && t <= u && "a" !in Cleanup(table, t).entries
    ensures Decisions(cfg, Evicting(table, map[]), Burst(t, u, cfg.burst) + rest) == Yes(cfg.burst) + Decisions(cfg, Evicting(after, map[]), rest)
    ensures after.lastCleanup == Cleanup(table, t).lastCleanup && "a" in after.entries && after.entries["a"].lastSeen == t
  {
    hide Enters, Asks, Full, Span, TokensAt, Allow, Decisions;
    var n: nat, b: nat := cfg.burst, |table.buckets|;
    var tail := Asks(u, 0, n) + rest;
    assert Burst(t, u, n) + rest == Enters(t, 0, n) + tail;
    FirstEnter(t, 0, n, tail);
    SpanSteps(b, 0, n);
    NobodyWaits(b, 0);
    var marked := Lookup(cfg, table, "a", t, t).1;
    assert Lookup(cfg, table, "a", t, t).0 == b && marked.buckets == table.buckets + [Full(cfg, t)];
    assert Serve(cfg, Evicting(table, map[]), Enter(0, "a", t, t)) == ([], Evicting(marked, Span(b, 0, 1)));
    FirstStep(cfg, Evicting(table, map[]), NOBODY, Enters(t, 0, n) + tail);
    Nothing(Decisions(cfg, Evicting(marked, Span(b, 0, 1)), Enters(t, 1, n) + tail));
    EntersTable(cfg, marked, b, t, 1, n, tail);
    FullTokens(cfg, t, u);
    after := AsksTable(cfg, marked, b, u, 0, n, rest);
  }

  /** With eviction both bursts pass in full. */
  lemma TableAllowsBoth(cfg: Config, lag: int)
    requires cfg.rate >= 0.0 && cfg.burst > 0 && 0 <= lag <= IDLE
    ensures Decisions(cfg, Start(0), TwoBursts(lag, cfg.burst)) == Yes(cfg.burst) + Yes(cfg.burst)
  {
    hide Decisions, Burst, Yes;
    var n, t := cfg.burst, IDLE + 1;
    var after := TableBurst(cfg, Start(0).table, 0, lag, Burst(t, t, n));
    assert "a" !in Cleanup(after, t).entries;
    var end := TableBurst(cfg, after, t, t, []);
    assert Burst(t, t, n) + [] == Burst(t, t, n);
    assert Decisions(cfg, Evicting(end, map[]), []) == [] by { NoDecisions(cfg, Evicting(end, map[])); }
    assert Yes(n) + [] == Yes(n);
  }

  lemma NoDecisions(cfg: Config, s: Evicting)
    ensures Decisions(cfg, s, []) == []
  {
  }

  /** For every lag up to the idle limit: eviction is invisible on every interleaving of requests that lag no
      more if and only if the rate refills the burst in the shortest idle time that evicts, less the lag. */
  lemma EvictionUnseenIff(cfg: Config, lag: int)
    requires cfg.rate >= 0.0 && 0 <= lag <= IDLE
    ensures (forall start, steps :: Timely(steps, start, map[], lag) ==>
               Decisions(cfg, Start(start), steps) == DecisionsKeeping(cfg, NOBODY, steps))
            <==> cfg.burst as real <= cfg.rate * (IDLE + 1 - lag) as real
  {
    hide Decisions, DecisionsKeeping, Timely, TwoBursts, Yes;
    if cfg.burst as real <= cfg.rate * (IDLE + 1 - lag) as real {
      forall start, steps | Timely(steps, start, map[], lag)
        ensures Decisions(cfg, Start(start), steps) == DecisionsKeeping(cfg, NOBODY, steps)
      {
        EvictionUnseen(cfg, lag, start, steps);
      }
    } else {
      Scales(cfg.rate, 0.0, (IDLE + 1 - lag) as real);
      assert cfg.burst as real > cfg.rate * 0.0 == 0.0;
      TwoBurstsTimely(lag, cfg.burst);
      TableAllowsBoth(cfg, lag);
      KeeperCutsSecond(cfg, lag);
    }
  }

  // ---------------------------------------------------------------- the limiter as an object

  class Limiter {
    const cfg: Config
    var limiters: map<IP, Entry>
    var lastCleanup: int
    var buckets: seq<Bucket>

    ghost function View(): Table
      reads this
    {
      Table(limiters, lastCleanup, buckets)
    }

    constructor (cfg: Config, now: int)
      ensures this.cfg == cfg && View() == Start(now).table
    {
      this.cfg, limiters, lastCleanup, buckets := cfg, map[], now, [];
    }

    method CleanupLocked(now: int)
      modifies this
      ensures View() == Cleanup(old(View()), now)
      ensures now - old(lastCleanup) < 300_000_000_000 ==> View() == old(View())
      ensures now - old(lastCleanup) >= 300_000_000_000 ==>
                lastCleanup == now && forall k :: k in limiters <==> k in old(limiters) && old(limiters)[k].lastSeen >= now - 600_000_000_000
    {
      if now - lastCleanup < SWEEP {
        return;
      }
      var cutoff := now - IDLE;
      var todo := limiters.Keys;
      ghost var all := limiters;
      while todo != {}
        invariant todo <= all.Keys && lastCleanup == old(lastCleanup) && buckets == old(buckets)
        invariant limiters == map k | k in all && (k in todo || all[k].lastSeen >= cutoff) :: all[k]
      {
        var ip :| ip in todo;
        if limiters[ip].lastSeen < cutoff {
          limiters := limiters - {ip};
        }
        todo := todo - {ip};
      }
      lastCleanup := now;
    }

    /** The part of a request under the lock; it yields the bucket to ask. */
    method EnterLocked(ip: IP, swept: int, seen: int) returns (bucket: nat)
      modifies this
      ensures (bucket, View()) == Lookup(cfg, old(View()), ip, swept, seen)
    {
      CleanupLocked(swept);
      if ip in limiters {
        bucket := limiters[ip].bucket;
      } else {
        bucket := |buckets|;
        buckets := buckets + [Full(cfg, seen)];
      }
      limiters := limiters[ip := Entry(bucket, seen)];
    }

    /** The part after it. */
    method Ask(bucket: nat, at: int) returns (ok: bool)
      requires bucket < |buckets|
      modifies this`buckets
      ensures (ok, View()) == AskBucket(cfg, old(View()), bucket, at)
    {
      var answer := Allow(cfg, buckets[bucket], at);
      buckets := buckets[bucket := answer.1];
      ok := answer.0;
    }

    /** A request that nothing interrupts. */
    method AllowRequest(ip: IP, swept: int, seen: int, at: int, ghost r: nat) returns (ok: bool)
      requires forall k :: k in limiters ==> limiters[k].bucket < |buckets|
      modifies this
      ensures var s := Evicting(old(View()), map[]);
              var (first, mid) := Serve(cfg, s, Enter(r, ip, swept, seen));
              var (second, end) := Serve(cfg, mid, Step.Ask(r, at));
              [ok] == first + second && View() == end.table
    {
      hide Cleanup;
      if ip == "" {
        return true;
      }
      CleanupInRange(View(), swept);
      var bucket := EnterLocked(ip, swept, seen);
      ok := Ask(bucket, at);
    }
  }

  lemma CleanupInRange(table: Table, now: int)
    requires forall k :: k in table.entries ==> table.entries[k].bucket < |table.buckets|
    ensures forall k :: k in Cleanup(table, now).entries ==> Cleanup(table, now).entries[k].bucket < |table.buckets|
    ensures Cleanup(table, now).buckets == table.buckets
  {
  }
}
