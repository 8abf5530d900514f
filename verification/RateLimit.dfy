/** Rate limiting of session starts: one token bucket per key, forgotten after an idle time.
    A bucket is ideal: it starts full, refills continuously, and an event takes one whole token. */
module RateLimit {
  import opened Prelude

  /** limit: tokens per nanosecond. */
  datatype Rate = Rate(limit: real, burst: nat, idleTtl: Duration)
  datatype Bucket = Bucket(tokens: real, lastSeen: Time)
  type Buckets = map<string, Bucket>

  ghost predicate ValidRate(r: Rate) {
    r.limit >= 0.0 && r.idleTtl >= 0
  }

  /** The tokens a span yields, one nanosecond's worth at a time; none if the clock went back. */
  function Gain(r: Rate, span: Duration): real
    decreases span
  {
    if span <= 0 then 0.0 else Gain(r, span - 1) + r.limit
  }

  lemma {:induction false} GainIsLinear(r: Rate, span: Duration)
    requires span >= 0
    ensures Gain(r, span) == span as real * r.limit
    decreases span
  {
    if span > 0 {
      GainIsLinear(r, span - 1);
      assert span as real == (span - 1) as real + 1.0;
    }
  }

  lemma {:induction false} GainAdds(r: Rate, x: Duration, y: Duration)
    requires ValidRate(r) && x >= 0 && y >= 0
    ensures Gain(r, x + y) == Gain(r, x) + Gain(r, y) && Gain(r, x) >= 0.0
    decreases x
  {
    if x > 0 {
      GainAdds(r, x - 1, y);
    }
  }

  /** The tokens a key has at a time; a key without a bucket has a full one. */
  function Level(r: Rate, m: Buckets, key: string, now: Time): real {
    if key in m then Min(r.burst as real, m[key].tokens + Gain(r, now - m[key].lastSeen)) else r.burst as real
  }

  /** One event on a key's own bucket. */
  function Take(r: Rate, m: Buckets, key: string, now: Time): (Buckets, bool) {
    var level := Level(r, m, key, now);
    var ok := level >= 1.0;
    (m[key := Bucket(if ok then level - 1.0 else level, now)], ok)
  }

  predicate Idle(r: Rate, b: Bucket, now: Time) {
    now - b.lastSeen > r.idleTtl
  }

  function Awake(r: Rate, m: Buckets, now: Time): Buckets {
    map key | key in m && !Idle(r, m[key], now) :: m[key]
  }

  /** The broker's limiter: forget idle keys, then take. */
  function Admit(r: Rate, m: Buckets, key: string, now: Time): (Buckets, bool) {
    Take(r, Awake(r, m, now), key, now)
  }

  class KeyedLimiter {
    const rate: Rate
    var entries: Buckets

    constructor (rate: Rate)
      ensures this.rate == rate && entries == map[]
    {
      this.rate := rate;
      entries := map[];
    }

    method Allow(key: string, now: Time) returns (ok: bool)
      modifies this
      ensures (entries, ok) == Admit(rate, old(entries), key, now)
    {
      Sweep(now);
      if key !in entries {
        entries := entries[key := Bucket(rate.burst as real, now)];
      }
      var e := entries[key];
      var elapsed := if now < e.lastSeen then 0 else now - e.lastSeen;
      GainIsLinear(rate, elapsed);
      var level := Min(rate.burst as real, e.tokens + elapsed as real * rate.limit);
      ok := level >= 1.0;
      entries := entries[key := Bucket(if ok then level - 1.0 else level, now)];
      assert entries == Take(rate, Awake(rate, old(entries), now), key, now).0;
    }

    method Sweep(now: Time)
      modifies this
      ensures entries == Awake(rate, old(entries), now)
    {
      var todo := entries.Keys;
      while todo != {}
        invariant todo <= entries.Keys <= old(entries).Keys
        invariant forall key | key in entries :: entries[key] == old(entries)[key]
        invariant forall key | key in old(entries) ::
          key in entries <==> key in todo || !Idle(rate, old(entries)[key], now)
        decreases todo
      {
        var key :| key in todo;
        if now - entries[key].lastSeen > rate.idleTtl {
          entries := entries - {key};
        }
        todo := todo - {key};
      }
    }
  }

  // ----- levels over time --------------------------------------------------

  /** No bucket is seen in the future, overdrawn or overfull. */
  ghost predicate Sane(r: Rate, m: Buckets, t: Time) {
    forall key | key in m :: m[key].lastSeen <= t && 0.0 <= m[key].tokens <= r.burst as real
  }

  lemma LevelLater(r: Rate, m: Buckets, key: string, t: Time, now: Time)
    requires ValidRate(r) && Sane(r, m, t) && t <= now
    ensures Level(r, m, key, now) == Min(r.burst as real, Level(r, m, key, t) + Gain(r, now - t))
    ensures 0.0 <= Level(r, m, key, t) <= Level(r, m, key, now) <= r.burst as real
  {
    GainAdds(r, now - t, 0);
    if key in m {
      GainAdds(r, t - m[key].lastSeen, now - t);
    }
  }

  /** A full bucket refills, at the latest, in the time it takes to be forgotten. */
  ghost predicate RefillsWhileIdle(r: Rate) {
    Gain(r, r.idleTtl + 1) >= r.burst as real
  }

  lemma ForgettingKeepsLevels(r: Rate, m: Buckets, now: Time, key: string)
    requires ValidRate(r) && Sane(r, m, now) && RefillsWhileIdle(r)
    ensures Level(r, Awake(r, m, now), key, now) == Level(r, m, key, now)
  {
    if key in m && Idle(r, m[key], now) {
      GainAdds(r, now - m[key].lastSeen - (r.idleTtl + 1), r.idleTtl + 1);
    }
  }

  /** Only the key charged has its level changed, and by one token if it was allowed. */
  ghost predicate Charged(r: Rate, m: Buckets, next: Buckets, ok: bool, c: string, now: Time, key: string) {
    && Sane(r, next, now)
    && (ok <==> Level(r, m, c, now) >= 1.0)
    && Level(r, next, key, now) == Level(r, m, key, now) - if c == key && ok then 1.0 else 0.0
  }

  lemma PutLevel(r: Rate, m: Buckets, c: string, tokens: real, now: Time, key: string)
    requires 0.0 <= tokens <= r.burst as real
    ensures Level(r, m[c := Bucket(tokens, now)], key, now) == if key == c then tokens else Level(r, m, key, now)
  {
  }

  lemma TakeStep(r: Rate, m: Buckets, c: string, now: Time, key: string)
    requires ValidRate(r) && Sane(r, m, now)
    ensures Charged(r, m, Take(r, m, c, now).0, Take(r, m, c, now).1, c, now, key)
  {
    LevelLater(r, m, c, now, now);
    var level := Level(r, m, c, now);
    var left := if level >= 1.0 then level - 1.0 else level;
    PutLevel(r, m, c, left, now, key);
    assert Sane(r, m[c := Bucket(left, now)], now);
  }

  lemma AdmitStep(r: Rate, m: Buckets, c: string, now: Time, key: string)
    requires ValidRate(r) && Sane(r, m, now) && RefillsWhileIdle(r)
    ensures Charged(r, m, Admit(r, m, c, now).0, Admit(r, m, c, now).1, c, now, key)
  {
    ForgettingKeepsLevels(r, m, now, c);
    ForgettingKeepsLevels(r, m, now, key);
    TakeStep(r, Awake(r, m, now), c, now, key);
  }

  // ----- forgetting is invisible, exactly when buckets refill while idle ---

  datatype Call = Call(key: string, now: Time)

  ghost predicate Monotone(calls: seq<Call>) {
    forall i, j | 0 <= i < j < |calls| :: calls[i].now <= calls[j].now
  }

  function ForgettingAnswers(r: Rate, m: Buckets, calls: seq<Call>): seq<bool>
    decreases |calls|
  {
    if calls == [] then []
    else
      var (next, ok) := Admit(r, m, calls[0].key, calls[0].now);
      [ok] + ForgettingAnswers(r, next, calls[1..])
  }

  /** The reference: buckets that are never forgotten. */
  function PlainAnswers(r: Rate, m: Buckets, calls: seq<Call>): seq<bool>
    decreases |calls|
  {
    if calls == [] then []
    else
      var (next, ok) := Take(r, m, calls[0].key, calls[0].now);
      [ok] + PlainAnswers(r, next, calls[1..])
  }

  lemma {:induction false} SameLevelsSameAnswers(r: Rate, a: Buckets, b: Buckets, t: Time, calls: seq<Call>)
    requires ValidRate(r) && RefillsWhileIdle(r) && Sane(r, a, t) && Sane(r, b, t)
    requires forall key :: Level(r, a, key, t) == Level(r, b, key, t)
    requires Monotone(calls) && forall i | 0 <= i < |calls| :: t <= calls[i].now
    ensures ForgettingAnswers(r, a, calls) == PlainAnswers(r, b, calls)
    decreases |calls|
  {
    if calls != [] {
      var (c, now) := (calls[0].key, calls[0].now);
      var (a', b') := (Admit(r, a, c, now).0, Take(r, b, c, now).0);
      forall key
        ensures Level(r, a, key, now) == Level(r, b, key, now)
      {
        LevelLater(r, a, key, t, now);
        LevelLater(r, b, key, t, now);
      }
      AdmitStep(r, a, c, now, c);
      TakeStep(r, b, c, now, c);
      forall key ensures Level(r, a', key, now) == Level(r, b', key, now) {
        AdmitStep(r, a, c, now, key);
        TakeStep(r, b, c, now, key);
      }
      SameLevelsSameAnswers(r, a', b', now, calls[1..]);
    }
  }

  function Repeat(n: nat, c: Call): seq<Call> {
    seq(n, _ => c)
  }

  /** At one time, a key whose forgetting limiter is fuller than its plain bucket gets more. */
  lemma {:induction false} FullerAllowsMore(r: Rate, a: Buckets, b: Buckets, key: string, now: Time, n: nat)
    requires ValidRate(r) && Sane(r, b, now) && n <= r.burst
    requires Level(r, Awake(r, a, now), key, now) == n as real > Level(r, b, key, now)
    ensures ForgettingAnswers(r, a, Repeat(n, Call(key, now))) != PlainAnswers(r, b, Repeat(n, Call(key, now)))
    decreases n
  {
    LevelLater(r, b, key, now, now);
    var calls := Repeat(n, Call(key, now));
    assert calls[1..] == Repeat(n - 1, Call(key, now));
    var (a', b') := (Admit(r, a, key, now).0, Take(r, b, key, now).0);
    TakeStep(r, b, key, now, key);
    var (x, y) := (ForgettingAnswers(r, a, calls), PlainAnswers(r, b, calls));
    assert x[0];
    if y[0] {
      assert Level(r, Awake(r, a', now), key, now) == (n - 1) as real;
      FullerAllowsMore(r, a', b', key, now, n - 1);
      assert x[1..] == ForgettingAnswers(r, a', calls[1..]) && y[1..] == PlainAnswers(r, b', calls[1..]);
    }
  }

  /** Draining a bucket at time 0 and coming back when it has just been forgotten. */
  lemma {:induction false} DrainThenReturn(r: Rate, n: nat)
    requires ValidRate(r) && !RefillsWhileIdle(r) && n < r.burst
    ensures var m := map["k" := Bucket(n as real, 0)];
      var calls := Repeat(n, Call("k", 0)) + Repeat(r.burst, Call("k", r.idleTtl + 1));
      ForgettingAnswers(r, m, calls) != PlainAnswers(r, m, calls)
  {
    var (m, back) := (map["k" := Bucket(n as real, 0)], Repeat(r.burst, Call("k", r.idleTtl + 1)));
    var calls := Repeat(n, Call("k", 0)) + back;
    if n == 0 {
      assert calls == back;
      assert Awake(r, m, r.idleTtl + 1) == map[];
      FullerAllowsMore(r, m, m, "k", r.idleTtl + 1, r.burst);
    } else {
      assert calls[0] == Call("k", 0) && calls[1..] == Repeat(n - 1, Call("k", 0)) + back;
      assert Awake(r, m, 0) == m;
      assert Level(r, m, "k", 0) == n as real;
      var next := map["k" := Bucket((n - 1) as real, 0)];
      assert Admit(r, m, "k", 0).0 == next && Take(r, m, "k", 0).0 == next;
      DrainThenReturn(r, n - 1);
      assert ForgettingAnswers(r, m, calls)[1..] == ForgettingAnswers(r, next, calls[1..]);
      assert PlainAnswers(r, m, calls)[1..] == PlainAnswers(r, next, calls[1..]);
    }
  }

  /** The calls on which forgetting shows: two bursts, an idle time apart. */
  function TwoBursts(r: Rate): seq<Call> {
    Repeat(r.burst, Call("k", 0)) + Repeat(r.burst, Call("k", r.idleTtl + 1))
  }

  lemma ForgettingShows(r: Rate)
    requires ValidRate(r) && !RefillsWhileIdle(r)
    ensures ForgettingAnswers(r, map[], TwoBursts(r)) != PlainAnswers(r, map[], TwoBursts(r))
  {
    GainAdds(r, r.idleTtl + 1, 0);
    var (calls, n) := (TwoBursts(r), r.burst - 1);
    var rest := Repeat(n, Call("k", 0)) + Repeat(r.burst, Call("k", r.idleTtl + 1));
    assert calls[0] == Call("k", 0) && calls[1..] == rest;
    var next := map["k" := Bucket(n as real, 0)];
    FirstOfBurst(r, next);
    DrainThenReturn(r, n);
    assert ForgettingAnswers(r, map[], calls)[1..] == ForgettingAnswers(r, next, rest);
    assert PlainAnswers(r, map[], calls)[1..] == PlainAnswers(r, next, rest);
  }

  lemma FirstOfBurst(r: Rate, next: Buckets)
    requires r.burst >= 1 && next == map["k" := Bucket((r.burst - 1) as real, 0)]
    ensures Admit(r, map[], "k", 0).0 == next && Take(r, map[], "k", 0).0 == next
  {
    assert Awake(r, map[], 0) == map[];
  }

  /** Over every sequence of calls on any keys, a limiter that forgets idle keys answers as one that
      never forgets: exactly when an empty bucket is full again by the time it can be forgotten. */
  lemma ForgettingInvisible(r: Rate)
    requires ValidRate(r)
    ensures (forall calls: seq<Call> | Monotone(calls) ::
               ForgettingAnswers(r, map[], calls) == PlainAnswers(r, map[], calls))
       <==> RefillsWhileIdle(r)
  {
    if RefillsWhileIdle(r) {
      forall calls: seq<Call> | Monotone(calls)
        ensures ForgettingAnswers(r, map[], calls) == PlainAnswers(r, map[], calls)
      {
        if calls != [] {
          SameLevelsSameAnswers(r, map[], map[], calls[0].now, calls);
        }
      }
    } else {
      ForgettingShows(r);
      assert Monotone(TwoBursts(r));
    }
  }

  /** The broker's defaults: a token every five seconds, five at once, keys kept for four session
      lifetimes of five minutes. */
  lemma DefaultsRefill()
    ensures RefillsWhileIdle(Rate(1.0 / (5 * SECOND) as real, 5, 4 * 5 * MINUTE))
  {
    GainIsLinear(Rate(1.0 / (5 * SECOND) as real, 5, 4 * 5 * MINUTE), 4 * 5 * MINUTE + 1);
  }

  // ----- the start gate ----------------------------------------------------

  datatype Attempt = Attempt(ip: string, hint: string, now: Time)

  /** A start spends a token of its address, and, only if it got one, a token of its login hint. */
  function Gate(r: Rate, ips: Buckets, hints: Buckets, a: Attempt): (Buckets, Buckets, bool) {
    var (ips', ok) := Admit(r, ips, a.ip, a.now);
    if !ok then (ips', hints, false)
    else
      var (hints', ok') := Admit(r, hints, a.hint, a.now);
      (ips', hints', ok')
  }

  /** A start passes exactly if its address has a token and so has its login hint. One that passes
      costs each a token; one refused for its hint costs its address one; one refused for its address
      leaves every hint as it was. */
  lemma GateExactly(r: Rate, ips: Buckets, hints: Buckets, a: Attempt, hint: string)
    requires ValidRate(r) && RefillsWhileIdle(r) && Sane(r, ips, a.now) && Sane(r, hints, a.now)
    ensures var (ips', hints', ok) := Gate(r, ips, hints, a);
      var (ip, own) := (Level(r, ips, a.ip, a.now), Level(r, hints, a.hint, a.now));
      && (ok <==> ip >= 1.0 && own >= 1.0)
      && Level(r, ips', a.ip, a.now) == (if ip >= 1.0 then ip - 1.0 else ip)
      && Level(r, hints', a.hint, a.now) == (if ok then own - 1.0 else own)
      && (ip < 1.0 ==> hints' == hints)
      && (hint != a.hint ==> Level(r, hints', hint, a.now) == Level(r, hints, hint, a.now))
  {
    AdmitStep(r, ips, a.ip, a.now, a.ip);
    AdmitStep(r, hints, a.hint, a.now, a.hint);
    AdmitStep(r, hints, a.hint, a.now, hint);
  }

  /** So the first start from an address and for a hint passes. */
  lemma FirstStartPasses(r: Rate, ips: Buckets, hints: Buckets, a: Attempt)
    requires ValidRate(r) && RefillsWhileIdle(r) && Sane(r, ips, a.now) && Sane(r, hints, a.now)
    requires r.burst >= 1 && a.ip !in ips && a.hint !in hints
    ensures Gate(r, ips, hints, a).2
  {
    GateExactly(r, ips, hints, a, a.hint);
  }

  /** How many of these attempts create a session for this address, or for this hint. */
  function CreatedForIp(r: Rate, ips: Buckets, hints: Buckets, attempts: seq<Attempt>, ip: string): nat
    decreases |attempts|
  {
    if attempts == [] then 0
    else
      var (ips', hints', ok) := Gate(r, ips, hints, attempts[0]);
      (if ok && attempts[0].ip == ip then 1 else 0) + CreatedForIp(r, ips', hints', attempts[1..], ip)
  }

  function CreatedForHint(r: Rate, ips: Buckets, hints: Buckets, attempts: seq<Attempt>, hint: string): nat
    decreases |attempts|
  {
    if attempts == [] then 0
    else
      var (ips', hints', ok) := Gate(r, ips, hints, attempts[0]);
      (if ok && attempts[0].hint == hint then 1 else 0) + CreatedForHint(r, ips', hints', attempts[1..], hint)
  }

  ghost predicate MonotoneFrom(t: Time, attempts: seq<Attempt>) {
    && (forall i | 0 <= i < |attempts| :: t <= attempts[i].now)
    && (forall i, j | 0 <= i < j < |attempts| :: attempts[i].now <= attempts[j].now)
  }

  /** A key's level and the events it was allowed never outgrow its level before plus the gain. */
  ghost predicate WithinBudget(before: real, gain: real, allowed: bool, after: real) {
    after + (if allowed then 1.0 else 0.0) <= before + gain && after >= 0.0
  }

  lemma AdmitBudget(r: Rate, m: Buckets, c: string, t: Time, now: Time, key: string)
    requires ValidRate(r) && RefillsWhileIdle(r) && Sane(r, m, t) && t <= now
    ensures var (next, ok) := Admit(r, m, c, now);
      && Sane(r, next, now)
      && WithinBudget(Level(r, m, key, t), Gain(r, now - t), c == key && ok, Level(r, next, key, now))
  {
    LevelLater(r, m, key, t, now);
    AdmitStep(r, m, c, now, key);
    LevelLater(r, Admit(r, m, c, now).0, key, now, now);
  }

  lemma RestBudget(r: Rate, m: Buckets, t: Time, now: Time, key: string)
    requires ValidRate(r) && Sane(r, m, t) && t <= now
    ensures Sane(r, m, now)
    ensures WithinBudget(Level(r, m, key, t), Gain(r, now - t), false, Level(r, m, key, now))
  {
    LevelLater(r, m, key, t, now);
  }

  lemma GateStep(r: Rate, ips: Buckets, hints: Buckets, t: Time, a: Attempt, ip: string, hint: string)
    requires ValidRate(r) && RefillsWhileIdle(r) && Sane(r, ips, t) && Sane(r, hints, t) && t <= a.now
    ensures var (ips', hints', ok) := Gate(r, ips, hints, a);
      && Sane(r, ips', a.now) && Sane(r, hints', a.now)
      && WithinBudget(Level(r, ips, ip, t), Gain(r, a.now - t), ok && a.ip == ip, Level(r, ips', ip, a.now))
      && WithinBudget(Level(r, hints, hint, t), Gain(r, a.now - t), ok && a.hint == hint, Level(r, hints', hint, a.now))
  {
    AdmitBudget(r, ips, a.ip, t, a.now, ip);
    AdmitBudget(r, hints, a.hint, t, a.now, hint);
    RestBudget(r, hints, t, a.now, hint);
  }

  /** From any state of the two limiters at t, the sessions created by attempts up to end. */
  lemma {:induction false} CreatedFrom(r: Rate, ips: Buckets, hints: Buckets, t: Time, attempts: seq<Attempt>,
                                       ip: string, hint: string, end: Time)
    requires ValidRate(r) && RefillsWhileIdle(r) && Sane(r, ips, t) && Sane(r, hints, t)
    requires MonotoneFrom(t, attempts) && t <= end
    requires attempts != [] ==> attempts[|attempts| - 1].now <= end
    ensures CreatedForIp(r, ips, hints, attempts, ip) as real <= Level(r, ips, ip, t) + Gain(r, end - t)
    ensures CreatedForHint(r, ips, hints, attempts, hint) as real <= Level(r, hints, hint, t) + Gain(r, end - t)
    decreases |attempts|
  {
    if attempts == [] {
      GainAdds(r, end - t, 0);
      LevelLater(r, ips, ip, t, t);
      LevelLater(r, hints, hint, t, t);
    } else {
      var a := attempts[0];
      var (ips', hints', ok) := Gate(r, ips, hints, a);
      GateStep(r, ips, hints, t, a, ip, hint);
      CreatedFrom(r, ips', hints', a.now, attempts[1..], ip, hint, end);
      GainAdds(r, a.now - t, end - a.now);
    }
  }

  /** The limiters after some attempts. */
  function After(r: Rate, ips: Buckets, hints: Buckets, attempts: seq<Attempt>): (Buckets, Buckets)
    decreases |attempts|
  {
    if attempts == [] then (ips, hints)
    else
      var (ips', hints', _) := Gate(r, ips, hints, attempts[0]);
      After(r, ips', hints', attempts[1..])
  }

  lemma {:induction false} AfterIsSane(
    r: Rate, ips: Buckets, hints: Buckets, t: Time, attempts: seq<Attempt>, now: Time)
    requires ValidRate(r) && RefillsWhileIdle(r) && Sane(r, ips, t) && Sane(r, hints, t)
    requires MonotoneFrom(t, attempts) && t <= now && forall i | 0 <= i < |attempts| :: attempts[i].now <= now
    ensures var (ips', hints') := After(r, ips, hints, attempts); Sane(r, ips', now) && Sane(r, hints', now)
    decreases |attempts|
  {
    if attempts != [] {
      var a := attempts[0];
      var (ips', hints', ok) := Gate(r, ips, hints, a);
      GateStep(r, ips, hints, t, a, a.ip, a.hint);
      AfterIsSane(r, ips', hints', a.now, attempts[1..], now);
    }
  }

  lemma SpanIsMonotone(before: seq<Attempt>, span: seq<Attempt>)
    requires span != [] && MonotoneFrom((before + span)[0].now, before + span)
    ensures var (t, start) := ((before + span)[0].now, span[0].now);
      && t <= start && MonotoneFrom(t, before) && MonotoneFrom(start, span)
      && forall i | 0 <= i < |before| :: before[i].now <= start
  {
    var all := before + span;
    assert all[|before|] == span[0];
    forall i | 0 <= i < |before| ensures before[i] == all[i] {
    }
    forall i | 0 <= i < |span| ensures span[i] == all[|before| + i] {
    }
    forall i, j | 0 <= i < j < |span| ensures span[i].now <= span[j].now {
      assert all[|before| + i].now <= all[|before| + j].now;
    }
  }

  /** Whatever was attempted before, by anyone, a span of attempts creates at most burst sessions
      plus what the limit yields over the span, per address and per login hint. */
  lemma StartsAreLimited(r: Rate, before: seq<Attempt>, span: seq<Attempt>, ip: string, hint: string)
    requires ValidRate(r) && RefillsWhileIdle(r) && span != []
    requires MonotoneFrom((before + span)[0].now, before + span)
    ensures var (ips, hints) := After(r, map[], map[], before);
      var gain := Gain(r, span[|span| - 1].now - span[0].now);
      && CreatedForIp(r, ips, hints, span, ip) as real <= r.burst as real + gain
      && CreatedForHint(r, ips, hints, span, hint) as real <= r.burst as real + gain
  {
    var all := before + span;
    var start := span[0].now;
    SpanIsMonotone(before, span);
    assert all[0].now <= start;
    AfterIsSane(r, map[], map[], all[0].now, before, start);
    var (ips, hints) := After(r, map[], map[], before);
    CreatedFrom(r, ips, hints, start, span, ip, hint, span[|span| - 1].now);
    LevelLater(r, ips, ip, start, start);
    LevelLater(r, hints, hint, start, start);
  }
}
