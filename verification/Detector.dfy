/** The abuse detector: occurrences counted per kind and key in fixed windows, with a single
    suspected_abuse event when a window's count reaches the kind's threshold. */
module AbuseDetector {
  import opened Prelude
  import opened Handlers

  function KindName(kind: SignalKind): string {
    match kind
    case WrongCode => "wrong_code"
    case RepeatedStart => "repeated_start"
    case ConsumedReplay => "consumed_replay"
    case IdentityMismatchSignal => "identity_mismatch"
  }

  const SUSPECTED_ABUSE := "suspected_abuse"

  datatype Thresholds = Thresholds(wrongCode: int, repeatedStart: int, identityMismatch: int, window: Duration)

  const DEFAULT_THRESHOLDS := Thresholds(3, 5, 3, 5 * MINUTE)

  function ThresholdFor(t: Thresholds, kind: SignalKind): int {
    match kind
    case WrongCode => t.wrongCode
    case RepeatedStart => t.repeatedStart
    case IdentityMismatchSignal => t.identityMismatch
    case ConsumedReplay => 0
  }

  datatype SecurityEvent = SecurityEvent(kind: string, sessionId: string, key: string, at: Time)
  datatype Counter = Counter(count: nat, windowEnd: Time)

  function MapKey(kind: SignalKind, key: string): string {
    KindName(kind) + "|" + key
  }

  function FirstBar(s: string): nat {
    if s == "" || s[0] == '|' then 0 else 1 + FirstBar(s[1..])
  }

  lemma {:induction false} FirstBarAfter(name: string, key: string)
    requires '|' !in name
    ensures FirstBar(name + "|" + key) == |name|
  {
    if name == "" {
      assert name + "|" + key == "|" + key;
    } else {
      FirstBarAfter(name[1..], key);
      assert (name + "|" + key)[1..] == name[1..] + "|" + key;
    }
  }

  /** No two kinds or keys share a counter: no kind's name contains the separator. */
  lemma MapKeyInjective(kind: SignalKind, key: string, kind': SignalKind, key': string)
    ensures MapKey(kind, key) == MapKey(kind', key') <==> kind == kind' && key == key'
  {
    var (n, n', m) := (KindName(kind), KindName(kind'), MapKey(kind, key));
    FirstBarAfter(n, key);
    FirstBarAfter(n', key');
    assert m[..|n|] == n && m[|n| + 1..] == key;
    var m' := MapKey(kind', key');
    assert m'[..|n'|] == n' && m'[|n'| + 1..] == key';
    if m == m' {
      assert n == n' && n[0] == n'[0];
    }
  }

  // ----- greedy windows ----------------------------------------------------

  /** Observation times of one counter. The first opens a window; each later one joins the open
      window unless it lies past its end, and then opens the next. Leader is the index of the
      observation that opened the window of observation i. */
  function Leader(window: Duration, ts: seq<Time>, i: nat): (l: nat)
    requires i < |ts|
    ensures l <= i
  {
    if i == 0 then 0
    else
      var l := Leader(window, ts, i - 1);
      if ts[i] > ts[l] + window then i else l
  }

  /** Observation i is the one that brings its window's count to the threshold. */
  predicate Trips(window: Duration, threshold: int, ts: seq<Time>, i: nat)
    requires i < |ts|
  {
    i - Leader(window, ts, i) + 1 == threshold
  }

  function CounterAfter(window: Duration, ts: seq<Time>): Counter
    requires ts != []
  {
    var l := Leader(window, ts, |ts| - 1);
    Counter(|ts| - l, ts[l] + window)
  }

  lemma {:induction false} LeaderOfPrefix(window: Duration, ts: seq<Time>, now: Time, i: nat)
    requires i < |ts|
    ensures Leader(window, ts + [now], i) == Leader(window, ts, i)
  {
    if i > 0 {
      LeaderOfPrefix(window, ts, now, i - 1);
    }
  }

  /** How one more observation moves the counter, and when it trips. */
  lemma CounterStep(window: Duration, threshold: int, ts: seq<Time>, now: Time)
    ensures CounterAfter(window, ts + [now]) ==
      if ts == [] || now > CounterAfter(window, ts).windowEnd then Counter(1, now + window)
      else CounterAfter(window, ts).(count := CounterAfter(window, ts).count + 1)
    ensures Trips(window, threshold, ts + [now], |ts|) <==> CounterAfter(window, ts + [now]).count == threshold
  {
    if ts != [] {
      LeaderOfPrefix(window, ts, now, |ts| - 1);
    }
  }

  type Seen = map<string, seq<Time>>

  function Times(seen: Seen, mapKey: string): seq<Time> {
    if mapKey in seen then seen[mapKey] else []
  }

  /** An observation of a kind with a threshold is counted; of another kind, only reported. */
  function SeenAfter(t: Thresholds, seen: Seen, kind: SignalKind, key: string, now: Time): Seen {
    var k := MapKey(kind, key);
    if ThresholdFor(t, kind) > 0 then seen[k := Times(seen, k) + [now]] else seen
  }

  predicate TripsNow(t: Thresholds, seen: Seen, kind: SignalKind, key: string, now: Time) {
    var ts := Times(seen, MapKey(kind, key));
    ThresholdFor(t, kind) > 0 && Trips(t.window, ThresholdFor(t, kind), ts + [now], |ts|)
  }

  /** Every observation is reported, and suspected abuse once more when it trips its window. */
  function EventsOf(t: Thresholds, seen: Seen, kind: SignalKind, key: string, sessionId: string, now: Time)
    : seq<SecurityEvent>
  {
    [SecurityEvent(KindName(kind), sessionId, key, now)] +
      if TripsNow(t, seen, kind, key, now)
      then [SecurityEvent(SUSPECTED_ABUSE, sessionId, KindName(kind) + ":" + key, now)] else []
  }

  /** Each counter is the one its observations leave behind. */
  ghost predicate Tracks(window: Duration, counts: map<string, Counter>, seen: Seen) {
    && (forall k :: k in counts <==> k in seen)
    && (forall k | k in counts :: seen[k] != [] && counts[k] == CounterAfter(window, seen[k]))
  }

  /** The counter of key k after one more observation. */
  function Bumped(window: Duration, counts: map<string, Counter>, k: string, now: Time): Counter {
    var e := if k !in counts || now > counts[k].windowEnd then Counter(0, now + window) else counts[k];
    e.(count := e.count + 1)
  }

  lemma BumpTracks(window: Duration, threshold: int, counts: map<string, Counter>, seen: Seen, k: string, now: Time)
    requires Tracks(window, counts, seen)
    ensures Tracks(window, counts[k := Bumped(window, counts, k, now)], seen[k := Times(seen, k) + [now]])
    ensures Trips(window, threshold, Times(seen, k) + [now], |Times(seen, k)|)
       <==> Bumped(window, counts, k, now).count == threshold
  {
    CounterStep(window, threshold, Times(seen, k), now);
  }

  class Detector {
    const thresholds: Thresholds
    const listening: bool
    var counts: map<string, Counter>
    var emitted: seq<SecurityEvent>
    /** Every counted observation's time, by counter. */
    ghost var seen: Seen

    ghost predicate Valid()
      reads this
    {
      Tracks(thresholds.window, counts, seen)
    }

    constructor (thresholds: Thresholds, listening: bool)
      ensures Valid() && emitted == [] && seen == map[]
      ensures this.thresholds == thresholds && this.listening == listening
    {
      this.thresholds, this.listening := thresholds, listening;
      counts, emitted, seen := map[], [], map[];
    }

    method Tripped(kind: SignalKind, key: string, threshold: int, now: Time) returns (tripped: bool)
      requires Valid()
      modifies this`counts, this`seen
      ensures Valid()
      ensures seen == old(seen)[MapKey(kind, key) := Times(old(seen), MapKey(kind, key)) + [now]]
      ensures var ts := Times(old(seen), MapKey(kind, key));
        tripped <==> Trips(thresholds.window, threshold, ts + [now], |ts|)
    {
      var k := MapKey(kind, key);
      BumpTracks(thresholds.window, threshold, counts, seen, k, now);
      seen := seen[k := Times(seen, k) + [now]];
      var e := if k !in counts || now > counts[k].windowEnd then Counter(0, now + thresholds.window) else counts[k];
      e := e.(count := e.count + 1);
      counts := counts[k := e];
      tripped := e.count == threshold;
    }

    /** Reports the occurrence, and once per window that it is suspected abuse. */
    method Observe(kind: SignalKind, key: string, sessionId: string, now: Time)
      requires Valid()
      modifies this
      ensures Valid()
      ensures seen == SeenAfter(thresholds, old(seen), kind, key, now)
      ensures emitted == old(emitted) +
        if listening then EventsOf(thresholds, old(seen), kind, key, sessionId, now) else []
    {
      if listening {
        emitted := emitted + [SecurityEvent(KindName(kind), sessionId, key, now)];
      }
      var threshold := ThresholdFor(thresholds, kind);
      if threshold <= 0 {
        return;
      }
      var tripped := Tripped(kind, key, threshold, now);
      if tripped && listening {
        emitted := emitted + [SecurityEvent(SUSPECTED_ABUSE, sessionId, KindName(kind) + ":" + key, now)];
      }
    }
  }

  // ----- what the windows guarantee ----------------------------------------

  ghost predicate Monotone(ts: seq<Time>) {
    forall i, j | 0 <= i < j < |ts| :: ts[i] <= ts[j]
  }

  /** A window is a contiguous run of observations. */
  lemma {:induction false} WindowContiguous(window: Duration, ts: seq<Time>, i: nat, m: nat)
    requires i < |ts| && Leader(window, ts, i) <= m <= i
    ensures Leader(window, ts, m) == Leader(window, ts, i)
  {
    if m < i {
      WindowContiguous(window, ts, i - 1, m);
    }
  }

  function WindowSize(window: Duration, ts: seq<Time>, l: nat, n: nat): nat
    requires n <= |ts|
  {
    if n == 0 then 0
    else WindowSize(window, ts, l, n - 1) + if Leader(window, ts, n - 1) == l then 1 else 0
  }

  function WindowTrips(window: Duration, threshold: int, ts: seq<Time>, l: nat, n: nat): nat
    requires n <= |ts|
  {
    if n == 0 then 0
    else WindowTrips(window, threshold, ts, l, n - 1)
         + if Leader(window, ts, n - 1) == l && Trips(window, threshold, ts, n - 1) then 1 else 0
  }

  lemma {:induction false} SizeIsOffset(window: Duration, ts: seq<Time>, l: nat, n: nat)
    requires n < |ts|
    ensures Leader(window, ts, n) == l ==> WindowSize(window, ts, l, n) == n - l
    ensures n <= l ==> WindowSize(window, ts, l, n) == 0
  {
    if n > 0 {
      SizeIsOffset(window, ts, l, n - 1);
      if Leader(window, ts, n) == l && l < n {
        WindowContiguous(window, ts, n, n - 1);
      }
    }
  }

  /** A window trips exactly once if it reaches the threshold, and otherwise never. */
  lemma {:induction false} TripsOncePerWindow(window: Duration, threshold: int, ts: seq<Time>, l: nat, n: nat)
    requires n <= |ts| && threshold >= 1
    ensures WindowTrips(window, threshold, ts, l, n)
         == if WindowSize(window, ts, l, n) >= threshold then 1 else 0
  {
    if n > 0 {
      TripsOncePerWindow(window, threshold, ts, l, n - 1);
      SizeIsOffset(window, ts, l, n - 1);
    }
  }

  lemma {:induction false} NoNewWindowBefore(window: Duration, ts: seq<Time>, m: nat, x: nat)
    requires m <= x < |ts| && Leader(window, ts, m) == m
    requires forall y | m <= y <= x :: ts[y] <= ts[m] + window
    ensures Leader(window, ts, x) == m
  {
    if m < x {
      NoNewWindowBefore(window, ts, m, x - 1);
    }
  }

  /** Observation j trips, and its window has an observation among i to k. */
  ghost predicate TripOverlaps(window: Duration, threshold: int, ts: seq<Time>, i: nat, k: nat, j: nat)
    requires i <= k < |ts| && j < |ts|
  {
    && Trips(window, threshold, ts, j)
    && exists m: nat | i <= m <= k :: Leader(window, ts, m) == Leader(window, ts, j)
  }

  /** If the window of i is still open T-1 observations later, it trips. */
  lemma OpenWindowTrips(window: Duration, threshold: nat, ts: seq<Time>, i: nat, k: nat) returns (j: nat)
    requires threshold >= 1 && i + threshold - 1 <= k < |ts|
    requires Leader(window, ts, i + threshold - 1) == Leader(window, ts, i)
    ensures j < |ts| && TripOverlaps(window, threshold, ts, i, k, j)
  {
    var l := Leader(window, ts, i);
    j := l + threshold - 1;
    WindowContiguous(window, ts, i + threshold - 1, j);
    assert Leader(window, ts, i) == Leader(window, ts, j);
  }

  /** A window that opens early enough in the burst stays open for T observations. */
  lemma EarlyWindowTrips(window: Duration, threshold: nat, ts: seq<Time>, i: nat, k: nat, m: nat) returns (j: nat)
    requires Monotone(ts) && threshold >= 1
    requires i <= m && m + threshold - 1 <= k < |ts| && ts[k] <= ts[i] + window
    requires Leader(window, ts, m) == m
    ensures j < |ts| && TripOverlaps(window, threshold, ts, i, k, j)
  {
    var x := m + threshold - 1;
    forall y | m <= y <= x ensures ts[y] <= ts[m] + window {
      assert y == k || ts[y] <= ts[k];
      assert m == i || ts[i] <= ts[m];
    }
    NoNewWindowBefore(window, ts, m, x);
    j := OpenWindowTrips(window, threshold, ts, m, k);
  }

  /** However the windows fall, 2T-1 observations within one window's length overlap a window
      that trips. */
  lemma BurstOverlapsTrip(window: Duration, threshold: nat, ts: seq<Time>, i: nat, k: nat)
    requires Monotone(ts) && threshold >= 1
    requires k == i + 2 * threshold - 2 < |ts| && ts[k] <= ts[i] + window
    ensures exists j: nat | j < |ts| :: TripOverlaps(window, threshold, ts, i, k, j)
  {
    var x := i + threshold - 1;
    var m := Leader(window, ts, x);
    if m <= i {
      WindowContiguous(window, ts, x, i);
      var j := OpenWindowTrips(window, threshold, ts, i, k);
    } else {
      WindowContiguous(window, ts, x, m);
      var j := EarlyWindowTrips(window, threshold, ts, i, k, m);
    }
  }

  lemma {:induction false} WithinWindow(window: Duration, ts: seq<Time>, i: nat)
    requires i < |ts| && window >= 0
    ensures ts[i] <= ts[Leader(window, ts, i)] + window
  {
  }

  /** A later window opens more than a window's length after an earlier one did. */
  lemma {:induction false} NextWindow(window: Duration, ts: seq<Time>, i: nat, j: nat)
    requires Monotone(ts) && window >= 0 && i < j < |ts|
    requires Leader(window, ts, i) != Leader(window, ts, j)
    ensures i < Leader(window, ts, j) && ts[Leader(window, ts, j)] > ts[Leader(window, ts, i)] + window
  {
    var (l, m) := (Leader(window, ts, i), Leader(window, ts, j));
    if m <= i {
      WindowContiguous(window, ts, j, i);
      assert false;
    }
    WindowContiguous(window, ts, j, m);
    var p := Leader(window, ts, m - 1);
    assert ts[m] > ts[p] + window;
    if l != p {
      if i < m - 1 {
        NextWindow(window, ts, i, m - 1);
      }
    }
  }

  ghost predicate TripSequence(window: Duration, threshold: int, ts: seq<Time>, trips: seq<nat>) {
    && (forall a | 0 <= a < |trips| :: trips[a] < |ts| && Trips(window, threshold, ts, trips[a]))
    && (forall a, b | 0 <= a < b < |trips| :: trips[a] < trips[b])
  }

  lemma {:induction false} TripsMoveOn(window: Duration, threshold: int, ts: seq<Time>, trips: seq<nat>, a: nat)
    requires Monotone(ts) && window >= 0 && TripSequence(window, threshold, ts, trips) && 1 <= a < |trips|
    ensures ts[Leader(window, ts, trips[a])] > ts[trips[0]] + (a - 1) * window
  {
    NextWindow(window, ts, trips[a - 1], trips[a]);
    if a == 1 {
      WithinWindow(window, ts, trips[0]);
    } else {
      TripsMoveOn(window, threshold, ts, trips, a - 1);
      assert (a - 1) * window == (a - 2) * window + window;
    }
  }

  /** Fewer than L/window + 2 trips happen in any span of length L. */
  lemma TripsAreSpaced(window: Duration, threshold: int, ts: seq<Time>, trips: seq<nat>, span: Duration)
    requires Monotone(ts) && window > 0 && TripSequence(window, threshold, ts, trips)
    requires trips != [] && ts[trips[|trips| - 1]] - ts[trips[0]] <= span
    ensures (|trips| - 2) * window < span || |trips| == 1
  {
    if |trips| >= 2 {
      var a := |trips| - 1;
      TripsMoveOn(window, threshold, ts, trips, a);
      assert Leader(window, ts, trips[a]) <= trips[a];
    }
  }

  // ----- what is never counted ---------------------------------------------

  datatype Observation = Observation(kind: SignalKind, key: string, sessionId: string, now: Time)

  function SeenThrough(t: Thresholds, seen: Seen, os: seq<Observation>): Seen
    decreases |os|
  {
    if os == [] then seen else SeenThrough(t, SeenAfter(t, seen, os[0].kind, os[0].key, os[0].now), os[1..])
  }

  /** The suspected_abuse events of a run of observations. */
  function AlertsThrough(t: Thresholds, seen: Seen, os: seq<Observation>): seq<SecurityEvent>
    decreases |os|
  {
    if os == [] then []
    else
      var o := os[0];
      EventsOf(t, seen, o.kind, o.key, o.sessionId, o.now)[1..]
      + AlertsThrough(t, SeenAfter(t, seen, o.kind, o.key, o.now), os[1..])
  }

  function Unreplayed(os: seq<Observation>): seq<Observation> {
    if os == [] then []
    else (if os[0].kind.ConsumedReplay? then [] else [os[0]]) + Unreplayed(os[1..])
  }

  /** Whatever the thresholds, replayed polls of consumed sessions raise no alert and move no
      counter: a run has the counters and alerts it would have without them. */
  lemma {:induction false} ReplaysNeverCount(t: Thresholds, seen: Seen, os: seq<Observation>)
    ensures SeenThrough(t, seen, os) == SeenThrough(t, seen, Unreplayed(os))
    ensures AlertsThrough(t, seen, os) == AlertsThrough(t, seen, Unreplayed(os))
    decreases |os|
  {
    if os != [] {
      var (o, rest) := (os[0], Unreplayed(os[1..]));
      var next := SeenAfter(t, seen, o.kind, o.key, o.now);
      ReplaysNeverCount(t, next, os[1..]);
      if o.kind.ConsumedReplay? {
        assert next == seen && EventsOf(t, seen, o.kind, o.key, o.sessionId, o.now)[1..] == [];
        assert Unreplayed(os) == rest;
      } else {
        assert Unreplayed(os)[1..] == rest;
      }
    }
  }

  // ----- which observation raises the alert --------------------------------

  /** The count at which a kind is suspected, by default; none for replays. */
  function DefaultCount(kind: SignalKind): Option<nat> {
    match kind
    case WrongCode => Some(3)
    case RepeatedStart => Some(5)
    case IdentityMismatchSignal => Some(3)
    case ConsumedReplay => None
  }

  lemma {:induction false} OneWindow(window: Duration, ts: seq<Time>, i: nat)
    requires i < |ts| && forall j | 0 <= j < |ts| :: ts[j] <= ts[0] + window
    ensures Leader(window, ts, i) == 0
  {
    if i > 0 {
      OneWindow(window, ts, i - 1);
    }
  }

  /** By default, of the observations of one kind under one key within five minutes of the first, the
      third wrong code, the fifth start and the third mismatch raise the alert, and no other does. */
  lemma DefaultAlertsExactly(seen: Seen, kind: SignalKind, key: string, now: Time)
    requires var ts := Times(seen, MapKey(kind, key)) + [now];
      forall j | 0 <= j < |ts| :: ts[j] <= ts[0] + 300_000_000_000
    ensures var n := |Times(seen, MapKey(kind, key))| + 1;
      TripsNow(DEFAULT_THRESHOLDS, seen, kind, key, now) <==> DefaultCount(kind) == Some(n)
  {
    var ts := Times(seen, MapKey(kind, key)) + [now];
    OneWindow(DEFAULT_THRESHOLDS.window, ts, |ts| - 1);
  }

  /** Later than that the count starts again. */
  lemma DefaultWindowEnds(seen: Seen, kind: SignalKind, key: string, now: Time)
    requires var ts := Times(seen, MapKey(kind, key));
      && ts != [] && (forall j | 0 <= j < |ts| :: ts[j] <= ts[0] + 300_000_000_000)
      && now > ts[0] + 300_000_000_000
    ensures !TripsNow(DEFAULT_THRESHOLDS, seen, kind, key, now)
    ensures var ts := Times(seen, MapKey(kind, key)) + [now];
      Leader(DEFAULT_THRESHOLDS.window, ts, |ts| - 1) == |ts| - 1
  {
    var ts := Times(seen, MapKey(kind, key)) + [now];
    OneWindow(DEFAULT_THRESHOLDS.window, ts[..|ts| - 1], |ts| - 2);
    LeaderOfPrefix(DEFAULT_THRESHOLDS.window, Times(seen, MapKey(kind, key)), now, |ts| - 2);
    assert ts[..|ts| - 1] == Times(seen, MapKey(kind, key));
  }

  /** What an observation adds to the counters: itself, to its own, if its kind is counted at all. */
  lemma CountedExactly(
    t: Thresholds, seen: Seen, kind: SignalKind, key: string, now: Time, other: SignalKind, k: string)
    ensures Times(SeenAfter(t, seen, kind, key, now), MapKey(other, k)) ==
      Times(seen, MapKey(other, k)) +
      if other == kind && k == key && ThresholdFor(t, kind) > 0 then [now] else []
  {
    MapKeyInjective(kind, key, other, k);
  }

  /** The events as they are reported. */
  lemma EventsRead(t: Thresholds, seen: Seen, kind: SignalKind, key: string, id: string, now: Time)
    ensures var name :=
        if kind.WrongCode? then "wrong_code" else if kind.RepeatedStart? then "repeated_start"
        else if kind.ConsumedReplay? then "consumed_replay" else "identity_mismatch";
      var events := EventsOf(t, seen, kind, key, id, now);
      && |events| == (if TripsNow(t, seen, kind, key, now) then 2 else 1)
      && events[0] == SecurityEvent(name, id, key, now)
      && (|events| == 2 ==> events[1] == SecurityEvent("suspected_abuse", id, name + ":" + key, now))
  {
  }

  /** The alerts that observations of one kind raise in a run. */
  function AlertsOf(t: Thresholds, seen: Seen, os: seq<Observation>, kind: SignalKind): seq<SecurityEvent>
    decreases |os|
  {
    if os == [] then []
    else
      var o := os[0];
      (if o.kind == kind then EventsOf(t, seen, o.kind, o.key, o.sessionId, o.now)[1..] else [])
      + AlertsOf(t, SeenAfter(t, seen, o.kind, o.key, o.now), os[1..], kind)
  }

  /** Each kind goes by the window and by its own threshold only. */
  predicate SameFor(kind: SignalKind, t: Thresholds, t': Thresholds) {
    && t.window == t'.window
    && (kind.WrongCode? ==> t.wrongCode == t'.wrongCode)
    && (kind.RepeatedStart? ==> t.repeatedStart == t'.repeatedStart)
    && (kind.IdentityMismatchSignal? ==> t.identityMismatch == t'.identityMismatch)
  }

  /** However the other kinds' thresholds are set, a kind raises the same alerts. */
  lemma {:induction false} ThresholdsAreSeparate(
    t: Thresholds, t': Thresholds, seen: Seen, seen': Seen, os: seq<Observation>, kind: SignalKind)
    requires SameFor(kind, t, t')
    requires forall key :: Times(seen, MapKey(kind, key)) == Times(seen', MapKey(kind, key))
    ensures AlertsOf(t, seen, os, kind) == AlertsOf(t', seen', os, kind)
    decreases |os|
  {
    if os != [] {
      var o := os[0];
      var (next, next') := (SeenAfter(t, seen, o.kind, o.key, o.now), SeenAfter(t', seen', o.kind, o.key, o.now));
      forall key ensures Times(next, MapKey(kind, key)) == Times(next', MapKey(kind, key)) {
        MapKeyInjective(o.kind, o.key, kind, key);
      }
      ThresholdsAreSeparate(t, t', next, next', os[1..], kind);
    }
  }
}
