/** What a run of overlapping handlers can still do to a session: a copy fetched before the session
    closes can be written back afterwards and reopen it, and a session still open can be fetched any
    number of times before anything is written. */
module Outlook {
  import opened Prelude
  import opened SessionModel
  import opened Handlers
  import opened SerialRuns
  import opened Interleaving
  import opened Isolation
  import UserCode

  lemma {:induction false} ReachConcat(env: Env, w: World, before: seq<Step>, after: seq<Step>)
    ensures Reach(env, w, before + after) == Reach(env, Reach(env, w, before), after)
    decreases |before|
  {
    if before == [] {
      assert before + after == after;
    } else {
      assert (before + after)[1..] == before[1..] + after;
      ReachConcat(env, Next(env, w, before[0]), before[1..], after);
    }
  }

  lemma ReachOne(env: Env, w: World, step: Step)
    ensures Reach(env, w, [step]) == Next(env, w, step)
  {
    assert [step][1..] == [];
  }

  lemma ReachThen(env: Env, w: World, step: Step, after: seq<Step>)
    ensures Reach(env, w, [step] + after) == Reach(env, Next(env, w, step), after)
  {
    assert ([step] + after)[1..] == after;
  }

  /** A handler that fetches, and writes back before anything else happens. */
  function Alone(h: nat, id: string, req: Request, now: Time): seq<Step> {
    [Fetch(h, id, req, now), Finish(h, now)]
  }

  lemma AloneServes(env: Env, w: World, h: nat, id: string, req: Request, now: Time)
    requires h !in w.flights && id in w.store
    ensures var e := Handle(env, w.store[id], now, req);
      Reach(env, w, Alone(h, id, req, now)) ==
        w.(store := if e.writes then w.store[id := e.next] else w.store,
           log := w.log + [Answered(id, now, req, Some(w.store[id]), e.response)])
  {
    var v := Next(env, w, Fetch(h, id, req, now));
    ReachThen(env, w, Fetch(h, id, req, now), [Finish(h, now)]);
    ReachOne(env, v, Finish(h, now));
    assert v.flights - {h} == w.flights;
  }

  // ----- two things a session can come to ----------------------------------

  /** Its artifact is released, or its code is compared. */
  datatype Goal = Collection | Comparison

  /** A session that the goal can still come of. */
  predicate OpenFor(goal: Goal, s: SessionData) {
    match goal
    case Collection => !s.consumed && !s.state.Denied? && !s.state.Expired?
    case Comparison => s.state.Pending? || s.state.AwaitingApproval?
  }

  predicate OpenAt(goal: Goal, s: SessionData, t: Time) {
    OpenFor(goal, Settle(s, t))
  }

  /** A handler of s that does this now reaches the goal. */
  predicate Hits(env: Env, goal: Goal, s: SessionData, now: Time, req: Request) {
    match goal
    case Collection => IsRelease(Handle(env, s, now, req).response)
    case Comparison => Compares(env, Some(s), Op(now, Serve(req)))
  }

  predicate EventHits(env: Env, goal: Goal, e: Event) {
    match goal
    case Collection => ReleasesArtifact(e)
    case Comparison => e.Answered? && Compares(env, e.seen, Op(e.now, Serve(e.req)))
  }

  /** How often the session has come to it. */
  function Total(env: Env, goal: Goal, log: seq<Event>, id: string): nat {
    match goal
    case Collection => ReleasesIn(ExchangesOf(log, id))
    case Comparison => ComparisonsIn(env, ExchangesOf(log, id))
  }

  lemma TotalAppend(env: Env, goal: Goal, log: seq<Event>, e: Event, id: string)
    requires e.Started? ==> e.terms.id != id
    ensures Total(env, goal, log + [e], id) == Total(env, goal, log, id) + Bit(EventHits(env, goal, e) && e.id == id)
  {
    LogAppend(log, e, id);
    if e.Answered? && e.id == id {
      CountsAppend(env, ExchangesOf(log, id), Exchange(Op(e.now, Serve(e.req)), e.seen, Some(e.response)));
    }
  }

  // ----- handlers that carry a session -------------------------------------

  predicate FromBoundBrowser(env: Env, s: SessionData, cookie: string) {
    env.HashBinding(cookie) == s.bindingHash
  }

  /** Finishing at t, the handler reaches the goal: a poll with the verifier of an approved session not
      collected, or an approving form with the token, from the bound browser. */
  predicate Reaches(env: Env, goal: Goal, f: Flight, t: Time) {
    var s := f.copy;
    match goal
    case Collection => s.state.Approved? && !s.consumed && f.req.Poll? && env.Verifies(f.req.verifier, s.terms)
    case Comparison =>
      && s.state.AwaitingApproval? && Live(s, t)
      && f.req.Approve? && f.req.approve && SameToken(f.req.csrfToken, s.csrfToken)
      && FromBoundBrowser(env, s, f.req.cookie)
  }

  /** Finishing at t, the handler writes its copy back as a session that the goal can still come of:
      any poll, short of a collection; a visit to the link that starts a leg; a reply to the leg that
      matches the login hint; a form with the token that is from another browser, or approves and is
      not the last wrong code. */
  predicate Reopens(env: Env, goal: Goal, f: Flight, t: Time) {
    var s := f.copy;
    var uncollected := goal.Collection? && s.state.Approved? && !s.consumed;
    match f.req
    case Poll(verifier) => Live(s, t) || (uncollected && !env.Verifies(verifier, s.terms))
    case Verify(_, newLeg) => s.state.Pending? && Live(s, t) && newLeg.Some?
    case Callback(reply, secret, _) =>
      && s.state.Pending? && Live(s, t) && secret.Some?
      && CompleteLogin(s, reply).Some?
      && env.Normalize(CompleteLogin(s, reply).value.value) == env.Normalize(s.terms.loginHint)
    case Approve(csrf, code, approve, cookie) =>
      && SameToken(csrf, s.csrfToken)
      && (uncollected
          || (s.state.AwaitingApproval? && Live(s, t)
              && (!FromBoundBrowser(env, s, cookie) || (approve && LeavesOpen(goal, s, code)))))
  }

  predicate LeavesOpen(goal: Goal, s: SessionData, code: string) {
    if UserCode.CodesEqual(code, s.terms.userCode) then goal.Collection?
    else s.approveAttempts + 1 < MAX_APPROVE_ATTEMPTS
  }

  /** These guards say what the handler does if it finishes at t, and at any later time it does no more. */
  ghost predicate Judged(env: Env, goal: Goal, f: Flight, t: Time, now: Time) {
    var e := Handle(env, f.copy, now, f.req);
    && (Hits(env, goal, f.copy, now, f.req) ==> Reaches(env, goal, f, t))
    && (e.writes && OpenAt(goal, e.next, t) ==> Reopens(env, goal, f, t))
    && (now == t && Reaches(env, goal, f, t) ==> Hits(env, goal, f.copy, now, f.req))
    && (now == t && Reopens(env, goal, f, t) ==> e.writes && OpenAt(goal, e.next, t))
  }

  lemma VerifyJudged(env: Env, goal: Goal, f: Flight, t: Time, now: Time)
    requires Sound(env, f.copy) && t <= now && f.req.Verify?
    ensures Judged(env, goal, f, t, now)
  {
  }

  lemma CallbackJudged(env: Env, goal: Goal, f: Flight, t: Time, now: Time)
    requires Sound(env, f.copy) && t <= now && f.req.Callback?
    ensures Judged(env, goal, f, t, now)
  {
  }

  lemma ApproveJudged(env: Env, goal: Goal, f: Flight, t: Time, now: Time)
    requires Sound(env, f.copy) && t <= now && f.req.Approve?
    ensures Judged(env, goal, f, t, now)
  {
  }

  lemma PollJudged(env: Env, goal: Goal, f: Flight, t: Time, now: Time)
    requires Sound(env, f.copy) && t <= now && f.req.Poll?
    ensures Judged(env, goal, f, t, now)
  {
  }

  lemma HandlerJudged(env: Env, goal: Goal, f: Flight, t: Time, now: Time)
    requires Sound(env, f.copy) && t <= now
    ensures Judged(env, goal, f, t, now)
  {
    match f.req
    case Verify(_, _) => VerifyJudged(env, goal, f, t, now);
    case Callback(_, _, _) => CallbackJudged(env, goal, f, t, now);
    case Approve(_, _, _, _) => ApproveJudged(env, goal, f, t, now);
    case Poll(_) => PollJudged(env, goal, f, t, now);
  }

  /** The guards are exact, for every sound copy, both goals and every time. */
  lemma CarriersExactly(env: Env, goal: Goal, f: Flight, t: Time)
    requires Sound(env, f.copy)
    ensures Reaches(env, goal, f, t) <==> Hits(env, goal, f.copy, t, f.req)
    ensures var e := Handle(env, f.copy, t, f.req);
      Reopens(env, goal, f, t) <==> e.writes && OpenAt(goal, e.next, t)
  {
    HandlerJudged(env, goal, f, t, t);
  }

  function Hitters(env: Env, goal: Goal, w: World, id: string, t: Time): set<nat> {
    set h | h in w.flights && w.flights[h].id == id && Reaches(env, goal, w.flights[h], t)
  }

  /** The session is stored, and is open or some handler would write it back open. */
  ghost predicate Reopenable(env: Env, goal: Goal, w: World, id: string, t: Time) {
    && id in w.store
    && (OpenAt(goal, w.store[id], t)
        || exists h | h in w.flights :: w.flights[h].id == id && Reopens(env, goal, w.flights[h], t))
  }

  // ----- continuations from a time on --------------------------------------

  function TimeOf(step: Step, t: Time): Time {
    match step
    case Start(_) => t
    case Fetch(_, _, _, now) => now
    case Finish(_, now) => now
    case SweepStore(now) => now
  }

  /** From t on, the clock never goes back. */
  predicate Forward(t: Time, steps: seq<Step>)
    decreases |steps|
  {
    steps == [] || (t <= TimeOf(steps[0], t) && Forward(TimeOf(steps[0], t), steps[1..]))
  }

  /** Some continuation from t on comes to the goal at least n more times. */
  ghost predicate Ahead(env: Env, goal: Goal, w: World, id: string, t: Time, n: nat) {
    exists steps: seq<Step> | Forward(t, steps) ::
      Total(env, goal, Reach(env, w, steps).log, id) >= Total(env, goal, w.log, id) + n
  }

  // Once a session is closed, what is left to come is what handlers in flight reach.

  lemma SmallerSet(a: set<nat>, b: set<nat>)
    requires a <= b
    ensures |a| <= |b|
  {
    if a != b {
      var x :| x in b && x !in a;
      SmallerSet(a, b - {x});
    }
  }

  ghost predicate Bounded(env: Env, goal: Goal, w: World, v: World, id: string, t: Time) {
    && !Reopenable(env, goal, v, id, t)
    && Total(env, goal, v.log, id) + |Hitters(env, goal, v, id, t)|
       <= Total(env, goal, w.log, id) + |Hitters(env, goal, w, id, t)|
  }

  lemma FinishBounded(env: Env, goal: Goal, w: World, h: nat, now: Time, id: string, t: Time)
    requires h in w.flights && Sound(env, w.flights[h].copy) && t <= now && !Reopenable(env, goal, w, id, t)
    ensures Bounded(env, goal, w, FinishFlight(env, w, h, now), id, t)
  {
    var f := w.flights[h];
    var v := FinishFlight(env, w, h, now);
    HandlerJudged(env, goal, f, t, now);
    TotalAppend(env, goal, w.log, v.log[|w.log|], id);
    FinishHits(env, goal, w, h, now);
    FlightRemoved(env, goal, w, v, h, id, t);
    FinishStaysClosed(env, goal, w, h, now, id, t);
  }

  lemma FlightRemoved(env: Env, goal: Goal, w: World, v: World, h: nat, id: string, t: Time)
    requires v.flights == w.flights - {h}
    ensures Hitters(env, goal, v, id, t) == Hitters(env, goal, w, id, t) - {h}
  {
  }

  lemma FinishHits(env: Env, goal: Goal, w: World, h: nat, now: Time)
    requires h in w.flights
    ensures var f := w.flights[h];
      var v := FinishFlight(env, w, h, now);
      && v.log == w.log + [v.log[|w.log|]] && v.log[|w.log|].Answered? && v.log[|w.log|].id == f.id
      && (EventHits(env, goal, v.log[|w.log|]) <==> Hits(env, goal, f.copy, now, f.req))
  {
  }

  lemma FinishStaysClosed(env: Env, goal: Goal, w: World, h: nat, now: Time, id: string, t: Time)
    requires h in w.flights && Judged(env, goal, w.flights[h], t, now) && !Reopenable(env, goal, w, id, t)
    ensures !Reopenable(env, goal, FinishFlight(env, w, h, now), id, t)
  {
    var v := FinishFlight(env, w, h, now);
    assert forall k | k in v.flights :: k in w.flights && v.flights[k] == w.flights[k];
    if id == w.flights[h].id && id in w.store {
      assert !Reopens(env, goal, w.flights[h], t);
    }
  }

  lemma ClosedCopyCarriesNothing(env: Env, goal: Goal, f: Flight, t: Time)
    requires Sound(env, f.copy) && !OpenAt(goal, f.copy, t)
    ensures !Reaches(env, goal, f, t) && !Reopens(env, goal, f, t)
  {
  }

  lemma FetchBounded(
    env: Env, goal: Goal, w: World, h: nat, fetched: string, req: Request, now: Time, id: string, t: Time)
    requires !Reopenable(env, goal, w, id, t) && (id in w.store ==> Sound(env, w.store[id]))
    ensures Bounded(env, goal, w, Next(env, w, Fetch(h, fetched, req, now)), id, t)
  {
    var v := Next(env, w, Fetch(h, fetched, req, now));
    if h !in w.flights && fetched !in w.store {
      TotalAppend(env, goal, w.log, Answered(fetched, now, req, None, Missing(req)), id);
    } else if h !in w.flights {
      var f := Flight(fetched, req, w.store[fetched]);
      if fetched == id {
        ClosedCopyCarriesNothing(env, goal, f, t);
      }
      FlightAdded(env, goal, w, v, h, f, id, t);
    }
  }

  lemma FlightAdded(env: Env, goal: Goal, w: World, v: World, h: nat, f: Flight, id: string, t: Time)
    requires h !in w.flights && v == w.(flights := w.flights[h := f])
    ensures Hitters(env, goal, v, id, t) == Hitters(env, goal, w, id, t)
      + if f.id == id && Reaches(env, goal, f, t) then {h} else {}
    ensures !Reopenable(env, goal, w, id, t) && !(f.id == id && Reopens(env, goal, f, t)) ==>
      !Reopenable(env, goal, v, id, t)
  {
  }

  lemma SweepBounded(env: Env, goal: Goal, w: World, now: Time, id: string, t: Time)
    requires !Reopenable(env, goal, w, id, t)
    ensures Bounded(env, goal, w, Next(env, w, SweepStore(now)), id, t)
  {
    TotalAppend(env, goal, w.log, Swept(now), id);
  }

  lemma StartBounded(env: Env, goal: Goal, w: World, terms: Terms, id: string, t: Time)
    requires id in w.started && !Reopenable(env, goal, w, id, t)
    ensures Bounded(env, goal, w, Next(env, w, Start(terms)), id, t)
  {
    if terms.id !in w.started {
      TotalAppend(env, goal, w.log, Started(terms), id);
    }
  }

  lemma StepBounded(env: Env, goal: Goal, w: World, step: Step, id: string, t: Time)
    requires Safe(env, w) && id in w.started && t <= TimeOf(step, t) && !Reopenable(env, goal, w, id, t)
    ensures id in Next(env, w, step).started && Bounded(env, goal, w, Next(env, w, step), id, t)
  {
    match step {
      case Start(terms) => StartBounded(env, goal, w, terms, id, t);
      case Fetch(h, fetched, req, now) =>
        assert id in w.store ==> WellMade(env, w, id, w.store[id]);
        FetchBounded(env, goal, w, h, fetched, req, now, id, t);
      case Finish(h, now) =>
        if h in w.flights {
          assert WellMade(env, w, w.flights[h].id, w.flights[h].copy);
          FinishBounded(env, goal, w, h, now, id, t);
        }
      case SweepStore(now) => SweepBounded(env, goal, w, now, id, t);
    }
  }

  lemma {:induction false} ReachBounded(
    env: Env, goal: Goal, w: World, steps: seq<Step>, id: string, t: Time, clock: Time)
    requires Safe(env, w) && id in w.started && !Reopenable(env, goal, w, id, t)
    requires t <= clock && Forward(clock, steps)
    ensures Bounded(env, goal, w, Reach(env, w, steps), id, t)
    decreases |steps|
  {
    if steps != [] {
      StepKeepsSafe(env, w, steps[0]);
      StepBounded(env, goal, w, steps[0], id, t);
      ReachBounded(env, goal, Next(env, w, steps[0]), steps[1..], id, t, TimeOf(steps[0], clock));
    }
  }

  // The other way: handlers in flight finish, and an open session is fetched any number of times.

  lemma ForwardThen(step: Step, t: Time, steps: seq<Step>)
    requires TimeOf(step, t) == t && Forward(t, steps)
    ensures Forward(t, [step] + steps)
  {
    assert ([step] + steps)[1..] == steps;
  }

  lemma AheadBy(env: Env, goal: Goal, w: World, id: string, t: Time, n: nat, steps: seq<Step>, v: World)
    requires Forward(t, steps) && v == Reach(env, w, steps)
    requires Total(env, goal, v.log, id) >= Total(env, goal, w.log, id) + n
    ensures Ahead(env, goal, w, id, t, n)
  {
  }

  lemma AheadAfter(env: Env, goal: Goal, w: World, step: Step, id: string, t: Time, n: nat, m: nat)
    requires TimeOf(step, t) == t && Ahead(env, goal, Next(env, w, step), id, t, m)
    requires Total(env, goal, Next(env, w, step).log, id) + m >= Total(env, goal, w.log, id) + n
    ensures Ahead(env, goal, w, id, t, n)
  {
    var v := Next(env, w, step);
    var steps: seq<Step> :| Forward(t, steps) &&
      Total(env, goal, Reach(env, v, steps).log, id) >= Total(env, goal, v.log, id) + m;
    ForwardThen(step, t, steps);
    ReachThen(env, w, step, steps);
    AheadBy(env, goal, w, id, t, n, [step] + steps, Reach(env, v, steps));
  }

  lemma NothingAhead(env: Env, goal: Goal, w: World, id: string, t: Time)
    ensures Ahead(env, goal, w, id, t, 0)
  {
    assert Forward(t, []) && Reach(env, w, []) == w;
  }

  lemma {:induction false} HittersFinish(env: Env, goal: Goal, w: World, id: string, t: Time, n: nat)
    requires Safe(env, w) && n <= |Hitters(env, goal, w, id, t)|
    ensures Ahead(env, goal, w, id, t, n)
    decreases n
  {
    if n == 0 {
      NothingAhead(env, goal, w, id, t);
    } else {
      var h :| h in Hitters(env, goal, w, id, t);
      var v := Next(env, w, Finish(h, t));
      OneFinishHits(env, goal, w, h, id, t);
      StepKeepsSafe(env, w, Finish(h, t));
      HittersFinish(env, goal, v, id, t, n - 1);
      AheadAfter(env, goal, w, Finish(h, t), id, t, n, n - 1);
    }
  }

  lemma OneFinishHits(env: Env, goal: Goal, w: World, h: nat, id: string, t: Time)
    requires Safe(env, w) && h in Hitters(env, goal, w, id, t)
    ensures var v := Next(env, w, Finish(h, t));
      && Hitters(env, goal, v, id, t) == Hitters(env, goal, w, id, t) - {h}
      && Total(env, goal, v.log, id) == Total(env, goal, w.log, id) + 1
  {
    var v := Next(env, w, Finish(h, t));
    assert WellMade(env, w, id, w.flights[h].copy);
    CarriersExactly(env, goal, w.flights[h], t);
    FinishHits(env, goal, w, h, t);
    FlightRemoved(env, goal, w, v, h, id, t);
    TotalAppend(env, goal, w.log, v.log[|w.log|], id);
  }

  /** Handlers of a request that hits are fetched, m of them, before any finishes. */
  lemma {:induction false} FetchersPileUp(
    env: Env, goal: Goal, w: World, id: string, t: Time, req: Request, n: nat, m: nat)
    requires Safe(env, w) && id in w.store && Hits(env, goal, w.store[id], t, req)
    requires |Hitters(env, goal, w, id, t)| + m >= n
    ensures Ahead(env, goal, w, id, t, n)
    decreases m
  {
    if m == 0 {
      HittersFinish(env, goal, w, id, t, n);
    } else {
      var h := UnusedHandler(w.flights);
      var step := Fetch(h, id, req, t);
      assert WellMade(env, w, id, w.store[id]);
      OneMoreFetches(env, goal, w, h, id, t, req);
      StepKeepsSafe(env, w, step);
      FetchersPileUp(env, goal, Next(env, w, step), id, t, req, n, m - 1);
      AheadAfter(env, goal, w, step, id, t, n, n);
    }
  }

  lemma OneMoreFetches(env: Env, goal: Goal, w: World, h: nat, id: string, t: Time, req: Request)
    requires id in w.store && Sound(env, w.store[id]) && Hits(env, goal, w.store[id], t, req) && h !in w.flights
    ensures var v := Next(env, w, Fetch(h, id, req, t));
      && v.store == w.store && v.log == w.log
      && |Hitters(env, goal, v, id, t)| == |Hitters(env, goal, w, id, t)| + 1
  {
    var f := Flight(id, req, w.store[id]);
    CarriersExactly(env, goal, f, t);
    FlightAdded(env, goal, w, w.(flights := w.flights[h := f]), h, f, id, t);
  }

  lemma {:induction false} UnusedHandler(flights: map<nat, Flight>) returns (h: nat)
    ensures forall k | k in flights :: k < h
    decreases |flights|
  {
    if flights == map[] {
      h := 0;
    } else {
      var k :| k in flights;
      var rest := map j | j in flights && j != k :: flights[j];
      assert rest.Keys == flights.Keys - {k};
      h := UnusedHandler(rest);
      assert forall j | j in flights :: j == k || j in rest;
      h := if h <= k then k + 1 else h;
    }
  }

  /** A request served alone, as the first steps of a continuation. */
  lemma ServedFirst(env: Env, goal: Goal, w: World, id: string, req: Request, t: Time, n: nat) returns (v: World)
    requires Safe(env, w) && id in w.store
    ensures Safe(env, v) && v.started == w.started
    ensures var e := Handle(env, w.store[id], t, req); v.store == if e.writes then w.store[id := e.next] else w.store
    ensures Ahead(env, goal, v, id, t, n) ==> Ahead(env, goal, w, id, t, n)
  {
    var h := UnusedHandler(w.flights);
    var u := Next(env, w, Fetch(h, id, req, t));
    v := Next(env, u, Finish(h, t));
    StepKeepsSafe(env, w, Fetch(h, id, req, t));
    StepKeepsSafe(env, u, Finish(h, t));
    FinishHits(env, goal, u, h, t);
    TotalAppend(env, goal, u.log, v.log[|u.log|], id);
    if Ahead(env, goal, v, id, t, n) {
      AheadAfter(env, goal, u, Finish(h, t), id, t, n, n);
      AheadAfter(env, goal, w, Fetch(h, id, req, t), id, t, n, n);
    }
  }

  lemma BoundSecret(env: Env, w: World, id: string) returns (secret: string)
    requires Safe(env, w) && id in w.store && w.store[id].state.AwaitingApproval?
    ensures env.HashBinding(secret) == w.store[id].bindingHash
  {
    assert WellMade(env, w, id, w.store[id]);
    var j :| 0 <= j < |w.log| && Binds(env, w.log[j], w.store[id]);
    secret := w.log[j].response.secret;
  }

  /** The form the bound browser would send, with the right code. */
  function RightForm(s: SessionData, secret: string): Request {
    Approve(s.csrfToken, s.terms.userCode, true, secret)
  }

  lemma RightFormApproves(env: Env, s: SessionData, secret: string, t: Time)
    requires Sound(env, s) && s.state.AwaitingApproval? && Live(s, t) && FromBoundBrowser(env, s, secret)
    ensures var e := Handle(env, s, t, RightForm(s, secret)); e.writes && e.next == s.(state := Approved)
    ensures Compares(env, Some(s), Op(t, Serve(RightForm(s, secret))))
  {
  }

  lemma RightPollCollects(env: Env, s: SessionData, verifier: string, t: Time)
    requires Sound(env, s) && s.state.Approved? && !s.consumed && env.Verifies(verifier, s.terms)
    ensures IsRelease(Handle(env, s, t, Poll(verifier)).response)
  {
  }

  lemma ApprovedTimes(env: Env, w: World, id: string, t: Time, verifier: string, n: nat)
    requires Safe(env, w) && id in w.store && w.store[id].state.Approved? && !w.store[id].consumed
    requires env.Verifies(verifier, w.started[id])
    ensures Ahead(env, Collection, w, id, t, n)
  {
    assert WellMade(env, w, id, w.store[id]);
    RightPollCollects(env, w.store[id], verifier, t);
    FetchersPileUp(env, Collection, w, id, t, Poll(verifier), n, n);
  }

  lemma AwaitingTimes(env: Env, goal: Goal, w: World, id: string, t: Time, verifier: string, n: nat)
    requires Safe(env, w) && id in w.store && w.store[id].state.AwaitingApproval? && Live(w.store[id], t)
    requires goal.Collection? ==> env.Verifies(verifier, w.started[id])
    ensures Ahead(env, goal, w, id, t, n)
  {
    var s := w.store[id];
    assert WellMade(env, w, id, s);
    var secret := BoundSecret(env, w, id);
    RightFormApproves(env, s, secret, t);
    if goal.Comparison? {
      FetchersPileUp(env, goal, w, id, t, RightForm(s, secret), n, n);
    } else {
      var v := ServedFirst(env, goal, w, id, RightForm(s, secret), t, n);
      ApprovedTimes(env, v, id, t, verifier, n);
    }
  }

  /** A sign-in of whoever the session's login hint names. */
  function SignInReply(terms: Terms): Request {
    Callback(IdpReply("s", "c", Some(IdToken("n", Some(Identity("", terms.loginHint, map[]))))), Some("b"), Some("t"))
  }

  const NEW_LEG := IdpLeg("s", "n", "")

  lemma SignInAwaits(env: Env, s: SessionData, t: Time)
    requires s.state.Pending? && !s.consumed && s.leg == NEW_LEG && Live(s, t)
    ensures var e := Handle(env, s, t, SignInReply(s.terms));
      e.writes && e.next.state.AwaitingApproval? && e.next.terms == s.terms
  {
  }

  lemma PendingTimes(env: Env, goal: Goal, w: World, id: string, t: Time, verifier: string, n: nat)
    requires Safe(env, w) && id in w.store && w.store[id].state.Pending? && Live(w.store[id], t)
    requires goal.Collection? ==> env.Verifies(verifier, w.started[id])
    ensures Ahead(env, goal, w, id, t, n)
  {
    assert WellMade(env, w, id, w.store[id]);
    var u := ServedFirst(env, goal, w, id, Verify("", Some(NEW_LEG)), t, n);
    SignInAwaits(env, u.store[id], t);
    var v := ServedFirst(env, goal, u, id, SignInReply(w.store[id].terms), t, n);
    AwaitingTimes(env, goal, v, id, t, verifier, n);
  }

  lemma OpenTimes(env: Env, goal: Goal, w: World, id: string, t: Time, verifier: string, n: nat)
    requires Safe(env, w) && id in w.store && OpenAt(goal, w.store[id], t)
    requires goal.Collection? ==> env.Verifies(verifier, w.started[id])
    ensures Ahead(env, goal, w, id, t, n)
  {
    match w.store[id].state
    case Pending => PendingTimes(env, goal, w, id, t, verifier, n);
    case AwaitingApproval => AwaitingTimes(env, goal, w, id, t, verifier, n);
    case Approved => ApprovedTimes(env, w, id, t, verifier, n);
  }

  lemma ReopenedTimes(env: Env, goal: Goal, w: World, h: nat, id: string, t: Time, verifier: string, n: nat)
    requires Safe(env, w) && id in w.store && id in w.started
    requires h in w.flights && w.flights[h].id == id && Reopens(env, goal, w.flights[h], t)
    requires goal.Collection? ==> env.Verifies(verifier, w.started[id])
    ensures Ahead(env, goal, w, id, t, n)
  {
    var v := Next(env, w, Finish(h, t));
    assert WellMade(env, w, id, w.flights[h].copy);
    CarriersExactly(env, goal, w.flights[h], t);
    StepKeepsSafe(env, w, Finish(h, t));
    FinishHits(env, goal, w, h, t);
    TotalAppend(env, goal, w.log, v.log[|w.log|], id);
    OpenTimes(env, goal, v, id, t, verifier, n);
    AheadAfter(env, goal, w, Finish(h, t), id, t, n, n);
  }

  /** From any world and time on, a session's artifact can be released, or its code compared, n more
      times if and only if the session can be reopened, and then n is anything, or n handlers in
      flight do it by themselves. */
  lemma TimesExactly(env: Env, goal: Goal, w: World, id: string, t: Time, verifier: string, n: nat)
    requires Safe(env, w) && id in w.started && (goal.Collection? ==> env.Verifies(verifier, w.started[id]))
    ensures Ahead(env, goal, w, id, t, n)
       <==> Reopenable(env, goal, w, id, t) || n <= |Hitters(env, goal, w, id, t)|
  {
    if n <= |Hitters(env, goal, w, id, t)| {
      HittersFinish(env, goal, w, id, t, n);
    } else if !Reopenable(env, goal, w, id, t) {
      forall steps: seq<Step> | Forward(t, steps)
        ensures Total(env, goal, Reach(env, w, steps).log, id) < Total(env, goal, w.log, id) + n
      {
        ReachBounded(env, goal, w, steps, id, t, t);
      }
    } else if OpenAt(goal, w.store[id], t) {
      OpenTimes(env, goal, w, id, t, verifier, n);
    } else {
      var h :| h in w.flights && w.flights[h].id == id && Reopens(env, goal, w.flights[h], t);
      ReopenedTimes(env, goal, w, h, id, t, verifier, n);
    }
  }
}
