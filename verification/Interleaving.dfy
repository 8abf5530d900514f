/** The broker as a transition system over many sessions and many handlers at once. A handler's
    fetch from the store and its write-back are separate steps, with anything in between. */
module Interleaving {
  import opened Prelude
  import opened SessionModel
  import opened Handlers
  import opened SerialRuns
  import UserCode

  /** A handler between its fetch and its write-back, holding its own copy of the session. */
  datatype Flight = Flight(id: string, req: Request, copy: SessionData)

  /** seen: the copy the answer was computed from, None if the fetch found nothing. */
  datatype Event =
    | Started(terms: Terms)
    | Answered(id: string, now: Time, req: Request, seen: Cell, response: Response)
    | Swept(now: Time)

  datatype World = World(
    store: map<string, SessionData>, flights: map<nat, Flight>,
    started: map<string, Terms>, log: seq<Event>)

  const EMPTY := World(map[], map[], map[], [])

  datatype Step =
    | Start(terms: Terms)
    | Fetch(handler: nat, id: string, req: Request, now: Time)
    | Finish(handler: nat, now: Time)
    | SweepStore(now: Time)

  /** One step; a step that is not possible does nothing. Session ids are never reissued. */
  function Next(env: Env, w: World, step: Step): World {
    match step
    case Start(terms) =>
      if terms.id in w.started then w
      else w.(store := w.store[terms.id := NewSession(terms)],
              started := w.started[terms.id := terms],
              log := w.log + [Started(terms)])
    case Fetch(h, id, req, now) =>
      if h in w.flights then w
      else if id in w.store then w.(flights := w.flights[h := Flight(id, req, w.store[id])])
      else w.(log := w.log + [Answered(id, now, req, None, Missing(req))])
    case Finish(h, now) =>
      if h !in w.flights then w else FinishFlight(env, w, h, now)
    case SweepStore(now) =>
      w.(store := map id | id in w.store && !SweptAt(w.store[id], now) :: w.store[id],
         log := w.log + [Swept(now)])
  }

  function FinishFlight(env: Env, w: World, h: nat, now: Time): World
    requires h in w.flights
  {
    var f := w.flights[h];
    var e := Handle(env, f.copy, now, f.req);
    var present := f.id in w.store;
    var response := if e.writes && !present then AfterFailedWrite(e.response) else e.response;
    w.(store := if e.writes && present then w.store[f.id := e.next] else w.store,
       flights := w.flights - {h},
       log := w.log + [Answered(f.id, now, f.req, Some(f.copy), response)])
  }

  function Reach(env: Env, w: World, steps: seq<Step>): World
    decreases |steps|
  {
    if steps == [] then w else Reach(env, Next(env, w, steps[0]), steps[1..])
  }

  // ----- safety under every interleaving -----------------------------------

  /** This event attached the identity and browser that session s now has, before s was due to expire. */
  predicate Binds(env: Env, e: Event, s: SessionData) {
    && e.Answered? && e.id == s.terms.id && e.req.Callback? && e.response.IdentityBound?
    && e.req.reply.token.Some? && e.req.reply.token.value.identity == s.identity && s.identity.Some?
    && env.HashBinding(e.response.secret) == s.bindingHash && e.response.page.csrfToken == s.csrfToken
    && e.now == s.identityAt <= s.terms.expiresAt
  }

  predicate SignedIn(s: SessionData) {
    s.state.AwaitingApproval? || s.state.Approved?
  }

  /** s was signed in, and t is, or was, by the same sign-in. */
  predicate SameSignIn(s: SessionData, t: SessionData) {
    SignedIn(s) && t.terms == s.terms && t.identity == s.identity && t.identityAt == s.identityAt
    && t.bindingHash == s.bindingHash && t.csrfToken == s.csrfToken
  }

  /** This event approved session s before it was due to expire: an equal code, from the browser s
      is bound to, on a copy that had s's sign-in. */
  predicate Approves(env: Env, e: Event, s: SessionData) {
    && e.Answered? && e.id == s.terms.id && e.response == ApprovedPage && e.now <= s.terms.expiresAt
    && e.seen.Some? && SameSignIn(e.seen.value, s)
    && e.req.Approve? && e.req.approve
    && UserCode.CodesEqual(e.req.code, s.terms.userCode)
    && env.HashBinding(e.req.cookie) == s.bindingHash
  }

  /** This event denied session s: another identity signed in, or the bound browser declined or
      submitted the last wrong code allowed. */
  predicate Denies(env: Env, e: Event, s: SessionData) {
    && e.Answered? && e.id == s.terms.id
    && if e.req.Callback? then
         && e.response == IdentityMismatched
         && s.identity.Some? && env.Normalize(s.identity.value.value) != env.Normalize(s.terms.loginHint)
       else
         && e.req.Approve? && e.response == DeniedPage && env.HashBinding(e.req.cookie) == s.bindingHash
         && (!e.req.approve
             || (!UserCode.CodesEqual(e.req.code, s.terms.userCode) && s.approveAttempts == MAX_APPROVE_ATTEMPTS))
  }

  /** This event put s in the terminal state it is in. */
  predicate Ends(env: Env, e: Event, s: SessionData) {
    match s.state
    case Approved => Approves(env, e, s)
    case Denied => Denies(env, e, s)
    case Expired => e.Answered? && e.id == s.terms.id && e.now > s.terms.expiresAt
    case _ => false
  }

  predicate ReleasesArtifact(e: Event) {
    e.Answered? && IsRelease(e.response)
  }

  predicate Collects(e: Event, s: SessionData) {
    ReleasesArtifact(e) && e.id == s.terms.id
  }

  /** This event is the poll that later polls of s are paced from. */
  predicate Paces(env: Env, e: Event, s: SessionData) {
    && AcceptedPoll(env, e, s.terms) && s.lastPollAt == Some(e.now)
  }

  /** A poll with the verifier, neither too early nor too late. */
  predicate AcceptedPoll(env: Env, e: Event, terms: Terms) {
    && e.Answered? && e.id == terms.id && e.req.Poll? && env.Verifies(e.req.verifier, terms)
    && e.response.PollAnswer? && (e.response.status == PollPending || e.response.status == PollDenied)
  }

  /** This event sent a browser to the identity provider on the leg that s has. */
  predicate Issues(e: Event, s: SessionData) {
    e.Answered? && e.id == s.terms.id && e.response == RedirectToIdp(s.leg)
  }

  /** Everything about s that the first k events must account for. */
  ghost predicate Explained(env: Env, log: seq<Event>, k: nat, s: SessionData)
    requires k <= |log|
  {
    && (SignedIn(s) ==> exists j | 0 <= j < k :: Binds(env, log[j], s))
    && (IsTerminal(s.state) ==> exists j | 0 <= j < k :: Ends(env, log[j], s))
    && (s.consumed ==> exists j | 0 <= j < k :: Collects(log[j], s))
    && (s.lastPollAt.Some? ==> exists j | 0 <= j < k :: Paces(env, log[j], s))
    && (s.leg != NO_LEG ==> exists j | 0 <= j < k :: Issues(log[j], s))
  }

  /** A stored or in-flight copy: its session's terms, sound, and explained by what happened. */
  ghost predicate WellMade(env: Env, w: World, id: string, s: SessionData) {
    && id in w.started && s.terms == w.started[id] && s.terms.id == id
    && Sound(env, s) && Explained(env, w.log, |w.log|, s)
  }

  function PageOf(r: Response): Option<Page> {
    match r
    case ApprovePage(page) => Some(page)
    case IdentityBound(page, _) => Some(page)
    case RetryPage(page) => Some(page)
    case _ => None
  }

  /** A page shows its session's terms. It goes to the browser that just signed in, to the bound
      browser, or to one that already knows the form's token. */
  predicate PageFits(env: Env, req: Request, s: SessionData, page: Page) {
    && page.requester == s.terms
    && match req
       case Verify(cookie, _) => cookie != "" && env.HashBinding(cookie) == s.bindingHash
       case Callback(_, _, _) => s.state.Pending?
       case Approve(csrf, _, _, _) => csrf == page.csrfToken != ""
       case Poll(_) => false
  }

  /** What a poll of s says is so. */
  predicate PollFits(
    env: Env, verifier: string, s: SessionData, now: Time, status: PollStatus, artifact: Option<Artifact>) {
    && (status != PollExpired ==> env.Verifies(verifier, s.terms))
    && match status
       case PollApproved =>
         && s.state.Approved? && !s.consumed && s.identity.Some?
         && artifact == Some(Artifact(s.identity.value.subject, s.identity.value.value, s.identity.value.claims,
                                      s.identityAt, s.identityAt + env.artifactTtl))
         && env.Normalize(s.identity.value.value) == env.Normalize(s.terms.loginHint)
       case PollDenied => s.state.Denied?
       case PollExpired => s.consumed || s.state.Expired? || (!IsTerminal(s.state) && now > s.terms.expiresAt)
       case PollPending => !IsTerminal(s.state) && now <= s.terms.expiresAt
       case PollSlowDown => s.lastPollAt.Some? && now - s.lastPollAt.value < s.terms.interval
  }

  /** A callback so answered got as far as recording an identity, or failed just short of it. */
  predicate Accepts(r: Response) {
    r.IdentityBound? || r.IdentityMismatched? || r.SignInNotCompleted?
  }

  /** The identity provider's reply is to this leg. */
  predicate Correlated(reply: IdpReply, leg: IdpLeg) {
    reply.state == leg.state != "" && reply.token.Some? && reply.token.value.nonce == leg.nonce
  }

  ghost predicate AnswerFits(env: Env, req: Request, s: SessionData, now: Time, r: Response) {
    && r != Panic
    && (PageOf(r).Some? ==> PageFits(env, req, s, PageOf(r).value))
    && (r.PollAnswer? ==> req.Poll? && PollFits(env, req.verifier, s, now, r.status, r.artifact))
    && (Accepts(r) ==> req.Callback? && Correlated(req.reply, s.leg))
  }

  /** An answer fits the copy it was computed from, and that copy was explained by then. */
  ghost predicate Justified(env: Env, w: World, k: nat)
    requires k < |w.log|
  {
    var e := w.log[k];
    e.Answered? ==>
      match e.seen
      case None => e.response == Missing(e.req)
      case Some(s) =>
        && e.id in w.started && s.terms == w.started[e.id] && s.terms.id == e.id
        && Explained(env, w.log, k, s)
        && AnswerFits(env, e.req, s, e.now, e.response)
  }

  ghost predicate Safe(env: Env, w: World) {
    && (forall id | id in w.store :: WellMade(env, w, id, w.store[id]))
    && (forall h | h in w.flights :: WellMade(env, w, w.flights[h].id, w.flights[h].copy))
    && (forall k | 0 <= k < |w.log| :: Justified(env, w, k))
  }

  // What one handler does to what needs explaining.

  predicate SameEnd(s: SessionData, t: SessionData) {
    t.state == s.state && t.terms == s.terms && t.identity == s.identity
    && t.identityAt == s.identityAt && t.bindingHash == s.bindingHash && t.csrfToken == s.csrfToken
    && t.approveAttempts == s.approveAttempts
  }

  /** Whatever is new about the handler's copy is caused by this event. */
  ghost predicate Causes(env: Env, s: SessionData, event: Event, t: SessionData) {
    && (SignedIn(t) ==> SameSignIn(s, t) || Binds(env, event, t))
    && (IsTerminal(t.state) ==> SameEnd(s, t) || Ends(env, event, t))
    && (t.consumed ==> (s.consumed && t.terms == s.terms) || Collects(event, t))
    && (t.lastPollAt.Some? ==> (t.lastPollAt == s.lastPollAt && t.terms == s.terms) || Paces(env, event, t))
    && (t.leg != NO_LEG ==> (t.leg == s.leg && t.terms == s.terms) || Issues(event, t))
  }

  /** And the answer fits the copy it was computed from. */
  ghost predicate Accounted(env: Env, s: SessionData, now: Time, req: Request, e: Effect) {
    && Causes(env, s, Answered(s.terms.id, now, req, Some(s), e.response), e.next)
    && AnswerFits(env, req, s, now, e.response)
  }

  lemma VerifyAccounted(env: Env, s: SessionData, now: Time, cookie: string, newLeg: Option<IdpLeg>)
    requires Sound(env, s)
    ensures Accounted(env, s, now, Verify(cookie, newLeg), HandleVerify(env, s, now, cookie, newLeg))
  {
  }

  lemma CallbackCauses(
    env: Env, s: SessionData, now: Time, reply: IdpReply, secret: Option<Token>, csrf: Option<Token>)
    requires Sound(env, s)
    ensures var e := HandleCallback(env, s, now, reply, secret, csrf);
      Causes(env, s, Answered(s.terms.id, now, Callback(reply, secret, csrf), Some(s), e.response), e.next)
  {
  }

  lemma CallbackFits(
    env: Env, s: SessionData, now: Time, reply: IdpReply, secret: Option<Token>, csrf: Option<Token>)
    requires Sound(env, s)
    ensures AnswerFits(env, Callback(reply, secret, csrf), s, now,
                       HandleCallback(env, s, now, reply, secret, csrf).response)
  {
  }

  lemma DecideCauses(env: Env, s: SessionData, now: Time, csrf: string, code: string, approve: bool, cookie: string)
    requires Sound(env, s)
    ensures var (t, result) := Decide(env, s, code, approve, now, cookie);
      var e := HandleApprove(env, s, now, csrf, code, approve, cookie);
      SameToken(csrf, s.csrfToken) ==>
        Causes(env, s, Answered(s.terms.id, now, Approve(csrf, code, approve, cookie), Some(s), e.response), t)
  {
  }

  lemma ApproveFits(env: Env, s: SessionData, now: Time, csrf: string, code: string, approve: bool, cookie: string)
    requires Sound(env, s)
    ensures AnswerFits(env, Approve(csrf, code, approve, cookie), s, now,
                       HandleApprove(env, s, now, csrf, code, approve, cookie).response)
  {
  }

  lemma ApproveAccounted(env: Env, s: SessionData, now: Time, csrf: string, code: string, approve: bool, cookie: string)
    requires Sound(env, s)
    ensures Accounted(env, s, now, Approve(csrf, code, approve, cookie),
                      HandleApprove(env, s, now, csrf, code, approve, cookie))
  {
    DecideCauses(env, s, now, csrf, code, approve, cookie);
    ApproveFits(env, s, now, csrf, code, approve, cookie);
  }

  lemma PollCauses(env: Env, s: SessionData, now: Time, verifier: string)
    requires Sound(env, s)
    ensures var e := HandlePoll(env, s, now, verifier);
      Causes(env, s, Answered(s.terms.id, now, Poll(verifier), Some(s), e.response), e.next)
  {
  }

  lemma PollAnswerFits(env: Env, s: SessionData, now: Time, verifier: string)
    requires Sound(env, s)
    ensures AnswerFits(env, Poll(verifier), s, now, HandlePoll(env, s, now, verifier).response)
  {
  }

  lemma HandleAccounted(env: Env, s: SessionData, now: Time, req: Request)
    requires Sound(env, s)
    ensures Accounted(env, s, now, req, Handle(env, s, now, req))
  {
    match req
    case Verify(cookie, newLeg) => VerifyAccounted(env, s, now, cookie, newLeg);
    case Callback(reply, secret, csrf) =>
      CallbackCauses(env, s, now, reply, secret, csrf);
      CallbackFits(env, s, now, reply, secret, csrf);
    case Approve(csrf, code, approve, cookie) => ApproveAccounted(env, s, now, csrf, code, approve, cookie);
    case Poll(verifier) =>
      PollCauses(env, s, now, verifier);
      PollAnswerFits(env, s, now, verifier);
  }

  // Explanations stay, as the log only grows.

  lemma ExplainedLonger(env: Env, log: seq<Event>, k: nat, more: seq<Event>, n: nat, s: SessionData)
    requires k <= |log| <= |more| && k <= n <= |more| && more[..|log|] == log
    requires Explained(env, log, k, s)
    ensures Explained(env, more, n, s)
  {
    forall j | 0 <= j < k ensures more[j] == log[j] {
      assert more[..|log|][j] == more[j];
    }
    if SignedIn(s) {
      var j :| 0 <= j < k && Binds(env, log[j], s);
      assert Binds(env, more[j], s);
    }
    if IsTerminal(s.state) {
      var j :| 0 <= j < k && Ends(env, log[j], s);
      assert Ends(env, more[j], s);
    }
    if s.consumed {
      var j :| 0 <= j < k && Collects(log[j], s);
      assert Collects(more[j], s);
    }
    if s.lastPollAt.Some? {
      var j :| 0 <= j < k && Paces(env, log[j], s);
      assert Paces(env, more[j], s);
    }
    if s.leg != NO_LEG {
      var j :| 0 <= j < k && Issues(log[j], s);
      assert Issues(more[j], s);
    }
  }

  /** The copy a handler ends with is explained once its answer is logged. */
  lemma ExplainedAfter(env: Env, log: seq<Event>, s: SessionData, t: SessionData, event: Event)
    requires Explained(env, log, |log|, s)
    requires Causes(env, s, event, t)
    ensures Explained(env, log + [event], |log| + 1, t)
  {
    var more := log + [event];
    assert more[|log|] == event;
    if SignedIn(t) && SameSignIn(s, t) {
      var j :| 0 <= j < |log| && Binds(env, log[j], s);
      assert Binds(env, more[j], t);
    }
    if IsTerminal(t.state) && SameEnd(s, t) {
      var j :| 0 <= j < |log| && Ends(env, log[j], s);
      assert Ends(env, more[j], t);
    }
    if t.consumed && s.consumed && t.terms == s.terms {
      var j :| 0 <= j < |log| && Collects(log[j], s);
      assert Collects(more[j], t);
    }
    if t.lastPollAt.Some? && t.lastPollAt == s.lastPollAt && t.terms == s.terms {
      var j :| 0 <= j < |log| && Paces(env, log[j], s);
      assert Paces(env, more[j], t);
    }
    if t.leg != NO_LEG && t.leg == s.leg && t.terms == s.terms {
      var j :| 0 <= j < |log| && Issues(log[j], s);
      assert Issues(more[j], t);
    }
  }

  lemma WellMadeLater(env: Env, w: World, v: World, id: string, s: SessionData)
    requires WellMade(env, w, id, s)
    requires |w.log| <= |v.log| && v.log[..|w.log|] == w.log
    requires id in v.started && v.started[id] == w.started[id]
    ensures WellMade(env, v, id, s)
  {
    ExplainedLonger(env, w.log, |w.log|, v.log, |v.log|, s);
  }

  lemma JustifiedLater(env: Env, w: World, v: World, k: nat)
    requires k < |w.log| && Justified(env, w, k)
    requires |w.log| <= |v.log| && v.log[..|w.log|] == w.log
    requires forall id | id in w.started :: id in v.started && v.started[id] == w.started[id]
    ensures Justified(env, v, k)
  {
    var e := w.log[k];
    assert v.log[..|w.log|][k] == v.log[k];
    if e.Answered? && e.seen.Some? {
      ExplainedLonger(env, w.log, k, v.log, k, e.seen.value);
    }
  }

  /** Starting more sessions and logging more events spoils no copy and no earlier answer. */
  lemma GrowthKeeps(env: Env, w: World, v: World)
    requires Safe(env, w)
    requires |w.log| <= |v.log| && v.log[..|w.log|] == w.log
    requires forall id | id in w.started :: id in v.started && v.started[id] == w.started[id]
    ensures forall id | id in w.store :: WellMade(env, v, id, w.store[id])
    ensures forall h | h in w.flights :: WellMade(env, v, w.flights[h].id, w.flights[h].copy)
    ensures forall k | 0 <= k < |w.log| :: Justified(env, v, k)
  {
    forall id | id in w.store ensures WellMade(env, v, id, w.store[id]) {
      WellMadeLater(env, w, v, id, w.store[id]);
    }
    forall h | h in w.flights ensures WellMade(env, v, w.flights[h].id, w.flights[h].copy) {
      WellMadeLater(env, w, v, w.flights[h].id, w.flights[h].copy);
    }
    forall k | 0 <= k < |w.log| ensures Justified(env, v, k) {
      JustifiedLater(env, w, v, k);
    }
  }

  lemma FinishAnswerJustified(env: Env, w: World, h: nat, now: Time)
    requires h in w.flights && WellMade(env, w, w.flights[h].id, w.flights[h].copy)
    ensures Justified(env, FinishFlight(env, w, h, now), |w.log|)
  {
    var v := FinishFlight(env, w, h, now);
    var f := w.flights[h];
    HandleAccounted(env, f.copy, now, f.req);
    ExplainedLonger(env, w.log, |w.log|, v.log, |w.log|, f.copy);
  }

  lemma FinishCopyWellMade(env: Env, w: World, h: nat, now: Time)
    requires h in w.flights && WellMade(env, w, w.flights[h].id, w.flights[h].copy)
    ensures var f := w.flights[h];
      f.id in w.store ==> WellMade(env, FinishFlight(env, w, h, now), f.id, Handle(env, f.copy, now, f.req).next)
  {
    var f := w.flights[h];
    var e := Handle(env, f.copy, now, f.req);
    HandleKeepsSound(env, f.copy, now, f.req);
    HandleAccounted(env, f.copy, now, f.req);
    if f.id in w.store {
      ExplainedAfter(env, w.log, f.copy, e.next, Answered(f.id, now, f.req, Some(f.copy), e.response));
    }
  }

  lemma FinishKeepsSafe(env: Env, w: World, h: nat, now: Time)
    requires Safe(env, w) && h in w.flights
    ensures Safe(env, FinishFlight(env, w, h, now))
  {
    var v := FinishFlight(env, w, h, now);
    assert v.log[..|w.log|] == w.log;
    GrowthKeeps(env, w, v);
    FinishAnswerJustified(env, w, h, now);
    FinishCopyWellMade(env, w, h, now);
  }

  lemma StartKeepsSafe(env: Env, w: World, terms: Terms)
    requires Safe(env, w)
    ensures Safe(env, Next(env, w, Start(terms)))
  {
    var v := Next(env, w, Start(terms));
    if terms.id !in w.started {
      assert v.log[..|w.log|] == w.log;
      GrowthKeeps(env, w, v);
    }
  }

  lemma FetchKeepsSafe(env: Env, w: World, h: nat, id: string, req: Request, now: Time)
    requires Safe(env, w)
    ensures Safe(env, Next(env, w, Fetch(h, id, req, now)))
  {
    var v := Next(env, w, Fetch(h, id, req, now));
    if h !in w.flights && id !in w.store {
      assert v.log[..|w.log|] == w.log;
      GrowthKeeps(env, w, v);
    } else {
      assert v.log == w.log && v.started == w.started && v.store == w.store;
      assert w.log[..|w.log|] == w.log;
      GrowthKeeps(env, w, v);
    }
  }

  lemma SweepKeepsSafe(env: Env, w: World, now: Time)
    requires Safe(env, w)
    ensures Safe(env, Next(env, w, SweepStore(now)))
  {
    var v := Next(env, w, SweepStore(now));
    assert v.log[..|w.log|] == w.log;
    GrowthKeeps(env, w, v);
  }

  lemma StepKeepsSafe(env: Env, w: World, step: Step)
    requires Safe(env, w)
    ensures Safe(env, Next(env, w, step))
  {
    match step {
      case Start(terms) => StartKeepsSafe(env, w, terms);
      case Fetch(h, id, req, now) => FetchKeepsSafe(env, w, h, id, req, now);
      case Finish(h, now) => if h in w.flights { FinishKeepsSafe(env, w, h, now); }
      case SweepStore(now) => SweepKeepsSafe(env, w, now);
    }
  }

  lemma {:induction false} ReachKeepsSafe(env: Env, w: World, steps: seq<Step>)
    requires Safe(env, w)
    ensures Safe(env, Reach(env, w, steps))
    decreases |steps|
  {
    if steps != [] {
      StepKeepsSafe(env, w, steps[0]);
      ReachKeepsSafe(env, Next(env, w, steps[0]), steps[1..]);
    }
  }

  /** Whatever the handlers and however their steps interleave: every copy of a session keeps its
      starting terms; its sign-in, its end and its collection each have an earlier cause; every
      answer fits the copy it was computed from; and no poll meets a missing identity. */
  lemma AlwaysSafe(env: Env, steps: seq<Step>)
    ensures Safe(env, Reach(env, EMPTY, steps))
  {
    ReachKeepsSafe(env, EMPTY, steps);
  }

  /** One event signed the identity in, another approved from the same browser, both in time. */
  predicate Earned(env: Env, terms: Terms, bound: Event, approved: Event, artifact: Option<Artifact>) {
    && bound.Answered? && bound.id == terms.id && bound.req.Callback? && bound.response.IdentityBound?
    && bound.req.reply.token.Some? && bound.req.reply.token.value.identity.Some?
    && bound.now <= terms.expiresAt
    && var who := bound.req.reply.token.value.identity.value;
    && env.Normalize(who.value) == env.Normalize(terms.loginHint)
    && artifact == Some(Artifact(who.subject, who.value, who.claims, bound.now, bound.now + env.artifactTtl))
    && approved.Answered? && approved.id == terms.id && approved.response == ApprovedPage
    && approved.req.Approve? && approved.req.approve && approved.now <= terms.expiresAt
    && UserCode.CodesEqual(approved.req.code, terms.userCode)
    && env.HashBinding(approved.req.cookie) == env.HashBinding(bound.response.secret)
  }

  lemma CausesEarn(
    env: Env, s: SessionData, bound: Event, approved: Event, verifier: string, now: Time, artifact: Option<Artifact>)
    requires s.state.Approved? && Binds(env, bound, s) && Approves(env, approved, s)
    requires PollFits(env, verifier, s, now, PollApproved, artifact)
    ensures Earned(env, s.terms, bound, approved, artifact)
  {
  }

  /** The sign-in behind an approval came before it. */
  lemma ApprovalTraced(env: Env, w: World, k: nat, s: SessionData) returns (bound: nat)
    requires k < |w.log| && Justified(env, w, k) && Approves(env, w.log[k], s)
    ensures bound < k && Binds(env, w.log[bound], s)
  {
    var seen := w.log[k].seen.value;
    assert Explained(env, w.log, k, seen) && SameSignIn(seen, s);
    bound :| 0 <= bound < k && Binds(env, w.log[bound], seen);
  }

  lemma ReleaseTraced(env: Env, w: World, k: nat) returns (bound: nat, approved: nat)
    requires Safe(env, w) && k < |w.log| && ReleasesArtifact(w.log[k])
    ensures bound < approved < k
    ensures var e := w.log[k];
      && e.id in w.started && e.req.Poll? && env.Verifies(e.req.verifier, w.started[e.id])
      && Earned(env, w.started[e.id], w.log[bound], w.log[approved], e.response.artifact)
  {
    var e := w.log[k];
    assert Justified(env, w, k);
    var s := e.seen.value;
    assert Explained(env, w.log, k, s);
    assert PollFits(env, e.req.verifier, s, e.now, PollApproved, e.response.artifact);
    approved :| 0 <= approved < k && Ends(env, w.log[approved], s);
    assert Justified(env, w, approved);
    bound := ApprovalTraced(env, w, approved, s);
    CausesEarn(env, s, w.log[bound], w.log[approved], e.req.verifier, e.now, e.response.artifact);
  }

  /** In particular, behind every artifact released: the poller knows the verifier, someone signed in
      as the session's login hint, then that person's browser approved with the session's code, both
      before the session was due to expire; and the artifact is that person's, dated by that sign-in. */
  lemma ReleaseIsEarned(env: Env, steps: seq<Step>, k: nat) returns (bound: nat, approved: nat)
    requires k < |Reach(env, EMPTY, steps).log| && ReleasesArtifact(Reach(env, EMPTY, steps).log[k])
    ensures bound < approved < k
    ensures var w := Reach(env, EMPTY, steps);
      var e := w.log[k];
      && e.id in w.started && e.req.Poll? && env.Verifies(e.req.verifier, w.started[e.id])
      && Earned(env, w.started[e.id], w.log[bound], w.log[approved], e.response.artifact)
  {
    AlwaysSafe(env, steps);
    bound, approved := ReleaseTraced(env, Reach(env, EMPTY, steps), k);
  }

  /** However handlers interleave, a callback gets past the correlation check only with the state and
      nonce of an earlier redirect of the same session. Only such a callback records an identity. */
  lemma CallbackIsCorrelated(env: Env, steps: seq<Step>, k: nat) returns (j: nat)
    requires var log := Reach(env, EMPTY, steps).log; k < |log| && log[k].Answered? && Accepts(log[k].response)
    ensures var log := Reach(env, EMPTY, steps).log;
      && j < k && log[j].Answered? && log[j].id == log[k].id && log[j].response.RedirectToIdp?
      && log[k].req.Callback? && Correlated(log[k].req.reply, log[j].response.leg)
  {
    var w := Reach(env, EMPTY, steps);
    AlwaysSafe(env, steps);
    j := RedirectTraced(env, w, k);
  }

  lemma RedirectTraced(env: Env, w: World, k: nat) returns (j: nat)
    requires k < |w.log| && Justified(env, w, k) && w.log[k].Answered? && Accepts(w.log[k].response)
    ensures j < k && w.log[j].Answered? && w.log[j].id == w.log[k].id && w.log[j].response.RedirectToIdp?
    ensures w.log[k].req.Callback? && Correlated(w.log[k].req.reply, w.log[j].response.leg)
  {
    var s := w.log[k].seen.value;
    assert Explained(env, w.log, k, s) && AnswerFits(env, w.log[k].req, s, w.log[k].now, w.log[k].response);
    j :| 0 <= j < k && Issues(w.log[j], s);
  }

  lemma OnlyAcceptedRecords(env: Env, s: SessionData, now: Time, req: Request)
    ensures var e := Handle(env, s, now, req); e.next.identity != s.identity ==> Accepts(e.response)
  {
    match req
    case Verify(cookie, newLeg) =>
    case Callback(reply, secret, csrf) =>
    case Approve(csrf, code, approve, cookie) =>
    case Poll(verifier) =>
  }

  /** A handler whose session is gone answers as it would have, but for a redirect: no browser is sent to
      the identity provider on a leg that the store does not have. */
  lemma FinishAnswersExactly(env: Env, w: World, h: nat, now: Time)
    requires h in w.flights
    ensures var (f, v) := (w.flights[h], Next(env, w, Finish(h, now)));
      var (own, answer) := (Handle(env, f.copy, now, f.req).response, v.log[|w.log|].response);
      && (answer.RedirectToIdp? ==> f.id in v.store && v.store[f.id].leg == answer.leg)
      && (f.id in w.store || !own.RedirectToIdp? ==> answer == own)
      && (f.id !in w.store && own.RedirectToIdp? ==> answer == ServerError)
  {
  }
}
