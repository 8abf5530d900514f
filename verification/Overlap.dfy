/** What is lost when one session's handlers do overlap. A handler's fetch and its write-back are not
    one critical section, so a copy fetched before a collection can undo it. */
module Overlap {
  import opened Prelude
  import opened SessionModel
  import opened Handlers
  import opened SerialRuns
  import opened Interleaving
  import opened Isolation
  import opened Outlook
  import opened Limits
  import opened Login
  import UserCode

  /** On an approved session, what carries it is an uncollected copy in the hands of any poll, with
      or without the verifier, or of the approval form sent once more. */
  lemma ApprovedCarriers(env: Env, f: Flight, t: Time)
    requires f.copy.state.Approved?
    ensures Carries(env, Collection, f, true, t) <==> !f.copy.consumed && WritesBack(f)
  {
  }

  /** Whether the poll that log entry k answers collected. */
  predicate Collected(w: World, k: nat) {
    k < |w.log| && ReleasesArtifact(w.log[k])
  }

  lemma ApprovedHandled(env: Env, s: SessionData, now: Time, req: Request)
    requires Sound(env, s) && s.state.Approved?
    ensures var e := Handle(env, s, now, req);
      && e.next == s.(consumed := e.next.consumed)
      && (IsRelease(e.response) <==> !s.consumed && req.Poll? && env.Verifies(req.verifier, s.terms))
      && (e.next.consumed <==> s.consumed || IsRelease(e.response))
      && (e.writes <==> req.Poll? || (req.Approve? && SameToken(req.csrfToken, s.csrfToken)))
  {
    match req
    case Verify(cookie, newLeg) =>
    case Callback(reply, secret, csrf) =>
    case Approve(csrf, code, approve, cookie) =>
    case Poll(verifier) =>
  }

  /** This handler, of an approved session, collects; this one writes back whatever it holds. */
  predicate CollectsIt(env: Env, f: Flight) {
    !f.copy.consumed && f.req.Poll? && env.Verifies(f.req.verifier, f.copy.terms)
  }

  predicate WritesBack(f: Flight) {
    f.req.Poll? || (f.req.Approve? && SameToken(f.req.csrfToken, f.copy.csrfToken))
  }

  lemma FinishApproved(env: Env, w: World, h: nat, now: Time)
    requires h in w.flights && w.flights[h].id in w.store
    requires Sound(env, w.flights[h].copy) && w.flights[h].copy.state.Approved?
    ensures var (f, v) := (w.flights[h], Next(env, w, Finish(h, now)));
      && |v.log| == |w.log| + 1 && v.log[..|w.log|] == w.log && v.flights == w.flights - {h}
      && (Collected(v, |w.log|) <==> CollectsIt(env, f))
      && v.store == (if WritesBack(f) then w.store[f.id := f.copy.(consumed := f.copy.consumed || CollectsIt(env, f))]
                     else w.store)
      && (f.req.Poll? && f.copy.consumed ==> TellsExpired(v, |w.log|))
  {
    ApprovedHandled(env, w.flights[h].copy, now, w.flights[h].req);
  }

  lemma PollOfApproved(env: Env, w: World, id: string, k: nat, verifier: string, now: Time)
    requires id in w.store && Sound(env, w.store[id]) && w.store[id].state.Approved? && k !in w.flights
    requires env.Verifies(verifier, w.store[id].terms)
    ensures var (s, v) := (w.store[id], Reach(env, w, Alone(k, id, Poll(verifier), now)));
      && |v.log| == |w.log| + 1 && v.log[..|w.log|] == w.log && v.flights == w.flights
      && (Collected(v, |w.log|) <==> !s.consumed) && (TellsExpired(v, |w.log|) <==> s.consumed)
      && v.store == w.store[id := s.(consumed := true)]
  {
    AloneServes(env, w, k, id, Poll(verifier), now);
    ApprovedHandled(env, w.store[id], now, Poll(verifier));
  }

  predicate TellsExpired(w: World, k: nat) {
    k < |w.log| && w.log[k].Answered? && w.log[k].response == PollAnswer(PollExpired, None)
  }

  /** A handler that fetched before the collection and finishes after it, and then a poll with the
      verifier: one of the two releases the artifact again if and only if the handler held an
      uncollected copy of the approved session and was a poll, with or without the verifier, or an
      approval with the form's token. */
  lemma OneMorePoll(env: Env, w: World, id: string, h: nat, now: Time, k: nat, verifier: string, later: Time)
    requires id in w.store && Sound(env, w.store[id]) && w.store[id].consumed
    requires h in w.flights && w.flights[h].id == id && k !in w.flights
    requires Sound(env, w.flights[h].copy) && w.flights[h].copy.state.Approved?
    requires w.flights[h].copy.terms == w.store[id].terms && env.Verifies(verifier, w.store[id].terms)
    ensures var v := Reach(env, w, [Finish(h, now)] + Alone(k, id, Poll(verifier), later));
      var f := w.flights[h];
      && |v.log| == |w.log| + 2
      && (Collected(v, |w.log|) || Collected(v, |w.log| + 1) <==> !f.copy.consumed && WritesBack(f))
  {
    var u := Next(env, w, Finish(h, now));
    FinishApproved(env, w, h, now);
    PollOfApproved(env, u, id, k, verifier, later);
    ReachThen(env, w, Finish(h, now), Alone(k, id, Poll(verifier), later));
    EarlierStays(u, Reach(env, u, Alone(k, id, Poll(verifier), later)), |w.log|);
  }

  lemma EarlierStays(u: World, v: World, k: nat)
    requires k < |u.log| <= |v.log| && v.log[..|u.log|] == u.log
    ensures v.log[k] == u.log[k]
  {
    assert v.log[..|u.log|][k] == v.log[k];
  }

  // Two polls with the verifier, in every order of their four steps.

  datatype Polling = Polling(handler: nat, verifier: string, now: Time)
  {
    function First(id: string): Step { Fetch(handler, id, Poll(verifier), now) }
    function Last(): Step { Finish(handler, now) }
  }

  datatype Order = InTurn | FirstInFirstOut | FirstInLastOut

  /** The order in which p and q, p being the first to fetch, take their steps. */
  function Steps(order: Order, id: string, p: Polling, q: Polling): seq<Step> {
    match order
    case InTurn => [p.First(id), p.Last(), q.First(id), q.Last()]
    case FirstInFirstOut => [p.First(id), q.First(id), p.Last(), q.Last()]
    case FirstInLastOut => [p.First(id), q.First(id), q.Last(), p.Last()]
  }

  lemma PollsInTurn(env: Env, w: World, id: string, p: Polling, q: Polling)
    requires id in w.store && Sound(env, w.store[id]) && w.store[id].state.Approved? && !w.store[id].consumed
    requires p.handler !in w.flights && q.handler !in w.flights
    requires env.Verifies(p.verifier, w.store[id].terms) && env.Verifies(q.verifier, w.store[id].terms)
    ensures var v := Reach(env, w, Steps(InTurn, id, p, q));
      |v.log| == |w.log| + 2 && Collected(v, |w.log|) && TellsExpired(v, |w.log| + 1)
  {
    var first := Alone(p.handler, id, Poll(p.verifier), p.now);
    var last := Alone(q.handler, id, Poll(q.verifier), q.now);
    PollOfApproved(env, w, id, p.handler, p.verifier, p.now);
    var u := Reach(env, w, first);
    PollOfApproved(env, u, id, q.handler, q.verifier, q.now);
    ReachConcat(env, w, first, last);
    assert first + last == Steps(InTurn, id, p, q);
    EarlierStays(u, Reach(env, u, last), |w.log|);
  }

  lemma BothFinish(env: Env, w: World, x: nat, y: nat, now: Time, later: Time)
    requires x in w.flights && y in w.flights && x != y
    requires w.flights[x].id == w.flights[y].id && w.flights[x].id in w.store
    requires Sound(env, w.flights[x].copy) && w.flights[x].copy.state.Approved? && CollectsIt(env, w.flights[x])
    requires Sound(env, w.flights[y].copy) && w.flights[y].copy.state.Approved? && CollectsIt(env, w.flights[y])
    ensures var v := Next(env, Next(env, w, Finish(x, now)), Finish(y, later));
      |v.log| == |w.log| + 2 && Collected(v, |w.log|) && Collected(v, |w.log| + 1)
  {
    var u := Next(env, w, Finish(x, now));
    FinishApproved(env, w, x, now);
    FinishApproved(env, u, y, later);
    EarlierStays(u, Next(env, u, Finish(y, later)), |w.log|);
  }

  lemma PollsOverlap(env: Env, w: World, id: string, p: Polling, q: Polling, x: Polling, y: Polling)
    requires id in w.store && Sound(env, w.store[id]) && w.store[id].state.Approved? && !w.store[id].consumed
    requires p.handler !in w.flights && q.handler !in w.flights && p.handler != q.handler
    requires env.Verifies(p.verifier, w.store[id].terms) && env.Verifies(q.verifier, w.store[id].terms)
    requires (x, y) == (p, q) || (x, y) == (q, p)
    ensures var v := Reach(env, w, [p.First(id), q.First(id), x.Last(), y.Last()]);
      |v.log| == |w.log| + 2 && Collected(v, |w.log|) && Collected(v, |w.log| + 1)
  {
    ReachFour(env, w, p.First(id), q.First(id), x.Last(), y.Last());
    BothFinish(env, Next(env, Next(env, w, p.First(id)), q.First(id)), x.handler, y.handler, x.now, y.now);
  }

  /** Both polls are given the artifact if and only if neither finishes before the other fetches.
      Otherwise the first is given it, and the second told that the session has expired. */
  lemma TwoPolls(env: Env, w: World, id: string, order: Order, p: Polling, q: Polling)
    requires id in w.store && Sound(env, w.store[id]) && w.store[id].state.Approved? && !w.store[id].consumed
    requires p.handler !in w.flights && q.handler !in w.flights && p.handler != q.handler
    requires env.Verifies(p.verifier, w.store[id].terms) && env.Verifies(q.verifier, w.store[id].terms)
    ensures var v := Reach(env, w, Steps(order, id, p, q));
      && |v.log| == |w.log| + 2 && Collected(v, |w.log|)
      && (Collected(v, |w.log| + 1) <==> order != InTurn)
      && (TellsExpired(v, |w.log| + 1) <==> order == InTurn)
  {
    match order
    case InTurn => PollsInTurn(env, w, id, p, q);
    case FirstInFirstOut => PollsOverlap(env, w, id, p, q, p, q);
    case FirstInLastOut => PollsOverlap(env, w, id, p, q, q, p);
  }

  lemma ReachFour(env: Env, w: World, a: Step, b: Step, c: Step, d: Step)
    ensures Reach(env, w, [a, b, c, d]) == Next(env, Next(env, Next(env, Next(env, w, a), b), c), d)
  {
    ReachThen(env, w, a, [b, c, d]);
    ReachThen(env, Next(env, w, a), b, [c, d]);
    ReachThen(env, Next(env, Next(env, w, a), b), c, [d]);
    ReachOne(env, Next(env, Next(env, Next(env, w, a), b), c), d);
    assert [a] + [b, c, d] == [a, b, c, d] && [b] + [c, d] == [b, c, d] && [c] + [d] == [c, d];
  }

  // ----- and from nothing, for every hash and normalizer -------------------

  const VISIT := Verify("", Some(SAMPLE.leg))
  const REPLY := Callback(SAMPLE.Reply(), Some(SAMPLE.secret), Some(SAMPLE.csrf))

  /** The sample login, one handler at a time: up to its redirect, its sign-in, its approval. */
  function SampleVisit(env: Env): seq<Step> {
    [Start(SampleTerms(env))] + Alone(0, "id", VISIT, 0)
  }

  function SampleSignIn(env: Env): seq<Step> {
    SampleVisit(env) + Alone(0, "id", REPLY, 0)
  }

  function SampleApproval(env: Env): seq<Step> {
    SampleSignIn(env) + Alone(0, "id", Approve(SAMPLE.csrf, SAMPLE.code, true, SAMPLE.secret), 0)
  }

  lemma SampleBegun(env: Env)
    ensures var terms := SampleTerms(env);
      Reach(env, EMPTY, SampleVisit(env)) ==
        World(map["id" := SAMPLE.Begun(terms)], map[], map["id" := terms],
              [Started(terms), Answered("id", 0, VISIT, Some(NewSession(terms)), RedirectToIdp(SAMPLE.leg))])
  {
    var w := Next(env, EMPTY, Start(SampleTerms(env)));
    ReachThen(env, EMPTY, Start(SampleTerms(env)), Alone(0, "id", VISIT, 0));
    AloneServes(env, w, 0, "id", VISIT, 0);
  }

  lemma ReplyBinds(env: Env)
    ensures var e := Handle(env, SAMPLE.Begun(SampleTerms(env)), 0, REPLY);
      e.writes && e.next == SAMPLE.SignedIn(env, SampleTerms(env), 0)
  {
    SampleIsHonest(env);
  }

  lemma SampleSignedIn(env: Env)
    ensures var w := Reach(env, EMPTY, SampleSignIn(env));
      && w.store == map["id" := SAMPLE.SignedIn(env, SampleTerms(env), 0)] && w.flights == map[]
      && |w.log| == 3 && Compared(env, w) == 0
  {
    var w := Reach(env, EMPTY, SampleVisit(env));
    SampleBegun(env);
    ReplyBinds(env);
    AloneServes(env, w, 0, "id", REPLY, 0);
    NothingCompared(env, w.log, Reach(env, w, Alone(0, "id", REPLY, 0)).log);
    ReachConcat(env, EMPTY, SampleVisit(env), Alone(0, "id", REPLY, 0));
  }

  /** How often the sample session's code has been compared. */
  function Compared(env: Env, w: World): nat {
    Total(env, Comparison, w.log, "id")
  }

  lemma NothingCompared(env: Env, before: seq<Event>, log: seq<Event>)
    requires |before| == 2 && |log| == 3 && log[..2] == before && before[0].Started?
    requires before[1].Answered? && !before[1].req.Approve? && log[2].Answered? && !log[2].req.Approve?
    ensures Total(env, Comparison, log, "id") == 0
  {
    assert ExchangesOf(before[..1], "id") == [];
    TotalAppend(env, Comparison, before[..1], before[1], "id");
    TotalAppend(env, Comparison, before, log[2], "id");
    assert before[..1] + [before[1]] == before && before + [log[2]] == log;
  }

  lemma SampleApproved(env: Env)
    ensures var w := Reach(env, EMPTY, SampleApproval(env));
      var s := SAMPLE.Agreed(env, SampleTerms(env), 0);
      && w.store == map["id" := s] && w.flights == map[] && |w.log| == 4
      && Sound(env, s) && env.Verifies(SAMPLE.verifier, s.terms)
  {
    var (terms, w) := (SampleTerms(env), Reach(env, EMPTY, SampleSignIn(env)));
    var form := Approve(SAMPLE.csrf, SAMPLE.code, true, SAMPLE.secret);
    SampleSignedIn(env);
    SampleIsHonest(env);
    HashBindingEqual(env, SAMPLE.secret, SAMPLE.secret);
    TypeCode(env, terms, SAMPLE, Some(SAMPLE.SignedIn(env, terms, 0)), 0, 0);
    ReachConcat(env, EMPTY, SampleSignIn(env), Alone(0, "id", form, 0));
    AloneServes(env, w, 0, "id", form, 0);
  }

  const RIGHT_POLL := Polling(0, SAMPLE.verifier, 0)

  /** A run from nothing in which two polls that overlap both collect. */
  lemma OverlappingPollsBothCollect(env: Env)
    ensures var polls := Steps(FirstInFirstOut, "id", RIGHT_POLL, RIGHT_POLL.(handler := 1));
      var v := Reach(env, EMPTY, SampleApproval(env) + polls);
      |v.log| == 6 && Collected(v, 4) && Collected(v, 5)
  {
    var (p, q) := (RIGHT_POLL, RIGHT_POLL.(handler := 1));
    SampleApproved(env);
    ReachConcat(env, EMPTY, SampleApproval(env), Steps(FirstInFirstOut, "id", p, q));
    TwoPolls(env, Reach(env, EMPTY, SampleApproval(env)), "id", FirstInFirstOut, p, q);
  }

  /** A stranger's poll is fetched, the verifier's poll collects, the stranger's is written back, and
      the verifier's is sent again. */
  function StrangerSpans(): seq<Step> {
    ([Fetch(1, "id", Poll(""), 0)] + Alone(0, "id", Poll(SAMPLE.verifier), 0))
    + ([Finish(1, 0)] + Alone(0, "id", Poll(SAMPLE.verifier), 0))
  }

  lemma SpannedByStranger(env: Env, w: World)
    requires "id" in w.store && w.flights == map[]
    requires var s := w.store["id"];
      Sound(env, s) && s.state.Approved? && !s.consumed && env.Verifies(SAMPLE.verifier, s.terms)
    ensures var v := Reach(env, w, [Fetch(1, "id", Poll(""), 0)] + Alone(0, "id", Poll(SAMPLE.verifier), 0));
      && |v.log| == |w.log| + 1 && Collected(v, |w.log|)
      && v.store == w.store["id" := w.store["id"].(consumed := true)]
      && v.flights == map[1 := Flight("id", Poll(""), w.store["id"])]
  {
    var stranger := Fetch(1, "id", Poll(""), 0);
    ReachThen(env, w, stranger, Alone(0, "id", Poll(SAMPLE.verifier), 0));
    PollOfApproved(env, Next(env, w, stranger), "id", 0, SAMPLE.verifier, 0);
  }

  /** A run from nothing in which two polls with the verifier, one strictly after the other, both
      collect: a stranger's poll without it was in flight meanwhile. */
  lemma StrangerUndoesCollection(env: Env)
    ensures var v := Reach(env, EMPTY, SampleApproval(env) + StrangerSpans());
      |v.log| == 7 && Collected(v, 4) && !Collected(v, 5) && Collected(v, 6)
  {
    var poll := Alone(0, "id", Poll(SAMPLE.verifier), 0);
    var w := Reach(env, EMPTY, SampleApproval(env));
    SampleApproved(env);
    ReachConcat(env, EMPTY, SampleApproval(env), StrangerSpans());
    ReachConcat(env, w, [Fetch(1, "id", Poll(""), 0)] + poll, [Finish(1, 0)] + poll);
    SpannedByStranger(env, w);
    var x := Reach(env, w, [Fetch(1, "id", Poll(""), 0)] + poll);
    var y := Next(env, x, Finish(1, 0));
    FinishApproved(env, x, 1, 0);
    ReachThen(env, x, Finish(1, 0), poll);
    PollOfApproved(env, y, "id", 0, SAMPLE.verifier, 0);
    EarlierStays(x, y, 4);
    EarlierStays(y, Reach(env, y, poll), 4);
    EarlierStays(y, Reach(env, y, poll), 5);
  }

  // ----- attempts under overlap --------------------------------------------

  const WRONG_FORM := Approve(SAMPLE.csrf, "", true, SAMPLE.secret)

  function Fetches(n: nat): seq<Step> {
    if n == 0 then [] else Fetches(n - 1) + [Fetch(n - 1, "id", WRONG_FORM, 0)]
  }

  function Finishes(m: nat, n: nat): seq<Step>
    decreases n - m
  {
    if m >= n then [] else [Finish(m, 0)] + Finishes(m + 1, n)
  }

  lemma WrongFormCharges(env: Env)
    ensures var s := SAMPLE.SignedIn(env, SampleTerms(env), 0);
      && Compares(env, Some(s), Op(0, Serve(WRONG_FORM)))
      && var e := Handle(env, s, 0, WRONG_FORM);
      && e.writes && e.next == s.(approveAttempts := 1)
  {
    HashBindingEqual(env, SAMPLE.secret, SAMPLE.secret);
    assert UserCode.Normalize("") == "";
    UserCode.SquashLetters("A");
    UserCode.TypedNormalizes("A");
  }

  /** The handlers from m up to n each hold s and the wrong form. */
  ghost predicate Waiting(w: World, s: SessionData, m: nat, n: nat) {
    && (forall h | h in w.flights :: m <= h < n && w.flights[h] == Flight("id", WRONG_FORM, s))
    && (forall h: nat | m <= h < n :: h in w.flights)
  }

  lemma {:induction false} AllFetch(env: Env, w: World, n: nat)
    requires "id" in w.store && w.flights == map[]
    ensures var v := Reach(env, w, Fetches(n));
      v.store == w.store && v.log == w.log && Waiting(v, w.store["id"], 0, n)
  {
    if n > 0 {
      AllFetch(env, w, n - 1);
      ReachConcat(env, w, Fetches(n - 1), [Fetch(n - 1, "id", WRONG_FORM, 0)]);
      ReachOne(env, Reach(env, w, Fetches(n - 1)), Fetch(n - 1, "id", WRONG_FORM, 0));
    }
  }

  /** Of n handlers waiting in w, the first m have finished in v. */
  ghost predicate Done(env: Env, w: World, v: World, s: SessionData, m: nat, n: nat) {
    && v.store == map["id" := s.(approveAttempts := Bit(m > 0))] && Waiting(v, s, m, n)
    && Compared(env, v) == Compared(env, w) + m
  }

  lemma OneCharged(env: Env, v: World, s: SessionData, m: nat, n: nat) returns (response: Response)
    requires s == SAMPLE.SignedIn(env, SampleTerms(env), 0) && m < n && Waiting(v, s, m, n) && "id" in v.store
    ensures var u := Next(env, v, Finish(m, 0));
      && u.store == v.store["id" := s.(approveAttempts := 1)] && Waiting(u, s, m + 1, n)
      && u.log == v.log + [Answered("id", 0, WRONG_FORM, Some(s), response)]
  {
    WrongFormCharges(env);
    assert m in v.flights;
    response := Handle(env, s, 0, WRONG_FORM).response;
  }

  lemma OneFinishes(env: Env, w: World, v: World, s: SessionData, m: nat, n: nat)
    requires s == SAMPLE.SignedIn(env, SampleTerms(env), 0) && m < n && Done(env, w, v, s, m, n)
    ensures Done(env, w, Next(env, v, Finish(m, 0)), s, m + 1, n)
  {
    var response := OneCharged(env, v, s, m, n);
    WrongFormCharges(env);
    TotalAppend(env, Comparison, v.log, Answered("id", 0, WRONG_FORM, Some(s), response), "id");
  }

  lemma {:induction false} AllFinish(env: Env, w: World, v: World, s: SessionData, m: nat, n: nat)
    requires s == SAMPLE.SignedIn(env, SampleTerms(env), 0) && m <= n && Done(env, w, v, s, m, n)
    ensures Done(env, w, Reach(env, v, Finishes(m, n)), s, n, n)
    decreases n - m
  {
    if m < n {
      OneFinishes(env, w, v, s, m, n);
      AllFinish(env, w, Next(env, v, Finish(m, 0)), s, m + 1, n);
      ReachThen(env, v, Finish(m, 0), Finishes(m + 1, n));
    }
  }

  /** Five attempts are no limit under overlap: for every n there is a run from nothing in which n
      codes are compared and one attempt is charged. */
  lemma ComparedManyTimes(env: Env, n: nat)
    ensures var v := Reach(env, EMPTY, SampleSignIn(env) + (Fetches(n) + Finishes(0, n)));
      && Compared(env, v) == n
      && "id" in v.store && v.store["id"].state.AwaitingApproval? && v.store["id"].approveAttempts == Bit(n > 0)
  {
    var w := Reach(env, EMPTY, SampleSignIn(env));
    SampleSignedIn(env);
    ReachConcat(env, EMPTY, SampleSignIn(env), Fetches(n) + Finishes(0, n));
    ReachConcat(env, w, Fetches(n), Finishes(0, n));
    AllFetch(env, w, n);
    var v := Reach(env, w, Fetches(n));
    AllFinish(env, v, v, w.store["id"], 0, n);
  }

  // A stranger's poll that spans a wrong code takes the charge back, so no two approvals need overlap.

  predicate WrongForm(env: Env, s: SessionData, req: Request) {
    && req.Approve? && req.approve && SameToken(req.csrfToken, s.csrfToken)
    && env.HashBinding(req.cookie) == s.bindingHash && !UserCode.CodesEqual(req.code, s.terms.userCode)
  }

  function Spanned(id: string, form: Request, verifier: string, h: nat, k: nat, now: Time): seq<Step> {
    [Fetch(k, id, Poll(verifier), now)] + (Alone(h, id, form, now) + [Finish(k, now)])
  }

  lemma StrangerWritesBack(env: Env, w: World, k: nat, now: Time)
    requires k in w.flights && w.flights[k].id in w.store && w.flights[k].req.Poll?
    requires var f := w.flights[k];
      f.copy.state.AwaitingApproval? && now <= f.copy.terms.expiresAt && !env.Verifies(f.req.verifier, f.copy.terms)
    ensures var (f, v) := (w.flights[k], Next(env, w, Finish(k, now)));
      && v.store == w.store[f.id := f.copy] && v.flights == w.flights - {k}
      && Total(env, Comparison, v.log, f.id) == Total(env, Comparison, w.log, f.id)
  {
    var f := w.flights[k];
    TotalAppend(env, Comparison, w.log, Answered(f.id, now, f.req, Some(f.copy), WrongVerifier), f.id);
  }

  /** Of any session awaiting approval with a wrong code to spare, the code is compared and nothing
      is charged. */
  lemma StrangerUndoesCharge(
    env: Env, w: World, id: string, form: Request, verifier: string, h: nat, k: nat, now: Time)
    requires id in w.store && h !in w.flights && k !in w.flights && h != k
    requires var s := w.store[id];
      && Sound(env, s) && s.state.AwaitingApproval? && now <= s.terms.expiresAt
      && WrongForm(env, s, form) && !env.Verifies(verifier, s.terms)
    ensures var v := Reach(env, w, Spanned(id, form, verifier, h, k, now));
      && v.store == w.store && v.flights == w.flights
      && Total(env, Comparison, v.log, id) == Total(env, Comparison, w.log, id) + 1
  {
    var fetch := Fetch(k, id, Poll(verifier), now);
    var u := Next(env, w, fetch);
    var x := Reach(env, u, Alone(h, id, form, now));
    ReachThen(env, w, fetch, Alone(h, id, form, now) + [Finish(k, now)]);
    ReachConcat(env, u, Alone(h, id, form, now), [Finish(k, now)]);
    WrongFormCompares(env, u, id, form, h, now);
    ReachOne(env, x, Finish(k, now));
    StrangerWritesBack(env, x, k, now);
    assert x.flights - {k} == w.flights;
  }

  lemma WrongFormCompares(env: Env, w: World, id: string, form: Request, h: nat, now: Time)
    requires id in w.store && h !in w.flights && Sound(env, w.store[id]) && w.store[id].state.AwaitingApproval?
    requires now <= w.store[id].terms.expiresAt && WrongForm(env, w.store[id], form)
    ensures var v := Reach(env, w, Alone(h, id, form, now));
      && v.flights == w.flights && id in v.store && v.store == w.store[id := v.store[id]]
      && Total(env, Comparison, v.log, id) == Total(env, Comparison, w.log, id) + 1
  {
    var e := Handle(env, w.store[id], now, form);
    AloneServes(env, w, h, id, form, now);
    TotalAppend(env, Comparison, w.log, Answered(id, now, form, Some(w.store[id]), e.response), id);
  }

  function Rounds(n: nat): seq<Step> {
    if n == 0 then [] else Spanned("id", WRONG_FORM, "", 0, 1, 0) + Rounds(n - 1)
  }

  lemma OneRound(env: Env, w: World)
    requires w.store == map["id" := SAMPLE.SignedIn(env, SampleTerms(env), 0)] && w.flights == map[]
    ensures var v := Reach(env, w, Spanned("id", WRONG_FORM, "", 0, 1, 0));
      v.store == w.store && v.flights == map[] && Compared(env, v) == Compared(env, w) + 1
  {
    SampleAwaits(env);
    StrangerUndoesCharge(env, w, "id", WRONG_FORM, "", 0, 1, 0);
  }

  lemma {:induction false} RoundsCompare(env: Env, w: World, n: nat)
    requires w.store == map["id" := SAMPLE.SignedIn(env, SampleTerms(env), 0)] && w.flights == map[]
    ensures var v := Reach(env, w, Rounds(n)); v.store == w.store && Compared(env, v) == Compared(env, w) + n
    decreases n
  {
    if n > 0 {
      var round := Spanned("id", WRONG_FORM, "", 0, 1, 0);
      OneRound(env, w);
      ReachConcat(env, w, round, Rounds(n - 1));
      RoundsCompare(env, Reach(env, w, round), n - 1);
    }
  }

  lemma SampleAwaits(env: Env)
    ensures var s := SAMPLE.SignedIn(env, SampleTerms(env), 0);
      Sound(env, s) && WrongForm(env, s, WRONG_FORM) && !env.Verifies("", s.terms)
  {
    SampleIsHonest(env);
    HashBindingEqual(env, SAMPLE.secret, SAMPLE.secret);
    assert UserCode.Normalize("") == "";
    UserCode.SquashLetters("A");
    UserCode.TypedNormalizes("A");
  }

  /** For every n there is a run from nothing in which n codes are compared, by approvals one strictly
      after the other, and none is charged. */
  lemma ComparedOneByOne(env: Env, n: nat)
    ensures var v := Reach(env, EMPTY, SampleSignIn(env) + Rounds(n));
      && Compared(env, v) == n
      && "id" in v.store && v.store["id"].state.AwaitingApproval? && v.store["id"].approveAttempts == 0
  {
    SampleSignedIn(env);
    ReachConcat(env, EMPTY, SampleSignIn(env), Rounds(n));
    RoundsCompare(env, Reach(env, EMPTY, SampleSignIn(env)), n);
  }
}
