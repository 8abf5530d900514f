/** A person who follows the protocol gets in, whatever goes on around them. */
module Login {
  import opened Prelude
  import opened SessionModel
  import opened Handlers
  import opened Encoding
  import opened SerialRuns
  import UserCode

  /** An operation that gets nowhere with a session in this state: any poll but the one that would
      collect, an approval without the form's token or the bound browser, a callback with another
      state, a visit to the link that starts no new leg, a sweep that is not due. */
  predicate Noise(env: Env, s: SessionData, op: Op) {
    && (op.now <= s.terms.expiresAt || IsTerminal(s.state))
    && match op.action
       case Tick => true
       case Sweep => !SweptAt(s, op.now)
       case Serve(Poll(verifier)) => s.state.Approved? ==> !env.Verifies(verifier, s.terms)
       case Serve(Approve(csrf, _, _, cookie)) =>
         !SameToken(csrf, s.csrfToken) || env.HashBinding(cookie) != s.bindingHash
       case Serve(Callback(reply, _, _)) => !s.state.Pending? || reply.state == "" || reply.state != s.leg.state
       case Serve(Verify(_, newLeg)) => !s.state.Pending? || newLeg.None?
  }

  predicate OnlyNoise(env: Env, s: SessionData, ops: seq<Op>) {
    forall i | 0 <= i < |ops| :: Noise(env, s, ops[i])
  }

  predicate SameButPolled(s: SessionData, cell: Cell) {
    cell.Some? && cell.value == s.(lastPollAt := cell.value.lastPollAt)
  }

  lemma NoiseStep(env: Env, s: SessionData, cell: Cell, op: Op)
    requires SameButPolled(s, cell) && Noise(env, s, op) && !s.state.Expired?
    ensures SameButPolled(s, Perform(env, cell, op).0)
  {
  }

  /** Noise changes nothing but the time polls are paced from. */
  lemma {:induction false} NoiseRun(env: Env, s: SessionData, cell: Cell, ops: seq<Op>)
    requires SameButPolled(s, cell) && OnlyNoise(env, s, ops) && !s.state.Expired?
    ensures SameButPolled(s, Final(env, cell, ops))
    decreases |ops|
  {
    if ops != [] {
      NoiseStep(env, s, cell, ops[0]);
      NoiseRun(env, s, Perform(env, cell, ops[0]).0, ops[1..]);
    }
  }

  /** What one person's login is made of. */
  datatype Attempt = Attempt(
    leg: IdpLeg, idpCode: string, who: Identity, secret: Token, csrf: Token, code: string, verifier: string)
  {
    function Reply(): IdpReply { IdpReply(leg.state, idpCode, Some(IdToken(leg.nonce, Some(who)))) }

    predicate Honest(env: Env, terms: Terms) {
      && leg.state != "" && idpCode != ""
      && env.Normalize(who.value) == env.Normalize(terms.loginHint)
      && UserCode.CodesEqual(code, terms.userCode)
      && env.Verifies(verifier, terms)
    }

    // The session as each step leaves it, up to when it was last polled.

    function Begun(terms: Terms): SessionData { NewSession(terms).(leg := leg) }

    function SignedIn(env: Env, terms: Terms, now: Time): SessionData {
      Begun(terms).(state := AwaitingApproval, identity := Some(who), identityAt := now,
                    csrfToken := csrf, bindingHash := env.HashBinding(secret))
    }

    function Agreed(env: Env, terms: Terms, now: Time): SessionData {
      SignedIn(env, terms, now).(state := Approved)
    }

    function Artifact(env: Env, now: Time): SessionModel.Artifact {
      SessionModel.Artifact(who.subject, who.value, who.claims, now, now + env.artifactTtl)
    }
  }

  lemma OpenLink(env: Env, terms: Terms, x: Attempt, cell: Cell, cookie: string, now: Time)
    requires SameButPolled(NewSession(terms), cell) && now <= terms.expiresAt
    ensures var (next, answer) := Perform(env, cell, Op(now, Serve(Verify(cookie, Some(x.leg)))));
      answer == Some(RedirectToIdp(x.leg)) && SameButPolled(x.Begun(terms), next)
  {
  }

  lemma SignIn(env: Env, terms: Terms, x: Attempt, cell: Cell, now: Time)
    requires SameButPolled(x.Begun(terms), cell) && now <= terms.expiresAt && x.Honest(env, terms)
    ensures var (next, answer) := Perform(env, cell, Op(now, Serve(Callback(x.Reply(), Some(x.secret), Some(x.csrf)))));
      && answer == Some(IdentityBound(Page(x.who.value, terms, x.csrf), x.secret))
      && SameButPolled(x.SignedIn(env, terms, now), next)
  {
  }

  lemma TypeCode(env: Env, terms: Terms, x: Attempt, cell: Cell, boundAt: Time, now: Time)
    requires SameButPolled(x.SignedIn(env, terms, boundAt), cell) && now <= terms.expiresAt && x.Honest(env, terms)
    ensures var (next, answer) := Perform(env, cell, Op(now, Serve(Approve(x.csrf, x.code, true, x.secret))));
      answer == Some(ApprovedPage) && SameButPolled(x.Agreed(env, terms, boundAt), next)
  {
    HashBindingEqual(env, x.secret, x.secret);
  }

  lemma CollectArtifact(env: Env, terms: Terms, x: Attempt, cell: Cell, boundAt: Time, now: Time)
    requires SameButPolled(x.Agreed(env, terms, boundAt), cell) && x.Honest(env, terms)
    ensures Perform(env, cell, Op(now, Serve(Poll(x.verifier)))).1
         == Some(PollAnswer(PollApproved, Some(x.Artifact(env, boundAt))))
  {
  }

  /** One thing is not noise: anyone's further visit to the link begins a leg of its own, and the
      sign-in already under way then fails unless the two legs have the same state and nonce. */
  lemma SecondVisitCutsIn(
    env: Env, terms: Terms, x: Attempt, cell: Cell, cookie: string, other: IdpLeg, now: Time, later: Time)
    requires SameButPolled(x.Begun(terms), cell) && now <= terms.expiresAt && later <= terms.expiresAt
    requires x.Honest(env, terms)
    ensures var visited := Perform(env, cell, Op(now, Serve(Verify(cookie, Some(other))))).0;
      var answer := Perform(env, visited, Op(later, Serve(Callback(x.Reply(), Some(x.secret), Some(x.csrf))))).1;
      && (answer == Some(SignInFailed) <==> (other.state, other.nonce) != (x.leg.state, x.leg.nonce))
      && (answer.value.IdentityBound? <==> (other.state, other.nonce) == (x.leg.state, x.leg.nonce))
  {
  }

  /** When an honest person takes each step, and what else happens before it. */
  datatype Course = Course(
    cookie: string, before: seq<Op>, visited: Time, away: seq<Op>, boundAt: Time,
    thinking: seq<Op>, approvedAt: Time, waiting: seq<Op>, collected: Time)

  /** All else is noise, and the link, the sign-in and the approval come by the given time. */
  ghost predicate Undisturbed(env: Env, terms: Terms, x: Attempt, c: Course, due: Time) {
    && c.visited <= due && c.boundAt <= due && c.approvedAt <= due
    && OnlyNoise(env, NewSession(terms), c.before)
    && OnlyNoise(env, x.Begun(terms), c.away)
    && OnlyNoise(env, x.SignedIn(env, terms, c.boundAt), c.thinking)
    && OnlyNoise(env, x.Agreed(env, terms, c.boundAt), c.waiting)
  }

  /** The session as each step finds it, and what the step is answered. */
  function Visit(env: Env, cell: Cell, x: Attempt, c: Course): (Cell, Option<Response>) {
    Perform(env, Final(env, cell, c.before), Op(c.visited, Serve(Verify(c.cookie, Some(x.leg)))))
  }

  function Return(env: Env, cell: Cell, x: Attempt, c: Course): (Cell, Option<Response>) {
    Perform(env, Final(env, cell, c.away), Op(c.boundAt, Serve(Callback(x.Reply(), Some(x.secret), Some(x.csrf)))))
  }

  function Consent(env: Env, cell: Cell, x: Attempt, c: Course): (Cell, Option<Response>) {
    Perform(env, Final(env, cell, c.thinking), Op(c.approvedAt, Serve(Approve(x.csrf, x.code, true, x.secret))))
  }

  function Collection(env: Env, cell: Cell, x: Attempt, c: Course): (Cell, Option<Response>) {
    Perform(env, Final(env, cell, c.waiting), Op(c.collected, Serve(Poll(x.verifier))))
  }

  /** From this session on, the person is redirected, shown a page about this requester, and approved,
      and the poller is given the artifact of that sign-in. */
  ghost predicate GoesThrough(env: Env, cell: Cell, requester: Terms, x: Attempt, c: Course) {
    var (begun, redirected) := Visit(env, cell, x, c);
    var (bound, page) := Return(env, begun, x, c);
    var (agreed, done) := Consent(env, bound, x, c);
    && redirected == Some(RedirectToIdp(x.leg))
    && page == Some(IdentityBound(Page(x.who.value, requester, x.csrf), x.secret))
    && done == Some(ApprovedPage)
    && Collection(env, agreed, x, c).1 == Some(PollAnswer(PollApproved, Some(x.Artifact(env, c.boundAt))))
  }

  /** The honest steps, in order, each after any amount of noise. The last one has no deadline but
      the store's own: an approved session does not expire. */
  lemma HonestLoginSucceeds(env: Env, terms: Terms, x: Attempt, c: Course)
    requires x.Honest(env, terms) && Undisturbed(env, terms, x, c, terms.expiresAt)
    ensures GoesThrough(env, Some(NewSession(terms)), terms, x, c)
  {
    var start := Some(NewSession(terms));
    NoiseRun(env, NewSession(terms), start, c.before);
    OpenLink(env, terms, x, Final(env, start, c.before), c.cookie, c.visited);
    var begun := Visit(env, start, x, c).0;
    NoiseRun(env, x.Begun(terms), begun, c.away);
    SignIn(env, terms, x, Final(env, begun, c.away), c.boundAt);
    var bound := Return(env, begun, x, c).0;
    NoiseRun(env, x.SignedIn(env, terms, c.boundAt), bound, c.thinking);
    TypeCode(env, terms, x, Final(env, bound, c.thinking), c.boundAt, c.approvedAt);
    var agreed := Consent(env, bound, x, c).0;
    NoiseRun(env, x.Agreed(env, terms, c.boundAt), agreed, c.waiting);
    CollectArtifact(env, terms, x, Final(env, agreed, c.waiting), c.boundAt, c.collected);
  }

  /** Noise, or a sweep within twice the session's lifetime. */
  predicate Harmless(env: Env, s: SessionData, ttl: Duration, op: Op) {
    if op.action.Sweep? then op.now <= s.terms.createdAt + 2 * ttl else Noise(env, s, op)
  }

  lemma HarmlessIsNoise(env: Env, s: SessionData, ttl: Duration, op: Op)
    requires s.state.Approved? && s.terms.expiresAt == s.terms.createdAt + ttl && Harmless(env, s, ttl, op)
    ensures Noise(env, s, op)
  {
  }

  /** The artifact that s has been signed in for. */
  function ArtifactOf(env: Env, s: SessionData): SessionModel.Artifact
    requires s.identity.Some?
  {
    SessionModel.Artifact(s.identity.value.subject, s.identity.value.value, s.identity.value.claims,
                          s.identityAt, s.identityAt + env.artifactTtl)
  }

  lemma VerifierCollects(env: Env, s: SessionData, cell: Cell, verifier: string, now: Time)
    requires SameButPolled(s, cell) && s.state.Approved? && !s.consumed && s.identity.Some?
    requires env.Verifies(verifier, s.terms)
    ensures Perform(env, cell, Op(now, Serve(Poll(verifier)))).1
         == Some(PollAnswer(PollApproved, Some(ArtifactOf(env, s))))
  {
  }

  /** However often the store sweeps within twice its lifetime, an approved session waits for its
      verifier. */
  lemma ApprovedWaits(env: Env, s: SessionData, ttl: Duration, ops: seq<Op>, verifier: string, now: Time)
    requires s.state.Approved? && !s.consumed && s.identity.Some? && env.Verifies(verifier, s.terms)
    requires s.terms.expiresAt == s.terms.createdAt + ttl
    requires forall i | 0 <= i < |ops| :: Harmless(env, s, ttl, ops[i])
    ensures Perform(env, Final(env, Some(s), ops), Op(now, Serve(Poll(verifier)))).1
         == Some(PollAnswer(PollApproved, Some(ArtifactOf(env, s))))
  {
    forall i | 0 <= i < |ops| ensures Noise(env, s, ops[i]) {
      HarmlessIsNoise(env, s, ttl, ops[i]);
    }
    NoiseRun(env, s, Some(s), ops);
    VerifierCollects(env, s, Final(env, Some(s), ops), verifier, now);
  }

  // ----- one such login, whatever the hash and the normalizer --------------

  function SampleTerms(env: Env): Terms {
    Terms("id", "ann", Encode(env.sha256("v")), "", "", "", "", SECOND, 0, 0, "A")
  }

  const SAMPLE := Attempt(IdpLeg("state", "nonce", ""), "c", Identity("u", "ann", map[]), "secret", "csrf", "A", "v")

  lemma SampleIsHonest(env: Env)
    ensures SAMPLE.Honest(env, SampleTerms(env))
  {
    EncodedText(env.sha256("v"));
  }

  /** The sample's four operations, all at time 0 but the last. */
  function SampleRun(env: Env, collected: Time): seq<Op> {
    [Op(0, Serve(Verify("", Some(SAMPLE.leg)))),
     Op(0, Serve(Callback(SAMPLE.Reply(), Some(SAMPLE.secret), Some(SAMPLE.csrf)))),
     Op(0, Serve(Approve(SAMPLE.csrf, SAMPLE.code, true, SAMPLE.secret))),
     Op(collected, Serve(Poll(SAMPLE.verifier)))]
  }

  lemma SampleReleases(env: Env, collected: Time)
    ensures Play(env, Some(NewSession(SampleTerms(env))), SampleRun(env, collected))[3].response
         == Some(PollAnswer(PollApproved, Some(SAMPLE.Artifact(env, 0))))
  {
    var (start, ops) := (Some(NewSession(SampleTerms(env))), SampleRun(env, collected));
    SampleIsHonest(env);
    PlayIsChain(env, start, ops, 0);
    PlayIsChain(env, start, ops, 1);
    PlayIsChain(env, start, ops, 2);
    PlayIsChain(env, start, ops, 3);
    var log := Play(env, start, ops);
    OpenLink(env, SampleTerms(env), SAMPLE, start, "", 0);
    SignIn(env, SampleTerms(env), SAMPLE, log[1].before, 0);
    TypeCode(env, SampleTerms(env), SAMPLE, log[2].before, 0, 0);
    CollectArtifact(env, SampleTerms(env), SAMPLE, log[3].before, 0, collected);
  }

  /** An approved session does not expire, so an artifact can be past its own expiry when released. */
  lemma ExpiredArtifactReleased(env: Env)
    ensures var late := if env.artifactTtl < 0 then 0 else env.artifactTtl + 1;
      var e := Play(env, Some(NewSession(SampleTerms(env))), SampleRun(env, late))[3];
      && Monotone(SampleRun(env, late))
      && Released(e) && e.response.value.artifact.Some?
      && e.response.value.artifact.value.expiresAt < e.op.now
  {
    var late := if env.artifactTtl < 0 then 0 else env.artifactTtl + 1;
    SampleReleases(env, late);
    PlayIsChain(env, Some(NewSession(SampleTerms(env))), SampleRun(env, late), 3);
  }
}
