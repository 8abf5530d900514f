/** What every serial run of one session keeps: safety, single use, finality, accounting,
    dating, and the correlation of the identity provider's leg. */
module SerialRuns {
  import opened Prelude
  import opened SessionModel
  import opened Handlers
  import UserCode

  // ----- the invariant of a session ----------------------------------------

  /** A session past the login leg has an identity that matches its hint and is bound to a browser;
      only an approved session can be consumed. A pending session may already hold an identity:
      binding can fail after recording it. */
  ghost predicate Sound(env: Env, s: SessionData) {
    && (s.state.AwaitingApproval? || s.state.Approved? ==>
          && s.identity.Some?
          && env.Normalize(s.identity.value.value) == env.Normalize(s.terms.loginHint)
          && s.bindingHash != ""
          && s.csrfToken != ""
          && s.approveAttempts < MAX_APPROVE_ATTEMPTS)
    && (s.state.Pending? ==> s.csrfToken == "" && s.approveAttempts == 0)
    && (s.consumed ==> s.state.Approved?)
    && s.approveAttempts <= MAX_APPROVE_ATTEMPTS
  }

  ghost predicate SoundCell(env: Env, cell: Cell) {
    cell.Some? ==> Sound(env, cell.value)
  }

  /** Every handler keeps the invariant and the terms, and never takes a branch that only a
      broken session could reach; in particular a poll never meets a missing identity. */
  lemma HandleKeepsSound(env: Env, s: SessionData, now: Time, req: Request)
    requires Sound(env, s)
    ensures SoundEffect(env, s, Handle(env, s, now, req))
  {
    match req
    case Verify(cookie, newLeg) =>
    case Callback(reply, secret, csrf) => CallbackKeepsSound(env, s, now, reply, secret, csrf);
    case Approve(csrf, code, approve, cookie) => ApproveKeepsSound(env, s, now, csrf, code, approve, cookie);
    case Poll(verifier) => PollKeepsSound(env, s, now, verifier);
  }

  ghost predicate SoundEffect(env: Env, s: SessionData, e: Effect) {
    && Sound(env, e.next) && e.next.terms == s.terms
    && e.response != Panic && e.response != Unavailable && e.response != DonePage
  }

  lemma BindKeepsSound(env: Env, s: SessionData, who: Identity, now: Time, hash: string, csrf: Option<Token>)
    requires Sound(env, s) && hash != ""
    ensures var t := Bind(env, s, who, now, hash, csrf).0; Sound(env, t) && t.terms == s.terms
  {
  }

  lemma CallbackKeepsSound(
    env: Env, s: SessionData, now: Time, reply: IdpReply, secret: Option<Token>, csrf: Option<Token>)
    requires Sound(env, s)
    ensures SoundEffect(env, s, HandleCallback(env, s, now, reply, secret, csrf))
  {
    var (t, who) := (Settle(s, now), CompleteLogin(s, reply));
    if secret.Some? && who.Some? {
      HashBindingEqual(env, secret.value, secret.value);
      BindKeepsSound(env, t, who.value, now, env.HashBinding(secret.value), csrf);
    }
  }

  lemma ApproveKeepsSound(
    env: Env, s: SessionData, now: Time, csrf: string, code: string, approve: bool, cookie: string)
    requires Sound(env, s)
    ensures SoundEffect(env, s, HandleApprove(env, s, now, csrf, code, approve, cookie))
  {
  }

  lemma PollKeepsSound(env: Env, s: SessionData, now: Time, verifier: string)
    requires Sound(env, s)
    ensures SoundEffect(env, s, HandlePoll(env, s, now, verifier))
  {
  }

  lemma {:induction false} RunKeepsSound(env: Env, cell: Cell, ops: seq<Op>, i: nat)
    requires SoundCell(env, cell) && i < |ops|
    ensures var e := Play(env, cell, ops)[i];
      && SoundCell(env, e.before) && SoundCell(env, e.after)
      && (e.before.None? ==> e.after.None?)
      && (e.after.Some? ==> e.before.value.terms == e.after.value.terms)
      && e.response != Some(Panic)
  {
    PlayIsChain(env, cell, ops, i);
    if i > 0 {
      RunKeepsSound(env, cell, ops, i - 1);
    }
    var e := Play(env, cell, ops)[i];
    if e.before.Some? && ops[i].action.Serve? {
      HandleKeepsSound(env, e.before.value, ops[i].now, ops[i].action.req);
    }
  }

  // ----- single use --------------------------------------------------------

  predicate Released(e: Entry) {
    e.response.Some? && IsRelease(e.response.value)
  }

  function Releases(log: seq<Entry>): nat {
    if log == [] then 0 else (if Released(log[0]) then 1 else 0) + Releases(log[1..])
  }

  predicate Spent(cell: Cell) {
    cell.Some? && cell.value.consumed
  }

  function Bit(b: bool): nat { if b then 1 else 0 }

  lemma StepSpends(env: Env, cell: Cell, op: Op)
    requires SoundCell(env, cell)
    ensures var e := Record(env, cell, op);
      && Bit(Released(e)) + Bit(Spent(e.before)) <= 1
      && (e.after.Some? ==> Bit(Spent(e.after)) == Bit(Released(e)) + Bit(Spent(e.before)))
      && (e.after.None? ==> !Released(e))
      && (e.before.None? ==> e.after.None?)
  {
  }

  lemma {:induction false} ReleasesFrom(env: Env, cell: Cell, ops: seq<Op>)
    requires SoundCell(env, cell)
    ensures Releases(Play(env, cell, ops)) + Bit(Spent(cell)) <= 1
    ensures Final(env, cell, ops).Some? ==>
      Releases(Play(env, cell, ops)) + Bit(Spent(cell)) == Bit(Spent(Final(env, cell, ops)))
    decreases |ops|
  {
    if ops != [] {
      var log := Play(env, cell, ops);
      var next := log[0].after;
      StepSpends(env, cell, ops[0]);
      RunKeepsSound(env, cell, ops, 0);
      ReleasesFrom(env, next, ops[1..]);
      assert log[1..] == Play(env, next, ops[1..]);
      if next.None? {
        NothingFromNothing(env, ops[1..]);
      }
    }
  }

  lemma {:induction false} NothingFromNothing(env: Env, ops: seq<Op>)
    ensures Releases(Play(env, None, ops)) == 0 && Comparisons(env, Play(env, None, ops)) == 0
    ensures Final(env, None, ops) == None
    decreases |ops|
  {
    if ops != [] {
      NothingFromNothing(env, ops[1..]);
      assert Play(env, None, ops)[1..] == Play(env, None, ops[1..]);
    }
  }

  /** A consumed session stays so until it is evicted. */
  lemma {:induction false} SpentStays(env: Env, cell: Cell, ops: seq<Op>, i: nat, j: nat)
    requires SoundCell(env, cell) && i < j < |ops|
    requires Spent(Play(env, cell, ops)[i].after)
    ensures var before := Play(env, cell, ops)[j].before; before.None? || Spent(before)
  {
    PlayIsChain(env, cell, ops, j);
    if i < j - 1 {
      SpentStays(env, cell, ops, i, j - 1);
      PlayIsChain(env, cell, ops, j - 1);
      RunKeepsSound(env, cell, ops, j - 1);
      StepSpends(env, Play(env, cell, ops)[j - 1].before, ops[j - 1]);
    }
  }

  lemma PollsAfterRelease(env: Env, cell: Cell, ops: seq<Op>, i: nat, j: nat)
    requires SoundCell(env, cell) && i < j < |ops|
    requires var log := Play(env, cell, ops); Released(log[i]) && IsPollOp(ops[j])
    ensures Play(env, cell, ops)[j].response == Some(PollAnswer(PollExpired, None))
  {
    var log := Play(env, cell, ops);
    RunKeepsSound(env, cell, ops, i);
    PlayIsChain(env, cell, ops, i);
    assert Spent(log[i].after) by { StepSpends(env, log[i].before, ops[i]); }
    SpentStays(env, cell, ops, i, j);
    RunKeepsSound(env, cell, ops, j);
    PlayIsChain(env, cell, ops, j);
  }

  /** A session's artifact is released at most once, and exactly once if it ends up consumed;
      after that every poll, with any verifier, says expired. */
  lemma SingleUse(env: Env, terms: Terms, ops: seq<Op>)
    ensures var start := Some(NewSession(terms));
      var log := Play(env, start, ops);
      && Releases(log) <= 1
      && (Final(env, start, ops).Some? ==> Releases(log) == Bit(Spent(Final(env, start, ops))))
      && forall i, j | 0 <= i < j < |log| && Released(log[i]) && IsPollOp(ops[j]) ::
           log[j].response == Some(PollAnswer(PollExpired, None))
  {
    var start := Some(NewSession(terms));
    var log := Play(env, start, ops);
    ReleasesFrom(env, start, ops);
    forall i, j | 0 <= i < j < |log| && Released(log[i]) && IsPollOp(ops[j])
      ensures log[j].response == Some(PollAnswer(PollExpired, None))
    {
      PollsAfterRelease(env, start, ops, i, j);
    }
  }

  // ----- finality ----------------------------------------------------------

  function Rank(st: State): nat {
    if st.Pending? then 0 else if st.AwaitingApproval? then 1 else 2
  }

  predicate Moved(e: Entry) {
    e.before.Some? && e.after.Some? && e.before.value.state != e.after.value.state
  }

  function Moves(log: seq<Entry>): nat {
    if log == [] then 0 else Bit(Moved(log[0])) + Moves(log[1..])
  }

  function CellRank(cell: Cell): nat {
    if cell.Some? then Rank(cell.value.state) else 2
  }

  lemma StepClimbs(env: Env, cell: Cell, op: Op)
    ensures var e := Record(env, cell, op);
      && CellRank(e.before) + Bit(Moved(e)) <= CellRank(e.after)
      && (Moved(e) ==> Rank(e.before.value.state) < Rank(e.after.value.state))
  {
  }

  /** The state only climbs: pending, awaiting approval, terminal. So it changes at most twice,
      and a terminal state never changes. */
  lemma {:induction false} StateClimbs(env: Env, cell: Cell, ops: seq<Op>)
    ensures var log := Play(env, cell, ops);
      && Moves(log) + CellRank(cell) <= 2
      && forall i | 0 <= i < |log| && Moved(log[i]) ::
           Rank(log[i].before.value.state) < Rank(log[i].after.value.state)
    decreases |ops|
  {
    if ops != [] {
      var log := Play(env, cell, ops);
      var next := log[0].after;
      StepClimbs(env, cell, ops[0]);
      StateClimbs(env, next, ops[1..]);
      assert log[1..] == Play(env, next, ops[1..]);
      forall i | 0 <= i < |log| && Moved(log[i])
        ensures Rank(log[i].before.value.state) < Rank(log[i].after.value.state)
      {
        if i > 0 { assert log[i] == log[1..][i - 1]; }
      }
    }
  }

  // ----- attempt accounting ------------------------------------------------

  /** This operation compares a submitted code with the session's. */
  predicate Compares(env: Env, cell: Cell, op: Op) {
    && cell.Some? && op.action.Serve? && op.action.req.Approve?
    && var (s, req) := (Settle(cell.value, op.now), op.action.req);
    && s.state.AwaitingApproval?
    && SameToken(req.csrfToken, s.csrfToken)
    && env.HashBinding(req.cookie) == s.bindingHash
    && req.approve
  }

  function Comparisons(env: Env, log: seq<Entry>): nat {
    if log == [] then 0 else Bit(Compares(env, log[0].before, log[0].op)) + Comparisons(env, log[1..])
  }

  function Charged(cell: Cell): nat {
    if cell.Some? then cell.value.approveAttempts + Bit(cell.value.state.Approved?) else MAX_APPROVE_ATTEMPTS
  }

  lemma StepCharges(env: Env, cell: Cell, op: Op)
    requires SoundCell(env, cell)
    ensures var e := Record(env, cell, op);
      && (e.after.Some? ==> Charged(e.after) == Charged(e.before) + Bit(Compares(env, cell, op)))
      && (e.after.None? ==> !Compares(env, cell, op))
      && Charged(e.after) <= MAX_APPROVE_ATTEMPTS
  {
  }

  lemma {:induction false} ComparisonsFrom(env: Env, cell: Cell, ops: seq<Op>)
    requires SoundCell(env, cell)
    ensures Comparisons(env, Play(env, cell, ops)) + Charged(cell) <= MAX_APPROVE_ATTEMPTS
    ensures Final(env, cell, ops).Some? ==>
      Comparisons(env, Play(env, cell, ops)) + Charged(cell) == Charged(Final(env, cell, ops))
    decreases |ops|
  {
    if ops != [] {
      var log := Play(env, cell, ops);
      var next := log[0].after;
      StepCharges(env, cell, ops[0]);
      RunKeepsSound(env, cell, ops, 0);
      ComparisonsFrom(env, next, ops[1..]);
      assert log[1..] == Play(env, next, ops[1..]);
      if next.None? {
        NothingFromNothing(env, ops[1..]);
      }
    }
  }

  /** At most five codes are ever compared. Every comparison is either a charged attempt or the one
      that approved, so submissions from an unbound browser cost nothing; and a session that can
      still be approved, or was, has fewer than five charged. */
  lemma AttemptAccounting(env: Env, terms: Terms, ops: seq<Op>)
    ensures var start := Some(NewSession(terms));
      var log := Play(env, start, ops);
      var end := Final(env, start, ops);
      && Comparisons(env, log) <= MAX_APPROVE_ATTEMPTS
      && (end.Some? ==>
            && Comparisons(env, log) == end.value.approveAttempts + Bit(end.value.state.Approved?)
            && (end.value.state.AwaitingApproval? || end.value.state.Approved? ==>
                  end.value.approveAttempts < MAX_APPROVE_ATTEMPTS))
  {
    var start := Some(NewSession(terms));
    ComparisonsFrom(env, start, ops);
    if ops != [] {
      RunKeepsSound(env, start, ops, |ops| - 1);
      PlayIsChain(env, start, ops, |ops| - 1);
    }
  }

  /** The wrong-code signal is not the same as a wrong code: the fifth wrong code is reported as a
      denial, and resubmitting the form of an approved session is reported as a wrong code. */
  lemma WrongCodeSignal(env: Env, s: SessionData, now: Time, csrf: string, code: string, approve: bool, cookie: string)
    requires Sound(env, s)
    ensures HandleApprove(env, s, now, csrf, code, approve, cookie).signal == Some(WrongCode)
       <==> && SameToken(csrf, s.csrfToken)
            && (s.state.Approved?
                || (&& Compares(env, Some(s), Op(now, Serve(Approve(csrf, code, approve, cookie))))
                    && !UserCode.CodesEqual(code, s.terms.userCode)
                    && s.approveAttempts < MAX_APPROVE_ATTEMPTS - 1))
  {
  }

  // ----- artifact dating ---------------------------------------------------

  ghost predicate Dated(terms: Terms, cell: Cell) {
    cell.Some? ==>
      && cell.value.terms == terms
      && (cell.value.identity.Some? ==> terms.createdAt <= cell.value.identityAt <= terms.expiresAt)
  }

  lemma StepDated(env: Env, terms: Terms, cell: Cell, op: Op)
    requires Dated(terms, cell) && terms.createdAt <= op.now
    ensures Dated(terms, Record(env, cell, op).after)
  {
    if cell.Some? && op.action.Serve? {
      match op.action.req
      case Verify(cookie, newLeg) =>
      case Callback(reply, secret, csrf) => CallbackDated(env, cell.value, op.now, reply, secret, csrf);
      case Approve(csrf, code, approve, cookie) =>
        ApproveKeepsIdentity(env, cell.value, op.now, csrf, code, approve, cookie);
      case Poll(verifier) => PollKeepsIdentity(env, cell.value, op.now, verifier);
    }
  }

  lemma ApproveKeepsIdentity(
    env: Env, s: SessionData, now: Time, csrf: string, code: string, approve: bool, cookie: string)
    ensures var t := HandleApprove(env, s, now, csrf, code, approve, cookie).next;
      t.identity == s.identity && t.identityAt == s.identityAt && t.terms == s.terms
  {
  }

  lemma PollKeepsIdentity(env: Env, s: SessionData, now: Time, verifier: string)
    ensures var t := HandlePoll(env, s, now, verifier).next;
      t.identity == s.identity && t.identityAt == s.identityAt && t.terms == s.terms
  {
  }

  lemma CallbackDated(env: Env, s: SessionData, now: Time, reply: IdpReply, secret: Option<Token>, csrf: Option<Token>)
    requires Dated(s.terms, Some(s)) && s.terms.createdAt <= now
    ensures Dated(s.terms, Some(HandleCallback(env, s, now, reply, secret, csrf).next))
  {
  }

  lemma {:induction false} RunKeepsDated(env: Env, terms: Terms, cell: Cell, ops: seq<Op>, i: nat)
    requires Dated(terms, cell) && NotBefore(terms.createdAt, ops) && i < |ops|
    ensures Dated(terms, Play(env, cell, ops)[i].before)
  {
    PlayIsChain(env, cell, ops, i);
    if i > 0 {
      RunKeepsDated(env, terms, cell, ops, i - 1);
      PlayIsChain(env, cell, ops, i - 1);
      StepDated(env, terms, Play(env, cell, ops)[i - 1].before, ops[i - 1]);
    }
  }

  lemma PollReleases(env: Env, s: SessionData, now: Time, verifier: string)
    requires Sound(env, s)
    ensures var r := HandlePoll(env, s, now, verifier).response;
      IsRelease(r) ==>
        && s.state.Approved? && s.identity.Some? && r.artifact.Some?
        && r.artifact.value.approvedAt == s.identityAt
        && r.artifact.value.expiresAt == s.identityAt + env.artifactTtl
  {
  }

  lemma StepReleases(env: Env, cell: Cell, op: Op)
    requires SoundCell(env, cell) && Released(Record(env, cell, op))
    ensures var artifact := Record(env, cell, op).response.value.artifact;
      && cell.Some? && cell.value.identity.Some? && artifact.Some?
      && artifact.value.approvedAt == cell.value.identityAt
      && artifact.value.expiresAt == cell.value.identityAt + env.artifactTtl
      && cell.value.state.Approved?
  {
    match op.action.req
    case Verify(cookie, newLeg) =>
    case Callback(reply, secret, csrf) =>
    case Approve(csrf, code, approve, cookie) =>
    case Poll(verifier) => if cell.Some? { PollReleases(env, cell.value, op.now, verifier); }
  }

  /** A released artifact is dated inside the session's life and outlives it by at most the
      artifact's own lifetime, however late it is collected. */
  lemma ArtifactDating(env: Env, terms: Terms, ops: seq<Op>, i: nat)
    requires NotBefore(terms.createdAt, ops) && i < |ops|
    requires Released(Play(env, Some(NewSession(terms)), ops)[i])
    ensures var released := Play(env, Some(NewSession(terms)), ops)[i].response.value.artifact;
      && released.Some?
      && terms.createdAt <= released.value.approvedAt <= terms.expiresAt
      && released.value.expiresAt == released.value.approvedAt + env.artifactTtl
      && released.value.expiresAt <= terms.expiresAt + env.artifactTtl
  {
    var start := Some(NewSession(terms));
    RunKeepsDated(env, terms, start, ops, i);
    RunKeepsSound(env, start, ops, i);
    PlayIsChain(env, start, ops, i);
    StepReleases(env, Play(env, start, ops)[i].before, ops[i]);
  }

  // ----- artifacts collected late ------------------------------------------

  predicate PastSignIn(cell: Cell) {
    cell.Some? && (cell.value.state.AwaitingApproval? || cell.value.state.Approved?)
  }

  predicate BindsAt(e: Entry, at: Time) {
    e.response.Some? && e.response.value.IdentityBound? && e.op.now == at
  }

  lemma CallbackBinds(env: Env, s: SessionData, now: Time, reply: IdpReply, secret: Option<Token>, csrf: Option<Token>)
    ensures var e := HandleCallback(env, s, now, reply, secret, csrf);
      PastSignIn(Some(e.next)) ==>
        || (e.response.IdentityBound? && e.next.identityAt == now)
        || (PastSignIn(Some(s)) && e.next.identityAt == s.identityAt)
  {
  }

  lemma StepBinds(env: Env, cell: Cell, op: Op)
    ensures var e := Record(env, cell, op);
      PastSignIn(e.after) ==>
        || BindsAt(e, e.after.value.identityAt)
        || (PastSignIn(e.before) && e.before.value.identityAt == e.after.value.identityAt)
  {
    if cell.Some? && op.action.Serve? {
      match op.action.req
      case Verify(cookie, newLeg) =>
      case Callback(reply, secret, csrf) => CallbackBinds(env, cell.value, op.now, reply, secret, csrf);
      case Approve(csrf, code, approve, cookie) =>
        ApproveKeepsIdentity(env, cell.value, op.now, csrf, code, approve, cookie);
      case Poll(verifier) => PollKeepsIdentity(env, cell.value, op.now, verifier);
    }
  }

  lemma {:induction false} SignedInBy(env: Env, terms: Terms, ops: seq<Op>, i: nat) returns (j: nat)
    requires i < |ops| && PastSignIn(Play(env, Some(NewSession(terms)), ops)[i].before)
    ensures var log := Play(env, Some(NewSession(terms)), ops);
      j < i && BindsAt(log[j], log[i].before.value.identityAt)
  {
    var start := Some(NewSession(terms));
    PlayIsChain(env, start, ops, i);
    PlayIsChain(env, start, ops, i - 1);
    var e := Play(env, start, ops)[i - 1];
    StepBinds(env, e.before, ops[i - 1]);
    if BindsAt(e, e.after.value.identityAt) {
      j := i - 1;
    } else {
      j := SignedInBy(env, terms, ops, i - 1);
    }
  }

  /** An artifact's lifetime runs from the sign-in, not from the approval or the collection. So one
      released by operation i is still good if and only if i is within that lifetime of the sign-in. */
  lemma ReleasedUnexpired(env: Env, terms: Terms, ops: seq<Op>, i: nat) returns (j: nat)
    requires i < |ops| && Released(Play(env, Some(NewSession(terms)), ops)[i])
    ensures var log := Play(env, Some(NewSession(terms)), ops);
      && j < i && BindsAt(log[j], ops[j].now)
      && log[i].response.value.artifact.Some?
      && log[i].response.value.artifact.value.approvedAt == ops[j].now
      && (ops[i].now <= log[i].response.value.artifact.value.expiresAt <==> ops[i].now <= ops[j].now + env.artifactTtl)
  {
    var start := Some(NewSession(terms));
    RunKeepsSound(env, start, ops, i);
    PlayIsChain(env, start, ops, i);
    StepReleases(env, Play(env, start, ops)[i].before, ops[i]);
    j := SignedInBy(env, terms, ops, i);
    PlayIsChain(env, start, ops, j);
  }

  // ----- the identity provider's leg ---------------------------------------

  /** The leg of the latest redirect among the first i entries. */
  function LatestLeg(log: seq<Entry>, i: nat): IdpLeg
    requires i <= |log|
  {
    if i == 0 then NO_LEG
    else if log[i - 1].response.Some? then LegAfter(LatestLeg(log, i - 1), log[i - 1].response.value)
    else LatestLeg(log, i - 1)
  }

  function LegAfter(before: IdpLeg, r: Response): IdpLeg {
    if r.RedirectToIdp? then r.leg else before
  }

  lemma HandleLeg(env: Env, s: SessionData, now: Time, req: Request)
    ensures var e := Handle(env, s, now, req);
      (if e.writes then e.next else s).leg == LegAfter(s.leg, e.response)
  {
    match req
    case Verify(cookie, newLeg) =>
    case Callback(reply, secret, csrf) =>
    case Approve(csrf, code, approve, cookie) =>
    case Poll(verifier) =>
  }

  lemma StepLeg(env: Env, cell: Cell, op: Op)
    ensures var e := Record(env, cell, op);
      e.after.Some? ==>
        && e.before.Some?
        && e.after.value.leg == if e.response.Some? then LegAfter(e.before.value.leg, e.response.value)
                                else e.before.value.leg
  {
    if cell.Some? && op.action.Serve? {
      HandleLeg(env, cell.value, op.now, op.action.req);
    }
  }

  lemma {:induction false} LegIsLatest(env: Env, terms: Terms, ops: seq<Op>, i: nat)
    requires i < |ops|
    ensures var log := Play(env, Some(NewSession(terms)), ops);
      log[i].before.Some? ==> log[i].before.value.leg == LatestLeg(log, i)
  {
    var start := Some(NewSession(terms));
    PlayIsChain(env, start, ops, i);
    if i > 0 {
      LegIsLatest(env, terms, ops, i - 1);
      PlayIsChain(env, start, ops, i - 1);
      StepLeg(env, Play(env, start, ops)[i - 1].before, ops[i - 1]);
    }
  }

  /** An identity was attached by this operation, whatever became of it: even where the answer is
      that the sign-in could not be completed, the identity may have been stored. */
  predicate Attaches(e: Entry) {
    || (e.response.Some? && (e.response.value.IdentityBound? || e.response.value.IdentityMismatched?))
    || (e.before.Some? && e.after.Some? && e.after.value.identity != e.before.value.identity)
  }

  lemma HandleKeepsIdentity(env: Env, s: SessionData, now: Time, req: Request)
    requires !req.Callback?
    ensures Handle(env, s, now, req).next.identity == s.identity
  {
    match req
    case Verify(cookie, newLeg) =>
    case Approve(csrf, code, approve, cookie) =>
    case Poll(verifier) =>
  }

  lemma CallbackAttaches(
    env: Env, s: SessionData, now: Time, reply: IdpReply, secret: Option<Token>, csrf: Option<Token>)
    ensures var e := HandleCallback(env, s, now, reply, secret, csrf);
      e.response.IdentityBound? || e.response.IdentityMismatched? || e.next.identity != s.identity ==>
        reply.state == s.leg.state != "" && reply.token.Some? && reply.token.value.nonce == s.leg.nonce
  {
  }

  lemma StepAttaches(env: Env, cell: Cell, op: Op)
    requires Attaches(Record(env, cell, op))
    ensures && cell.Some? && op.action.Serve? && op.action.req.Callback?
            && var (reply, leg) := (op.action.req.reply, cell.value.leg);
            && reply.state == leg.state != ""
            && reply.token.Some? && reply.token.value.nonce == leg.nonce
  {
    match op.action.req
    case Callback(reply, secret, csrf) => CallbackAttaches(env, cell.value, op.now, reply, secret, csrf);
    case Verify(_, _) | Approve(_, _, _, _) | Poll(_) => HandleKeepsIdentity(env, cell.value, op.now, op.action.req);
  }

  /** A callback attaches an identity only with the state and nonce of this session's latest
      redirect; before any redirect there is none to attach. */
  lemma CallbackCorrelation(env: Env, terms: Terms, ops: seq<Op>, i: nat)
    requires i < |ops| && Attaches(Play(env, Some(NewSession(terms)), ops)[i])
    ensures var log := Play(env, Some(NewSession(terms)), ops);
      && ops[i].action.Serve? && ops[i].action.req.Callback?
      && var reply := ops[i].action.req.reply;
      && reply.state == LatestLeg(log, i).state != ""
      && reply.token.Some? && reply.token.value.nonce == LatestLeg(log, i).nonce
      && exists j | 0 <= j < i :: log[j].response == Some(RedirectToIdp(LatestLeg(log, i)))
  {
    var log := Play(env, Some(NewSession(terms)), ops);
    LegIsLatest(env, terms, ops, i);
    PlayIsChain(env, Some(NewSession(terms)), ops, i);
    StepAttaches(env, log[i].before, ops[i]);
    var j := LatestLegIssued(log, i);
  }

  lemma {:induction false} LatestLegIssued(log: seq<Entry>, i: nat) returns (j: nat)
    requires i <= |log| && LatestLeg(log, i).state != ""
    ensures j < i && log[j].response == Some(RedirectToIdp(LatestLeg(log, i)))
  {
    var r := log[i - 1].response;
    if r.Some? && r.value.RedirectToIdp? {
      j := i - 1;
    } else {
      j := LatestLegIssued(log, i - 1);
    }
  }

  /** With distinct issued states, a reply to one session's redirect attaches nothing to another. */
  lemma NoCrossSessionCallback(env: Env, a: Terms, opsA: seq<Op>, b: Terms, opsB: seq<Op>, i: nat, k: nat, leg: IdpLeg)
    requires var (logA, logB) := (Play(env, Some(NewSession(a)), opsA), Play(env, Some(NewSession(b)), opsB));
      && i < |opsA| && k < |opsB|
      && logB[k].response == Some(RedirectToIdp(leg))
      && (forall p, q, x, y | 0 <= p < |logA| && 0 <= q < |logB|
            && logA[p].response == Some(RedirectToIdp(x)) && logB[q].response == Some(RedirectToIdp(y)) ::
            x.state != y.state)
    requires opsA[i].action.Serve? && opsA[i].action.req.Callback? && opsA[i].action.req.reply.state == leg.state
    ensures !Attaches(Play(env, Some(NewSession(a)), opsA)[i])
  {
    if Attaches(Play(env, Some(NewSession(a)), opsA)[i]) {
      CallbackCorrelation(env, a, opsA, i);
    }
  }
}
