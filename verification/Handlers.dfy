/** The HTTP handlers as functions of one session: what each answers, what it makes of its copy
    of the session, and whether it writes that copy back. */
module Handlers {
  import opened Prelude
  import opened SessionModel

  // ----- requests ----------------------------------------------------------

  /** What the identity provider's side yields for a callback: a verified ID token, or None when
      the code exchange or the token's verification fails. */
  datatype IdToken = IdToken(nonce: string, identity: Option<Identity>)
  datatype IdpReply = IdpReply(state: string, code: string, token: Option<IdToken>)

  /** A random token, never empty. */
  type Token = t: string | t != "" witness "0"

  /** Fresh random values arrive as options: None is a failing random source.
      A missing cookie and an empty one are the same, the empty string. */
  datatype Request =
    | Verify(cookie: string, newLeg: Option<IdpLeg>)
    | Callback(reply: IdpReply, secret: Option<Token>, csrf: Option<Token>)
    | Approve(csrfToken: string, code: string, approve: bool, cookie: string)
    | Poll(verifier: string)

  // ----- responses ---------------------------------------------------------

  /** The approval page shows who is asking (check 3) and carries the CSRF token. */
  datatype Page = Page(identity: string, requester: Terms, csrfToken: string)

  datatype Response =
    | NotFound
    | LinkExpired
    | ContinueOnYourDevice
    | ApprovePage(page: Page)
    | AlreadyDenied
    | AlreadyApproved
    | Unavailable
    | ServerError
    | RedirectToIdp(leg: IdpLeg)
    | AlreadyInProgress
    | SignInFailed
    | SignInNotCompleted
    | IdentityMismatched
    | IdentityBound(page: Page, secret: string)
    | InvalidForm
    | ApprovedPage
    | DeniedPage
    | RetryPage(page: Page)
    | DonePage
    | PollAnswer(status: PollStatus, artifact: Option<Artifact>)
    | WrongVerifier
    | Panic

  /** This answer hands over the artifact. */
  predicate IsRelease(r: Response) {
    r.PollAnswer? && r.status == PollApproved
  }

  datatype SignalKind = WrongCode | RepeatedStart | ConsumedReplay | IdentityMismatchSignal

  /** next is the handler's copy at the end; it reaches the store only if writes. */
  datatype Effect = Effect(next: SessionData, writes: bool, response: Response, signal: Option<SignalKind>)

  function PageFor(s: SessionData): Page {
    Page(if s.identity.Some? then s.identity.value.value else "", s.terms, s.csrfToken)
  }

  predicate BindingMatches(env: Env, s: SessionData, cookie: string) {
    cookie != "" && s.bindingHash != "" && env.HashBinding(cookie) == s.bindingHash
  }

  /** Neither ended nor due to. */
  predicate Live(s: SessionData, t: Time) {
    !IsTerminal(s.state) && t <= s.terms.expiresAt
  }

  /** Non-empty and equal. */
  predicate SameToken(a: string, b: string) {
    a != "" && b != "" && a == b
  }

  // ----- the four handlers -------------------------------------------------

  function HandleVerify(env: Env, s: SessionData, now: Time, cookie: string, newLeg: Option<IdpLeg>): Effect {
    var t := Settle(s, now);
    if t.state == Expired then Effect(t, true, LinkExpired, None)
    else match t.state
      case AwaitingApproval =>
        Effect(t, false, if BindingMatches(env, t, cookie) then ApprovePage(PageFor(t)) else ContinueOnYourDevice, None)
      case Denied => Effect(t, false, AlreadyDenied, None)
      case Approved => Effect(t, false, AlreadyApproved, None)
      case Pending =>
        (match newLeg
         case None => Effect(t, false, ServerError, None)
         case Some(leg) => Effect(t.(leg := leg), true, RedirectToIdp(leg), None))
      case Expired => Effect(t, false, Unavailable, None)
  }

  /** The OIDC correlation: the reply's state must be this session's, and so must the token's nonce. */
  function CompleteLogin(s: SessionData, reply: IdpReply): Option<Identity> {
    if reply.state == "" || reply.state != s.leg.state then None
    else if reply.code == "" then None
    else match reply.token
      case None => None
      case Some(token) => if token.nonce != s.leg.nonce then None else token.identity
  }

  function HandleCallback(
    env: Env, s: SessionData, now: Time, reply: IdpReply, secret: Option<Token>, csrf: Option<Token>)
    : Effect
  {
    var t := Settle(s, now);
    if t.state == Expired then Effect(t, true, LinkExpired, None)
    else if t.state != Pending then Effect(t, false, AlreadyInProgress, None)
    else match CompleteLogin(t, reply)
      case None => Effect(t, false, SignInFailed, None)
      case Some(who) =>
        if secret.None? then Effect(t, false, SignInNotCompleted, None)
        else
          var (u, result) := Bind(env, t, who, now, env.HashBinding(secret.value), csrf);
          match result
          case IdentityMismatch => Effect(u, true, IdentityMismatched, Some(IdentityMismatchSignal))
          case Bound => Effect(u, true, IdentityBound(PageFor(u), secret.value), None)
          case _ => Effect(u, true, SignInNotCompleted, None)
  }

  function HandleApprove(env: Env, s: SessionData, now: Time, csrf: string, code: string, approve: bool, cookie: string)
    : Effect
  {
    if !SameToken(csrf, s.csrfToken) then Effect(s, false, InvalidForm, None)
    else
      var (t, result) := Decide(env, s, code, approve, now, cookie);
      if result == Decided && t.state == Approved then Effect(t, true, ApprovedPage, None)
      else if t.state == Denied then Effect(t, true, DeniedPage, None)
      else if result == ApproveExpired then Effect(t, true, LinkExpired, None)
      else if result == NotBound then Effect(t, true, ContinueOnYourDevice, None)
      else if result != Decided then Effect(t, true, RetryPage(PageFor(t)), Some(WrongCode))
      else Effect(t, true, DonePage, None)
  }

  /** A panic unwinds the handler before it writes anything back. */
  function HandlePoll(env: Env, s: SessionData, now: Time, verifier: string): Effect {
    var (t, result) := Collect(env, s, verifier, now);
    match result
    case Polled(status, artifact) =>
      Effect(t, true, PollAnswer(status, artifact),
             if s.consumed && status == PollExpired then Some(ConsumedReplay) else None)
    case InvalidVerifier => Effect(t, true, WrongVerifier, None)
    case NilIdentity => Effect(t, false, Panic, None)
  }

  function Handle(env: Env, s: SessionData, now: Time, req: Request): Effect {
    match req
    case Verify(cookie, newLeg) => HandleVerify(env, s, now, cookie, newLeg)
    case Callback(reply, secret, csrf) => HandleCallback(env, s, now, reply, secret, csrf)
    case Approve(csrf, code, approve, cookie) => HandleApprove(env, s, now, csrf, code, approve, cookie)
    case Poll(verifier) => HandlePoll(env, s, now, verifier)
  }

  lemma HandleKeepsTerms(env: Env, s: SessionData, now: Time, req: Request)
    ensures Handle(env, s, now, req).next.terms == s.terms
  {
    match req
    case Verify(cookie, newLeg) =>
    case Callback(reply, secret, csrf) =>
    case Approve(csrf, code, approve, cookie) =>
    case Poll(verifier) =>
  }

  /** An unknown session: pollers cannot tell it from an expired one. */
  function Missing(req: Request): Response {
    if req.Poll? then PollAnswer(PollExpired, None) else NotFound
  }

  /** A redirect whose write-back found the session gone becomes an error page; other handlers
      do not look at the outcome of the write. */
  function AfterFailedWrite(r: Response): Response {
    if r.RedirectToIdp? then ServerError else r
  }

  // ----- one session's serial runs -----------------------------------------

  /** Besides requests, a session meets the store's sweep and the passing of time. */
  datatype Action = Serve(req: Request) | Sweep | Tick
  datatype Op = Op(now: Time, action: Action)

  /** None: never created, or evicted. */
  type Cell = Option<SessionData>

  /** Memory keeps a session for twice its lifetime. */
  function KeptUntil(terms: Terms): Time {
    terms.expiresAt + (terms.expiresAt - terms.createdAt)
  }

  predicate SweptAt(s: SessionData, now: Time) {
    now > KeptUntil(s.terms)
  }

  /** Sweeps and ticks answer nobody. */
  function Perform(env: Env, cell: Cell, op: Op): (Cell, Option<Response>) {
    match op.action
    case Serve(req) =>
      (match cell
       case None => (None, Some(Missing(req)))
       case Some(s) =>
         var e := Handle(env, s, op.now, req);
         (Some(if e.writes then e.next else s), Some(e.response)))
    case Sweep => (if cell.Some? && SweptAt(cell.value, op.now) then None else cell, None)
    case Tick => (cell, None)
  }

  datatype Entry = Entry(before: Cell, op: Op, after: Cell, response: Option<Response>)

  function Record(env: Env, cell: Cell, op: Op): Entry {
    var (after, response) := Perform(env, cell, op);
    Entry(cell, op, after, response)
  }

  /** The log of a serial run: each operation sees what the one before it left. */
  function Play(env: Env, cell: Cell, ops: seq<Op>): (log: seq<Entry>)
    ensures |log| == |ops|
    decreases |ops|
  {
    if ops == [] then []
    else [Record(env, cell, ops[0])] + Play(env, Perform(env, cell, ops[0]).0, ops[1..])
  }

  function Final(env: Env, cell: Cell, ops: seq<Op>): Cell
    decreases |ops|
  {
    if ops == [] then cell else Final(env, Perform(env, cell, ops[0]).0, ops[1..])
  }

  /** The log as a chain, entry by entry. */
  lemma {:induction false} PlayIsChain(env: Env, cell: Cell, ops: seq<Op>, i: nat)
    requires i < |ops|
    ensures var log := Play(env, cell, ops);
      && log[i] == Record(env, log[i].before, ops[i])
      && log[i].before == (if i == 0 then cell else log[i - 1].after)
      && (i == |ops| - 1 ==> log[i].after == Final(env, cell, ops))
    decreases |ops|
  {
    var log := Play(env, cell, ops);
    assert log[0] == Record(env, cell, ops[0]);
    if i > 0 {
      var next := Perform(env, cell, ops[0]).0;
      PlayIsChain(env, next, ops[1..], i - 1);
      assert log[1..] == Play(env, next, ops[1..]);
    }
  }

  lemma {:induction false} PlayAppend(env: Env, cell: Cell, ops: seq<Op>, op: Op)
    ensures Play(env, cell, ops + [op]) == Play(env, cell, ops) + [Record(env, Final(env, cell, ops), op)]
    ensures Final(env, cell, ops + [op]) == Perform(env, Final(env, cell, ops), op).0
    decreases |ops|
  {
    if ops == [] {
      assert ops + [op] == [op] && [op][1..] == [];
    } else {
      PlayAppend(env, Perform(env, cell, ops[0]).0, ops[1..], op);
      assert (ops + [op])[1..] == ops[1..] + [op];
    }
  }

  function Responses(log: seq<Entry>): seq<Option<Response>> {
    if log == [] then [] else [log[0].response] + Responses(log[1..])
  }

  /** What the operations of a serial run are answered. */
  function Answers(env: Env, cell: Cell, ops: seq<Op>): seq<Option<Response>> {
    Responses(Play(env, cell, ops))
  }

  lemma AnswersFromFirst(env: Env, cell: Cell, ops: seq<Op>)
    requires ops != []
    ensures var (next, answer) := Perform(env, cell, ops[0]);
      Answers(env, cell, ops) == [answer] + Answers(env, next, ops[1..])
  {
    assert Play(env, cell, ops)[1..] == Play(env, Perform(env, cell, ops[0]).0, ops[1..]);
  }

  predicate IsPollOp(op: Op) {
    op.action.Serve? && op.action.req.Poll?
  }

  predicate Monotone(ops: seq<Op>) {
    forall i, j | 0 <= i < j < |ops| :: ops[i].now <= ops[j].now
  }

  predicate NotBefore(t: Time, ops: seq<Op>) {
    forall i | 0 <= i < |ops| :: t <= ops[i].now
  }
}
