/** The broker itself: handlers that fetch a session, run the state machine on their copy and write
    it back, with the detector and the limiters along the way. */
module Broker {
  import opened Prelude
  import opened Encoding
  import opened SessionModel
  import opened Handlers
  import opened Store
  import opened AbuseDetector
  import opened RateLimit
  import ClientIp
  import UserCode

  datatype Config = Config(
    env: Env, sessionTtl: Duration, pollInterval: Duration,
    parse: ClientIp.Parser, trustedProxies: seq<ClientIp.Prefix>, allowedClients: seq<ClientIp.Prefix>)

  /** The store after a request, the answer, and the abuse signal with the key it is counted under. */
  datatype Served = Served(store: Sessions, response: Response, signal: Option<SignalKind>, key: string)

  /** A handler that fetches and writes back with nothing in between. Mismatched identities are
      counted by login hint, other signals by the address the request is attributed to. */
  function ServeStored(env: Env, m: Sessions, id: string, now: Time, req: Request, ip: string): Served {
    if id !in m then Served(m, Missing(req), None, ip)
    else
      var e := Handle(env, m[id], now, req);
      Served(if e.writes then m[id := e.next] else m, e.response, e.signal,
             if req.Callback? then m[id].terms.loginHint else ip)
  }

  /** It is one step of the session's own serial run, and no other session notices. */
  lemma ServeStoredIsLocal(env: Env, m: Sessions, id: string, now: Time, req: Request, ip: string, other: string)
    ensures var served := ServeStored(env, m, id, now, req, ip);
      var before := if id in m then Some(m[id]) else None;
      var after := if id in served.store then Some(served.store[id]) else None;
      && (after, Some(served.response)) == Perform(env, before, Op(now, Serve(req)))
      && (other != id ==> (other in served.store <==> other in m) && (other in m ==> served.store[other] == m[other]))
  {
  }

  /** A mismatch is counted under the session's login hint, every other signal under the address. */
  lemma SignalsAreKeyed(env: Env, m: Sessions, id: string, now: Time, req: Request, ip: string)
    ensures var served := ServeStored(env, m, id, now, req, ip);
      && (served.signal.Some? ==> id in m)
      && (served.signal == Some(IdentityMismatchSignal) ==> served.key == m[id].terms.loginHint)
      && (served.signal.Some? && served.signal != Some(IdentityMismatchSignal) ==> served.key == ip)
      && (served.signal == Some(IdentityMismatchSignal) <==> served.response == IdentityMismatched)
  {
  }

  /** The counters after a handler's signal, if it gives one. */
  function SeenWith(t: Thresholds, seen: Seen, signal: Option<SignalKind>, key: string, now: Time): Seen {
    if signal.Some? then SeenAfter(t, seen, signal.value, key, now) else seen
  }

  /** Each signal is counted once, under its key, and nothing else is. */
  lemma SignalsAreCounted(
    t: Thresholds, seen: Seen, signal: Option<SignalKind>, key: string, now: Time, kind: SignalKind, k: string)
    ensures Times(SeenWith(t, seen, signal, key, now), MapKey(kind, k)) ==
      Times(seen, MapKey(kind, k)) +
      if signal == Some(kind) && k == key && ThresholdFor(t, kind) > 0 then [now] else []
  {
    if signal.Some? {
      CountedExactly(t, seen, signal.value, key, now, kind, k);
    }
  }

  datatype StartRequest = StartRequest(
    loginHint: string, codeChallenge: string, challengeMethod: string, clientKind: string, clientHost: string)

  datatype StartOutcome =
    | InvalidClient
    | InvalidRequest
    | NetworkNotAllowed
    | RateLimited
    | StartFailed
    | SessionStarted(terms: Terms, expiresIn: int, interval: int)

  predicate WellFormed(req: StartRequest, client: Option<string>) {
    && client.Some? && req.loginHint != "" && req.codeChallenge != ""
    && (req.challengeMethod == "" || req.challengeMethod == "S256")
  }

  function Begun(cfg: Config, req: StartRequest, client: string, ip: string, id: string, random: seq<Byte>, now: Time)
    : StartOutcome
    requires |random| == 8
  {
    SessionStarted(
      Terms(id, req.loginHint, req.codeChallenge, req.clientKind, req.clientHost, ip, client,
            cfg.pollInterval, now, now + cfg.sessionTtl, UserCode.Generated(random)),
      WholeSeconds(cfg.sessionTtl), WholeSeconds(cfg.pollInterval))
  }

  function Registered(m: Sessions, r: StartOutcome): Sessions {
    if r.SessionStarted? then m[r.terms.id := NewSession(r.terms)] else m
  }

  /** Why a well-formed start is refused, if it is, and the limiters after it: a refused network
      reaches no limiter. */
  function Admission(attribution: (string, bool), hint: string, now: Time, rate: Rate, ips: Buckets, hints: Buckets)
    : (Option<StartOutcome>, Buckets, Buckets)
  {
    if !attribution.1 then (Some(NetworkNotAllowed), ips, hints)
    else
      var (ips', hints', passed) := Gate(rate, ips, hints, Attempt(attribution.0, hint, now));
      (if passed then None else Some(RateLimited), ips', hints')
  }

  /** The answer to a well-formed start, and the limiters after it: randomness matters only once
      it is admitted. */
  function StartAnswer(cfg: Config, req: StartRequest, client: string, attribution: (string, bool),
                       id: Option<string>, random: Option<seq<Byte>>, now: Time,
                       rate: Rate, ips: Buckets, hints: Buckets)
    : (StartOutcome, Buckets, Buckets)
    requires random.Some? ==> |random.value| == 8
  {
    var (refusal, ips', hints') := Admission(attribution, req.loginHint, now, rate, ips, hints);
    (if refusal.Some? then refusal.value
     else if id.None? || random.None? then StartFailed
     else Begun(cfg, req, client, attribution.0, id.value, random.value, now), ips', hints')
  }

  /** The address a request is attributed to, and whether it may start sessions. */
  ghost function AttributionOf(cfg: Config, peer: string, forwarded: string): (string, bool) {
    var ip := ClientIp.Resolved(cfg.parse, cfg.trustedProxies, peer, forwarded);
    (ip, cfg.allowedClients == [] || ClientIp.InSome(cfg.parse, cfg.allowedClients, ip))
  }

  // ----- runs of starts ----------------------------------------------------

  /** What a start changes besides the abuse counters. */
  datatype Desk = Desk(store: Sessions, ips: Buckets, hints: Buckets)

  type CodeBytes = raw: seq<Byte> | |raw| == 8 witness [0, 0, 0, 0, 0, 0, 0, 0]

  /** One call of the start handler, with the address it is attributed to and whether that address
      may start sessions. */
  datatype Start = Start(
    req: StartRequest, client: Option<string>, attribution: (string, bool),
    id: Option<string>, random: Option<CodeBytes>, now: Time)

  function Opened(cfg: Config, rate: Rate, d: Desk, s: Start): (Desk, StartOutcome) {
    if s.client.None? then (d, InvalidClient)
    else if !WellFormed(s.req, s.client) then (d, InvalidRequest)
    else
      var (r, ips, hints) :=
        StartAnswer(cfg, s.req, s.client.value, s.attribution, s.id, s.random, s.now, rate, d.ips, d.hints);
      (Desk(Registered(d.store, r), ips, hints), r)
  }

  function OpenAll(cfg: Config, rate: Rate, d: Desk, starts: seq<Start>): Desk
    decreases |starts|
  {
    if starts == [] then d else OpenAll(cfg, rate, Opened(cfg, rate, d, starts[0]).0, starts[1..])
  }

  /** What a start asks of the limiters. */
  function Tried(s: Start): seq<Attempt> {
    if WellFormed(s.req, s.client) && s.attribution.1
    then [Attempt(s.attribution.0, s.req.loginHint, s.now)] else []
  }

  function AttemptsOf(starts: seq<Start>): seq<Attempt> {
    if starts == [] then [] else Tried(starts[0]) + AttemptsOf(starts[1..])
  }

  /** The sessions in n that were not there before, for which choice holds. */
  function Filed(m: Sessions, n: Sessions, choice: Terms -> bool): set<string> {
    set id | id in n && (id !in m || n[id] != m[id]) && choice(n[id].terms)
  }

  lemma FiledInTwo(m: Sessions, n: Sessions, end: Sessions, choice: Terms -> bool)
    ensures |Filed(m, end, choice)| <= |Filed(m, n, choice)| + |Filed(n, end, choice)|
  {
    var (a, b) := (Filed(m, n, choice), Filed(n, end, choice));
    assert Filed(m, end, choice) <= a + b;
    SubsetIsSmaller(Filed(m, end, choice), a + b);
  }

  lemma {:induction false} SubsetIsSmaller(a: set<string>, b: set<string>)
    requires a <= b
    ensures |a| <= |b|
  {
    if a != {} {
      var x :| x in a;
      SubsetIsSmaller(a - {x}, b - {x});
    }
  }

  /** A start files at most the session it answers with, and only if it passes the gate. */
  lemma StartFiles(cfg: Config, rate: Rate, d: Desk, s: Start, choice: Terms -> bool)
    ensures var (next, r) := Opened(cfg, rate, d, s);
      && |Filed(d.store, next.store, choice)| <= (if r.SessionStarted? && choice(r.terms) then 1 else 0)
      && (r.SessionStarted? ==>
            && Tried(s) != [] && Gate(rate, d.ips, d.hints, Tried(s)[0]).2
            && r.terms.clientIp == s.attribution.0 && r.terms.loginHint == s.req.loginHint)
  {
    var (next, r) := Opened(cfg, rate, d, s);
    SubsetIsSmaller(Filed(d.store, next.store, choice),
                    if r.SessionStarted? && choice(r.terms) then {r.terms.id} else {});
  }

  lemma StartThroughGate(cfg: Config, rate: Rate, d: Desk, s: Start, rest: seq<Attempt>, ip: string, hint: string)
    ensures var (next, attempts) := (Opened(cfg, rate, d, s).0, Tried(s) + rest);
      && After(rate, d.ips, d.hints, attempts) == After(rate, next.ips, next.hints, rest)
      && CreatedForIp(rate, d.ips, d.hints, attempts, ip) >=
           |Filed(d.store, next.store, ForIp(ip))| + CreatedForIp(rate, next.ips, next.hints, rest, ip)
      && CreatedForHint(rate, d.ips, d.hints, attempts, hint) >=
           |Filed(d.store, next.store, ForHint(hint))| + CreatedForHint(rate, next.ips, next.hints, rest, hint)
  {
    StartFiles(cfg, rate, d, s, ForIp(ip));
    StartFiles(cfg, rate, d, s, ForHint(hint));
    if Tried(s) == [] {
      assert Tried(s) + rest == rest;
    } else {
      assert (Tried(s) + rest)[1..] == rest;
    }
  }

  lemma {:induction false} FiledThroughGate(
    cfg: Config, rate: Rate, d: Desk, starts: seq<Start>, ip: string, hint: string)
    ensures var (end, attempts) := (OpenAll(cfg, rate, d, starts), AttemptsOf(starts));
      && (end.ips, end.hints) == After(rate, d.ips, d.hints, attempts)
      && |Filed(d.store, end.store, ForIp(ip))| <= CreatedForIp(rate, d.ips, d.hints, attempts, ip)
      && |Filed(d.store, end.store, ForHint(hint))| <= CreatedForHint(rate, d.ips, d.hints, attempts, hint)
    decreases |starts|
  {
    if starts == [] {
      assert Filed(d.store, d.store, ForIp(ip)) == {} && Filed(d.store, d.store, ForHint(hint)) == {};
    } else {
      var next := Opened(cfg, rate, d, starts[0]).0;
      var end := OpenAll(cfg, rate, next, starts[1..]);
      FiledThroughGate(cfg, rate, next, starts[1..], ip, hint);
      StartThroughGate(cfg, rate, d, starts[0], AttemptsOf(starts[1..]), ip, hint);
      FiledInTwo(d.store, next.store, end.store, ForIp(ip));
      FiledInTwo(d.store, next.store, end.store, ForHint(hint));
    }
  }

  function ForIp(ip: string): Terms -> bool {
    (terms: Terms) => terms.clientIp == ip
  }

  function ForHint(hint: string): Terms -> bool {
    (terms: Terms) => terms.loginHint == hint
  }

  /** The starts come in order of time, from lo to hi. */
  ghost predicate InOrder(lo: Time, starts: seq<Start>, hi: Time) {
    && (forall i | 0 <= i < |starts| :: lo <= starts[i].now <= hi)
    && (forall i, j | 0 <= i < j < |starts| :: starts[i].now <= starts[j].now)
  }

  lemma {:induction false} AttemptsInOrder(lo: Time, starts: seq<Start>, hi: Time)
    requires InOrder(lo, starts, hi)
    ensures MonotoneFrom(lo, AttemptsOf(starts))
    ensures forall i | 0 <= i < |AttemptsOf(starts)| :: AttemptsOf(starts)[i].now <= hi
    decreases |starts|
  {
    if starts != [] {
      AttemptsInOrder(starts[0].now, starts[1..], hi);
    }
  }

  /** Whatever was started before, in any span of time the broker files at most burst sessions plus
      what the limit yields over the span, per address and per login hint. */
  lemma SessionsAreLimited(
    cfg: Config, rate: Rate, lo: Time, before: seq<Start>, from: Time, span: seq<Start>, end: Time,
    ip: string, hint: string)
    requires ValidRate(rate) && RefillsWhileIdle(rate)
    requires lo <= from <= end && InOrder(lo, before, from) && InOrder(from, span, end)
    ensures var d := OpenAll(cfg, rate, Desk(map[], map[], map[]), before);
      var after := OpenAll(cfg, rate, d, span);
      && |Filed(d.store, after.store, ForIp(ip))| as real <= rate.burst as real + Gain(rate, end - from)
      && |Filed(d.store, after.store, ForHint(hint))| as real <= rate.burst as real + Gain(rate, end - from)
  {
    var d := OpenAll(cfg, rate, Desk(map[], map[], map[]), before);
    AttemptsInOrder(lo, before, from);
    AttemptsInOrder(from, span, end);
    FiledThroughGate(cfg, rate, Desk(map[], map[], map[]), before, ip, hint);
    FiledThroughGate(cfg, rate, d, span, ip, hint);
    AfterIsSane(rate, map[], map[], lo, AttemptsOf(before), from);
    CreatedFrom(rate, d.ips, d.hints, from, AttemptsOf(span), ip, hint, end);
    LevelLater(rate, d.ips, ip, from, from);
    LevelLater(rate, d.hints, hint, from, from);
  }

  class Broker {
    const cfg: Config
    const store: Memory
    const detector: Detector
    const ipLimiter: KeyedLimiter
    const hintLimiter: KeyedLimiter

    ghost predicate Valid()
      reads this, store, store.sessions.Values, detector
    {
      store.Valid() && detector.Valid() && ipLimiter != hintLimiter && ipLimiter.rate == hintLimiter.rate
    }

    constructor (cfg: Config, rate: Rate, listening: bool)
      ensures Valid() && this.cfg == cfg && store.Contents() == map[] && fresh(store)
      ensures ipLimiter.rate == rate && ipLimiter.entries == hintLimiter.entries == map[] && detector.seen == map[]
    {
      this.cfg := cfg;
      store := new Memory();
      detector := new Detector(DEFAULT_THRESHOLDS, listening);
      ipLimiter := new KeyedLimiter(rate);
      hintLimiter := new KeyedLimiter(rate);
    }

    // Each handler on the copy it fetched: what it answers, whether it writes the copy back, and
    // the abuse signal it gives.

    method VerifyCopy(s: Session, now: Time, cookie: string, newLeg: Option<IdpLeg>)
      returns (writes: bool, r: Response)
      modifies s
      ensures Effect(s.Value(), writes, r, None) == HandleVerify(cfg.env, old(s.Value()), now, cookie, newLeg)
    {
      var expired := s.ExpireIfNeeded(now);
      if expired {
        return true, LinkExpired;
      }
      match s.state {
        case AwaitingApproval =>
          if !BindingMatches(cfg.env, s.Value(), cookie) {
            return false, ContinueOnYourDevice;
          }
          return false, ApprovePage(PageFor(s.Value()));
        case Denied => return false, AlreadyDenied;
        case Approved => return false, AlreadyApproved;
        case Expired => return false, Unavailable;
        case Pending =>
      }
      var begun := s.BeginLogin(newLeg);
      if !begun {
        return false, ServerError;
      }
      return true, RedirectToIdp(newLeg.value);
    }

    method CallbackCopy(s: Session, now: Time, reply: IdpReply, secret: Option<Token>, csrf: Option<Token>)
      returns (writes: bool, r: Response, signal: Option<SignalKind>)
      modifies s
      ensures Effect(s.Value(), writes, r, signal) == HandleCallback(cfg.env, old(s.Value()), now, reply, secret, csrf)
    {
      var expired := s.ExpireIfNeeded(now);
      if expired {
        return true, LinkExpired, None;
      }
      if s.state != Pending {
        return false, AlreadyInProgress, None;
      }
      var who := CompleteLogin(s.Value(), reply);
      if who.None? {
        return false, SignInFailed, None;
      }
      if secret.None? {
        return false, SignInNotCompleted, None;
      }
      var result := s.BindIdentity(cfg.env, who.value, now, cfg.env.HashBinding(secret.value), csrf);
      if result == IdentityMismatch {
        return true, IdentityMismatched, Some(IdentityMismatchSignal);
      }
      if result != Bound {
        return true, SignInNotCompleted, None;
      }
      return true, IdentityBound(PageFor(s.Value()), secret.value), None;
    }

    method ApproveCopy(s: Session, now: Time, csrf: string, code: string, approve: bool, cookie: string)
      returns (writes: bool, r: Response, signal: Option<SignalKind>)
      modifies s
      ensures Effect(s.Value(), writes, r, signal) ==
        HandleApprove(cfg.env, old(s.Value()), now, csrf, code, approve, cookie)
    {
      if !SameToken(csrf, s.csrfToken) {
        return false, InvalidForm, None;
      }
      var result := s.Approve(cfg.env, code, approve, now, cookie);
      if result == Decided && s.state == Approved {
        return true, ApprovedPage, None;
      } else if s.state == Denied {
        return true, DeniedPage, None;
      } else if result == ApproveExpired {
        return true, LinkExpired, None;
      } else if result == NotBound {
        return true, ContinueOnYourDevice, None;
      } else if result != Decided {
        return true, RetryPage(PageFor(s.Value())), Some(WrongCode);
      }
      return true, DonePage, None;
    }

    method PollCopy(s: Session, now: Time, verifier: string)
      returns (writes: bool, r: Response, signal: Option<SignalKind>)
      modifies s
      ensures Effect(s.Value(), writes, r, signal) == HandlePoll(cfg.env, old(s.Value()), now, verifier)
    {
      var wasConsumed := s.consumed;
      var result := s.Poll(cfg.env, verifier, now);
      match result {
        case NilIdentity => return false, Panic, None;
        case InvalidVerifier => return true, WrongVerifier, None;
        case Polled(status, artifact) =>
          return true, PollAnswer(status, artifact),
                 if wasConsumed && status == PollExpired then Some(ConsumedReplay) else None;
      }
    }

    method ServeCopy(s: Session, now: Time, req: Request)
      returns (writes: bool, r: Response, signal: Option<SignalKind>)
      modifies s
      ensures Effect(s.Value(), writes, r, signal) == Handle(cfg.env, old(s.Value()), now, req)
    {
      match req {
        case Verify(cookie, newLeg) =>
          writes, r := VerifyCopy(s, now, cookie, newLeg);
          signal := None;
        case Callback(reply, secret, csrf) => writes, r, signal := CallbackCopy(s, now, reply, secret, csrf);
        case Approve(csrf, code, approve, cookie) =>
          writes, r, signal := ApproveCopy(s, now, csrf, code, approve, cookie);
        case Poll(verifier) => writes, r, signal := PollCopy(s, now, verifier);
      }
    }

    /** Fetch, serve, write back. */
    method ServeFromStore(id: string, now: Time, req: Request, ip: string)
      returns (r: Response, signal: Option<SignalKind>, key: string)
      requires store.Valid()
      modifies store
      ensures store.Valid()
      ensures Served(store.Contents(), r, signal, key) == ServeStored(cfg.env, old(store.Contents()), id, now, req, ip)
    {
      var found, s := store.Get(id);
      if !found {
        return Missing(req), None, ip;
      }
      key := if req.Callback? then s.terms.loginHint else ip;
      ghost var before := s.Value();
      var writes;
      writes, r, signal := ServeCopy(s, now, req);
      HandleKeepsTerms(cfg.env, before, now, req);
      if writes {
        var stored := store.Update(s);
        if !stored {
          r := AfterFailedWrite(r);
        }
      }
    }

    method Report(signal: Option<SignalKind>, key: string, id: string, now: Time)
      requires detector.Valid()
      modifies detector
      ensures detector.Valid()
      ensures detector.seen == SeenWith(detector.thresholds, old(detector.seen), signal, key, now)
    {
      if signal.Some? {
        detector.Observe(signal.value, key, id, now);
      }
    }

    /** One request, start to finish. */
    method Serve(id: string, now: Time, req: Request, ip: string) returns (r: Response)
      requires Valid()
      modifies store, detector
      ensures Valid()
      ensures var served := ServeStored(cfg.env, old(store.Contents()), id, now, req, ip);
        && store.Contents() == served.store && r == served.response
        && detector.seen == SeenWith(detector.thresholds, old(detector.seen), served.signal, served.key, now)
    {
      var signal, key;
      r, signal, key := ServeFromStore(id, now, req, ip);
      Report(signal, key, id, now);
    }

    /** A start spends a token of its address before one of its login hint. */
    method PassGate(ip: string, hint: string, now: Time) returns (ok: bool)
      requires ipLimiter != hintLimiter && ipLimiter.rate == hintLimiter.rate
      modifies ipLimiter, hintLimiter
      ensures (ipLimiter.entries, hintLimiter.entries, ok) ==
        Gate(ipLimiter.rate, old(ipLimiter.entries), old(hintLimiter.entries), Attempt(ip, hint, now))
    {
      ok := ipLimiter.Allow(ip, now);
      if ok {
        ok := hintLimiter.Allow(hint, now);
      }
    }

    method CreateSession(
      req: StartRequest, client: string, ip: string, id: Option<string>, random: Option<seq<Byte>>, now: Time)
      returns (r: StartOutcome)
      requires store.Valid()
      requires random.Some? ==> |random.value| == 8
      modifies store
      ensures store.Valid()
      ensures r == if id.Some? && random.Some?
                   then Begun(cfg, req, client, ip, id.value, random.value, now) else StartFailed
      ensures store.Contents() == Registered(old(store.Contents()), r)
    {
      var code := UserCode.GenerateUserCode(random);
      if id.None? || code.None? {
        return StartFailed;
      }
      var terms := Terms(id.value, req.loginHint, req.codeChallenge, req.clientKind, req.clientHost, ip,
                         client, cfg.pollInterval, now, now + cfg.sessionTtl, code.value);
      var s := new Session(terms);
      store.Create(s);
      return SessionStarted(terms, WholeSeconds(cfg.sessionTtl), WholeSeconds(cfg.pollInterval));
    }

    method Attributed(peer: string, forwarded: string) returns (ip: string, allowed: bool)
      ensures ip == ClientIp.Resolved(cfg.parse, cfg.trustedProxies, peer, forwarded)
      ensures allowed <==> cfg.allowedClients == [] || ClientIp.InSome(cfg.parse, cfg.allowedClients, ip)
    {
      ip := ClientIp.ResolveClientIp(cfg.parse, cfg.trustedProxies, peer, forwarded);
      allowed := ClientIp.IsAllowedClient(cfg.parse, cfg.allowedClients, ip);
    }

    method AdmitStart(peer: string, forwarded: string, hint: string, now: Time)
      returns (refusal: Option<StartOutcome>, ip: string)
      requires ipLimiter != hintLimiter && ipLimiter.rate == hintLimiter.rate
      modifies ipLimiter, hintLimiter
      ensures ip == AttributionOf(cfg, peer, forwarded).0
      ensures (refusal, ipLimiter.entries, hintLimiter.entries) ==
        Admission(AttributionOf(cfg, peer, forwarded), hint, now,
                  ipLimiter.rate, old(ipLimiter.entries), old(hintLimiter.entries))
    {
      var allowed;
      ip, allowed := Attributed(peer, forwarded);
      if !allowed {
        return Some(NetworkNotAllowed), ip;
      }
      var ok := PassGate(ip, hint, now);
      return if ok then None else Some(RateLimited), ip;
    }

    method AdmitAndCreate(req: StartRequest, client: string, peer: string, forwarded: string,
                          id: Option<string>, random: Option<seq<Byte>>, now: Time)
      returns (r: StartOutcome)
      requires store.Valid() && ipLimiter != hintLimiter && ipLimiter.rate == hintLimiter.rate
      requires random.Some? ==> |random.value| == 8
      modifies store, ipLimiter, hintLimiter
      ensures store.Valid()
      ensures (r, ipLimiter.entries, hintLimiter.entries) ==
        StartAnswer(cfg, req, client, AttributionOf(cfg, peer, forwarded), id, random, now,
                    ipLimiter.rate, old(ipLimiter.entries), old(hintLimiter.entries))
      ensures store.Contents() == Registered(old(store.Contents()), r)
    {
      var refusal, ip := AdmitStart(peer, forwarded, req.loginHint, now);
      assert store.Valid() && store.Contents() == old(store.Contents());
      if refusal.Some? {
        return refusal.value;
      }
      r := CreateSession(req, client, ip, id, random, now);
    }

    /** client: the authenticated client's id, or None if client authentication fails.
        id and random: fresh randomness, or None if its source fails. An ill-formed request
        touches nothing; a well-formed one is counted before anything else is checked. */
    method HandleStart(req: StartRequest, client: Option<string>, peer: string, forwarded: string,
                       id: Option<string>, random: Option<seq<Byte>>, now: Time)
      returns (r: StartOutcome)
      requires Valid()
      requires random.Some? ==> |random.value| == 8
      modifies store, detector, ipLimiter, hintLimiter
      ensures Valid()
      ensures (Desk(store.Contents(), ipLimiter.entries, hintLimiter.entries), r) ==
        Opened(cfg, ipLimiter.rate, Desk(old(store.Contents()), old(ipLimiter.entries), old(hintLimiter.entries)),
               Start(req, client, AttributionOf(cfg, peer, forwarded), id, random, now))
      ensures detector.seen ==
        if WellFormed(req, client)
        then SeenAfter(detector.thresholds, old(detector.seen), RepeatedStart, req.loginHint, now)
        else old(detector.seen)
    {
      if client.None? {
        return InvalidClient;
      }
      if req.loginHint == "" || req.codeChallenge == "" {
        return InvalidRequest;
      }
      if req.challengeMethod != "" && req.challengeMethod != "S256" {
        return InvalidRequest;
      }
      detector.Observe(RepeatedStart, req.loginHint, "", now);
      assert store.Valid() && store.Contents() == old(store.Contents());
      r := AdmitAndCreate(req, client.value, peer, forwarded, id, random, now);
    }
  }
}
