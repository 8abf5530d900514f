/** From a start to the artifact: what a client, a person and a poller are promised by the answer to
    /auth/start, in terms of the request and the broker's configuration. */
module Journey {
  import opened Prelude
  import opened Encoding
  import opened SessionModel
  import opened Handlers
  import opened RateLimit
  import opened Broker
  import Login
  import Client
  import ClientIp
  import UserCode

  /** This start is answered with a session. */
  predicate Opens(cfg: Config, rate: Rate, d: Desk, s: Start) {
    s.random.Some? && Opened(cfg, rate, d, s).1.SessionStarted?
  }

  function TermsOf(cfg: Config, rate: Rate, d: Desk, s: Start): Terms
    requires Opens(cfg, rate, d, s)
  {
    Opened(cfg, rate, d, s).1.terms
  }

  /** The session as it is stored once the start is answered. */
  function Filed(cfg: Config, rate: Rate, d: Desk, s: Start): Cell
    requires Opens(cfg, rate, d, s)
  {
    var (m, id) := (Opened(cfg, rate, d, s).0.store, TermsOf(cfg, rate, d, s).id);
    if id in m then Some(m[id]) else None
  }

  /** A login that suits the request: a matching identity, the generated code, the challenge's verifier. */
  predicate Suits(cfg: Config, s: Start, x: Login.Attempt) {
    && x.leg.state != "" && x.idpCode != ""
    && cfg.env.Normalize(x.who.value) == cfg.env.Normalize(s.req.loginHint)
    && s.random.Some? && UserCode.CodesEqual(x.code, UserCode.Generated(s.random.value))
    && x.verifier != "" && Encode(cfg.env.sha256(x.verifier)) == s.req.codeChallenge
  }

  lemma StartFilesHonestTerms(cfg: Config, rate: Rate, d: Desk, s: Start, x: Login.Attempt)
    requires Opens(cfg, rate, d, s) && Suits(cfg, s, x)
    ensures Filed(cfg, rate, d, s) == Some(NewSession(TermsOf(cfg, rate, d, s)))
    ensures x.Honest(cfg.env, TermsOf(cfg, rate, d, s))
    ensures TermsOf(cfg, rate, d, s).expiresAt == s.now + cfg.sessionTtl
  {
  }

  /** Who a page says is asking, against the request. */
  predicate ShowsRequest(page: Page, s: Start) {
    && page.requester.clientKind == s.req.clientKind && page.requester.clientHost == s.req.clientHost
    && page.requester.clientIp == s.attribution.0 && s.client == Some(page.requester.verifiedClient)
    && page.requester.loginHint == s.req.loginHint
  }

  lemma PageShowsRequest(cfg: Config, rate: Rate, d: Desk, s: Start, page: Page)
    requires Opens(cfg, rate, d, s) && page.requester == TermsOf(cfg, rate, d, s)
    ensures ShowsRequest(page, s)
  {
  }

  /** A login that suits the request, whose visit, sign-in and approval come within the session's
      lifetime of the start, each after any amount of noise, gets its redirect, a page that shows the
      request, its approval and, whenever it is asked for, its artifact. */
  lemma StartedLoginSucceeds(cfg: Config, rate: Rate, d: Desk, s: Start, x: Login.Attempt, c: Login.Course)
    requires Opens(cfg, rate, d, s) && Suits(cfg, s, x)
    requires Login.Undisturbed(cfg.env, TermsOf(cfg, rate, d, s), x, c, s.now + cfg.sessionTtl)
    ensures Login.GoesThrough(cfg.env, Filed(cfg, rate, d, s), TermsOf(cfg, rate, d, s), x, c)
    ensures forall page: Page | page.requester == TermsOf(cfg, rate, d, s) :: ShowsRequest(page, s)
  {
    StartFilesHonestTerms(cfg, rate, d, s, x);
    forall page: Page | page.requester == TermsOf(cfg, rate, d, s) ensures ShowsRequest(page, s) {
      PageShowsRequest(cfg, rate, d, s, page);
    }
    Login.HonestLoginSucceeds(cfg.env, TermsOf(cfg, rate, d, s), x, c);
  }

  /** Of a session neither approved nor denied, a poll is told expired exactly after the lifetime that
      runs from the start. */
  lemma StartedThenExpired(
    cfg: Config, rate: Rate, d: Desk, s: Start, session: SessionData, verifier: string, now: Time)
    requires Opens(cfg, rate, d, s) && session.terms == TermsOf(cfg, rate, d, s) && !IsTerminal(session.state)
    ensures HandlePoll(cfg.env, session, now, verifier).response == PollAnswer(PollExpired, None)
       <==> now > s.now + cfg.sessionTtl
  {
  }

  /** A started session is kept by the store's sweeps for twice that lifetime from the start. */
  lemma StartedThenKept(cfg: Config, rate: Rate, d: Desk, s: Start, session: SessionData, now: Time)
    requires Opens(cfg, rate, d, s) && session.terms == TermsOf(cfg, rate, d, s)
    ensures Perform(cfg.env, Some(session), Op(now, Sweep)).0
         == if now > s.now + 2 * cfg.sessionTtl then None else Some(session)
  {
  }

  /** And the verifier's poll is told to slow down exactly within the poll interval of the last one
      accepted. */
  lemma StartedThenPaced(
    cfg: Config, rate: Rate, d: Desk, s: Start, session: SessionData, verifier: string, now: Time)
    requires Opens(cfg, rate, d, s) && session.terms == TermsOf(cfg, rate, d, s) && !IsTerminal(session.state)
    requires now <= s.now + cfg.sessionTtl
    requires verifier != "" && Encode(cfg.env.sha256(verifier)) == s.req.codeChallenge
    ensures HandlePoll(cfg.env, session, now, verifier).response == PollAnswer(PollSlowDown, None)
       <==> session.lastPollAt.Some? && now < session.lastPollAt.value + cfg.pollInterval
  {
  }

  /** The durations announced are the configured ones in whole seconds, and the client polls at the
      announced interval, or at three seconds if none is announced. */
  lemma AnnouncedTimes(cfg: Config, rate: Rate, d: Desk, s: Start)
    requires Opens(cfg, rate, d, s)
    ensures var r := Opened(cfg, rate, d, s).1;
      && r.expiresIn * 1_000_000_000 <= cfg.sessionTtl < (r.expiresIn + 1) * 1_000_000_000
      && r.interval * 1_000_000_000 <= cfg.pollInterval < (r.interval + 1) * 1_000_000_000
      && Client.StartingInterval(r.terms.interval) == Client.FromWire(r.interval)
      && Client.FromWire(r.interval) == if r.interval > 0 then r.interval * 1_000_000_000 else 3_000_000_000
  {
  }

  /** A well-formed start from an allowed address, with tokens left and randomness at hand, is answered
      with a session that carries a fresh id; any other start is refused for the first thing it lacks. */
  lemma StartDecided(cfg: Config, rate: Rate, d: Desk, s: Start)
    requires ValidRate(rate) && RefillsWhileIdle(rate) && Sane(rate, d.ips, s.now) && Sane(rate, d.hints, s.now)
    ensures var r := Opened(cfg, rate, d, s).1;
      var asked := s.req.loginHint != "" && s.req.codeChallenge != ""
                   && (s.req.challengeMethod == "" || s.req.challengeMethod == "S256");
      var tokens := Level(rate, d.ips, s.attribution.0, s.now) >= 1.0
                    && Level(rate, d.hints, s.req.loginHint, s.now) >= 1.0;
      && (r == InvalidClient <==> s.client.None?)
      && (r == InvalidRequest <==> s.client.Some? && !asked)
      && (r == NetworkNotAllowed <==> s.client.Some? && asked && !s.attribution.1)
      && (r == RateLimited <==> s.client.Some? && asked && s.attribution.1 && !tokens)
      && (r == StartFailed <==>
            s.client.Some? && asked && s.attribution.1 && tokens && (s.id.None? || s.random.None?))
      && (r.SessionStarted? ==> s.id == Some(r.terms.id))
  {
    GateExactly(rate, d.ips, d.hints, Attempt(s.attribution.0, s.req.loginHint, s.now), s.req.loginHint);
  }

  /** Where clients are gated by address, one that parses to no allowed prefix is refused; the address
      is the peer's, unless the peer is a trusted proxy. */
  lemma ForeignAddressRefused(cfg: Config, rate: Rate, d: Desk, s: Start, peer: string, forwarded: string)
    requires s.attribution == AttributionOf(cfg, peer, forwarded)
    requires WellFormed(s.req, s.client)
    ensures Opened(cfg, rate, d, s).1 == NetworkNotAllowed
       <==> && cfg.allowedClients != []
            && !ClientIp.InSome(cfg.parse, cfg.allowedClients, s.attribution.0)
    ensures !ClientIp.InSome(cfg.parse, cfg.trustedProxies, peer) ==> s.attribution.0 == peer
  {
  }
}
