/** Who is answered what: for every handler and every answer, exactly the sessions and requests that
    get it. */
module Decisions {
  import opened Prelude
  import opened Text
  import opened SessionModel
  import opened Handlers
  import opened SerialRuns
  import opened Interleaving
  import UserCode

  /** Expired, or due to. */
  predicate Lapsed(s: SessionData, now: Time) {
    s.state.Expired? || (!IsTerminal(s.state) && now > s.terms.expiresAt)
  }

  /** A handler that meets a lapsed session writes it back expired. */
  predicate RecordsLapse(s: SessionData, now: Time, e: Effect) {
    Lapsed(s, now) ==> e.writes && e.next == s.(state := Expired)
  }

  // ----- the link ----------------------------------------------------------

  lemma LinkDecided(env: Env, s: SessionData, now: Time, cookie: string, newLeg: Option<IdpLeg>)
    requires Sound(env, s)
    ensures var r := HandleVerify(env, s, now, cookie, newLeg).response;
      var owner := cookie != "" && env.HashBinding(cookie) == s.bindingHash;
      && (r == LinkExpired <==> Lapsed(s, now))
      && (PageOf(r).Some? <==> s.state.AwaitingApproval? && Live(s, now) && owner)
      && (r == ContinueOnYourDevice <==> s.state.AwaitingApproval? && Live(s, now) && !owner)
      && (r == AlreadyDenied <==> s.state.Denied?)
      && (r == AlreadyApproved <==> s.state.Approved?)
      && (r.RedirectToIdp? <==> s.state.Pending? && Live(s, now) && newLeg.Some?)
      && (r.RedirectToIdp? ==> newLeg == Some(r.leg))
      && (r == ServerError <==> s.state.Pending? && Live(s, now) && newLeg.None?)
      && RecordsLapse(s, now, HandleVerify(env, s, now, cookie, newLeg))
  {
  }

  /** A browser that reloads the link is shown the approval page exactly if it is the one that signed
      in. The page names who signed in, and its form, sent with the session's code from that browser
      in time, approves the session. */
  lemma ReloadedPageApproves(
    env: Env, s: SessionData, now: Time, cookie: string, newLeg: Option<IdpLeg>, code: string, later: Time)
    requires Sound(env, s) && s.state.AwaitingApproval? && now <= s.terms.expiresAt
    ensures var page := PageOf(HandleVerify(env, s, now, cookie, newLeg).response);
      && (page.Some? <==> cookie != "" && env.HashBinding(cookie) == s.bindingHash)
      && (page.Some? ==>
            && s.identity.Some? && page.value.identity == s.identity.value.value && page.value.requester == s.terms
            && (later <= s.terms.expiresAt && UserCode.CodesEqual(code, s.terms.userCode) ==>
                  var form := Approve(page.value.csrfToken, code, true, cookie);
                  var (next, answer) := Perform(env, Some(s), Op(later, Serve(form)));
                  answer == Some(ApprovedPage) && next == Some(s.(state := Approved))))
  {
    LinkDecided(env, s, now, cookie, newLeg);
  }

  // ----- the identity provider's response ----------------------------------

  /** The reply is to this leg and yields an identity. */
  predicate Yields(reply: IdpReply, leg: IdpLeg, who: Identity) {
    && reply.state == leg.state != "" && reply.code != ""
    && reply.token == Some(IdToken(leg.nonce, Some(who)))
  }

  lemma LoginCompletes(s: SessionData, reply: IdpReply, who: Identity)
    ensures CompleteLogin(s, reply) == Some(who) <==> Yields(reply, s.leg, who)
  {
  }

  /** What a callback on a pending session that has not lapsed is answered. */
  lemma CallbackDecided(
    env: Env, s: SessionData, now: Time, reply: IdpReply, secret: Option<Token>, csrf: Option<Token>, who: Identity)
    requires s.state.Pending? && Live(s, now) && Yields(reply, s.leg, who)
    ensures var e := HandleCallback(env, s, now, reply, secret, csrf);
      var matches := env.Normalize(who.value) == env.Normalize(s.terms.loginHint);
      && (e.response.IdentityBound? <==> secret.Some? && matches && csrf.Some?)
      && (e.response == IdentityMismatched <==> secret.Some? && !matches)
      && (e.response == SignInNotCompleted <==> secret.None? || (matches && csrf.None?))
      && (e.signal == if secret.Some? && !matches then Some(IdentityMismatchSignal) else None)
      && (secret.Some? ==>
            && e.writes
            && e.next == (
                 var identified := s.(identity := Some(who), identityAt := now);
                 if !matches then identified.(state := Denied)
                 else if csrf.None? then identified
                 else identified.(state := AwaitingApproval, csrfToken := csrf.value,
                                  bindingHash := env.HashBinding(secret.value))))
      && (secret.Some? && matches && csrf.Some? ==>
            && e.response.secret == secret.value
            && e.response.page == Page(who.value, s.terms, csrf.value))
  {
  }

  lemma CallbackRefused(
    env: Env, s: SessionData, now: Time, reply: IdpReply, secret: Option<Token>, csrf: Option<Token>)
    ensures var e := HandleCallback(env, s, now, reply, secret, csrf);
      && (e.response == LinkExpired <==> Lapsed(s, now))
      && (e.response == AlreadyInProgress <==> !s.state.Pending? && !Lapsed(s, now))
      && (e.response == SignInFailed <==>
            s.state.Pending? && Live(s, now) && !exists who :: Yields(reply, s.leg, who))
      && (e.response != IdentityMismatched ==> e.signal == None)
      && RecordsLapse(s, now, e)
  {
    if CompleteLogin(s, reply).Some? {
      LoginCompletes(s, reply, CompleteLogin(s, reply).value);
    }
    forall who ensures Yields(reply, s.leg, who) ==> CompleteLogin(s, reply) == Some(who) {
      LoginCompletes(s, reply, who);
    }
  }

  /** Where no normalizer is configured, two identities match exactly if they are the same text up to
      outer white space and the case of ASCII letters. */
  lemma DefaultMatch(
    env: Env, a: string, b: string,
    beforeA: string, x: string, afterA: string, beforeB: string, y: string, afterB: string)
    requires env.normalizer.None? && HasCore(a, beforeA, x, afterA) && HasCore(b, beforeB, y, afterB)
    ensures env.Normalize(a) == env.Normalize(b) <==> SameUpToCase(x, y)
  {
    TrimSpaceIsCore(a, beforeA, x, afterA);
    TrimSpaceIsCore(b, beforeB, y, afterB);
    LowerIsCaseBlind(x, y);
  }

  /** Check 4 with the broker's own normalizer: the sign-in is bound exactly if the two texts agree
      that far, and denied and reported otherwise. */
  lemma DefaultCallbackDecided(
    env: Env, s: SessionData, now: Time, reply: IdpReply, secret: Token, csrf: Token, who: Identity,
    beforeA: string, x: string, afterA: string, beforeB: string, y: string, afterB: string)
    requires s.state.Pending? && Live(s, now) && Yields(reply, s.leg, who) && env.normalizer.None?
    requires HasCore(who.value, beforeA, x, afterA) && HasCore(s.terms.loginHint, beforeB, y, afterB)
    ensures var e := HandleCallback(env, s, now, reply, Some(secret), Some(csrf));
      && (e.response.IdentityBound? <==> SameUpToCase(x, y))
      && (e.response == IdentityMismatched && e.next.state.Denied? && e.signal == Some(IdentityMismatchSignal)
          <==> !SameUpToCase(x, y))
  {
    DefaultMatch(env, who.value, s.terms.loginHint, beforeA, x, afterA, beforeB, y, afterB);
    CallbackDecided(env, s, now, reply, Some(secret), Some(csrf), who);
  }

  /** And with a configured one. */
  lemma ConfiguredCallbackDecided(
    env: Env, s: SessionData, now: Time, reply: IdpReply, secret: Token, csrf: Token, who: Identity,
    f: string -> string)
    requires s.state.Pending? && Live(s, now) && Yields(reply, s.leg, who) && env.normalizer == Some(f)
    ensures HandleCallback(env, s, now, reply, Some(secret), Some(csrf)).response.IdentityBound?
       <==> f(who.value) == f(s.terms.loginHint)
  {
    CallbackDecided(env, s, now, reply, Some(secret), Some(csrf), who);
  }

  // ----- the approval form -------------------------------------------------

  lemma FormDecided(
    env: Env, s: SessionData, now: Time, csrf: string, code: string, approve: bool, cookie: string)
    requires Sound(env, s)
    ensures var e := HandleApprove(env, s, now, csrf, code, approve, cookie);
      var r := e.response;
      var token := csrf != "" && csrf == s.csrfToken;
      var awaiting := s.state.AwaitingApproval? && Live(s, now);
      var owner := env.HashBinding(cookie) == s.bindingHash;
      var right := UserCode.CodesEqual(code, s.terms.userCode);
      && (r == InvalidForm <==> !token)
      && (r == LinkExpired <==> token && Lapsed(s, now))
      && (r == ContinueOnYourDevice <==> token && awaiting && !owner)
      && (r == ApprovedPage <==> token && awaiting && owner && approve && right)
      && (r == DeniedPage <==>
            token && (s.state.Denied? || (awaiting && owner && (!approve || (!right && s.approveAttempts >= 4)))))
      && (r.RetryPage? <==>
            token && (s.state.Approved? || (awaiting && owner && approve && !right && s.approveAttempts < 4)))
      && e.signal == (if r.RetryPage? then Some(WrongCode) else None)
      && (token ==> RecordsLapse(s, now, e))
      && (token ==> e.writes) && (!token ==> !e.writes)
  {
  }

  /** The bound browser's form is accepted with the session's code in any mixture of cases. */
  lemma AnyCaseApproves(
    env: Env, s: SessionData, now: Time, csrf: string, typed: string, cookie: string)
    requires Sound(env, s) && s.state.AwaitingApproval? && now <= s.terms.expiresAt
    requires csrf == s.csrfToken && env.HashBinding(cookie) == s.bindingHash && SameUpToCase(typed, s.terms.userCode)
    ensures HandleApprove(env, s, now, csrf, typed, true, cookie).response == ApprovedPage
  {
    UserCode.AnyCaseAccepted(typed, s.terms.userCode);
    FormDecided(env, s, now, csrf, typed, true, cookie);
  }

  // ----- the poll ----------------------------------------------------------

  lemma PollDecided(env: Env, s: SessionData, now: Time, verifier: string)
    requires Sound(env, s)
    ensures var e := HandlePoll(env, s, now, verifier);
      var r := e.response;
      var over := Lapsed(s, now) || s.consumed;
      var holder := env.Verifies(verifier, s.terms);
      var early := s.lastPollAt.Some? && now < s.lastPollAt.value + s.terms.interval;
      && (r == PollAnswer(PollExpired, None) <==> over)
      && (r == WrongVerifier <==> !over && !holder)
      && (IsRelease(r) <==> !over && holder && s.state.Approved?)
      && (r == PollAnswer(PollSlowDown, None) <==> !over && holder && !s.state.Approved? && early)
      && (r == PollAnswer(PollDenied, None) <==> holder && s.state.Denied? && !early)
      && (r == PollAnswer(PollPending, None) <==> holder && Live(s, now) && !early)
      && e.signal == (if s.consumed then Some(ConsumedReplay) else None)
      && RecordsLapse(s, now, e)
      && e.writes && e.next.consumed == (s.consumed || IsRelease(r))
      && e.next.lastPollAt == (if r == PollAnswer(PollPending, None) || r == PollAnswer(PollDenied, None)
                               then Some(now) else s.lastPollAt)
  {
  }

  /** And of a session the store does not have. */
  lemma MissingDecided(env: Env, op: Op)
    requires op.action.Serve?
    ensures Perform(env, None, op) ==
      (None, Some(if op.action.req.Poll? then PollAnswer(PollExpired, None) else NotFound))
  {
  }
}
