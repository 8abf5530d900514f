/** The session state machine: the session as a value, what each operation makes of it,
    and the mutable session object whose methods do it in place. */
module SessionModel {
  import opened Prelude
  import opened Encoding
  import opened Text
  import Pkce
  import UserCode

  datatype State = Pending | AwaitingApproval | Approved | Denied | Expired

  predicate IsTerminal(st: State) {
    st.Approved? || st.Denied? || st.Expired?
  }

  datatype Identity = Identity(subject: string, value: string, claims: map<string, string>)

  /** What /auth/start fixes for the life of a session. */
  datatype Terms = Terms(
    id: string, loginHint: string, codeChallenge: string,
    clientKind: string, clientHost: string, clientIp: string, verifiedClient: string,
    interval: Duration, createdAt: Time, expiresAt: Time, userCode: string)

  /** Correlation state of the broker's own leg to the identity provider; all empty before a login begins. */
  datatype IdpLeg = IdpLeg(state: string, nonce: string, pkceVerifier: string)

  const NO_LEG := IdpLeg("", "", "")
  const ZERO_TIME: Time := 0

  datatype SessionData = SessionData(
    terms: Terms, leg: IdpLeg,
    identity: Option<Identity>, identityAt: Time,
    approveAttempts: nat, csrfToken: string, bindingHash: string,
    lastPollAt: Option<Time>, state: State, consumed: bool)

  function NewSession(terms: Terms): SessionData {
    SessionData(terms, NO_LEG, None, ZERO_TIME, 0, "", "", None, Pending, false)
  }

  /** Broker-wide parameters. The normalizer is optional, as in the configuration. */
  datatype Env = Env(sha256: Hash, normalizer: Option<string -> string>, artifactTtl: Duration)
  {
    function Normalize(s: string): string {
      match normalizer
      case Some(f) => f(s)
      case None => ToLower(TrimSpace(s))
    }

    function HashBinding(secret: string): string {
      Hex(sha256(secret))
    }

    predicate Verifies(verifier: string, terms: Terms) {
      Pkce.VerifyClientPkce(sha256, verifier, terms.codeChallenge)
    }
  }

  lemma HashBindingEqual(env: Env, a: string, b: string)
    ensures env.HashBinding(a) != ""
    ensures env.HashBinding(a) == env.HashBinding(b) <==> env.sha256(a) == env.sha256(b)
  {
    HexInjective(env.sha256(a), env.sha256(b));
  }

  // ----- expiry ------------------------------------------------------------

  /** Expiry is lazy: due once the clock is past expiresAt, recorded when an operation looks. */
  function Settle(s: SessionData, now: Time): SessionData {
    if !IsTerminal(s.state) && now > s.terms.expiresAt then s.(state := Expired) else s
  }

  // ----- binding an identity (check 4) -------------------------------------

  datatype BindResult = Bound | BindExpired | BindWrongState | IdentityMismatch | NoCsrfToken

  /** csrf is the fresh token, or None when the random source fails. */
  function Bind(env: Env, s: SessionData, who: Identity, now: Time, hash: string, csrf: Option<string>)
    : (SessionData, BindResult)
  {
    var t := Settle(s, now);
    if t.state == Expired then (t, BindExpired)
    else if t.state != Pending then (t, BindWrongState)
    else
      var u := t.(identity := Some(who), identityAt := now);
      if env.Normalize(who.value) != env.Normalize(t.terms.loginHint) then
        (u.(state := Denied), IdentityMismatch)
      else match csrf
        case None => (u, NoCsrfToken)
        case Some(token) =>
          (u.(csrfToken := token, bindingHash := hash, state := AwaitingApproval), Bound)
  }

  // ----- approval (check 2) ------------------------------------------------

  const MAX_APPROVE_ATTEMPTS := 5

  datatype ApproveResult = Decided | ApproveExpired | ApproveWrongState | NotBound | TooManyCodes | IncorrectCode

  function Decide(env: Env, s: SessionData, code: string, approve: bool, now: Time, binding: string)
    : (SessionData, ApproveResult)
  {
    var t := Settle(s, now);
    if t.state == Expired then (t, ApproveExpired)
    else if t.state != AwaitingApproval then (t, ApproveWrongState)
    else if t.bindingHash == "" || env.HashBinding(binding) != t.bindingHash then (t, NotBound)
    else if !approve then (t.(state := Denied), Decided)
    else if UserCode.CodesEqual(code, t.terms.userCode) then (t.(state := Approved), Decided)
    else
      var u := t.(approveAttempts := t.approveAttempts + 1);
      if u.approveAttempts >= MAX_APPROVE_ATTEMPTS then (u.(state := Denied), TooManyCodes)
      else (u, IncorrectCode)
  }

  // ----- polling (check 1) -------------------------------------------------

  datatype Artifact = Artifact(
    subject: string, identity: string, claims: map<string, string>, approvedAt: Time, expiresAt: Time)

  datatype PollStatus = PollPending | PollApproved | PollDenied | PollExpired | PollSlowDown

  /** NilIdentity: an approved session without an identity would be dereferenced and panic. */
  datatype PollResult = Polled(status: PollStatus, artifact: Option<Artifact>) | InvalidVerifier | NilIdentity

  function Collect(env: Env, s: SessionData, verifier: string, now: Time): (SessionData, PollResult) {
    var t := Settle(s, now);
    if t.state == Expired then (t, Polled(PollExpired, None))
    else if t.state == Approved then
      if t.consumed then (t, Polled(PollExpired, None))
      else if !env.Verifies(verifier, t.terms) then (t, InvalidVerifier)
      else
        var u := t.(consumed := true);
        match t.identity
        case None => (u, NilIdentity)
        case Some(who) =>
          (u, Polled(PollApproved, Some(Artifact(
            who.subject, who.value, who.claims, t.identityAt, t.identityAt + env.artifactTtl))))
    else if !env.Verifies(verifier, t.terms) then (t, InvalidVerifier)
    else if t.lastPollAt.Some? && now - t.lastPollAt.value < t.terms.interval then (t, Polled(PollSlowDown, None))
    else
      (t.(lastPollAt := Some(now)), Polled(if t.state == Denied then PollDenied else PollPending, None))
  }

  // ----- the session object ------------------------------------------------

  class Session {
    var terms: Terms
    var leg: IdpLeg
    var identity: Option<Identity>
    var identityAt: Time
    var approveAttempts: nat
    var csrfToken: string
    var approvalBindingHash: string
    var lastPollAt: Option<Time>
    var state: State
    var consumed: bool

    function Value(): SessionData
      reads this
    {
      SessionData(terms, leg, identity, identityAt, approveAttempts, csrfToken, approvalBindingHash,
                  lastPollAt, state, consumed)
    }

    constructor (terms: Terms)
      ensures Value() == NewSession(terms)
    {
      this.terms := terms;
      leg, identity, identityAt, approveAttempts := NO_LEG, None, ZERO_TIME, 0;
      csrfToken, approvalBindingHash, lastPollAt, state, consumed := "", "", None, Pending, false;
    }

    /** A field-by-field copy of another session. */
    constructor Copy(s: Session)
      ensures Value() == s.Value()
    {
      terms, leg, identity, identityAt := s.terms, s.leg, s.identity, s.identityAt;
      approveAttempts, csrfToken, approvalBindingHash := s.approveAttempts, s.csrfToken, s.approvalBindingHash;
      lastPollAt, state, consumed := s.lastPollAt, s.state, s.consumed;
    }

    method ExpireIfNeeded(now: Time) returns (expired: bool)
      modifies this
      ensures Value() == Settle(old(Value()), now)
      ensures expired <==> state == Expired
    {
      if state == Expired {
        return true;
      }
      if IsTerminal(state) {
        return false;
      }
      if now > terms.expiresAt {
        state := Expired;
        return true;
      }
      return false;
    }

    method BindIdentity(env: Env, who: Identity, now: Time, hash: string, csrf: Option<string>)
      returns (result: BindResult)
      modifies this
      ensures (Value(), result) == Bind(env, old(Value()), who, now, hash, csrf)
    {
      var expired := ExpireIfNeeded(now);
      if expired {
        return BindExpired;
      }
      if state != Pending {
        return BindWrongState;
      }
      identity := Some(who);
      identityAt := now;
      if env.Normalize(who.value) != env.Normalize(terms.loginHint) {
        state := Denied;
        return IdentityMismatch;
      }
      if csrf.None? {
        return NoCsrfToken;
      }
      csrfToken := csrf.value;
      approvalBindingHash := hash;
      state := AwaitingApproval;
      return Bound;
    }

    method Approve(env: Env, code: string, approve: bool, now: Time, binding: string)
      returns (result: ApproveResult)
      modifies this
      ensures (Value(), result) == Decide(env, old(Value()), code, approve, now, binding)
    {
      var expired := ExpireIfNeeded(now);
      if expired {
        return ApproveExpired;
      }
      if state != AwaitingApproval {
        return ApproveWrongState;
      }
      if approvalBindingHash == "" || env.HashBinding(binding) != approvalBindingHash {
        return NotBound;
      }
      if !approve {
        state := Denied;
        return Decided;
      }
      if UserCode.CodesEqual(code, terms.userCode) {
        state := Approved;
        return Decided;
      }
      approveAttempts := approveAttempts + 1;
      if approveAttempts >= MAX_APPROVE_ATTEMPTS {
        state := Denied;
        return TooManyCodes;
      }
      return IncorrectCode;
    }

    method Poll(env: Env, verifier: string, now: Time) returns (result: PollResult)
      modifies this
      ensures (Value(), result) == Collect(env, old(Value()), verifier, now)
    {
      var expired := ExpireIfNeeded(now);
      if expired {
        return Polled(PollExpired, None);
      }
      if state == Approved {
        if consumed {
          return Polled(PollExpired, None);
        }
        if !env.Verifies(verifier, terms) {
          return InvalidVerifier;
        }
        consumed := true;
        if identity.None? {
          return NilIdentity;
        }
        var who := identity.value;
        return Polled(PollApproved, Some(Artifact(
          who.subject, who.value, who.claims, identityAt, identityAt + env.artifactTtl)));
      }
      if !env.Verifies(verifier, terms) {
        return InvalidVerifier;
      }
      if lastPollAt.Some? && now - lastPollAt.value < terms.interval {
        return Polled(PollSlowDown, None);
      }
      lastPollAt := Some(now);
      return Polled(if state == Denied then PollDenied else PollPending, None);
    }

    /** Stores a new leg's correlation state, or nothing when the random source fails. */
    method BeginLogin(newLeg: Option<IdpLeg>) returns (ok: bool)
      modifies this
      ensures ok <==> newLeg.Some?
      ensures Value() == if ok then old(Value()).(leg := newLeg.value) else old(Value())
    {
      if newLeg.None? {
        return false;
      }
      leg := newLeg.value;
      return true;
    }
  }
}
