/** Comparing runs: lazy expiry against eager expiry, a run against the same run without the
    operations of outsiders, and a store that sweeps against one that never does. */
module Expiry {
  import opened Prelude
  import opened SessionModel
  import opened Handlers
  import opened SerialRuns

  // ----- sessions that differ only in whether a due expiry is recorded -----

  function SettleCell(cell: Cell, now: Time): Cell {
    match cell
    case Some(s) => Some(Settle(s, now))
    case None => None
  }

  ghost predicate Agree(a: Cell, b: Cell, t: Time) {
    SettleCell(a, t) == SettleCell(b, t)
  }

  /** What a handler answers, and what it leaves up to recording expiry, depends only on the
      settled session. */
  ghost predicate SettledAlike(e: Effect, s: SessionData, f: Effect, t: SessionData, now: Time) {
    && e.response == f.response && e.signal == f.signal
    && Settle(if e.writes then e.next else s, now) == Settle(if f.writes then f.next else t, now)
  }

  lemma VerifySettled(env: Env, s: SessionData, now: Time, cookie: string, newLeg: Option<IdpLeg>)
    ensures var t := Settle(s, now);
      SettledAlike(HandleVerify(env, s, now, cookie, newLeg), s, HandleVerify(env, t, now, cookie, newLeg), t, now)
  {
  }

  lemma CallbackSettled(
    env: Env, s: SessionData, now: Time, reply: IdpReply, secret: Option<Token>, csrf: Option<Token>)
    ensures var t := Settle(s, now);
      SettledAlike(HandleCallback(env, s, now, reply, secret, csrf), s,
                   HandleCallback(env, t, now, reply, secret, csrf), t, now)
  {
  }

  lemma ApproveSettled(env: Env, s: SessionData, now: Time, csrf: string, code: string, approve: bool, cookie: string)
    ensures var t := Settle(s, now);
      SettledAlike(HandleApprove(env, s, now, csrf, code, approve, cookie), s,
                   HandleApprove(env, t, now, csrf, code, approve, cookie), t, now)
  {
  }

  lemma PollSettled(env: Env, s: SessionData, now: Time, verifier: string)
    ensures var t := Settle(s, now);
      SettledAlike(HandlePoll(env, s, now, verifier), s, HandlePoll(env, t, now, verifier), t, now)
  {
  }

  lemma SettledStep(env: Env, cell: Cell, op: Op)
    ensures var settled := SettleCell(cell, op.now);
      && Perform(env, cell, op).1 == Perform(env, settled, op).1
      && Agree(Perform(env, cell, op).0, Perform(env, settled, op).0, op.now)
  {
    if cell.Some? && op.action.Serve? {
      match op.action.req
      case Verify(cookie, newLeg) => VerifySettled(env, cell.value, op.now, cookie, newLeg);
      case Callback(reply, secret, csrf) => CallbackSettled(env, cell.value, op.now, reply, secret, csrf);
      case Approve(csrf, code, approve, cookie) => ApproveSettled(env, cell.value, op.now, csrf, code, approve, cookie);
      case Poll(verifier) => PollSettled(env, cell.value, op.now, verifier);
    }
  }

  lemma AgreeLater(a: Cell, b: Cell, t: Time, now: Time)
    requires Agree(a, b, t) && t <= now
    ensures Agree(a, b, now)
  {
  }

  lemma AgreeStep(env: Env, a: Cell, b: Cell, t: Time, op: Op)
    requires Agree(a, b, t) && t <= op.now
    ensures Perform(env, a, op).1 == Perform(env, b, op).1
    ensures Agree(Perform(env, a, op).0, Perform(env, b, op).0, op.now)
  {
    AgreeLater(a, b, t, op.now);
    SettledStep(env, a, op);
    SettledStep(env, b, op);
  }

  // ----- lazy expiry refines eager expiry ----------------------------------

  /** The eager machine expires the session the moment the clock passes expiresAt, before anything
      else that happens at that time. */
  function EagerPerform(env: Env, cell: Cell, op: Op): (Cell, Option<Response>) {
    Perform(env, SettleCell(cell, op.now), op)
  }

  function EagerAnswers(env: Env, cell: Cell, ops: seq<Op>): seq<Option<Response>>
    decreases |ops|
  {
    if ops == [] then []
    else
      var (next, answer) := EagerPerform(env, cell, ops[0]);
      [answer] + EagerAnswers(env, next, ops[1..])
  }

  function EagerFinal(env: Env, cell: Cell, ops: seq<Op>): Cell
    decreases |ops|
  {
    if ops == [] then cell else EagerFinal(env, EagerPerform(env, cell, ops[0]).0, ops[1..])
  }

  lemma {:induction false} LazyFollowsEager(env: Env, lazy: Cell, eager: Cell, t: Time, ops: seq<Op>)
    requires Agree(lazy, eager, t) && Monotone(ops) && NotBefore(t, ops)
    ensures Answers(env, lazy, ops) == EagerAnswers(env, eager, ops)
    ensures ops != [] ==>
      Agree(Final(env, lazy, ops), EagerFinal(env, eager, ops), ops[|ops| - 1].now)
    decreases |ops|
  {
    if ops != [] {
      var op := ops[0];
      var settled := SettleCell(eager, op.now);
      AgreeLater(lazy, eager, t, op.now);
      assert Agree(lazy, settled, op.now);
      AgreeStep(env, lazy, settled, op.now, op);
      var (nextLazy, nextEager) := (Perform(env, lazy, op).0, EagerPerform(env, eager, op).0);
      LazyFollowsEager(env, nextLazy, nextEager, op.now, ops[1..]);
      AnswersFromFirst(env, lazy, ops);
    }
  }

  /** Under a clock that never goes back, nobody can tell that expiry is recorded lazily: every
      answer is the eager machine's, and the sessions agree once due expiry is recorded. */
  lemma LazyIsEager(env: Env, cell: Cell, ops: seq<Op>)
    requires Monotone(ops)
    ensures Answers(env, cell, ops) == EagerAnswers(env, cell, ops)
    ensures ops != [] ==> Agree(Final(env, cell, ops), EagerFinal(env, cell, ops), ops[|ops| - 1].now)
  {
    if ops != [] {
      LazyFollowsEager(env, cell, cell, ops[0].now, ops);
    }
  }

  // ----- outsiders do not interfere ----------------------------------------

  /** A poll without the verifier, or an approval without this form's CSRF token or from a browser
      other than the one that signed in. */
  predicate Outsider(env: Env, cell: Cell, op: Op) {
    && cell.Some? && op.action.Serve?
    && match op.action.req
       case Poll(verifier) => !env.Verifies(verifier, cell.value.terms)
       case Approve(csrf, _, _, cookie) =>
         !SameToken(csrf, cell.value.csrfToken) || env.HashBinding(cookie) != cell.value.bindingHash
       case _ => false
  }

  /** At most, an outsider records an expiry that was already due. */
  lemma OutsiderStep(env: Env, cell: Cell, op: Op)
    requires Outsider(env, cell, op)
    ensures var next := Perform(env, cell, op).0; next == cell || next == SettleCell(cell, op.now)
    ensures Agree(Perform(env, cell, op).0, cell, op.now)
  {
  }

  /** The operations left when outsiders' are deleted, and what they were answered. */
  function Insiders(env: Env, cell: Cell, ops: seq<Op>): (kept: seq<Op>)
    ensures |kept| <= |ops|
    decreases |ops|
  {
    if ops == [] then []
    else
      var rest := Insiders(env, Perform(env, cell, ops[0]).0, ops[1..]);
      if Outsider(env, cell, ops[0]) then rest else [ops[0]] + rest
  }

  function InsiderAnswers(env: Env, cell: Cell, ops: seq<Op>): seq<Option<Response>>
    decreases |ops|
  {
    if ops == [] then []
    else
      var (next, answer) := Perform(env, cell, ops[0]);
      var rest := InsiderAnswers(env, next, ops[1..]);
      if Outsider(env, cell, ops[0]) then rest else [answer] + rest
  }

  lemma {:induction false} DeletionKeepsAnswers(env: Env, full: Cell, cut: Cell, t: Time, ops: seq<Op>)
    requires Agree(full, cut, t) && Monotone(ops) && NotBefore(t, ops)
    ensures Answers(env, cut, Insiders(env, full, ops)) == InsiderAnswers(env, full, ops)
    ensures Agree(Final(env, full, ops), Final(env, cut, Insiders(env, full, ops)),
                  if ops == [] then t else ops[|ops| - 1].now)
    decreases |ops|
  {
    if ops != [] {
      var op := ops[0];
      var next := Perform(env, full, op).0;
      if Outsider(env, full, op) {
        OutsiderStep(env, full, op);
        AgreeLater(full, cut, t, op.now);
        DeletionKeepsAnswers(env, next, cut, op.now, ops[1..]);
      } else {
        AgreeStep(env, full, cut, t, op);
        var rest := Insiders(env, next, ops[1..]);
        DeletionKeepsAnswers(env, next, Perform(env, cut, op).0, op.now, ops[1..]);
        assert ([op] + rest)[1..] == rest;
        AnswersFromFirst(env, cut, [op] + rest);
      }
    }
  }

  /** Deleting every outsider's operation from a run leaves every other answer as it was, and the
      session too, once due expiry is recorded. */
  lemma NonInterference(env: Env, cell: Cell, ops: seq<Op>)
    requires Monotone(ops)
    ensures Answers(env, cell, Insiders(env, cell, ops)) == InsiderAnswers(env, cell, ops)
    ensures ops != [] ==>
      Agree(Final(env, cell, ops), Final(env, cell, Insiders(env, cell, ops)), ops[|ops| - 1].now)
  {
    if ops != [] {
      DeletionKeepsAnswers(env, cell, cell, ops[0].now, ops);
    }
  }

  // ----- eviction ----------------------------------------------------------

  function Unswept(ops: seq<Op>): (kept: seq<Op>)
    ensures |kept| <= |ops|
  {
    if ops == [] then []
    else (if ops[0].action.Sweep? then [] else [ops[0]]) + Unswept(ops[1..])
  }

  function PollAnswers(env: Env, cell: Cell, ops: seq<Op>): seq<Option<Response>>
    decreases |ops|
  {
    if ops == [] then []
    else
      var (next, answer) := Perform(env, cell, ops[0]);
      (if IsPollOp(ops[0]) then [answer] else []) + PollAnswers(env, next, ops[1..])
  }

  /** Sessions a poller could still learn something from: denied, or approved and not collected. */
  predicate Informative(s: SessionData) {
    s.state.Denied? || (s.state.Approved? && !s.consumed)
  }

  /** A session every poll calls expired, as it does a missing one. */
  predicate Over(s: SessionData, now: Time) {
    Settle(s, now).state.Expired? || (s.state.Approved? && s.consumed)
  }

  lemma OverStep(env: Env, s: SessionData, t: Time, op: Op)
    requires Over(s, t) && t <= op.now && !op.action.Sweep?
    ensures var (next, answer) := Perform(env, Some(s), op);
      && next.Some? && Over(next.value, op.now)
      && (IsPollOp(op) ==> answer == Some(PollAnswer(PollExpired, None)))
  {
    if op.action.Serve? {
      match op.action.req
      case Verify(cookie, newLeg) =>
      case Callback(reply, secret, csrf) =>
      case Approve(csrf, code, approve, cookie) =>
      case Poll(verifier) =>
    }
  }

  /** No sweep of this run evicts an informative session. */
  predicate SweepsOnlyOver(env: Env, cell: Cell, ops: seq<Op>)
    decreases |ops|
  {
    ops != [] ==>
      && (ops[0].action.Sweep? && cell.Some? && SweptAt(cell.value, ops[0].now) ==> !Informative(cell.value))
      && SweepsOnlyOver(env, Perform(env, cell, ops[0]).0, ops[1..])
  }

  ghost predicate EvictedOver(swept: Cell, kept: Cell, t: Time) {
    swept == kept || (swept.None? && kept.Some? && Over(kept.value, t))
  }

  ghost predicate Lived(cell: Cell) {
    cell.Some? ==> cell.value.terms.createdAt <= cell.value.terms.expiresAt
  }

  lemma StepKeepsTerms(env: Env, cell: Cell, op: Op)
    ensures var next := Perform(env, cell, op).0;
      next.Some? ==> cell.Some? && next.value.terms == cell.value.terms
  {
    if cell.Some? && op.action.Serve? {
      HandleKeepsTerms(env, cell.value, op.now, op.action.req);
    }
  }

  lemma EvictedOverStep(env: Env, swept: Cell, kept: Cell, t: Time, op: Op)
    requires EvictedOver(swept, kept, t) && t <= op.now && Lived(kept)
    requires op.action.Sweep? ==> (swept.Some? && SweptAt(swept.value, op.now) ==> !Informative(swept.value))
    ensures var next := Perform(env, swept, op);
      var next' := if op.action.Sweep? then (kept, None) else Perform(env, kept, op);
      && EvictedOver(next.0, next'.0, op.now) && Lived(next'.0)
      && (IsPollOp(op) ==> next.1 == next'.1)
  {
    if !op.action.Sweep? {
      StepKeepsTerms(env, kept, op);
      if swept != kept {
        OverStep(env, kept.value, t, op);
      }
    }
  }

  lemma {:induction false} SweepKeepsPollAnswers(env: Env, swept: Cell, kept: Cell, t: Time, ops: seq<Op>)
    requires Monotone(ops) && NotBefore(t, ops) && Lived(kept)
    requires EvictedOver(swept, kept, t) && SweepsOnlyOver(env, swept, ops)
    ensures PollAnswers(env, swept, ops) == PollAnswers(env, kept, Unswept(ops))
    decreases |ops|
  {
    if ops != [] {
      var op := ops[0];
      var next := Perform(env, swept, op).0;
      var rest := Unswept(ops[1..]);
      EvictedOverStep(env, swept, kept, t, op);
      if op.action.Sweep? {
        assert Unswept(ops) == rest;
        SweepKeepsPollAnswers(env, next, kept, op.now, ops[1..]);
      } else {
        assert Unswept(ops)[1..] == rest;
        SweepKeepsPollAnswers(env, next, Perform(env, kept, op).0, op.now, ops[1..]);
      }
    }
  }

  /** Sweeping changes no poll's answer as long as what is swept is not informative. */
  lemma EvictionInvisible(env: Env, terms: Terms, ops: seq<Op>)
    requires terms.createdAt <= terms.expiresAt && Monotone(ops)
    requires SweepsOnlyOver(env, Some(NewSession(terms)), ops)
    ensures var start := Some(NewSession(terms));
      PollAnswers(env, start, ops) == PollAnswers(env, start, Unswept(ops))
  {
    if ops != [] {
      var start := Some(NewSession(terms));
      SweepKeepsPollAnswers(env, start, start, ops[0].now, ops);
    }
  }

  /** And that is exact: evicting a due session is invisible to all later polls if and only if
      the session is not informative. */
  lemma EvictionInvisibleExactly(env: Env, s: SessionData, now: Time)
    requires s.terms.createdAt <= s.terms.expiresAt && SweptAt(s, now)
    ensures (forall ops | Monotone(ops) && NotBefore(now, ops) ::
               PollAnswers(env, None, ops) == PollAnswers(env, Some(s), Unswept(ops)))
       <==> !Informative(s)
  {
    if Informative(s) {
      var ops := [Op(now, Serve(Poll("")))];
      assert ops[1..] == [];
      assert Unswept(ops) == ops;
      assert PollAnswers(env, None, ops) == [Some(PollAnswer(PollExpired, None))];
      assert PollAnswers(env, Some(s), ops) == [Some(WrongVerifier)];
    } else {
      forall ops | Monotone(ops) && NotBefore(now, ops)
        ensures PollAnswers(env, None, ops) == PollAnswers(env, Some(s), Unswept(ops))
      {
        NothingToSweep(env, ops);
        SweepKeepsPollAnswers(env, None, Some(s), now, ops);
      }
    }
  }

  lemma {:induction false} NothingToSweep(env: Env, ops: seq<Op>)
    ensures SweepsOnlyOver(env, None, ops)
    decreases |ops|
  {
    if ops != [] {
      NothingToSweep(env, ops[1..]);
    }
  }

  /** An artifact released means that no sweep before it ran past the session's keeping time. */
  lemma {:induction false} ReleaseMeansKept(env: Env, terms: Terms, ops: seq<Op>, i: nat, j: nat)
    requires j < i < |ops| && ops[j].action.Sweep?
    requires Released(Play(env, Some(NewSession(terms)), ops)[i])
    ensures ops[j].now <= KeptUntil(terms)
  {
    var start := Some(NewSession(terms));
    PlayIsChain(env, start, ops, i);
    StaysPresent(env, start, ops, j, i);
    PlayIsChain(env, start, ops, j);
    TermsAt(env, start, ops, j);
  }

  lemma {:induction false} StaysPresent(env: Env, cell: Cell, ops: seq<Op>, j: nat, i: nat)
    requires j < i < |ops| && Play(env, cell, ops)[i].before.Some?
    ensures Play(env, cell, ops)[j].after.Some?
  {
    PlayIsChain(env, cell, ops, i);
    if j < i - 1 {
      EntryKeepsTerms(env, cell, ops, i - 1);
      StaysPresent(env, cell, ops, j, i - 1);
    }
  }

  lemma EntryKeepsTerms(env: Env, cell: Cell, ops: seq<Op>, i: nat)
    requires i < |ops|
    ensures var e := Play(env, cell, ops)[i];
      e.after.Some? ==> e.before.Some? && e.after.value.terms == e.before.value.terms
  {
    PlayIsChain(env, cell, ops, i);
    StepKeepsTerms(env, Play(env, cell, ops)[i].before, ops[i]);
  }

  lemma {:induction false} TermsAt(env: Env, cell: Cell, ops: seq<Op>, i: nat)
    requires i < |ops| && cell.Some?
    ensures var before := Play(env, cell, ops)[i].before; before.Some? ==> before.value.terms == cell.value.terms
  {
    PlayIsChain(env, cell, ops, i);
    if i > 0 {
      TermsAt(env, cell, ops, i - 1);
      EntryKeepsTerms(env, cell, ops, i - 1);
    }
  }

  // ----- how long a session is kept ----------------------------------------

  /** A sweep past twice the session's lifetime, counted from its creation. */
  predicate LateSweep(terms: Terms, ttl: Duration, op: Op) {
    op.action.Sweep? && op.now > terms.createdAt + 2 * ttl
  }

  /** In any run, a session stored for ttl is gone at the end exactly if some sweep was that late. */
  lemma {:induction false} EvictedExactly(env: Env, s: SessionData, ttl: Duration, ops: seq<Op>)
    requires s.terms.expiresAt == s.terms.createdAt + ttl
    ensures Final(env, Some(s), ops).None? <==> exists i | 0 <= i < |ops| :: LateSweep(s.terms, ttl, ops[i])
    decreases |ops|
  {
    if ops != [] {
      var next := Perform(env, Some(s), ops[0]).0;
      StepKeepsTerms(env, Some(s), ops[0]);
      if next.Some? {
        EvictedExactly(env, next.value, ttl, ops[1..]);
        if i :| 0 <= i < |ops| && LateSweep(s.terms, ttl, ops[i]) {
          assert i > 0 && ops[i] == ops[1..][i - 1];
        }
      } else {
        NothingFromNothing(env, ops[1..]);
        assert LateSweep(s.terms, ttl, ops[0]);
      }
    }
  }
}
