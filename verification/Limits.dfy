/** Exactly when single use and the attempt limit hold of a session, from a moment on. */
module Limits {
  import opened Prelude
  import opened SessionModel
  import opened Handlers
  import opened SerialRuns
  import opened Interleaving
  import opened Outlook

  // ----- from any moment on ------------------------------------------------

  /** In every continuation from t on, the session comes to the goal at most limit times in all. */
  ghost predicate StaysWithin(env: Env, goal: Goal, w: World, id: string, t: Time, limit: nat) {
    forall steps: seq<Step> | Forward(t, steps) :: Total(env, goal, Reach(env, w, steps).log, id) <= limit
  }

  lemma StaysWithinExactly(env: Env, goal: Goal, w: World, id: string, t: Time, verifier: string, limit: nat)
    requires Safe(env, w) && id in w.started && (goal.Collection? ==> env.Verifies(verifier, w.started[id]))
    ensures StaysWithin(env, goal, w, id, t, limit)
       <==> && !Reopenable(env, goal, w, id, t)
            && Total(env, goal, w.log, id) + |Hitters(env, goal, w, id, t)| <= limit
  {
    var total := Total(env, goal, w.log, id);
    if total > limit {
      assert Forward(t, []) && Reach(env, w, []) == w;
    } else {
      TimesExactly(env, goal, w, id, t, verifier, limit + 1 - total);
    }
  }

  /** The limit of five comparisons holds from any reachable world on exactly if the session can no
      longer be reopened, and the handlers in flight that would compare its code do not exceed it. */
  lemma AttemptLimitExactly(env: Env, steps: seq<Step>, id: string, t: Time)
    requires id in Reach(env, EMPTY, steps).started
    ensures var w := Reach(env, EMPTY, steps);
      StaysWithin(env, Comparison, w, id, t, MAX_APPROVE_ATTEMPTS)
      <==> && !Reopenable(env, Comparison, w, id, t)
           && Total(env, Comparison, w.log, id) + |Hitters(env, Comparison, w, id, t)| <= MAX_APPROVE_ATTEMPTS
  {
    AlwaysSafe(env, steps);
    StaysWithinExactly(env, Comparison, Reach(env, EMPTY, steps), id, t, "", MAX_APPROVE_ATTEMPTS);
  }

  /** And single use, for a session that some verifier can collect. */
  lemma SingleUseExactly(env: Env, steps: seq<Step>, id: string, t: Time, verifier: string)
    requires id in Reach(env, EMPTY, steps).started && env.Verifies(verifier, Reach(env, EMPTY, steps).started[id])
    ensures var w := Reach(env, EMPTY, steps);
      StaysWithin(env, Collection, w, id, t, 1)
      <==> && !Reopenable(env, Collection, w, id, t)
           && Total(env, Collection, w.log, id) + |Hitters(env, Collection, w, id, t)| <= 1
  {
    AlwaysSafe(env, steps);
    StaysWithinExactly(env, Collection, Reach(env, EMPTY, steps), id, t, verifier, 1);
  }

  // ----- at the moment a session closes ------------------------------------

  /** The handler reaches the goal or, while the session is stored, writes it back open. */
  predicate Carries(env: Env, goal: Goal, f: Flight, stored: bool, t: Time) {
    Reaches(env, goal, f, t) || (stored && Reopens(env, goal, f, t))
  }

  /** Some handler of this one's session, other than it, carries it. */
  ghost predicate OthersCarry(env: Env, goal: Goal, w: World, p: nat, t: Time)
    requires p in w.flights
  {
    var id := w.flights[p].id;
    exists h | h in w.flights && h != p :: w.flights[h].id == id && Carries(env, goal, w.flights[h], id in w.store, t)
  }

  /** This handler closes the session: it writes it back, and not open. */
  predicate Closes(env: Env, goal: Goal, f: Flight, t: Time) {
    var e := Handle(env, f.copy, t, f.req);
    e.writes && !OpenAt(goal, e.next, t)
  }

  lemma OnlyOthersCarry(env: Env, goal: Goal, w: World, p: nat, t: Time)
    requires p in w.flights && Closes(env, goal, w.flights[p], t)
    ensures var (v, id) := (FinishFlight(env, w, p, t), w.flights[p].id);
      OthersCarry(env, goal, w, p, t) <==> Reopenable(env, goal, v, id, t) || Hitters(env, goal, v, id, t) != {}
  {
    var (v, id) := (FinishFlight(env, w, p, t), w.flights[p].id);
    assert forall h :: h in v.flights <==> h in w.flights && h != p;
    assert forall h | h in v.flights :: v.flights[h] == w.flights[h];
    if OthersCarry(env, goal, w, p, t) {
      var h :| h in w.flights && h != p && w.flights[h].id == id && Carries(env, goal, w.flights[h], id in w.store, t);
      assert h in v.flights;
      assert Reaches(env, goal, w.flights[h], t) ==> h in Hitters(env, goal, v, id, t);
    }
  }

  lemma ClosedExactly(env: Env, goal: Goal, w: World, p: nat, t: Time, verifier: string)
    requires Safe(env, w) && p in w.flights && Closes(env, goal, w.flights[p], t)
    requires goal.Collection? ==> env.Verifies(verifier, w.flights[p].copy.terms)
    ensures Ahead(env, goal, FinishFlight(env, w, p, t), w.flights[p].id, t, 1) <==> OthersCarry(env, goal, w, p, t)
  {
    var (v, id) := (FinishFlight(env, w, p, t), w.flights[p].id);
    FinishKeepsSafe(env, w, p, t);
    assert WellMade(env, w, id, w.flights[p].copy);
    OnlyOthersCarry(env, goal, w, p, t);
    TimesExactly(env, goal, v, id, t, verifier, 1);
    NoneOrMore(Hitters(env, goal, v, id, t));
  }

  lemma NoneOrMore(a: set<nat>)
    ensures 1 <= |a| <==> a != {}
  {
  }

  /** Whatever has happened before a release, the artifact can be released again if and only if, at
      that moment, another handler of the session carries it. */
  lemma ReleaseIsLastExactly(env: Env, steps: seq<Step>, p: nat, t: Time)
    requires p in Reach(env, EMPTY, steps).flights
    requires Reaches(env, Collection, Reach(env, EMPTY, steps).flights[p], t)
    ensures var w := Reach(env, EMPTY, steps);
      Ahead(env, Collection, FinishFlight(env, w, p, t), w.flights[p].id, t, 1)
      <==> OthersCarry(env, Collection, w, p, t)
  {
    var w := Reach(env, EMPTY, steps);
    AlwaysSafe(env, steps);
    assert WellMade(env, w, w.flights[p].id, w.flights[p].copy);
    CollectionCloses(env, w.flights[p], t);
    ClosedExactly(env, Collection, w, p, t, w.flights[p].req.verifier);
  }

  lemma CollectionCloses(env: Env, f: Flight, t: Time)
    requires Sound(env, f.copy) && Reaches(env, Collection, f, t)
    ensures Closes(env, Collection, f, t)
  {
  }

  /** Whatever has happened before a session is denied, as it is by the fifth wrong code charged, its
      code can be compared again if and only if, at that moment, another handler carries it. */
  lemma DenialIsLastExactly(env: Env, steps: seq<Step>, p: nat, t: Time)
    requires p in Reach(env, EMPTY, steps).flights
    requires var f := Reach(env, EMPTY, steps).flights[p]; Handle(env, f.copy, t, f.req).response == DeniedPage
    ensures var w := Reach(env, EMPTY, steps);
      Ahead(env, Comparison, FinishFlight(env, w, p, t), w.flights[p].id, t, 1)
      <==> OthersCarry(env, Comparison, w, p, t)
  {
    var w := Reach(env, EMPTY, steps);
    AlwaysSafe(env, steps);
    DenialCloses(env, w.flights[p], t);
    ClosedExactly(env, Comparison, w, p, t, "");
  }

  lemma DenialCloses(env: Env, f: Flight, t: Time)
    requires Handle(env, f.copy, t, f.req).response == DeniedPage
    ensures Closes(env, Comparison, f, t)
  {
    match f.req
    case Verify(cookie, newLeg) =>
    case Callback(reply, secret, csrf) =>
    case Approve(csrf, code, approve, cookie) =>
    case Poll(verifier) =>
  }
}
