/** The polling client against the broker as it is: everyone's handlers, the client's own among them,
    fetch and write back in separate steps, and stale copies may overwrite what a poll recorded. */
module PollRuns {
  import opened Prelude
  import opened SessionModel
  import opened Interleaving
  import C = Client

  /** A poll with the session's verifier. */
  predicate Own(env: Env, e: Event, terms: Terms) {
    && e.Answered? && e.id == terms.id && e.req.Poll? && env.Verifies(e.req.verifier, terms)
    && e.response.PollAnswer?
  }

  /** The session's polls with its verifier among the first k events, in the order of their answers. */
  function OwnPolls(env: Env, log: seq<Event>, terms: Terms, k: nat): seq<C.Sent>
    requires k <= |log|
  {
    if k == 0 then []
    else
      var (e, earlier) := (log[k - 1], OwnPolls(env, log, terms, k - 1));
      if Own(env, e, terms) then earlier + [C.Sent(e.now, e.response.status)] else earlier
  }

  lemma {:induction false} OwnPollListed(env: Env, log: seq<Event>, terms: Terms, k: nat, j: nat) returns (m: nat)
    requires j < k <= |log| && Own(env, log[j], terms)
    ensures var sent := OwnPolls(env, log, terms, k);
      m < |sent| && sent[m] == C.Sent(log[j].now, log[j].response.status)
  {
    if j == k - 1 {
      m := |OwnPolls(env, log, terms, j)|;
    } else {
      m := OwnPollListed(env, log, terms, k - 1, j);
    }
  }

  lemma {:induction false} SpacedClimbs(sent: seq<C.Sent>, c: Duration, m: nat, n: nat)
    requires C.Spaced(sent, c) && c >= 0 && m <= n < |sent|
    ensures sent[m].at <= sent[n].at
  {
    if m < n {
      SpacedClimbs(sent, c, m, n - 1);
    }
  }

  /** No accepted poll is later than the one the loop counts as its latest. */
  lemma LatestAccepted(terms: Terms, sent: seq<C.Sent>, last: Option<Time>, interval: Duration, m: nat)
    requires C.Going(terms, sent, last, interval) && terms.interval > 0
    requires m < |sent| && sent[m].status == PollPending
    ensures last.Some? && sent[m].at <= last.value
  {
    var c := C.StartingInterval(terms.interval);
    C.StartingIntervalFits(terms.interval);
    var n := if sent[|sent| - 1].status == PollPending then |sent| - 1 else |sent| - 2;
    SpacedClimbs(sent, c, m, n);
  }

  /** What a poll's answer says about the polls before it, whatever copy it was computed from. */
  lemma AnswerIsPaced(env: Env, w: World, terms: Terms, k: nat, last: Option<Time>, interval: Duration)
    requires Safe(env, w) && terms.id in w.started && w.started[terms.id] == terms && terms.interval > 0
    requires k < |w.log| && Own(env, w.log[k], terms)
    requires C.Going(terms, OwnPolls(env, w.log, terms, k), last, interval)
    ensures var e := w.log[k];
      && (e.response.status == PollPending ==> e.now <= terms.expiresAt)
      && (e.response.status == PollSlowDown ==> last.Some? && e.now - last.value < terms.interval)
  {
    var e := w.log[k];
    assert Justified(env, w, k);
    if e.response.status == PollSlowDown {
      var s := e.seen.value;
      assert PollFits(env, e.req.verifier, s, e.now, PollSlowDown, e.response.artifact);
      var j :| 0 <= j < k && Paces(env, w.log[j], s);
      var m := OwnPollListed(env, w.log, terms, k, j);
      LatestAccepted(terms, OwnPolls(env, w.log, terms, k), last, interval, m);
    }
  }

  function IntervalAfter(terms: Terms, sent: seq<C.Sent>): Duration {
    C.Stretched(C.StartingInterval(terms.interval), C.SlowDowns(sent))
  }

  /** One more of them. */
  lemma OneMore(env: Env, w: World, terms: Terms, k: nat, last: Option<Time>) returns (next: Option<Time>)
    requires Safe(env, w) && terms.id in w.started && w.started[terms.id] == terms && terms.interval > 0
    requires k < |w.log| && Own(env, w.log[k], terms)
    requires var sent := OwnPolls(env, w.log, terms, k);
      C.Going(terms, sent, last, IntervalAfter(terms, sent)) && C.MaySend(terms, sent, w.log[k].now)
    ensures var sent := OwnPolls(env, w.log, terms, k + 1);
      C.Promised(terms, sent)
      && (C.InProgress(w.log[k].response.status) ==> C.Going(terms, sent, next, IntervalAfter(terms, sent)))
  {
    var sent := OwnPolls(env, w.log, terms, k);
    var poll := C.Sent(w.log[k].now, w.log[k].response.status);
    AnswerIsPaced(env, w, terms, k, last, IntervalAfter(terms, sent));
    GoingOnPast(terms, sent, last, poll);
    next := if poll.status == PollPending then Some(poll.at) else last;
  }

  lemma GoingOnPast(terms: Terms, sent: seq<C.Sent>, last: Option<Time>, poll: C.Sent)
    requires terms.interval > 0 && C.Going(terms, sent, last, IntervalAfter(terms, sent))
    requires C.MaySend(terms, sent, poll.at)
    requires poll.status == PollPending ==> poll.at <= terms.expiresAt
    requires poll.status == PollSlowDown ==> last.Some? && poll.at - last.value < terms.interval
    ensures var more := sent + [poll];
      && C.Promised(terms, more)
      && (C.InProgress(poll.status) ==>
            C.Going(terms, more, if poll.status == PollPending then Some(poll.at) else last,
                    IntervalAfter(terms, more)))
  {
    C.PollKeepsPromise(terms, sent, last, IntervalAfter(terms, sent), poll);
  }

  lemma {:induction false} RunKeepsGoing(env: Env, w: World, terms: Terms, k: nat) returns (last: Option<Time>)
    requires Safe(env, w) && terms.id in w.started && w.started[terms.id] == terms && terms.interval > 0
    requires k <= |w.log|
    requires var sent := OwnPolls(env, w.log, terms, k);
      C.Disciplined(terms, sent) && forall i | 0 <= i < |sent| :: C.InProgress(sent[i].status)
    ensures var sent := OwnPolls(env, w.log, terms, k); C.Going(terms, sent, last, IntervalAfter(terms, sent))
  {
    if k == 0 {
      last := None;
    } else if !Own(env, w.log[k - 1], terms) {
      last := RunKeepsGoing(env, w, terms, k - 1);
    } else {
      var sent := OwnPolls(env, w.log, terms, k - 1);
      var poll := C.Sent(w.log[k - 1].now, w.log[k - 1].response.status);
      C.DisciplinedBefore(terms, sent, poll);
      assert (sent + [poll])[|sent|] == poll;
      last := RunKeepsGoing(env, w, terms, k - 1);
      last := OneMore(env, w, terms, k - 1, last);
    }
  }

  lemma {:induction false} RunKeepsPromise(env: Env, w: World, terms: Terms, k: nat)
    requires Safe(env, w) && terms.id in w.started && w.started[terms.id] == terms && terms.interval > 0
    requires k <= |w.log| && C.Disciplined(terms, OwnPolls(env, w.log, terms, k))
    ensures C.Promised(terms, OwnPolls(env, w.log, terms, k))
  {
    if k > 0 {
      if Own(env, w.log[k - 1], terms) {
        var poll := C.Sent(w.log[k - 1].now, w.log[k - 1].response.status);
        C.DisciplinedBefore(terms, OwnPolls(env, w.log, terms, k - 1), poll);
        var last := RunKeepsGoing(env, w, terms, k - 1);
        last := OneMore(env, w, terms, k - 1, last);
      } else {
        RunKeepsPromise(env, w, terms, k - 1);
      }
    }
  }

  /** However the handlers of everyone interleave, and whatever they overwrite: if the polls with a
      session's verifier wait out the client's interval, at most two are told to slow down, none for
      an interval of whole seconds or under one, and they stay within the client's budget. */
  lemma PromiseUnderInterleaving(env: Env, steps: seq<Step>, terms: Terms)
    requires var w := Reach(env, EMPTY, steps);
      terms.id in w.started && w.started[terms.id] == terms && terms.interval > 0
    requires var log := Reach(env, EMPTY, steps).log; C.Disciplined(terms, OwnPolls(env, log, terms, |log|))
    ensures var log := Reach(env, EMPTY, steps).log;
      var sent := OwnPolls(env, log, terms, |log|);
      C.Promised(terms, sent) && C.InBudget(terms, sent)
  {
    var w := Reach(env, EMPTY, steps);
    AlwaysSafe(env, steps);
    RunKeepsPromise(env, w, terms, |w.log|);
    C.PromisedInBudget(terms, OwnPolls(env, w.log, terms, |w.log|));
  }
}
