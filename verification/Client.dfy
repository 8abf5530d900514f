/** The client's polling loop, run against the broker. */
module Client {
  import opened Prelude
  import opened SessionModel
  import opened Handlers
  import opened SerialRuns

  /** What surrounds one poll: what others do at the broker before it arrives, how late it arrives
      after the timer was set to fire and its answer after that, and whether the caller cancels
      before it or its answer is lost. */
  datatype Turn = Turn(others: seq<Op>, outbound: nat, inbound: nat, cancelled: bool, lost: bool)

  /** Only this client has the verifier. */
  ghost predicate Strangers(env: Env, terms: Terms, ops: seq<Op>) {
    forall i | 0 <= i < |ops| && ops[i].action.Serve? && ops[i].action.req.Poll? ::
      !env.Verifies(ops[i].action.req.verifier, terms)
  }

  datatype Sent = Sent(at: Time, status: PollStatus)

  datatype Outcome =
    | Finished(status: PollStatus, artifact: Option<Artifact>)
    | Cancelled
    | TransportError
    | Rejected

  const DEFAULT_INTERVAL := 3 * SECOND

  /** The interval the client starts with: whole seconds off the wire, three if that is none. */
  function StartingInterval(pollInterval: Duration): Duration {
    FromWire(WholeSeconds(pollInterval))
  }

  function FromWire(seconds: int): Duration {
    if seconds * SECOND <= 0 then DEFAULT_INTERVAL else seconds * SECOND
  }

  lemma StartingIntervalFits(i: Duration)
    requires i > 0
    ensures var c := StartingInterval(i);
      && c >= SECOND && c % SECOND == 0 && i < 2 * c
      && (i % SECOND == 0 || i < SECOND ==> i <= c)
  {
  }

  function SlowDowns(sent: seq<Sent>): nat {
    SlowDownsAmong(sent, |sent|)
  }

  function SlowDownsAmong(sent: seq<Sent>, n: nat): nat
    requires n <= |sent|
  {
    if n == 0 then 0 else SlowDownsAmong(sent, n - 1) + if sent[n - 1].status == PollSlowDown then 1 else 0
  }

  lemma {:induction false} SlowDownsOfPrefix(sent: seq<Sent>, poll: Sent, n: nat)
    requires n <= |sent|
    ensures SlowDownsAmong(sent + [poll], n) == SlowDownsAmong(sent, n)
  {
    if n > 0 {
      SlowDownsOfPrefix(sent, poll, n - 1);
    }
  }

  // ----- what others can do to a poller ------------------------------------

  ghost predicate Paced(env: Env, terms: Terms, cell: Cell, last: Option<Time>) {
    SoundCell(env, cell) && (cell.Some? ==> cell.value.terms == terms && cell.value.lastPollAt == last)
  }

  lemma HandleKeepsPace(env: Env, s: SessionData, now: Time, req: Request)
    requires req.Poll? ==> !env.Verifies(req.verifier, s.terms)
    ensures Handle(env, s, now, req).next.lastPollAt == s.lastPollAt
  {
    match req
    case Verify(cookie, newLeg) =>
    case Callback(reply, secret, csrf) =>
    case Approve(csrf, code, approve, cookie) =>
    case Poll(verifier) =>
  }

  lemma StrangerStep(env: Env, terms: Terms, cell: Cell, last: Option<Time>, op: Op)
    requires Paced(env, terms, cell, last) && Strangers(env, terms, [op])
    ensures Paced(env, terms, Perform(env, cell, op).0, last)
  {
    if cell.Some? && op.action.Serve? {
      assert [op][0] == op;
      HandleKeepsSound(env, cell.value, op.now, op.action.req);
      HandleKeepsPace(env, cell.value, op.now, op.action.req);
    }
  }

  /** Nobody without the verifier moves the time the client's next poll is measured from. */
  lemma {:induction false} StrangersKeepPace(env: Env, terms: Terms, cell: Cell, last: Option<Time>, ops: seq<Op>)
    requires Paced(env, terms, cell, last) && Strangers(env, terms, ops)
    ensures Paced(env, terms, Final(env, cell, ops), last)
    decreases |ops|
  {
    if ops != [] {
      assert Strangers(env, terms, [ops[0]]);
      StrangerStep(env, terms, cell, last, ops[0]);
      StrangersKeepPace(env, terms, Perform(env, cell, ops[0]).0, last, ops[1..]);
    }
  }

  /** The answer to the client's own poll, and what it does to the pacing. */
  ghost predicate OwnAnswer(env: Env, terms: Terms, last: Option<Time>, now: Time, next: Cell, answer: Response) {
    && answer.PollAnswer?
    && match answer.status
       case PollPending =>
         Paced(env, terms, next, Some(now)) && now <= terms.expiresAt
         && (last.Some? ==> now - last.value >= terms.interval)
       case PollSlowDown =>
         Paced(env, terms, next, last) && last.Some? && now - last.value < terms.interval
       case _ => answer.status == PollApproved <==> answer.artifact.Some?
  }

  lemma OwnPoll(env: Env, terms: Terms, cell: Cell, last: Option<Time>, verifier: string, now: Time)
    requires Paced(env, terms, cell, last) && env.Verifies(verifier, terms)
    ensures var (next, answer) := Perform(env, cell, Op(now, Serve(Request.Poll(verifier))));
      answer.Some? && OwnAnswer(env, terms, last, now, next, answer.value)
  {
    if cell.Some? {
      HandleKeepsSound(env, cell.value, now, Request.Poll(verifier));
    }
  }

  predicate InProgress(status: PollStatus) {
    status == PollPending || status == PollSlowDown
  }

  // ----- the loop ----------------------------------------------------------

  /** The latest accepted poll is the latest poll, or the one before a single slow_down. */
  ghost predicate Rhythm(terms: Terms, sent: seq<Sent>, last: Option<Time>) {
    var n := |sent|;
    if n == 0 then last == None
    else if sent[n - 1].status == PollPending then
      last == Some(sent[n - 1].at) && last.value <= terms.expiresAt
    else
      && n >= 2 && sent[n - 1].status == PollSlowDown && sent[n - 2].status == PollPending
      && last == Some(sent[n - 2].at) && last.value <= terms.expiresAt
  }

  /** Polls are at least the starting interval apart. */
  ghost predicate Spaced(sent: seq<Sent>, c: Duration) {
    forall i | 0 < i < |sent| :: sent[i].at - sent[i - 1].at >= c
  }

  /** The client's interval after some slow_downs. */
  function Stretched(c: Duration, slowDowns: nat): Duration {
    if slowDowns == 0 then c
    else
      var i := Stretched(c, slowDowns - 1);
      i + i / 2
  }

  lemma StretchedGrows(c: Duration, n: nat)
    requires c >= 0
    ensures Stretched(c, n) >= c
  {
  }

  /** A slow_down comes only after an accepted poll and with an interval still below the broker's. */
  lemma SlowDownsAreFew(i: Duration, sent: seq<Sent>, last: Time, now: Time, interval: Duration)
    requires i > 0 && sent != [] && now - last < i
    requires var c := StartingInterval(i);
      && interval == Stretched(c, SlowDowns(sent)) && SlowDowns(sent) <= 2
      && now >= sent[|sent| - 1].at + interval
      && (sent[|sent| - 1].status == PollPending ==> last == sent[|sent| - 1].at)
      && (sent[|sent| - 1].status != PollPending ==>
            |sent| >= 2 && sent[|sent| - 1].status == PollSlowDown && last == sent[|sent| - 2].at
            && sent[|sent| - 1].at - sent[|sent| - 2].at >= c)
    ensures sent[|sent| - 1].status == PollPending && SlowDowns(sent) < 2
    ensures i % SECOND != 0 && i > SECOND
  {
    var c := StartingInterval(i);
    StartingIntervalFits(i);
    StretchedGrows(c, SlowDowns(sent));
    assert Stretched(c, 1) == c + c / 2;
    assert Stretched(c, 2) == c + c / 2 + (c + c / 2) / 2;
  }

  /** At most two slow_downs, and none for an interval the wire can carry or the client's default
      covers; polls at least the starting interval apart; and all but the last two before expiry. */
  ghost predicate Promised(terms: Terms, sent: seq<Sent>) {
    && SlowDowns(sent) <= 2
    && (terms.interval % SECOND == 0 || terms.interval < SECOND ==> SlowDowns(sent) == 0)
    && Spaced(sent, StartingInterval(terms.interval))
    && (forall i | 0 <= i < |sent| - 1 :: InProgress(sent[i].status))
    && (|sent| == 2 ==> sent[0].at <= terms.expiresAt)
    && (|sent| >= 3 ==> sent[|sent| - 3].at <= terms.expiresAt)
  }

  /** No more polls than fit between the first and the session's expiry, plus three. */
  ghost predicate InBudget(terms: Terms, sent: seq<Sent>) {
    |sent| <= 1 || (|sent| - 3) * StartingInterval(terms.interval) <= terms.expiresAt - sent[0].at
  }

  lemma {:induction false} SpacedSpan(sent: seq<Sent>, c: Duration, i: nat)
    requires Spaced(sent, c) && i < |sent|
    ensures i * c <= sent[i].at - sent[0].at
  {
    if i > 0 {
      SpacedSpan(sent, c, i - 1);
      assert i * c == (i - 1) * c + c;
    }
  }

  lemma PromisedInBudget(terms: Terms, sent: seq<Sent>)
    requires Promised(terms, sent) && terms.interval > 0
    ensures InBudget(terms, sent)
  {
    var c := StartingInterval(terms.interval);
    StartingIntervalFits(terms.interval);
    if |sent| >= 3 {
      SpacedSpan(sent, c, |sent| - 3);
    } else if |sent| == 2 {
      assert (|sent| - 3) * c == -c;
    }
  }

  lemma NoLessThanOneEach(a: nat, c: nat)
    requires c >= 1
    ensures a <= a * c
  {
  }

  lemma PromisedFinite(terms: Terms, sent: seq<Sent>)
    requires InBudget(terms, sent) && terms.interval > 0 && |sent| > 3
    ensures |sent| - 3 <= terms.expiresAt - sent[0].at
  {
    var c := StartingInterval(terms.interval);
    StartingIntervalFits(terms.interval);
    NoLessThanOneEach(|sent| - 3, c);
  }

  /** The loop goes on. */
  ghost predicate Going(terms: Terms, sent: seq<Sent>, last: Option<Time>, interval: Duration) {
    && Promised(terms, sent)
    && Rhythm(terms, sent, last)
    && interval == Stretched(StartingInterval(terms.interval), SlowDowns(sent))
    && forall i | 0 <= i < |sent| :: InProgress(sent[i].status)
  }

  /** One more poll, at least the current interval after the last. */
  lemma PollKeepsPromise(terms: Terms, sent: seq<Sent>, last: Option<Time>, interval: Duration, poll: Sent)
    requires terms.interval > 0 && Going(terms, sent, last, interval)
    requires sent != [] ==> poll.at >= sent[|sent| - 1].at + interval
    requires poll.status == PollPending ==> poll.at <= terms.expiresAt
    requires poll.status == PollSlowDown ==> last.Some? && poll.at - last.value < terms.interval
    ensures var more := sent + [poll];
      && Promised(terms, more)
      && (poll.status == PollPending ==>
            && Going(terms, more, Some(poll.at), interval)
            && (sent != [] ==> last.value < poll.at))
      && (poll.status == PollSlowDown ==>
            && sent != [] && sent[|sent| - 1].status == PollPending
            && Going(terms, more, last, interval + interval / 2))
  {
    var c := StartingInterval(terms.interval);
    var more := sent + [poll];
    SlowDownsOfPrefix(sent, poll, |sent|);
    StartingIntervalFits(terms.interval);
    StretchedGrows(c, SlowDowns(sent));
    if poll.status == PollSlowDown {
      SlowDownsAreFew(terms.interval, sent, last.value, poll.at, interval);
    }
  }

  /** Where the loop stands: the session, when the timer fires, and the interval. */
  datatype Position = Position(cell: Cell, due: Time, interval: Duration)

  /** What turn k comes to. */
  datatype Verdict = GoesOn(status: PollStatus) | Stops(outcome: Outcome)

  /** One login: the session, its verifier holder, what surrounds each poll, and when it starts. */
  datatype Login = Login(env: Env, verifier: string, terms: Terms, world: nat -> Turn, start: Time)
  {
    /** After k turns that went on. */
    function After(k: nat): Position
      decreases k, 0
    {
      if k == 0 then Position(Some(NewSession(terms)), start, StartingInterval(terms.interval))
      else
        var was := After(k - 1);
        var slowed := VerdictOn(k - 1) == GoesOn(PollSlowDown);
        var longer := if slowed then was.interval + was.interval / 2 else was.interval;
        Position(LeftBy(k - 1), ArrivalOf(k - 1) + world(k - 1).inbound + longer, longer)
    }

    function ArrivalOf(k: nat): Time
      decreases k, 1
    {
      After(k).due + world(k).outbound
    }

    /** The poll of turn k meets what others have left of the session. */
    function Exchanged(k: nat): (Cell, Option<Response>)
      decreases k, 2
    {
      Perform(env, Final(env, After(k).cell, world(k).others), Op(ArrivalOf(k), Serve(Request.Poll(verifier))))
    }

    function LeftBy(k: nat): Cell
      decreases k, 3
    {
      Exchanged(k).0
    }

    function Answered(k: nat): Option<Response>
      decreases k, 3
    {
      Exchanged(k).1
    }

    /** The first reason there is to end the loop, if there is one. */
    function VerdictOn(k: nat): Verdict
      decreases k, 4
    {
      if world(k).cancelled then Stops(Cancelled)
      else if world(k).lost then Stops(TransportError)
      else match Answered(k)
        case Some(PollAnswer(status, artifact)) =>
          if InProgress(status) then GoesOn(status) else Stops(Finished(status, artifact))
        case _ => Stops(Rejected)
    }
  }

  /** A cancelled turn ends the loop before it polls, and a poll that fails before its answer is read. */
  lemma StopsExactly(login: Login, k: nat)
    ensures login.VerdictOn(k) == Stops(Cancelled) <==> login.world(k).cancelled
    ensures login.VerdictOn(k) == Stops(TransportError) <==> !login.world(k).cancelled && login.world(k).lost
  {
  }

  ghost predicate GoneOn(login: Login, n: nat) {
    forall k: nat | k < n :: login.VerdictOn(k).GoesOn?
  }

  /** The polls of n turns that went on. */
  function SentBy(login: Login, n: nat): (sent: seq<Sent>)
    requires GoneOn(login, n)
    ensures |sent| == n
  {
    if n == 0 then [] else SentBy(login, n - 1) + [Sent(login.ArrivalOf(n - 1), login.VerdictOn(n - 1).status)]
  }

  /** The loop ran up to the first turn that stops, polling once a turn when the timer fires. */
  ghost predicate RanOut(login: Login, sent: seq<Sent>, outcome: Outcome) {
    var n := if outcome.Finished? then |sent| - 1 else |sent|;
    && 0 <= n && GoneOn(login, n) && login.VerdictOn(n) == Stops(outcome)
    && sent == SentBy(login, n) + if outcome.Finished? then [Sent(login.ArrivalOf(n), outcome.status)] else []
  }

  lemma TurnGoesOn(login: Login, n: nat, interval: Duration, at: Time, status: PollStatus)
    requires GoneOn(login, n) && at == login.ArrivalOf(n) && interval == login.After(n).interval
    requires login.VerdictOn(n) == GoesOn(status)
    ensures GoneOn(login, n + 1) && SentBy(login, n + 1) == SentBy(login, n) + [Sent(at, status)]
    ensures var longer := if status == PollSlowDown then interval + interval / 2 else interval;
      login.After(n + 1) == Position(login.LeftBy(n), at + login.world(n).inbound + longer, longer)
  {
  }

  // ----- what holds of every such run --------------------------------------

  /** With one client holding the verifier, and any poll interval. */
  ghost predicate OneHolder(login: Login) {
    && login.env.Verifies(login.verifier, login.terms) && login.terms.interval > 0
    && forall k: nat :: Strangers(login.env, login.terms, login.world(k).others)
  }

  /** What turn k does to the pacing, if its answer arrives. */
  lemma TurnAnswer(login: Login, k: nat, last: Option<Time>)
    requires OneHolder(login) && Paced(login.env, login.terms, login.After(k).cell, last)
    ensures var v := login.VerdictOn(k);
      && (v == GoesOn(PollPending) ==>
            OwnAnswer(login.env, login.terms, last, login.ArrivalOf(k), login.LeftBy(k),
                      PollAnswer(PollPending, None)))
      && (v == GoesOn(PollSlowDown) ==>
            OwnAnswer(login.env, login.terms, last, login.ArrivalOf(k), login.LeftBy(k),
                      PollAnswer(PollSlowDown, None)))
      && (v.GoesOn? ==> InProgress(v.status))
      && v != Stops(Rejected)
      && (v.Stops? && v.outcome.Finished? ==>
            && !InProgress(v.outcome.status)
            && (v.outcome.status == PollApproved <==> v.outcome.artifact.Some?))
  {
    var others := login.world(k).others;
    StrangersKeepPace(login.env, login.terms, login.After(k).cell, last, others);
    var (met, now) := (Final(login.env, login.After(k).cell, others), login.ArrivalOf(k));
    OwnPoll(login.env, login.terms, met, last, login.verifier, now);
    assert login.Exchanged(k) == Perform(login.env, met, Op(now, Serve(Request.Poll(login.verifier))));
  }

  /** The loop goes on, and the session it polls is paced accordingly. */
  ghost predicate GoingOn(login: Login, n: nat, last: Option<Time>)
    requires GoneOn(login, n)
  {
    var (p, sent) := (login.After(n), SentBy(login, n));
    && Paced(login.env, login.terms, p.cell, last)
    && Going(login.terms, sent, last, p.interval)
    && (n > 0 ==> p.due >= sent[n - 1].at + p.interval)
  }

  lemma TurnKeepsGoing(login: Login, n: nat, last: Option<Time>)
    requires OneHolder(login) && GoneOn(login, n + 1) && GoingOn(login, n, last)
    ensures GoingOn(login, n + 1, if login.VerdictOn(n).status == PollPending then Some(login.ArrivalOf(n)) else last)
  {
    var (interval, poll) := (login.After(n).interval, Sent(login.ArrivalOf(n), login.VerdictOn(n).status));
    TurnAnswer(login, n, last);
    PollKeepsPromise(login.terms, SentBy(login, n), last, interval, poll);
    TurnGoesOn(login, n, interval, poll.at, poll.status);
  }

  lemma LoopBegins(login: Login)
    ensures GoingOn(login, 0, None)
  {
  }

  lemma {:induction false} RunKeepsGoing(login: Login, n: nat) returns (last: Option<Time>)
    requires OneHolder(login) && GoneOn(login, n)
    ensures GoingOn(login, n, last)
  {
    if n == 0 {
      last := None;
      LoopBegins(login);
    } else {
      var before := RunKeepsGoing(login, n - 1);
      TurnKeepsGoing(login, n - 1, before);
      last := if login.VerdictOn(n - 1).status == PollPending then Some(login.ArrivalOf(n - 1)) else before;
    }
  }

  /** Whatever the latencies and whatever others do, the polls keep the promise and fit the budget,
      and the client is never turned away. */
  lemma EveryRunKeepsPromise(login: Login, sent: seq<Sent>, outcome: Outcome)
    requires OneHolder(login) && RanOut(login, sent, outcome)
    ensures Promised(login.terms, sent) && InBudget(login.terms, sent)
    ensures outcome != Rejected
    ensures outcome.Finished? ==> (outcome.status == PollApproved <==> outcome.artifact.Some?)
  {
    var n := if outcome.Finished? then |sent| - 1 else |sent|;
    var last := RunKeepsGoing(login, n);
    TurnAnswer(login, n, last);
    if outcome.Finished? {
      PollKeepsPromise(login.terms, SentBy(login, n), last, login.After(n).interval,
                       Sent(login.ArrivalOf(n), outcome.status));
    } else {
      assert sent == SentBy(login, n);
    }
    PromisedInBudget(login.terms, sent);
  }

  /** What any client that follows the loop does: it waits out its interval, stretched by the
      slow_downs so far, and polls on only while the login is in progress. */
  ghost predicate Disciplined(terms: Terms, sent: seq<Sent>) {
    |sent| <= 1
    || (Disciplined(terms, sent[..|sent| - 1]) && MaySend(terms, sent[..|sent| - 1], sent[|sent| - 1].at))
  }

  ghost predicate MaySend(terms: Terms, sent: seq<Sent>, at: Time) {
    sent != [] ==>
      && InProgress(sent[|sent| - 1].status)
      && at >= sent[|sent| - 1].at + Stretched(StartingInterval(terms.interval), SlowDowns(sent))
  }

  lemma DisciplineGrows(terms: Terms, sent: seq<Sent>, poll: Sent)
    ensures Disciplined(terms, sent + [poll]) <==> Disciplined(terms, sent) && MaySend(terms, sent, poll.at)
  {
    assert (sent + [poll])[..|sent|] == sent;
  }

  lemma {:induction false} AllButLastInProgress(terms: Terms, sent: seq<Sent>)
    requires Disciplined(terms, sent)
    ensures forall i | 0 <= i < |sent| - 1 :: InProgress(sent[i].status)
  {
    if |sent| > 1 {
      AllButLastInProgress(terms, sent[..|sent| - 1]);
    }
  }

  /** What is known when a disciplined client sends one more. */
  lemma DisciplinedBefore(terms: Terms, sent: seq<Sent>, poll: Sent)
    requires Disciplined(terms, sent + [poll])
    ensures Disciplined(terms, sent) && MaySend(terms, sent, poll.at)
    ensures forall i | 0 <= i < |sent| :: InProgress(sent[i].status)
  {
    DisciplineGrows(terms, sent, poll);
    AllButLastInProgress(terms, sent + [poll]);
    assert forall i | 0 <= i < |sent| :: sent[i] == (sent + [poll])[i];
  }

  lemma MaySendNext(login: Login, n: nat)
    requires OneHolder(login) && GoneOn(login, n)
    ensures MaySend(login.terms, SentBy(login, n), login.ArrivalOf(n))
  {
    var last := RunKeepsGoing(login, n);
  }

  lemma {:induction false} TurnsAreDisciplined(login: Login, n: nat)
    requires OneHolder(login) && GoneOn(login, n)
    ensures Disciplined(login.terms, SentBy(login, n))
  {
    if n > 0 {
      var poll := Sent(login.ArrivalOf(n - 1), login.VerdictOn(n - 1).status);
      TurnsAreDisciplined(login, n - 1);
      MaySendNext(login, n - 1);
      DisciplineGrows(login.terms, SentBy(login, n - 1), poll);
    }
  }

  lemma EveryRunIsDisciplined(login: Login, sent: seq<Sent>, outcome: Outcome)
    requires OneHolder(login) && RanOut(login, sent, outcome)
    ensures Disciplined(login.terms, sent)
  {
    var n := if outcome.Finished? then |sent| - 1 else |sent|;
    TurnsAreDisciplined(login, n);
    if outcome.Finished? {
      MaySendNext(login, n);
      DisciplineGrows(login.terms, SentBy(login, n), Sent(login.ArrivalOf(n), outcome.status));
    } else {
      assert sent == SentBy(login, n);
    }
  }

  function Limit(login: Login): nat {
    3 + if login.ArrivalOf(0) <= login.terms.expiresAt then login.terms.expiresAt - login.ArrivalOf(0) else 0
  }

  lemma RunsAreFinite(login: Login, n: nat)
    requires OneHolder(login) && GoneOn(login, n)
    ensures n <= Limit(login)
  {
    if n > 3 {
      var last := RunKeepsGoing(login, n);
      PromisedInBudget(login.terms, SentBy(login, n));
      PromisedFinite(login.terms, SentBy(login, n));
      FirstSent(login, n);
    }
  }

  lemma {:induction false} FirstSent(login: Login, n: nat)
    requires GoneOn(login, n) && n > 0
    ensures SentBy(login, n)[0].at == login.ArrivalOf(0)
  {
    if n > 1 {
      FirstSent(login, n - 1);
    }
  }

  // ----- the loop itself ---------------------------------------------------

  /** What the client makes of one exchange: an answer's status and artifact, or an error. */
  datatype Reply = Got(status: PollStatus, artifact: Option<Artifact>) | Failed(error: Outcome)

  ghost predicate ReplyFits(login: Login, k: nat, reply: Reply) {
    login.VerdictOn(k) ==
      if reply.Failed? then Stops(reply.error)
      else if InProgress(reply.status) then GoesOn(reply.status)
      else Stops(Finished(reply.status, reply.artifact))
  }

  lemma ReplyEnds(login: Login, n: nat, at: Time, reply: Reply)
    requires GoneOn(login, n) && at == login.ArrivalOf(n) && ReplyFits(login, n, reply)
    ensures var sent := SentBy(login, n);
      && (reply.Failed? && !reply.error.Finished? ==> RanOut(login, sent, reply.error))
      && (reply.Got? && !InProgress(reply.status) ==>
            RanOut(login, sent + [Sent(at, reply.status)], Finished(reply.status, reply.artifact)))
  {
    assert SentBy(login, n) + [] == SentBy(login, n);
  }

  lemma VerdictOfAnswer(login: Login, k: nat, answer: Response)
    requires !login.world(k).cancelled && login.Exchanged(k).1 == Some(answer)
    ensures login.VerdictOn(k) ==
      if login.world(k).lost then Stops(TransportError)
      else if !answer.PollAnswer? then Stops(Rejected)
      else if InProgress(answer.status) then GoesOn(answer.status)
      else Stops(Finished(answer.status, answer.artifact))
  {
  }

  method PollOnce(login: Login, k: nat, cell: Cell, due: Time) returns (next: Cell, at: Time, reply: Reply)
    requires !login.world(k).cancelled && cell == login.After(k).cell && due == login.After(k).due
    ensures next == login.LeftBy(k) && at == login.ArrivalOf(k)
    ensures ReplyFits(login, k, reply) && (reply.Failed? ==> !reply.error.Finished?)
  {
    var turn := login.world(k);
    at := due + turn.outbound;
    var met := Final(login.env, cell, turn.others);
    var (after, answer) := Perform(login.env, met, Op(at, Serve(Request.Poll(login.verifier))));
    assert login.Exchanged(k) == (after, answer);
    next := after;
    VerdictOfAnswer(login, k, answer.value);
    if turn.lost {
      reply := Failed(TransportError);
    } else if answer.value.PollAnswer? {
      reply := Got(answer.value.status, answer.value.artifact);
    } else {
      reply := Failed(Rejected);
    }
  }

  /** The loop ends, for the first reason there is, having polled just when its timer fired. */
  method Poll(login: Login) returns (outcome: Outcome, sent: seq<Sent>)
    requires OneHolder(login)
    ensures RanOut(login, sent, outcome)
  {
    var interval := WholeSeconds(login.terms.interval) * SECOND;
    if interval <= 0 {
      interval := DEFAULT_INTERVAL;
    }
    var cell: Cell := Some(NewSession(login.terms));
    var due := login.start;
    sent := [];
    while true
      invariant GoneOn(login, |sent|) && sent == SentBy(login, |sent|)
      invariant Position(cell, due, interval) == login.After(|sent|)
      decreases Limit(login) - |sent|
    {
      RunsAreFinite(login, |sent|);
      var k := |sent|;
      if login.world(k).cancelled {
        ReplyEnds(login, k, login.ArrivalOf(k), Failed(Cancelled));
        outcome := Cancelled;
        break;
      }
      var at, reply;
      cell, at, reply := PollOnce(login, k, cell, due);
      ReplyEnds(login, k, at, reply);
      if reply.Failed? {
        outcome := reply.error;
        break;
      }
      sent := sent + [Sent(at, reply.status)];
      if !InProgress(reply.status) {
        outcome := Finished(reply.status, reply.artifact);
        break;
      }
      TurnGoesOn(login, k, interval, at, reply.status);
      if reply.status == PollSlowDown {
        interval := interval + interval / 2;
      }
      due := at + login.world(k).inbound + interval;
    }
  }
}
