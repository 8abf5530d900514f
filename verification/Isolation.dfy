/** Sessions whose own handlers do not overlap: each runs as if it were served alone, however the
    handlers of other sessions interleave with its own and with one another. */
module Isolation {
  import opened Prelude
  import opened SessionModel
  import opened Handlers
  import opened SerialRuns
  import opened Interleaving

  /** This step does not make handlers of session id overlap, nor evict it under one of them. */
  predicate Apart(w: World, step: Step, id: string) {
    match step
    case Fetch(_, fetched, _, _) => fetched == id ==> forall h | h in w.flights :: w.flights[h].id != id
    case SweepStore(now) => forall h | h in w.flights :: w.flights[h].id == id ==> !SweptAt(w.flights[h].copy, now)
    case _ => true
  }

  predicate NonOverlapping(env: Env, w: World, steps: seq<Step>, id: string)
    decreases |steps|
  {
    steps != [] ==> Apart(w, steps[0], id) && NonOverlapping(env, Next(env, w, steps[0]), steps[1..], id)
  }

  function OpsWith(earlier: seq<Op>, e: Event, id: string): seq<Op> {
    match e
    case Started(terms) => if terms.id == id then [] else earlier
    case Answered(i, now, req, _, _) => if i == id then earlier + [Op(now, Serve(req))] else earlier
    case Swept(now) => earlier + [Op(now, Sweep)]
  }

  /** An operation on a session, the session it met, and its answer. */
  datatype Exchange = Exchange(op: Op, met: Cell, response: Option<Response>)

  function ExchangesWith(earlier: seq<Exchange>, e: Event, id: string): seq<Exchange> {
    match e
    case Started(terms) => if terms.id == id then [] else earlier
    case Answered(i, now, req, seen, response) =>
      if i == id then earlier + [Exchange(Op(now, Serve(req)), seen, Some(response))] else earlier
    case Swept(_) => earlier
  }

  /** The operations on one session since it started, in the order in which they were answered. */
  function OpsOf(log: seq<Event>, id: string): seq<Op> {
    if log == [] then [] else OpsWith(OpsOf(log[..|log| - 1], id), log[|log| - 1], id)
  }

  /** Its requests, the session each was answered from, and the answers. */
  function ExchangesOf(log: seq<Event>, id: string): seq<Exchange> {
    if log == [] then [] else ExchangesWith(ExchangesOf(log[..|log| - 1], id), log[|log| - 1], id)
  }

  function Served(e: Entry): seq<Exchange> {
    if e.op.action.Serve? then [Exchange(e.op, e.before, e.response)] else []
  }

  /** The same of a serial run. */
  function ExchangesIn(log: seq<Entry>): seq<Exchange> {
    if log == [] then [] else Served(log[0]) + ExchangesIn(log[1..])
  }

  lemma {:induction false} ExchangesAppend(log: seq<Entry>, e: Entry)
    ensures ExchangesIn(log + [e]) == ExchangesIn(log) + Served(e)
  {
    if log == [] {
      assert [e][1..] == [];
    } else {
      assert (log + [e])[1..] == log[1..] + [e];
      ExchangesAppend(log[1..], e);
    }
  }

  function CellOf(w: World, id: string): Cell {
    if id in w.store then Some(w.store[id]) else None
  }

  /** Session id, seen on its own, is in the state of a serial run of its own operations, with the
      same requests met and answered in the same way. */
  ghost predicate RunsAlone(env: Env, w: World, id: string)
    requires id in w.started
  {
    var start := Some(NewSession(w.started[id]));
    && CellOf(w, id) == Final(env, start, OpsOf(w.log, id))
    && ExchangesOf(w.log, id) == ExchangesIn(Play(env, start, OpsOf(w.log, id)))
  }

  /** At most one handler of session id is in flight, and its copy is current. */
  ghost predicate Tidy(w: World, id: string) {
    && (id in w.store ==> id in w.started && w.store[id].terms == w.started[id])
    && (id in w.started ==> w.started[id].id == id)
    && (forall h | h in w.flights ::
          w.flights[h].id == id ==> id in w.started && CellOf(w, id) == Some(w.flights[h].copy))
    && (forall h, k | h in w.flights && k in w.flights && h != k ::
          w.flights[h].id == id ==> w.flights[k].id != id)
  }

  ghost predicate Serial(env: Env, w: World, id: string) {
    Tidy(w, id) && (id in w.started ==> RunsAlone(env, w, id))
  }

  /** One more operation on session id is one more step of its serial run. */
  lemma AloneAfter(env: Env, w: World, v: World, id: string, op: Op)
    requires id in w.started && RunsAlone(env, w, id)
    requires id in v.started && v.started[id] == w.started[id]
    requires OpsOf(v.log, id) == OpsOf(w.log, id) + [op]
    requires CellOf(v, id) == Perform(env, CellOf(w, id), op).0
    requires ExchangesOf(v.log, id) == ExchangesOf(w.log, id) + Served(Record(env, CellOf(w, id), op))
    ensures RunsAlone(env, v, id)
  {
    var start := Some(NewSession(w.started[id]));
    PlayAppend(env, start, OpsOf(w.log, id), op);
    ExchangesAppend(Play(env, start, OpsOf(w.log, id)), Record(env, CellOf(w, id), op));
  }

  lemma LogAppend(log: seq<Event>, e: Event, id: string)
    ensures OpsOf(log + [e], id) == OpsWith(OpsOf(log, id), e, id)
    ensures ExchangesOf(log + [e], id) == ExchangesWith(ExchangesOf(log, id), e, id)
  {
    assert (log + [e])[..|log + [e]| - 1] == log;
  }

  lemma AloneUnchanged(env: Env, w: World, v: World, id: string)
    requires id in w.started && RunsAlone(env, w, id)
    requires id in v.started && v.started[id] == w.started[id] && CellOf(v, id) == CellOf(w, id)
    requires OpsOf(v.log, id) == OpsOf(w.log, id) && ExchangesOf(v.log, id) == ExchangesOf(w.log, id)
    ensures RunsAlone(env, v, id)
  {
  }

  lemma StepKeepsTidy(env: Env, w: World, step: Step, id: string)
    requires Tidy(w, id) && Apart(w, step, id)
    ensures Tidy(Next(env, w, step), id)
  {
    match step {
      case Start(terms) =>
      case Fetch(h, fetched, req, now) =>
      case Finish(h, now) =>
        if h in w.flights {
          HandleKeepsTerms(env, w.flights[h].copy, now, w.flights[h].req);
        }
      case SweepStore(now) =>
    }
  }

  lemma StartKeepsAlone(env: Env, w: World, terms: Terms, id: string)
    requires Serial(env, w, id) && terms.id !in w.started && id in Next(env, w, Start(terms)).started
    ensures RunsAlone(env, Next(env, w, Start(terms)), id)
  {
    var v := Next(env, w, Start(terms));
    LogAppend(w.log, Started(terms), id);
    if id != terms.id {
      AloneUnchanged(env, w, v, id);
    }
  }

  lemma FetchKeepsAlone(env: Env, w: World, h: nat, fetched: string, req: Request, now: Time, id: string)
    requires Serial(env, w, id) && h !in w.flights && id in w.started
    ensures RunsAlone(env, Next(env, w, Fetch(h, fetched, req, now)), id)
  {
    var v := Next(env, w, Fetch(h, fetched, req, now));
    if fetched !in w.store {
      LogAppend(w.log, Answered(fetched, now, req, None, Missing(req)), id);
      if id == fetched {
        AloneAfter(env, w, v, id, Op(now, Serve(req)));
        return;
      }
    }
    AloneUnchanged(env, w, v, id);
  }

  lemma FinishKeepsAlone(env: Env, w: World, h: nat, now: Time, id: string)
    requires Serial(env, w, id) && h in w.flights && id in w.started
    ensures RunsAlone(env, FinishFlight(env, w, h, now), id)
  {
    var v := FinishFlight(env, w, h, now);
    var f := w.flights[h];
    var op := Op(now, Serve(f.req));
    var (after, response) := Perform(env, Some(f.copy), op);
    var event := v.log[|w.log|];
    LogAppend(w.log, event, id);
    if id == f.id {
      assert CellOf(w, f.id) == Some(f.copy);
      assert v.log == w.log + [event];
      AloneAfter(env, w, v, id, op);
    } else {
      AloneUnchanged(env, w, v, id);
    }
  }

  lemma SweepKeepsAlone(env: Env, w: World, now: Time, id: string)
    requires Serial(env, w, id) && id in w.started
    ensures RunsAlone(env, Next(env, w, SweepStore(now)), id)
  {
    LogAppend(w.log, Swept(now), id);
    AloneAfter(env, w, Next(env, w, SweepStore(now)), id, Op(now, Sweep));
  }

  lemma StepKeepsSerial(env: Env, w: World, step: Step, id: string)
    requires Serial(env, w, id) && Apart(w, step, id)
    ensures Serial(env, Next(env, w, step), id)
  {
    StepKeepsTidy(env, w, step, id);
    if id in Next(env, w, step).started {
      match step {
        case Start(terms) => if terms.id !in w.started { StartKeepsAlone(env, w, terms, id); }
        case Fetch(h, fetched, req, now) => if h !in w.flights { FetchKeepsAlone(env, w, h, fetched, req, now, id); }
        case Finish(h, now) => if h in w.flights { FinishKeepsAlone(env, w, h, now, id); }
        case SweepStore(now) => SweepKeepsAlone(env, w, now, id);
      }
    }
  }

  lemma {:induction false} ReachKeepsSerial(env: Env, w: World, steps: seq<Step>, id: string)
    requires Serial(env, w, id) && NonOverlapping(env, w, steps, id)
    ensures Serial(env, Reach(env, w, steps), id)
    decreases |steps|
  {
    if steps != [] {
      StepKeepsSerial(env, w, steps[0], id);
      ReachKeepsSerial(env, Next(env, w, steps[0]), steps[1..], id);
    }
  }

  /** If a session's own handlers do not overlap, and it is not evicted under one of them, then
      however all other handlers interleave it ends as if it had been served alone, with the same
      requests met and answered in the same way. */
  lemma Serialisable(env: Env, steps: seq<Step>, id: string)
    requires NonOverlapping(env, EMPTY, steps, id)
    requires id in Reach(env, EMPTY, steps).started
    ensures RunsAlone(env, Reach(env, EMPTY, steps), id)
  {
    ReachKeepsSerial(env, EMPTY, steps, id);
  }

  function ReleasesIn(xs: seq<Exchange>): nat {
    if xs == [] then 0
    else Bit(xs[0].response.Some? && IsRelease(xs[0].response.value)) + ReleasesIn(xs[1..])
  }

  function ComparisonsIn(env: Env, xs: seq<Exchange>): nat {
    if xs == [] then 0 else Bit(Compares(env, xs[0].met, xs[0].op)) + ComparisonsIn(env, xs[1..])
  }

  lemma {:induction false} CountsAppend(env: Env, xs: seq<Exchange>, x: Exchange)
    ensures ReleasesIn(xs + [x]) == ReleasesIn(xs) + Bit(x.response.Some? && IsRelease(x.response.value))
    ensures ComparisonsIn(env, xs + [x]) == ComparisonsIn(env, xs) + Bit(Compares(env, x.met, x.op))
  {
    if xs == [] {
      assert [x][1..] == [] && xs + [x] == [x];
    } else {
      assert (xs + [x])[1..] == xs[1..] + [x];
      CountsAppend(env, xs[1..], x);
    }
  }

  lemma {:induction false} CountsCarryOver(env: Env, cell: Cell, ops: seq<Op>)
    ensures var (log, xs) := (Play(env, cell, ops), ExchangesIn(Play(env, cell, ops)));
      ReleasesIn(xs) == Releases(log) && ComparisonsIn(env, xs) == Comparisons(env, log)
    decreases |ops|
  {
    if ops != [] {
      var log := Play(env, cell, ops);
      var next := Perform(env, cell, ops[0]).0;
      CountsCarryOver(env, next, ops[1..]);
      assert log[1..] == Play(env, next, ops[1..]);
      if ops[0].action.Serve? {
        assert ExchangesIn(log)[1..] == ExchangesIn(log[1..]);
      } else {
        assert ExchangesIn(log) == ExchangesIn(log[1..]);
      }
    }
  }

  /** Hence single use needs no more than that: a session whose handlers do not overlap is collected
      at most once, whatever happens to other sessions. */
  lemma CollectedOnce(env: Env, steps: seq<Step>, id: string)
    requires NonOverlapping(env, EMPTY, steps, id)
    requires id in Reach(env, EMPTY, steps).started
    ensures ReleasesIn(ExchangesOf(Reach(env, EMPTY, steps).log, id)) <= 1
  {
    var w := Reach(env, EMPTY, steps);
    Serialisable(env, steps, id);
    CountsCarryOver(env, Some(NewSession(w.started[id])), OpsOf(w.log, id));
    SingleUse(env, w.started[id], OpsOf(w.log, id));
  }

  /** And so do the accounts of code comparisons. */
  lemma ComparedFiveTimes(env: Env, steps: seq<Step>, id: string)
    requires NonOverlapping(env, EMPTY, steps, id)
    requires id in Reach(env, EMPTY, steps).started
    ensures var w := Reach(env, EMPTY, steps);
      var n := ComparisonsIn(env, ExchangesOf(w.log, id));
      && n <= MAX_APPROVE_ATTEMPTS
      && (id in w.store ==> n == w.store[id].approveAttempts + Bit(w.store[id].state.Approved?))
  {
    var w := Reach(env, EMPTY, steps);
    Serialisable(env, steps, id);
    CountsCarryOver(env, Some(NewSession(w.started[id])), OpsOf(w.log, id));
    AttemptAccounting(env, w.started[id], OpsOf(w.log, id));
  }

  /** t is s, or s further on. */
  predicate NotBack(s: State, t: State) {
    s == t || Rank(s) < Rank(t)
  }

  lemma StepNotBack(env: Env, w: World, step: Step, id: string)
    requires Tidy(w, id) && Apart(w, step, id) && id in w.store && id in Next(env, w, step).store
    ensures NotBack(w.store[id].state, Next(env, w, step).store[id].state)
  {
    if step.Finish? && step.handler in w.flights {
      var f := w.flights[step.handler];
      StepClimbs(env, Some(f.copy), Op(step.now, Serve(f.req)));
    }
  }

  lemma {:induction false} ReachNotBack(env: Env, w: World, steps: seq<Step>, id: string)
    requires Tidy(w, id) && NonOverlapping(env, w, steps, id) && id in w.store && id in Reach(env, w, steps).store
    ensures NotBack(w.store[id].state, Reach(env, w, steps).store[id].state)
    decreases |steps|
  {
    if steps != [] {
      var v := Next(env, w, steps[0]);
      StepKeepsTidy(env, w, steps[0], id);
      if id in v.store {
        StepNotBack(env, w, steps[0], id);
        ReachNotBack(env, v, steps[1..], id);
      } else {
        GoneForGood(env, v, steps[1..], id);
      }
    }
  }

  /** A session once started and gone is never stored again. */
  lemma {:induction false} GoneForGood(env: Env, w: World, steps: seq<Step>, id: string)
    requires id in w.started && id !in w.store
    ensures id !in Reach(env, w, steps).store
    decreases |steps|
  {
    if steps != [] {
      GoneForGood(env, Next(env, w, steps[0]), steps[1..], id);
    }
  }

  lemma {:induction false} Midway(env: Env, w: World, before: seq<Step>, after: seq<Step>, id: string)
    requires Tidy(w, id) && NonOverlapping(env, w, before + after, id)
    ensures var v := Reach(env, w, before);
      Tidy(v, id) && NonOverlapping(env, v, after, id) && Reach(env, w, before + after) == Reach(env, v, after)
    decreases |before|
  {
    if before == [] {
      assert before + after == after;
    } else {
      StepKeepsTidy(env, w, before[0], id);
      assert (before + after)[1..] == before[1..] + after;
      Midway(env, Next(env, w, before[0]), before[1..], after, id);
    }
  }

  /** And so does finality: between any two moments of the run the state stays or climbs, so a
      terminal state never changes. */
  lemma StateNeverFallsBack(env: Env, before: seq<Step>, after: seq<Step>, id: string)
    requires NonOverlapping(env, EMPTY, before + after, id)
    requires id in Reach(env, EMPTY, before).store && id in Reach(env, EMPTY, before + after).store
    ensures var (v, w) := (Reach(env, EMPTY, before), Reach(env, EMPTY, before + after));
      NotBack(v.store[id].state, w.store[id].state)
  {
    Midway(env, EMPTY, before, after, id);
    ReachNotBack(env, Reach(env, EMPTY, before), after, id);
  }
}
