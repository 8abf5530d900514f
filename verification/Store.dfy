/** The two session stores. Memory maps ids to session objects; Redis maps ids to values with a
    deadline. Both implement one plain map from ids to session values. */
module Store {
  import opened Prelude
  import opened SessionModel
  import opened Handlers

  type Sessions = map<string, SessionData>

  function Sweeping(m: Sessions, now: Time): Sessions {
    map id | id in m && !SweptAt(m[id], now) :: m[id]
  }

  class Memory {
    var sessions: map<string, Session>

    /** Sessions are filed under their own ids. */
    ghost predicate Valid()
      reads this, sessions.Values
    {
      forall id | id in sessions :: sessions[id].terms.id == id
    }

    ghost function Contents(): Sessions
      reads this, sessions.Values
    {
      map id | id in sessions :: sessions[id].Value()
    }

    constructor ()
      ensures Valid() && Contents() == map[]
      ensures sessions == map[]
    {
      sessions := map[];
    }

    /** Files the caller's own object: from here on the caller and the store share it. */
    method Create(s: Session)
      requires Valid()
      modifies this
      ensures Valid() && Contents() == old(Contents())[s.terms.id := s.Value()]
      ensures sessions == old(sessions)[s.terms.id := s]
      ensures forall now :: (Contents(), Ok(true)) == MemoryApply(old(Contents()), CreateOp(s.Value()), now)
    {
      sessions := sessions[s.terms.id := s];
    }

    /** A copy of the caller's own. */
    method Get(id: string) returns (found: bool, s: Session?)
      requires Valid()
      ensures found <==> id in Contents()
      ensures found <==> s != null
      ensures found ==> fresh(s) && s.Value() == Contents()[id]
      ensures var got := if found then Some(s.Value()) else None;
        forall now :: (Contents(), Found(got)) == MemoryApply(old(Contents()), GetOp(id), now)
      ensures Valid() && sessions == old(sessions) && Contents() == old(Contents())
    {
      if id !in sessions {
        return false, null;
      }
      s := new Session.Copy(sessions[id]);
      return true, s;
    }

    /** Files a copy, so the caller's object stays its own; only sessions already there are replaced. */
    method Update(s: Session) returns (found: bool)
      requires Valid()
      modifies this
      ensures Valid()
      ensures found <==> s.terms.id in old(Contents())
      ensures Contents() == if found then old(Contents())[s.terms.id := s.Value()] else old(Contents())
      ensures forall now :: (Contents(), Ok(found)) == MemoryApply(old(Contents()), UpdateOp(s.Value()), now)
      ensures if found then sessions.Keys == old(sessions).Keys && fresh(sessions[s.terms.id])
                            && sessions == old(sessions)[s.terms.id := sessions[s.terms.id]]
              else sessions == old(sessions)
    {
      if s.terms.id !in sessions {
        return false;
      }
      var copy := new Session.Copy(s);
      sessions := sessions[s.terms.id := copy];
      return true;
    }

    /** Visits every session and deletes those kept twice their lifetime. */
    method Sweep(now: Time)
      requires Valid()
      modifies this
      ensures Valid() && Contents() == Sweeping(old(Contents()), now)
      ensures (Contents(), Ok(true)) == MemoryApply(old(Contents()), SweepOp, now)
      ensures sessions.Values <= old(sessions).Values
    {
      ghost var was := Contents();
      var todo := sessions.Keys;
      while todo != {}
        invariant todo <= sessions.Keys <= was.Keys
        invariant forall id | id in sessions :: id in old(sessions) && sessions[id] == old(sessions)[id]
        invariant forall id | id in was :: id in sessions <==> id in todo || !SweptAt(was[id], now)
        decreases todo
      {
        var id :| id in todo;
        var s := sessions[id];
        assert s.Value() == was[id];
        if now > KeptUntil(s.terms) {
          sessions := sessions - {id};
        }
        todo := todo - {id};
      }
    }
  }

  /** Create shares the caller's object: a caller that mutates it afterwards mutates the store.
      Get and Update do not: see Memory.Get and Memory.Update. */
  method MutateAfterCreate(m: Memory, s: Session)
    requires m.Valid() && s.state != Denied
    modifies m, s
    ensures m.Valid() && m.Contents() != old(m.Contents())[s.terms.id := old(s.Value())]
    ensures s.terms.id in m.Contents() && m.Contents()[s.terms.id].state == Denied
  {
    m.Create(s);
    s.state := Denied;
    assert m.Contents()[s.terms.id].state == Denied;
  }

  /** A caller that mutates what Get returned, or what it passed to Update, does not. */
  method MutateAfterGet(m: Memory, id: string, state: State)
    requires m.Valid() && id in m.Contents()
    modifies m
    ensures m.Valid() && m.Contents() == old(m.Contents())
  {
    var _, s := m.Get(id);
    var stored := m.Update(s);
    assert m.Contents() == old(m.Contents());
    s.state := state;
  }

  // ----- Redis -------------------------------------------------------------

  datatype Stored = Stored(value: SessionData, deadline: Time)

  predicate Held(m: map<string, Stored>, id: string, now: Time) {
    id in m && now < m[id].deadline
  }

  /** The deadline a write sets: the end of the grace window, or a minute once that is past. */
  function Deadline(terms: Terms, now: Time): Time {
    var ttl := KeptUntil(terms) - now;
    now + if ttl <= 0 then MINUTE else ttl
  }

  class Redis {
    var entries: map<string, Stored>

    ghost function Contents(now: Time): Sessions
      reads this
    {
      map id | id in entries && Held(entries, id, now) :: entries[id].value
    }

    constructor ()
      ensures entries == map[]
    {
      entries := map[];
    }

    method Write(s: SessionData, now: Time)
      modifies this
      ensures entries == old(entries)[s.terms.id := Stored(s, Deadline(s.terms, now))]
      ensures Contents(now) == old(Contents(now))[s.terms.id := s]
    {
      var ttl := KeptUntil(s.terms) - now;
      if ttl <= 0 {
        ttl := MINUTE;
      }
      entries := entries[s.terms.id := Stored(s, now + ttl)];
    }

    method Create(s: SessionData, now: Time)
      modifies this
      ensures entries == RedisApply(old(entries), CreateOp(s), now).0
    {
      Write(s, now);
    }

    method Get(id: string, now: Time) returns (r: Option<SessionData>)
      ensures Found(r) == RedisApply(entries, GetOp(id), now).1
      ensures r == if id in Contents(now) then Some(Contents(now)[id]) else None
    {
      if id in entries && now < entries[id].deadline {
        return Some(entries[id].value);
      }
      return None;
    }

    method Update(s: SessionData, now: Time) returns (found: bool)
      modifies this
      ensures (entries, Ok(found)) == RedisApply(old(entries), UpdateOp(s), now)
    {
      var present := s.terms.id in entries && now < entries[s.terms.id].deadline;
      if !present {
        return false;
      }
      Write(s, now);
      return true;
    }
  }

  // ----- the two stores compared -------------------------------------------

  datatype StoreOp =
    | CreateOp(s: SessionData)
    | GetOp(id: string)
    | UpdateOp(s: SessionData)
    | SweepOp

  datatype StoreResult = Ok(found: bool) | Found(session: Option<SessionData>)

  function MemoryApply(m: Sessions, op: StoreOp, now: Time): (Sessions, StoreResult) {
    match op
    case CreateOp(s) => (m[s.terms.id := s], Ok(true))
    case GetOp(id) => (m, Found(if id in m then Some(m[id]) else None))
    case UpdateOp(s) => if s.terms.id in m then (m[s.terms.id := s], Ok(true)) else (m, Ok(false))
    case SweepOp => (Sweeping(m, now), Ok(true))
  }

  /** Redis has no sweep: a key past its deadline is gone. */
  function RedisApply(m: map<string, Stored>, op: StoreOp, now: Time): (map<string, Stored>, StoreResult) {
    match op
    case CreateOp(s) => (m[s.terms.id := Stored(s, Deadline(s.terms, now))], Ok(true))
    case GetOp(id) => (m, Found(if Held(m, id, now) then Some(m[id].value) else None))
    case UpdateOp(s) =>
      if Held(m, s.terms.id, now) then (m[s.terms.id := Stored(s, Deadline(s.terms, now))], Ok(true))
      else (m, Ok(false))
    case SweepOp => (m, Ok(true))
  }

  function IdOf(op: StoreOp): Option<string> {
    match op
    case CreateOp(s) => Some(s.terms.id)
    case GetOp(id) => Some(id)
    case UpdateOp(s) => Some(s.terms.id)
    case SweepOp => None
  }

  datatype TimedOp = TimedOp(op: StoreOp, now: Time)

  ghost predicate InGrace(all: map<string, Terms>, op: StoreOp, now: Time) {
    IdOf(op).Some? ==> IdOf(op).value in all && now < KeptUntil(all[IdOf(op).value])
  }

  /** Every session written under an id has that id's terms. */
  ghost predicate Uniform(all: map<string, Terms>, op: StoreOp) {
    match op
    case CreateOp(s) => s.terms.id in all && all[s.terms.id] == s.terms
    case UpdateOp(s) => s.terms.id in all && all[s.terms.id] == s.terms
    case GetOp(id) => id in all
    case SweepOp => true
  }

  function MemoryResults(m: Sessions, ops: seq<TimedOp>): seq<StoreResult>
    decreases |ops|
  {
    if ops == [] then []
    else
      var (next, r) := MemoryApply(m, ops[0].op, ops[0].now);
      [r] + MemoryResults(next, ops[1..])
  }

  function RedisResults(m: map<string, Stored>, ops: seq<TimedOp>): seq<StoreResult>
    decreases |ops|
  {
    if ops == [] then []
    else
      var (next, r) := RedisApply(m, ops[0].op, ops[0].now);
      [r] + RedisResults(next, ops[1..])
  }

  /** At time t, the stores hold the same of every session still inside its grace window. */
  ghost predicate SameWithin(all: map<string, Terms>, m: Sessions, r: map<string, Stored>, t: Time) {
    forall id | id in all && t < KeptUntil(all[id]) ::
      && (id in m <==> id in r)
      && (id in m ==> m[id].terms == all[id] && r[id] == Stored(m[id], KeptUntil(all[id])))
  }

  lemma StepStaysSame(all: map<string, Terms>, m: Sessions, r: map<string, Stored>, t: Time, op: StoreOp, now: Time)
    requires SameWithin(all, m, r, t) && t <= now && Uniform(all, op)
    ensures SameWithin(all, MemoryApply(m, op, now).0, RedisApply(r, op, now).0, now)
    ensures InGrace(all, op, now) ==> MemoryApply(m, op, now).1 == RedisApply(r, op, now).1
  {
  }

  /** Memory and Redis give the same result to every operation on a session, whatever happens to
      other sessions and whenever Memory sweeps, up to the end of that session's grace window. */
  lemma {:induction false} StoresAgree(
    all: map<string, Terms>, m: Sessions, r: map<string, Stored>, t: Time, ops: seq<TimedOp>)
    requires SameWithin(all, m, r, t)
    requires forall i | 0 <= i < |ops| :: t <= ops[i].now && Uniform(all, ops[i].op)
    requires forall i, j | 0 <= i < j < |ops| :: ops[i].now <= ops[j].now
    ensures |MemoryResults(m, ops)| == |RedisResults(r, ops)| == |ops|
    ensures forall i | 0 <= i < |ops| ::
      InGrace(all, ops[i].op, ops[i].now) ==> MemoryResults(m, ops)[i] == RedisResults(r, ops)[i]
    decreases |ops|
  {
    if ops != [] {
      var (op, now) := (ops[0].op, ops[0].now);
      StepStaysSame(all, m, r, t, op, now);
      var (m', r') := (MemoryApply(m, op, now).0, RedisApply(r, op, now).0);
      StoresAgree(all, m', r', now, ops[1..]);
      assert MemoryResults(m, ops)[1..] == MemoryResults(m', ops[1..]);
      assert RedisResults(r, ops)[1..] == RedisResults(r', ops[1..]);
      forall i | 0 < i < |ops|
        ensures MemoryResults(m, ops)[i] == MemoryResults(m', ops[1..])[i - 1]
        ensures RedisResults(r, ops)[i] == RedisResults(r', ops[1..])[i - 1]
      {
      }
    }
  }

  // ----- how long they keep a session --------------------------------------

  /** Memory's sweep spares a session up to twice its lifetime, and not from then on. */
  lemma MemoryKeeps(m: Sessions, id: string, ttl: Duration, now: Time)
    requires id in m && m[id].terms.expiresAt == m[id].terms.createdAt + ttl
    ensures var next := MemoryApply(m, SweepOp, now).0;
      && (id in next <==> now <= m[id].terms.createdAt + 2 * ttl)
      && (id in next ==> next[id] == m[id])
  {
  }

  /** Redis finds a session written within that window up to its end, and one written after it for a
      minute. */
  lemma RedisKeeps(m: map<string, Stored>, s: SessionData, ttl: Duration, now: Time, t: Time)
    requires s.terms.expiresAt == s.terms.createdAt + ttl && now <= t
    ensures var end := s.terms.createdAt + 2 * ttl;
      var found := RedisApply(RedisApply(m, CreateOp(s), now).0, GetOp(s.terms.id), t).1;
      && (now < end ==> found == Found(if t < end then Some(s) else None))
      && (now >= end ==> found == Found(if t < now + 60_000_000_000 then Some(s) else None))
  {
  }
}
