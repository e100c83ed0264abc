/** The session store: Redis when it can be reached, and the process's own dictionaries
    (backend/core/token_blocklist.py). */
module Sessions {
  import opened Values

  datatype Session = Session(employeeId: string, username: string, fullName: string, expiresAt: real)

  /** A Redis key with its own expiry. */
  datatype Keyed<T> = Keyed(value: T, until: real)

  /** How one operation finds Redis: unreachable, failing before it applies the command,
      failing after it, or working. */
  datatype Link = Down | Broken | ReplyLost | Up

  datatype State = State(
    localSessions: map<string, Session>, localRevoked: map<string, real>,
    remoteSessions: map<string, Keyed<Session>>, remoteRevoked: map<string, real>)

  datatype Reply = Returned(session: Option<Session>) | Done | Unavailable

  function Deadline(now: real, ttl: int): real { now + (if ttl < 1 then 1 else ttl) as real }

  /** `_clean_local`. */
  function Clean(s: State, now: real): State {
    s.(localSessions := map k | k in s.localSessions && s.localSessions[k].expiresAt > now :: s.localSessions[k],
       localRevoked := map k | k in s.localRevoked && s.localRevoked[k] > now :: s.localRevoked[k])
  }

  function DenyLocally(s: State, id: string, ttl: int, now: real): State {
    var c := Clean(s, now);
    c.(localSessions := c.localSessions - {id}, localRevoked := c.localRevoked[id := Deadline(now, ttl)])
  }

  function KeepLocally(s: State, id: string, session: Session, now: real): State {
    var c := Clean(s, now);
    c.(localSessions := c.localSessions[id := session], localRevoked := c.localRevoked - {id})
  }

  function RevokeRemotely(s: State, id: string, ttl: int, now: real): State {
    s.(remoteRevoked := s.remoteRevoked[id := Deadline(now, ttl)], remoteSessions := s.remoteSessions - {id})
  }

  function StoreRemotely(s: State, id: string, session: Session, ttl: int, now: real): State {
    s.(remoteSessions := s.remoteSessions[id := Keyed(session, Deadline(now, ttl))])
  }

  function Reaches(link: Link): bool { link.Up? || link.ReplyLost? }

  function Store(s: State, id: string, session: Session, ttl: int, link: Link, fallback: bool,
                 now: real): (State, Reply) {
    var s1 := if Reaches(link) then StoreRemotely(s, id, session, ttl, now) else s;
    if link.Up? then (s1, Done)
    else if !fallback then (s1, Unavailable)
    else (KeepLocally(s1, id, session, now), Done)
  }

  function Revoke(s: State, id: string, ttl: int, link: Link, fallback: bool, now: real): (State, Reply) {
    var s1 := if Reaches(link) then RevokeRemotely(s, id, ttl, now) else s;
    if link.Up? then (s1, Done)
    else (DenyLocally(s1, id, ttl, now), if fallback then Done else Unavailable)
  }

  function RemoteAnswer(s: State, id: string, now: real): Option<Session> {
    if id in s.remoteRevoked && s.remoteRevoked[id] > now then None
    else if id !in s.remoteSessions || s.remoteSessions[id].until <= now then None
    else if s.remoteSessions[id].value.expiresAt <= now then None
    else Some(s.remoteSessions[id].value)
  }

  function Get(s: State, id: string, link: Link, fallback: bool, now: real): (State, Reply) {
    var c := Clean(s, now);
    if id in c.localRevoked then (c, Returned(None))
    else if link.Up? then (c, Returned(RemoteAnswer(c, id, now)))
    else if !fallback then (c, Unavailable)
    else (c, Returned(if id in c.localSessions then Some(c.localSessions[id]) else None))
  }

  /** The store of one process. The remote fields stand for Redis. */
  class SessionStore {
    const fallback: bool
    var localSessions: map<string, Session>
    var localRevoked: map<string, real>
    var remoteSessions: map<string, Keyed<Session>>
    var remoteRevoked: map<string, real>

    ghost function Now(): State reads this {
      State(localSessions, localRevoked, remoteSessions, remoteRevoked)
    }

    constructor (fallback: bool)
      ensures this.fallback == fallback && Now() == State(map[], map[], map[], map[])
    {
      this.fallback := fallback;
      localSessions, localRevoked, remoteSessions, remoteRevoked := map[], map[], map[], map[];
    }

    method CleanLocal(now: real)
      modifies this`localSessions, this`localRevoked
      ensures Now() == Clean(old(Now()), now)
    {
      var todo := localSessions.Keys;
      while todo != {}
        invariant todo <= old(localSessions).Keys
        invariant localSessions
                  == map k | k in old(localSessions)
                       && (k in todo || old(localSessions)[k].expiresAt > now) :: old(localSessions)[k]
        invariant localRevoked == old(localRevoked)
      {
        var k :| k in todo;
        if localSessions[k].expiresAt <= now {
          localSessions := localSessions - {k};
        }
        todo := todo - {k};
      }
      todo := localRevoked.Keys;
      ghost var kept := localSessions;
      while todo != {}
        invariant todo <= old(localRevoked).Keys && localSessions == kept
        invariant localRevoked
                  == map k | k in old(localRevoked) && (k in todo || old(localRevoked)[k] > now) :: old(localRevoked)[k]
      {
        var k :| k in todo;
        if localRevoked[k] <= now {
          localRevoked := localRevoked - {k};
        }
        todo := todo - {k};
      }
    }

    method Deny(id: string, ttl: int, now: real)
      modifies this`localSessions, this`localRevoked
      ensures Now() == DenyLocally(old(Now()), id, ttl, now)
    {
      CleanLocal(now);
      localSessions := localSessions - {id};
      localRevoked := localRevoked[id := Deadline(now, ttl)];
    }

    method StoreSession(id: string, session: Session, ttl: int, link: Link, now: real) returns (r: Reply)
      modifies this
      ensures (Now(), r) == Store(old(Now()), id, session, ttl, link, fallback, now)
    {
      if link != Down {
        if Reaches(link) {
          remoteSessions := remoteSessions[id := Keyed(session, Deadline(now, ttl))];
        }
        if link == Up {
          return Done;
        }
        if !fallback {
          return Unavailable;
        }
      }
      if !fallback {
        return Unavailable;
      }
      CleanLocal(now);
      localSessions := localSessions[id := session];
      localRevoked := localRevoked - {id};
      r := Done;
    }

    method GetSession(id: string, link: Link, now: real) returns (r: Reply)
      modifies this`localSessions, this`localRevoked
      ensures (Now(), r) == Get(old(Now()), id, link, fallback, now)
    {
      CleanLocal(now);
      if id in localRevoked {
        return Returned(None);
      }
      if link == Up {
        if id in remoteRevoked && remoteRevoked[id] > now {
          return Returned(None);
        }
        if id !in remoteSessions || remoteSessions[id].until <= now {
          return Returned(None);
        }
        if remoteSessions[id].value.expiresAt <= now {
          return Returned(None);
        }
        return Returned(Some(remoteSessions[id].value));
      }
      if !fallback {
        return Unavailable;
      }
      r := Returned(if id in localSessions then Some(localSessions[id]) else None);
    }

    method RevokeSession(id: string, ttl: int, link: Link, now: real) returns (r: Reply)
      modifies this
      ensures (Now(), r) == Revoke(old(Now()), id, ttl, link, fallback, now)
    {
      if link != Down {
        if Reaches(link) {
          remoteRevoked := remoteRevoked[id := Deadline(now, ttl)];
          remoteSessions := remoteSessions - {id};
        }
        if link == Up {
          return Done;
        }
        Deny(id, ttl, now);
        if !fallback {
          return Unavailable;
        }
        return Done;
      }
      Deny(id, ttl, now);
      r := if fallback then Done else Unavailable;
    }
  }

  // ---------------------------------------------------------------- whole runs

  datatype Event =
    | Storing(id: string, session: Session, ttl: int)
    | Getting(id: string)
    | Revoking(id: string, ttl: int)

  /** One operation, how it found Redis, and when it ran. */
  datatype Op = Op(event: Event, link: Link, now: real)

  function Step(s: State, op: Op, fallback: bool): (State, Reply) {
    match op.event
    case Storing(id, session, ttl) => Store(s, id, session, ttl, op.link, fallback, op.now)
    case Getting(id) => Get(s, id, op.link, fallback, op.now)
    case Revoking(id, ttl) => Revoke(s, id, ttl, op.link, fallback, op.now)
  }

  function Run(s: State, ops: seq<Op>, fallback: bool): State
    decreases |ops|
  {
    if ops == [] then s else Run(Step(s, ops[0], fallback).0, ops[1..], fallback)
  }

  /** No reply ever carries an expired session, on any path. */
  lemma NeverExpired(s: State, op: Op, fallback: bool)
    ensures var r := Step(s, op, fallback).1;
            r.Returned? && r.session.Some? ==> r.session.value.expiresAt > op.now
  {
  }

  /** A session that Redis stored is found there exactly until it expires, by its own time
      or the key's, and unless the id is marked as revoked. */
  lemma {:induction false} StoredIsFound(s: State, id: string, session: Session, ttl: int, fallback: bool, now: real,
                                         later: real)
    ensures var s1 := Store(s, id, session, ttl, Up, fallback, now).0;
            Get(s1, id, Up, fallback, later).1 == Returned(Some(session))
            <==> && later < session.expiresAt && later < Deadline(now, ttl)
                 && !(id in s.localRevoked && s.localRevoked[id] > later)
                 && !(id in s.remoteRevoked && s.remoteRevoked[id] > later)
  {
    var s1 := Store(s, id, session, ttl, Up, fallback, now).0;
    assert s1.remoteSessions[id] == Keyed(session, Deadline(now, ttl));
  }

  /** With the fallback, a session that Redis did not confirm is found in memory until it
      expires, even when the id had been revoked there; no other id is affected. */
  lemma {:induction false} StoredInMemoryIsFound(s: State, id: string, session: Session, ttl: int, link: Link,
                                                 now: real, later: real, other: string)
    requires link != Up && now <= later
    ensures var s1 := Store(s, id, session, ttl, link, true, now).0;
            && (Get(s1, id, Down, true, later).1 == Returned(Some(session)) <==> later < session.expiresAt)
            && (other != id ==> Get(s1, other, Down, true, later).1 == Get(s, other, Down, true, later).1)
  {
    var s1 := Store(s, id, session, ttl, link, true, now).0;
    assert id in s1.localSessions && s1.localSessions[id] == session && id !in s1.localRevoked;
  }

  // ---------------------------------------------------------------- what a history comes to

  /** What the past operations leave behind for one id: the last local mark, the last mark
      in Redis, the session Redis holds, and the session in memory. */
  datatype Trace = Trace(localMark: Option<real>, remoteMark: Option<real>,
                         held: Option<Keyed<Session>>, kept: Option<Session>)

  function TraceOf(s: State, id: string): Trace {
    Trace(if id in s.localRevoked then Some(s.localRevoked[id]) else None,
          if id in s.remoteRevoked then Some(s.remoteRevoked[id]) else None,
          if id in s.remoteSessions then Some(s.remoteSessions[id]) else None,
          if id in s.localSessions then Some(s.localSessions[id]) else None)
  }

  predicate Revokes(op: Op, id: string) { op.event.Revoking? && op.event.id == id }

  predicate Stores(op: Op, id: string) { op.event.Storing? && op.event.id == id }

  /** What a revocation of the id does to its trace: in Redis when it gets there, and
      locally unless Redis confirms it. */
  function Revoked(t: Trace, op: Op): Trace
    requires op.event.Revoking?
  {
    var mark := Some(Deadline(op.now, op.event.ttl));
    Trace(if op.link.Up? then t.localMark else mark,
          if Reaches(op.link) then mark else t.remoteMark,
          if Reaches(op.link) then None else t.held,
          if op.link.Up? then t.kept else None)
  }

  /** What a store of the id does to its trace: in Redis when it gets there, and in memory,
      where it lifts a local mark, when Redis does not confirm it and the fallback is on. */
  function Filed(t: Trace, op: Op, fallback: bool): Trace
    requires op.event.Storing?
  {
    var u := if Reaches(op.link) then t.(held := Some(Keyed(op.event.session, Deadline(op.now, op.event.ttl)))) else t;
    if fallback && !op.link.Up? then u.(localMark := None, kept := Some(op.event.session)) else u
  }

  /** The trace of an id after some operations: those on other ids, and lookups, count for
      nothing. */
  function History(t: Trace, ops: seq<Op>, id: string, fallback: bool): Trace {
    if ops == [] then t
    else
      var op, before := ops[|ops| - 1], History(t, ops[..|ops| - 1], id, fallback);
      if Revokes(op, id) then Revoked(before, op)
      else if Stores(op, id) then Filed(before, op, fallback)
      else before
  }

  predicate Running(mark: Option<real>, now: real) { mark.Some? && mark.value > now }

  /** What Redis would show of a history. */
  function FromRedis(t: Trace, now: real): Option<Session> {
    if Running(t.remoteMark, now) || t.held.None? || t.held.value.until <= now || t.held.value.value.expiresAt <= now
    then None else Some(t.held.value.value)
  }

  /** What memory would show of it. */
  function FromMemory(t: Trace, now: real): Option<Session> {
    if t.kept.None? || t.kept.value.expiresAt <= now then None else t.kept
  }

  /** What a lookup answers. */
  function Answer(t: Trace, asked: Link, fallback: bool, now: real): Reply {
    if Running(t.localMark, now) then Returned(None)
    else if asked.Up? then Returned(FromRedis(t, now))
    else if !fallback then Unavailable
    else Returned(FromMemory(t, now))
  }

  /** Equal traces, except that what has run out in memory may have been cleaned up. */
  ghost predicate Matches(t: Trace, u: Trace, later: real) {
    && t.remoteMark == u.remoteMark && t.held == u.held
    && (t.localMark == u.localMark || (t.localMark.None? && !Running(u.localMark, later)))
    && (t.kept == u.kept || (t.kept.None? && FromMemory(u, later).None?))
  }

  lemma {:induction false} CleanMatches(s: State, now: real, id: string, u: Trace, later: real)
    requires now <= later && Matches(TraceOf(s, id), u, later)
    ensures Matches(TraceOf(Clean(s, now), id), u, later)
  {
  }

  lemma {:induction false} RevokedInRedis(s: State, other: string, ttl: int, now: real, id: string)
    ensures var t := TraceOf(s, id);
            TraceOf(RevokeRemotely(s, other, ttl, now), id)
            == if other == id then t.(remoteMark := Some(Deadline(now, ttl)), held := None) else t
  {
  }

  lemma {:induction false} StoredInRedis(s: State, other: string, session: Session, ttl: int, now: real, id: string)
    ensures var t := TraceOf(s, id);
            TraceOf(StoreRemotely(s, other, session, ttl, now), id)
            == if other == id then t.(held := Some(Keyed(session, Deadline(now, ttl)))) else t
  {
  }

  lemma {:induction false} DeniedLocally(s: State, other: string, ttl: int, now: real, id: string, u: Trace,
                                         later: real)
    requires now <= later && Matches(TraceOf(s, id), u, later)
    ensures Matches(TraceOf(DenyLocally(s, other, ttl, now), id),
                    if other == id then u.(localMark := Some(Deadline(now, ttl)), kept := None) else u, later)
  {
    var c := Clean(s, now);
    CleanMatches(s, now, id, u, later);
    assert other != id ==> TraceOf(DenyLocally(s, other, ttl, now), id) == TraceOf(c, id);
  }

  lemma {:induction false} KeptLocally(s: State, other: string, session: Session, now: real, id: string, u: Trace,
                                       later: real)
    requires now <= later && Matches(TraceOf(s, id), u, later)
    ensures Matches(TraceOf(KeepLocally(s, other, session, now), id),
                    if other == id then u.(localMark := None, kept := Some(session)) else u, later)
  {
    var c := Clean(s, now);
    CleanMatches(s, now, id, u, later);
    assert other != id ==> TraceOf(KeepLocally(s, other, session, now), id) == TraceOf(c, id);
  }

  lemma {:induction false} RevokeMatches(s: State, op: Op, id: string, u: Trace, later: real, fallback: bool)
    requires op.event.Revoking? && op.now <= later && Matches(TraceOf(s, id), u, later)
    ensures Matches(TraceOf(Step(s, op, fallback).0, id), if op.event.id == id then Revoked(u, op) else u, later)
  {
    var Revoking(other, ttl) := op.event;
    var s1, u1 := s, u;
    if Reaches(op.link) {
      RevokedInRedis(s, other, ttl, op.now, id);
      s1 := RevokeRemotely(s, other, ttl, op.now);
      u1 := if other == id then u.(remoteMark := Some(Deadline(op.now, ttl)), held := None) else u;
    }
    if !op.link.Up? {
      DeniedLocally(s1, other, ttl, op.now, id, u1, later);
    }
  }

  lemma {:induction false} StoreMatches(s: State, op: Op, id: string, u: Trace, later: real, fallback: bool)
    requires op.event.Storing? && op.now <= later && Matches(TraceOf(s, id), u, later)
    ensures Matches(TraceOf(Step(s, op, fallback).0, id), if op.event.id == id then Filed(u, op, fallback)
            else u, later)
  {
    var Storing(other, session, ttl) := op.event;
    var s1, u1 := s, u;
    if Reaches(op.link) {
      StoredInRedis(s, other, session, ttl, op.now, id);
      s1 := StoreRemotely(s, other, session, ttl, op.now);
      u1 := if other == id then u.(held := Some(Keyed(session, Deadline(op.now, ttl)))) else u;
    }
    if fallback && !op.link.Up? {
      KeptLocally(s1, other, session, op.now, id, u1, later);
    }
  }

  lemma {:induction false} StepMatches(s: State, op: Op, id: string, u: Trace, later: real, fallback: bool)
    requires op.now <= later && Matches(TraceOf(s, id), u, later)
    ensures Matches(TraceOf(Step(s, op, fallback).0, id), History(u, [op], id, fallback), later)
  {
    assert [op][..0] == [];
    match op.event
    case Revoking(_, _) => RevokeMatches(s, op, id, u, later, fallback);
    case Getting(_) => CleanMatches(s, op.now, id, u, later);
    case Storing(_, _, _) => StoreMatches(s, op, id, u, later, fallback);
  }

  lemma {:induction false} HistoryOfMore(t: Trace, ops: seq<Op>, op: Op, id: string, fallback: bool)
    ensures History(t, ops + [op], id, fallback) == History(History(t, ops, id, fallback), [op], id, fallback)
  {
    assert (ops + [op])[..|ops|] == ops && [op][..0] == [];
  }

  lemma {:induction false} RunOfMore(s: State, ops: seq<Op>, op: Op, fallback: bool)
    ensures Run(s, ops + [op], fallback) == Step(Run(s, ops, fallback), op, fallback).0
    decreases |ops|
  {
    if ops == [] {
      assert ops + [op] == [op] && [op][1..] == [];
    } else {
      assert (ops + [op])[1..] == ops[1..] + [op];
      RunOfMore(Step(s, ops[0], fallback).0, ops[1..], op, fallback);
    }
  }

  lemma {:induction false} RunMatches(s: State, ops: seq<Op>, id: string, later: real, fallback: bool)
    requires forall i | 0 <= i < |ops| :: ops[i].now <= later
    ensures Matches(TraceOf(Run(s, ops, fallback), id), History(TraceOf(s, id), ops, id, fallback), later)
    decreases |ops|
  {
    if ops == [] {
    } else {
      var n := |ops| - 1;
      var before, op := ops[..n], ops[n];
      assert ops == before + [op];
      RunMatches(s, before, id, later, fallback);
      RunOfMore(s, before, op, fallback);
      HistoryOfMore(TraceOf(s, id), before, op, id, fallback);
      StepMatches(Run(s, before, fallback), op, id, History(TraceOf(s, id), before, id, fallback), later, fallback);
    }
  }

  /** With the memory fallback or without it, after any run of operations with any failures
      and recoveries of Redis, a lookup answers exactly what the history of its id says. */
  lemma {:induction false} LookupFollowsHistory(s: State, ops: seq<Op>, id: string, asked: Link, later: real,
                                                fallback: bool)
    requires forall i | 0 <= i < |ops| :: ops[i].now <= later
    ensures Get(Run(s, ops, fallback), id, asked, fallback, later).1
            == Answer(History(TraceOf(s, id), ops, id, fallback), asked, fallback, later)
  {
    RunMatches(s, ops, id, later, fallback);
    var end := Run(s, ops, fallback);
    var t, c := TraceOf(end, id), Clean(end, later);
    assert (id in c.localRevoked) == Running(t.localMark, later);
    assert RemoteAnswer(c, id, later) == FromRedis(t, later);
    assert (if id in c.localSessions then Some(c.localSessions[id]) else None) == FromMemory(t, later);
  }

  // ---------------------------------------------------------------- revocation

  /** No revocation in the history reached Redis. */
  ghost predicate Missed(ops: seq<Op>, id: string) {
    forall i | 0 <= i < |ops| && Revokes(ops[i], id) :: !Reaches(ops[i].link)
  }

  lemma {:induction false} HeldUnlessReached(t: Trace, ops: seq<Op>, id: string)
    requires forall i | 0 <= i < |ops| :: !Stores(ops[i], id)
    ensures var u := History(t, ops, id, false);
            if Missed(ops, id) then u.held == t.held && u.remoteMark == t.remoteMark else u.held.None?
  {
    if ops == [] {
    } else {
      var n := |ops| - 1;
      HeldUnlessReached(t, ops[..n], id);
      assert Missed(ops, id) <==> Missed(ops[..n], id) && (Revokes(ops[n], id) ==> !Reaches(ops[n].link)) by {
        assert forall i | 0 <= i < n :: ops[..n][i] == ops[i];
      }
    }
  }

  /** When a revoked session comes back: after any operations that do not store the id
      anew, a session that Redis would show is shown exactly when every revocation missed
      Redis and the last local mark has run out. */
  lemma {:induction false} SessionComesBack(s: State, ops: seq<Op>, id: string, later: real)
    requires RemoteAnswer(s, id, later).Some?
    requires forall i | 0 <= i < |ops| :: ops[i].now <= later && !Stores(ops[i], id)
    ensures Get(Run(s, ops, false), id, Up, false, later).1 == Returned(RemoteAnswer(s, id, later))
            <==> Missed(ops, id) && !Running(History(TraceOf(s, id), ops, id, false).localMark, later)
  {
    LookupFollowsHistory(s, ops, id, Up, later, false);
    HeldUnlessReached(TraceOf(s, id), ops, id);
  }

  /** A mark of an id that is still running at `later`, on either side. */
  predicate Marked(t: Trace, later: real) { Running(t.localMark, later) || Running(t.remoteMark, later) }

  /** Revokes the id, but not for longer than until `later`. */
  predicate Shortens(op: Op, id: string, later: real) {
    Revokes(op, id) && Deadline(op.now, op.event.ttl) <= later
  }

  lemma {:induction false} MarkLasts(t: Trace, ops: seq<Op>, id: string, later: real)
    requires Marked(t, later) && forall i | 0 <= i < |ops| :: !Shortens(ops[i], id, later)
    ensures Marked(History(t, ops, id, false), later)
  {
    if ops == [] {
    } else {
      MarkLasts(t, ops[..|ops| - 1], id, later);
    }
  }

  /** So a revocation lasts: whether it returned or raised, the id has no session before
      its deadline, through any later operations, storing the id again included, unless
      somebody revokes it again for less long. */
  lemma {:induction false} RevocationLasts(s: State, id: string, ttl: int, link: Link, now: real, ops: seq<Op>,
                                           asked: Link, later: real)
    requires later < Deadline(now, ttl)
    requires forall i | 0 <= i < |ops| :: ops[i].now <= later && !Shortens(ops[i], id, later)
    ensures var s1 := Revoke(s, id, ttl, link, false, now).0;
            Get(Run(s1, ops, false), id, asked, false, later).1 in {Returned(None), Unavailable}
  {
    var s1 := Revoke(s, id, ttl, link, false, now).0;
    LookupFollowsHistory(s1, ops, id, asked, later, false);
    MarkLasts(TraceOf(s1, id), ops, id, later);
  }

  /** The lifetime every caller takes from a token that expires at `exp`. */
  function TokenLife(exp: real, now: real): int {
    if exp - now < 1.0 then 1 else (exp - now).Floor
  }

  /** A revocation that takes its lifetime from the token's expiry. */
  predicate ByToken(op: Op, exp: real) { op.event.Revoking? && op.event.ttl == TokenLife(exp, op.now) }

  /** So the program's own revocations last: when all of an id take their lifetimes from the
      same token, no lookup shows the id again until the last second of that token, however
      often and in whatever order it was revoked and stored. */
  lemma {:induction false} TokenStaysRevoked(s: State, id: string, exp: real, link: Link, now: real, ops: seq<Op>,
                                             asked: Link, later: real)
    requires later <= exp - 1.0
    requires forall i | 0 <= i < |ops| :: ops[i].now <= later && (Revokes(ops[i], id) ==> ByToken(ops[i], exp))
    ensures var s1 := Revoke(s, id, TokenLife(exp, now), link, false, now).0;
            Get(Run(s1, ops, false), id, asked, false, later).1 in {Returned(None), Unavailable}
  {
    LifeReaches(exp, now);
    forall i | 0 <= i < |ops|
      ensures !Shortens(ops[i], id, later)
    {
      LifeReaches(exp, ops[i].now);
    }
    RevocationLasts(s, id, TokenLife(exp, now), link, now, ops, asked, later);
  }

  lemma {:induction false} LifeReaches(exp: real, now: real)
    ensures Deadline(now, TokenLife(exp, now)) > exp - 1.0
  {
  }

  /** Two revocations: a session that Redis would show comes back exactly when Redis missed
      both and the second mark has run out, however long the first one was meant to last. */
  lemma {:induction false} ShorterRevocationReopens(s: State, id: string, ttl: int, first: Link, now: real,
                                 shorter: int, second: Link, again: real, later: real)
    requires RemoteAnswer(s, id, later).Some? && now <= later && again <= later
    ensures var s1 := Revoke(s, id, ttl, first, false, now).0;
            var s2 := Revoke(s1, id, shorter, second, false, again).0;
            Get(s2, id, Up, false, later).1 == Returned(RemoteAnswer(s, id, later))
            <==> !Reaches(first) && !Reaches(second) && Deadline(again, shorter) <= later
  {
    var one, two := Op(Revoking(id, ttl), first, now), Op(Revoking(id, shorter), second, again);
    SessionComesBack(s, [one] + [two], id, later);
    RunOfMore(s, [one], two, false);
    RunOfMore(s, [], one, false);
    assert [] + [one] == [one];
    HistoryOfMore(TraceOf(s, id), [one], two, id, false);
    assert [two][..0] == [];
    assert Missed([one] + [two], id) <==> !Reaches(first) && !Reaches(second) by {
      assert ([one] + [two])[0] == one && ([one] + [two])[1] == two;
    }
  }

  /** With the fallback, a session kept in memory is shown while Redis is gone exactly if no
      revocation since then was left unconfirmed by Redis: those that Redis confirmed are
      forgotten with it. */
  lemma {:induction false} FallbackForgetsRevocation(s: State, ops: seq<Op>, id: string, asked: Link, later: real)
    requires !asked.Up? && id in s.localSessions && s.localSessions[id].expiresAt > later && id !in s.localRevoked
    requires forall i | 0 <= i < |ops| :: ops[i].now <= later && !Stores(ops[i], id)
    ensures Get(Run(s, ops, true), id, asked, true, later).1 == Returned(Some(s.localSessions[id]))
            <==> forall i | 0 <= i < |ops| && Revokes(ops[i], id) :: ops[i].link.Up?
  {
    LookupFollowsHistory(s, ops, id, asked, later, true);
    KeptUnlessDenied(TraceOf(s, id), ops, id);
  }

  lemma {:induction false} KeptUnlessDenied(t: Trace, ops: seq<Op>, id: string)
    requires forall i | 0 <= i < |ops| :: !Stores(ops[i], id)
    ensures var u := History(t, ops, id, true);
            if forall i | 0 <= i < |ops| && Revokes(ops[i], id) :: ops[i].link.Up?
            then u.kept == t.kept && u.localMark == t.localMark
            else u.kept.None?
  {
    if ops == [] {
    } else {
      var n := |ops| - 1;
      var before := ops[..n];
      KeptUnlessDenied(t, before, id);
      assert forall i | 0 <= i < n :: before[i] == ops[i];
      if !(forall i | 0 <= i < n && Revokes(before[i], id) :: before[i].link.Up?) {
        var i :| 0 <= i < n && Revokes(before[i], id) && !before[i].link.Up?;
        assert Revokes(ops[i], id) && !ops[i].link.Up?;
      }
    }
  }
}
