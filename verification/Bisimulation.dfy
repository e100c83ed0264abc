/** The two backends, compared over whole runs: when they give the same answers and
    keep the same records, and exactly when they do not. */
module Bisimulation {
  import opened Values
  import opened Results
  import opened Idempotency
  import opened Runs

  /** A stored success whose error text does not match its own status and code. */
  predicate OddText(d: Dict) {
    IsOk(d) && Error in d && d[Error] != Str(SafeError(d))
  }

  lemma {:induction false} ShownAlike(d: Dict)
    requires Storable(d)
    ensures Shown(Memory, d) == Shown(Sqlite, d) <==> !OddText(d)
  {
    var shown := d[Replayed := Flag(true)];
    SettledIsFixed(shown);
    SameReading(shown, d, Ok);
  }

  /** A wait finds a result exactly while the record is completed and live, and it is the
      one that a claim with the same payload replays, except that the memory backend
      replays an odd error text as it was stored. */
  lemma {:induction false} WaitSeesTheReplay(cfg: Config, s: State, k: string, token: nat)
    requires Inv(cfg, s)
    ensures var found := Read(s.table, s.now, k).1;
            && (found.Some? <==> k in s.table && s.table[k].phase.Complete? && s.now < s.table[k].expiresAt)
            && (found.Some? ==>
                  var a := Claim(cfg, s.table, s.now, k, s.table[k].hash, token).1;
                  a.Replay? && (a.result == found.value <==> cfg.kind.Sqlite? || !OddText(s.table[k].result.value)))
  {
    if k in s.table {
      assert RecordOk(cfg, s.now, s.log, k, s.table[k]);
      if s.table[k].phase.Complete? { ShownAlike(s.table[k].result.value); }
    }
  }

  // ---------------------------------------------------------------- what expired records hide

  /** A state as seen without the records that have expired: they count as removed,
      whether or not a backend has got round to deleting them. */
  function Current(s: State): State {
    s.(table := Purge(s.table, s.now), purges := s.purges + Purged(s))
  }

  lemma {:induction false} PurgedOnce(s: State)
    ensures Purge(Current(s).table, s.now) == Current(s).table && Purged(Current(s)) == multiset{}
    ensures Current(Current(s)) == Current(s)
  {
    var c := Current(s);
    assert Purge(c.table, s.now) == c.table;
    assert c.table.Keys - Purge(c.table, c.now).Keys == {};
  }

  lemma {:induction false} PurgeLater(t: Table, now: real, later: real)
    requires now <= later
    ensures var p, p' := Purge(t, now), Purge(t, later);
            && Purge(p, later) == p'
            && multiset(t.Keys - p'.Keys) == multiset(t.Keys - p.Keys) + multiset(p.Keys - p'.Keys)
  {
    var p, p' := Purge(t, now), Purge(t, later);
    assert t.Keys - p'.Keys == (t.Keys - p.Keys) + (p.Keys - p'.Keys);
  }

  lemma Regroup(a: multiset<string>, b: multiset<string>, c: multiset<string>)
    ensures a + (b + c) == a + b + c
  {
  }

  lemma {:induction false} CurrentTick(s: State, d: real)
    requires d >= 0.0
    ensures Current(s.(now := s.now + d)) == Current(Current(s).(now := s.now + d))
  {
    var later := s.now + d;
    var x, y := s.(now := later), Current(s).(now := later);
    PurgeLater(s.table, s.now, later);
    assert Purged(x) == Purged(s) + Purged(y);
    Regroup(s.purges, Purged(s), Purged(y));
    assert Current(x).purges == Current(y).purges;
  }

  lemma {:induction false} CurrentClaim(cfg: Config, s: State, c: nat, key: string, hash: string)
    ensures ClaimStep(cfg, Current(s), c, key, hash) == ClaimStep(cfg, s, c, key, hash)
  {
    CurrentSwept(s, Silent);
    assert Claim(cfg, Current(s).table, s.now, key, hash, |s.log|)
           == Claim(cfg, s.table, s.now, key, hash, |s.log|) by {
      PurgedOnce(s);
    }
  }

  lemma {:induction false} CurrentSwept(s: State, a: Response)
    ensures Swept(Current(s), a) == Swept(s, a)
  {
    PurgedOnce(s);
  }

  /** A record that is live when its claim is completed: what becomes of it does not
      depend on the expired records around it. */
  lemma {:induction false} CurrentUpdate(s: State, key: string, t: Table)
    requires key in s.table && s.table[key].expiresAt > s.now
    requires t == s.table - {key} || (exists r: Record :: r.expiresAt > s.now && t == s.table[key := r])
    ensures Current(s.(table := t)).purges == Current(s).purges
    ensures t == s.table - {key} ==> Purge(t, s.now) == Purge(s.table, s.now) - {key}
    ensures key in t ==> Purge(t, s.now) == Purge(s.table, s.now)[key := t[key]]
  {
    assert t.Keys - Purge(t, s.now).Keys == s.table.Keys - Purge(s.table, s.now).Keys;
  }

  predicate LateRelease(s: State, e: Event) {
    e.CompleteBy? && ClientOf(s, e.client).Posted?
    && var Posted(k, t, outcome) := ClientOf(s, e.client);
       Owns(s.table, k, t) && !InTime(s.table[k], s.now) && IsAmbiguous(Sanitize(outcome))
  }

  /** Completing changes the table, the releases, the client and the answers; this is all
      of it. */
  function AfterComplete(s: State, c: nat, t: Table, released: multiset<string>, stored: bool): State {
    s.(table := t, releases := s.releases + released, clients := s.clients[c := Idle],
        answers := s.answers + [Completes(stored)])
  }

  lemma {:induction false} RefusedComplete(cfg: Config, s: State, c: nat)
    requires ClientOf(s, c).Posted?
    requires var Posted(key, token, outcome) := ClientOf(s, c); !Accepts(cfg.kind, s.table, s.now, key, token,
             Sanitize(outcome))
    ensures CompleteStep(cfg, s, c) == AfterComplete(s, c, s.table, multiset{}, false)
  {
  }

  lemma {:induction false} AcceptedComplete(cfg: Config, s: State, c: nat)
    requires ClientOf(s, c).Posted?
    requires var Posted(key, token, outcome) := ClientOf(s, c); Accepts(cfg.kind, s.table, s.now, key, token,
             Sanitize(outcome))
    ensures var Posted(key, token, outcome) := ClientOf(s, c);
            var t := Finish(cfg.kind, s.table, s.now, key, token, outcome).0;
            && CompleteStep(cfg, s, c) == AfterComplete(s, c, t, if key in t then multiset{} else multiset{key}, true)
            && t == if IsAmbiguous(Sanitize(outcome)) then s.table - {key}
                    else s.table[key := s.table[key].(phase := Complete, result := Some(Sanitize(outcome)),
                         owner := None, leaseUntil := 0.0)]
  {
  }

  lemma {:induction false} CurrentAccepted(cfg: Config, s: State, c: nat)
    requires ClientOf(s, c).Posted?
    requires var Posted(key, token, outcome) := ClientOf(s, c);
             Owns(s.table, key, token) && InTime(s.table[key], s.now)
    ensures Current(CompleteStep(cfg, s, c)) == Current(CompleteStep(cfg, Current(s), c))
  {
    var Posted(key, token, outcome) := ClientOf(s, c);
    var now := Current(s);
    AcceptedComplete(cfg, s, c);
    AcceptedComplete(cfg, now, c);
    var t, t' := Finish(cfg.kind, s.table, s.now, key, token, outcome).0,
        Finish(cfg.kind, now.table, s.now, key, token, outcome).0;
    PurgedOnce(s);
    CurrentUpdate(s, key, t);
    CurrentUpdate(now, key, t');
    assert Purge(t, s.now) == Purge(t', s.now);
  }

  lemma {:induction false} CurrentRefused(cfg: Config, s: State, c: nat)
    requires ClientOf(s, c).Posted?
    requires var Posted(key, token, outcome) := ClientOf(s, c); !Accepts(cfg.kind, s.table, s.now, key, token,
             Sanitize(outcome))
    ensures Current(CompleteStep(cfg, s, c)) == Current(CompleteStep(cfg, Current(s), c))
  {
    PurgedOnce(s);
    RefusedComplete(cfg, s, c);
    RefusedComplete(cfg, Current(s), c);
  }

  lemma {:induction false} CurrentComplete(cfg: Config, s: State, c: nat)
    requires ClientOf(s, c).Posted? && (cfg.kind.Memory? || !LateRelease(s, CompleteBy(c)))
    ensures Current(CompleteStep(cfg, s, c)) == Current(CompleteStep(cfg, Current(s), c))
  {
    var Posted(key, token, outcome) := ClientOf(s, c);
    if Owns(s.table, key, token) && InTime(s.table[key], s.now) {
      CurrentAccepted(cfg, s, c);
    } else {
      CurrentRefused(cfg, s, c);
    }
  }

  predicate Moves(s: State, e: Event) {
    e.Tick? || e.ReadBack? || e.Sweep? || (e.ClaimBy? && ClientOf(s, e.client).Idle?)
        || (e.CompleteBy? && ClientOf(s, e.client).Posted?)
  }

  lemma {:induction false} CurrentRead(cfg: Config, s: State, key: string)
    ensures Step(cfg, s, ReadBack(key)) == Step(cfg, Current(s), ReadBack(key))
  {
    CurrentSwept(s, Reads(Read(s.table, s.now, key).1));
    PurgedOnce(s);
    assert Read(Current(s).table, s.now, key) == Read(s.table, s.now, key);
  }

  lemma {:induction false} CurrentSweep(cfg: Config, s: State)
    ensures Current(Step(cfg, s, Sweep)) == Current(Step(cfg, Current(s), Sweep))
  {
    if cfg.kind.Sqlite? { CurrentSwept(s, Silent); } else { PurgedOnce(s); }
  }

  lemma {:induction false} CurrentReply(s: State, t: State, a: Response)
    requires Current(s) == Current(t)
    ensures Current(Reply(s, a)) == Current(Reply(t, a))
  {
    assert Current(Reply(s, a)) == Reply(Current(s), a) && Current(Reply(t, a)) == Reply(Current(t), a);
  }

  lemma {:induction false} CurrentTime(cfg: Config, s: State, d: real)
    ensures Current(Step(cfg, s, Tick(d))) == Current(Step(cfg, Current(s), Tick(d)))
  {
    if d >= 0.0 {
      CurrentTick(s, d);
      CurrentReply(s.(now := s.now + d), Current(s).(now := s.now + d), Silent);
    } else {
      PurgedOnce(s);
      CurrentReply(s, Current(s), Silent);
    }
  }

  lemma {:induction false} CurrentMoves(cfg: Config, s: State, e: Event)
    requires Moves(s, e) && (cfg.kind.Memory? || !LateRelease(s, e))
    ensures Current(Step(cfg, s, e)) == Current(Step(cfg, Current(s), e))
  {
    if e.Tick? {
      CurrentTime(cfg, s, e.delay);
    } else if e.ReadBack? {
      CurrentRead(cfg, s, e.key);
    } else if e.Sweep? {
      CurrentSweep(cfg, s);
    } else if e.ClaimBy? {
      CurrentClaim(cfg, s, e.client, e.key, e.hash);
    } else {
      CurrentComplete(cfg, s, e.client);
    }
  }

  function WithView(s: State, table: Table, purges: multiset<string>): State {
    s.(table := table, purges := purges)
  }

  lemma {:induction false} QuietStep(cfg: Config, s: State, table: Table, purges: multiset<string>, e: Event)
    requires !Moves(s, e)
    ensures var s' := Step(cfg, s, e);
            && s'.table == s.table && s'.purges == s.purges && s'.now == s.now
            && Step(cfg, WithView(s, table, purges), e) == WithView(s', table, purges)
  {
  }

  lemma {:induction false} SameView(s: State, s': State)
    requires s'.table == s.table && s'.purges == s.purges && s'.now == s.now
    ensures Current(s') == WithView(s', Current(s).table, Current(s).purges)
  {
  }

  lemma {:induction false} CurrentQuiet(cfg: Config, s: State, e: Event)
    requires !Moves(s, e)
    ensures Current(Step(cfg, s, e)) == Current(Step(cfg, Current(s), e))
  {
    var c := Current(s);
    var s', c' := Step(cfg, s, e), Step(cfg, c, e);
    QuietStep(cfg, s, c.table, c.purges, e);
    QuietStep(cfg, c, c.table, c.purges, e);
    SameView(s, s');
    SameView(c, c');
    PurgedOnce(s);
  }

  /** An expired record plays no part in any event, except that SQLite may still release
      it. */
  lemma {:induction false} CurrentStep(cfg: Config, s: State, e: Event)
    requires cfg.kind.Memory? || !LateRelease(s, e)
    ensures Current(Step(cfg, s, e)) == Current(Step(cfg, Current(s), e))
  {
    if Moves(s, e) {
      CurrentMoves(cfg, s, e);
    } else {
      CurrentQuiet(cfg, s, e);
    }
  }

  // ---------------------------------------------------------------- one event on both backends

  predicate OddReplay(s: State, e: Event) {
    e.ClaimBy? && ClientOf(s, e.client).Idle?
    && e.key in s.table && s.table[e.key].expiresAt > s.now && s.table[e.key].hash == e.hash
    && s.table[e.key].phase.Complete? && s.table[e.key].result.Some? && OddText(s.table[e.key].result.value)
  }

  /** The two events on which the backends part: an unknown outcome that arrives after
      the lease or the record ended while SQLite still holds the claim, and a replay of a
      success with an odd error text. */
  predicate Diverges(s: State, e: Event) { LateRelease(s, e) || OddReplay(s, e) }

  predicate Parted(m: State, q: State, n: nat) {
    n < |m.answers| && n < |q.answers| && m.answers[n] != q.answers[n]
  }

  lemma {:induction false} ClaimsAlike(ttl: real, lease: real, s: State, c: nat, k: string, h: string)
    requires RecordsOk(Config(Sqlite, ttl, lease), s) && ClientOf(s, c).Idle?
    ensures var m, q := Claim(Config(Memory, ttl, lease), s.table, s.now, k, h, |s.log|),
                        Claim(Config(Sqlite, ttl, lease), s.table, s.now, k, h, |s.log|);
            m.0 == q.0 && m.1.Claimed? == q.1.Claimed? && (m.1 == q.1 <==> !OddReplay(s, ClaimBy(c, k, h)))
  {
    if k in s.table && s.table[k].expiresAt > s.now {
      assert RecordOk(Config(Sqlite, ttl, lease), s.now, s.log, k, s.table[k]);
      if s.table[k].phase.Complete? { ShownAlike(s.table[k].result.value); }
    } else {
      assert k !in Purge(s.table, s.now);
    }
  }

  lemma {:induction false} ClaimAnswers(cfg: Config, s: State, c: nat, key: string, hash: string)
    ensures var next := ClaimStep(cfg, s, c, key, hash);
            && s.answers <= next.answers && |next.answers| == |s.answers| + 1
            && next.answers[|s.answers|] == Claims(Claim(cfg, s.table, s.now, key, hash, |s.log|).1)
  {
  }

  lemma {:induction false} StepAnswers(cfg: Config, s: State, e: Event)
    ensures s.answers <= Step(cfg, s, e).answers && |Step(cfg, s, e).answers| == |s.answers| + 1
  {
    if e.ClaimBy? { ClaimAnswers(cfg, s, e.client, e.key, e.hash); }
  }

  lemma {:induction false} ClaimStepsAlike(ttl: real, lease: real, s: State, c: nat, k: string, h: string)
    requires RecordsOk(Config(Sqlite, ttl, lease), s) && ClientOf(s, c).Idle?
    ensures var m, q := ClaimStep(Config(Memory, ttl, lease), s, c, k, h),
            ClaimStep(Config(Sqlite, ttl, lease), s, c, k, h);
            if OddReplay(s, ClaimBy(c, k, h)) then Parted(m, q, |s.answers|) else m == q
  {
    ClaimsAlike(ttl, lease, s, c, k, h);
    ClaimAnswers(Config(Memory, ttl, lease), s, c, k, h);
    ClaimAnswers(Config(Sqlite, ttl, lease), s, c, k, h);
  }

  /** The memory backend refuses what SQLite releases late. */
  lemma {:induction false} LateReleaseShows(ttl: real, lease: real, m: State, q: State, c: nat)
    requires Current(m) == Current(q) && LateRelease(q, CompleteBy(c))
    ensures Parted(CompleteStep(Config(Memory, ttl, lease), m, c), CompleteStep(Config(Sqlite, ttl, lease), q, c),
            |q.answers|)
  {
    var key := ClientOf(q, c).key;
    if key in m.table && m.table[key].expiresAt > m.now {
      assert key in Current(m).table && Current(m).table[key] == m.table[key];
      assert q.table[key] == m.table[key];
    }
  }

  /** Two states with the same live records and the same past: one event keeps them so,
      unless it is one of the two, and then its answers differ. */
  lemma {:induction false} StepsAlike(ttl: real, lease: real, m: State, q: State, e: Event)
    requires Inv(Config(Sqlite, ttl, lease), q) && Current(m) == Current(q)
    ensures var m', q' := Step(Config(Memory, ttl, lease), m, e), Step(Config(Sqlite, ttl, lease), q, e);
            if Diverges(q, e) then Parted(m', q', |q.answers|) else Current(m') == Current(q')
  {
    var M, Q := Config(Memory, ttl, lease), Config(Sqlite, ttl, lease);
    if LateRelease(q, e) {
      LateReleaseShows(ttl, lease, m, q, e.client);
    } else {
      CurrentStep(M, m, e);
      CurrentStep(Q, q, e);
      CurrentRecordsOk(Q, q);
      SameStateAlike(ttl, lease, q, e);
    }
  }

  lemma {:induction false} SweepIsInvisible(q: State)
    ensures Current(Swept(Current(q), Silent)) == Current(Reply(Current(q), Silent))
  {
    PurgedOnce(q);
  }

  lemma {:induction false} SameStateAlike(ttl: real, lease: real, q: State, e: Event)
    requires RecordsOk(Config(Sqlite, ttl, lease), Current(q)) && !LateRelease(q, e)
    ensures var m', q' := Step(Config(Memory, ttl, lease), Current(q), e),
            Step(Config(Sqlite, ttl, lease), Current(q), e);
            if OddReplay(q, e) then Parted(m', q', |q.answers|) else Current(m') == Current(q')
  {
    var s := Current(q);
    if e.ClaimBy? && ClientOf(q, e.client).Idle? {
      OddReplayNow(q, e);
      ClaimStepsAlike(ttl, lease, s, e.client, e.key, e.hash);
    } else if e.CompleteBy? && ClientOf(q, e.client).Posted? {
      CurrentCompletions(ttl, lease, q, e.client);
    } else if e.Sweep? {
      SweepIsInvisible(q);
    } else {
      SameOnBoth(ttl, lease, s, e);
    }
  }

  lemma {:induction false} CurrentRecordsOk(cfg: Config, s: State)
    requires RecordsOk(cfg, s)
    ensures RecordsOk(cfg, Current(s))
  {
    forall k | k in Current(s).table ensures RecordOk(cfg, s.now, s.log, k, Current(s).table[k]) {
      assert Current(s).table[k] == s.table[k];
    }
  }

  lemma {:induction false} OddReplayNow(q: State, e: Event)
    ensures OddReplay(Current(q), e) == OddReplay(q, e)
  {
    if e.ClaimBy? && e.key in q.table && q.table[e.key].expiresAt > q.now {
      assert e.key in Current(q).table && Current(q).table[e.key] == q.table[e.key];
    }
  }

  lemma SameOnBoth(ttl: real, lease: real, s: State, e: Event)
    requires !e.Sweep? && !(e.ClaimBy? && ClientOf(s, e.client).Idle?)
             && !(e.CompleteBy? && ClientOf(s, e.client).Posted?)
    ensures Step(Config(Memory, ttl, lease), s, e) == Step(Config(Sqlite, ttl, lease), s, e)
  {
  }

  lemma {:induction false} CurrentCompletions(ttl: real, lease: real, q: State, c: nat)
    requires ClientOf(q, c).Posted? && !LateRelease(q, CompleteBy(c))
    ensures CompleteStep(Config(Memory, ttl, lease), Current(q), c)
            == CompleteStep(Config(Sqlite, ttl, lease), Current(q), c)
  {
    var Posted(key, token, outcome) := ClientOf(q, c);
    var t := Current(q).table;
    assert Accepts(Memory, t, q.now, key, token, Sanitize(outcome))
           == Accepts(Sqlite, t, q.now, key, token, Sanitize(outcome));
  }

  // ---------------------------------------------------------------- whole runs

  /** No event of the run makes the backends part. */
  ghost predicate NeverDiverges(cfg: Config, s: State, es: seq<Event>)
    decreases |es|
  {
    es != [] ==> !Diverges(s, es[0]) && NeverDiverges(cfg, Step(cfg, s, es[0]), es[1..])
  }

  lemma {:induction false} AnswersGrow(cfg: Config, s: State, es: seq<Event>)
    ensures s.answers <= Run(cfg, s, es).answers
    decreases |es|
  {
    if es == [] {
    } else {
      var next := Step(cfg, s, es[0]);
      StepAnswers(cfg, s, es[0]);
      AnswersGrow(cfg, next, es[1..]);
      assert Run(cfg, s, es) == Run(cfg, next, es[1..]);
    }
  }

  /** Two answers that once differ stay different. */
  lemma {:induction false} DifferenceStays(ttl: real, lease: real, m: State, q: State, n: nat, es: seq<Event>)
    requires Parted(m, q, n)
    ensures Current(Run(Config(Memory, ttl, lease), m, es)) != Current(Run(Config(Sqlite, ttl, lease), q, es))
  {
    AnswersGrow(Config(Memory, ttl, lease), m, es);
    AnswersGrow(Config(Sqlite, ttl, lease), q, es);
    assert Run(Config(Memory, ttl, lease), m, es).answers[n] != Run(Config(Sqlite, ttl, lease), q, es).answers[n];
  }

  lemma {:induction false} RunsAlike(ttl: real, lease: real, m: State, q: State, es: seq<Event>)
    requires Inv(Config(Sqlite, ttl, lease), q) && Current(m) == Current(q)
    ensures Current(Run(Config(Memory, ttl, lease), m, es)) == Current(Run(Config(Sqlite, ttl, lease), q, es))
            <==> NeverDiverges(Config(Sqlite, ttl, lease), q, es)
    decreases |es|
  {
    if es == [] {
    } else {
      var M, Q := Config(Memory, ttl, lease), Config(Sqlite, ttl, lease);
      var m', q' := Step(M, m, es[0]), Step(Q, q, es[0]);
      StepsAlike(ttl, lease, m, q, es[0]);
      if Diverges(q, es[0]) {
        assert m.answers == Current(m).answers == q.answers;
        StepAnswers(M, m, es[0]);
        StepAnswers(Q, q, es[0]);
        DifferenceStays(ttl, lease, m', q', |q.answers|, es[1..]);
      } else {
        StepKeeps(Q, q, es[0]);
        RunsAlike(ttl, lease, m', q', es[1..]);
      }
    }
  }

  /** From the same state, the backends answer every event of a run alike and end with
      the same live records exactly when no event of the run makes them part. */
  lemma {:induction false} BackendsAgree(ttl: real, lease: real, s: State, es: seq<Event>)
    requires Inv(Config(Sqlite, ttl, lease), s)
    ensures Current(Run(Config(Memory, ttl, lease), s, es)) == Current(Run(Config(Sqlite, ttl, lease), s, es))
            <==> NeverDiverges(Config(Sqlite, ttl, lease), s, es)
  {
    RunsAlike(ttl, lease, s, s, es);
  }

  // ------------------------------------------- with the outcomes the submitter produces

  /** The submitter never puts an error text on a success. */
  predicate PlainOutcome(d: Dict) { IsOk(d) ==> Error !in d }

  predicate PlainEvent(e: Event) { e.PostBy? ==> PlainOutcome(e.outcome) }

  ghost predicate PlainState(s: State) {
    && (forall k | k in s.table && s.table[k].result.Some? :: PlainOutcome(s.table[k].result.value))
    && (forall c | c in s.clients && s.clients[c].Posted? :: PlainOutcome(s.clients[c].outcome))
  }

  lemma {:induction false} PlainClaim(cfg: Config, s: State, c: nat, key: string, hash: string)
    requires PlainState(s) && ClientOf(s, c).Idle?
    ensures PlainState(ClaimStep(cfg, s, c, key, hash))
  {
    var s' := ClaimStep(cfg, s, c, key, hash);
    forall k | k in s'.table && s'.table[k].result.Some?
      ensures PlainOutcome(s'.table[k].result.value)
    {
      assert k in s.table && s'.table[k].result == s.table[k].result;
    }
  }

  lemma {:induction false} PlainComplete(cfg: Config, s: State, c: nat)
    requires PlainState(s) && ClientOf(s, c).Posted?
    ensures PlainState(CompleteStep(cfg, s, c))
  {
    var outcome, s' := ClientOf(s, c).outcome, CompleteStep(cfg, s, c);
    SanitizedFields(outcome);
    forall k | k in s'.table && s'.table[k].result.Some?
      ensures PlainOutcome(s'.table[k].result.value)
    {
      assert s'.table[k].result in {s.table[k].result, Some(Sanitize(outcome))};
    }
  }

  lemma PlainKept(s: State, next: State, c: nat, to: Client)
    requires PlainState(s) && (to.Posted? ==> PlainOutcome(to.outcome))
    requires forall k | k in next.table :: k in s.table && next.table[k] == s.table[k]
    requires next.clients == s.clients || next.clients == s.clients[c := to]
    ensures PlainState(next)
  {
  }

  lemma {:induction false} PlainPost(cfg: Config, s: State, c: nat, outcome: Dict)
    requires PlainState(s) && PlainOutcome(outcome)
    ensures PlainState(Step(cfg, s, PostBy(c, outcome)))
  {
    var next := Step(cfg, s, PostBy(c, outcome));
    var to := if ClientOf(s, c).Granted? then Posted(ClientOf(s, c).key, ClientOf(s, c).token, outcome) else Idle;
    PlainKept(s, next, c, to);
  }

  lemma {:induction false} PlainSwept(s: State, a: Response)
    requires PlainState(s)
    ensures PlainState(Swept(s, a))
  {
  }

  lemma {:induction false} PlainCrash(cfg: Config, s: State, c: nat)
    requires PlainState(s)
    ensures PlainState(Step(cfg, s, Crash(c)))
  {
    PlainKept(s, Step(cfg, s, Crash(c)), c, Idle);
  }

  lemma {:induction false} PlainRest(cfg: Config, s: State, e: Event)
    requires PlainState(s) && !e.PostBy?
    requires !(e.ClaimBy? && ClientOf(s, e.client).Idle?) && !(e.CompleteBy? && ClientOf(s, e.client).Posted?)
    ensures PlainState(Step(cfg, s, e))
  {
    if e.ReadBack? {
      PlainSwept(s, Reads(Read(s.table, s.now, e.key).1));
    } else if e.Sweep? && cfg.kind.Sqlite? {
      PlainSwept(s, Silent);
    } else if e.Crash? {
      PlainCrash(cfg, s, e.client);
    } else {
      var next := Step(cfg, s, e);
      assert next.table == s.table && next.clients == s.clients;
    }
  }

  lemma {:induction false} PlainStep(cfg: Config, s: State, e: Event)
    requires PlainState(s) && PlainEvent(e)
    ensures PlainState(Step(cfg, s, e))
  {
    if e.PostBy? {
      PlainPost(cfg, s, e.client, e.outcome);
    } else if e.ClaimBy? && ClientOf(s, e.client).Idle? {
      PlainClaim(cfg, s, e.client, e.key, e.hash);
    } else if e.CompleteBy? && ClientOf(s, e.client).Posted? {
      PlainComplete(cfg, s, e.client);
    } else {
      PlainRest(cfg, s, e);
    }
  }

  ghost predicate NoLateRelease(cfg: Config, s: State, es: seq<Event>)
    decreases |es|
  {
    es != [] ==> !LateRelease(s, es[0]) && NoLateRelease(cfg, Step(cfg, s, es[0]), es[1..])
  }

  lemma {:induction false} OnlyLateReleases(cfg: Config, s: State, es: seq<Event>)
    requires PlainState(s) && forall i | 0 <= i < |es| :: PlainEvent(es[i])
    ensures NeverDiverges(cfg, s, es) <==> NoLateRelease(cfg, s, es)
    decreases |es|
  {
    if es == [] {
    } else {
      PlainStep(cfg, s, es[0]);
      OnlyLateReleases(cfg, Step(cfg, s, es[0]), es[1..]);
    }
  }

  /** For the submitter's own outcomes the backends are interchangeable exactly on the
      runs without a late release. */
  lemma {:induction false} SubmitterSeesNoDifference(ttl: real, lease: real, s: State, es: seq<Event>)
    requires Inv(Config(Sqlite, ttl, lease), s) && PlainState(s)
    requires forall i | 0 <= i < |es| :: PlainEvent(es[i])
    ensures Current(Run(Config(Memory, ttl, lease), s, es)) == Current(Run(Config(Sqlite, ttl, lease), s, es))
            <==> NoLateRelease(Config(Sqlite, ttl, lease), s, es)
  {
    BackendsAgree(ttl, lease, s, es);
    OnlyLateReleases(Config(Sqlite, ttl, lease), s, es);
  }
}
