/** What the submission protocol promises over whole runs. */
module Guarantees {
  import opened Values
  import opened Results
  import opened Idempotency
  import opened Runs

  function TotalGrants(s: State, k: string): nat {
    Grants(s.log, k, false) + Grants(s.log, k, true)
  }

  /** Every grant of a key is either spent on one POST, still waiting to be, or lost to
      a crash; and every grant is either the live record, a reclaim of an expired lease,
      or was followed by a release or a purge. */
  lemma {:induction false} GrantAccounting(cfg: Config, es: seq<Event>, k: string)
    requires cfg.Valid()
    ensures var s := Run(cfg, START, es);
            && TotalGrants(s, k) == s.posts[k] + |Waiting(s.clients, k)| + s.abandoned[k]
            && TotalGrants(s, k)
               == (if k in s.table then 1 else 0) + Grants(s.log, k, true) + s.releases[k] + s.purges[k]
            && s.posts[k] <= 1 + Grants(s.log, k, true) + s.releases[k] + s.purges[k]
  {
    RunKeeps(cfg, START, es);
    assert Balanced(Run(cfg, START, es), k);
  }

  /** Without an expired lease, an unknown outcome or an expired record, the key is
      written at most once, whoever asked for it and in whatever order. */
  lemma {:induction false} WrittenAtMostOnce(cfg: Config, es: seq<Event>, k: string)
    requires cfg.Valid()
    requires Grants(Run(cfg, START, es).log, k, true) == 0
    requires Run(cfg, START, es).releases[k] == 0 && Run(cfg, START, es).purges[k] == 0
    ensures Run(cfg, START, es).posts[k] <= 1
  {
    GrantAccounting(cfg, es, k);
  }

  // ---------------------------------------------------------------- a completed key

  lemma StepMovesForward(cfg: Config, s: State, e: Event, k: string)
    ensures var s' := Step(cfg, s, e);
            s'.now >= s.now && s'.posts[k] >= s.posts[k] && s'.abandoned[k] >= s.abandoned[k]
  {
  }

  lemma {:induction false} RunMovesForward(cfg: Config, s: State, es: seq<Event>, k: string)
    ensures var s' := Run(cfg, s, es);
            s'.now >= s.now && s'.posts[k] >= s.posts[k] && s'.abandoned[k] >= s.abandoned[k]
    decreases |es|
  {
    if es == [] {
    } else {
      StepMovesForward(cfg, s, es[0], k);
      RunMovesForward(cfg, Step(cfg, s, es[0]), es[1..], k);
    }
  }

  ghost predicate Completed(s: State, k: string) {
    k in s.table && s.table[k].phase.Complete? && s.now < s.table[k].expiresAt
  }

  predicate Granting(s: State, s': State, k: string) {
    |s'.log| == |s.log| + 1 && s'.log[|s.log|].key == k
  }

  predicate Completing(cfg: Config, s: State, e: Event, k: string) {
    e.CompleteBy? && ClientOf(s, e.client).Posted?
    && var Posted(key, token, outcome) := ClientOf(s, e.client);
       key == k && Accepts(cfg.kind, s.table, s.now, key, token, Sanitize(outcome))
  }

  /** `claim` seen from outside: when it grants, and what else it touches. */
  lemma ClaimTable(cfg: Config, t: Table, now: real, key: string, hash: string, token: nat)
    ensures var (t', a) := Claim(cfg, t, now, key, hash, token);
            var p := Purge(t, now);
            && t' - {key} == p - {key}
            && (if a.Claimed? then a.token == token && key in t' && t'[key].owner == Some(token) else t' == p)
            && (a.Claimed? <==>
                  || key !in p
                  || (p[key].hash == hash && p[key].leaseUntil <= now
                      && (p[key].phase.Pending? || (cfg.kind.Memory? && p[key].result.None?))))
  {
  }

  lemma {:induction false} ClaimChange(cfg: Config, s: State, c: nat, key: string, hash: string, k: string)
    requires ClientOf(s, c).Idle?
    ensures var s' := ClaimStep(cfg, s, c, key, hash);
            var gone := k in s.table && s.table[k].expiresAt <= s.now;
            && s.log <= s'.log
            && (s'.log == s.log || Granting(s, s', key))
            && (Granting(s, s', k) ==> k in s'.table && s'.table[k].owner == Some(|s.log|))
            && (Granting(s, s', k) && k in s.table && !gone ==> s.table[k].phase.Pending? || s.table[k].result.None?)
            && (!Granting(s, s', k) ==> (k in s'.table <==> k in s.table && !gone))
            && (k in s.table && !gone && !Granting(s, s', k) ==> s'.table[k] == s.table[k])
            && s'.purges[k] == s.purges[k] + (if gone then 1 else 0)
  {
    var s' := ClaimStep(cfg, s, c, key, hash);
    var p := Purge(s.table, s.now);
    ClaimTable(cfg, s.table, s.now, key, hash, |s.log|);
    assert Purged(s)[k] == if k in s.table && k !in p then 1 else 0;
    if k != key {
      assert k in s'.table <==> k in s'.table - {key};
      assert k in p <==> k in p - {key};
    }
  }

  lemma CompleteChange(cfg: Config, s: State, c: nat, k: string)
    requires ClientOf(s, c).Posted?
    ensures var s' := CompleteStep(cfg, s, c);
            && s'.log == s.log && s'.purges == s.purges
            && (if Completing(cfg, s, CompleteBy(c), k) then forall t :: !Owns(s'.table, k, t)
                else (k in s'.table <==> k in s.table) && (k in s.table ==> s'.table[k] == s.table[k]))
  {
  }

  lemma {:induction false} SweepChange(cfg: Config, s: State, a: Response, k: string)
    ensures var s' := Swept(s, a);
            var gone := k in s.table && s.table[k].expiresAt <= s.now;
            && (k in s'.table <==> k in s.table && !gone)
            && (k in s'.table ==> s'.table[k] == s.table[k])
            && s'.purges[k] == s.purges[k] + (if gone then 1 else 0)
  {
    assert Purged(s)[k] == if k in s.table && k !in Purge(s.table, s.now) then 1 else 0;
  }

  /** Everything one event can do to the record of one key. */
  ghost predicate ChangedRightly(cfg: Config, s: State, e: Event, s': State, k: string) {
    var gone := k in s.table && s.table[k].expiresAt <= s.now && s'.purges[k] > s.purges[k];
    && s.log <= s'.log
    && (Granting(s, s', k) ==> k in s'.table && s'.table[k].owner == Some(|s.log|))
    && (Granting(s, s', k) && Completed(s, k) ==> s.table[k].result.None?)
    && (Granting(s, s', k) || gone || Completing(cfg, s, e, k)
        || ((k in s'.table <==> k in s.table) && (k in s.table ==> s'.table[k] == s.table[k])))
    && (gone && !Granting(s, s', k) ==> k !in s'.table)
    && (Completing(cfg, s, e, k) ==> forall t :: !Owns(s'.table, k, t))
    && (s'.purges[k] > s.purges[k] ==> gone)
  }

  lemma {:induction false} ClaimChangesRightly(cfg: Config, s: State, c: nat, key: string, hash: string, k: string)
    requires ClientOf(s, c).Idle?
    ensures ChangedRightly(cfg, s, ClaimBy(c, key, hash), ClaimStep(cfg, s, c, key, hash), k)
  {
    ClaimChange(cfg, s, c, key, hash, k);
  }

  lemma {:induction false} CompleteChangesRightly(cfg: Config, s: State, c: nat, k: string)
    requires ClientOf(s, c).Posted?
    ensures ChangedRightly(cfg, s, CompleteBy(c), CompleteStep(cfg, s, c), k)
  {
    CompleteChange(cfg, s, c, k);
  }

  lemma {:induction false} SweepChangesRightly(cfg: Config, s: State, e: Event, a: Response, k: string)
    requires !e.CompleteBy?
    ensures ChangedRightly(cfg, s, e, Swept(s, a), k)
  {
    SweepChange(cfg, s, a, k);
  }

  lemma QuietChangesRightly(cfg: Config, s: State, e: Event, s': State, k: string)
    requires e.CompleteBy? ==> !ClientOf(s, e.client).Posted?
    requires s'.table == s.table && s'.log == s.log && s'.purges == s.purges
    ensures ChangedRightly(cfg, s, e, s', k)
  {
  }

  lemma {:induction false} RecordChange(cfg: Config, s: State, e: Event, k: string)
    ensures ChangedRightly(cfg, s, e, Step(cfg, s, e), k)
  {
    if e.ClaimBy? && ClientOf(s, e.client).Idle? {
      ClaimChangesRightly(cfg, s, e.client, e.key, e.hash, k);
    } else if e.CompleteBy? && ClientOf(s, e.client).Posted? {
      CompleteChangesRightly(cfg, s, e.client, k);
    } else if e.ReadBack? {
      SweepChangesRightly(cfg, s, e, Reads(Read(s.table, s.now, e.key).1), k);
    } else if e.Sweep? && cfg.kind.Sqlite? {
      SweepChangesRightly(cfg, s, e, Silent, k);
    } else {
      QuietChangesRightly(cfg, s, e, Step(cfg, s, e), k);
    }
  }

  lemma {:induction false} CompletedHasResult(cfg: Config, s: State, k: string)
    requires Inv(cfg, s) && Completed(s, k)
    ensures s.table[k].result.Some?
  {
    assert RecordOk(cfg, s.now, s.log, k, s.table[k]);
  }

  lemma {:induction false} LogWithoutGrant(cfg: Config, s: State, e: Event, k: string)
    requires !Granting(s, Step(cfg, s, e), k)
    ensures TotalGrants(Step(cfg, s, e), k) == TotalGrants(s, k)
  {
    var s' := Step(cfg, s, e);
    LogGrowsByOne(cfg, s, e);
    if |s'.log| > |s.log| {
      var g := s'.log[|s.log|];
      assert s'.log == s.log + [g];
      GrantsOfNext(s.log, g, k, false);
      GrantsOfNext(s.log, g, k, true);
    } else {
      assert s'.log == s.log;
    }
  }

  lemma {:induction false} CompletedStep(cfg: Config, s: State, e: Event, k: string)
    requires Inv(cfg, s) && Completed(s, k) && Step(cfg, s, e).now < s.table[k].expiresAt
    ensures Completed(Step(cfg, s, e), k) && Step(cfg, s, e).table[k] == s.table[k]
    ensures TotalGrants(Step(cfg, s, e), k) == TotalGrants(s, k)
  {
    CompletedHasResult(cfg, s, k);
    RecordChange(cfg, s, e, k);
    LogWithoutGrant(cfg, s, e, k);
  }

  lemma {:induction false} LogGrowsByOne(cfg: Config, s: State, e: Event)
    ensures |Step(cfg, s, e).log| <= |s.log| + 1 && s.log <= Step(cfg, s, e).log
  {
    if e.ClaimBy? && ClientOf(s, e.client).Idle? { ClaimChange(cfg, s, e.client, e.key, e.hash, e.key); }
  }

  /** Until it expires, a completed record is never changed and its key never granted. */
  lemma {:induction false} CompletedStays(cfg: Config, s: State, es: seq<Event>, k: string)
    requires Inv(cfg, s) && Completed(s, k) && Run(cfg, s, es).now < s.table[k].expiresAt
    ensures Completed(Run(cfg, s, es), k) && Run(cfg, s, es).table[k] == s.table[k]
    ensures TotalGrants(Run(cfg, s, es), k) == TotalGrants(s, k)
    decreases |es|
  {
    if es == [] {
    } else {
      var s' := Step(cfg, s, es[0]);
      RunMovesForward(cfg, s', es[1..], k);
      CompletedStep(cfg, s, es[0], k);
      StepKeeps(cfg, s, es[0]);
      CompletedStays(cfg, s', es[1..], k);
    }
  }

  /** Once a definitive outcome has been accepted, every later claim of the key is
      answered from it until the record expires: with the stored result for the same
      payload, with a conflict for any other. */
  lemma {:induction false} CompletedIsFinal(cfg: Config, s: State, c: nat, es: seq<Event>, hash: string, token: nat)
    requires Inv(cfg, s) && ClientOf(s, c).Posted?
    requires var Posted(k, t, outcome) := ClientOf(s, c);
             Accepts(cfg.kind, s.table, s.now, k, t, Sanitize(outcome)) && !IsAmbiguous(Sanitize(outcome))
             && Run(cfg, s, [CompleteBy(c)] + es).now < s.table[k].expiresAt
    ensures var Posted(k, t, outcome) := ClientOf(s, c);
            var s' := Run(cfg, s, [CompleteBy(c)] + es);
            Claim(cfg, s'.table, s'.now, k, hash, token).1
            == if hash == s.table[k].hash then Replay(Shown(cfg.kind, Sanitize(outcome))) else Conflict
  {
    var Posted(k, t, outcome) := ClientOf(s, c);
    var done := Step(cfg, s, CompleteBy(c));
    assert ([CompleteBy(c)] + es)[1..] == es;
    StepKeeps(cfg, s, CompleteBy(c));
    CompletedStays(cfg, done, es, k);
  }

  /** And that replay is the outcome as it was stored, marked as replayed, in every field,
      except exactly where SQLite sanitises an unsettled success a second time. */
  lemma {:induction false} ReplayIsTheOutcome(kind: Kind, outcome: Dict)
    ensures var shown := Shown(kind, Sanitize(outcome));
            && (shown == Sanitize(outcome)[Replayed := Flag(true)] <==> kind.Memory? || !Unsettled(outcome))
            && IsOk(shown) == IsOk(outcome)
  {
    ReplayOfStored(outcome);
    SanitizedFields(outcome);
    SanitizedFields(Sanitize(outcome)[Replayed := Flag(true)]);
  }

  /** POSTs after completion come only from clients granted an earlier, since expired
      claim: there is none on any run exactly when no such client is left. */
  lemma {:induction false} NoFurtherPost(cfg: Config, s: State, k: string)
    requires Inv(cfg, s) && Completed(s, k)
    ensures (forall es | Run(cfg, s, es).now < s.table[k].expiresAt :: Run(cfg, s, es).posts[k] == s.posts[k])
            <==> Waiting(s.clients, k) == {}
  {
    if Waiting(s.clients, k) == {} {
      forall es | Run(cfg, s, es).now < s.table[k].expiresAt
        ensures Run(cfg, s, es).posts[k] == s.posts[k]
      {
        CompletedStays(cfg, s, es, k);
        RunKeeps(cfg, s, es);
        RunMovesForward(cfg, s, es, k);
        assert Balanced(s, k) && Balanced(Run(cfg, s, es), k);
      }
    } else {
      var c :| c in Waiting(s.clients, k);
      var es := [PostBy(c, map[])];
      var s' := Step(cfg, s, es[0]);
      assert Run(cfg, s, es) == s' by { assert es[1..] == []; }
      assert s'.now < s.table[k].expiresAt && s'.posts[k] == s.posts[k] + 1;
    }
  }

  // ---------------------------------------------------------------- tokens and leases

  /** Only the last grant of a key can be completed, and only on that key; no two
      clients can both hold it. */
  lemma {:induction false} LastGrantWins(cfg: Config, s: State, k: string, t: nat, safe: Dict)
    requires Inv(cfg, s) && Accepts(cfg.kind, s.table, s.now, k, t, safe)
    ensures t < |s.log| && s.log[t].key == k && forall u | t < u < |s.log| :: s.log[u].key != k
    ensures forall c, d | !ClientOf(s, c).Idle? && !ClientOf(s, d).Idle?
                          && ClientOf(s, c).token == t && ClientOf(s, d).token == t :: c == d
  {
    assert RecordOk(cfg, s.now, s.log, k, s.table[k]);
  }

  ghost predicate Dead(s: State, t: nat) {
    t < |s.log| && !Owns(s.table, s.log[t].key, t)
  }

  lemma {:induction false} DeadStep(cfg: Config, s: State, e: Event, t: nat)
    requires Dead(s, t)
    ensures Dead(Step(cfg, s, e), t)
  {
    RecordChange(cfg, s, e, s.log[t].key);
  }

  lemma {:induction false} DeadStays(cfg: Config, s: State, es: seq<Event>, t: nat)
    requires Inv(cfg, s) && Dead(s, t)
    ensures Dead(Run(cfg, s, es), t)
    decreases |es|
  {
    if es == [] {
    } else {
      DeadStep(cfg, s, es[0], t);
      StepKeeps(cfg, s, es[0]);
      DeadStays(cfg, Step(cfg, s, es[0]), es[1..], t);
    }
  }

  /** A token that has lost its record, for whatever reason, never completes anything
      and never changes the table again, on any key and any run. */
  lemma {:induction false} DeadTokenIsPowerless(cfg: Config, s: State, es: seq<Event>, t: nat, key: string,
                                                result: Dict)
    requires Inv(cfg, s) && Dead(s, t)
    ensures var s' := Run(cfg, s, es);
            Finish(cfg.kind, s'.table, s'.now, key, t, result) == (s'.table, false)
  {
    var s' := Run(cfg, s, es);
    DeadStays(cfg, s, es, t);
    RunKeeps(cfg, s, es);
    assert key in s'.table ==> RecordOk(cfg, s'.now, s'.log, key, s'.table[key]);
  }

  /** The ways to lose a record: completing or releasing it, a later grant of the key,
      and the record's expiry. */
  lemma {:induction false} HowTokensDie(cfg: Config, s: State, e: Event, t: nat)
    requires Inv(cfg, s) && t < |s.log| && Owns(s.table, s.log[t].key, t)
    ensures var s' := Step(cfg, s, e); var k := s.log[t].key;
            Dead(s', t) <==> Completing(cfg, s, e, k) || Granting(s, s', k) || s'.purges[k] > s.purges[k]
  {
    RecordChange(cfg, s, e, s.log[t].key);
  }

  /** A lease runs for exactly the configured time from its grant. The first lease of a
      record ends by the record's expiry; a reclaimed one starts before that expiry but
      may end up to one lease length after it. */
  lemma {:induction false} LeaseBounds(cfg: Config, s: State, k: string)
    requires Inv(cfg, s) && k in s.table && s.table[k].phase.Pending?
    ensures var r := s.table[k];
            r.owner.Some? && r.owner.value < |s.log|
            && (var g := s.log[r.owner.value];
                && r.leaseUntil == g.time + cfg.lease <= s.now + cfg.lease
                && (!g.reclaim ==> r.leaseUntil <= r.expiresAt == g.time + cfg.ttl)
                && r.leaseUntil < r.expiresAt + cfg.lease
                && (r.leaseUntil > r.expiresAt ==> g.reclaim))
  {
    assert RecordOk(cfg, s.now, s.log, k, s.table[k]);
  }

  /** The lease of a granted claim outlives its record exactly when an expired lease was
      taken over less than one lease length before the record expires. */
  lemma {:induction false} LeaseExceedsRecord(cfg: Config, t: Table, now: real, key: string, hash: string, token: nat)
    requires cfg.Valid() && Claim(cfg, t, now, key, hash, token).1.Claimed?
    ensures var t' := Claim(cfg, t, now, key, hash, token).0;
            key in t'
            && (t'[key].leaseUntil > t'[key].expiresAt
                <==> key in t && now < t[key].expiresAt < now + cfg.lease)
  {
    ClaimTable(cfg, t, now, key, hash, token);
  }

  /** So a lease can outlive its record: when a claim is reclaimed less than one lease
      before the record expires, a definitive outcome that arrives after the expiry but
      within the lease is turned away, and the next claim, of any payload, writes again. */
  lemma {:induction false} LeaseOutlivesRecord(cfg: Config, t: Table, now: real, later: real, key: string,
                                               hash: string, token: nat, outcome: Dict)
    requires key in t && t[key].phase.Pending? && t[key].leaseUntil <= now < t[key].expiresAt
    requires t[key].expiresAt <= later < now + cfg.lease && !IsAmbiguous(Sanitize(outcome))
    ensures var (t1, a) := Claim(cfg, t, now, key, t[key].hash, token);
            && a == Claimed(token)
            && key in t1 && t1[key].expiresAt <= later < t1[key].leaseUntil
            && Finish(cfg.kind, t1, later, key, token, outcome) == (t1, false)
            && Claim(cfg, t1, later, key, hash, token + 1).1 == Claimed(token + 1)
  {
    ClaimTable(cfg, t, now, key, t[key].hash, token);
    var t1 := Claim(cfg, t, now, key, t[key].hash, token).0;
    ClaimTable(cfg, t1, later, key, hash, token + 1);
  }

  lemma GrantToClient(cfg: Config, s: State, c: nat, k: string, hash: string)
    requires ClientOf(s, c).Idle?
    ensures ClientOf(ClaimStep(cfg, s, c, k, hash), c) == Granted(k, |s.log|)
            <==> Claim(cfg, s.table, s.now, k, hash, |s.log|).1.Claimed?
  {
  }

  /** A crashed client blocks its key for at most one lease: after that, a claim with
      the same payload is granted, and one with another payload is granted exactly when
      the record itself has expired. */
  lemma {:induction false} CrashedClaimRecovers(cfg: Config, s: State, c: nat, k: string, delay: real, hash: string)
    requires Inv(cfg, s) && k in s.table && s.table[k].phase.Pending? && ClientOf(s, c).Idle?
    requires delay >= cfg.lease
    ensures var s' := Step(cfg, Step(cfg, s, Tick(delay)), ClaimBy(c, k, hash));
            ClientOf(s', c) == Granted(k, |s.log|)
            <==> hash == s.table[k].hash || s.table[k].expiresAt <= s.now + delay
  {
    var s1 := Step(cfg, s, Tick(delay));
    assert s1.table == s.table && s1.log == s.log && s1.now == s.now + delay && ClientOf(s1, c) == Idle;
    assert RecordOk(cfg, s.now, s.log, k, s.table[k]);
    assert s.table[k].leaseUntil <= s1.now;
    ClaimTable(cfg, s1.table, s1.now, k, hash, |s1.log|);
    GrantToClient(cfg, s1, c, k, hash);
  }
}
