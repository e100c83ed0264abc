/** Runs from the empty store on which a plausible claim about the protocol fails. */
module Witnesses {
  import opened Values
  import opened Results
  import opened Idempotency
  import opened Runs
  import opened Guarantees
  import opened Bisimulation

  const SUCCESS: Dict := map[Ok := Flag(true)]
  const UNKNOWN: Dict := map[Ok := Flag(false), Status := Num(503)]

  /** A success with a status outside 400..599 and an error text. */
  const ODD: Dict := map[Ok := Flag(true), Status := Num(200), Error := Str("late")]

  lemma {:induction false} RunOfMore(cfg: Config, s: State, a: seq<Event>, b: seq<Event>)
    ensures Run(cfg, s, a + b) == Run(cfg, Run(cfg, s, a), b)
    decreases |a|
  {
    if a == [] {
      assert a + b == b;
    } else {
      assert (a + b)[1..] == a[1..] + b;
      RunOfMore(cfg, Step(cfg, s, a[0]), a[1..], b);
    }
  }

  lemma {:induction false} RunOfOne(cfg: Config, s: State, e: Event)
    ensures Run(cfg, s, [e]) == Step(cfg, s, e)
  {
    assert [e][1..] == [];
  }

  lemma {:induction false} RunOfTwo(cfg: Config, s: State, d: Event, e: Event)
    ensures Run(cfg, s, [d, e]) == Step(cfg, Step(cfg, s, d), e)
  {
    assert [d, e][1..] == [e];
    RunOfOne(cfg, Step(cfg, s, d), e);
  }

  lemma {:induction false} SuccessIsPlain()
    ensures Sanitize(SUCCESS) == SUCCESS && !IsAmbiguous(SUCCESS)
  {
    OtherFields(SUCCESS);
    FlagAndText(SUCCESS);
    assert Sanitize(SUCCESS).Keys == {Ok};
  }

  lemma {:induction false} UnknownIsAmbiguous()
    ensures IsAmbiguous(Sanitize(UNKNOWN))
  {
    SanitizedFields(UNKNOWN);
  }

  lemma {:induction false} OddIsStored()
    ensures !IsAmbiguous(Sanitize(ODD)) && Unsettled(ODD)
  {
    OddIsUnsettled(ODD);
  }

  lemma {:induction false} OddIsUnsettled(d: Dict)
    requires IsOk(d) && Error in d && Code !in d && Status in d && d[Status] == Num(200)
    ensures !IsAmbiguous(Sanitize(d)) && Unsettled(d)
  {
    FlagAndText(d);
    assert StatusOf(d) == 200;
  }

  function Pausing(k: string, h: string, pause: real): seq<Event> { [ClaimBy(0, k, h), Tick(pause)] }

  /** A client is granted a key and pauses; another one claims the same key. */
  function TakingOver(k: string, h: string, pause: real): seq<Event> { Pausing(k, h, pause) + [ClaimBy(1, k, h)] }

  lemma {:induction false} FirstGrant(cfg: Config, k: string, h: string, pause: real)
    requires cfg.Valid() && pause >= 0.0
    ensures HasPaused(cfg, Run(cfg, START, Pausing(k, h, pause)), k, h, pause)
  {
    RunOfTwo(cfg, START, ClaimBy(0, k, h), Tick(pause));
    assert Purge(START.table, START.now) == map[];
  }

  /** The second client has taken the pending claim over. */
  ghost predicate HasTakenOver(cfg: Config, s: State, k: string, h: string, pause: real) {
    && s.table == map[k := Record(Pending, h, None, Some(1), pause + cfg.lease, cfg.ttl)]
    && s.now == pause && |s.log| == 2 && s.posts == multiset{} && |s.answers| == 3
    && ClientOf(s, 0) == Granted(k, 0) && ClientOf(s, 1) == Granted(k, 1) && ClientOf(s, 2).Idle?
  }

  /** The first client has been granted the key, and is pausing. */
  ghost predicate HasPaused(cfg: Config, s: State, k: string, h: string, pause: real) {
    && s.table == map[k := FreshRecord(cfg, 0.0, h, 0)]
    && s.now == pause && |s.log| == 1 && s.posts == multiset{} && |s.answers| == 2
    && ClientOf(s, 0) == Granted(k, 0) && ClientOf(s, 1).Idle? && ClientOf(s, 2).Idle?
  }

  lemma {:induction false} TakeOver(cfg: Config, k: string, h: string, pause: real)
    requires cfg.Valid() && cfg.lease <= pause < cfg.ttl
    ensures HasTakenOver(cfg, Run(cfg, START, TakingOver(k, h, pause)), k, h, pause)
  {
    FirstGrant(cfg, k, h, pause);
    SecondGrant(cfg, Run(cfg, START, Pausing(k, h, pause)), k, h, pause);
    RunOfMore(cfg, START, Pausing(k, h, pause), [ClaimBy(1, k, h)]);
  }

  lemma {:induction false} SecondGrant(cfg: Config, s: State, k: string, h: string, pause: real)
    requires HasPaused(cfg, s, k, h, pause) && cfg.lease <= pause < cfg.ttl
    ensures HasTakenOver(cfg, Run(cfg, s, [ClaimBy(1, k, h)]), k, h, pause)
  {
    RunOfOne(cfg, s, ClaimBy(1, k, h));
    SecondGrantStep(cfg, s, k, h, pause);
  }

  lemma {:induction false} SecondGrantStep(cfg: Config, s: State, k: string, h: string, pause: real)
    requires HasPaused(cfg, s, k, h, pause) && cfg.lease <= pause < cfg.ttl
    ensures HasTakenOver(cfg, ClaimStep(cfg, s, 1, k, h), k, h, pause)
  {
    PendingIsTakenOver(cfg, s.table, s.now, k, h, 1);
    GrantStep(cfg, s, 1, k, h);
    ClaimAnswers(cfg, s, 1, k, h);
    assert GrantedRecord(cfg, s, k, h) == Record(Pending, h, None, Some(1), pause + cfg.lease, cfg.ttl);
  }

  lemma {:induction false} PendingIsTakenOver(cfg: Config, t: Table, now: real, k: string, h: string, token: nat)
    requires t == map[k := FreshRecord(cfg, 0.0, h, 0)] && cfg.lease <= now < cfg.ttl
    ensures Purge(t, now) == t && Claim(cfg, t, now, k, h, token).1 == Claimed(token)
  {
    assert Purge(t, now) == t;
  }

  /** A granted client that has sent its POST. */
  function Sent(s: State, c: nat, k: string, token: nat, outcome: Dict): State {
    s.(clients := s.clients[c := Posted(k, token, outcome)], posts := s.posts + multiset{k},
        answers := s.answers + [Silent])
  }

  lemma {:induction false} Sending(cfg: Config, s: State, c: nat, k: string, token: nat, outcome: Dict)
    requires ClientOf(s, c) == Granted(k, token)
    ensures var sent := Sent(s, c, k, token, outcome);
            ClientOf(sent, c) == Posted(k, token, outcome)
            && Run(cfg, s, [PostBy(c, outcome), CompleteBy(c)]) == CompleteStep(cfg, sent, c)
  {
    RunOfTwo(cfg, s, PostBy(c, outcome), CompleteBy(c));
    assert Step(cfg, s, PostBy(c, outcome)) == Sent(s, c, k, token, outcome);
  }

  lemma {:induction false} Completing(cfg: Config, s: State, c: nat, k: string, token: nat, outcome: Dict)
    requires ClientOf(s, c) == Granted(k, token)
    requires Accepts(cfg.kind, s.table, s.now, k, token, Sanitize(outcome)) && !IsAmbiguous(Sanitize(outcome))
    ensures var s' := Run(cfg, s, [PostBy(c, outcome), CompleteBy(c)]);
            && s'.table == s.table[k := s.table[k].(phase := Complete, result := Some(Sanitize(outcome)),
                 owner := None, leaseUntil := 0.0)]
            && s'.now == s.now && s'.log == s.log && s'.posts == s.posts + multiset{k}
            && s'.clients == s.clients[c := Idle]
            && |s'.answers| == |s.answers| + 2
  {
    var sent := Sent(s, c, k, token, outcome);
    Sending(cfg, s, c, k, token, outcome);
    AcceptedComplete(cfg, sent, c);
    assert sent.clients[c := Idle] == s.clients[c := Idle];
  }

  function SlowClient(cfg: Config, k: string, h: string): seq<Event> {
    TakingOver(k, h, cfg.lease) + [PostBy(1, SUCCESS), CompleteBy(1)]
  }

  /** A POST after completion: the client whose lease ran out sends its own once the
      second one is done. */
  lemma {:induction false} PostAfterCompletion(cfg: Config, k: string, h: string)
    requires cfg.Valid() && cfg.lease < cfg.ttl
    ensures var before := Run(cfg, START, SlowClient(cfg, k, h));
            var after := Run(cfg, START, SlowClient(cfg, k, h) + [PostBy(0, SUCCESS)]);
            Completed(before, k) && before.posts[k] == 1 && Completed(after, k) && after.posts[k] == 2
  {
    var s := Run(cfg, START, TakingOver(k, h, cfg.lease));
    TakeOver(cfg, k, h, cfg.lease);
    RunOfMore(cfg, START, TakingOver(k, h, cfg.lease), [PostBy(1, SUCCESS), CompleteBy(1)]);
    SuccessIsPlain();
    Completing(cfg, s, 1, k, 1, SUCCESS);
    RunOfMore(cfg, START, SlowClient(cfg, k, h), [PostBy(0, SUCCESS)]);
    LatePost(cfg, Run(cfg, START, SlowClient(cfg, k, h)), k);
  }

  lemma {:induction false} LatePost(cfg: Config, s: State, k: string)
    requires ClientOf(s, 0) == Granted(k, 0) && s.posts[k] == 1
    ensures var s' := Run(cfg, s, [PostBy(0, SUCCESS)]);
            s'.table == s.table && s'.now == s.now && s'.posts[k] == 2
  {
    RunOfOne(cfg, s, PostBy(0, SUCCESS));
  }

  /** A pause after which the taken-over lease outlives the record. */
  function LatePause(cfg: Config): real {
    if cfg.ttl - cfg.lease / 2.0 < cfg.lease then cfg.lease else cfg.ttl - cfg.lease / 2.0
  }

  function Expiring(cfg: Config): seq<Event> { [PostBy(1, SUCCESS), Tick(cfg.ttl - LatePause(cfg))] }

  function LateTakeOver(cfg: Config, k: string, h: string): seq<Event> { TakingOver(k, h, LatePause(cfg)) }

  /** A lease that outlives its record, from the empty store: the second client's lease is
      still running when its definitive outcome is turned away, and a third client, even
      with another payload, is granted the key. */
  lemma {:induction false} LeaseCanOutliveRecord(cfg: Config, k: string, h: string, other: string)
    requires cfg.Valid() && cfg.lease < cfg.ttl
    ensures var s := Run(cfg, START, LateTakeOver(cfg, k, h));
            k in s.table && s.table[k].leaseUntil > s.table[k].expiresAt > s.now
    ensures var end := Run(cfg, START, LateTakeOver(cfg, k, h)
            + (Expiring(cfg) + [CompleteBy(1), ClaimBy(2, k, other)]));
            && end.now < LatePause(cfg) + cfg.lease && |end.answers| == 7
            && end.answers[5] == Completes(false) && end.answers[6] == Claims(Claimed(2))
  {
    var pause := LatePause(cfg);
    var s := Run(cfg, START, LateTakeOver(cfg, k, h));
    assert cfg.lease <= pause < cfg.ttl < pause + cfg.lease;
    TakeOver(cfg, k, h, pause);
    RunOfMore(cfg, START, LateTakeOver(cfg, k, h), Expiring(cfg) + [CompleteBy(1), ClaimBy(2, k, other)]);
    RunOfMore(cfg, s, Expiring(cfg), [CompleteBy(1), ClaimBy(2, k, other)]);
    Expired(cfg, s, k);
    TooLate(cfg, Run(cfg, s, Expiring(cfg)), k, other);
  }

  lemma {:induction false} Expired(cfg: Config, s: State, k: string)
    requires cfg.Valid() && cfg.lease < cfg.ttl && s.now == LatePause(cfg) && ClientOf(s, 1) == Granted(k, 1)
    ensures var s' := Run(cfg, s, Expiring(cfg));
            && s'.table == s.table && s'.log == s.log && s'.now == cfg.ttl && |s'.answers| == |s.answers| + 2
            && s'.clients == s.clients[1 := Posted(k, 1, SUCCESS)]
  {
    RunOfTwo(cfg, s, PostBy(1, SUCCESS), Tick(cfg.ttl - LatePause(cfg)));
  }

  lemma {:induction false} TooLate(cfg: Config, s: State, k: string, other: string)
    requires ClientOf(s, 1) == Posted(k, 1, SUCCESS) && ClientOf(s, 2).Idle? && |s.log| == 2 && |s.answers| == 5
    requires k in s.table && s.table[k].expiresAt <= s.now
    ensures var end := Run(cfg, s, [CompleteBy(1), ClaimBy(2, k, other)]);
            && end.now == s.now && |end.answers| == 7
            && end.answers[5] == Completes(false) && end.answers[6] == Claims(Claimed(2))
  {
    RunOfTwo(cfg, s, CompleteBy(1), ClaimBy(2, k, other));
    RefusedLate(cfg, s, k);
    ThirdGrant(cfg, CompleteStep(cfg, s, 1), k, other);
  }

  lemma {:induction false} ThirdGrant(cfg: Config, s: State, k: string, other: string)
    requires ClientOf(s, 2).Idle? && |s.log| == 2 && |s.answers| == 6 && k in s.table && s.table[k].expiresAt <= s.now
    ensures var end := Step(cfg, s, ClaimBy(2, k, other));
            && end.now == s.now && |end.answers| == 7 && s.answers <= end.answers
            && end.answers[6] == Claims(Claimed(2))
  {
    assert k !in Purge(s.table, s.now);
    ClaimAnswers(cfg, s, 2, k, other);
    GrantStep(cfg, s, 2, k, other);
  }

  lemma {:induction false} RefusedLate(cfg: Config, s: State, k: string)
    requires ClientOf(s, 1) == Posted(k, 1, SUCCESS) && k in s.table && s.table[k].expiresAt <= s.now
    ensures CompleteStep(cfg, s, 1) == AfterComplete(s, 1, s.table, multiset{}, false)
  {
    SuccessIsPlain();
    RefusedComplete(cfg, s, 1);
  }

  function LateUnknown(lease: real, k: string, h: string): seq<Event> {
    Pausing(k, h, lease) + [PostBy(0, UNKNOWN), CompleteBy(0)]
  }

  /** The two backends answer differently: an unknown outcome reported when the lease has
      just ended is released by SQLite and refused in memory. */
  lemma {:induction false} BackendsCanPart(ttl: real, lease: real, k: string, h: string)
    requires Config(Memory, ttl, lease).Valid()
    ensures var m := Run(Config(Memory, ttl, lease), START, LateUnknown(lease, k, h));
            var q := Run(Config(Sqlite, ttl, lease), START, LateUnknown(lease, k, h));
            |m.answers| == |q.answers| == 4 && m.answers[3] == Completes(false) && q.answers[3] == Completes(true)
  {
    OneLate(Config(Memory, ttl, lease), k, h);
    OneLate(Config(Sqlite, ttl, lease), k, h);
  }

  lemma {:induction false} OneLate(cfg: Config, k: string, h: string)
    requires cfg.Valid()
    ensures var s := Run(cfg, START, LateUnknown(cfg.lease, k, h));
            |s.answers| == 4 && s.answers[3] == Completes(cfg.kind.Sqlite?)
  {
    var s := Run(cfg, START, Pausing(k, h, cfg.lease));
    FirstGrant(cfg, k, h, cfg.lease);
    RunOfMore(cfg, START, Pausing(k, h, cfg.lease), [PostBy(0, UNKNOWN), CompleteBy(0)]);
    LateOutcome(cfg, s, k);
  }

  lemma {:induction false} LateOutcome(cfg: Config, s: State, k: string)
    requires ClientOf(s, 0) == Granted(k, 0) && Owns(s.table, k, 0) && !InTime(s.table[k], s.now)
    ensures var s' := Run(cfg, s, [PostBy(0, UNKNOWN), CompleteBy(0)]);
            |s'.answers| == |s.answers| + 2 && s'.answers[|s.answers| + 1] == Completes(cfg.kind.Sqlite?)
  {
    var sent := Sent(s, 0, k, 0, UNKNOWN);
    Sending(cfg, s, 0, k, 0, UNKNOWN);
    UnknownIsAmbiguous();
    if cfg.kind.Sqlite? { AcceptedComplete(cfg, sent, 0); } else { RefusedComplete(cfg, sent, 0); }
  }

  function OddSuccess(k: string, h: string): seq<Event> {
    Pausing(k, h, 0.0) + [PostBy(0, ODD), CompleteBy(0)]
  }

  /** And after a success with an odd error text, they replay it differently. */
  lemma {:induction false} ReplaysCanPart(ttl: real, lease: real, k: string, h: string)
    requires Config(Memory, ttl, lease).Valid()
    ensures var m := Run(Config(Memory, ttl, lease), START, OddSuccess(k, h) + [ClaimBy(1, k, h)]);
            var q := Run(Config(Sqlite, ttl, lease), START, OddSuccess(k, h) + [ClaimBy(1, k, h)]);
            |m.answers| == |q.answers| == 5 && m.answers[4].Claims? && q.answers[4].Claims?
                && m.answers[4] != q.answers[4]
  {
    OneReplay(Config(Memory, ttl, lease), k, h);
    OneReplay(Config(Sqlite, ttl, lease), k, h);
    OddIsStored();
    ReplayIsTheOutcome(Memory, ODD);
    ReplayIsTheOutcome(Sqlite, ODD);
  }

  lemma {:induction false} OneReplay(cfg: Config, k: string, h: string)
    requires cfg.Valid()
    ensures var s := Run(cfg, START, OddSuccess(k, h) + [ClaimBy(1, k, h)]);
            |s.answers| == 5 && s.answers[4] == Claims(Replay(Shown(cfg.kind, Sanitize(ODD))))
  {
    var s := Run(cfg, START, Pausing(k, h, 0.0));
    FirstGrant(cfg, k, h, 0.0);
    RunOfMore(cfg, START, Pausing(k, h, 0.0), [PostBy(0, ODD), CompleteBy(0)]);
    OddIsStored();
    Completing(cfg, s, 0, k, 0, ODD);
    RunOfMore(cfg, START, OddSuccess(k, h), [ClaimBy(1, k, h)]);
    Replaying(cfg, Run(cfg, START, OddSuccess(k, h)), k, h, Sanitize(ODD));
  }

  lemma {:induction false} Replaying(cfg: Config, s: State, k: string, h: string, stored: Dict)
    requires ClientOf(s, 1).Idle? && k in s.table && s.table[k].expiresAt > s.now
    requires s.table[k].hash == h && s.table[k].phase.Complete? && s.table[k].result == Some(stored)
    ensures var s' := Run(cfg, s, [ClaimBy(1, k, h)]);
            |s'.answers| == |s.answers| + 1 && s'.answers[|s.answers|] == Claims(Replay(Shown(cfg.kind, stored)))
  {
    RunOfOne(cfg, s, ClaimBy(1, k, h));
    ClaimAnswers(cfg, s, 1, k, h);
    assert k in Purge(s.table, s.now);
  }
}
