/** Whole runs of the submission protocol: any number of clients claim keys, send the
    Oracle POST a claim entitles them to, and complete the claim, in any interleaving,
    with crashes and the passage of time anywhere in between. */
module Runs {
  import opened Values
  import opened Results
  import opened Idempotency

  /** One granted claim. Its token is its position in the log. */
  datatype Grant = Grant(key: string, time: real, reclaim: bool)

  datatype Client =
    | Idle
    | Granted(key: string, token: nat)
    | Posted(key: string, token: nat, outcome: Dict)

  datatype Event =
    | Tick(delay: real)
    | ClaimBy(client: nat, key: string, hash: string)
    | PostBy(client: nat, outcome: Dict)
    | CompleteBy(client: nat)
    | Crash(client: nat)
    | ReadBack(key: string)
    | Sweep

  datatype Response = Silent | Claims(answer: Answer) | Completes(stored: bool) | Reads(result: Option<Dict>)

  /** The store, the clients, and what has happened so far. `posts`, `abandoned`,
      `releases` and `purges` count per key: POSTs sent, grants lost to a crash before
      their POST, claims released by an unknown outcome, and records removed for age. */
  datatype State = State(
    now: real, table: Table, log: seq<Grant>, clients: map<nat, Client>,
    posts: multiset<string>, abandoned: multiset<string>,
    releases: multiset<string>, purges: multiset<string>,
    answers: seq<Response>)

  const START := State(0.0, map[], [], map[], multiset{}, multiset{}, multiset{}, multiset{}, [])

  function ClientOf(s: State, c: nat): Client {
    if c in s.clients then s.clients[c] else Idle
  }

  function Purged(s: State): multiset<string> {
    multiset(s.table.Keys - Purge(s.table, s.now).Keys)
  }

  function Swept(s: State, answer: Response): State {
    s.(table := Purge(s.table, s.now), purges := s.purges + Purged(s), answers := s.answers + [answer])
  }

  function Reply(s: State, answer: Response): State {
    s.(answers := s.answers + [answer])
  }

  function ClaimStep(cfg: Config, s: State, c: nat, key: string, hash: string): State {
    var (t, a) := Claim(cfg, s.table, s.now, key, hash, |s.log|);
    var s' := Swept(s, Claims(a)).(table := t);
    if a.Claimed? then
      s'.(log := s.log + [Grant(key, s.now, key in Purge(s.table, s.now))],
          clients := s.clients[c := Granted(key, |s.log|)])
    else s'
  }

  function CompleteStep(cfg: Config, s: State, c: nat): State
    requires ClientOf(s, c).Posted?
  {
    var Posted(key, token, outcome) := ClientOf(s, c);
    var (t, stored) := Finish(cfg.kind, s.table, s.now, key, token, outcome);
    Reply(s, Completes(stored)).(
      table := t,
      releases := if key in s.table && key !in t then s.releases + multiset{key} else s.releases,
      clients := s.clients[c := Idle])
  }

  /** One event. An event its client cannot perform changes nothing, and the sweep of
      expired records skips the memory backend. */
  function Step(cfg: Config, s: State, e: Event): State {
    match e
    case Tick(d) => Reply(if d >= 0.0 then s.(now := s.now + d) else s, Silent)
    case ClaimBy(c, key, hash) =>
      if ClientOf(s, c).Idle? then ClaimStep(cfg, s, c, key, hash) else Reply(s, Silent)
    case PostBy(c, outcome) =>
      if ClientOf(s, c).Granted? then
        var Granted(key, token) := ClientOf(s, c);
        Reply(s, Silent).(clients := s.clients[c := Posted(key, token, outcome)], posts := s.posts + multiset{key})
      else Reply(s, Silent)
    case CompleteBy(c) =>
      if ClientOf(s, c).Posted? then CompleteStep(cfg, s, c) else Reply(s, Silent)
    case Crash(c) =>
      var s' := Reply(s, Silent).(clients := s.clients[c := Idle]);
      if ClientOf(s, c).Granted? then s'.(abandoned := s.abandoned + multiset{ClientOf(s, c).key}) else s'
    case ReadBack(key) => Swept(s, Reads(Read(s.table, s.now, key).1))
    case Sweep => if cfg.kind.Sqlite? then Swept(s, Silent) else Reply(s, Silent)
  }

  function Run(cfg: Config, s: State, es: seq<Event>): State
    decreases |es|
  {
    if es == [] then s else Run(cfg, Step(cfg, s, es[0]), es[1..])
  }

  // ---------------------------------------------------------------- what every run keeps

  /** How many grants of a key the log holds, of first claims or of reclaims. */
  function Grants(log: seq<Grant>, key: string, reclaim: bool): nat {
    if log == [] then 0
    else
      var g := log[|log| - 1];
      Grants(log[..|log| - 1], key, reclaim) + if g.key == key && g.reclaim == reclaim then 1 else 0
  }

  /** The clients that hold a grant of the key and have not yet sent their POST. */
  function Waiting(clients: map<nat, Client>, key: string): set<nat> {
    set c | c in clients && clients[c].Granted? && clients[c].key == key
  }

  /** What a memoised result looks like: definitive, sanitised, and with a failure text
      that matches its status and code. */
  ghost predicate Storable(d: Dict) {
    !IsAmbiguous(d) && Settled(d[Replayed := Flag(true)])
    && (!IsOk(d) ==> Error in d && d[Error] == Str(SafeError(d)))
  }

  ghost predicate RecordOk(cfg: Config, now: real, log: seq<Grant>, key: string, r: Record) {
    r.expiresAt <= now + cfg.ttl
    && match r.phase
       case Pending =>
         r.result.None? && r.owner.Some? && r.owner.value < |log|
         && (var g := log[r.owner.value];
             g.key == key && g.time <= now
             && r.leaseUntil == g.time + cfg.lease
             && (if g.reclaim then g.time < r.expiresAt else r.expiresAt == g.time + cfg.ttl))
         && forall u | r.owner.value < u < |log| :: log[u].key != key
       case Complete =>
         r.result.Some? && Storable(r.result.value) && r.owner.None? && r.leaseUntil == 0.0
  }

  ghost predicate RecordsOk(cfg: Config, s: State) {
    forall k | k in s.table :: RecordOk(cfg, s.now, s.log, k, s.table[k])
  }

  ghost predicate ClientsOk(log: seq<Grant>, clients: map<nat, Client>) {
    && (forall c | c in clients && !clients[c].Idle? ::
          clients[c].token < |log| && log[clients[c].token].key == clients[c].key)
    && (forall c, d | c in clients && d in clients && c != d && !clients[c].Idle? && !clients[d].Idle? ::
          clients[c].token != clients[d].token)
  }

  /** Where the grants of a key went, twice over: by what became of the claim in the
      store, and by what became of the client that held it. */
  ghost predicate Balanced(s: State, k: string) {
    && Grants(s.log, k, false) == (if k in s.table then 1 else 0) + s.releases[k] + s.purges[k]
    && Grants(s.log, k, false) + Grants(s.log, k, true)
       == s.posts[k] + |Waiting(s.clients, k)| + s.abandoned[k]
  }

  ghost predicate AllBalanced(s: State) { forall k: string :: Balanced(s, k) }

  ghost predicate Inv(cfg: Config, s: State) {
    cfg.Valid() && s.now >= 0.0 && RecordsOk(cfg, s) && ClientsOk(s.log, s.clients) && AllBalanced(s)
  }

  lemma {:induction false} GrantsOfNext(log: seq<Grant>, g: Grant, key: string, reclaim: bool)
    ensures Grants(log + [g], key, reclaim)
            == Grants(log, key, reclaim) + if g.key == key && g.reclaim == reclaim then 1 else 0
  {
    assert (log + [g])[..|log|] == log;
  }

  lemma {:induction false} WaitingAfter(clients: map<nat, Client>, c: nat, to: Client, key: string)
    ensures var was := c in Waiting(clients, key);
            var waits := to.Granted? && to.key == key;
            |Waiting(clients[c := to], key)|
            == |Waiting(clients, key)| - (if was then 1 else 0) + (if waits then 1 else 0)
  {
    var before := Waiting(clients, key);
    if to.Granted? && to.key == key {
      assert Waiting(clients[c := to], key) == before + {c};
    } else {
      assert Waiting(clients[c := to], key) == before - {c};
    }
  }

  lemma {:induction false} SweptKeeps(cfg: Config, s: State, a: Response)
    requires Inv(cfg, s)
    ensures Inv(cfg, Swept(s, a))
  {
    var s' := Swept(s, a);
    forall k: string ensures Balanced(s', k) {
      assert Balanced(s, k);
      assert Purged(s)[k] == if k in s.table && k !in s'.table then 1 else 0;
    }
  }

  lemma GrantKeepsRecord(cfg: Config, now: real, log: seq<Grant>, g: Grant, key: string, r: Record)
    requires RecordOk(cfg, now, log, key, r) && g.key != key
    ensures RecordOk(cfg, now, log + [g], key, r)
  {
  }

  /** The record a grant leaves under its key. */
  function GrantedRecord(cfg: Config, s: State, key: string, hash: string): Record {
    var p := Purge(s.table, s.now);
    if key in p then p[key].(phase := Pending, owner := Some(|s.log|), leaseUntil := s.now + cfg.lease)
    else FreshRecord(cfg, s.now, hash, |s.log|)
  }

  lemma {:induction false} GrantStep(cfg: Config, s: State, c: nat, key: string, hash: string)
    requires Claim(cfg, s.table, s.now, key, hash, |s.log|).1.Claimed?
    ensures var mid, s' := Swept(s, Silent), ClaimStep(cfg, s, c, key, hash);
            s' == mid.(table := mid.table[key := GrantedRecord(cfg, s, key, hash)],
                       log := s.log + [Grant(key, s.now, key in mid.table)],
                       clients := s.clients[c := Granted(key, |s.log|)], answers := s'.answers)
  {
  }

  lemma {:induction false} RefusalStep(cfg: Config, s: State, c: nat, key: string, hash: string)
    requires !Claim(cfg, s.table, s.now, key, hash, |s.log|).1.Claimed?
    ensures var s' := ClaimStep(cfg, s, c, key, hash); s' == Swept(s, Silent).(answers := s'.answers)
  {
  }

  lemma {:induction false} GrantedRecordOk(cfg: Config, s: State, key: string, hash: string)
    requires cfg.Valid() && RecordsOk(cfg, s)
    requires Claim(cfg, s.table, s.now, key, hash, |s.log|).1.Claimed?
    ensures RecordOk(cfg, s.now, s.log + [Grant(key, s.now, key in Purge(s.table, s.now))], key,
            GrantedRecord(cfg, s, key, hash))
  {
    if key in Purge(s.table, s.now) {
      assert RecordOk(cfg, s.now, s.log, key, s.table[key]);
    }
  }

  lemma {:induction false} ClaimKeepsRecords(cfg: Config, s: State, c: nat, key: string, hash: string)
    requires cfg.Valid() && RecordsOk(cfg, s) && ClientOf(s, c).Idle?
    ensures RecordsOk(cfg, ClaimStep(cfg, s, c, key, hash))
  {
    if Claim(cfg, s.table, s.now, key, hash, |s.log|).1.Claimed? {
      var p, g := Purge(s.table, s.now), Grant(key, s.now, key in Purge(s.table, s.now));
      GrantStep(cfg, s, c, key, hash);
      GrantedRecordOk(cfg, s, key, hash);
      forall k | k in p && k != key ensures RecordOk(cfg, s.now, s.log + [g], k, p[k]) {
        GrantKeepsRecord(cfg, s.now, s.log, g, k, p[k]);
      }
    } else {
      RefusalStep(cfg, s, c, key, hash);
    }
  }

  lemma {:induction false} GrantKeepsBalance(cfg: Config, s: State, c: nat, key: string, hash: string, k: string)
    requires Balanced(Swept(s, Silent), k) && ClientOf(s, c).Idle?
    requires Claim(cfg, s.table, s.now, key, hash, |s.log|).1.Claimed?
    ensures Balanced(ClaimStep(cfg, s, c, key, hash), k)
  {
    var mid := Swept(s, Silent);
    var g := Grant(key, s.now, key in mid.table);
    GrantStep(cfg, s, c, key, hash);
    GrantsOfNext(s.log, g, k, false);
    GrantsOfNext(s.log, g, k, true);
    WaitingAfter(s.clients, c, Granted(key, |s.log|), k);
  }

  lemma {:induction false} ClaimKeepsBalance(cfg: Config, s: State, c: nat, key: string, hash: string, k: string)
    requires Balanced(Swept(s, Silent), k) && ClientOf(s, c).Idle?
    ensures Balanced(ClaimStep(cfg, s, c, key, hash), k)
  {
    if Claim(cfg, s.table, s.now, key, hash, |s.log|).1.Claimed? {
      GrantKeepsBalance(cfg, s, c, key, hash, k);
    } else {
      RefusalStep(cfg, s, c, key, hash);
    }
  }

  lemma {:induction false} ClaimKeepsClients(cfg: Config, s: State, c: nat, key: string, hash: string)
    requires ClientsOk(s.log, s.clients) && ClientOf(s, c).Idle?
    ensures var s' := ClaimStep(cfg, s, c, key, hash); ClientsOk(s'.log, s'.clients)
  {
    if Claim(cfg, s.table, s.now, key, hash, |s.log|).1.Claimed? {
      GrantStep(cfg, s, c, key, hash);
    } else {
      RefusalStep(cfg, s, c, key, hash);
    }
  }

  lemma {:induction false} ClaimKeeps(cfg: Config, s: State, c: nat, key: string, hash: string)
    requires Inv(cfg, s) && ClientOf(s, c).Idle?
    ensures Inv(cfg, ClaimStep(cfg, s, c, key, hash))
  {
    SweptKeeps(cfg, s, Silent);
    ClaimKeepsRecords(cfg, s, c, key, hash);
    ClaimKeepsClients(cfg, s, c, key, hash);
    forall k: string ensures Balanced(ClaimStep(cfg, s, c, key, hash), k) {
      assert Balanced(Swept(s, Silent), k);
      ClaimKeepsBalance(cfg, s, c, key, hash, k);
    }
  }

  lemma {:induction false} DefinitiveIsStorable(outcome: Dict)
    requires !IsAmbiguous(Sanitize(outcome))
    ensures Storable(Sanitize(outcome))
  {
    SanitizedIsSettled(outcome);
    ReplayIsSettled(Sanitize(outcome));
    SanitizedFields(outcome);
  }

  lemma {:induction false} CompleteKeepsRecord(cfg: Config, s: State, c: nat, k: string)
    requires RecordsOk(cfg, s) && ClientOf(s, c).Posted? && k in CompleteStep(cfg, s, c).table
    ensures RecordOk(cfg, s.now, s.log, k, CompleteStep(cfg, s, c).table[k])
  {
    var Posted(key, token, outcome) := ClientOf(s, c);
    assert RecordOk(cfg, s.now, s.log, k, s.table[k]);
    if !IsAmbiguous(Sanitize(outcome)) { DefinitiveIsStorable(outcome); }
  }

  lemma {:induction false} CompleteKeepsBalance(cfg: Config, s: State, c: nat, k: string)
    requires Balanced(s, k) && ClientOf(s, c).Posted?
    ensures Balanced(CompleteStep(cfg, s, c), k)
  {
    WaitingAfter(s.clients, c, Idle, k);
  }

  lemma {:induction false} CompleteKeeps(cfg: Config, s: State, c: nat)
    requires Inv(cfg, s) && ClientOf(s, c).Posted?
    ensures Inv(cfg, CompleteStep(cfg, s, c))
  {
    var s' := CompleteStep(cfg, s, c);
    forall k: string ensures Balanced(s', k) {
      assert Balanced(s, k);
      CompleteKeepsBalance(cfg, s, c, k);
    }
    forall k | k in s'.table ensures RecordOk(cfg, s'.now, s'.log, k, s'.table[k]) {
      CompleteKeepsRecord(cfg, s, c, k);
    }
  }

  lemma {:induction false} PostKeeps(cfg: Config, s: State, c: nat, outcome: Dict)
    requires Inv(cfg, s) && ClientOf(s, c).Granted?
    ensures Inv(cfg, Step(cfg, s, PostBy(c, outcome)))
  {
    var s' := Step(cfg, s, PostBy(c, outcome));
    forall k: string ensures Balanced(s', k) {
      assert Balanced(s, k);
      WaitingAfter(s.clients, c, s'.clients[c], k);
    }
    assert ClientsOk(s'.log, s'.clients);
  }

  lemma {:induction false} CrashKeeps(cfg: Config, s: State, c: nat)
    requires Inv(cfg, s)
    ensures Inv(cfg, Step(cfg, s, Crash(c)))
  {
    var s' := Step(cfg, s, Crash(c));
    forall k: string ensures Balanced(s', k) {
      assert Balanced(s, k);
      WaitingAfter(s.clients, c, Idle, k);
    }
    assert ClientsOk(s'.log, s'.clients);
  }

  /** A silent step that at most lets time pass. */
  lemma {:induction false} TimeKeeps(cfg: Config, s: State, d: real)
    requires Inv(cfg, s) && d >= 0.0
    ensures Inv(cfg, Reply(s.(now := s.now + d), Silent))
  {
    var s' := Reply(s.(now := s.now + d), Silent);
    forall k: string ensures Balanced(s', k) { assert Balanced(s, k); }
    forall k | k in s'.table ensures RecordOk(cfg, s'.now, s'.log, k, s'.table[k]) {
      assert RecordOk(cfg, s.now, s.log, k, s.table[k]);
    }
  }

  /** Whether the event does something, as opposed to being skipped. */
  predicate Enabled(s: State, e: Event) {
    match e
    case Tick(d) => d >= 0.0
    case ClaimBy(c, _, _) => ClientOf(s, c).Idle?
    case PostBy(c, _) => ClientOf(s, c).Granted?
    case CompleteBy(c) => ClientOf(s, c).Posted?
    case _ => true
  }

  lemma {:induction false} StepKeeps(cfg: Config, s: State, e: Event)
    requires Inv(cfg, s)
    ensures Inv(cfg, Step(cfg, s, e))
  {
    if !Enabled(s, e) {
      TimeKeeps(cfg, s, 0.0);
      assert s.(now := s.now + 0.0) == s;
    } else {
      match e
      case Tick(d) => TimeKeeps(cfg, s, d);
      case ClaimBy(c, key, hash) => ClaimKeeps(cfg, s, c, key, hash);
      case PostBy(c, outcome) => PostKeeps(cfg, s, c, outcome);
      case CompleteBy(c) => CompleteKeeps(cfg, s, c);
      case Crash(c) => CrashKeeps(cfg, s, c);
      case ReadBack(key) => SweptKeeps(cfg, s, Reads(Read(s.table, s.now, key).1));
      case Sweep =>
        if cfg.kind.Sqlite? {
          SweptKeeps(cfg, s, Silent);
        } else {
          TimeKeeps(cfg, s, 0.0);
          assert s.(now := s.now + 0.0) == s;
        }
    }
  }

  lemma {:induction false} RunKeeps(cfg: Config, s: State, es: seq<Event>)
    requires Inv(cfg, s)
    ensures Inv(cfg, Run(cfg, s, es))
    decreases |es|
  {
    if es == [] {
    } else {
      StepKeeps(cfg, s, es[0]);
      RunKeeps(cfg, Step(cfg, s, es[0]), es[1..]);
    }
  }
}
