/** The idempotency store: what each operation does to the table of records, and the
    two backends that carry it out (backend/services/idempotency.py). */
module Idempotency {
  import opened Values
  import opened Results

  datatype Phase = Pending | Complete

  /** A record of the store. An owner token is the serial number of the random token
      drawn for it; tokens are only ever compared for equality. */
  datatype Record = Record(
    phase: Phase, hash: string, result: Option<Dict>, owner: Option<nat>,
    leaseUntil: real, expiresAt: real)

  type Table = map<string, Record>

  datatype Kind = Memory | Sqlite

  datatype Config = Config(kind: Kind, ttl: real, lease: real) {
    predicate Valid() { 0.0 < lease <= ttl }
  }

  datatype Answer =
    | Claimed(token: nat)
    | InProgress
    | Replay(result: Dict)
    | Conflict

  const MIN_INTERVAL := 0.01

  /** The constructor's clamping of the configured times. */
  function Configure(kind: Kind, ttl: real, lease: real): (c: Config)
    ensures c.Valid() && c.kind == kind
    ensures MIN_INTERVAL <= ttl ==> c.ttl == ttl
    ensures MIN_INTERVAL <= lease <= c.ttl ==> c.lease == lease
    ensures ttl < MIN_INTERVAL ==> c.ttl == MIN_INTERVAL
    ensures lease < MIN_INTERVAL ==> c.lease == MIN_INTERVAL
    ensures lease > c.ttl ==> c.lease == c.ttl
  {
    var t := if ttl < MIN_INTERVAL then MIN_INTERVAL else ttl;
    var l := if lease < MIN_INTERVAL then MIN_INTERVAL else lease;
    Config(kind, t, if l < t then l else t)
  }

  function Purge(t: Table, now: real): Table {
    map k | k in t && t[k].expiresAt > now :: t[k]
  }

  function FreshRecord(cfg: Config, now: real, hash: string, token: nat): Record {
    Record(Pending, hash, None, Some(token), now + cfg.lease, now + cfg.ttl)
  }

  /** The stored result as a replay shows it; only SQLite sanitises it again. */
  function Shown(kind: Kind, stored: Dict): Dict {
    var replay := stored[Replayed := Flag(true)];
    if kind.Sqlite? then Sanitize(replay) else replay
  }

  /** `claim`: the table afterwards and the answer. `token` is the token that would be
      drawn. */
  function Claim(cfg: Config, t: Table, now: real, key: string, hash: string, token: nat): (Table, Answer) {
    var p := Purge(t, now);
    if key !in p then
      (p[key := FreshRecord(cfg, now, hash, token)], Claimed(token))
    else
      var r := p[key];
      if r.hash != hash then (p, Conflict)
      else if r.phase.Complete? && r.result.Some? then (p, Replay(Shown(cfg.kind, r.result.value)))
      else if r.leaseUntil > now || (cfg.kind.Sqlite? && r.phase.Complete?) then (p, InProgress)
      else (p[key := r.(phase := Pending, owner := Some(token), leaseUntil := now + cfg.lease)], Claimed(token))
  }

  predicate Owns(t: Table, key: string, token: nat) {
    key in t && t[key].phase.Pending? && t[key].owner == Some(token)
  }

  /** Whether both the lease and the record are still running. */
  predicate InTime(r: Record, now: real) { r.leaseUntil > now && r.expiresAt > now }

  predicate Accepts(kind: Kind, t: Table, now: real, key: string, token: nat, safe: Dict) {
    Owns(t, key, token) && (InTime(t[key], now) || (kind.Sqlite? && IsAmbiguous(safe)))
  }

  /** `complete`: an unknown outcome releases the claim, a definitive one is stored. */
  function Finish(kind: Kind, t: Table, now: real, key: string, token: nat, result: Dict): (Table, bool) {
    var safe := Sanitize(result);
    if !Accepts(kind, t, now, key, token, safe) then (t, false)
    else if IsAmbiguous(safe) then (t - {key}, true)
    else (t[key := t[key].(phase := Complete, result := Some(safe), owner := None, leaseUntil := 0.0)], true)
  }

  function Read(t: Table, now: real, key: string): (Table, Option<Dict>) {
    var p := Purge(t, now);
    if key !in p || !p[key].phase.Complete? || p[key].result.None? then (p, None)
    else (p, Some(Sanitize(p[key].result.value[Replayed := Flag(true)])))
  }

  /** The in-process backend: one dictionary under a lock. */
  class MemoryBackend {
    const cfg: Config
    var records: Table

    constructor (ttl: real, lease: real)
      ensures cfg == Configure(Memory, ttl, lease) && records == map[]
    {
      cfg := Configure(Memory, ttl, lease);
      records := map[];
    }

    method Cleanup(now: real)
      modifies this
      ensures records == Purge(old(records), now)
    {
      var expired := set k | k in records && records[k].expiresAt <= now;
      var todo := expired;
      while todo != {}
        invariant todo <= expired
        invariant records == old(records) - (expired - todo)
      {
        var k :| k in todo;
        records := records - {k};
        todo := todo - {k};
      }
    }

    method ClaimKey(now: real, key: string, hash: string, token: nat) returns (a: Answer)
      requires cfg.kind == Memory
      modifies this
      ensures (records, a) == Claim(cfg, old(records), now, key, hash, token)
    {
      Cleanup(now);
      if key !in records {
        records := records[key := Record(Pending, hash, None, Some(token), now + cfg.lease, now + cfg.ttl)];
        return Claimed(token);
      }
      var record := records[key];
      if record.hash != hash {
        return Conflict;
      }
      if record.phase.Complete? && record.result.Some? {
        return Replay(record.result.value[Replayed := Flag(true)]);
      }
      if record.leaseUntil <= now {
        records := records[key := record.(phase := Pending, owner := Some(token), leaseUntil := now + cfg.lease)];
        return Claimed(token);
      }
      a := InProgress;
    }

    method CompleteKey(now: real, key: string, token: nat, result: Dict) returns (stored: bool)
      requires cfg.kind == Memory
      modifies this
      ensures (records, stored) == Finish(Memory, old(records), now, key, token, result)
    {
      var safe := SanitizeResult(Some(result));
      if key !in records || !records[key].phase.Pending? || records[key].owner != Some(token)
         || records[key].leaseUntil <= now || records[key].expiresAt <= now
      {
        return false;
      }
      if IsAmbiguous(safe) {
        records := records - {key};
        return true;
      }
      records := records[key := records[key].(phase := Complete, result := Some(safe), owner := None,
          leaseUntil := 0.0)];
      stored := true;
    }

    method ReadKey(now: real, key: string) returns (result: Option<Dict>)
      modifies this
      ensures (records, result) == Read(old(records), now, key)
    {
      Cleanup(now);
      if key !in records || !records[key].phase.Complete? || records[key].result.None? {
        return None;
      }
      var safe := SanitizeResult(Some(records[key].result.value[Replayed := Flag(true)]));
      result := Some(safe);
    }
  }

  /** The durable backend: every method is one transaction over the table's rows.
      `up` tells whether the database can be used; when it cannot, the operation
      reports that (`None`) and the rows stay as they are. */
  class SqliteBackend {
    const cfg: Config
    var rows: Table

    constructor (ttl: real, lease: real)
      ensures cfg == Configure(Sqlite, ttl, lease) && rows == map[]
    {
      cfg := Configure(Sqlite, ttl, lease);
      rows := map[];
    }

    method DeleteExpired(now: real)
      modifies this
      ensures rows == Purge(old(rows), now)
    {
      rows := rows - (set k | k in rows && rows[k].expiresAt <= now);
    }

    method ClaimKey(up: bool, now: real, key: string, hash: string, token: nat) returns (a: Option<Answer>)
      requires cfg.kind == Sqlite
      modifies this
      ensures up ==> a.Some? && (rows, a.value) == Claim(cfg, old(rows), now, key, hash, token)
      ensures !up ==> a == None && rows == old(rows)
    {
      if !up {
        return None;
      }
      DeleteExpired(now);
      if key !in rows {
        rows := rows[key := Record(Pending, hash, None, Some(token), now + cfg.lease, now + cfg.ttl)];
        return Some(Claimed(token));
      }
      var Record(phase, storedHash, stored, _, leaseUntil, _) := rows[key];
      if storedHash != hash {
        return Some(Conflict);
      }
      if phase.Complete? && stored.Some? {
        var safe := SanitizeResult(Some(stored.value[Replayed := Flag(true)]));
        return Some(Replay(safe));
      }
      if leaseUntil <= now {
        var count := Reclaim(now, key, token);
        return Some(if count == 1 then Claimed(token) else InProgress);
      }
      a := Some(InProgress);
    }

    /** UPDATE of the owner of a pending row; returns the number of rows changed. */
    method Reclaim(now: real, key: string, token: nat) returns (count: nat)
      requires key in rows
      modifies this
      ensures count == if old(rows)[key].phase.Pending? then 1 else 0
      ensures rows == if count == 1
                      then old(rows)[key := old(rows)[key].(owner := Some(token), leaseUntil := now + cfg.lease)]
                      else old(rows)
    {
      var matching := set k | k in rows && k == key && rows[k].phase.Pending?;
      assert matching == if rows[key].phase.Pending? then {key} else {};
      rows := map k | k in rows ::
        if k in matching then rows[k].(owner := Some(token), leaseUntil := now + cfg.lease) else rows[k];
      count := |matching|;
    }

    /** DELETE of the pending row that the token owns, whatever its lease says. */
    method Release(key: string, token: nat) returns (count: nat)
      modifies this
      ensures count == if Owns(old(rows), key, token) then 1 else 0
      ensures rows == if count == 1 then old(rows) - {key} else old(rows)
    {
      var matching := set k | k in rows && Owns(rows, k, token) && k == key;
      assert matching == if Owns(rows, key, token) then {key} else {};
      rows := rows - matching;
      count := |matching|;
    }

    /** UPDATE that stores a definitive result while the claim is in time. */
    method Memoise(now: real, key: string, token: nat, safe: Dict) returns (count: nat)
      modifies this
      ensures count == if Owns(old(rows), key, token) && InTime(old(rows)[key], now) then 1 else 0
      ensures rows == if count == 1
                      then old(rows)[key := old(rows)[key].(phase := Complete, result := Some(safe), owner := None,
                           leaseUntil := 0.0)]
                      else old(rows)
    {
      var matching := set k | k in rows && Owns(rows, k, token) && InTime(rows[k], now) && k == key;
      assert matching == if Owns(rows, key, token) && InTime(rows[key], now) then {key} else {};
      rows := map k | k in rows ::
        if k in matching then rows[k].(phase := Complete, result := Some(safe), owner := None, leaseUntil := 0.0)
        else rows[k];
      count := |matching|;
    }

    method CompleteKey(up: bool, now: real, key: string, token: nat, result: Dict) returns (stored: Option<bool>)
      modifies this
      ensures up ==> stored.Some? && (rows, stored.value) == Finish(Sqlite, old(rows), now, key, token, result)
      ensures !up ==> stored == None && rows == old(rows)
    {
      var safe := SanitizeResult(Some(result));
      if !up {
        return None;
      }
      var count;
      if IsAmbiguous(safe) {
        count := Release(key, token);
      } else {
        count := Memoise(now, key, token, safe);
      }
      stored := Some(count == 1);
    }

    method ReadKey(up: bool, now: real, key: string) returns (result: Option<Option<Dict>>)
      modifies this
      ensures up ==> result.Some? && (rows, result.value) == Read(old(rows), now, key)
      ensures !up ==> result == None && rows == old(rows)
    {
      if !up {
        return None;
      }
      DeleteExpired(now);
      if key !in rows || !rows[key].phase.Complete? || rows[key].result.None? {
        return Some(None);
      }
      var safe := SanitizeResult(Some(rows[key].result.value[Replayed := Flag(true)]));
      result := Some(Some(safe));
    }
  }
}
