/** A run of the in-memory limiter, from its constructor, on which an overflow of live keys
    lets a key exceed its limit (backend/core/limiter.py). */
module Overflow {
  import opened Limiter

  predicate Distinct(keys: seq<string>) {
    forall i, j | 0 <= i < j < |keys| :: keys[i] != keys[j]
  }

  function First(keys: seq<string>, n: nat): set<string>
    requires n <= |keys|
  {
    set i | 0 <= i < n :: keys[i]
  }

  lemma {:induction false} FirstCount(keys: seq<string>, n: nat)
    requires Distinct(keys) && n <= |keys|
    ensures |First(keys, n)| == n
  {
    if n == 0 {
      assert First(keys, n) == {};
    } else {
      FirstCount(keys, n - 1);
      assert First(keys, n) == First(keys, n - 1) + {keys[n - 1]};
    }
  }

  lemma {:induction false} AllActive(log: Times, now: real, window: real)
    requires forall i | 0 <= i < |log| :: now - log[i] < window
    ensures Active(log, now, window) == log
  {
    if log == [] {
    } else {
      AllActive(log[1..], now, window);
    }
  }

  lemma {:induction false} AllWithin(log: Times, a: real, window: real)
    requires forall i | 0 <= i < |log| :: a < log[i] <= a + window
    ensures Within(log, a, window) == log
  {
    if log == [] {
    } else {
      AllWithin(log[1..], a, window);
    }
  }

  /** The first key has sent `n` requests at time 0, and nobody else any. */
  ghost predicate Asked(s: Local, key: string, n: nat) {
    && s.requests == (if n == 0 then map[] else map[key := Repeated(0.0, n)])
    && (forall k: string :: LogOf(s.admitted, k) == if k == key then Repeated(0.0, n) else [])
    && (forall k: string :: Count(s.forgotten, k) == 0)
    && s.clock == 0.0
  }

  lemma {:induction false} AskedNext(s: Local, s': Local, room: map<string, Times>, key: string, ok: bool, n: nat,
                                     window: real, limit: nat, maxKeys: nat)
    requires Asked(s, key, n) && n < limit && window > 0.0
    requires Answered(s, s', room, 0.0, key, ok, window, limit, maxKeys)
    ensures ok && Asked(s', key, n + 1)
  {
    var log := Repeated(0.0, n);
    AllActive(log, 0.0, window);
    assert LogOf(s.requests, key) == log && LogOf(s.admitted, key) == log && Remembered(s, key) == log;
    assert log + [0.0] == Repeated(0.0, n + 1);
    assert room.Keys <= {key};
    assert s'.requests == map[key := Repeated(0.0, n + 1)];
    assert s'.admitted == s.admitted[key := Repeated(0.0, n + 1)];
    forall k: string ensures LogOf(s'.admitted, k) == if k == key then Repeated(0.0, n + 1) else [] {
      assert LogOf(s.admitted, k) == if k == key then log else [];
    }
  }

  /** After that, the first `n` keys are live, the others of them with one request each at
      time 0.5. */
  ghost predicate Crowded(s: Local, keys: seq<string>, n: nat, limit: nat)
    requires 1 <= n <= |keys|
  {
    && s.requests.Keys == First(keys, n)
    && (forall k: string :: LogOf(s.admitted, k) == LogOf(s.requests, k))
    && (forall k | k in s.requests :: s.requests[k] == if k == keys[0] then Repeated(0.0, limit) else [0.5])
    && (forall k: string :: Count(s.forgotten, k) == 0)
    && s.clock <= 0.5
  }

  lemma {:induction false} CrowdIsLive(s: Local, keys: seq<string>, n: nat, limit: nat, window: real)
    requires Distinct(keys) && 1 <= n <= |keys| && Crowded(s, keys, n, limit) && limit >= 1 && window >= 1.0
    ensures LiveKeys(s.requests, 0.5, window) == First(keys, n) && |First(keys, n)| == n
  {
    FirstCount(keys, n);
  }

  lemma {:induction false} WidenedCount(s: Local, keys: seq<string>, n: nat, limit: nat)
    requires Distinct(keys) && 1 <= n < |keys| && Crowded(s, keys, n, limit)
    ensures keys[n] !in s.requests && |Widened(s.requests, keys[n])| == n + 1
    ensures Widened(s.requests, keys[n]).Keys == First(keys, n + 1)
  {
    FirstCount(keys, n + 1);
    assert Widened(s.requests, keys[n]).Keys == First(keys, n + 1);
  }

  lemma {:induction false} RoomForAll(s: Local, room: map<string, Times>, keys: seq<string>, n: nat,
                                      window: real, limit: nat, maxKeys: nat)
    requires Distinct(keys) && 1 <= n < |keys| && n <= maxKeys && Crowded(s, keys, n, limit) && limit >= 1
             && window >= 1.0
    requires RoomFor(Widened(s.requests, keys[n]), room, 0.5, window, maxKeys)
    ensures room.Keys + {keys[n]} == First(keys, n + 1) && First(keys, n) <= room.Keys
    ensures forall k | k in room && k != keys[n] :: room[k] == s.requests[k]
  {
    WidenedCount(s, keys, n, limit);
    FirstGrows(keys, n);
    if n == maxKeys {
      CrowdIsLive(s, keys, n, limit, window);
      SameLiveKeys(s.requests, keys[n], 0.5, window);
      SameKeys(room.Keys, First(keys, n));
    }
  }

  lemma {:induction false} FirstGrows(keys: seq<string>, n: nat)
    requires n < |keys|
    ensures First(keys, n + 1) == First(keys, n) + {keys[n]}
  {
  }

  /** While the live keys fit, another key can join them. */
  lemma {:induction false} CrowdedNext(s: Local, s': Local, room: map<string, Times>, keys: seq<string>, ok: bool,
                                       n: nat,
                                       window: real, limit: nat, maxKeys: nat)
    requires Distinct(keys) && 1 <= n < |keys| && n <= maxKeys && Crowded(s, keys, n, limit) && limit >= 1
             && window >= 1.0
    requires Answered(s, s', room, 0.5, keys[n], ok, window, limit, maxKeys)
    ensures ok && Crowded(s', keys, n + 1, limit)
  {
    RoomForAll(s, room, keys, n, window, limit, maxKeys);
    NewcomerIsAdmitted(s, s', room, keys, ok, n, window, limit, maxKeys);
    CrowdIsLive(s, keys, n, limit, window);
    NobodyIsForgotten(s, s', room, 0.5, keys[n], window);
    Joined(s, s', room, keys, n, limit);
  }

  lemma {:induction false} NobodyIsForgotten(s: Local, s': Local, room: map<string, Times>, now: real, key: string,
                                             window: real)
    requires LiveKeys(s.requests, now, window) <= room.Keys
    requires forall k: string :: Count(s.forgotten, k) == 0
    requires forall k: string :: Count(s'.forgotten, k) == CountAfter(s, room, now, key, k, window)
    ensures forall k: string :: Count(s'.forgotten, k) == 0
  {
  }

  lemma {:induction false} SameLogs(s: Local, s': Local, room: map<string, Times>, key: string, k: string)
    requires LogOf(s.admitted, k) == LogOf(s.requests, k) && (k == key || LogOf(room, k) == LogOf(s.requests, k))
    requires s'.admitted == s.admitted[key := [0.5]] && s'.requests == room[key := [0.5]]
    ensures LogOf(s'.admitted, k) == LogOf(s'.requests, k)
  {
  }

  lemma {:induction false} Joined(s: Local, s': Local, room: map<string, Times>, keys: seq<string>, n: nat, limit: nat)
    requires Distinct(keys) && 1 <= n < |keys| && Crowded(s, keys, n, limit)
    requires room.Keys + {keys[n]} == First(keys, n + 1) && First(keys, n) <= room.Keys
    requires forall k | k in room && k != keys[n] :: room[k] == s.requests[k]
    requires s'.admitted == s.admitted[keys[n] := [0.5]] && s'.requests == room[keys[n] := [0.5]] && s'.clock == 0.5
    requires forall k: string :: Count(s'.forgotten, k) == 0
    ensures Crowded(s', keys, n + 1, limit)
  {
    FirstGrows(keys, n);
    assert s'.requests.Keys == First(keys, n + 1);
    forall k: string ensures LogOf(s'.admitted, k) == LogOf(s'.requests, k) {
      SameLogs(s, s', room, keys[n], k);
    }
    assert keys[0] != keys[n];
    forall k | k in s'.requests && k != keys[n] ensures k in s.requests && s'.requests[k] == s.requests[k] {
      assert k in room;
    }
  }

  lemma {:induction false} NewcomerIsAdmitted(s: Local, s': Local, room: map<string, Times>, keys: seq<string>,
                                              ok: bool, n: nat,
                                              window: real, limit: nat, maxKeys: nat)
    requires Distinct(keys) && 1 <= n < |keys| && Crowded(s, keys, n, limit) && limit >= 1
    requires Answered(s, s', room, 0.5, keys[n], ok, window, limit, maxKeys)
    ensures ok && s'.admitted == s.admitted[keys[n] := [0.5]] && s'.requests == room[keys[n] := [0.5]]
  {
    var key := keys[n];
    assert key !in First(keys, n);
    assert LogOf(s.requests, key) == [] && LogOf(s.admitted, key) == [] && Remembered(s, key) == [];
    assert [] + [0.5] == [0.5];
  }

  lemma {:induction false} SameKeys(a: set<string>, b: set<string>)
    requires a <= b && |a| == |b|
    ensures a == b
  {
    assert |b - a| == 0;
    assert b == a + (b - a);
  }

  /** With one key more than fit, the next newcomer makes the limiter forget the first. */
  lemma {:induction false} FirstIsForgotten(s: Local, s': Local, room: map<string, Times>, keys: seq<string>, ok: bool,
                                            window: real, limit: nat, maxKeys: nat)
    requires Distinct(keys) && |keys| == maxKeys + 2 && Crowded(s, keys, maxKeys + 1, limit) && limit >= 1
             && window >= 1.0
    requires Answered(s, s', room, 0.5, keys[maxKeys + 1], ok, window, limit, maxKeys)
    ensures LogOf(s'.admitted, keys[0]) == Repeated(0.0, limit) && Count(s'.forgotten, keys[0]) == limit
  {
    NoRoomForFirst(s, room, keys, window, limit, maxKeys);
    CrowdIsLive(s, keys, maxKeys + 1, limit, window);
    assert keys[0] in First(keys, maxKeys + 1) && keys[0] != keys[maxKeys + 1];
    assert Count(s'.forgotten, keys[0]) == CountAfter(s, room, 0.5, keys[maxKeys + 1], keys[0], window);
    assert LogOf(s.admitted, keys[0]) == s.requests[keys[0]];
  }

  lemma {:induction false} NoRoomForFirst(s: Local, room: map<string, Times>, keys: seq<string>,
                                          window: real, limit: nat, maxKeys: nat)
    requires Distinct(keys) && |keys| == maxKeys + 2 && Crowded(s, keys, maxKeys + 1, limit) && limit >= 1
             && window >= 1.0
    requires RoomFor(Widened(s.requests, keys[maxKeys + 1]), room, 0.5, window, maxKeys)
    ensures keys[0] !in room
  {
    var n := maxKeys + 1;
    CrowdIsLive(s, keys, n, limit, window);
    WidenedCount(s, keys, n, limit);
    SameLiveKeys(s.requests, keys[n], 0.5, window);
    var d := SomeoneElse(First(keys, n), room.Keys);
    assert d != keys[0] ==> Oldest(s.requests[d], 0.5) == 0.5;
    assert Oldest(s.requests[keys[0]], 0.5) == 0.0;
  }

  /** Someone of a bigger set is not in the smaller one. */
  lemma {:induction false} SomeoneElse(live: set<string>, room: set<string>) returns (d: string)
    requires room <= live && |room| < |live|
    ensures d in live && d !in room
  {
    assert |live - room| == |live| - |room|;
    d :| d in live - room;
  }

  /** And then the first key is admitted once more. */
  lemma {:induction false} AdmittedAgain(s: Local, s': Local, room: map<string, Times>, key: string, ok: bool,
                                         window: real, limit: nat, maxKeys: nat)
    requires LogOf(s.admitted, key) == Repeated(0.0, limit) && Count(s.forgotten, key) == limit && limit >= 1
    requires Answered(s, s', room, 0.5, key, ok, window, limit, maxKeys)
    ensures ok
  {
    assert Remembered(s, key) == [];
  }

  /** One key uses up its limit at time 0. */
  method UseUp(limiter: LocalLimiter, key: string) returns (accepted: Times)
    requires limiter.Valid() && Asked(limiter.Now(), key, 0)
    modifies limiter
    ensures limiter.Valid() && Asked(limiter.Now(), key, limiter.limit) && accepted == Repeated(0.0, limiter.limit)
  {
    accepted := [];
    for n := 0 to limiter.limit
      invariant limiter.Valid() && Asked(limiter.Now(), key, n) && accepted == Repeated(0.0, n)
    {
      ghost var before := limiter.Now();
      var ok, room := limiter.IsAllowed(0.0, key);
      AskedNext(before, limiter.Now(), room, key, ok, n, limiter.window, limiter.limit, limiter.maxKeys);
      accepted := accepted + if ok then [0.0] else [];
    }
  }

  /** The other keys ask once each, at time 0.5; the last one is one too many. */
  method Flood(limiter: LocalLimiter, keys: seq<string>)
    requires limiter.Valid() && limiter.window >= 1.0 && |keys| == limiter.maxKeys + 2 && Distinct(keys)
    requires Crowded(limiter.Now(), keys, 1, limiter.limit)
    modifies limiter
    ensures limiter.Valid() && limiter.clock == 0.5
    ensures LogOf(limiter.admitted, keys[0]) == Repeated(0.0, limiter.limit)
    ensures Count(limiter.forgotten, keys[0]) == limiter.limit
  {
    ghost var before, room;
    var ok;
    for n := 1 to limiter.maxKeys + 1
      invariant limiter.Valid() && Crowded(limiter.Now(), keys, n, limiter.limit)
    {
      before := limiter.Now();
      ok, room := limiter.IsAllowed(0.5, keys[n]);
      CrowdedNext(before, limiter.Now(), room, keys, ok, n, limiter.window, limiter.limit, limiter.maxKeys);
    }
    before := limiter.Now();
    ok, room := limiter.IsAllowed(0.5, keys[limiter.maxKeys + 1]);
    FirstIsForgotten(before, limiter.Now(), room, keys, ok, limiter.window, limiter.limit, limiter.maxKeys);
  }

  /** One key uses up its limit, the others ask once each, and the first one asks again: it
      gets one request more than its limit into one window. */
  method OneTooMany(limit: nat, window: real, maxKeys: nat, keys: seq<string>) returns (accepted: Times)
    requires limit >= 1 && window >= 1.0 && |keys| == maxKeys + 2 && Distinct(keys)
    ensures |Within(accepted, -0.5, window)| == limit + 1
  {
    var limiter := new LocalLimiter(limit, window, maxKeys);
    accepted := UseUp(limiter, keys[0]);
    OnlyFirst(limiter.Now(), keys, limit);
    Flood(limiter, keys);
    ghost var before := limiter.Now();
    var ok, room := limiter.IsAllowed(0.5, keys[0]);
    AdmittedAgain(before, limiter.Now(), room, keys[0], ok, window, limit, maxKeys);
    accepted := accepted + if ok then [0.5] else [];
    AllWithin(accepted, -0.5, window);
  }

  lemma {:induction false} OnlyFirst(s: Local, keys: seq<string>, limit: nat)
    requires keys != [] && limit >= 1 && Asked(s, keys[0], limit)
    ensures Crowded(s, keys, 1, limit)
  {
    assert First(keys, 1) == {keys[0]};
  }
}
