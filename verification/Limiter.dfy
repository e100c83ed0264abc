/** The sliding-window rate limiter: its bounded in-memory log and its Redis protocol,
    against the plain log of accepted requests (backend/core/limiter.py). */
module Limiter {
  type Times = seq<real>

  predicate Sorted(log: Times) {
    forall i, j | 0 <= i < j < |log| :: log[i] <= log[j]
  }

  /** The timestamps still inside the window that ends at `now`. */
  function Active(log: Times, now: real, window: real): Times {
    if log == [] then []
    else if now - log[0] < window then [log[0]] + Active(log[1..], now, window)
    else Active(log[1..], now, window)
  }

  predicate UpTo(log: Times, now: real) {
    forall i | 0 <= i < |log| :: log[i] <= now
  }

  /** The decision of the plain, unbounded log. */
  predicate Admits(log: Times, now: real, window: real, limit: nat) {
    |Active(log, now, window)| < limit
  }

  function PlainAfter(log: Times, now: real, window: real, limit: nat): Times {
    if Admits(log, now, window, limit) then log + [now] else log
  }

  /** The answers of the plain log to requests at the given times. */
  function PlainAnswers(log: Times, times: Times, window: real, limit: nat): seq<bool>
    decreases |times|
  {
    if times == [] then []
    else
      var now := times[0];
      [Admits(log, now, window, limit)] + PlainAnswers(PlainAfter(log, now, window, limit), times[1..], window, limit)
  }

  /** Any `limit + 1` consecutive requests take at least one window. */
  predicate Spaced(log: Times, window: real, limit: nat) {
    forall i | 0 <= i && i + limit < |log| :: log[i + limit] - log[i] >= window
  }

  /** The requests in the half-open interval that starts after `a` and lasts a window. */
  function Within(log: Times, a: real, window: real): Times {
    if log == [] then []
    else if a < log[0] <= a + window then [log[0]] + Within(log[1..], a, window)
    else Within(log[1..], a, window)
  }

  lemma {:induction false} ActiveOfSuffix(log: Times, now: real, window: real, n: nat)
    requires Sorted(log) && n <= |log|
    requires forall i | 0 <= i < n :: now - log[i] >= window
    requires forall i | n <= i < |log| :: now - log[i] < window
    ensures Active(log, now, window) == log[n..]
  {
    if log == [] {
    } else {
      if n == 0 { ActiveOfSuffix(log[1..], now, window, 0); } else { ActiveOfSuffix(log[1..], now, window, n - 1); }
    }
  }

  /** In a sorted log the active timestamps are a suffix. */
  lemma {:induction false} ActiveIsSuffix(log: Times, now: real, window: real) returns (n: nat)
    requires Sorted(log)
    ensures n <= |log| && Active(log, now, window) == log[n..]
    ensures forall i | 0 <= i < n :: now - log[i] >= window
    ensures forall i | n <= i < |log| :: now - log[i] < window
  {
    n := 0;
    while n < |log| && now - log[n] >= window
      invariant n <= |log| && forall i | 0 <= i < n :: now - log[i] >= window
    {
      n := n + 1;
    }
    ActiveOfSuffix(log, now, window, n);
  }

  lemma {:induction false} SuffixWearsOff(log: Times, n: nat, now: real, window: real)
    requires Sorted(log) && n <= |log|
    ensures Active(log[n..], now, window) == Active(log, now, window) <==> n == 0 || now - log[n - 1] >= window
  {
    var i := ActiveIsSuffix(log, now, window);
    var rest := log[n..];
    assert forall x | 0 <= x < |rest| :: rest[x] == log[n + x];
    if n > 0 && now - log[n - 1] < window {
      ActiveOfSuffix(rest, now, window, 0);
      assert i <= n - 1 && |rest[0..]| < |log[i..]|;
    } else {
      assert i >= n;
      ActiveOfSuffix(rest, now, window, i - n);
      assert rest[i - n..] == log[i..];
    }
  }

  // ---------------------------------------------------------------- a log that has lost its beginning

  /** Requests that come in order, from `now` on. */
  predicate From(times: Times, now: real) {
    Sorted(times) && forall i | 0 <= i < |times| :: times[i] >= now
  }

  /** Two logs that give the same answers from `now` on, whatever is asked. */
  ghost predicate AnswerAlike(a: Times, b: Times, now: real, window: real, limit: nat) {
    forall times: Times | From(times, now) :: PlainAnswers(a, times, window, limit)
        == PlainAnswers(b, times, window, limit)
  }

  /** The first `n` requests do not matter from `now` on. */
  predicate Immaterial(log: Times, n: nat, now: real, window: real, limit: nat)
    requires n <= |log|
  {
    n == 0 || now - log[n - 1] >= window || |Active(log[n..], now, window)| >= limit
  }

  /** While a request is in the window, so are all later ones. */
  lemma {:induction false} LaterAreActive(log: Times, n: nat, now: real, window: real)
    requires Sorted(log) && 0 < n <= |log| && now - log[n - 1] < window
    ensures Active(log[n..], now, window) == log[n..] && |Active(log, now, window)| > |log| - n
  {
    var i := ActiveIsSuffix(log, now, window);
    ActiveOfSuffix(log[n..], now, window, 0);
    assert i <= n - 1;
  }

  lemma {:induction false} ImmaterialNow(log: Times, n: nat, now: real, later: real, window: real, limit: nat)
    requires Sorted(log) && UpTo(log, now) && now <= later && n <= |log| && Immaterial(log, n, now, window, limit)
    ensures Admits(log[n..], later, window, limit) == Admits(log, later, window, limit)
    ensures n == 0 || later - log[n - 1] >= window || |log[n..]| >= limit
  {
    if n == 0 || later - log[n - 1] >= window {
      SuffixWearsOff(log, n, later, window);
    } else {
      LaterAreActive(log, n, now, window);
      LaterAreActive(log, n, later, window);
    }
  }

  /** One more request at `later` leaves the beginning immaterial. */
  lemma {:induction false} ImmaterialNext(log: Times, n: nat, now: real, later: real, window: real, limit: nat)
    requires Sorted(log) && UpTo(log, now) && now <= later && n <= |log| && Immaterial(log, n, now, window, limit)
    ensures var next := PlainAfter(log, later, window, limit);
            && Sorted(next) && UpTo(next, later) && n <= |next|
            && PlainAfter(log[n..], later, window, limit) == next[n..]
            && Immaterial(next, n, later, window, limit)
  {
    ImmaterialNow(log, n, now, later, window, limit);
    assert (log + [later])[n..] == log[n..] + [later];
    var next := PlainAfter(log, later, window, limit);
    if n > 0 && later - log[n - 1] < window {
      assert next[n - 1] == log[n - 1];
      LaterAreActive(next, n, later, window);
    }
  }

  lemma {:induction false} ImmaterialIsAlike(log: Times, n: nat, now: real, times: Times, window: real, limit: nat)
    requires Sorted(log) && UpTo(log, now) && n <= |log| && Immaterial(log, n, now, window, limit) && From(times, now)
    ensures PlainAnswers(log[n..], times, window, limit) == PlainAnswers(log, times, window, limit)
    decreases |times|
  {
    if times == [] {
    } else {
      var later := times[0];
      ImmaterialNow(log, n, now, later, window, limit);
      ImmaterialNext(log, n, now, later, window, limit);
      ImmaterialIsAlike(PlainAfter(log, later, window, limit), n, later, times[1..], window, limit);
    }
  }

  function Repeated(now: real, n: nat): Times { seq(n, _ => now) }

  /** Two logs that differ in their first answer, or after it. */
  lemma {:induction false} DifferenceShows(a: Times, b: Times, times: Times, window: real, limit: nat)
    requires times != []
    requires var now := times[0];
             || Admits(a, now, window, limit) != Admits(b, now, window, limit)
             || PlainAnswers(PlainAfter(a, now, window, limit), times[1..], window, limit)
                != PlainAnswers(PlainAfter(b, now, window, limit), times[1..], window, limit)
    ensures PlainAnswers(a, times, window, limit) != PlainAnswers(b, times, window, limit)
  {
    var x, y := PlainAnswers(a, times, window, limit), PlainAnswers(b, times, window, limit);
    assert x[0] == Admits(a, times[0], window, limit) && y[0] == Admits(b, times[0], window, limit);
    assert x[1..] == PlainAnswers(PlainAfter(a, times[0], window, limit), times[1..], window, limit);
    assert y[1..] == PlainAnswers(PlainAfter(b, times[0], window, limit), times[1..], window, limit);
  }

  lemma {:induction false} ShorterHasRoom(log: Times, n: nat, now: real, window: real, limit: nat)
    requires Sorted(log) && 0 < n <= |log| && now - log[n - 1] < window && |log| - n < limit
    ensures Admits(log[n..], now, window, limit)
    ensures Admits(log, now, window, limit) ==> |log| + 1 - n < limit
  {
    LaterAreActive(log, n, now, window);
  }

  lemma {:induction false} OneMore(log: Times, n: nat, now: real)
    requires 0 < n <= |log|
    ensures (log + [now])[n..] == log[n..] + [now] && (log + [now])[n - 1] == log[n - 1]
  {
  }

  lemma {:induction false} RepeatedTail(now: real, n: nat)
    requires n > 0
    ensures Repeated(now, n)[0] == now && Repeated(now, n)[1..] == Repeated(now, n - 1)
  {
  }

  /** Otherwise enough requests at `now` tell the two apart: the shorter log runs out of
      room later. */
  lemma {:induction false} MaterialShows(log: Times, n: nat, now: real, window: real, limit: nat)
    requires Sorted(log) && UpTo(log, now) && window > 0.0
    requires 0 < n <= |log| && now - log[n - 1] < window && |log| - n < limit
    ensures var times := Repeated(now, limit - (|log| - n));
            PlainAnswers(log[n..], times, window, limit) != PlainAnswers(log, times, window, limit)
    decreases limit - |log| + n
  {
    ShorterHasRoom(log, n, now, window, limit);
    RepeatedTail(now, limit - (|log| - n));
    if Admits(log, now, window, limit) {
      OneMore(log, n, now);
      AppendedIsTidy(log, now);
      MaterialShows(log + [now], n, now, window, limit);
    }
    DifferenceShows(log[n..], log, Repeated(now, limit - (|log| - n)), window, limit);
  }

  /** A log without its first `n` requests answers like the whole one from `now` on exactly
      if those have left the window, or the others alone fill the limit. */
  lemma {:induction false} AlikeExactly(log: Times, n: nat, now: real, window: real, limit: nat)
    requires Sorted(log) && UpTo(log, now) && n <= |log| && window > 0.0
    ensures AnswerAlike(log[n..], log, now, window, limit) <==> Immaterial(log, n, now, window, limit)
  {
    if Immaterial(log, n, now, window, limit) {
      forall times: Times | From(times, now)
        ensures PlainAnswers(log[n..], times, window, limit) == PlainAnswers(log, times, window, limit)
      {
        ImmaterialIsAlike(log, n, now, times, window, limit);
      }
    } else {
      LaterAreActive(log, n, now, window);
      MaterialShows(log, n, now, window, limit);
      assert From(Repeated(now, limit - (|log| - n)), now);
    }
  }

  lemma {:induction false} ActiveAgain(log: Times, now: real, later: real, window: real)
    requires now <= later
    ensures Active(Active(log, now, window), later, window) == Active(log, later, window)
  {
    if log == [] {
    } else {
      ActiveAgain(log[1..], now, later, window);
      if now - log[0] < window {
        assert Active(log, now, window)[1..] == Active(log[1..], now, window);
      }
    }
  }

  lemma {:induction false} ActiveOfNext(log: Times, t: real, now: real, window: real)
    ensures Active(log + [t], now, window)
            == Active(log, now, window) + (if now - t < window then [t] else [])
  {
    if log == [] {
      assert log + [t] == [t];
      assert Active([t][1..], now, window) == [];
    } else {
      assert (log + [t])[1..] == log[1..] + [t];
      ActiveOfNext(log[1..], t, now, window);
    }
  }

  /** Admitting a request keeps the log sorted and spaced. */
  lemma {:induction false} AdmittedStaysSpaced(log: Times, now: real, window: real, limit: nat)
    requires Sorted(log) && Spaced(log, window, limit) && limit >= 1
    requires UpTo(log, now) && Admits(log, now, window, limit)
    ensures Sorted(log + [now]) && Spaced(log + [now], window, limit)
  {
    var n := ActiveIsSuffix(log, now, window);
  }

  lemma {:induction false} WithinIsShort(log: Times, a: real, window: real, n: nat)
    requires forall i | n <= i < |log| :: log[i] > a + window
    ensures |Within(log, a, window)| <= n
    decreases |log|
  {
    if log == [] {
    } else {
      if n > 0 { WithinIsShort(log[1..], a, window, n - 1); } else { WithinIsShort(log[1..], a, window, 0); }
    }
  }

  /** A spaced log puts at most `limit` requests into any window-long interval. */
  lemma {:induction false} SpacedIsBounded(log: Times, a: real, window: real, limit: nat)
    requires Sorted(log) && Spaced(log, window, limit)
    ensures |Within(log, a, window)| <= limit
    decreases |log|
  {
    if log == [] {
    } else {
      if a < log[0] <= a + window {
        if limit < |log| { assert log[limit] - log[0] >= window; }
        WithinIsShort(log, a, window, limit);
      } else {
        forall i | 0 <= i && i + limit < |log[1..]| ensures log[1..][i + limit] - log[1..][i] >= window {
          assert log[i + 1 + limit] - log[i + 1] >= window;
        }
        SpacedIsBounded(log[1..], a, window, limit);
      }
    }
  }

  lemma {:induction false} StaleIsInactive(log: Times, now: real, window: real)
    requires Sorted(log) && (log != [] ==> now - log[|log| - 1] >= window)
    ensures Active(log, now, window) == []
  {
    if log == [] {
    } else {
      StaleIsInactive(log[1..], now, window);
    }
  }

  // ---------------------------------------------------------------- the in-memory limiter

  function LogOf(logs: map<string, Times>, key: string): Times {
    if key in logs then logs[key] else []
  }

  /** A key that still has a request inside the window. */
  predicate Live(logs: map<string, Times>, key: string, now: real, window: real) {
    key in logs && logs[key] != [] && now - logs[key][|logs[key]| - 1] < window
  }

  /** The age by which the overflow branch orders the keys. */
  function Oldest(log: Times, now: real): real {
    if log != [] then log[0] else now
  }

  predicate Stale(log: Times, now: real, window: real) {
    log == [] || now - log[|log| - 1] >= window
  }

  /** What the table's timestamps of a key have to do with the admitted requests that the
      limiter has not forgotten. */
  ghost predicate Tracks(recent: Times, kept: Times, clock: real, window: real, limit: nat) {
    && Sorted(recent) && UpTo(recent, clock)
    && Sorted(kept) && UpTo(kept, clock) && Spaced(kept, window, limit)
    && Active(recent, clock, window) == Active(kept, clock, window)
  }

  /** The same, of all requests ever admitted for a key, of which the first `n` were thrown
      away while they were live. */
  ghost predicate KeyOk(recent: Times, full: Times, n: nat, clock: real, window: real, limit: nat) {
    n <= |full| && Sorted(full) && UpTo(full, clock) && Tracks(recent, full[n..], clock, window, limit)
  }

  lemma {:induction false} TracksOn(recent: Times, recent': Times, kept: Times, clock: real, now: real, window: real,
                                    limit: nat)
    requires Tracks(recent, kept, clock, window, limit) && clock <= now
    requires recent' == recent || (recent' == [] && Stale(recent, now, window))
    ensures Tracks(recent', kept, now, window, limit)
  {
    ActiveAgain(recent, clock, now, window);
    ActiveAgain(kept, clock, now, window);
    if recent' != recent { StaleIsInactive(recent, now, window); }
  }

  lemma {:induction false} OtherKeyStays(recent: Times, recent': Times, full: Times, n: nat, n': nat,
                      clock: real, now: real, window: real, limit: nat)
    requires KeyOk(recent, full, n, clock, window, limit) && clock <= now
    requires OtherKey(recent, recent', full, n, n', now, window)
    ensures KeyOk(recent', full, n', now, window, limit)
  {
    if n' == n && (recent' == recent || Stale(recent, now, window)) {
      TracksOn(recent, recent', full[n..], clock, now, window, limit);
    } else {
      assert full[n'..] == [];
    }
  }

  lemma {:induction false} ActiveIsTidy(log: Times, now: real, window: real)
    requires Sorted(log) && UpTo(log, now)
    ensures Sorted(Active(log, now, window)) && UpTo(Active(log, now, window), now)
    ensures Active(Active(log, now, window), now, window) == Active(log, now, window)
  {
    var n := ActiveIsSuffix(log, now, window);
    ActiveAgain(log, now, now, window);
  }

  lemma {:induction false} AppendedIsTidy(log: Times, now: real)
    requires Sorted(log) && UpTo(log, now)
    ensures Sorted(log + [now]) && UpTo(log + [now], now)
  {
  }

  /** A key's timestamps after a request that found `active` in the window. */
  function Stored(active: Times, now: real, limit: nat): Times {
    if |active| < limit then active + [now] else active
  }

  lemma {:induction false} OwnKeyTracks(recent: Times, kept: Times, clock: real, now: real, window: real, limit: nat)
    requires Tracks(recent, kept, clock, window, limit) && clock <= now && window > 0.0 && limit >= 1
    ensures var active := Active(recent, now, window);
            && (|active| < limit <==> Admits(kept, now, window, limit))
            && Tracks(Stored(active, now, limit), if |active| < limit then kept + [now] else kept, now, window, limit)
  {
    var active := Active(recent, now, window);
    ActiveIsTidy(recent, now, window);
    ActiveAgain(recent, clock, now, window);
    ActiveAgain(kept, clock, now, window);
    if |active| < limit {
      AppendedIsTidy(active, now);
      AppendedIsTidy(kept, now);
      ActiveOfNext(active, now, now, window);
      ActiveOfNext(kept, now, now, window);
      AdmittedStaysSpaced(kept, now, window, limit);
    }
  }

  lemma {:induction false} OwnKeyStays(recent: Times, full: Times, n: nat, clock: real, now: real, window: real,
                                       limit: nat)
    requires KeyOk(recent, full, n, clock, window, limit) && clock <= now && window > 0.0 && limit >= 1
    ensures var active := Active(recent, now, window);
            && (|active| < limit <==> Admits(full[n..], now, window, limit))
            && KeyOk(Stored(active, now, limit), if |active| < limit then full + [now] else full, n, now, window, limit)
  {
    OwnKeyTracks(recent, full[n..], clock, now, window, limit);
    AppendedIsTidy(full, now);
    assert (full + [now])[n..] == full[n..] + [now];
  }

  function Count(counts: map<string, nat>, key: string): nat {
    if key in counts then counts[key] else 0
  }

  ghost predicate AllKeysOk(recent: map<string, Times>, full: map<string, Times>, forgotten: map<string, nat>,
                            clock: real, window: real, limit: nat) {
    forall k: string :: KeyOk(LogOf(recent, k), LogOf(full, k), Count(forgotten, k), clock, window, limit)
  }

  /** What a request of another key may do to a key: nothing, drop stale timestamps, or
      forget everything admitted so far. */
  predicate OtherKey(recent: Times, recent': Times, full: Times, n: nat, n': nat, now: real, window: real) {
    || (recent' == recent && n' == n)
    || (recent' == [] && n' == n && Stale(recent, now, window))
    || (recent' == [] && n' == |full|)
  }

  ghost predicate RoomMade(recent: map<string, Times>, room: map<string, Times>, full: map<string, Times>,
                           forgotten: map<string, nat>, forgotten': map<string, nat>,
                           key: string, now: real, window: real) {
    && Count(forgotten', key) == Count(forgotten, key)
    && forall k | k != key ::
         OtherKey(LogOf(recent, k), LogOf(room, k), LogOf(full, k), Count(forgotten, k), Count(forgotten', k), now,
             window)
  }

  /** What the clean-up does to the table: stale timestamps go, and those of lost keys. */
  ghost predicate KeptOrLost(recent: map<string, Times>, room: map<string, Times>, key: string, lost: set<string>,
                             now: real, window: real) {
    && (forall k | k in lost :: LogOf(room, k) == [])
    && forall k | k != key && k !in lost ::
         LogOf(room, k) == LogOf(recent, k) || (LogOf(room, k) == [] && Stale(LogOf(recent, k), now, window))
  }

  lemma {:induction false} MoreKeys(keys: set<string>, key: string)
    ensures |keys + {key}| <= |keys| + 1
  {
    if key in keys { assert keys + {key} == keys; }
  }

  /** Every request ever admitted, after a request that found `active` in the window. */
  function Logged(full: map<string, Times>, key: string, active: Times, now: real, limit: nat): map<string, Times> {
    if |active| < limit then full[key := LogOf(full, key) + [now]] else full
  }

  lemma {:induction false} OneKeyAfter(recent: map<string, Times>, room: map<string, Times>, full: map<string, Times>,
                         forgotten: map<string, nat>, forgotten': map<string, nat>,
                         key: string, k: string, clock: real, now: real, window: real, limit: nat)
    requires clock <= now && window > 0.0 && limit >= 1
    requires KeyOk(LogOf(recent, k), LogOf(full, k), Count(forgotten, k), clock, window, limit)
    requires if k == key then Count(forgotten', k) == Count(forgotten, k)
             else OtherKey(LogOf(recent, k), LogOf(room, k), LogOf(full, k), Count(forgotten, k),
                  Count(forgotten', k), now, window)
    ensures var active := Active(LogOf(recent, key), now, window);
            KeyOk(LogOf(room[key := Stored(active, now, limit)], k), LogOf(Logged(full, key, active, now, limit), k),
                  Count(forgotten', k), now, window, limit)
  {
    if k == key {
      OwnKeyStays(LogOf(recent, k), LogOf(full, k), Count(forgotten, k), clock, now, window, limit);
    } else {
      OtherKeyStays(LogOf(recent, k), LogOf(room, k), LogOf(full, k), Count(forgotten, k), Count(forgotten', k),
                    clock, now, window, limit);
    }
  }

  lemma {:induction false} RequestKeepsKeys(recent: map<string, Times>, room: map<string, Times>,
                                            full: map<string, Times>,
                         forgotten: map<string, nat>, forgotten': map<string, nat>,
                         key: string, clock: real, now: real, window: real, limit: nat)
    requires clock <= now && window > 0.0 && limit >= 1
    requires AllKeysOk(recent, full, forgotten, clock, window, limit)
    requires RoomMade(recent, room, full, forgotten, forgotten', key, now, window)
    ensures var active := Active(LogOf(recent, key), now, window);
            && Count(forgotten, key) <= |LogOf(full, key)|
            && (|active| < limit <==> Admits(LogOf(full, key)[Count(forgotten, key)..], now, window, limit))
            && AllKeysOk(room[key := Stored(active, now, limit)], Logged(full, key, active, now, limit),
                 forgotten', now, window, limit)
  {
    var active := Active(LogOf(recent, key), now, window);
    assert KeyOk(LogOf(recent, key), LogOf(full, key), Count(forgotten, key), clock, window, limit);
    OwnKeyStays(LogOf(recent, key), LogOf(full, key), Count(forgotten, key), clock, now, window, limit);
    forall k: string
      ensures KeyOk(LogOf(room[key := Stored(active, now, limit)], k), LogOf(Logged(full, key, active, now, limit), k),
                    Count(forgotten', k), now, window, limit)
    {
      assert KeyOk(LogOf(recent, k), LogOf(full, k), Count(forgotten, k), clock, window, limit);
      OneKeyAfter(recent, room, full, forgotten, forgotten', key, k, clock, now, window, limit);
    }
  }

  /** The limiter as a value: its table, and what the table cannot tell, namely every
      request ever admitted and, per key, how many of those the overflow branch has made
      it forget. */
  datatype Local = Local(requests: map<string, Times>, admitted: map<string, Times>, forgotten: map<string, nat>,
                         clock: real)

  function Remembered(s: Local, key: string): Times {
    var full, n := LogOf(s.admitted, key), Count(s.forgotten, key);
    if n <= |full| then full[n..] else []
  }

  function LiveKeys(requests: map<string, Times>, now: real, window: real): set<string> {
    set k | k in requests && Live(requests, k, now, window)
  }

  /** The table with an entry for the key, as looking it up leaves it. */
  function Widened(t: map<string, Times>, key: string): map<string, Times> {
    if key in t then t else t[key := []]
  }

  /** Making room: a table that fits stays as it is; of one that is too big, the live keys
      stay, but only as many as fit, and none goes that is younger than one that stays. */
  ghost predicate RoomFor(t: map<string, Times>, room: map<string, Times>, now: real, window: real, maxKeys: nat) {
    if |t| <= maxKeys then room == t
    else
      var live := LiveKeys(t, now, window);
      && room.Keys <= live && (forall k | k in room :: room[k] == t[k])
      && |room| == (if |live| <= maxKeys then |live| else maxKeys)
      && forall k, d | k in room && d in live && d !in room :: Oldest(t[d], now) <= Oldest(t[k], now)
  }

  /** One request, with the table `room` in between: it is answered as the plain log of the
      key's remembered requests would, and the other live keys for which there was no room
      are forgotten. */
  ghost predicate Answered(s: Local, s': Local, room: map<string, Times>, now: real, key: string, ok: bool,
                           window: real, limit: nat, maxKeys: nat) {
    && s'.clock == now
    && ok == Admits(Remembered(s, key), now, window, limit)
    && s'.admitted == (if ok then s.admitted[key := LogOf(s.admitted, key) + [now]] else s.admitted)
    && RoomFor(Widened(s.requests, key), room, now, window, maxKeys)
    && s'.requests == room[key := Stored(Active(LogOf(s.requests, key), now, window), now, limit)]
    && forall k: string :: Count(s'.forgotten, k) == CountAfter(s, room, now, key, k, window)
  }

  lemma {:induction false} AnsweredBy(s: Local, s': Local, room: map<string, Times>, active: Times, now: real,
                                      key: string,
                                      window: real, limit: nat, maxKeys: nat)
    requires active == Active(LogOf(s.requests, key), now, window)
    requires s'.clock == now && s'.admitted == Logged(s.admitted, key, active, now, limit)
    requires s'.requests == room[key := Stored(active, now, limit)]
    requires RoomFor(Widened(s.requests, key), room, now, window, maxKeys)
    requires Count(s.forgotten, key) <= |LogOf(s.admitted, key)|
    requires |active| < limit <==> Admits(LogOf(s.admitted, key)[Count(s.forgotten, key)..], now, window, limit)
    requires forall k: string :: Count(s'.forgotten, k) == CountAfter(s, room, now, key, k, window)
    ensures Answered(s, s', room, now, key, |active| < limit, window, limit, maxKeys)
  {
  }

  function CountAfter(s: Local, room: map<string, Times>, now: real, key: string, k: string, window: real): nat {
    if k != key && k in LiveKeys(s.requests, now, window) && k !in room then |LogOf(s.admitted, k)|
    else Count(s.forgotten, k)
  }

  lemma {:induction false} SameLiveKeys(t: map<string, Times>, key: string, now: real, window: real)
    ensures LiveKeys(Widened(t, key), now, window) == LiveKeys(t, now, window)
  {
  }

  /** An overflow has no room for exactly as many live keys as are too many. */
  lemma {:induction false} OverflowForgets(t: map<string, Times>, room: map<string, Times>, key: string,
                                           now: real, window: real, maxKeys: nat)
    requires RoomFor(Widened(t, key), room, now, window, maxKeys)
    ensures var live := LiveKeys(t, now, window);
            |live - room.Keys| == if |live| <= maxKeys then 0 else |live| - maxKeys
  {
    var live := LiveKeys(t, now, window);
    SameLiveKeys(t, key, now, window);
    if |Widened(t, key)| <= maxKeys {
      assert live - room.Keys == {};
      FewerKeys(live, room.Keys);
    } else {
      assert |live - room.Keys| == |live| - |room.Keys|;
    }
  }

  lemma {:induction false} FewerKeys(a: set<string>, b: set<string>)
    requires a <= b
    ensures |a| <= |b|
  {
    assert |b - a| == |b| - |a|;
  }

  lemma {:induction false} RoomKeeps(t: map<string, Times>, room: map<string, Times>, key: string,
                                     now: real, window: real, maxKeys: nat)
    requires RoomFor(Widened(t, key), room, now, window, maxKeys)
    ensures KeptOrLost(t, room, key, LiveKeys(t, now, window) - room.Keys - {key}, now, window)
  {
    SameLiveKeys(t, key, now, window);
  }

  /** The limiter with its table of recent timestamps. */
  class LocalLimiter {
    const limit: nat
    const window: real
    const maxKeys: nat
    var requests: map<string, Times>
    ghost var admitted: map<string, Times>
    ghost var forgotten: map<string, nat>
    ghost var clock: real

    ghost function Now(): Local reads this { Local(requests, admitted, forgotten, clock) }

    ghost predicate Valid() reads this {
      && limit >= 1 && window > 0.0 && |requests| <= maxKeys + 1
      && AllKeysOk(requests, admitted, forgotten, clock, window, limit)
    }

    constructor (limit: nat, window: real, maxKeys: nat)
      requires limit >= 1 && window >= 1.0
      ensures Valid() && Now() == Local(map[], map[], map[], 0.0)
      ensures this.limit == limit && this.window == window && this.maxKeys == maxKeys
    {
      this.limit, this.window, this.maxKeys := limit, window, maxKeys;
      requests, admitted, forgotten, clock := map[], map[], map[], 0.0;
    }

    method DeleteKeys(keys: set<string>)
      modifies this`requests
      ensures requests == old(requests) - keys
    {
      var todo := keys;
      while todo != {}
        invariant todo <= keys
        invariant requests == old(requests) - (keys - todo)
      {
        var k :| k in todo;
        requests := requests - {k};
        todo := todo - {k};
      }
    }

    /** The overflow branch: the keys with the oldest first timestamp go. */
    method EvictOldest(now: real)
      modifies this`requests
      ensures requests.Keys <= old(requests).Keys && forall k | k in requests :: requests[k] == old(requests)[k]
      ensures |requests| == if |old(requests)| <= maxKeys then |old(requests)| else maxKeys
      ensures |old(requests)| <= maxKeys ==> requests == old(requests)
      ensures forall k, d | k in requests && d in old(requests) && d !in requests ::
                Oldest(old(requests)[d], now) <= Oldest(requests[k], now)
    {
      while |requests| > maxKeys
        invariant requests.Keys <= old(requests).Keys && forall k | k in requests :: requests[k] == old(requests)[k]
        invariant |old(requests)| <= maxKeys ==> requests == old(requests)
        invariant |old(requests)| > maxKeys ==> |requests| >= maxKeys
        invariant forall k, d | k in requests && d in old(requests) && d !in requests ::
                    Oldest(old(requests)[d], now) <= Oldest(requests[k], now)
        decreases |requests|
      {
        var k := FindOldest(now);
        requests := requests - {k};
      }
    }

    method FindOldest(now: real) returns (k: string)
      requires |requests| > 0
      ensures k in requests && forall d | d in requests :: Oldest(requests[k], now) <= Oldest(requests[d], now)
    {
      k :| k in requests;
      var todo := requests.Keys - {k};
      while todo != {}
        invariant todo <= requests.Keys && k in requests
        invariant forall d | d in requests && d !in todo :: Oldest(requests[k], now) <= Oldest(requests[d], now)
      {
        var d :| d in todo;
        if Oldest(requests[d], now) < Oldest(requests[k], now) {
          k := d;
        }
        todo := todo - {d};
      }
    }

    /** One request. */
    method IsAllowed(now: real, key: string) returns (ok: bool, ghost room: map<string, Times>)
      requires Valid() && clock <= now
      modifies this
      ensures Valid() && Answered(old(Now()), Now(), room, now, key, ok, window, limit, maxKeys)
    {
      ghost var before := Now();
      var active := MakeRoom(now, key);
      room := requests;
      Forget(before.requests, key, now);
      RequestKeepsKeys(before.requests, room, admitted, before.forgotten, forgotten, key, clock, now, window, limit);
      clock := now;
      Record(now, key, active);
      ok := |active| < limit;
      AnsweredBy(before, Now(), room, active, now, key, window, limit, maxKeys);
    }

    /** Stores a key's timestamps, with the new one if it is admitted. */
    method Record(now: real, key: string, active: Times)
      requires |requests.Keys + {key}| <= maxKeys + 1
      modifies this`requests, this`admitted
      ensures |requests| <= maxKeys + 1
      ensures requests == old(requests)[key := Stored(active, now, limit)]
      ensures admitted == Logged(old(admitted), key, active, now, limit)
    {
      requests := requests[key := Stored(active, now, limit)];
      assert requests.Keys == old(requests).Keys + {key};
      admitted := Logged(admitted, key, active, now, limit);
    }

    /** The window's timestamps of a key, with room made in a table that is too big. */
    method MakeRoom(now: real, key: string) returns (active: Times)
      modifies this`requests
      ensures active == Active(LogOf(old(requests), key), now, window)
      ensures |requests.Keys + {key}| <= maxKeys + 1
      ensures RoomFor(Widened(old(requests), key), requests, now, window, maxKeys)
    {
      if key !in requests {
        requests := requests[key := []];
      }
      active := Active(requests[key], now, window);
      if |requests| > maxKeys {
        Shrink(now);
        MoreKeys(requests.Keys, key);
      } else {
        assert requests.Keys + {key} == requests.Keys;
      }
    }

    /** The clean-up of a table that has grown too big. */
    method Shrink(now: real)
      requires |requests| > maxKeys
      modifies this`requests
      ensures |requests| <= maxKeys && RoomFor(old(requests), requests, now, window, maxKeys)
    {
      ghost var live := LiveKeys(requests, now, window);
      DeleteKeys(set k | k in requests && !Live(requests, k, now, window));
      assert requests.Keys == live;
      EvictOldest(now);
    }

    /** Notes that everything admitted so far for the keys without room is forgotten. */
    ghost method Forget(before: map<string, Times>, key: string, now: real)
      requires RoomFor(Widened(before, key), requests, now, window, maxKeys)
      modifies this`forgotten
      ensures RoomMade(before, requests, admitted, old(forgotten), forgotten, key, now, window)
      ensures forall k: string :: Count(forgotten, k)
                == CountAfter(Local(before, admitted, old(forgotten), clock), requests, now, key, k, window)
    {
      var lost := LiveKeys(before, now, window) - requests.Keys - {key};
      RoomKeeps(before, requests, key, now, window, maxKeys);
      forgotten := map k | k in forgotten.Keys + lost :: if k in lost then |LogOf(admitted, k)| else forgotten[k];
    }

    /** The limit itself: no window-long interval ever holds more of the remembered
        requests of a key. */
    lemma {:induction false} AdmittedAreBounded(key: string, a: real)
      requires Valid()
      ensures |Within(Remembered(Now(), key), a, window)| <= limit
    {
      assert KeyOk(LogOf(requests, key), LogOf(admitted, key), Count(forgotten, key), clock, window, limit);
      SpacedIsBounded(Remembered(Now(), key), a, window, limit);
    }

    /** Forgetting wears off: from `now` on, the limiter answers a key as if it had forgotten
        nothing exactly if nothing was forgotten, the last forgotten request has left the
        window, or the remembered ones alone fill the limit. */
    lemma {:induction false} ForgettingWearsOff(key: string, now: real)
      requires Valid() && clock <= now
      ensures var full, n := LogOf(admitted, key), Count(forgotten, key);
              && n <= |full|
              && (AnswerAlike(Remembered(Now(), key), full, now, window, limit)
                  <==> n == 0 || now - full[n - 1] >= window
                       || |Active(Remembered(Now(), key), now, window)| >= limit)
    {
      var full, n := LogOf(admitted, key), Count(forgotten, key);
      assert KeyOk(LogOf(requests, key), full, n, clock, window, limit);
      AlikeExactly(full, n, now, window, limit);
    }
  }

  // ---------------------------------------------------------------- runs of the in-memory limiter

  /** A request to the in-memory limiter. */
  datatype Call = Call(key: string, time: real)

  /** A run of requests of any keys, each answered by the limiter in the state the one
      before left. */
  ghost predicate LocalRun(trace: seq<Local>, calls: seq<Call>, answers: seq<bool>, rooms: seq<map<string, Times>>,
                           window: real, limit: nat, maxKeys: nat) {
    && |trace| == |calls| + 1 && |answers| == |calls| && |rooms| == |calls|
    && forall i | 0 <= i < |calls| ::
         Answered(trace[i], trace[i + 1], rooms[i], calls[i].time, calls[i].key, answers[i], window, limit, maxKeys)
  }

  function TimesFor(calls: seq<Call>, key: string): Times {
    if calls == [] then []
    else (if calls[0].key == key then [calls[0].time] else []) + TimesFor(calls[1..], key)
  }

  function AnswersFor(calls: seq<Call>, answers: seq<bool>, key: string): seq<bool>
    requires |answers| == |calls|
  {
    if calls == [] then []
    else (if calls[0].key == key then [answers[0]] else []) + AnswersFor(calls[1..], answers[1..], key)
  }

  lemma {:induction false} RememberedAfter(s: Local, s': Local, room: map<string, Times>, call: Call, ok: bool,
                                           key: string,
                                           window: real, limit: nat, maxKeys: nat)
    requires Answered(s, s', room, call.time, call.key, ok, window, limit, maxKeys)
    requires Count(s'.forgotten, key) == Count(s.forgotten, key) <= |LogOf(s.admitted, key)|
    ensures Count(s'.forgotten, key) <= |LogOf(s'.admitted, key)|
    ensures Remembered(s', key)
            == if call.key == key then PlainAfter(Remembered(s, key), call.time, window, limit) else Remembered(s, key)
  {
    var full, n := LogOf(s.admitted, key), Count(s.forgotten, key);
    assert (full + [call.time])[n..] == full[n..] + [call.time];
  }

  /** The answers a key gets are those of the plain log, whatever requests of other keys
      come in between, as long as none of them makes the limiter forget it. */
  lemma {:induction false} LocalMatchesLog(trace: seq<Local>, calls: seq<Call>, answers: seq<bool>,
                                           rooms: seq<map<string, Times>>, key: string, window: real, limit: nat,
                                           maxKeys: nat)
    requires LocalRun(trace, calls, answers, rooms, window, limit, maxKeys)
    requires Count(trace[0].forgotten, key) <= |LogOf(trace[0].admitted, key)|
    requires forall i | 0 <= i < |trace| :: Count(trace[i].forgotten, key) == Count(trace[0].forgotten, key)
    ensures AnswersFor(calls, answers, key) == PlainAnswers(Remembered(trace[0], key), TimesFor(calls, key),
            window, limit)
    decreases |calls|
  {
    if calls == [] {
    } else {
      assert Answered(trace[0], trace[1], rooms[0], calls[0].time, calls[0].key, answers[0], window, limit, maxKeys);
      RememberedAfter(trace[0], trace[1], rooms[0], calls[0], answers[0], key, window, limit, maxKeys);
      LocalMatchesLog(trace[1..], calls[1..], answers[1..], rooms[1..], key, window, limit, maxKeys);
      var rest := AnswersFor(calls[1..], answers[1..], key);
      assert trace[1..][0] == trace[1];
      if calls[0].key == key {
        assert TimesFor(calls, key)[0] == calls[0].time && TimesFor(calls, key)[1..] == TimesFor(calls[1..], key);
        assert AnswersFor(calls, answers, key) == [answers[0]] + rest;
      } else {
        assert TimesFor(calls, key) == TimesFor(calls[1..], key);
        assert AnswersFor(calls, answers, key) == rest;
      }
    }
  }

  // ---------------------------------------------------------------- the Redis protocol

  datatype Request = Request(id: nat, time: real)

  /** The sorted set of one key, shared by all servers. `accepted` lists the requests
      that were told yes, and `refused` those told no whose member is still to be
      removed; `lastTouch` is when the key's own expiry was last renewed. */
  datatype Shared = Shared(members: map<nat, real>, clock: real, lastTouch: real, accepted: seq<Request>,
                           refused: set<nat>)

  datatype Event =
    | Pipeline(id: nat, now: real)
    | RemoveRefused(id: nat)
    | KeyExpires(now: real)

  function Trimmed(members: map<nat, real>, now: real, window: real): map<nat, real> {
    map m | m in members && members[m] > now - window :: members[m]
  }

  predicate Enabled(s: Shared, e: Event, window: real) {
    match e
    case Pipeline(id, now) =>
      now >= s.clock && id !in s.members && id !in s.refused
      && forall i | 0 <= i < |s.accepted| :: s.accepted[i].id != id
    case RemoveRefused(id) => id in s.refused
    case KeyExpires(now) => now >= s.clock && now >= s.lastTouch + window + 1.0
  }

  /** The atomic pipeline: trim, add, count, renew; the member of a refused request is
      removed only by a later command. */
  function Apply(s: Shared, e: Event, window: real, limit: nat): Shared {
    match e
    case Pipeline(id, now) =>
      var members := Trimmed(s.members, now, window)[id := now];
      if |members| > limit then Shared(members, now, now, s.accepted, s.refused + {id})
      else Shared(members, now, now, s.accepted + [Request(id, now)], s.refused)
    case RemoveRefused(id) => s.(members := s.members - {id}, refused := s.refused - {id})
    case KeyExpires(now) => s.(members := map[], clock := now)
  }

  function TimesOf(rs: seq<Request>): Times {
    seq(|rs|, i requires 0 <= i < |rs| => rs[i].time)
  }

  ghost predicate SharedOk(s: Shared, window: real, limit: nat) {
    var log := TimesOf(s.accepted);
    && Sorted(log) && UpTo(log, s.lastTouch) && s.lastTouch <= s.clock && Spaced(log, window, limit)
    && (forall i, j | 0 <= i < j < |s.accepted| :: s.accepted[i].id != s.accepted[j].id)
    && (forall i | 0 <= i < |s.accepted| :: s.accepted[i].id !in s.refused)
    && (forall i | 0 <= i < |s.accepted| && s.accepted[i].time > s.clock - window ::
          s.accepted[i].id in s.members && s.members[s.accepted[i].id] == s.accepted[i].time)
  }

  function IdsOf(rs: seq<Request>): set<nat> {
    set i | 0 <= i < |rs| :: rs[i].id
  }

  lemma {:induction false} DistinctIdsCount(rs: seq<Request>)
    requires forall i, j | 0 <= i < j < |rs| :: rs[i].id != rs[j].id
    ensures |IdsOf(rs)| == |rs|
  {
    if rs == [] {
    } else {
      var n := |rs| - 1;
      DistinctIdsCount(rs[..n]);
      assert IdsOf(rs) == IdsOf(rs[..n]) + {rs[n].id};
    }
  }

  lemma {:induction false} SubsetCount(a: set<nat>, b: set<nat>)
    requires a <= b
    ensures |a| <= |b|
  {
    if a == {} {
    } else {
      var x :| x in a;
      SubsetCount(a - {x}, b - {x});
    }
  }

  /** The members still in the window at `now` include every accepted request there. */
  lemma {:induction false} AcceptedAreCounted(s: Shared, now: real, window: real, limit: nat)
    requires SharedOk(s, window, limit) && now >= s.clock
    ensures |Active(TimesOf(s.accepted), now, window)| <= |Trimmed(s.members, now, window)|
  {
    var log, members := TimesOf(s.accepted), Trimmed(s.members, now, window);
    var n := ActiveIsSuffix(log, now, window);
    var recent := s.accepted[n..];
    forall i | 0 <= i < |recent| ensures recent[i].id in members {
      assert recent[i] == s.accepted[n + i] && log[n + i] == recent[i].time;
    }
    DistinctIdsCount(recent);
    SubsetCount(IdsOf(recent), members.Keys);
  }

  lemma {:induction false} AcceptKeeps(s: Shared, id: nat, now: real, window: real, limit: nat)
    requires SharedOk(s, window, limit) && Enabled(s, Pipeline(id, now), window) && limit >= 1 && window > 0.0
    requires |Trimmed(s.members, now, window)| < limit
    ensures SharedOk(Shared(Trimmed(s.members, now, window)[id := now], now, now,
                            s.accepted + [Request(id, now)], s.refused), window, limit)
  {
    var log := TimesOf(s.accepted);
    AcceptedAreCounted(s, now, window, limit);
    AdmittedStaysSpaced(log, now, window, limit);
    assert TimesOf(s.accepted + [Request(id, now)]) == log + [now];
  }

  lemma RefuseKeeps(s: Shared, id: nat, now: real, window: real, limit: nat)
    requires SharedOk(s, window, limit) && Enabled(s, Pipeline(id, now), window)
    ensures SharedOk(Shared(Trimmed(s.members, now, window)[id := now], now, now, s.accepted, s.refused + {id}),
            window, limit)
  {
  }

  lemma {:induction false} ExpiryKeeps(s: Shared, now: real, window: real, limit: nat)
    requires SharedOk(s, window, limit) && Enabled(s, KeyExpires(now), window)
    ensures SharedOk(s.(members := map[], clock := now), window, limit)
  {
    forall i | 0 <= i < |s.accepted| ensures s.accepted[i].time <= now - window {
      assert TimesOf(s.accepted)[i] <= s.lastTouch;
    }
  }

  lemma {:induction false} ApplyKeeps(s: Shared, e: Event, window: real, limit: nat)
    requires SharedOk(s, window, limit) && Enabled(s, e, window) && limit >= 1 && window > 0.0
    ensures SharedOk(Apply(s, e, window, limit), window, limit)
  {
    match e
    case Pipeline(id, now) =>
      TrimmedCount(s, id, now, window);
      if |Trimmed(s.members, now, window)| < limit {
        AcceptKeeps(s, id, now, window, limit);
      } else {
        RefuseKeeps(s, id, now, window, limit);
      }
    case RemoveRefused(id) =>
    case KeyExpires(now) => ExpiryKeeps(s, now, window, limit);
  }

  lemma {:induction false} TrimmedCount(s: Shared, id: nat, now: real, window: real)
    requires id !in s.members
    ensures |Trimmed(s.members, now, window)[id := now]| == |Trimmed(s.members, now, window)| + 1
  {
    var members := Trimmed(s.members, now, window);
    assert members[id := now].Keys == members.Keys + {id};
  }

  ghost predicate Possible(s: Shared, es: seq<Event>, window: real, limit: nat)
    decreases |es|
  {
    es != [] ==> Enabled(s, es[0], window) && Possible(Apply(s, es[0], window, limit), es[1..], window, limit)
  }

  function ApplyAll(s: Shared, es: seq<Event>, window: real, limit: nat): Shared
    decreases |es|
  {
    if es == [] then s else ApplyAll(Apply(s, es[0], window, limit), es[1..], window, limit)
  }

  const NOTHING := Shared(map[], 0.0, 0.0, [], {})

  lemma {:induction false} ApplyAllKeeps(s: Shared, es: seq<Event>, window: real, limit: nat)
    requires SharedOk(s, window, limit) && Possible(s, es, window, limit) && limit >= 1 && window > 0.0
    ensures SharedOk(ApplyAll(s, es, window, limit), window, limit)
    decreases |es|
  {
    if es == [] {
    } else {
      ApplyKeeps(s, es[0], window, limit);
      ApplyAllKeeps(Apply(s, es[0], window, limit), es[1..], window, limit);
    }
  }

  /** Under any interleaving of the pipelines of any number of servers with the delayed
      removals of refused members, no window-long interval holds more than `limit`
      accepted requests. */
  lemma {:induction false} RedisIsSafe(es: seq<Event>, window: real, limit: nat, a: real)
    requires Possible(NOTHING, es, window, limit) && limit >= 1 && window > 0.0
    ensures |Within(TimesOf(ApplyAll(NOTHING, es, window, limit).accepted), a, window)| <= limit
  {
    ApplyAllKeeps(NOTHING, es, window, limit);
    SpacedIsBounded(TimesOf(ApplyAll(NOTHING, es, window, limit).accepted), a, window, limit);
  }

  /** A request Redis accepts is one the plain log of accepted requests would admit; a
      member that lingers can only make it stricter. */
  lemma {:induction false} RedisIsNeverLooser(s: Shared, id: nat, now: real, window: real, limit: nat)
    requires SharedOk(s, window, limit) && Enabled(s, Pipeline(id, now), window)
    requires |Apply(s, Pipeline(id, now), window, limit).accepted| > |s.accepted|
    ensures Admits(TimesOf(s.accepted), now, window, limit)
  {
    TrimmedCount(s, id, now, window);
    AcceptedAreCounted(s, now, window, limit);
  }

  /** Nothing lingers: every member is an accepted request. */
  ghost predicate Clean(s: Shared) {
    s.refused == {} && forall m | m in s.members ::
      exists i :: 0 <= i < |s.accepted| && s.accepted[i] == Request(m, s.members[m])
  }

  lemma {:induction false} CleanCount(s: Shared, now: real, window: real, limit: nat)
    requires SharedOk(s, window, limit) && Clean(s) && now >= s.clock
    ensures |Trimmed(s.members, now, window)| == |Active(TimesOf(s.accepted), now, window)|
  {
    var log, members := TimesOf(s.accepted), Trimmed(s.members, now, window);
    AcceptedAreCounted(s, now, window, limit);
    var n := ActiveIsSuffix(log, now, window);
    var recent := s.accepted[n..];
    forall m | m in members ensures m in IdsOf(recent) {
      var i :| 0 <= i < |s.accepted| && s.accepted[i] == Request(m, s.members[m]);
      assert log[i] == s.members[m] && i >= n;
      assert recent[i - n] == s.accepted[i];
    }
    DistinctIdsCount(recent);
    SubsetCount(members.Keys, IdsOf(recent));
  }

  lemma {:induction false} CleanAfterAccept(s: Shared, id: nat, now: real, window: real)
    requires Clean(s)
    ensures Clean(Shared(Trimmed(s.members, now, window)[id := now], now, now, s.accepted + [Request(id, now)],
            s.refused))
  {
    var members, accepted := Trimmed(s.members, now, window)[id := now], s.accepted + [Request(id, now)];
    forall m | m in members
      ensures exists i :: 0 <= i < |accepted| && accepted[i] == Request(m, members[m])
    {
      if m == id {
        assert accepted[|s.accepted|] == Request(m, members[m]);
      } else {
        var i :| 0 <= i < |s.accepted| && s.accepted[i] == Request(m, s.members[m]);
        assert accepted[i] == Request(m, members[m]);
      }
    }
  }

  /** When every refused member is removed at once, Redis decides exactly like the plain
      log, and so like the in-memory limiter. */
  lemma {:induction false} PromptRedisMatchesLog(s: Shared, id: nat, now: real, window: real, limit: nat)
    requires SharedOk(s, window, limit) && Clean(s) && Enabled(s, Pipeline(id, now), window)
    ensures var s1 := Apply(s, Pipeline(id, now), window, limit);
            var s' := if id in s1.refused then Apply(s1, RemoveRefused(id), window, limit) else s1;
            && (id !in s1.refused <==> Admits(TimesOf(s.accepted), now, window, limit))
            && s'.accepted == (if id in s1.refused then s.accepted else s.accepted + [Request(id, now)])
            && Clean(s')
  {
    CleanCount(s, now, window, limit);
    TrimmedCount(s, id, now, window);
    CleanAfterAccept(s, id, now, window);
    var s1 := Apply(s, Pipeline(id, now), window, limit);
    if id in s1.refused {
      var s' := Apply(s1, RemoveRefused(id), window, limit);
      assert forall m | m in s'.members :: m in s.members && s'.members[m] == s.members[m];
    }
  }

  // ---------------------------------------------------------------- the two, side by side

  /** One request against Redis whose refused member is removed at once. */
  function PromptCall(s: Shared, call: Request, window: real, limit: nat): Shared {
    var s1 := Apply(s, Pipeline(call.id, call.time), window, limit);
    if call.id in s1.refused then Apply(s1, RemoveRefused(call.id), window, limit) else s1
  }

  /** A request, or the expiry of the whole key. */
  function PromptStep(s: Shared, e: Event, window: real, limit: nat): Shared {
    match e
    case Pipeline(id, now) => PromptCall(s, Request(id, now), window, limit)
    case _ => Apply(s, e, window, limit)
  }

  /** Requests and key expiries that can happen one after the other. */
  ghost predicate PromptlyPossible(s: Shared, es: seq<Event>, window: real, limit: nat)
    decreases |es|
  {
    es != [] ==>
      !es[0].RemoveRefused? && Enabled(s, es[0], window)
          && PromptlyPossible(PromptStep(s, es[0], window, limit), es[1..], window, limit)
  }

  function PromptAnswers(s: Shared, es: seq<Event>, window: real, limit: nat): seq<bool>
    decreases |es|
  {
    if es == [] then []
    else
      var s' := PromptStep(s, es[0], window, limit);
      (if es[0].Pipeline? then [|s'.accepted| > |s.accepted|] else []) + PromptAnswers(s', es[1..], window, limit)
  }

  function AskTimes(es: seq<Event>): Times {
    if es == [] then []
    else (if es[0].Pipeline? then [es[0].now] else []) + AskTimes(es[1..])
  }

  /** One prompt call: the plain log's decision, and everything is in order again. */
  lemma {:induction false} PromptCallKeeps(s: Shared, call: Request, window: real, limit: nat)
    requires SharedOk(s, window, limit) && Clean(s) && limit >= 1 && window > 0.0
    requires Enabled(s, Pipeline(call.id, call.time), window)
    ensures var s' := PromptCall(s, call, window, limit);
            && SharedOk(s', window, limit) && Clean(s')
            && (|s'.accepted| > |s.accepted|) == Admits(TimesOf(s.accepted), call.time, window, limit)
            && TimesOf(s'.accepted) == PlainAfter(TimesOf(s.accepted), call.time, window, limit)
  {
    assert TimesOf(s.accepted + [call]) == TimesOf(s.accepted) + [call.time];
    PromptRedisMatchesLog(s, call.id, call.time, window, limit);
    ApplyKeeps(s, Pipeline(call.id, call.time), window, limit);
    var s1 := Apply(s, Pipeline(call.id, call.time), window, limit);
    if call.id in s1.refused { ApplyKeeps(s1, RemoveRefused(call.id), window, limit); }
  }

  /** Over any run of requests and key expiries, Redis with prompt removals gives the plain
      log's answers. */
  lemma {:induction false} PromptRunMatchesLog(s: Shared, es: seq<Event>, window: real, limit: nat)
    requires SharedOk(s, window, limit) && Clean(s) && limit >= 1 && window > 0.0
             && PromptlyPossible(s, es, window, limit)
    ensures PromptAnswers(s, es, window, limit) == PlainAnswers(TimesOf(s.accepted), AskTimes(es), window, limit)
    decreases |es|
  {
    if es == [] {
    } else {
      var s' := PromptStep(s, es[0], window, limit);
      match es[0]
      case Pipeline(id, now) =>
        PromptCallKeeps(s, Request(id, now), window, limit);
        PromptRunMatchesLog(s', es[1..], window, limit);
        assert AskTimes(es)[0] == now && AskTimes(es)[1..] == AskTimes(es[1..]);
      case KeyExpires(now) =>
        ExpiryKeeps(s, now, window, limit);
        PromptRunMatchesLog(s', es[1..], window, limit);
        assert AskTimes(es) == AskTimes(es[1..]);
        assert PromptAnswers(s, es, window, limit) == PromptAnswers(s', es[1..], window, limit);
    }
  }

  /** So the two limiters give a key the same answers to requests at the same times: the
      in-memory one between any requests of other keys, as long as they do not make it
      forget the key, and Redis between any expiries, when refused members go at once. */
  lemma {:induction false} LimitersAgree(trace: seq<Local>, calls: seq<Call>, answers: seq<bool>,
                                         rooms: seq<map<string, Times>>, key: string, maxKeys: nat,
                                         s: Shared, es: seq<Event>, window: real, limit: nat)
    requires LocalRun(trace, calls, answers, rooms, window, limit, maxKeys)
    requires Count(trace[0].forgotten, key) <= |LogOf(trace[0].admitted, key)|
    requires forall i | 0 <= i < |trace| :: Count(trace[i].forgotten, key) == Count(trace[0].forgotten, key)
    requires SharedOk(s, window, limit) && Clean(s) && limit >= 1 && window > 0.0
             && PromptlyPossible(s, es, window, limit)
    requires TimesOf(s.accepted) == Remembered(trace[0], key) && AskTimes(es) == TimesFor(calls, key)
    ensures PromptAnswers(s, es, window, limit) == AnswersFor(calls, answers, key)
  {
    PromptRunMatchesLog(s, es, window, limit);
    LocalMatchesLog(trace, calls, answers, rooms, key, window, limit, maxKeys);
  }
}
