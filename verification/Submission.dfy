/** Submitting a batch of rows: the sequential and the concurrent submitter, and why
    the interleaving of the rows does not matter
    (backend/services/otl_client.py, backend/services/idempotency.py). */
module Submission {
  import opened Values
  import opened Results
  import opened Idempotency

  /** What Oracle answers to one POST: a record, an error status, or nothing usable. */
  datatype Outcome =
    | Created(recordId: string, recordName: string)
    | Rejected(status: int, correlation: string)
    | Unexpected

  /** One entry of a batch. `digest` is the hash of its employee number, and the flags
      say whether the store can be reached at the three moments the row needs it. */
  datatype Row = Row(
    requestId: Option<string>, employee: string, digest: string, hash: string, correlation: string,
    outcome: Outcome, claimUp: bool, waitUp: bool, completeUp: bool)

  const DIGEST_LENGTH := 24

  function ScopedKey(digest: string, requestId: string): string {
    "timecard:" + digest + ":" + requestId
  }

  /** The digest has a fixed length, so the request id can be read back off the key. */
  lemma {:induction false} ScopedKeyIsInjective(d1: string, r1: string, d2: string, r2: string)
    requires |d1| == |d2|
    ensures ScopedKey(d1, r1) == ScopedKey(d2, r2) <==> d1 == d2 && r1 == r2
  {
    var k1, k2 := ScopedKey(d1, r1), ScopedKey(d2, r2);
    var n := |"timecard:"|;
    assert k1[n..n + |d1|] == d1 && k2[n..n + |d2|] == d2;
    assert k1[n + |d1| + 1..] == r1 && k2[n + |d2| + 1..] == r2;
  }

  // ---------------------------------------------------------------- results of a row

  function PublicError(status: int): string {
    if status == 401 || status == 403 then "Oracle authentication or authorization failed."
    else StatusMessage(status)
  }

  function WithRequest(d: Dict, requestId: Option<string>): Dict {
    if requestId.Some? then d[RequestId := Str(requestId.value)] else d
  }

  function Failure(i: nat, status: int, correlation: string, requestId: Option<string>, code: Option<string>): Dict {
    var d := map[Index := Num(i), Ok := Flag(false), Status := Num(status),
                 Error := Str(PublicError(status)), CorrelationId := Str(correlation)];
    var d' := WithRequest(d, requestId);
    if code.Some? then d'[Code := Str(code.value)] else d'
  }

  function Unavailable(i: nat, row: Row): Dict {
    Failure(i, 503, row.correlation, row.requestId, Some(STORE_UNAVAILABLE))
  }

  function ClaimLost(i: nat, row: Row): Dict {
    Failure(i, 409, row.correlation, row.requestId, Some(CLAIM_LOST))
  }

  function OracleFailure(i: nat, status: int, correlation: string, row: Row): Dict {
    Failure(i, status, correlation, row.requestId, if status >= 500 then Some(ORACLE_UNAVAILABLE) else None)
  }

  /** The record's identifier in Oracle's answer; it may be missing there. */
  function RecordId(id: string): string {
    if id == "" then "UNKNOWN" else SafeString(Str(id))
  }

  function OutcomeResult(i: nat, row: Row): Dict {
    match row.outcome
    case Created(id, name) =>
      WithRequest(map[Index := Num(i), Ok := Flag(true), Id := Str(RecordId(id)), RecordNumber := Str(RecordId(id)),
                      RecordName := Str(name), CorrelationId := Str(row.correlation)], row.requestId)
    case Rejected(status, correlation) => OracleFailure(i, status, correlation, row)
    case Unexpected => OracleFailure(i, 500, row.correlation, row)
  }

  function CodedFailure(code: string): Dict {
    map[Ok := Flag(false), Status := Num(409), Code := Str(code), Error := Str(CodeMessage(code))]
  }

  /** An answer that comes from the store, addressed to this row. */
  function Addressed(d: Dict, i: nat, row: Row): Dict {
    WithRequest(d[Index := Num(i)][CorrelationId := Str(row.correlation)], row.requestId)
  }

  lemma OutcomeFields(i: nat, row: Row)
    ensures var d := OutcomeResult(i, row);
            var status := if row.outcome.Rejected? then row.outcome.status else 500;
            && IsOk(d) == row.outcome.Created? && StatusOf(d) == status
            && HasCode(d) == (if !row.outcome.Created? && status >= 500 then Some(ORACLE_UNAVAILABLE) else None)
            && (Error in d <==> !row.outcome.Created?)
  {
  }

  /** For the rows the submitter really produces, a claim is released exactly when
      Oracle answered with a server status or not at all; and such a row is retryable,
      and a success never carries an error text. */
  lemma {:induction false} ReleasedRows(i: nat, row: Row)
    requires row.outcome.Rejected? ==> row.outcome.status >= 400
    ensures var d := OutcomeResult(i, row);
            && (IsAmbiguous(Sanitize(d)) <==>
                  row.outcome.Unexpected? || (row.outcome.Rejected? && row.outcome.status >= 500))
            && (IsAmbiguous(Sanitize(d)) ==> IsRetryable(Sanitize(d)) && IsRetryable(d))
            && (IsOk(d) ==> Error !in d) && !Unsettled(d)
  {
    var d := OutcomeResult(i, row);
    OutcomeFields(i, row);
    SanitizedFields(d);
  }

  // ---------------------------------------------------------------- one row, step by step

  datatype Progress =
    | Start
    | Entitled(token: Option<nat>)
    | Sent(token: Option<nat>, result: Dict)
    | Waiting
    | Finished(result: Dict)

  /** A batch in flight: the store's table, the tokens drawn so far, and every row. */
  datatype Flight = Flight(table: Table, drawn: nat, rows: seq<Progress>)

  predicate UsesStore(row: Row) { row.requestId.Some? && Trim(row.employee) != "" && row.claimUp }

  function KeyOf(row: Row): string
    requires row.requestId.Some?
  {
    ScopedKey(row.digest, row.requestId.value)
  }

  function StartRow(cfg: Config, row: Row, i: nat, t: Table, drawn: nat, now: real): (Progress, Table, nat) {
    if row.requestId.None? then (Entitled(None), t, drawn)
    else if Trim(row.employee) == "" then
      (Finished(Failure(i, 400, row.correlation, row.requestId, None)), t, drawn)
    else if !row.claimUp then (Finished(Unavailable(i, row)), t, drawn)
    else
      var (t', a) := Claim(cfg, t, now, KeyOf(row), row.hash, drawn);
      match a
      case Claimed(token) => (Entitled(Some(token)), t', drawn + 1)
      case Replay(d) => (Finished(d[Index := Num(i)]), t', drawn)
      case Conflict => (Finished(Addressed(CodedFailure(CONFLICT), i, row)), t', drawn)
      case InProgress => (Waiting, t', drawn)
  }

  function WaitRow(row: Row, i: nat, t: Table, now: real): (Progress, Table)
    requires row.requestId.Some?
  {
    if !row.waitUp then (Finished(Unavailable(i, row)), t)
    else
      var (t', d) := Read(t, now, KeyOf(row));
      (Finished(Addressed(OrElse(d, CodedFailure(IN_PROGRESS)), i, row)), t')
  }

  function FinishRow(cfg: Config, row: Row, i: nat, token: Option<nat>, result: Dict, t: Table,
                     now: real): (Progress, Table)
    requires token.Some? ==> row.requestId.Some?
  {
    if token.None? then (Finished(result), t)
    else if !row.completeUp then (Finished(Unavailable(i, row)), t)
    else
      var (t', stored) := Finish(cfg.kind, t, now, KeyOf(row), token.value, result);
      (Finished(if stored then result else ClaimLost(i, row)), t')
  }

  /** A row that needs the store's answer has a request id. */
  predicate Sensible(row: Row, p: Progress) {
    (p.Waiting? || ((p.Entitled? || p.Sent?) && p.token.Some?)) ==> UsesStore(row)
  }

  function RowStep(cfg: Config, row: Row, i: nat, p: Progress, t: Table, drawn: nat,
                   now: real): (r: (Progress, Table, nat))
    requires Sensible(row, p)
    ensures Sensible(row, r.0)
  {
    match p
    case Start => StartRow(cfg, row, i, t, drawn, now)
    case Entitled(token) => (Sent(token, OutcomeResult(i, row)), t, drawn)
    case Sent(token, result) =>
      var (p', t') := FinishRow(cfg, row, i, token, result, t, now);
      (p', t', drawn)
    case Waiting =>
      var (p', t') := WaitRow(row, i, t, now);
      (p', t', drawn)
    case Finished(_) => (p, t, drawn)
  }

  /** One turn of the event loop: which row moves, and the time at which it does. */
  datatype Turn = Turn(row: nat, now: real)

  ghost predicate FlightOk(rows: seq<Row>, f: Flight) {
    |f.rows| == |rows| && forall i | 0 <= i < |rows| :: Sensible(rows[i], f.rows[i])
  }

  function TakeTurn(cfg: Config, rows: seq<Row>, f: Flight, turn: Turn): (f': Flight)
    requires FlightOk(rows, f) && turn.row < |rows|
    ensures FlightOk(rows, f')
  {
    var (p, t, drawn) := RowStep(cfg, rows[turn.row], turn.row, f.rows[turn.row], f.table, f.drawn, turn.now);
    Flight(t, drawn, f.rows[turn.row := p])
  }

  function Fly(cfg: Config, rows: seq<Row>, f: Flight, turns: seq<Turn>): (f': Flight)
    requires FlightOk(rows, f) && forall n | 0 <= n < |turns| :: turns[n].row < |rows|
    ensures FlightOk(rows, f')
    decreases |turns|
  {
    if turns == [] then f else Fly(cfg, rows, TakeTurn(cfg, rows, f, turns[0]), turns[1..])
  }

  function Launch(rows: seq<Row>, t: Table, drawn: nat): (f: Flight)
    ensures FlightOk(rows, f)
  {
    Flight(t, drawn, seq(|rows|, _ => Start))
  }

  // ------------------------------------------- what a row comes to, whoever else moves

  /** The part of a record that does not depend on when and by which token. */
  datatype Shape = Shape(phase: Phase, hash: string, result: Option<Dict>)

  function ShapeOf(r: Option<Record>): Option<Shape> {
    if r.None? then None else Some(Shape(r.value.phase, r.value.hash, r.value.result))
  }

  /** The record of a key that is still live at time `t0`. */
  function View(t: Table, t0: real, key: string): Option<Record> {
    if key in t && t[key].expiresAt > t0 then Some(t[key]) else None
  }

  predicate Grantable(row: Row, r: Option<Record>, t0: real) {
    r.None? || (r.value.hash == row.hash && r.value.phase.Pending? && r.value.leaseUntil <= t0)
  }

  /** The result of a row and the shape it leaves behind, from the record it found. */
  function Verdict(kind: Kind, row: Row, i: nat, r: Option<Record>, t0: real): (Dict, Option<Shape>) {
    var mine := OutcomeResult(i, row);
    if row.requestId.None? then (mine, ShapeOf(r))
    else if Trim(row.employee) == "" then (Failure(i, 400, row.correlation, row.requestId, None), ShapeOf(r))
    else if !row.claimUp then (Unavailable(i, row), ShapeOf(r))
    else if Grantable(row, r, t0) then
      if !row.completeUp then (Unavailable(i, row), Some(Shape(Pending, row.hash, None)))
      else if IsAmbiguous(Sanitize(mine)) then (mine, None)
      else (mine, Some(Shape(Complete, row.hash, Some(Sanitize(mine)))))
    else if r.value.hash != row.hash then (Addressed(CodedFailure(CONFLICT), i, row), ShapeOf(r))
    else if r.value.result.Some? then (Shown(kind, r.value.result.value)[Index := Num(i)], ShapeOf(r))
    else if !row.waitUp then (Unavailable(i, row), ShapeOf(r))
    else (Addressed(CodedFailure(IN_PROGRESS), i, row), ShapeOf(r))
  }

  /** A row that has a result has it under its own index. */
  predicate Indexed(rows: seq<Row>, f: Flight) {
    |f.rows| == |rows|
    && (forall i | 0 <= i < |rows| && f.rows[i].Sent? :: f.rows[i].result == OutcomeResult(i, rows[i]))
    && (forall i | 0 <= i < |rows| && f.rows[i].Finished? :: HasIndex(f.rows[i].result, i))
  }

  predicate HasIndex(d: Dict, i: nat) { Index in d && d[Index] == Num(i) }

  lemma {:induction false} OutcomeHasIndex(i: nat, row: Row)
    ensures HasIndex(OutcomeResult(i, row), i) && HasIndex(ClaimLost(i, row), i) && HasIndex(Unavailable(i, row), i)
  {
  }

  lemma {:induction false} AddressedHasIndex(d: Dict, i: nat, row: Row)
    ensures HasIndex(Addressed(d, i, row), i)
  {
  }

  lemma {:induction false} StartHasIndex(cfg: Config, row: Row, i: nat, t: Table, drawn: nat, now: real)
    ensures var p := StartRow(cfg, row, i, t, drawn, now).0; !p.Sent? && (p.Finished? ==> HasIndex(p.result, i))
  {
    OutcomeHasIndex(i, row);
    AddressedHasIndex(CodedFailure(CONFLICT), i, row);
  }

  lemma {:induction false} StepHasIndex(cfg: Config, row: Row, i: nat, p: Progress, t: Table, drawn: nat, now: real)
    requires Sensible(row, p)
    requires (p.Sent? ==> p.result == OutcomeResult(i, row)) && (p.Finished? ==> HasIndex(p.result, i))
    ensures var p' := RowStep(cfg, row, i, p, t, drawn, now).0;
            (p'.Sent? ==> p'.result == OutcomeResult(i, row)) && (p'.Finished? ==> HasIndex(p'.result, i))
  {
    match p
    case Start => StartHasIndex(cfg, row, i, t, drawn, now);
    case Waiting =>
      OutcomeHasIndex(i, row);
      AddressedHasIndex(OrElse(Read(t, now, KeyOf(row)).1, CodedFailure(IN_PROGRESS)), i, row);
    case _ => OutcomeHasIndex(i, row);
  }

  lemma {:induction false} TurnsKeepIndexes(cfg: Config, rows: seq<Row>, f: Flight, turns: seq<Turn>)
    requires FlightOk(rows, f) && Indexed(rows, f) && forall n | 0 <= n < |turns| :: turns[n].row < |rows|
    ensures Indexed(rows, Fly(cfg, rows, f, turns))
    decreases |turns|
  {
    if turns == [] {
    } else {
      var i := turns[0].row;
      StepHasIndex(cfg, rows[i], i, f.rows[i], f.table, f.drawn, turns[0].now);
      TurnsKeepIndexes(cfg, rows, TakeTurn(cfg, rows, f, turns[0]), turns[1..]);
    }
  }

  /** Row `i` of the list is the one with index `i`, on every run and wherever its result
      came from: Oracle, a replay, a conflict, a wait, a lost claim or a refusal. */
  lemma {:induction false} RowHasItsIndex(cfg: Config, rows: seq<Row>, start: Table, drawn: nat, turns: seq<Turn>)
    requires forall n | 0 <= n < |turns| :: turns[n].row < |rows|
    ensures var f := Fly(cfg, rows, Launch(rows, start, drawn), turns);
            forall i | 0 <= i < |rows| && f.rows[i].Finished? :: HasIndex(f.rows[i].result, i)
  {
    TurnsKeepIndexes(cfg, rows, Launch(rows, start, drawn), turns);
  }

  /** No record ends between `t0` and `t1`, and one made in between outlasts it. */
  ghost predicate Calm(cfg: Config, t: Table, t0: real, t1: real) {
    cfg.Valid() && t0 <= t1 < t0 + cfg.ttl && forall k | k in t :: CalmRecord(t[k], t0, t1)
  }

  ghost predicate CalmRecord(r: Record, t0: real, t1: real) {
    && (r.expiresAt <= t0 || r.expiresAt > t1)
    && (r.phase.Pending? ==> r.result.None?)
    && (r.phase.Complete? ==> r.result.Some?)
  }

  /** No lease that others hold when the batch starts ends while it runs. */
  ghost predicate LeasesSettled(start: Table, t0: real, t1: real) {
    forall k | k in start :: SettledLease(Some(start[k]), t0, t1)
  }

  ghost predicate SettledLease(r: Option<Record>, t0: real, t1: real) {
    r.Some? && r.value.phase.Pending? ==> r.value.leaseUntil <= t0 || r.value.leaseUntil > t1
  }

  /** The row's turn does not complete a claim whose lease is over, unless the backend
      takes its outcome all the same. */
  predicate Prompt(kind: Kind, row: Row, p: Progress, t: Table, now: real) {
    p.Sent? && p.token.Some? && row.requestId.Some? && row.completeUp ==>
      KeyOf(row) in t && (t[KeyOf(row)].leaseUntil > now || (kind.Sqlite? && IsAmbiguous(Sanitize(p.result))))
  }

  /** What the batch guarantees about a row between its turns. */
  ghost predicate RowOk(kind: Kind, row: Row, i: nat, p: Progress, before: Option<Record>, after: Option<Record>,
                        t0: real, t1: real) {
    match p
    case Start => after == before
    case Entitled(token) => InFlight(row, token, before, after, t0, t1)
    case Sent(token, result) => InFlight(row, token, before, after, t0, t1) && result == OutcomeResult(i, row)
    case Waiting =>
      after == before && UsesStore(row) && !Grantable(row, before, t0)
      && before.value.hash == row.hash && before.value.result.None?
    case Finished(result) => (result, ShapeOf(after)) == Verdict(kind, row, i, before, t0)
  }

  ghost predicate InFlight(row: Row, token: Option<nat>, before: Option<Record>, after: Option<Record>, t0: real,
                           t1: real) {
    if token.None? then row.requestId.None? && after == before
    else
      && UsesStore(row) && Grantable(row, before, t0) && after.Some?
      && (var r := after.value;
          r.phase.Pending? && r.hash == row.hash && r.owner == token && r.result.None? && r.expiresAt > t1)
  }

  lemma {:induction false} ClaimInCalm(cfg: Config, t: Table, now: real, key: string, hash: string, token: nat,
                                       t0: real, t1: real)
    requires Calm(cfg, t, t0, t1) && t0 <= now <= t1 && SettledLease(View(t, t0, key), t0, t1)
    ensures var (t', a) := Claim(cfg, t, now, key, hash, token);
            var v := View(t, t0, key);
            && Calm(cfg, t', t0, t1)
            && (forall k | k != key :: View(t', t0, k) == View(t, t0, k))
            && (if v.None? then a == Claimed(token) && View(t', t0, key) == Some(FreshRecord(cfg, now, hash, token))
                else if v.value.hash == hash && v.value.phase.Pending? && v.value.leaseUntil <= t0 then
                  a == Claimed(token)
                  && View(t', t0, key) == Some(v.value.(owner := Some(token), leaseUntil := now + cfg.lease))
                else
                  View(t', t0, key) == v
                  && a == (if v.value.hash != hash then Conflict
                           else if v.value.result.Some? then Replay(Shown(cfg.kind, v.value.result.value))
                           else InProgress))
  {
    var p := Purge(t, now);
    assert forall k :: View(p, t0, k) == View(t, t0, k);
    assert key in p <==> View(t, t0, key).Some?;
  }

  lemma {:induction false} ReadInCalm(cfg: Config, t: Table, now: real, key: string, t0: real, t1: real)
    requires Calm(cfg, t, t0, t1) && t0 <= now <= t1
    ensures var (t', d) := Read(t, now, key);
            && Calm(cfg, t', t0, t1) && (forall k :: View(t', t0, k) == View(t, t0, k))
            && (View(t, t0, key).Some? && View(t, t0, key).value.result.None? ==> d == None)
  {
    assert key in Purge(t, now) <==> View(t, t0, key).Some?;
  }

  lemma {:induction false} FinishInCalm(cfg: Config, t: Table, now: real, key: string, token: nat, result: Dict,
                                        t0: real, t1: real)
    requires Calm(cfg, t, t0, t1) && t0 <= now <= t1
    requires View(t, t0, key).Some?
    requires var r := View(t, t0, key).value;
             && r.phase.Pending? && r.owner == Some(token)
             && (r.leaseUntil > now || (cfg.kind.Sqlite? && IsAmbiguous(Sanitize(result))))
    ensures var (t', stored) := Finish(cfg.kind, t, now, key, token, result);
            && stored && Calm(cfg, t', t0, t1) && (forall k | k != key :: View(t', t0, k) == View(t, t0, k))
            && (if IsAmbiguous(Sanitize(result)) then View(t', t0, key) == None
                else View(t', t0, key) ==
                     Some(t[key].(phase := Complete, result := Some(Sanitize(result)), owner := None,
                         leaseUntil := 0.0)))
  {
    assert Accepts(cfg.kind, t, now, key, token, Sanitize(result));
  }

  /** What a turn of a row with a request id must bring about. */
  ghost predicate GoodTurn(cfg: Config, row: Row, i: nat, p: Progress, t: Table, t': Table,
                           before: Option<Record>, t0: real, t1: real)
    requires row.requestId.Some?
  {
    && Calm(cfg, t', t0, t1)
    && RowOk(cfg.kind, row, i, p, before, View(t', t0, KeyOf(row)), t0, t1)
    && forall k | k != KeyOf(row) :: View(t', t0, k) == View(t, t0, k)
  }

  lemma {:induction false} FirstTurn(cfg: Config, row: Row, i: nat, t: Table, drawn: nat, now: real, t0: real, t1: real)
    requires Calm(cfg, t, t0, t1) && t0 <= now <= t1 && row.requestId.Some?
    requires SettledLease(View(t, t0, KeyOf(row)), t0, t1)
    ensures var (p', t', _) := StartRow(cfg, row, i, t, drawn, now);
            GoodTurn(cfg, row, i, p', t, t', View(t, t0, KeyOf(row)), t0, t1)
  {
    if UsesStore(row) {
      ClaimInCalm(cfg, t, now, KeyOf(row), row.hash, drawn, t0, t1);
    }
  }

  lemma {:induction false} WaitTurn(cfg: Config, row: Row, i: nat, t: Table, now: real, before: Option<Record>,
                                    t0: real, t1: real)
    requires Calm(cfg, t, t0, t1) && t0 <= now <= t1 && row.requestId.Some?
    requires RowOk(cfg.kind, row, i, Waiting, before, View(t, t0, KeyOf(row)), t0, t1)
    ensures var (p', t') := WaitRow(row, i, t, now);
            GoodTurn(cfg, row, i, p', t, t', before, t0, t1)
  {
    ReadInCalm(cfg, t, now, KeyOf(row), t0, t1);
  }

  lemma {:induction false} LastTurn(cfg: Config, row: Row, i: nat, token: Option<nat>, result: Dict, t: Table,
                                    now: real,
                 before: Option<Record>, t0: real, t1: real)
    requires Calm(cfg, t, t0, t1) && t0 <= now <= t1 && row.requestId.Some?
    requires RowOk(cfg.kind, row, i, Sent(token, result), before, View(t, t0, KeyOf(row)), t0, t1)
    requires Prompt(cfg.kind, row, Sent(token, result), t, now)
    ensures var (p', t') := FinishRow(cfg, row, i, token, result, t, now);
            GoodTurn(cfg, row, i, p', t, t', before, t0, t1)
  {
    if row.completeUp {
      FinishInCalm(cfg, t, now, KeyOf(row), token.value, result, t0, t1);
    }
  }

  /** A row's own turn moves it along and touches no key but its own. */
  lemma {:induction false} OwnTurn(cfg: Config, row: Row, i: nat, p: Progress, t: Table, drawn: nat, now: real,
                before: Option<Record>, t0: real, t1: real)
    requires Calm(cfg, t, t0, t1) && t0 <= now <= t1 && Sensible(row, p) && row.requestId.Some?
    requires RowOk(cfg.kind, row, i, p, before, View(t, t0, KeyOf(row)), t0, t1) && SettledLease(before, t0, t1)
    requires Prompt(cfg.kind, row, p, t, now)
    ensures var (p', t', _) := RowStep(cfg, row, i, p, t, drawn, now);
            GoodTurn(cfg, row, i, p', t, t', before, t0, t1)
  {
    match p
    case Start => FirstTurn(cfg, row, i, t, drawn, now, t0, t1);
    case Waiting => WaitTurn(cfg, row, i, t, now, before, t0, t1);
    case Sent(token, result) => LastTurn(cfg, row, i, token, result, t, now, before, t0, t1);
    case _ =>
  }

  // ---------------------------------------------------------------- every interleaving

  /** Each row has its own request id, as the submission is checked to have. */
  predicate DistinctIds(rows: seq<Row>) {
    forall i, j | 0 <= i < j < |rows| && rows[i].requestId.Some? && rows[j].requestId.Some? ::
      rows[i].requestId != rows[j].requestId
  }

  predicate Digested(rows: seq<Row>) {
    forall i | 0 <= i < |rows| :: |rows[i].digest| == DIGEST_LENGTH
  }

  function KeyView(row: Row, t: Table, t0: real): Option<Record> {
    if row.requestId.Some? then View(t, t0, KeyOf(row)) else None
  }

  ghost predicate FlightInv(cfg: Config, rows: seq<Row>, start: Table, f: Flight, t0: real, t1: real) {
    && FlightOk(rows, f) && Calm(cfg, f.table, t0, t1) && LeasesSettled(start, t0, t1)
    && (forall i | 0 <= i < |rows| ::
          RowOk(cfg.kind, rows[i], i, f.rows[i], KeyView(rows[i], start, t0), KeyView(rows[i], f.table, t0), t0, t1))
    && (forall k | (forall i | 0 <= i < |rows| && rows[i].requestId.Some? :: KeyOf(rows[i]) != k) ::
          View(f.table, t0, k) == View(start, t0, k))
  }

  lemma {:induction false} TurnKeeps(cfg: Config, rows: seq<Row>, start: Table, f: Flight, turn: Turn, t0: real,
                                     t1: real)
    requires FlightInv(cfg, rows, start, f, t0, t1) && DistinctIds(rows) && Digested(rows)
    requires turn.row < |rows| && t0 <= turn.now <= t1
    requires Prompt(cfg.kind, rows[turn.row], f.rows[turn.row], f.table, turn.now)
    ensures FlightInv(cfg, rows, start, TakeTurn(cfg, rows, f, turn), t0, t1)
  {
    var i, row := turn.row, rows[turn.row];
    var f' := TakeTurn(cfg, rows, f, turn);
    assert RowOk(cfg.kind, row, i, f.rows[i], KeyView(row, start, t0), KeyView(row, f.table, t0), t0, t1);
    if row.requestId.Some? {
      OwnTurn(cfg, row, i, f.rows[i], f.table, f.drawn, turn.now, KeyView(row, start, t0), t0, t1);
      forall j | 0 <= j < |rows|
        ensures RowOk(cfg.kind, rows[j], j, f'.rows[j], KeyView(rows[j], start, t0),
                KeyView(rows[j], f'.table, t0), t0, t1)
      {
        if j != i && rows[j].requestId.Some? {
          ScopedKeyIsInjective(row.digest, row.requestId.value, rows[j].digest, rows[j].requestId.value);
          assert KeyView(rows[j], f'.table, t0) == KeyView(rows[j], f.table, t0);
        }
      }
    }
  }

  /** Every row completes its claim while it still holds it. */
  ghost predicate OnTime(cfg: Config, rows: seq<Row>, f: Flight, turns: seq<Turn>)
    requires FlightOk(rows, f) && forall n | 0 <= n < |turns| :: turns[n].row < |rows|
    decreases |turns|
  {
    turns != [] ==>
      && Prompt(cfg.kind, rows[turns[0].row], f.rows[turns[0].row], f.table, turns[0].now)
      && OnTime(cfg, rows, TakeTurn(cfg, rows, f, turns[0]), turns[1..])
  }

  lemma {:induction false} FlightKeeps(cfg: Config, rows: seq<Row>, start: Table, f: Flight, turns: seq<Turn>,
                                       t0: real, t1: real)
    requires FlightInv(cfg, rows, start, f, t0, t1) && DistinctIds(rows) && Digested(rows)
    requires forall n | 0 <= n < |turns| :: turns[n].row < |rows| && t0 <= turns[n].now <= t1
    requires OnTime(cfg, rows, f, turns)
    ensures FlightInv(cfg, rows, start, Fly(cfg, rows, f, turns), t0, t1)
    decreases |turns|
  {
    if turns == [] {
    } else {
      TurnKeeps(cfg, rows, start, f, turns[0], t0, t1);
      FlightKeeps(cfg, rows, start, TakeTurn(cfg, rows, f, turns[0]), turns[1..], t0, t1);
    }
  }

  lemma {:induction false} FlightVerdicts(cfg: Config, rows: seq<Row>, start: Table, f: Flight, t0: real, t1: real)
    requires FlightInv(cfg, rows, start, f, t0, t1)
    ensures forall i | 0 <= i < |rows| && f.rows[i].Finished? ::
              (f.rows[i].result, ShapeOf(KeyView(rows[i], f.table, t0)))
              == Verdict(cfg.kind, rows[i], i, KeyView(rows[i], start, t0), t0)
  {
    forall i | 0 <= i < |rows| && f.rows[i].Finished?
      ensures (f.rows[i].result, ShapeOf(KeyView(rows[i], f.table, t0)))
              == Verdict(cfg.kind, rows[i], i, KeyView(rows[i], start, t0), t0)
    {
      assert RowOk(cfg.kind, rows[i], i, f.rows[i], KeyView(rows[i], start, t0), KeyView(rows[i], f.table, t0), t0, t1);
    }
  }

  lemma {:induction false} LaunchOk(cfg: Config, rows: seq<Row>, start: Table, drawn: nat, t0: real, t1: real)
    requires Calm(cfg, start, t0, t1) && LeasesSettled(start, t0, t1)
    ensures FlightInv(cfg, rows, start, Launch(rows, start, drawn), t0, t1)
  {
  }

  /** However the rows interleave, and however long the batch takes, as long as each row
      completes in time: once finished, row `i` has the result and has left the record
      that its own key and its own outcome decide. */
  lemma {:induction false} EveryInterleaving(cfg: Config, rows: seq<Row>, start: Table, drawn: nat, turns: seq<Turn>,
                                             t0: real, t1: real)
    requires Calm(cfg, start, t0, t1) && LeasesSettled(start, t0, t1) && DistinctIds(rows) && Digested(rows)
    requires forall n | 0 <= n < |turns| :: turns[n].row < |rows| && t0 <= turns[n].now <= t1
    requires OnTime(cfg, rows, Launch(rows, start, drawn), turns)
    ensures var f := Fly(cfg, rows, Launch(rows, start, drawn), turns);
            && (forall i | 0 <= i < |rows| && f.rows[i].Finished? ::
                  (f.rows[i].result, ShapeOf(KeyView(rows[i], f.table, t0)))
                  == Verdict(cfg.kind, rows[i], i, KeyView(rows[i], start, t0), t0))
            && (forall k | (forall i | 0 <= i < |rows| && rows[i].requestId.Some? :: KeyOf(rows[i]) != k) ::
                  View(f.table, t0, k) == View(start, t0, k))
  {
    var launch := Launch(rows, start, drawn);
    LaunchOk(cfg, rows, start, drawn, t0, t1);
    FlightKeeps(cfg, rows, start, launch, turns, t0, t1);
    FlightVerdicts(cfg, rows, start, Fly(cfg, rows, launch, turns), t0, t1);
  }

  // ---------------------------------------------------------------- rows that are late

  /** A late row is told that its claim was lost. */
  lemma {:induction false} LateTurn(cfg: Config, row: Row, i: nat, p: Progress, t: Table, drawn: nat, now: real,
                                    before: Option<Record>, t0: real, t1: real)
    requires Calm(cfg, t, t0, t1) && Sensible(row, p) && row.requestId.Some?
    requires RowOk(cfg.kind, row, i, p, before, View(t, t0, KeyOf(row)), t0, t1)
    requires !Prompt(cfg.kind, row, p, t, now)
    ensures RowStep(cfg, row, i, p, t, drawn, now).0 == Finished(ClaimLost(i, row))
    ensures Verdict(cfg.kind, row, i, before, t0).0 != ClaimLost(i, row)
  {
    OutcomeIsNotLost(i, row);
    assert !Accepts(cfg.kind, t, now, KeyOf(row), p.token.value, Sanitize(p.result));
  }

  lemma {:induction false} OutcomeIsNotLost(i: nat, row: Row)
    ensures OutcomeResult(i, row) != ClaimLost(i, row)
  {
    OutcomeFields(i, row);
    assert HasCode(ClaimLost(i, row)) == Some(CLAIM_LOST);
    assert |CLAIM_LOST| == 22 && |ORACLE_UNAVAILABLE| == 18;
  }

  lemma {:induction false} FinishedStays(cfg: Config, rows: seq<Row>, f: Flight, turns: seq<Turn>, i: nat)
    requires FlightOk(rows, f) && forall n | 0 <= n < |turns| :: turns[n].row < |rows|
    requires i < |rows| && f.rows[i].Finished?
    ensures Fly(cfg, rows, f, turns).rows[i] == f.rows[i]
    decreases |turns|
  {
    if turns == [] {
    } else {
      FinishedStays(cfg, rows, TakeTurn(cfg, rows, f, turns[0]), turns[1..], i);
    }
  }

  lemma {:induction false} LateRowShows(cfg: Config, rows: seq<Row>, start: Table, f: Flight, turns: seq<Turn>,
                                        t0: real, t1: real)
    returns (i: nat)
    requires FlightInv(cfg, rows, start, f, t0, t1) && DistinctIds(rows) && Digested(rows)
    requires forall n | 0 <= n < |turns| :: turns[n].row < |rows| && t0 <= turns[n].now <= t1
    requires !OnTime(cfg, rows, f, turns)
    ensures i < |rows| && Fly(cfg, rows, f, turns).rows[i] == Finished(ClaimLost(i, rows[i]))
    ensures Verdict(cfg.kind, rows[i], i, KeyView(rows[i], start, t0), t0).0 != ClaimLost(i, rows[i])
    decreases |turns|
  {
    i := turns[0].row;
    var next := TakeTurn(cfg, rows, f, turns[0]);
    if Prompt(cfg.kind, rows[i], f.rows[i], f.table, turns[0].now) {
      TurnKeeps(cfg, rows, start, f, turns[0], t0, t1);
      i := LateRowShows(cfg, rows, start, next, turns[1..], t0, t1);
    } else {
      LateTurn(cfg, rows[i], i, f.rows[i], f.table, f.drawn, turns[0].now, KeyView(rows[i], start, t0), t0, t1);
      FinishedStays(cfg, rows, next, turns[1..], i);
    }
  }

  /** Being on time is exactly what it takes: every finished row has the result of its
      own key and outcome if and only if no row was late. */
  lemma {:induction false} OnTimeExactly(cfg: Config, rows: seq<Row>, start: Table, drawn: nat, turns: seq<Turn>,
                                         t0: real, t1: real)
    requires Calm(cfg, start, t0, t1) && LeasesSettled(start, t0, t1) && DistinctIds(rows) && Digested(rows)
    requires forall n | 0 <= n < |turns| :: turns[n].row < |rows| && t0 <= turns[n].now <= t1
    ensures var launch := Launch(rows, start, drawn); var f := Fly(cfg, rows, launch, turns);
            OnTime(cfg, rows, launch, turns)
            <==> forall i | 0 <= i < |rows| && f.rows[i].Finished? ::
                   f.rows[i].result == Verdict(cfg.kind, rows[i], i, KeyView(rows[i], start, t0), t0).0
  {
    var launch := Launch(rows, start, drawn);
    LaunchOk(cfg, rows, start, drawn, t0, t1);
    if OnTime(cfg, rows, launch, turns) {
      EveryInterleaving(cfg, rows, start, drawn, turns, t0, t1);
    } else {
      var i := LateRowShows(cfg, rows, start, launch, turns, t0, t1);
      assert Fly(cfg, rows, launch, turns).rows[i].Finished?;
    }
  }

  // ---------------------------------------------------------------- two runs compared

  ghost predicate AllFinished(f: Flight) {
    forall i | 0 <= i < |f.rows| :: f.rows[i].Finished?
  }

  /** Two complete submissions of the same rows, in any two interleavings and at any two
      paces, return the same list and leave the same records up to tokens and times. */
  lemma {:induction false} InterleavingIsInvisible(cfg: Config, rows: seq<Row>, start: Table, drawn1: nat, drawn2: nat,
                                turns1: seq<Turn>, turns2: seq<Turn>, t0: real, t1: real)
    requires Calm(cfg, start, t0, t1) && LeasesSettled(start, t0, t1) && DistinctIds(rows) && Digested(rows)
    requires forall n | 0 <= n < |turns1| :: turns1[n].row < |rows| && t0 <= turns1[n].now <= t1
    requires forall n | 0 <= n < |turns2| :: turns2[n].row < |rows| && t0 <= turns2[n].now <= t1
    requires OnTime(cfg, rows, Launch(rows, start, drawn1), turns1)
             && OnTime(cfg, rows, Launch(rows, start, drawn2), turns2)
    requires AllFinished(Fly(cfg, rows, Launch(rows, start, drawn1), turns1))
    requires AllFinished(Fly(cfg, rows, Launch(rows, start, drawn2), turns2))
    ensures var f1 := Fly(cfg, rows, Launch(rows, start, drawn1), turns1);
            var f2 := Fly(cfg, rows, Launch(rows, start, drawn2), turns2);
            f1.rows == f2.rows && forall k: string :: ShapeOf(View(f1.table, t0, k)) == ShapeOf(View(f2.table, t0, k))
  {
    var f1 := Fly(cfg, rows, Launch(rows, start, drawn1), turns1);
    var f2 := Fly(cfg, rows, Launch(rows, start, drawn2), turns2);
    EveryInterleaving(cfg, rows, start, drawn1, turns1, t0, t1);
    EveryInterleaving(cfg, rows, start, drawn2, turns2, t0, t1);
    forall i | 0 <= i < |rows| ensures f1.rows[i] == f2.rows[i] {
      assert f1.rows[i].Finished? && f2.rows[i].Finished?;
    }
    forall k: string ensures ShapeOf(View(f1.table, t0, k)) == ShapeOf(View(f2.table, t0, k)) {
      if i :| 0 <= i < |rows| && rows[i].requestId.Some? && KeyOf(rows[i]) == k {
        assert f1.rows[i].Finished? && f2.rows[i].Finished?;
        assert KeyView(rows[i], f1.table, t0) == View(f1.table, t0, k);
        assert KeyView(rows[i], f2.table, t0) == View(f2.table, t0, k);
      }
    }
  }

  // ---------------------------------------------------------------- the sequential submitter

  /** When a row claims its key, and when it completes it or gives up waiting. */
  datatype Pace = Pace(claimAt: real, doneAt: real)

  /** The rest of a row's way after its first turn: it waits, or sends and completes. */
  function Remaining(cfg: Config, row: Row, i: nat, p: Progress, t: Table, drawn: nat,
                     now: real): (Progress, Table, nat)
    requires Sensible(row, p)
  {
    match p
    case Waiting => var (q, t') := WaitRow(row, i, t, now); (q, t', drawn)
    case Entitled(token) => var (q, t') := FinishRow(cfg, row, i, token, OutcomeResult(i, row), t, now); (q, t', drawn)
    case _ => (p, t, drawn)
  }

  /** A row's whole way, from its start to its result. */
  function WholeRow(cfg: Config, row: Row, i: nat, t: Table, drawn: nat, pace: Pace): (Progress, Table, nat) {
    var (p, t', drawn') := RowStep(cfg, row, i, Start, t, drawn, pace.claimAt);
    Remaining(cfg, row, i, p, t', drawn', pace.doneAt)
  }

  predicate Begun(p: Progress) { !p.Start? && !p.Sent? }

  lemma {:induction false} FirstTurnBegins(cfg: Config, row: Row, i: nat, t: Table, drawn: nat, now: real)
    ensures Begun(RowStep(cfg, row, i, Start, t, drawn, now).0)
  {
  }

  lemma {:induction false} TwoMoreTurns(cfg: Config, row: Row, i: nat, p: Progress, t: Table, drawn: nat, now: real)
    requires Sensible(row, p) && Begun(p)
    ensures var (p', t', drawn') := RowStep(cfg, row, i, p, t, drawn, now);
            RowStep(cfg, row, i, p', t', drawn', now) == Remaining(cfg, row, i, p, t, drawn, now)
    ensures Remaining(cfg, row, i, p, t, drawn, now).0.Finished?
  {
  }

  lemma {:induction false} RowFinishes(cfg: Config, row: Row, i: nat, t: Table, drawn: nat, pace: Pace)
    ensures WholeRow(cfg, row, i, t, drawn, pace).0.Finished?
  {
    var (p, t', drawn') := RowStep(cfg, row, i, Start, t, drawn, pace.claimAt);
    FirstTurnBegins(cfg, row, i, t, drawn, pace.claimAt);
    TwoMoreTurns(cfg, row, i, p, t', drawn', pace.doneAt);
  }

  function TurnsOfRow(i: nat, pace: Pace): seq<Turn> {
    [Turn(i, pace.claimAt), Turn(i, pace.doneAt), Turn(i, pace.doneAt)]
  }

  /** One row after the other, up to row `i`. */
  function InOrder(paces: seq<Pace>, i: nat): (turns: seq<Turn>)
    requires i <= |paces|
    ensures forall n | 0 <= n < |turns| :: turns[n].row < i
  {
    if i == 0 then [] else InOrder(paces, i - 1) + TurnsOfRow(i - 1, paces[i - 1])
  }

  lemma {:induction false} InOrderTimes(paces: seq<Pace>, i: nat, t0: real, t1: real)
    requires i <= |paces| && forall j | 0 <= j < i :: t0 <= paces[j].claimAt <= t1 && t0 <= paces[j].doneAt <= t1
    ensures forall n | 0 <= n < |InOrder(paces, i)| :: t0 <= InOrder(paces, i)[n].now <= t1
  {
    if i == 0 {
    } else {
      InOrderTimes(paces, i - 1, t0, t1);
    }
  }

  lemma {:induction false} FlyOfMore(cfg: Config, rows: seq<Row>, f: Flight, a: seq<Turn>, b: seq<Turn>)
    requires FlightOk(rows, f)
    requires forall n | 0 <= n < |a| :: a[n].row < |rows|
    requires forall n | 0 <= n < |b| :: b[n].row < |rows|
    ensures Fly(cfg, rows, f, a + b) == Fly(cfg, rows, Fly(cfg, rows, f, a), b)
    decreases |a|
  {
    if a == [] {
      assert a + b == b;
    } else {
      assert (a + b)[1..] == a[1..] + b;
      FlyOfMore(cfg, rows, TakeTurn(cfg, rows, f, a[0]), a[1..], b);
    }
  }

  /** Row `i` has taken its three turns. */
  predicate RowTurned(cfg: Config, rows: seq<Row>, f: Flight, i: nat, pace: Pace, f': Flight)
    requires i < |rows| == |f.rows|
  {
    && |f'.rows| == |f.rows| && f'.rows == f.rows[i := f'.rows[i]]
    && (f'.rows[i], f'.table, f'.drawn) == WholeRow(cfg, rows[i], i, f.table, f.drawn, pace)
  }

  lemma {:induction false} TurnOfRow(cfg: Config, rows: seq<Row>, f: Flight, i: nat, now: real, f': Flight)
    requires FlightOk(rows, f) && i < |rows| && |f'.rows| == |f.rows| && f'.rows == f.rows[i := f'.rows[i]]
    requires (f'.rows[i], f'.table, f'.drawn) == RowStep(cfg, rows[i], i, f.rows[i], f.table, f.drawn, now)
    ensures f' == TakeTurn(cfg, rows, f, Turn(i, now))
  {
  }

  lemma {:induction false} RowInFlight(cfg: Config, rows: seq<Row>, f: Flight, i: nat, pace: Pace, f': Flight)
    requires FlightOk(rows, f) && i < |rows| && f.rows[i] == Start && RowTurned(cfg, rows, f, i, pace, f')
    ensures Fly(cfg, rows, f, TurnsOfRow(i, pace)) == f'
  {
    var turns := TurnsOfRow(i, pace);
    var f1 := TakeTurn(cfg, rows, f, turns[0]);
    var f2 := TakeTurn(cfg, rows, f1, turns[1]);
    FirstTurnBegins(cfg, rows[i], i, f.table, f.drawn, pace.claimAt);
    TwoMoreTurns(cfg, rows[i], i, f1.rows[i], f1.table, f1.drawn, pace.doneAt);
    TurnOfRow(cfg, rows, f2, i, pace.doneAt, f');
    assert Fly(cfg, rows, f2, turns[2..]) == f' by { assert turns[2..][1..] == []; }
    assert Fly(cfg, rows, f1, turns[1..]) == f' by { assert turns[1..][1..] == turns[2..]; }
  }

  lemma {:induction false} NextInOrder(cfg: Config, rows: seq<Row>, launch: Flight, paces: seq<Pace>, i: nat,
                                       f: Flight, f': Flight)
    requires FlightOk(rows, launch) && i < |rows| == |paces| && f == Fly(cfg, rows, launch, InOrder(paces, i))
    requires f.rows[i] == Start && RowTurned(cfg, rows, f, i, paces[i], f')
    ensures Fly(cfg, rows, launch, InOrder(paces, i + 1)) == f'
  {
    RowInFlight(cfg, rows, f, i, paces[i], f');
    FlyOfMore(cfg, rows, launch, InOrder(paces, i), TurnsOfRow(i, paces[i]));
  }

  /** The first `i` rows have finished, and the others have not started. */
  ghost predicate Reached(rows: seq<Row>, f: Flight, i: nat) {
    && |f.rows| == |rows|
    && (forall j | 0 <= j < i && j < |rows| :: f.rows[j].Finished?)
    && (forall j | i <= j < |rows| :: f.rows[j] == Start)
  }

  lemma {:induction false} RowsDone(cfg: Config, rows: seq<Row>, launch: Flight, paces: seq<Pace>, i: nat)
    returns (f: Flight)
    requires FlightOk(rows, launch) && i <= |rows| == |paces| && Reached(rows, launch, 0)
    ensures f == Fly(cfg, rows, launch, InOrder(paces, i)) && Reached(rows, f, i)
  {
    f := launch;
    if i == 0 {
    } else {
      var before := RowsDone(cfg, rows, launch, paces, i - 1);
      f := TurnedRow(cfg, rows, before, i - 1, paces[i - 1]);
      NextInOrder(cfg, rows, launch, paces, i - 1, before, f);
    }
  }

  lemma {:induction false} TurnedRow(cfg: Config, rows: seq<Row>, f: Flight, i: nat, pace: Pace) returns (f': Flight)
    requires i < |rows| && Reached(rows, f, i)
    ensures RowTurned(cfg, rows, f, i, pace, f') && Reached(rows, f', i + 1)
  {
    var (p, t, drawn) := WholeRow(cfg, rows[i], i, f.table, f.drawn, pace);
    RowFinishes(cfg, rows[i], i, f.table, f.drawn, pace);
    f' := Flight(t, drawn, f.rows[i := p]);
  }

  lemma {:induction false} InOrderFinishes(cfg: Config, rows: seq<Row>, start: Table, drawn: nat, paces: seq<Pace>)
    requires |rows| == |paces|
    ensures AllFinished(Fly(cfg, rows, Launch(rows, start, drawn), InOrder(paces, |paces|)))
  {
    var f := RowsDone(cfg, rows, Launch(rows, start, drawn), paces, |rows|);
  }

  lemma {:induction false} OnTimeOfMore(cfg: Config, rows: seq<Row>, f: Flight, a: seq<Turn>, b: seq<Turn>)
    requires FlightOk(rows, f)
    requires forall n | 0 <= n < |a| :: a[n].row < |rows|
    requires forall n | 0 <= n < |b| :: b[n].row < |rows|
    requires OnTime(cfg, rows, f, a) && OnTime(cfg, rows, Fly(cfg, rows, f, a), b)
    ensures OnTime(cfg, rows, f, a + b)
    decreases |a|
  {
    if a == [] {
      assert a + b == b;
    } else {
      assert (a + b)[1..] == a[1..] + b;
      OnTimeOfMore(cfg, rows, TakeTurn(cfg, rows, f, a[0]), a[1..], b);
    }
  }

  /** A row that completes within a lease length of its claim is on time. */
  lemma {:induction false} RowIsOnTime(cfg: Config, rows: seq<Row>, f: Flight, i: nat, pace: Pace)
    requires FlightOk(rows, f) && i < |rows| && f.rows[i] == Start && pace.doneAt < pace.claimAt + cfg.lease
    ensures OnTime(cfg, rows, f, TurnsOfRow(i, pace))
  {
    var turns := TurnsOfRow(i, pace);
    var f1 := TakeTurn(cfg, rows, f, turns[0]);
    var f2 := TakeTurn(cfg, rows, f1, turns[1]);
    assert f1.rows[i].Entitled? && f1.rows[i].token.Some? ==>
        KeyOf(rows[i]) in f1.table && f1.table[KeyOf(rows[i])].leaseUntil == pace.claimAt + cfg.lease;
    assert f2.rows[i].Sent? ==> f1.rows[i].Entitled? && f2.table == f1.table && f2.rows[i].token == f1.rows[i].token;
    assert OnTime(cfg, rows, f2, turns[2..]);
    assert OnTime(cfg, rows, f1, turns[1..]) by { assert turns[1..][1..] == turns[2..]; }
  }

  lemma {:induction false} NextOnTime(cfg: Config, rows: seq<Row>, launch: Flight, before: seq<Turn>, f: Flight,
                                      i: nat, pace: Pace)
    requires FlightOk(rows, launch) && forall n | 0 <= n < |before| :: before[n].row < |rows|
    requires OnTime(cfg, rows, launch, before) && f == Fly(cfg, rows, launch, before)
    requires i < |rows| && f.rows[i] == Start && pace.doneAt < pace.claimAt + cfg.lease
    ensures OnTime(cfg, rows, launch, before + TurnsOfRow(i, pace))
  {
    RowIsOnTime(cfg, rows, f, i, pace);
    OnTimeOfMore(cfg, rows, launch, before, TurnsOfRow(i, pace));
  }

  lemma {:induction false} InOrderIsOnTime(cfg: Config, rows: seq<Row>, launch: Flight, paces: seq<Pace>, i: nat)
    requires i <= |rows| == |paces| && FlightOk(rows, launch) && Reached(rows, launch, 0)
    requires forall j | 0 <= j < |paces| :: paces[j].doneAt < paces[j].claimAt + cfg.lease
    ensures OnTime(cfg, rows, launch, InOrder(paces, i))
  {
    if i == 0 {
    } else {
      var n, pace := i - 1, paces[i - 1];
      InOrderIsOnTime(cfg, rows, launch, paces, n);
      var f := RowsDone(cfg, rows, launch, paces, n);
      NextOnTime(cfg, rows, launch, InOrder(paces, n), f, n, pace);
    }
  }

  lemma {:induction false} LateDiffers(cfg: Config, rows: seq<Row>, start: Table, drawn1: nat, drawn2: nat,
                                       turns1: seq<Turn>, turns2: seq<Turn>, t0: real, t1: real)
    requires Calm(cfg, start, t0, t1) && LeasesSettled(start, t0, t1) && DistinctIds(rows) && Digested(rows)
    requires forall n | 0 <= n < |turns1| :: turns1[n].row < |rows| && t0 <= turns1[n].now <= t1
    requires forall n | 0 <= n < |turns2| :: turns2[n].row < |rows| && t0 <= turns2[n].now <= t1
    requires AllFinished(Fly(cfg, rows, Launch(rows, start, drawn1), turns1))
    requires OnTime(cfg, rows, Launch(rows, start, drawn1), turns1)
    requires !OnTime(cfg, rows, Launch(rows, start, drawn2), turns2)
    ensures Fly(cfg, rows, Launch(rows, start, drawn1), turns1).rows
            != Fly(cfg, rows, Launch(rows, start, drawn2), turns2).rows
  {
    EveryInterleaving(cfg, rows, start, drawn1, turns1, t0, t1);
    LaunchOk(cfg, rows, start, drawn2, t0, t1);
    var i := LateRowShows(cfg, rows, start, Launch(rows, start, drawn2), turns2, t0, t1);
    assert Fly(cfg, rows, Launch(rows, start, drawn1), turns1).rows[i].Finished?;
  }

  /** A complete interleaving returns the list of the row-by-row submission exactly if no row
      of it is late, and then it leaves the same records up to tokens and times. */
  lemma {:induction false} ConcurrentLikeSequential(cfg: Config, rows: seq<Row>, start: Table, drawn1: nat, drawn2: nat,
                                 paces: seq<Pace>, turns: seq<Turn>, t0: real, t1: real)
    requires Calm(cfg, start, t0, t1) && LeasesSettled(start, t0, t1) && DistinctIds(rows) && Digested(rows)
    requires |paces| == |rows|
    requires forall i | 0 <= i < |paces| ::
               && t0 <= paces[i].claimAt <= t1 && t0 <= paces[i].doneAt <= t1
               && paces[i].doneAt < paces[i].claimAt + cfg.lease
    requires forall n | 0 <= n < |turns| :: turns[n].row < |rows| && t0 <= turns[n].now <= t1
    requires AllFinished(Fly(cfg, rows, Launch(rows, start, drawn2), turns))
    ensures var f1 := Fly(cfg, rows, Launch(rows, start, drawn1), InOrder(paces, |paces|));
            var f2 := Fly(cfg, rows, Launch(rows, start, drawn2), turns);
            && (f1.rows == f2.rows <==> OnTime(cfg, rows, Launch(rows, start, drawn2), turns))
            && (f1.rows == f2.rows ==>
                  forall k: string :: ShapeOf(View(f1.table, t0, k)) == ShapeOf(View(f2.table, t0, k)))
  {
    InOrderFinishes(cfg, rows, start, drawn1, paces);
    InOrderIsOnTime(cfg, rows, Launch(rows, start, drawn1), paces, |paces|);
    InOrderTimes(paces, |paces|, t0, t1);
    if OnTime(cfg, rows, Launch(rows, start, drawn2), turns) {
      InterleavingIsInvisible(cfg, rows, start, drawn1, drawn2, InOrder(paces, |paces|), turns, t0, t1);
    } else {
      LateDiffers(cfg, rows, start, drawn1, drawn2, InOrder(paces, |paces|), turns, t0, t1);
    }
  }

  /** Such a late run: a single row, alone with an empty store, whose POST takes as long as
      its lease. It is created in Oracle, and told that its claim was lost. */
  lemma {:induction false} SlowPostIsLost(cfg: Config, row: Row, drawn: nat)
    requires cfg.Valid() && cfg.lease < cfg.ttl && |row.digest| == DIGEST_LENGTH
    requires UsesStore(row) && row.completeUp && row.outcome.Created?
    ensures var turns := [Turn(0, 0.0), Turn(0, 0.0), Turn(0, cfg.lease)];
            var f := Fly(cfg, [row], Launch([row], map[], drawn), turns);
            f.rows == [Finished(ClaimLost(0, row))] && ClaimLost(0, row) != OutcomeResult(0, row)
  {
    var rows, launch := [row], Launch([row], map[], drawn);
    var turns := [Turn(0, 0.0), Turn(0, 0.0), Turn(0, cfg.lease)];
    var f1 := TakeTurn(cfg, rows, launch, turns[0]);
    ClaimOfEmpty(cfg, row, drawn);
    assert f1.rows[0] == Entitled(Some(drawn));
    var f2 := TakeTurn(cfg, rows, f1, turns[1]);
    assert f2.rows[0] == Sent(Some(drawn), OutcomeResult(0, row)) && f2.table == f1.table;
    LateFinish(cfg, row, f2.table, drawn);
    OutcomeIsNotLost(0, row);
    var f3 := TakeTurn(cfg, rows, f2, turns[2]);
    assert Fly(cfg, rows, f2, turns[2..]) == f3 by { assert turns[2..][1..] == []; }
    assert Fly(cfg, rows, f1, turns[1..]) == f3 by { assert turns[1..][1..] == turns[2..]; }
    assert f3.rows == [f3.rows[0]];
  }

  lemma {:induction false} ClaimOfEmpty(cfg: Config, row: Row, drawn: nat)
    requires UsesStore(row)
    ensures var (p, t, _) := RowStep(cfg, row, 0, Start, map[], drawn, 0.0);
            p == Entitled(Some(drawn)) && t == map[KeyOf(row) := FreshRecord(cfg, 0.0, row.hash, drawn)]
  {
    assert Purge(map[], 0.0) == map[];
  }

  lemma {:induction false} LateFinish(cfg: Config, row: Row, t: Table, token: nat)
    requires UsesStore(row) && row.completeUp && row.outcome.Created?
    requires t == map[KeyOf(row) := FreshRecord(cfg, 0.0, row.hash, token)]
    ensures RowStep(cfg, row, 0, Sent(Some(token), OutcomeResult(0, row)), t, token + 1, cfg.lease).0
            == Finished(ClaimLost(0, row))
  {
    OutcomeFields(0, row);
    SanitizedFields(OutcomeResult(0, row));
    assert !Accepts(cfg.kind, t, cfg.lease, KeyOf(row), token, Sanitize(OutcomeResult(0, row)));
  }

  /** The submitter's loop: it is the run of the rows in order. */
  method CreateRows(store: SqliteBackend, rows: seq<Row>, paces: seq<Pace>, firstToken: nat)
    returns (results: seq<Dict>)
    requires store.cfg.kind == Sqlite && |paces| == |rows|
    modifies store
    ensures |results| == |rows|
    ensures var f := Fly(store.cfg, rows, Launch(rows, old(store.rows), firstToken), InOrder(paces, |paces|));
            f.table == store.rows && forall i | 0 <= i < |rows| :: f.rows[i] == Finished(results[i])
  {
    results := [];
    var drawn := firstToken;
    ghost var launch := Launch(rows, store.rows, firstToken);
    ghost var f := launch;
    for i := 0 to |rows|
      invariant |results| == i && f == Fly(store.cfg, rows, launch, InOrder(paces, i))
      invariant f.table == store.rows && f.drawn == drawn
      invariant forall j | 0 <= j < i :: f.rows[j] == Finished(results[j])
      invariant forall j | i <= j < |rows| :: f.rows[j] == Start
    {
      var result;
      result, drawn := CreateOne(store, rows[i], i, paces[i], drawn);
      ghost var f' := Flight(store.rows, drawn, f.rows[i := Finished(result)]);
      NextInOrder(store.cfg, rows, launch, paces, i, f, f');
      f := f';
      results := results + [result];
    }
  }

  /** The body of the submitter's loop. */
  method CreateOne(store: SqliteBackend, row: Row, i: nat, pace: Pace, drawn: nat) returns (result: Dict, drawn': nat)
    requires store.cfg.kind == Sqlite
    modifies store
    ensures WholeRow(store.cfg, row, i, old(store.rows), drawn, pace) == (Finished(result), store.rows, drawn')
  {
    var claimed;
    claimed, drawn' := ClaimRow(store, row, i, pace.claimAt, drawn);
    match claimed {
      case Finished(answer) => result := answer;
      case Waiting => result := AwaitRow(store, row, i, pace.doneAt);
      case Entitled(token) => result := CompleteRow(store, row, i, token, OutcomeResult(i, row), pace.doneAt);
    }
  }

  /** The claim: the row may send its POST, must wait, or has its result. */
  method ClaimRow(store: SqliteBackend, row: Row, i: nat, now: real, drawn: nat) returns (p: Progress, drawn': nat)
    requires store.cfg.kind == Sqlite
    modifies store
    ensures (p, store.rows, drawn') == StartRow(store.cfg, row, i, old(store.rows), drawn, now)
    ensures p.Finished? || (p.Waiting? && UsesStore(row)) || (p.Entitled? && (p.token.Some? ==> UsesStore(row)))
  {
    if row.requestId.None? {
      return Entitled(None), drawn;
    }
    if Trim(row.employee) == "" {
      return Finished(Failure(i, 400, row.correlation, row.requestId, None)), drawn;
    }
    var claim := store.ClaimKey(row.claimUp, now, KeyOf(row), row.hash, drawn);
    if claim.None? {
      return Finished(Unavailable(i, row)), drawn;
    }
    match claim.value {
      case Replay(d) => return Finished(d[Index := Num(i)]), drawn;
      case Conflict => return Finished(Addressed(CodedFailure(CONFLICT), i, row)), drawn;
      case InProgress => return Waiting, drawn;
      case Claimed(token) => return Entitled(Some(token)), drawn + 1;
    }
  }

  method AwaitRow(store: SqliteBackend, row: Row, i: nat, now: real) returns (result: Dict)
    requires row.requestId.Some?
    modifies store
    ensures (Finished(result), store.rows) == WaitRow(row, i, old(store.rows), now)
  {
    var replayed := store.ReadKey(row.waitUp, now, KeyOf(row));
    if replayed.None? {
      return Unavailable(i, row);
    }
    result := Addressed(OrElse(replayed.value, CodedFailure(IN_PROGRESS)), i, row);
  }

  /** The completion: what the row is told about its outcome. */
  method CompleteRow(store: SqliteBackend, row: Row, i: nat, token: Option<nat>, mine: Dict, now: real)
    returns (result: Dict)
    requires store.cfg.kind == Sqlite && (token.Some? ==> row.requestId.Some?)
    modifies store
    ensures (Finished(result), store.rows) == FinishRow(store.cfg, row, i, token, mine, old(store.rows), now)
  {
    result := mine;
    if token.Some? {
      var stored := store.CompleteKey(row.completeUp, now, KeyOf(row), token.value, mine);
      if stored.None? {
        result := Unavailable(i, row);
      } else if !stored.value {
        result := ClaimLost(i, row);
      }
    }
  }
}
