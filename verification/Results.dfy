/** Submission results, the sanitiser that decides what may be stored and shown,
    and the classification of outcomes (backend/services/idempotency.py). */
module Results {
  import opened Values

  /** The dictionary keys the sanitiser knows, and every other key. */
  datatype Field =
    | Index | Ok | Id | RecordNumber | RecordName | Status | Error | Code
    | CorrelationId | RequestId | Replayed | Unlisted(name: string)

  type Dict = map<Field, Value>

  const RESULT_FIELDS: set<Field> :=
    {Index, Ok, Id, RecordNumber, RecordName, Status, Error, Code, CorrelationId, RequestId, Replayed}

  const IN_PROGRESS := "submission_in_progress"
  const CONFLICT := "request_id_conflict"
  const CLAIM_LOST := "idempotency_claim_lost"
  const STORE_UNAVAILABLE := "idempotency_unavailable"
  const ORACLE_UNAVAILABLE := "oracle_unavailable"

  predicate KnownCode(code: string) {
    code == IN_PROGRESS || code == CONFLICT || code == CLAIM_LOST
    || code == STORE_UNAVAILABLE || code == ORACLE_UNAVAILABLE
  }

  function Get(d: Dict, f: Field, default: Value): Value {
    if f in d then d[f] else default
  }

  function HasCode(d: Dict): Option<string> {
    if Code in d && d[Code].Str? then Some(d[Code].s) else None
  }

  predicate IsOk(d: Dict) { Truthy(Get(d, Ok, Null)) }

  /** `_result_status`: a missing or unreadable status counts as 500. */
  function StatusOf(d: Dict): int {
    var n := ToInt(Get(d, Status, Num(500)));
    if n.Some? then n.value else 500
  }

  predicate InErrorRange(status: int) { 400 <= status <= 599 }

  predicate IsAmbiguous(d: Dict) {
    !IsOk(d)
    && (HasCode(d) == Some(STORE_UNAVAILABLE) || HasCode(d) == Some(ORACLE_UNAVAILABLE)
        || StatusOf(d) >= 500)
  }

  predicate IsRetryable(d: Dict) {
    var code := HasCode(d);
    if IsOk(d) then false
    else if code in {Some(IN_PROGRESS), Some(CLAIM_LOST), Some(STORE_UNAVAILABLE), Some(ORACLE_UNAVAILABLE)} then true
    else if code == Some(CONFLICT) then false
    else StatusOf(d) >= 500 || StatusOf(d) == 409 || StatusOf(d) == 429
  }

  function CodeMessage(code: string): string {
    if code == IN_PROGRESS then "A matching submission is still processing. Retry with the same requestId."
    else if code == CONFLICT then "This requestId was already used for different timecard data."
    else if code == CLAIM_LOST then "The submission could not be recorded as complete. Retry with the same requestId."
    else if code == STORE_UNAVAILABLE then "The idempotency store is unavailable. Retry with the same requestId."
    else "Oracle Cloud is temporarily unavailable. Retry with the same requestId."
  }

  function StatusMessage(status: int): string {
    if status == 400 || status == 422 then "Oracle rejected this timecard entry."
    else if status == 401 then "Oracle authentication failed."
    else if status == 403 then "Oracle authorization failed."
    else if status == 404 then "The timecard request was not found."
    else if status == 409 then "The timecard request conflicts with an existing request."
    else if status == 429 then "Oracle is temporarily busy. Please retry later."
    else if 500 <= status <= 599 then "Oracle Cloud is temporarily unavailable."
    else "Timecard submission failed."
  }

  function SafeError(d: Dict): string {
    var code := HasCode(d);
    if code.Some? && KnownCode(code.value) then CodeMessage(code.value) else StatusMessage(StatusOf(d))
  }

  function SafeString(v: Value): string {
    var s := ToText(v);
    if |s| <= 256 then s else s[..256]
  }

  predicate IsCorrelationChar(c: char) {
    'A' <= c <= 'Z' || 'a' <= c <= 'z' || '0' <= c <= '9' || c == '.' || c == '_' || c == ':' || c == '-'
  }

  predicate IsCorrelationId(s: string) {
    1 <= |s| <= 128 && forall i | 0 <= i < |s| :: IsCorrelationChar(s[i])
  }

  /** What one turn of the sanitiser's loop stores for a field that is present. */
  function SafeField(d: Dict, f: Field): Option<Value>
    requires f in d
  {
    match f
    case Ok => Some(Flag(Truthy(d[f])))
    case Replayed => Some(Flag(Truthy(d[f])))
    case Index =>
      var n := ToInt(d[f]);
      if n.None? then None else Some(Num(Max(0, n.value)))
    case Status => Some(Num(if InErrorRange(StatusOf(d)) then StatusOf(d) else 500))
    case Code => if d[f].Str? && KnownCode(d[f].s) then Some(d[f]) else None
    case Error => Some(Str(SafeError(d)))
    case CorrelationId =>
      if IsCorrelationId(SafeString(d[f])) then Some(Str(SafeString(d[f]))) else None
    case _ => Some(Str(SafeString(d[f])))
  }

  /** The fields the loop has stored once it has visited `fields`. */
  function Kept(d: Dict, fields: set<Field>): Dict {
    map f | f in fields && f in d && SafeField(d, f).Some? :: SafeField(d, f).value
  }

  function Sanitize(d: Dict): Dict {
    var kept := Kept(d, RESULT_FIELDS);
    var safe := if Ok in kept then kept else kept[Ok := Flag(false)];
    if IsOk(safe) then safe else safe[Error := Str(SafeError(safe))]
  }

  lemma {:induction false} NoDictionary()
    ensures Sanitize(map[Status := Num(500)]) == map[Ok := Flag(false), Status := Num(500),
            Error := Str(StatusMessage(500))]
  {
    var d: Dict := map[Status := Num(500)];
    var kept := Kept(d, RESULT_FIELDS);
    assert kept == map[Status := Num(500)];
    var safe := kept[Ok := Flag(false)];
    assert safe[Error := Str(SafeError(safe))] == map[Ok := Flag(false), Status := Num(500),
           Error := Str(StatusMessage(500))];
  }

  lemma {:induction false} KeptOneMore(d: Dict, seen: set<Field>, f: Field)
    ensures Kept(d, seen + {f})
            == if f in d && SafeField(d, f).Some? then Kept(d, seen)[f := SafeField(d, f).value] else Kept(d, seen)
  {
    var more := Kept(d, seen + {f});
    if f in d && SafeField(d, f).Some? {
      assert more.Keys == Kept(d, seen).Keys + {f};
    } else {
      assert more.Keys == Kept(d, seen).Keys;
    }
  }

  /** The sanitiser as it runs: one pass over the known fields, in whatever order the
      set yields them, then the two defaults. `None` stands for an argument that is not
      a dictionary. */
  method SanitizeResult(raw: Option<Dict>) returns (safe: Dict)
    ensures raw.Some? ==> safe == Sanitize(raw.value)
    ensures raw.None? ==> safe == Sanitize(map[Status := Num(500)])
  {
    if raw.None? {
      safe := map[Ok := Flag(false), Status := Num(500), Error := Str(StatusMessage(500))];
      NoDictionary();
      return;
    }
    var d := raw.value;
    safe := map[];
    var todo := RESULT_FIELDS;
    while todo != {}
      invariant todo <= RESULT_FIELDS
      invariant safe == Kept(d, RESULT_FIELDS - todo)
    {
      var f :| f in todo;
      ghost var seen := RESULT_FIELDS - todo;
      assert RESULT_FIELDS - (todo - {f}) == seen + {f};
      KeptOneMore(d, seen, f);
      if f in d {
        var v := SafeField(d, f);
        if v.Some? {
          safe := safe[f := v.value];
        }
      }
      todo := todo - {f};
    }
    assert RESULT_FIELDS - todo == RESULT_FIELDS;
    assert safe == Kept(d, RESULT_FIELDS);
    if Ok !in safe {
      safe := safe[Ok := Flag(false)];
    }
    if !IsOk(safe) {
      safe := safe[Error := Str(SafeError(safe))];
    }
  }

  /** Exactly the inputs on which sanitising twice differs from sanitising once: a
      success that carries an error text chosen from a status outside 400..599. */
  predicate Unsettled(d: Dict) {
    IsOk(d) && Error in d && Status in d
    && !(HasCode(d).Some? && KnownCode(HasCode(d).value))
    && !InErrorRange(StatusOf(d))
  }

  /** The sanitiser's defaults touch only the success flag and the error text. */
  lemma {:induction false} DefaultsKeep(kept: Dict, safe: Dict, f: Field)
    requires safe == (if Ok in kept then kept else kept[Ok := Flag(false)])
    requires f != Ok && f != Error
    ensures var done := if IsOk(safe) then safe else safe[Error := Str(SafeError(safe))];
            (f in done <==> f in kept) && (f in kept ==> done[f] == kept[f])
  {
  }

  lemma {:induction false} OtherFields(d: Dict)
    ensures Sanitize(d).Keys <= RESULT_FIELDS && Ok in Sanitize(d)
    ensures forall f | f != Ok && f != Error ::
              f in Sanitize(d) <==> f in d && f in RESULT_FIELDS && SafeField(d, f).Some?
    ensures forall f | f in Sanitize(d) && f != Ok && f != Error :: SafeField(d, f) == Some(Sanitize(d)[f])
  {
    var kept := Kept(d, RESULT_FIELDS);
    var safe := if Ok in kept then kept else kept[Ok := Flag(false)];
    forall f | f != Ok && f != Error
      ensures f in Sanitize(d) <==> f in kept
      ensures f in kept ==> Sanitize(d)[f] == kept[f]
    {
      DefaultsKeep(kept, safe, f);
    }
  }

  /** Every field of the sanitised result, in terms of the input. */
  lemma {:induction false} SanitizedFields(d: Dict)
    ensures Sanitize(d).Keys <= RESULT_FIELDS && Ok in Sanitize(d)
    ensures IsOk(Sanitize(d)) == IsOk(d)
    ensures Sanitize(d)[Ok] == Flag(IsOk(d))
    ensures HasCode(Sanitize(d)) == (if HasCode(d).Some? && KnownCode(HasCode(d).value) then HasCode(d) else None)
    ensures StatusOf(Sanitize(d)) == (if InErrorRange(StatusOf(d)) then StatusOf(d) else 500)
    ensures Status in Sanitize(d) <==> Status in d
    ensures Error in Sanitize(d) <==> (Error in d || !IsOk(d))
    ensures !IsOk(d) ==> Sanitize(d)[Error] == Str(SafeError(Sanitize(d)))
    ensures IsOk(d) && Error in d ==> Sanitize(d)[Error] == Str(SafeError(d))
    ensures forall f | f in Sanitize(d) && f != Ok && f != Error :: f in d && SafeField(d, f) == Some(Sanitize(d)[f])
  {
    OtherFields(d);
    FlagAndText(d);
    StatusAndCode(d, Sanitize(d));
  }

  lemma {:induction false} StatusAndCode(d: Dict, once: Dict)
    requires forall f | f == Status || f == Code :: f in once <==> f in d && SafeField(d, f).Some?
    requires forall f | f in once && (f == Status || f == Code) :: SafeField(d, f) == Some(once[f])
    ensures HasCode(once) == (if HasCode(d).Some? && KnownCode(HasCode(d).value) then HasCode(d) else None)
    ensures StatusOf(once) == (if InErrorRange(StatusOf(d)) then StatusOf(d) else 500)
    ensures Status in once <==> Status in d
  {
    assert Status in d ==> SafeField(d, Status).Some?;
    assert Code in d ==> SafeField(d, Code).Some? == (d[Code].Str? && KnownCode(d[Code].s));
  }

  lemma {:induction false} FlagAndText(d: Dict)
    ensures Ok in Sanitize(d) && Sanitize(d)[Ok] == Flag(IsOk(d)) && IsOk(Sanitize(d)) == IsOk(d)
    ensures Error in Sanitize(d) <==> (Error in d || !IsOk(d))
    ensures !IsOk(d) ==> Sanitize(d)[Error] == Str(SafeError(Sanitize(d)))
    ensures IsOk(d) && Error in d ==> Sanitize(d)[Error] == Str(SafeError(d))
  {
    var kept := Kept(d, RESULT_FIELDS);
    var safe := if Ok in kept then kept else kept[Ok := Flag(false)];
    assert IsOk(safe) == IsOk(d) && safe[Ok] == Flag(IsOk(d));
    SameReading(safe, Sanitize(d), Ok);
  }

  /** Every field other than the error text already has its final form. */
  ghost predicate Settled(e: Dict) {
    e.Keys <= RESULT_FIELDS && Ok in e
    && forall f | f in e && f != Error :: SafeField(e, f) == Some(e[f])
  }

  /** Sanitising reads only the field itself, the status and the code. */
  lemma SameReading(a: Dict, b: Dict, f: Field)
    requires Get(a, Status, Num(500)) == Get(b, Status, Num(500)) && HasCode(a) == HasCode(b)
    ensures SafeError(a) == SafeError(b)
    ensures f in a && f in b && a[f] == b[f] ==> SafeField(a, f) == SafeField(b, f)
  {
  }

  lemma {:induction false} KeptOfSettled(e: Dict)
    requires Settled(e)
    ensures Kept(e, RESULT_FIELDS) == if Error in e then e[Error := Str(SafeError(e))] else e
  {
    var kept := Kept(e, RESULT_FIELDS);
    forall f | f in e
      ensures SafeField(e, f) == Some(if f == Error then Str(SafeError(e)) else e[f])
    {
    }
    assert kept.Keys == e.Keys;
  }

  lemma {:induction false} SanitizeOfSettled(e: Dict)
    requires Settled(e)
    ensures Sanitize(e) == if IsOk(e) && Error !in e then e else e[Error := Str(SafeError(e))]
  {
    KeptOfSettled(e);
    if Error in e {
      DefaultsOfText(e);
    } else {
      assert Kept(e, RESULT_FIELDS) == e;
    }
  }

  lemma {:induction false} DefaultsOfText(e: Dict)
    requires Ok in e && Kept(e, RESULT_FIELDS) == e[Error := Str(SafeError(e))]
    ensures Sanitize(e) == e[Error := Str(SafeError(e))]
  {
    var kept := e[Error := Str(SafeError(e))];
    assert Ok in kept && kept[Ok] == e[Ok];
    SameReading(kept, e, Ok);
    assert kept[Error := Str(SafeError(kept))] == kept;
  }

  lemma {:induction false} SettledIsFixed(e: Dict)
    requires Settled(e)
    ensures Sanitize(e) == e
            <==> (!IsOk(e) ==> Error in e) && (Error in e ==> e[Error] == Str(SafeError(e)))
  {
    SanitizeOfSettled(e);
    if !(IsOk(e) && Error !in e) {
      var text := Str(SafeError(e));
      assert e[Error := text] == e <==> Error in e && e[Error] == text;
    }
  }

  /** A safe field is its own safe form, whatever the field. */
  lemma {:induction false} FieldSettles(d: Dict, f: Field)
    requires f in Sanitize(d) && f != Error
    ensures SafeField(Sanitize(d), f) == Some(Sanitize(d)[f])
  {
    SanitizedFields(d);
    match f
    case Ok =>
    case Status => StatusSettles(d, Sanitize(d));
    case _ => OtherFieldSettles(d, Sanitize(d), f);
  }

  lemma {:induction false} StatusSettles(d: Dict, once: Dict)
    requires Status in d && Status in once && SafeField(d, Status) == Some(once[Status])
    ensures SafeField(once, Status) == Some(once[Status])
  {
    assert InErrorRange(StatusOf(once));
  }

  lemma {:induction false} OtherFieldSettles(d: Dict, once: Dict, f: Field)
    requires f in d && f in once && f != Ok && f != Error && f != Status && SafeField(d, f) == Some(once[f])
    ensures SafeField(once, f) == Some(once[f])
  {
  }

  lemma {:induction false} SanitizedIsSettled(d: Dict)
    ensures Settled(Sanitize(d))
  {
    SanitizedFields(d);
    forall f | f in Sanitize(d) && f != Error
      ensures SafeField(Sanitize(d), f) == Some(Sanitize(d)[f])
    {
      FieldSettles(d, f);
    }
  }

  lemma {:induction false} ReplayIsSettled(e: Dict)
    requires Settled(e)
    ensures Settled(e[Replayed := Flag(true)])
  {
    var shown := e[Replayed := Flag(true)];
    assert Get(shown, Status, Num(500)) == Get(e, Status, Num(500)) && HasCode(shown) == HasCode(e);
    forall f | f in e && f != Error && f != Replayed
      ensures SafeField(shown, f) == SafeField(e, f) && shown[f] == e[f]
    {
      SameReading(shown, e, f);
    }
    assert SafeField(shown, Replayed) == Some(Flag(true));
  }

  /** A status outside 400..599 gives a text that no status inside gives. */
  lemma {:induction false} OddStatusShows(status: int)
    requires !InErrorRange(status)
    ensures StatusMessage(status) != StatusMessage(500)
  {
    assert StatusMessage(status) == "Timecard submission failed.";
    assert StatusMessage(500) == "Oracle Cloud is temporarily unavailable.";
    assert |StatusMessage(status)| != |StatusMessage(500)|;
  }

  /** The error text of a sanitised result agrees with its own status and code,
      except on the unsettled successes. */
  lemma {:induction false} ErrorTextSettles(d: Dict)
    ensures var once := Sanitize(d);
            (Error in once ==> once[Error] == Str(SafeError(once))) <==> !Unsettled(d)
  {
    SanitizedFields(d);
    if IsOk(d) && Error in d {
      SafeErrors(d, Sanitize(d));
    }
  }

  lemma {:induction false} SafeErrors(d: Dict, once: Dict)
    requires HasCode(once) == if HasCode(d).Some? && KnownCode(HasCode(d).value) then HasCode(d) else None
    requires StatusOf(once) == if InErrorRange(StatusOf(d)) then StatusOf(d) else 500
    ensures SafeError(d) == SafeError(once)
            <==> (HasCode(d).Some? && KnownCode(HasCode(d).value)) || InErrorRange(StatusOf(d))
  {
    if !InErrorRange(StatusOf(d)) { OddStatusShows(StatusOf(d)); }
  }

  lemma {:induction false} SanitizeTwice(d: Dict)
    ensures Sanitize(Sanitize(d)) == Sanitize(d) <==> !Unsettled(d)
  {
    SanitizedFields(d);
    SanitizedIsSettled(d);
    SettledIsFixed(Sanitize(d));
    ErrorTextSettles(d);
  }

  /** Such an input: a success with status 200 and an error text. */
  lemma {:induction false} SanitizingTwiceCanDiffer()
    ensures var d: Dict := map[Ok := Flag(true), Status := Num(200), Error := Str("late")];
            Unsettled(d) && Sanitize(Sanitize(d)) != Sanitize(d)
  {
    SanitizeTwice(map[Ok := Flag(true), Status := Num(200), Error := Str("late")]);
  }

  /** Marking a stored result as replayed does not disturb its other fields, so
      re-sanitising a replay changes nothing exactly when sanitising had settled. */
  lemma {:induction false} ReplayOfStored(d: Dict)
    ensures var shown := Sanitize(d)[Replayed := Flag(true)];
            Sanitize(shown) == shown <==> !Unsettled(d)
  {
    var once := Sanitize(d);
    var shown := once[Replayed := Flag(true)];
    SanitizedFields(d);
    SanitizedIsSettled(d);
    ReplayIsSettled(once);
    SettledIsFixed(shown);
    ErrorTextSettles(d);
    SameReading(shown, once, Ok);
  }

  /** A released claim invites a retry, with one exception: a request-id conflict
      reported with a server status is released although it is called final. */
  lemma {:induction false} AmbiguousIsRetryable(d: Dict)
    ensures IsAmbiguous(d) && !IsRetryable(d)
            <==> !IsOk(d) && HasCode(d) == Some(CONFLICT) && StatusOf(d) >= 500
  {
    assert CONFLICT != IN_PROGRESS && CONFLICT != CLAIM_LOST && CONFLICT != STORE_UNAVAILABLE
           && CONFLICT != ORACLE_UNAVAILABLE by {
      assert |CONFLICT| == 19 && |IN_PROGRESS| == 22 && |CLAIM_LOST| == 22 && |STORE_UNAVAILABLE| == 23
             && |ORACLE_UNAVAILABLE| == 18;
    }
  }

  /** That exception: it is released, yet not called retryable. */
  lemma {:induction false} AmbiguousCanBeFinal()
    ensures var d: Dict := map[Status := Num(500), Code := Str(CONFLICT)];
            IsAmbiguous(d) && !IsRetryable(d)
  {
    AmbiguousIsRetryable(map[Status := Num(500), Code := Str(CONFLICT)]);
  }
}
