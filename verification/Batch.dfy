/** A batch of entries from its preflight to its list of results
    (backend/services/otl_client.py, backend/services/idempotency.py). */
module Batch {
  import opened Values
  import opened Results
  import opened Idempotency
  import opened Submission
  import opened RequestIds
  import Timecards

  const MAX_ENTRIES := 100

  /** One entry of a batch: the entry, the canonical text of all it says besides request
      ids and names, and how Oracle and the store will answer its row. */
  datatype Draft = Draft(entry: Timecards.Entry, payload: string, correlation: string,
                         outcome: Outcome, claimUp: bool, waitUp: bool, completeUp: bool)

  /** The two hashes the submitter uses. */
  datatype Hashes = Hashes(employee: string -> string, payload: string -> string)

  /** The employee number of an entry, as text. */
  function EmployeeOf(e: Timecards.Entry): string {
    if Truthy(e.employeeNumber) then ToText(e.employeeNumber) else ""
  }

  /** A key that the preflight lets through can be read back off the scoped key of any
      employee, and is the one every supplied id names. */
  lemma {:induction false} KeysAreUnambiguous(supplied: seq<Value>, other: seq<Value>, d1: string, d2: string)
    requires KeyFor(supplied).Key? && KeyFor(other).Key? && |d1| == |d2|
    ensures ScopedKey(d1, KeyFor(supplied).key) == ScopedKey(d2, KeyFor(other).key)
            <==> d1 == d2 && forall v, w | v in supplied && w in other :: v == w
  {
    ScopedKeyIsInjective(d1, KeyFor(supplied).key, d2, KeyFor(other).key);
    assert supplied[0] in supplied && other[0] in other;
  }

  /** The ids of one entry, with the request id of the whole submission where there is
      one. */
  function Supplied(d: Draft, requestId: Option<string>): seq<Value> {
    d.entry.supplied + (if requestId.Some? then [Str(requestId.value)] else [])
  }

  function KeyOfDraft(d: Draft, requestId: Option<string>): Option<string> {
    match KeyFor(Supplied(d, requestId))
    case Key(k) => Some(k)
    case _ => None
  }

  function KeysOf(drafts: seq<Draft>, requestId: Option<string>): seq<Option<string>> {
    seq(|drafts|, i requires 0 <= i < |drafts| => KeyOfDraft(drafts[i], requestId))
  }

  /** What the preflight lets through. */
  ghost predicate Admissible(drafts: seq<Draft>, requestId: Option<string>, limits: Timecards.Limits) {
    && |drafts| <= MAX_ENTRIES && (requestId.Some? ==> |drafts| == 1)
    && (forall i | 0 <= i < |drafts| ::
          KeyFor(Supplied(drafts[i], requestId)) != BadKey
          && Timecards.CheckEntry(drafts[i].entry, None, false, limits).Accepted?)
    && DistinctKeys(KeysOf(drafts, requestId))
  }

  /** The check made before anything is sent. */
  method Preflight(drafts: seq<Draft>, requestId: Option<string>, limits: Timecards.Limits)
    returns (keys: Option<seq<Option<string>>>)
    ensures keys.Some? <==> Admissible(drafts, requestId, limits)
    ensures keys.Some? ==> keys.value == KeysOf(drafts, requestId)
  {
    if |drafts| > MAX_ENTRIES || (requestId.Some? && |drafts| != 1) {
      return None;
    }
    var found: seq<Option<string>> := [];
    for n := 0 to |drafts|
      invariant found == KeysOf(drafts, requestId)[..n]
      invariant forall i | 0 <= i < n ::
                  KeyFor(Supplied(drafts[i], requestId)) != BadKey
                  && Timecards.CheckEntry(drafts[i].entry, None, false, limits).Accepted?
    {
      var k := KeyForEntry(Supplied(drafts[n], requestId));
      if k.BadKey? || !Timecards.CheckEntry(drafts[n].entry, None, false, limits).Accepted? {
        return None;
      }
      found := found + [if k.Key? then Some(k.key) else None];
    }
    var distinct := AllDistinct(found);
    keys := if distinct then Some(found) else None;
  }

  /** The row of an entry: keyed by its employee's hash and its request id, and told apart
      by the hash of its payload. */
  function RowOf(d: Draft, requestId: Option<string>, hashes: Hashes): Row {
    var employee := EmployeeOf(d.entry);
    Row(KeyOfDraft(d, requestId), employee, hashes.employee(Trim(employee)), hashes.payload(d.payload),
        d.correlation, d.outcome, d.claimUp, d.waitUp, d.completeUp)
  }

  function RowsOf(drafts: seq<Draft>, requestId: Option<string>, hashes: Hashes): seq<Row> {
    seq(|drafts|, i requires 0 <= i < |drafts| => RowOf(drafts[i], requestId, hashes))
  }

  /** The rows of an admissible batch are fit for `ConcurrentLikeSequential`. */
  lemma {:induction false} AdmissibleIsFit(drafts: seq<Draft>, requestId: Option<string>, limits: Timecards.Limits,
                                           hashes: Hashes)
    requires Admissible(drafts, requestId, limits) && forall s :: |hashes.employee(s)| == DIGEST_LENGTH
    ensures DistinctIds(RowsOf(drafts, requestId, hashes)) && Digested(RowsOf(drafts, requestId, hashes))
  {
    var rows, keys := RowsOf(drafts, requestId, hashes), KeysOf(drafts, requestId);
    assert forall i | 0 <= i < |rows| :: rows[i].requestId == keys[i];
  }

  /** What a submission lets through, the preflight of its rows lets through: it never
      refuses a batch that came past the first checks. */
  lemma {:induction false} SubmittedIsAdmissible(es: seq<Timecards.Entry>, body: Option<string>, header: Option<string>,
                                                 rows: seq<Timecards.Entry>, session: Timecards.Session,
                                                 orders: seq<Timecards.Order>, limits: Timecards.Limits,
                                                 drafts: seq<Draft>)
    requires |es| <= MAX_ENTRIES && Timecards.IdsAgree(es, body, header)
    requires Timecards.Prepared(es, rows, session, orders, limits)
    requires |drafts| == |rows| && forall i | 0 <= i < |rows| :: drafts[i].entry == rows[i]
    ensures Admissible(drafts, Timecards.SubmissionId(body, header), limits)
  {
    var shared := Timecards.SubmissionId(body, header);
    forall i | 0 <= i < |drafts|
      ensures !KeyFor(Supplied(drafts[i], shared)).BadKey?
      ensures shared.None? ==> KeysOf(drafts, shared)[i] == Timecards.EntryIds(es)[i]
      ensures Timecards.CheckEntry(drafts[i].entry, None, false, limits).Accepted?
    {
      assert Timecards.Authorised(es[i], rows[i], session, orders);
      assert drafts[i].entry.supplied == es[i].supplied;
      SharedKey(es[i].supplied, shared);
      assert Timecards.IdAgrees(es[i], shared);
      if shared.None? { assert Supplied(drafts[i], shared) == es[i].supplied; }
    }
    if shared.Some? {
      assert |drafts| == 1;
    } else {
      assert KeysOf(drafts, shared) == Timecards.EntryIds(es);
    }
  }

  lemma {:induction false} SharedKey(supplied: seq<Value>, shared: Option<string>)
    requires shared.Some? && ValidKey(Str(shared.value))
             ==> !KeyFor(supplied).BadKey? && (KeyFor(supplied).Key? ==> KeyFor(supplied).key == shared.value)
    ensures shared.Some? && ValidKey(Str(shared.value)) ==> KeyFor(supplied + [Str(shared.value)]) == Key(shared.value)
  {
    if shared.Some? && ValidKey(Str(shared.value)) {
      var all := supplied + [Str(shared.value)];
      if supplied != [] {
        assert all[0] == supplied[0];
      }
      assert all[0] == Str(shared.value);
      forall v | v in all ensures v == Str(shared.value) {
        if v in supplied { assert v == supplied[0]; }
      }
    }
  }

  /** The submitter that handles one row after the other, over the durable store. It
      refuses the whole batch, or finds the store closed, or is the run of the rows in
      order; `open` says whether the store could be opened. */
  method CreateMany(store: SqliteBackend, open: bool, drafts: seq<Draft>, requestId: Option<string>,
                    limits: Timecards.Limits, hashes: Hashes, paces: seq<Pace>, firstToken: nat)
    returns (results: Option<seq<Dict>>)
    requires store.cfg.kind == Sqlite && |paces| == |drafts|
    modifies store
    ensures results.None? <==> !Admissible(drafts, requestId, limits)
    ensures results.None? ==> store.rows == old(store.rows)
    ensures results.Some? ==> DistinctIds(RowsOf(drafts, requestId, hashes))
    ensures results.Some? ==>
              Submitted(store.cfg, open, RowsOf(drafts, requestId, hashes), paces, firstToken,
                        old(store.rows), store.rows, results.value)
  {
    var keys := Preflight(drafts, requestId, limits);
    if keys.None? {
      return None;
    }
    var rows := RowsOf(drafts, requestId, hashes);
    assert DistinctIds(rows) by {
      assert forall i | 0 <= i < |rows| :: rows[i].requestId == keys.value[i];
    }
    var list := SubmitRows(store, open, rows, paces, firstToken);
    results := Some(list);
  }

  /** Whether the rows need a store that could not be opened. */
  predicate Closed(open: bool, rows: seq<Row>) { !open && exists i | 0 <= i < |rows| :: rows[i].requestId.Some? }

  /** What a submission comes to: every row unavailable and nothing done, or the run of the
      rows in order. */
  ghost predicate Submitted(cfg: Config, open: bool, rows: seq<Row>, paces: seq<Pace>, firstToken: nat,
                            before: Table, after: Table, results: seq<Dict>)
    requires |paces| == |rows|
  {
    && |results| == |rows|
    && if Closed(open, rows) then
         after == before && forall i | 0 <= i < |rows| :: results[i] == Unavailable(i, rows[i])
       else
         var f := Fly(cfg, rows, Launch(rows, before, firstToken), InOrder(paces, |paces|));
         f.table == after && forall i | 0 <= i < |rows| :: f.rows[i] == Finished(results[i])
  }

  method SubmitRows(store: SqliteBackend, open: bool, rows: seq<Row>, paces: seq<Pace>, firstToken: nat)
    returns (results: seq<Dict>)
    requires store.cfg.kind == Sqlite && |paces| == |rows|
    modifies store
    ensures Submitted(store.cfg, open, rows, paces, firstToken, old(store.rows), store.rows, results)
  {
    if Closed(open, rows) {
      return seq(|rows|, i requires 0 <= i < |rows| => Unavailable(i, rows[i]));
    }
    results := CreateRows(store, rows, paces, firstToken);
  }
}
