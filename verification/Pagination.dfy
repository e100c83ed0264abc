/** Fetching a list page by page (backend/services/fusion_catalogue_client.py). */
module Pagination {
  import opened Values

  /** The answer to one request: a page with whatever the server says about more, or a
      failure (no connection, an error status, or a body that cannot be read). */
  datatype Response<T> =
    | Failed
    | Page(items: seq<T>, hasMore: Option<bool>, total: Option<int>)

  /** What a fetch returns: the items, and whether they are known to be all. */
  datatype Fetched<T> = Fetched(items: seq<T>, complete: bool)

  /** `_has_more`, given how many items were collected before this page. */
  predicate HasMore<T>(r: Response<T>, collected: nat)
    requires r.Page?
  {
    r.hasMore == Some(true) || (r.total.Some? && r.total.value > collected)
  }

  type Server<T> = nat -> Response<T>

  /** The server's pages are pieces of `list`: at any offset inside it, a non-empty piece
      of at most `limit` items, and nothing past its end. */
  ghost predicate Serves<T>(server: Server<T>, list: seq<T>, limit: nat) {
    forall o: nat | server(o).Page? ::
      if o < |list| then
        1 <= |server(o).items| <= limit && o + |server(o).items| <= |list|
        && server(o).items == list[o..o + |server(o).items|]
      else server(o).items == []
  }

  /** Every page carries a truthful flag or a truthful total. */
  ghost predicate Informs<T>(server: Server<T>, list: seq<T>) {
    forall o: nat | server(o).Page? ::
      && (server(o).hasMore.Some? || server(o).total.Some?)
      && (server(o).hasMore.Some? ==> (server(o).hasMore.value <==> o + |server(o).items| < |list|))
      && (server(o).total.Some? ==> server(o).total.value == |list|)
  }

  /** Pages say nothing about more, but are as full as they can be. */
  ghost predicate FillsPages<T>(server: Server<T>, list: seq<T>, limit: nat) {
    forall o: nat | server(o).Page? ::
      server(o).hasMore.None? && server(o).total.None?
      && (o < |list| ==> |server(o).items| == if |list| - o < limit then |list| - o else limit)
  }

  ghost predicate NeverFails<T>(server: Server<T>) { forall o: nat :: server(o).Page? }

  /** What a fetch owes its caller: a prefix of the list, all of it when it says so, and
      it says so unless some request failed. */
  ghost predicate Honest<T>(f: Fetched<T>, server: Server<T>, list: seq<T>) {
    && f.items <= list
    && (f.complete ==> f.items == list)
    && (!f.complete ==> server(|f.items|).Failed?)
  }

  /** The offsets a fetch asked for: each request starts where the page before it ended. */
  ghost predicate Asked<T>(server: Server<T>, offsets: seq<nat>) {
    && offsets != [] && offsets[0] == 0
    && forall i | 0 <= i < |offsets| - 1 ::
         server(offsets[i]).Page? && offsets[i + 1] == offsets[i] + |server(offsets[i]).items|
  }

  lemma {:induction false} AskedNext<T>(server: Server<T>, offsets: seq<nat>, o: nat)
    requires Asked(server, offsets) && server(offsets[|offsets| - 1]).Page?
    requires o == offsets[|offsets| - 1] + |server(offsets[|offsets| - 1]).items|
    ensures Asked(server, offsets + [o])
  {
  }

  /** Whether every request of the fetch was answered. */
  ghost predicate Answered<T>(server: Server<T>, offsets: seq<nat>) {
    forall i | 0 <= i < |offsets| :: server(offsets[i]).Page?
  }

  /** The loop over projects and over resource assignments. A short page ends it, unless
      the server says that there is more. */
  method FetchAll<T>(server: Server<T>, limit: nat, ghost list: seq<T>) returns (f: Fetched<T>, ghost offsets: seq<nat>)
    requires Serves(server, list, limit)
    ensures f.items <= list && Asked(server, offsets) && (f.complete ==> Answered(server, offsets))
    ensures Informs(server, list) || FillsPages(server, list, limit) ==> (f.complete <==> Answered(server, offsets))
    ensures Informs(server, list) || FillsPages(server, list, limit) ==> Honest(f, server, list)
    ensures (Informs(server, list) || FillsPages(server, list, limit)) && NeverFails(server)
            ==> f == Fetched(list, true)
  {
    var items: seq<T> := [];
    var offset: nat := 0;
    offsets := [0];
    while true
      invariant offset == |items| <= |list| && items == list[..offset]
      invariant Asked(server, offsets) && offsets[|offsets| - 1] == offset
      decreases |list| - offset
    {
      var r := server(offset);
      if r.Failed? {
        return Fetched(items, false), offsets;
      }
      var more := HasMore(r, |items|);
      if r.items == [] {
        return Fetched(items, !more), offsets;
      }
      items := items + r.items;
      if |r.items| < limit && !more {
        return Fetched(items, true), offsets;
      }
      offset := offset + |r.items|;
      AskedNext(server, offsets, offset);
      offsets := offsets + [offset];
    }
  }

  /** The loop over a project's tasks and team members. It ends as soon as the server
      does not say that there is more. */
  method FetchChildren<T>(server: Server<T>, limit: nat, ghost list: seq<T>)
    returns (f: Fetched<T>, ghost offsets: seq<nat>)
    requires Serves(server, list, limit)
    ensures f.items <= list && Asked(server, offsets) && (f.complete ==> Answered(server, offsets))
    ensures Informs(server, list) || FillsPages(server, list, limit) ==> (f.complete <==> Answered(server, offsets))
    ensures Informs(server, list) ==> Honest(f, server, list)
    ensures Informs(server, list) && NeverFails(server) ==> f == Fetched(list, true)
    ensures FillsPages(server, list, limit) && NeverFails(server) ==>
              f == Fetched(server(0).items, true) && (f.items == list <==> |list| <= limit)
  {
    var items: seq<T> := [];
    var offset: nat := 0;
    offsets := [0];
    while true
      invariant offset == |items| <= |list| && items == list[..offset]
      invariant Asked(server, offsets) && offsets[|offsets| - 1] == offset
      invariant FillsPages(server, list, limit) ==> offset == 0
      decreases |list| - offset
    {
      var r := server(offset);
      if r.Failed? {
        return Fetched(items, false), offsets;
      }
      var more := HasMore(r, |items|);
      if r.items == [] {
        return Fetched(items, !more), offsets;
      }
      items := items + r.items;
      if !more {
        return Fetched(items, true), offsets;
      }
      offset := offset + |r.items|;
      AskedNext(server, offsets, offset);
      offsets := offsets + [offset];
    }
  }
}
