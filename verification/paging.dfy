/** `getAllRecords`: following `X-Weave-Next-Offset` over a stable snapshot. */
module Paging {
  import opened Wrappers

  /** More requests than this mean the server keeps sending offsets. */
  const MAX_PAGES := 500

  datatype PageReply<T> = PageReply(records: seq<T>, lastModified: Option<int>, nextOffset: Option<nat>)

  datatype Listing<T> = Listing(records: seq<T>, lastModified: Option<int>)

  datatype PagingError = RunawayPagination

  /**
   * A snapshot of a collection as the server cuts it up: any number of pages of
   * any sizes, and an opaque token for each page after the first.
   */
  datatype Snapshot<T> = Snapshot(pages: seq<seq<T>>, lastModified: Option<int>, tokens: seq<nat>)

  predicate ValidSnapshot<T>(s: Snapshot<T>) {
    && |s.pages| >= 1
    && |s.tokens| == |s.pages|
    && forall i, j :: 0 <= i < j < |s.pages| ==> s.tokens[i] != s.tokens[j]
  }

  function Concat<T>(pages: seq<seq<T>>): seq<T> {
    if pages == [] then [] else Concat(pages[..|pages| - 1]) + pages[|pages| - 1]
  }

  function PageAt<T>(s: Snapshot<T>, i: nat): PageReply<T>
    requires i < |s.pages| == |s.tokens|
  {
    PageReply(s.pages[i], s.lastModified, if i + 1 < |s.pages| then Some(s.tokens[i + 1]) else None)
  }

  /** The server's answer to an offset; no offset asks for the first page. */
  class SnapshotServer<T> {
    const snapshot: Snapshot<T>
    var requests: nat

    constructor (snapshot: Snapshot<T>)
      ensures this.snapshot == snapshot && requests == 0
    {
      this.snapshot := snapshot;
      requests := 0;
    }

    method GetCollection(offset: Option<nat>, ghost index: nat) returns (page: PageReply<T>)
      requires ValidSnapshot(snapshot) && index < |snapshot.pages|
      requires if index == 0 then offset.None? else offset == Some(snapshot.tokens[index])
      modifies this`requests
      ensures page == PageAt(snapshot, index) && requests == old(requests) + 1
    {
      requests := requests + 1;
      var i := 0;
      if offset.Some? {
        while snapshot.tokens[i] != offset.value
          invariant 0 <= i <= index
          decreases index - i
        {
          i := i + 1;
        }
      }
      assert i == index;
      page := PageReply(snapshot.pages[i], snapshot.lastModified,
                        if i + 1 < |snapshot.pages| then Some(snapshot.tokens[i + 1]) else None);
    }
  }

  /**
   * The whole list with the first page's timestamp, exactly when it comes in at
   * most 500 pages; otherwise an error, never a truncated list; and never more
   * than 501 requests.
   */
  method GetAllRecords<T>(server: SnapshotServer<T>) returns (result: Result<Listing<T>, PagingError>)
    requires ValidSnapshot(server.snapshot)
    modifies server`requests
    ensures result == if |server.snapshot.pages| <= 500
                      then Ok(Listing(Concat(server.snapshot.pages), server.snapshot.lastModified))
                      else Err(RunawayPagination)
    ensures server.requests - old(server.requests)
        == if |server.snapshot.pages| <= 500 then |server.snapshot.pages| else 501
  {
    var s := server.snapshot;
    var all: seq<T> := [];
    var offset: Option<nat> := None;
    var lastModified: Option<int> := None;
    var pages := 0;
    while true
      invariant 0 <= pages < |s.pages| && pages <= MAX_PAGES
      invariant all == Concat(s.pages[..pages])
      invariant if pages == 0 then offset.None? else offset == Some(s.tokens[pages]) && lastModified == s.lastModified
      invariant server.requests == old(server.requests) + pages
      decreases |s.pages| - pages
    {
      var page := server.GetCollection(offset, pages);
      if pages == 0 {
        lastModified := page.lastModified;
      }
      assert s.pages[..pages + 1][..pages] == s.pages[..pages];
      all := all + page.records;
      offset := page.nextOffset;
      pages := pages + 1;
      if pages > MAX_PAGES {
        return Err(RunawayPagination);
      }
      if offset.None? {
        break;
      }
    }
    assert s.pages[..|s.pages|] == s.pages;
    result := Ok(Listing(all, lastModified));
  }

  // ------------------------------------------------- a server with a fixed limit

  /** `limit` records to a page, and one empty page for an empty collection. */
  function Cut<T>(records: seq<T>, limit: nat): (pages: seq<seq<T>>)
    requires limit >= 1
    ensures |pages| >= 1
    decreases |records|
  {
    if |records| <= limit then [records] else [records[..limit]] + Cut(records[limit..], limit)
  }

  lemma {:induction false} ConcatFront<T>(first: seq<T>, rest: seq<seq<T>>)
    ensures Concat([first] + rest) == first + Concat(rest)
  {
    if rest == [] {
      assert [first] + rest == [first];
      assert [first][..0] == [];
    } else {
      assert ([first] + rest)[..|rest|] == [first] + rest[..|rest| - 1];
      ConcatFront(first, rest[..|rest| - 1]);
    }
  }

  lemma {:induction false} CutIsComplete<T>(records: seq<T>, limit: nat)
    requires limit >= 1
    ensures Concat(Cut(records, limit)) == records
    decreases |records|
  {
    if |records| <= limit {
      assert [records][..0] == [];
    } else {
      ConcatFront(records[..limit], Cut(records[limit..], limit));
      CutIsComplete(records[limit..], limit);
    }
  }

  /** Pages of `limit` are few enough exactly up to `pages * limit` records. */
  lemma {:induction false} CutIsShortExactly<T>(records: seq<T>, limit: nat, pages: nat)
    requires limit >= 1 && pages >= 1
    ensures |Cut(records, limit)| <= pages <==> |records| <= pages * limit
    decreases |records|
  {
    if |records| <= limit {
      assert pages * limit >= limit;
    } else if pages > 1 {
      CutIsShortExactly(records[limit..], limit, pages - 1);
      assert pages * limit == (pages - 1) * limit + limit;
    }
  }
}
