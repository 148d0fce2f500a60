/** How `postRecordsBatched` splits an upload into server-sized chunks. */
module Chunking {
  import opened Records

  /** An encrypted object ready to send, with the length of its JSON text. */
  datatype Outgoing = Outgoing(id: Id, payload: Payload, size: nat)

  datatype Limits = Limits(maxRecords: int, maxBytes: int)

  function Bytes(chunk: seq<Outgoing>): nat {
    if chunk == [] then 0 else Bytes(chunk[..|chunk| - 1]) + chunk[|chunk| - 1].size
  }

  /** The current chunk has to be closed before `next`. */
  predicate Full(current: seq<Outgoing>, next: Outgoing, limits: Limits) {
    |current| >= limits.maxRecords || (|current| > 0 && Bytes(current) + next.size > limits.maxBytes)
  }

  function Split(current: seq<Outgoing>, rest: seq<Outgoing>, limits: Limits): seq<seq<Outgoing>>
    decreases |rest|
  {
    if rest == [] then (if current == [] then [] else [current])
    else if Full(current, rest[0], limits) then [current] + Split([rest[0]], rest[1..], limits)
    else Split(current + [rest[0]], rest[1..], limits)
  }

  method Chunks(bsos: seq<Outgoing>, limits: Limits) returns (chunks: seq<seq<Outgoing>>)
    ensures chunks == Split([], bsos, limits)
  {
    chunks := [];
    var current: seq<Outgoing> := [];
    var currentBytes := 0;
    for i := 0 to |bsos|
      invariant currentBytes == Bytes(current)
      invariant chunks + Split(current, bsos[i..], limits) == Split([], bsos, limits)
    {
      var bso := bsos[i];
      assert bsos[i..][1..] == bsos[i + 1..];
      if |current| >= limits.maxRecords || (|current| > 0 && currentBytes + bso.size > limits.maxBytes) {
        assert chunks + ([current] + Split([bso], bsos[i + 1..], limits))
            == (chunks + [current]) + Split([bso], bsos[i + 1..], limits);
        chunks := chunks + [current];
        current := [];
        currentBytes := 0;
      }
      assert (current + [bso])[..|current|] == current;
      current := current + [bso];
      currentBytes := currentBytes + bso.size;
    }
    if |current| > 0 {
      chunks := chunks + [current];
    }
  }

  // --------------------------------------------------------------- correctness

  function Flatten<T>(chunks: seq<seq<T>>): seq<T> {
    if chunks == [] then [] else chunks[0] + Flatten(chunks[1..])
  }

  /** What the server accepts as one request; a single record may exceed the size limit. */
  predicate Fits(chunk: seq<Outgoing>, limits: Limits) {
    chunk != [] && |chunk| <= limits.maxRecords && (Bytes(chunk) <= limits.maxBytes || |chunk| == 1)
  }

  /** An order-preserving split of `bsos` into requests within the limits. */
  predicate LegalSplit(chunks: seq<seq<Outgoing>>, bsos: seq<Outgoing>, limits: Limits) {
    Flatten(chunks) == bsos && forall i :: 0 <= i < |chunks| ==> Fits(chunks[i], limits)
  }

  lemma {:induction false} SplitIsLegal(current: seq<Outgoing>, rest: seq<Outgoing>, limits: Limits)
    requires limits.maxRecords >= 1 && (current == [] || Fits(current, limits))
    ensures LegalSplit(Split(current, rest, limits), current + rest, limits)
    decreases |rest|
  {
    if rest == [] {
      if current != [] { assert [current][1..] == []; }
    } else if Full(current, rest[0], limits) {
      SplitIsLegal([rest[0]], rest[1..], limits);
      var tail := Split([rest[0]], rest[1..], limits);
      assert ([current] + tail)[1..] == tail;
      assert current + ([rest[0]] + rest[1..]) == current + rest;
    } else {
      assert (current + [rest[0]])[..|current|] == current;
      SplitIsLegal(current + [rest[0]], rest[1..], limits);
      assert (current + [rest[0]]) + rest[1..] == current + rest;
    }
  }

  // ---------------------------------------------------------------- optimality

  lemma {:induction false} BytesConcat(a: seq<Outgoing>, b: seq<Outgoing>)
    ensures Bytes(a + b) == Bytes(a) + Bytes(b)
  {
    if b == [] {
      assert a + b == a;
    } else {
      assert (a + b)[..|a + b| - 1] == a + b[..|b| - 1];
      BytesConcat(a, b[..|b| - 1]);
    }
  }

  /** A chunk inside a legal one is not full before its next record. */
  lemma NotFullInside(before: seq<Outgoing>, current: seq<Outgoing>, next: Outgoing, after: seq<Outgoing>,
                      limits: Limits)
    requires Fits(before + current + [next] + after, limits)
    ensures !Full(current, next, limits)
  {
    BytesConcat(before + current + [next], after);
    BytesConcat(before + current, [next]);
    BytesConcat(before, current);
    assert Bytes([next]) == Bytes([]) + next.size by { assert [next][..0] == []; }
  }

  /**
   * The greedy split keeps up: while its current chunk started no earlier than
   * the other split's (`before + current` is what that one has in its current
   * chunk), it needs no more requests for the rest.
   */
  lemma {:induction false} KeepsUp(before: seq<Outgoing>, current: seq<Outgoing>, rest: seq<Outgoing>,
                                   other: seq<seq<Outgoing>>, limits: Limits)
    requires limits.maxRecords >= 1
    requires other != [] && before + current <= other[0] && current != []
    requires LegalSplit(other, before + current + rest, limits)
    ensures |Split(current, rest, limits)| <= |other|
    decreases |rest|
  {
    if rest != [] {
      var next, done := rest[0], before + current;
      assert done + rest == other[0] + Flatten(other[1..]);
      if |done| < |other[0]| {
        assert other[0][|done|] == (other[0] + Flatten(other[1..]))[|done|] == next;
        assert other[0] == before + current + [next] + other[0][|done| + 1..];
        NotFullInside(before, current, next, other[0][|done| + 1..], limits);
        assert before + (current + [next]) == done + [next] && done + [next] <= other[0];
        assert before + (current + [next]) + rest[1..] == done + rest;
        KeepsUp(before, current + [next], rest[1..], other, limits);
      } else {
        assert other[0] == done;
        assert Flatten(other[1..]) == rest by { assert (done + rest)[|done|..] == rest; }
        FirstOfRest(other[1..], rest, limits);
        assert [] + [next] + rest[1..] == rest;
        if Full(current, next, limits) {
          KeepsUp([], [next], rest[1..], other[1..], limits);
        } else {
          assert [next] <= other[1..][0];
          OneAhead([next], current + [next], rest[1..], other[1..], limits);
        }
      }
    }
  }

  /** A split that has closed one request fewer needs at most one more. */
  lemma {:induction false} OneAhead(done: seq<Outgoing>, current: seq<Outgoing>, rest: seq<Outgoing>,
                                    other: seq<seq<Outgoing>>, limits: Limits)
    requires limits.maxRecords >= 1
    requires other != [] && done <= other[0] && done != [] && current != []
    requires LegalSplit(other, done + rest, limits)
    ensures |Split(current, rest, limits)| <= |other| + 1
    decreases |rest|
  {
    if rest != [] {
      var next := rest[0];
      assert done + rest == other[0] + Flatten(other[1..]);
      if |done| < |other[0]| {
        assert other[0][|done|] == (other[0] + Flatten(other[1..]))[|done|] == next;
        assert done + [next] <= other[0];
        assert done + [next] + rest[1..] == done + rest;
        if Full(current, next, limits) {
          KeepsUp(done, [next], rest[1..], other, limits);
        } else {
          OneAhead(done + [next], current + [next], rest[1..], other, limits);
        }
      } else {
        assert other[0] == done;
        assert Flatten(other[1..]) == rest by { assert (done + rest)[|done|..] == rest; }
        FirstOfRest(other[1..], rest, limits);
        assert [] + [next] + rest[1..] == rest;
        assert [next] + rest[1..] == rest;
        if Full(current, next, limits) {
          KeepsUp([], [next], rest[1..], other[1..], limits);
        } else {
          OneAhead([next], current + [next], rest[1..], other[1..], limits);
        }
      }
    }
  }

  lemma FirstOfRest(other: seq<seq<Outgoing>>, rest: seq<Outgoing>, limits: Limits)
    requires rest != [] && LegalSplit(other, rest, limits)
    ensures other != [] && [rest[0]] <= other[0]
  {
  }

  /**
   * The chunks concatenate to the input in order, are non-empty, respect both
   * limits as far as a single record does, and are as few as any
   * order-preserving split within the limits can be.
   */
  lemma ChunksAreLegalAndFewest(bsos: seq<Outgoing>, limits: Limits, other: seq<seq<Outgoing>>)
    requires limits.maxRecords >= 1
    ensures LegalSplit(Split([], bsos, limits), bsos, limits)
    ensures LegalSplit(other, bsos, limits) ==> |Split([], bsos, limits)| <= |other|
  {
    SplitIsLegal([], bsos, limits);
    assert [] + bsos == bsos;
    if bsos != [] && LegalSplit(other, bsos, limits) {
      FirstOfRest(other, bsos, limits);
      assert [] + [bsos[0]] + bsos[1..] == bsos;
      KeepsUp([], [bsos[0]], bsos[1..], other, limits);
      assert [] + [bsos[0]] == [bsos[0]];
    }
  }

  lemma {:induction false} SplitFlattens(current: seq<Outgoing>, rest: seq<Outgoing>, limits: Limits)
    ensures Flatten(Split(current, rest, limits)) == current + rest
    decreases |rest|
  {
    if rest == [] {
      if current != [] { assert [current][1..] == []; }
    } else if Full(current, rest[0], limits) {
      SplitFlattens([rest[0]], rest[1..], limits);
      var tail := Split([rest[0]], rest[1..], limits);
      assert ([current] + tail)[1..] == tail;
    } else {
      SplitFlattens(current + [rest[0]], rest[1..], limits);
      assert (current + [rest[0]]) + rest[1..] == current + rest;
    }
  }

  /** A server that announces a record limit below one makes the client open with an empty request. */
  lemma EmptyChunkExactly(bsos: seq<Outgoing>, limits: Limits)
    requires bsos != []
    ensures [] in Split([], bsos, limits) <==> limits.maxRecords < 1
  {
    if limits.maxRecords >= 1 {
      SplitIsLegal([], bsos, limits);
    } else {
      assert Split([], bsos, limits)[0] == [];
    }
  }
}
