/**
 An account's posting history: sealed chunks of CHUNK entries and a shorter
 tail, searched chunk boundaries first. Stored in snapshots as a flat list and
 chunked again on load.
 */
module PostingIndexes {
  import opened LedgerTypes

  const CHUNK: nat := 4096

  /** One posting as applied, with the running raw balance after it. */
  datatype Entry = Entry(seqno: nat, at: int, txid: nat, minor: i64, direction: Direction, rawAfter: i64)

  datatype PostingIndex = PostingIndex(sealed: seq<seq<Entry>>, tail: seq<Entry>)

  const EmptyIndex: PostingIndex := PostingIndex([], [])

  ghost predicate Valid(p: PostingIndex) {
    && (forall i :: 0 <= i < |p.sealed| ==> |p.sealed[i]| == CHUNK)
    && |p.tail| < CHUNK
  }

  function Flatten(chunks: seq<seq<Entry>>): seq<Entry> {
    if chunks == [] then [] else Flatten(chunks[..|chunks| - 1]) + chunks[|chunks| - 1]
  }

  /** The history as one list. */
  function Flat(p: PostingIndex): seq<Entry> {
    Flatten(p.sealed) + p.tail
  }

  function Push(p: PostingIndex, e: Entry): PostingIndex {
    var tail := p.tail + [e];
    if |tail| == CHUNK then PostingIndex(p.sealed + [tail], []) else PostingIndex(p.sealed, tail)
  }

  lemma PushAppends(p: PostingIndex, e: Entry)
    requires Valid(p)
    ensures Valid(Push(p, e)) && Flat(Push(p, e)) == Flat(p) + [e]
  {
    var tail := p.tail + [e];
    if |tail| == CHUNK {
      assert (p.sealed + [tail])[..|p.sealed|] == p.sealed;
    }
  }

  lemma {:induction false} FlattenLength(chunks: seq<seq<Entry>>)
    requires forall i :: 0 <= i < |chunks| ==> |chunks[i]| == CHUNK
    ensures |Flatten(chunks)| == |chunks| * CHUNK
  {
    if chunks != [] {
      FlattenLength(chunks[..|chunks| - 1]);
    }
  }

  lemma {:induction false} FlattenAt(chunks: seq<seq<Entry>>, i: nat, j: nat)
    requires forall i :: 0 <= i < |chunks| ==> |chunks[i]| == CHUNK
    requires i < |chunks| && j < CHUNK
    ensures i * CHUNK + j < |Flatten(chunks)| && Flatten(chunks)[i * CHUNK + j] == chunks[i][j]
  {
    var n := |chunks| - 1;
    FlattenLength(chunks[..n]);
    if i < n {
      FlattenAt(chunks[..n], i, j);
    }
  }

  /** `len` is computed from the chunk count. */
  lemma FlatLength(p: PostingIndex)
    requires Valid(p)
    ensures |Flat(p)| == |p.sealed| * CHUNK + |p.tail|
  {
    FlattenLength(p.sealed);
  }

  // ------------------------------------------------------------------
  // Chunking again on load
  // ------------------------------------------------------------------

  function Rechunk(es: seq<Entry>): PostingIndex {
    if es == [] then EmptyIndex else Push(Rechunk(es[..|es| - 1]), es[|es| - 1])
  }

  lemma {:induction false} RechunkFlat(es: seq<Entry>)
    ensures Valid(Rechunk(es)) && Flat(Rechunk(es)) == es
  {
    if es != [] {
      RechunkFlat(es[..|es| - 1]);
      PushAppends(Rechunk(es[..|es| - 1]), es[|es| - 1]);
    }
  }

  /** The flat list determines the chunks. */
  lemma FlatInjective(p: PostingIndex, q: PostingIndex)
    requires Valid(p) && Valid(q) && Flat(p) == Flat(q)
    ensures p == q
  {
    FlatLength(p);
    FlatLength(q);
    FlattenLength(p.sealed);
    FlattenLength(q.sealed);
    assert |p.sealed| == |q.sealed|;
    forall i | 0 <= i < |p.sealed|
      ensures p.sealed[i] == q.sealed[i]
    {
      forall j | 0 <= j < CHUNK
        ensures p.sealed[i][j] == q.sealed[i][j]
      {
        FlattenAt(p.sealed, i, j);
        FlattenAt(q.sealed, i, j);
        assert Flat(p)[i * CHUNK + j] == Flat(q)[i * CHUNK + j];
      }
    }
    assert p.tail == Flat(p)[|p.sealed| * CHUNK..];
    assert q.tail == Flat(q)[|q.sealed| * CHUNK..];
  }

  /** Saving flat and chunking again on load changes nothing. */
  lemma RechunkRoundTrip(p: PostingIndex)
    requires Valid(p)
    ensures Rechunk(Flat(p)) == p
  {
    RechunkFlat(Flat(p));
    FlatInjective(Rechunk(Flat(p)), p);
  }

  // ------------------------------------------------------------------
  // Lookups
  // ------------------------------------------------------------------

  function Get(p: PostingIndex, idx: nat): Option<Entry> {
    var n := |p.sealed|;
    if idx < n * CHUNK then
      if idx % CHUNK < |p.sealed[idx / CHUNK]| then Some(p.sealed[idx / CHUNK][idx % CHUNK]) else None
    else if idx - n * CHUNK < |p.tail| then Some(p.tail[idx - n * CHUNK])
    else None
  }

  lemma GetIsFlat(p: PostingIndex, idx: nat)
    requires Valid(p)
    ensures Get(p, idx) == if idx < |Flat(p)| then Some(Flat(p)[idx]) else None
  {
    FlatLength(p);
    FlattenLength(p.sealed);
    if idx < |p.sealed| * CHUNK {
      assert idx == idx / CHUNK * CHUNK + idx % CHUNK;
      FlattenAt(p.sealed, idx / CHUNK, idx % CHUNK);
    }
  }

  function IterFrom(p: PostingIndex, idx: nat): seq<Entry> {
    var total := |p.sealed| * CHUNK;
    var sealedPart :=
      if idx < total then
        var first := p.sealed[idx / CHUNK];
        (if idx % CHUNK <= |first| then first[idx % CHUNK..] else []) + Flatten(p.sealed[idx / CHUNK + 1..])
      else [];
    var tailStart := if idx < total then 0 else idx - total;
    sealedPart + p.tail[Min(tailStart, |p.tail|)..]
  }

  lemma {:induction false} FlattenFrom(chunks: seq<seq<Entry>>, i: nat, j: nat)
    requires forall i :: 0 <= i < |chunks| ==> |chunks[i]| == CHUNK
    requires i < |chunks| && j < CHUNK
    ensures i * CHUNK + j <= |Flatten(chunks)|
    ensures Flatten(chunks)[i * CHUNK + j..] == chunks[i][j..] + Flatten(chunks[i + 1..])
  {
    var n := |chunks| - 1;
    FlattenLength(chunks[..n]);
    if i < n {
      FlattenFrom(chunks[..n], i, j);
      assert chunks[i + 1..][..n - i - 1] == chunks[..n][i + 1..];
    }
  }

  /** Iteration crosses chunk boundaries without a seam. */
  lemma IterIsFlat(p: PostingIndex, idx: nat)
    requires Valid(p)
    ensures IterFrom(p, idx) == Flat(p)[Min(idx, |Flat(p)|)..]
  {
    FlatLength(p);
    FlattenLength(p.sealed);
    if idx < |p.sealed| * CHUNK {
      assert idx == idx / CHUNK * CHUNK + idx % CHUNK;
      FlattenFrom(p.sealed, idx / CHUNK, idx % CHUNK);
      assert p.tail[0..] == p.tail;
    }
  }

  // ------------------------------------------------------------------
  // Partition points
  // ------------------------------------------------------------------

  /** The two fields a history is searched by. */
  datatype Field = BySeq | ByTime

  function Val(e: Entry, f: Field): int {
    if f == BySeq then e.seqno else e.at
  }

  ghost predicate SortedBy(es: seq<Entry>, f: Field) {
    forall i, j :: 0 <= i < j < |es| ==> Val(es[i], f) <= Val(es[j], f)
  }

  /** The index of the first entry past `bound`. */
  function FirstPast(es: seq<Entry>, f: Field, bound: int): (r: nat)
    ensures r <= |es|
    ensures forall k :: 0 <= k < r ==> Val(es[k], f) <= bound
    ensures r < |es| ==> Val(es[r], f) > bound
  {
    if es == [] || Val(es[0], f) > bound then 0 else 1 + FirstPast(es[1..], f, bound)
  }

  function FirstChunkPast(chunks: seq<seq<Entry>>, f: Field, bound: int): (r: nat)
    ensures r <= |chunks|
    ensures forall k :: 0 <= k < r ==> chunks[k] != [] && Val(chunks[k][|chunks[k]| - 1], f) <= bound
    ensures r < |chunks| ==> chunks[r] == [] || Val(chunks[r][|chunks[r]| - 1], f) > bound
  {
    if chunks == [] then 0
    else
      var c := chunks[0];
      if c == [] || Val(c[|c| - 1], f) > bound then 0 else 1 + FirstChunkPast(chunks[1..], f, bound)
  }

  /** `partition_point_at` and `partition_point_seq`. */
  function PartitionPoint(p: PostingIndex, f: Field, bound: int): nat {
    var i := FirstChunkPast(p.sealed, f, bound);
    if i < |p.sealed| then i * CHUNK + FirstPast(p.sealed[i], f, bound)
    else |p.sealed| * CHUNK + FirstPast(p.tail, f, bound)
  }

  lemma BelowIn(es: seq<Entry>, f: Field, bound: int, n: nat)
    requires SortedBy(es, f) && n <= |es|
    requires n > 0 ==> Val(es[n - 1], f) <= bound
    requires n < |es| ==> Val(es[n], f) > bound
    ensures FirstPast(es, f, bound) == n
  {
    hide FirstPast, Val;
  }

  lemma FlatAt(p: PostingIndex, i: nat, j: nat)
    requires Valid(p) && i < |p.sealed| && j < CHUNK
    ensures i * CHUNK + j < |Flat(p)| && Flat(p)[i * CHUNK + j] == p.sealed[i][j]
  {
    FlattenAt(p.sealed, i, j);
  }

  lemma FlatTailAt(p: PostingIndex, j: nat)
    requires Valid(p) && j < |p.tail|
    ensures |p.sealed| * CHUNK + j < |Flat(p)| && Flat(p)[|p.sealed| * CHUNK + j] == p.tail[j]
  {
    FlattenLength(p.sealed);
  }

  /** Searching chunk boundaries and then one chunk finds the partition point of
      the whole history. */
  lemma PartitionPointIsFlat(p: PostingIndex, f: Field, bound: int)
    requires Valid(p) && SortedBy(Flat(p), f)
    ensures PartitionPoint(p, f, bound) == FirstPast(Flat(p), f, bound)
  {
    hide Flat, FirstPast, FirstChunkPast, Val;
    FlatLength(p);
    var i := FirstChunkPast(p.sealed, f, bound);
    if i > 0 {
      FlatAt(p, i - 1, CHUNK - 1);
    }
    if i < |p.sealed| {
      var local := FirstPast(p.sealed[i], f, bound);
      assert local < CHUNK;
      FlatAt(p, i, local);
      if local > 0 {
        FlatAt(p, i, local - 1);
      }
    } else {
      var local := FirstPast(p.tail, f, bound);
      if local < |p.tail| {
        FlatTailAt(p, local);
      }
      if local > 0 {
        FlatTailAt(p, local - 1);
      }
    }
    BelowIn(Flat(p), f, bound, PartitionPoint(p, f, bound));
  }
}
