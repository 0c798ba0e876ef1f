/**
 Paging through an account's history: a page counts transactions, not postings,
 and the service's cursor closes on a short page.
 */
module Pages {
  import opened LedgerTypes
  import opened PostingIndexes
  import opened Books
  import opened Histories
  import opened AccountHistories

  /** The entries past a cursor. */
  function After(es: seq<Entry>, after: int): seq<Entry> {
    if es == [] then [] else (if es[0].seqno > after then [es[0]] else []) + After(es[1..], after)
  }

  function Seqs(es: seq<Entry>): set<nat> {
    set e | e in es :: e.seqno
  }

  /** Walks on while the transaction is the last one seen or there is room for
      another. */
  function Walk(rest: seq<Entry>, limit: nat, distinct: nat, last: int): seq<Entry> {
    if rest == [] then []
    else if rest[0].seqno == last then [rest[0]] + Walk(rest[1..], limit, distinct, last)
    else if distinct >= limit then []
    else [rest[0]] + Walk(rest[1..], limit, distinct + 1, rest[0].seqno)
  }

  function PageOf(es: seq<Entry>, after: int, limit: nat): seq<Entry> {
    Walk(After(es, after), limit, 0, 0)
  }

  /** Sequence numbers from `low` on that never decrease. */
  ghost predicate Rising(es: seq<Entry>, low: int) {
    && (forall i :: 0 <= i < |es| ==> es[i].seqno >= low)
    && (forall i, j :: 0 <= i < j < |es| ==> es[i].seqno <= es[j].seqno)
  }

  ghost predicate History(es: seq<Entry>) {
    Rising(es, 1)
  }

  lemma HistorySorts(es: seq<Entry>)
    requires History(es)
    ensures SortedBy(es, BySeq)
  {
  }

  lemma RisingTail(es: seq<Entry>, low: int)
    requires Rising(es, low) && es != []
    ensures Rising(es[1..], es[0].seqno) && Rising(es[1..], low)
  {
    assert forall i :: 0 <= i < |es| - 1 ==> es[1..][i] == es[i + 1];
  }

  /** What lies past a cursor is a suffix. */
  lemma {:induction false} AfterIsSuffix(es: seq<Entry>, after: int)
    requires History(es)
    ensures var n := FirstPast(es, BySeq, after);
      After(es, after) == es[n..] && Rising(es[n..], 1) && Rising(es[n..], after + 1)
  {
    if es != [] {
      RisingTail(es, 1);
      hide Rising;
      AfterIsSuffix(es[1..], after);
      if es[0].seqno > after {
        RisingLow(es, after);
        RisingLow(es[1..], after);
        AfterAbove(es[1..], after);
      }
    }
  }

  lemma RisingLow(es: seq<Entry>, after: int)
    requires es == [] || (Rising(es, 1) && es[0].seqno > after)
    ensures Rising(es, after + 1) && forall i :: 0 <= i < |es| ==> es[i].seqno > after
  {
    if es != [] {
      assert forall i :: 0 < i < |es| ==> es[0].seqno <= es[i].seqno;
    }
  }

  /** Counts transactions, stopping before one too many. */
  method CountPage(entries: seq<Entry>, limit: nat) returns (records: seq<Entry>)
    ensures records == Walk(entries, limit, 0, 0)
  {
    records := [];
    var distinct, last, i := 0, 0, 0;
    assert entries[0..] == entries;
    while i < |entries|
      invariant 0 <= i <= |entries|
      invariant Walk(entries, limit, 0, 0) == records + Walk(entries[i..], limit, distinct, last)
    {
      assert entries[i..][1..] == entries[i + 1..];
      if entries[i].seqno != last {
        if distinct >= limit {
          break;
        }
        distinct := distinct + 1;
        last := entries[i].seqno;
      }
      records := records + [entries[i]];
      i := i + 1;
    }
  }

  /** `account_history`: binary search to the cursor, then count. */
  method AccountHistory(p: PostingIndex, after: int, limit: nat) returns (records: seq<Entry>)
    requires PostingIndexes.Valid(p) && History(Flat(p))
    ensures records == PageOf(Flat(p), after, limit)
  {
    hide PostingIndexes.Valid, Flat, PartitionPoint, IterFrom, Walk, SortedBy;
    AfterIsSuffix(Flat(p), after);
    HistorySorts(Flat(p));
    if limit == 0 {
      EmptyPage(After(Flat(p), after));
      return [];
    }
    PartitionPointIsFlat(p, BySeq, after);
    IterIsFlat(p, PartitionPoint(p, BySeq, after));
    records := CountPage(IterFrom(p, PartitionPoint(p, BySeq, after)), limit);
  }

  lemma EmptyPage(rest: seq<Entry>)
    requires Rising(rest, 1)
    ensures Walk(rest, 0, 0, 0) == []
  {
  }

  // ------------------------------------------------------------------
  // What a page is
  // ------------------------------------------------------------------

  /** A prefix of what is left that ends between transactions, and is everything
      or holds exactly `room` further transactions. */
  ghost predicate EndsCleanly(rest: seq<Entry>, page: seq<Entry>) {
    page <= rest && forall i, j :: 0 <= i < |page| <= j < |rest| ==> page[i].seqno < rest[j].seqno
  }

  lemma SeqsCons(e: Entry, es: seq<Entry>)
    ensures Seqs([e] + es) == {e.seqno} + Seqs(es)
  {
    assert forall x :: x in [e] + es <==> x == e || x in es;
  }

  lemma {:induction false} WalkEnds(rest: seq<Entry>, limit: nat, distinct: nat, last: int)
    requires Rising(rest, last) && distinct <= limit
    ensures var page := Walk(rest, limit, distinct, last);
      && EndsCleanly(rest, page)
      && (page == [] ==> rest == [] || rest[0].seqno > last)
      && |Seqs(page) - {last}| <= limit - distinct
      && (|page| < |rest| ==> |Seqs(page) - {last}| == limit - distinct)
    decreases |rest|, 1
  {
    assert Seqs([]) - {last} == {} && EndsCleanly([], []);
    if rest != [] {
      var e := rest[0];
      RisingTail(rest, last);
      RisingFrom(rest, last);
      if e.seqno == last {
        WalkEnds(rest[1..], limit, distinct, last);
        WalkCons(rest, Walk(rest[1..], limit, distinct, last));
      } else if distinct < limit {
        WalkNew(rest, limit, distinct, last);
      }
    }
  }

  lemma RisingFrom(es: seq<Entry>, low: int)
    requires Rising(es, low) && es != []
    ensures Rising(es, es[0].seqno) && es[0].seqno >= low
  {
  }

  lemma WalkNew(rest: seq<Entry>, limit: nat, distinct: nat, last: int)
    requires rest != [] && Rising(rest, last) && rest[0].seqno > last && distinct < limit
    ensures var page := [rest[0]] + Walk(rest[1..], limit, distinct + 1, rest[0].seqno);
      && EndsCleanly(rest, page)
      && |Seqs(page) - {last}| <= limit - distinct
      && (|page| < |rest| ==> |Seqs(page) - {last}| == limit - distinct)
    decreases |rest|, 0
  {
    var e := rest[0];
    RisingTail(rest, last);
    RisingFrom(rest, last);
    var page := Walk(rest[1..], limit, distinct + 1, e.seqno);
    WalkEnds(rest[1..], limit, distinct + 1, e.seqno);
    assert page == [] ==> rest[1..] == [] || rest[1..][0].seqno > e.seqno;
    hide Walk, Seqs, Rising, EndsCleanly;
    WalkCons(rest, page);
    CleanPrefix(rest[1..], page);
    PrefixRises(rest[1..], page, e.seqno);
    NewSeq(e, page, last);
  }

  lemma PrefixRises(rest: seq<Entry>, page: seq<Entry>, low: int)
    requires Rising(rest, low) && page <= rest
    ensures forall i :: 0 <= i < |page| ==> page[i].seqno >= low
  {
    assert forall i :: 0 <= i < |page| ==> page[i] == rest[i];
  }

  lemma WalkCons(rest: seq<Entry>, page: seq<Entry>)
    requires rest != [] && EndsCleanly(rest[1..], page) && Rising(rest, rest[0].seqno)
    requires page == [] ==> rest[1..] == [] || rest[1].seqno > rest[0].seqno
    ensures EndsCleanly(rest, [rest[0]] + page)
    ensures Seqs([rest[0]] + page) - {rest[0].seqno} == Seqs(page) - {rest[0].seqno}
  {
    hide Seqs;
    SeqsCons(rest[0], page);
    var all := [rest[0]] + page;
    assert rest == [rest[0]] + rest[1..];
    forall i, j | 0 <= i < |all| <= j < |rest|
      ensures all[i].seqno < rest[j].seqno
    {
      if i > 0 {
        assert page[i - 1].seqno < rest[1..][j - 1].seqno;
      } else if page != [] {
        assert rest[0].seqno <= rest[1].seqno && page[0] == rest[1..][0];
        assert page[0].seqno < rest[1..][j - 1].seqno;
      } else {
        assert rest[1].seqno <= rest[j].seqno;
      }
    }
  }

  lemma NewSeq(e: Entry, page: seq<Entry>, last: int)
    requires e.seqno > last && forall i :: 0 <= i < |page| ==> page[i].seqno > last
    ensures |Seqs([e] + page) - {last}| == |Seqs(page) - {e.seqno}| + 1
  {
    SeqsCons(e, page);
    assert last !in Seqs(page);
    hide Seqs;
    assert Seqs([e] + page) - {last} == {e.seqno} + (Seqs(page) - {e.seqno});
  }

  /** A page starts where the cursor stands, never splits a transaction, holds at
      most `limit` of them, and fewer only when it reaches the end. */
  lemma PageIsWhole(es: seq<Entry>, after: int, limit: nat)
    requires History(es)
    ensures var rest, page := After(es, after), PageOf(es, after, limit);
      && EndsCleanly(rest, page)
      && |Seqs(page)| <= limit && (|page| < |rest| ==> |Seqs(page)| == limit)
  {
    AfterIsSuffix(es, after);
    var rest, page := After(es, after), PageOf(es, after, limit);
    assert Rising(rest, 0);
    WalkEnds(rest, limit, 0, 0);
    hide Walk;
    forall e | e in page
      ensures e.seqno != 0
    {
      assert e in rest;
    }
    assert Seqs(page) - {0} == Seqs(page);
  }

  // ------------------------------------------------------------------
  // The cursor
  // ------------------------------------------------------------------

  /** The service's clamp of a requested page size. */
  function Clamped(requested: nat): (limit: nat)
    ensures 1 <= limit <= 1000 && (1 <= requested <= 1000 ==> limit == requested)
    ensures (requested < 1 ==> limit == 1) && (requested > 1000 ==> limit == 1000)
  {
    if requested < 1 then 1 else if requested > 1000 then 1000 else requested
  }

  datatype Paged = Paged(items: seq<Entry>, next: Option<nat>)

  /** One request: the page and the cursor to go on from. */
  function Request(es: seq<Entry>, after: int, requested: nat): Paged {
    var records := PageOf(es, after, Clamped(requested));
    Paged(records, if |records| < Clamped(requested) then None else Some(records[|records| - 1].seqno))
  }

  method Serve(p: PostingIndex, after: Option<int>, requested: nat) returns (r: Paged)
    requires PostingIndexes.Valid(p) && History(Flat(p))
    ensures r == Request(Flat(p), if after.Some? then after.value else 0, requested)
  {
    hide PostingIndexes.Valid, Flat, PageOf, History;
    var limit := Clamped(requested);
    var records := AccountHistory(p, if after.Some? then after.value else 0, limit);
    var next: Option<nat> := None;
    if |records| >= limit {
      next := Some(records[|records| - 1].seqno);
    }
    return Paged(records, next);
  }

  lemma {:induction false} SeqsSmall(es: seq<Entry>)
    ensures |Seqs(es)| <= |es|
  {
    if es == [] {
      assert Seqs([]) == {};
    } else {
      SeqsSmall(es[1..]);
      SeqsCons(es[0], es[1..]);
      assert es == [es[0]] + es[1..];
    }
  }

  lemma {:induction false} AfterConcat(a: seq<Entry>, b: seq<Entry>, after: int)
    ensures After(a + b, after) == After(a, after) + After(b, after)
  {
    if a == [] {
      assert a + b == b;
    } else {
      assert (a + b)[1..] == a[1..] + b;
      AfterConcat(a[1..], b, after);
    }
  }

  lemma {:induction false} AfterNone(es: seq<Entry>, after: int)
    requires forall i :: 0 <= i < |es| ==> es[i].seqno <= after
    ensures After(es, after) == []
  {
    if es != [] {
      AfterNone(es[1..], after);
    }
  }

  lemma {:induction false} AfterAfter(es: seq<Entry>, a: int, b: int)
    requires a <= b
    ensures After(After(es, a), b) == After(es, b)
  {
    if es != [] {
      AfterAfter(es[1..], a, b);
      AfterConcat(if es[0].seqno > a then [es[0]] else [], After(es[1..], a), b);
      assert [es[0]][1..] == [];
    }
  }

  /** Following the cursor picks up exactly where the page stopped; without one
      there is nothing left. */
  lemma CursorResumes(es: seq<Entry>, after: int, requested: nat)
    requires History(es)
    ensures var r := Request(es, after, requested);
      && (r.next.None? ==> r.items == After(es, after))
      && (r.next.Some? ==> r.next.value > after && r.items + After(es, r.next.value) == After(es, after)
                           && |After(es, r.next.value)| < |After(es, after)|)
  {
    hide After, PageOf, Rising, EndsCleanly, Clamped, History;
    var page := PageOf(es, after, Clamped(requested));
    PageFacts(es, after, Clamped(requested));
    CleanPrefix(After(es, after), page);
    if |page| >= Clamped(requested) {
      PageResumes(es, after, page);
    }
  }

  lemma {:induction false} PageFacts(es: seq<Entry>, after: int, limit: nat)
    requires History(es)
    ensures EndsCleanly(After(es, after), PageOf(es, after, limit))
    ensures |PageOf(es, after, limit)| < limit ==> |PageOf(es, after, limit)| >= |After(es, after)|
    ensures Rising(After(es, after), 1) && Rising(After(es, after), after + 1)
  {
    PageIsWhole(es, after, limit);
    AfterIsSuffix(es, after);
    SeqsSmall(PageOf(es, after, limit));
    hide After, PageOf, Seqs, Rising, EndsCleanly, FirstPast;
  }

  lemma PageResumes(es: seq<Entry>, after: int, page: seq<Entry>)
    requires page != [] && EndsCleanly(After(es, after), page)
    requires Rising(After(es, after), 1) && Rising(After(es, after), after + 1)
    ensures var last := page[|page| - 1].seqno;
      && last > after && page + After(es, last) == After(es, after)
      && |After(es, last)| < |After(es, after)|
  {
    hide After, Rising;
    var rest, n := After(es, after), |page|;
    CleanPrefix(rest, page);
    assert page == rest[..n] && page[n - 1] == rest[n - 1];
    LaterThan(rest, n - 1, after);
    CutAfter(rest, n);
    AfterAfter(es, after, rest[n - 1].seqno);
    assert rest == rest[..n] + rest[n..];
  }

  lemma CleanPrefix(rest: seq<Entry>, page: seq<Entry>)
    requires EndsCleanly(rest, page)
    ensures page <= rest && (|page| >= |rest| ==> page == rest)
  {
  }

  lemma LaterThan(rest: seq<Entry>, i: nat, after: int)
    requires Rising(rest, after + 1) && i < |rest|
    ensures rest[i].seqno > after
  {
  }

  /** Cutting between transactions, the cursor finds exactly the rest. */
  lemma CutAfter(rest: seq<Entry>, n: nat)
    requires Rising(rest, 1) && 0 < n <= |rest| && EndsCleanly(rest, rest[..n])
    ensures After(rest, rest[n - 1].seqno) == rest[n..]
  {
    hide After;
    var last := rest[n - 1].seqno;
    PrefixBelow(rest, n, last);
    assert rest == rest[..n] + rest[n..];
    AfterConcat(rest[..n], rest[n..], last);
    AfterNone(rest[..n], last);
    forall i | 0 <= i < |rest| - n
      ensures rest[n..][i].seqno > last
    {
      assert rest[..n][n - 1].seqno < rest[n + i].seqno;
    }
    AfterAbove(rest[n..], last);
  }

  lemma PrefixBelow(rest: seq<Entry>, n: nat, last: int)
    requires Rising(rest, 1) && 0 < n <= |rest| && last == rest[n - 1].seqno
    ensures forall i :: 0 <= i < n ==> rest[i].seqno <= last
  {
  }

  lemma {:induction false} AfterAbove(es: seq<Entry>, last: int)
    requires forall i :: 0 <= i < |es| ==> es[i].seqno > last
    ensures After(es, last) == es
  {
    if es != [] {
      AfterAbove(es[1..], last);
    }
  }

  /** Every page from a cursor on, following `next` until it closes. Each request
      may ask for its own page size. */
  ghost function AllPages(es: seq<Entry>, after: int, requested: nat -> nat, i: nat): (all: seq<Entry>)
    requires History(es)
    decreases |After(es, after)|
  {
    var r := Request(es, after, requested(i));
    CursorResumes(es, after, requested(i));
    if r.next.None? then r.items else r.items + AllPages(es, r.next.value, requested, i + 1)
  }

  /** Pagination is complete: whatever page sizes are asked for, following the
      cursor from the start ends, and the pages concatenate to the full history,
      in order. */
  lemma {:induction false} PagesAreComplete(es: seq<Entry>, after: int, requested: nat -> nat, i: nat)
    requires History(es)
    ensures AllPages(es, after, requested, i) == After(es, after)
    ensures after <= 0 ==> After(es, after) == es
    decreases |After(es, after)|
  {
    CursorResumes(es, after, requested(i));
    var r := Request(es, after, requested(i));
    hide After;
    if r.next.Some? {
      PagesAreComplete(es, r.next.value, requested, i + 1);
    }
    if after <= 0 {
      assert forall j :: 0 <= j < |es| ==> es[j].seqno > after;
      AfterAbove(es, after);
    }
  }

  /** For a replayed account: the pages are its postings in the log, each once and
      in order. */
  lemma PagesAreMovements(log: seq<Placed>, k: string, requested: nat -> nat)
    requires GoodLog(log) && k in Fold(log).accounts
    ensures var es, ms := Flat(Fold(log).accounts[k].postings), Movements(log, k);
      && History(es) && |AllPages(es, 0, requested, 0)| == |ms|
      && forall i :: 0 <= i < |ms| ==> MovementOf(AllPages(es, 0, requested, 0)[i]) == ms[i]
  {
    assert Replay(EmptyBook, log).Some?;
    hide GoodLog, Movements, Flat, PostingIndexes.Valid, AllPages, Replay, Fold;
    HistorySorted(log, k);
    var es, ms := Flat(Fold(log).accounts[k].postings), Movements(log, k);
    assert forall i, j :: 0 <= i < j < |es| ==> Val(es[i], BySeq) <= Val(es[j], BySeq);
    PagesAreComplete(es, 0, requested, 0);
    assert HistoryOk(Fold(log).accounts[k], ms) by { ReplayedHistory(log, k); }
    forall i | 0 <= i < |ms|
      ensures MovementOf(es[i]) == ms[i]
    {
      assert EntryOk(es, ms, i);
    }
  }

  lemma ReplayedHistory(log: seq<Placed>, k: string)
    requires GoodLog(log) && k in Fold(log).accounts
    ensures HistoryOk(Fold(log).accounts[k], Movements(log, k))
  {
    ReplayHistory(log, k);
  }
}
