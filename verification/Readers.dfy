/**
 Reads of a book, against the log: balances now and as of a time, trial balances,
 event pages and transaction lookups.
 */
module Readers {
  import opened LedgerTypes
  import opened AccountKeys
  import opened Frames
  import opened Segments
  import opened SegmentReads
  import opened SegmentSets
  import opened PostingIndexes
  import opened Books
  import opened Batches
  import opened Histories
  import opened AccountHistories
  import opened BookStates
  import Sys = System
  import Runs = StoreRuns

  // ------------------------------------------------------------------
  // Balances
  // ------------------------------------------------------------------

  datatype BalanceSnapshot = BalanceSnapshot(amount: i64, updatedSeq: nat)

  /** The postings made at or before t. */
  function UpTo(ms: seq<Movement>, t: int): seq<Movement> {
    if ms == [] then []
    else
      var m := ms[|ms| - 1];
      UpTo(ms[..|ms| - 1], t) + (if m.at <= t then [m] else [])
  }

  function MaxSeq(ms: seq<Movement>): nat {
    if ms == [] then 0 else Max(MaxSeq(ms[..|ms| - 1]), ms[|ms| - 1].seqno)
  }

  lemma {:induction false} UpToIsPrefix(ms: seq<Movement>, t: int, n: nat)
    requires n <= |ms|
    requires forall i :: 0 <= i < n ==> ms[i].at <= t
    requires forall i :: n <= i < |ms| ==> ms[i].at > t
    ensures UpTo(ms, t) == ms[..n]
  {
    if ms != [] {
      var front := ms[..|ms| - 1];
      if n == |ms| {
        UpToIsPrefix(front, t, n - 1);
        assert ms[..n] == front + [ms[n - 1]] && front[..n - 1] == front;
      } else {
        UpToIsPrefix(front, t, n);
        assert front[..n] == ms[..n];
      }
    }
  }

  lemma {:induction false} LastIsMax(ms: seq<Movement>)
    requires AccountHistories.InOrder(ms)
    ensures MaxSeq(ms) == if ms == [] then 0 else ms[|ms| - 1].seqno
  {
    if ms != [] {
      LastIsMax(ms[..|ms| - 1]);
    }
  }

  /** What `balance` answers from an account's state. */
  function BalanceIn(a: AccountState, asOf: Option<int>): BalanceSnapshot {
    match asOf
    case None => BalanceSnapshot(Effective(a.raw, a.cfg.normalSide), a.updatedSeq)
    case Some(t) =>
      var n := PartitionPoint(a.postings, ByTime, t);
      match (if n == 0 then None else Get(a.postings, n - 1))
      case None => BalanceSnapshot(0, 0)
      case Some(e) => BalanceSnapshot(Effective(e.rawAfter, a.cfg.normalSide), e.seqno)
  }

  /** Same sequence numbers, same times. */
  ghost predicate SameStamps(es: seq<Entry>, ms: seq<Movement>) {
    |es| == |ms| && forall i :: 0 <= i < |ms| ==> es[i].at == ms[i].at && es[i].seqno == ms[i].seqno
  }

  lemma EntriesMatch(es: seq<Entry>, ms: seq<Movement>)
    requires |es| == |ms| && forall i :: 0 <= i < |ms| ==> EntryOk(es, ms, i)
    ensures SameStamps(es, ms)
  {
    forall i | 0 <= i < |ms|
      ensures es[i].at == ms[i].at && es[i].seqno == ms[i].seqno
    {
      assert EntryOk(es, ms, i);
    }
  }

  lemma StampsUpTo(es: seq<Entry>, ms: seq<Movement>, t: int) returns (n: nat)
    requires SameStamps(es, ms) && AccountHistories.InOrder(ms)
    ensures n == FirstPast(es, ByTime, t) <= |es| && SortedBy(es, ByTime) && UpTo(ms, t) == ms[..n]
  {
    n := FirstPast(es, ByTime, t);
    hide FirstPast, UpTo;
    if n < |es| {
      assert Val(es[n], ByTime) > t;
    }
    forall i | 0 <= i < n
      ensures ms[i].at <= t
    {
      assert Val(es[i], ByTime) <= t;
    }
    UpToIsPrefix(ms, t, n);
  }

  /** The entries before the partition point are the postings up to t. */
  lemma EntriesUpTo(es: seq<Entry>, ms: seq<Movement>, t: int) returns (n: nat)
    requires |es| == |ms| && (forall i :: 0 <= i < |ms| ==> EntryOk(es, ms, i)) && AccountHistories.InOrder(ms)
    ensures n == FirstPast(es, ByTime, t) <= |es| && SortedBy(es, ByTime)
    ensures UpTo(ms, t) == ms[..n] && MaxSeq(UpTo(ms, t)) == if n == 0 then 0 else es[n - 1].seqno
    ensures n > 0 ==> es[n - 1].rawAfter == Sum(UpTo(ms, t))
  {
    hide FirstPast, UpTo, Sum, MaxSeq, SortedBy, MovementOf;
    EntriesMatch(es, ms);
    n := StampsUpTo(es, ms, t);
    LastIsMax(ms[..n]);
    if n > 0 {
      assert EntryOk(es, ms, n - 1);
    }
  }

  /** The binary search lands on the sum of the postings up to t. */
  lemma AsOfFinds(a: AccountState, ms: seq<Movement>, t: int)
    requires HistoryOk(a, ms) && AccountHistories.InOrder(ms)
    ensures InI64(Sum(UpTo(ms, t)))
    ensures BalanceIn(a, Some(t)) == BalanceSnapshot(Effective(Sum(UpTo(ms, t)), a.cfg.normalSide), MaxSeq(UpTo(ms, t)))
  {
    hide PostingIndexes.Valid, Flat, PartitionPoint, Get, FirstPast, EntryOk, UpTo, MaxSeq, AccountHistories.InOrder,
      SortedBy;
    var n := EntriesUpTo(Flat(a.postings), ms, t);
    PartitionPointIsFlat(a.postings, ByTime, t);
    if n > 0 {
      GetIsFlat(a.postings, n - 1);
    }
  }

  /** What an account with these postings is worth, seen from its normal side: credits
      less debits if that is the credit side, debits less credits otherwise. The one
      value that has no negation in 64 bits stays as it is. */
  function Worth(ms: seq<Movement>, normalSide: Option<Direction>): int {
    var debits, credits := Total(ms, Debit), Total(ms, Credit);
    if normalSide == Some(Credit) && debits - credits != I64_MIN then credits - debits else debits - credits
  }

  lemma {:induction false} WorthIs(ms: seq<Movement>, normalSide: Option<Direction>)
    requires InI64(Sum(ms))
    ensures Effective(Sum(ms), normalSide) == Worth(ms, normalSide)
  {
    SumIsTotals(ms);
  }

  /** A balance, now or as of t, is what the account's postings in the log (up to t)
      are worth, seen from the normal side it was opened with, and the latest of their
      sequence numbers. */
  lemma BalanceIsSum(log: seq<Placed>, k: string, asOf: Option<int>)
    requires GoodLog(log) && k in Fold(log).accounts
    ensures OpenedAs(log, k).Some?
    ensures var a, ms := Fold(log).accounts[k], (if asOf.None? then Movements(log, k) else UpTo(Movements(log, k), asOf.value));
      var worth := Worth(ms, OpenedAs(log, k).value.cfg.normalSide);
      InI64(worth) && BalanceIn(a, asOf) == BalanceSnapshot(worth, MaxSeq(ms))
  {
    ReplayHistory(log, k);
    MovementsOrdered(log, k);
    OpenedTerms(log, k);
    hide Movements, Fold, GoodLog, PostingIndexes.Valid, Worth, Effective, OpenedAs;
    var a, ms := Fold(log).accounts[k], Movements(log, k);
    match asOf {
      case None =>
        LastIsMax(ms);
        WorthIs(ms, a.cfg.normalSide);
      case Some(t) =>
        AsOfFinds(a, ms, t);
        WorthIs(UpTo(ms, t), a.cfg.normalSide);
    }
  }

  // ------------------------------------------------------------------
  // Trial balances
  // ------------------------------------------------------------------

  /** Lifetime debits and credits per asset, over the transactions of a log. */
  function SumsOf(log: seq<Placed>): Sums {
    if log == [] then map[]
    else
      var front, e := SumsOf(log[..|log| - 1]), log[|log| - 1].ev.event;
      if e.TransactionPosted? then AddSums(front, e.tx.postings) else front
  }

  /** The sums in memory are those of the log. */
  lemma {:induction false} CurrentSums(log: seq<Placed>)
    requires Replay(EmptyBook, log).Some?
    ensures Replay(EmptyBook, log).value.sums == SumsOf(log)
  {
    if log != [] {
      var n := |log| - 1;
      CurrentSums(log[..n]);
      match log[n].ev.event {
        case TransactionPosted(tx) =>
          PostAllSums(Replay(EmptyBook, log[..n]).value, tx.postings, tx.id, log[n].ev.seqno, log[n].ev.at);
        case _ =>
      }
    }
  }

  /** The events at or before t. */
  function Before(log: seq<Placed>, t: int): seq<Placed> {
    if log == [] then []
    else
      var p := log[|log| - 1];
      Before(log[..|log| - 1], t) + (if p.ev.at <= t then [p] else [])
  }

  lemma {:induction false} BeforeIsPrefix(log: seq<Placed>, t: int, n: nat)
    requires n <= |log|
    requires forall i :: 0 <= i < n ==> log[i].ev.at <= t
    requires forall i :: n <= i < |log| ==> log[i].ev.at > t
    ensures Before(log, t) == log[..n]
  {
    if log != [] {
      var front := log[..|log| - 1];
      if n == |log| {
        BeforeIsPrefix(front, t, n - 1);
        assert log[..n] == front + [log[n - 1]] && front[..n - 1] == front;
      } else {
        BeforeIsPrefix(front, t, n);
        assert front[..n] == log[..n];
      }
    }
  }

  method AddPostings(sums: Sums, ps: seq<Posting>) returns (r: Sums)
    ensures r == AddSums(sums, ps)
  {
    r := sums;
    for i := 0 to |ps|
      invariant r == AddSums(sums, ps[..i])
    {
      assert ps[..i + 1][..i] == ps[..i];
      r := AddSum(r, ps[i]);
    }
    assert ps[..|ps|] == ps;
  }

  /** The whole log as a reader of the files finds it. */
  lemma WholeScan(c: Codec, d: Disk, log: seq<Placed>, dur: nat, from: int, limit: nat)
    requires Sound(c) && Sys.DiskInv(c, d, log, dur) && Ordered(log)
    ensures d != [] && ScanFiles(c, d[StartIndex(d, from)..], true, from, limit) == Some(Take(limit, From(log, from)))
  {
    hide PlacedLog, Holds, Durable, Stream, ScanFiles, From;
    HoldsShows(c, d, Events(log));
    Runs.HoldsSomething(c, d, Events(log));
    ScanRefinesLog(c, d, Events(log), from, limit);
  }

  /** Sums transactions until the first event later than t or not yet applied. */
  method SumUntil(events: seq<Placed>, applied: nat, t: int) returns (sums: Sums)
    requires Ordered(events) && applied <= |events|
    ensures sums == SumsOf(Before(events[..applied], t))
  {
    hide SumsOf, AddSums;
    sums := map[];
    assert SumsOf([]) == map[] && events[..0] == [] by { NoSums(); }
    var i := 0;
    while i < |events| && events[i].ev.seqno <= applied && events[i].ev.at <= t
      invariant 0 <= i <= applied
      invariant forall j :: 0 <= j < i ==> events[j].ev.at <= t
      invariant sums == SumsOf(events[..i])
    {
      SumsNext(events, i);
      if events[i].ev.event.TransactionPosted? {
        sums := AddPostings(sums, events[i].ev.event.tx.postings);
      }
      i := i + 1;
    }
    BeforeIsPrefix(events[..applied], t, i);
    assert events[..applied][..i] == events[..i];
  }

  lemma NoSums()
    ensures SumsOf([]) == map[]
  {
  }

  /** As of t, with its early stop: exactly the sums of the applied transactions
      at or before t. */
  method TrialBalanceAsOf(c: Codec, d: Disk, applied: nat, t: int, ghost log: seq<Placed>, ghost dur: nat)
    returns (r: Option<Sums>)
    requires Sound(c) && Sys.DiskInv(c, d, log, dur) && Ordered(log) && applied <= |log|
    ensures r == Some(SumsOf(Before(log[..applied], t)))
  {
    hide Sys.DiskInv, SumsOf, Before, Ordered, Take, From;
    WholeScan(c, d, log, dur, 1, Sys.USIZE_MAX);
    WholeIsAll(c, d, log, dur);
    var found := ScanWithPos(c, d, 1, Sys.USIZE_MAX);
    if found.None? {
      return None;
    }
    var sums := SumUntil(found.value, applied, t);
    return Some(sums);
  }

  lemma WholeIsAll(c: Codec, d: Disk, log: seq<Placed>, dur: nat)
    requires Sys.DiskInv(c, d, log, dur) && Ordered(log)
    ensures Take(Sys.USIZE_MAX, From(log, 1)) == log
  {
    hide Sys.DiskInv;
    FromDense(log, 1);
    LogFits(c, d, log, dur);
  }

  lemma LogFits(c: Codec, d: Disk, log: seq<Placed>, dur: nat)
    requires Sys.DiskInv(c, d, log, dur)
    ensures |log| <= Sys.USIZE_MAX && Take(Sys.USIZE_MAX, log) == log
  {
    hide Holds, Durable;
  }

  lemma SumsNext(log: seq<Placed>, i: nat)
    requires i < |log|
    ensures SumsOf(log[..i + 1]) ==
      if log[i].ev.event.TransactionPosted? then AddSums(SumsOf(log[..i]), log[i].ev.event.tx.postings) else SumsOf(log[..i])
  {
    assert log[..i + 1][..i] == log[..i];
  }

  // ------------------------------------------------------------------
  // Event pages
  // ------------------------------------------------------------------

  /** The events not past the applied watermark. */
  method TakeApplied(events: seq<Placed>, applied: nat, ghost log: seq<Placed>, ghost lo: nat, ghost limit: nat)
    returns (r: seq<Placed>)
    requires Ordered(log) && applied <= |log| && lo <= |log| && events == Take(limit, log[lo..])
    ensures r == Take(limit, if lo <= applied then log[..applied][lo..] else [])
  {
    var n := 0;
    while n < |events| && events[n].ev.seqno <= applied
      invariant 0 <= n <= |events| && (n > 0 ==> lo + n <= applied)
    {
      n := n + 1;
    }
    PageCut(log, applied, lo, limit, n);
    return events[..n];
  }

  lemma FromTwice(log: seq<Placed>, applied: nat, from: int) returns (lo: nat)
    requires Ordered(log) && applied <= |log|
    ensures lo <= |log| && From(log, from) == log[lo..]
    ensures From(log[..applied], from) == if lo <= applied then log[..applied][lo..] else []
  {
    FromDense(log, from);
    FromDense(log[..applied], from);
    lo := if from <= 1 then 0 else if from > |log| then |log| else from - 1;
    hide From;
  }

  /** A page of events never shows a frame that is not applied yet. */
  method ReadEvents(c: Codec, d: Disk, applied: nat, from: int, limit: nat, ghost log: seq<Placed>, ghost dur: nat)
    returns (r: Option<seq<Placed>>)
    requires Sound(c) && Sys.DiskInv(c, d, log, dur) && Ordered(log) && applied <= |log|
    ensures r == Some(Take(limit, From(log[..applied], from)))
  {
    hide Sys.DiskInv, Ordered, Take, From;
    WholeScan(c, d, log, dur, from, limit);
    var found := ScanWithPos(c, d, from, limit);
    if found.None? {
      return None;
    }
    ghost var lo := FromTwice(log, applied, from);
    var page := TakeApplied(found.value, applied, log, lo, limit);
    return Some(page);
  }

  lemma PageCut(log: seq<Placed>, applied: nat, lo: nat, limit: nat, n: nat)
    requires applied <= |log| && lo <= |log| && n <= |Take(limit, log[lo..])| && (n > 0 ==> lo + n <= applied)
    requires n < |Take(limit, log[lo..])| ==> lo + n >= applied
    ensures Take(limit, log[lo..])[..n] == Take(limit, if lo <= applied then log[..applied][lo..] else [])
  {
  }

  // ------------------------------------------------------------------
  // Reads through the book's state
  // ------------------------------------------------------------------

  /** None for an account the log never opened. */
  method Balance(st: BookState, id: AccountId, asOf: Option<int>, ghost log: seq<Placed>)
    returns (r: Option<BalanceSnapshot>)
    requires GoodLog(log) && st.Model() == Fold(log)
    ensures r.None? <==> !Opened(log, Key(id))
    ensures r.Some? ==>
      var k := Key(id);
      var ms := if asOf.None? then Movements(log, k) else UpTo(Movements(log, k), asOf.value);
      && OpenedAs(log, k).Some?
      && r.value.amount == Worth(ms, OpenedAs(log, k).value.cfg.normalSide) && r.value.updatedSeq == MaxSeq(ms)
  {
    hide Opened, OpenedAs, Worth, Movements, UpTo, Sum, MaxSeq, PartitionPoint, Get, GoodLog, HistoryOk, Key, Replay;
    var k := ToKey(id);
    FoldHistory(log, k);
    if k !in st.accounts {
      return None;
    }
    BalanceIsSum(log, k, asOf);
    var a := st.accounts[k];
    if asOf.None? {
      return Some(BalanceSnapshot(Effective(a.raw, a.cfg.normalSide), a.updatedSeq));
    }
    var n := PartitionPoint(a.postings, ByTime, asOf.value);
    if n == 0 {
      return Some(BalanceSnapshot(0, 0));
    }
    match Get(a.postings, n - 1) {
      case None => return Some(BalanceSnapshot(0, 0));
      case Some(e) => return Some(BalanceSnapshot(Effective(e.rawAfter, a.cfg.normalSide), e.seqno));
    }
  }

  lemma FoldHistory(log: seq<Placed>, k: string)
    requires GoodLog(log)
    ensures k in Fold(log).accounts <==> Opened(log, k)
  {
    ReplayHistory(log, k);
  }

  predicate PostsId(log: seq<Placed>, i: nat, id: nat) {
    i < |log| && log[i].ev.event.TransactionPosted? && log[i].ev.event.tx.id == id
  }

  lemma {:induction false} PostAllTxids(b: Book, ps: seq<Posting>, txid: nat, seqno: nat, at: int)
    requires PostAll(b, ps, txid, seqno, at).Some?
    ensures PostAll(b, ps, txid, seqno, at).value.txids == b.txids
  {
    if ps != [] {
      PostAllTxids(b, ps[..|ps| - 1], txid, seqno, at);
    }
  }

  lemma ApplyTxids(b: Book, p: Placed)
    requires Apply(b, p).Some?
    ensures Apply(b, p).value.txids ==
      if p.ev.event.TransactionPosted? then b.txids[p.ev.event.tx.id := (p.ev.seqno, p.pos)] else b.txids
  {
    match p.ev.event {
      case TransactionPosted(tx) => PostAllTxids(b, tx.postings, tx.id, p.ev.seqno, p.ev.at);
      case _ =>
    }
  }

  /** The transaction index has an entry exactly for the ids posted, and it is
      some such event's sequence number and position. */
  lemma {:induction false} TxIndex(log: seq<Placed>, id: nat) returns (i: nat)
    requires Replay(EmptyBook, log).Some?
    ensures var txids := Replay(EmptyBook, log).value.txids;
      && (id in txids ==> PostsId(log, i, id) && txids[id] == (log[i].ev.seqno, log[i].pos))
      && (id !in txids ==> forall j :: !PostsId(log, j, id))
  {
    hide Apply;
    i := 0;
    if log != [] {
      var n := |log| - 1;
      i := TxIndex(log[..n], id);
      ApplyTxids(Replay(EmptyBook, log[..n]).value, log[n]);
      if PostsId(log, n, id) {
        i := n;
      } else {
        forall j | id !in Replay(EmptyBook, log).value.txids
          ensures !PostsId(log, j, id)
        {
          assert !PostsId(log[..n], j, id);
        }
      }
    }
  }

  /** The frame at a recorded position. */
  lemma PlacedReads(c: Codec, d: Disk, log: seq<Placed>, dur: nat, i: nat)
    requires Sound(c) && Sys.DiskInv(c, d, log, dur) && i < |log|
    ensures ReadFrame(FindFile(d, log[i].pos.0), c, log[i].pos.1, log[i].ev.seqno) == Some(log[i].ev)
  {
    hide PlacedLog, Holds, Durable, ReadFrame;
    HoldsShows(c, d, Events(log));
    RecordedPositionsRead(c, d, Events(log), i);
  }

  datatype Lookup = IoError | Unknown | Found(ev: WireEvent)

  /** By id: unknown exactly when no transaction of the log has it; found, it is
      the log's own event, read back from its frame. */
  method FindTransaction(st: BookState, c: Codec, d: Disk, id: nat, ghost log: seq<Placed>, ghost dur: nat)
    returns (r: Lookup, ghost i: nat)
    requires GoodLog(log) && st.Model() == Fold(log) && Sound(c) && Sys.DiskInv(c, d, log, dur)
    ensures !r.IoError?
    ensures r.Unknown? <==> forall j :: !PostsId(log, j, id)
    ensures r.Found? ==> PostsId(log, i, id) && r.ev == log[i].ev
  {
    hide Sys.DiskInv, Replay, ReadFrame;
    i := TxIndex(log, id);
    hide GoodLog;
    if id !in st.txids {
      return Unknown, i;
    }
    PlacedReads(c, d, log, dur, i);
    var (seqno, pos) := st.txids[id];
    var ev := ReadAt(c, d, pos, seqno);
    if ev.None? || !ev.value.event.TransactionPosted? {
      r := IoError;
    } else {
      r := Found(ev.value);
    }
  }
}
