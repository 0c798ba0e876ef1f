/**
 Facts about logs: dense sequence numbers, times that never decrease, at most one
 posting for each idempotency key, and what replaying a log, or the rest of one,
 leaves. Whatever a batch stages extends a log with these properties to another,
 and the key map rides along with the replay without influencing it.
 */
module Histories {
  import opened LedgerTypes
  import opened Books
  import opened Batches

  type Index = map<string, Committed>

  /** The record of each idempotency key posted in the log. */
  function LogKeys(log: seq<Placed>): Index {
    if log == [] then map[]
    else
      var front := LogKeys(log[..|log| - 1]);
      var e := log[|log| - 1].ev;
      if e.event.TransactionPosted? then front[e.event.tx.key := RecordOf(e)] else front
  }

  /** No two transactions of the log share an idempotency key. */
  ghost predicate UniqueKeys(log: seq<Placed>) {
    log != [] ==>
      && UniqueKeys(log[..|log| - 1])
      && var e := log[|log| - 1].ev;
         (e.event.TransactionPosted? ==> e.event.tx.key !in LogKeys(log[..|log| - 1]))
  }

  /** Event i has sequence number i + 1; times never decrease. */
  ghost predicate Ordered(log: seq<Placed>) {
    && (forall i :: 0 <= i < |log| ==> log[i].ev.seqno == i + 1)
    && (forall i, j :: 0 <= i < j < |log| ==> log[i].ev.at <= log[j].ev.at)
  }

  lemma {:induction false} LogKeysConcat(a: seq<Placed>, b: seq<Placed>)
    ensures LogKeys(a + b) == LogKeys(a) + LogKeys(b)
  {
    if b == [] {
      assert a + b == a;
    } else {
      var n := |b| - 1;
      assert (a + b)[..|a + b| - 1] == a + b[..n];
      LogKeysConcat(a, b[..n]);
      if b[n].ev.event.TransactionPosted? {
        MapPut(LogKeys(a), LogKeys(b[..n]), b[n].ev.event.tx.key, RecordOf(b[n].ev));
      }
    }
  }

  lemma {:induction false} UniqueConcat(a: seq<Placed>, b: seq<Placed>)
    requires UniqueKeys(a + b)
    ensures UniqueKeys(a) && LogKeys(a).Keys !! LogKeys(b).Keys
  {
    if b == [] {
      assert a + b == a;
    } else {
      var n := |b| - 1;
      assert (a + b)[..|a + b| - 1] == a + b[..n];
      UniqueConcat(a, b[..n]);
      LogKeysConcat(a, b[..n]);
    }
  }

  /** A prefix of a log with unique keys says nothing the whole log does not. */
  lemma PrefixKeys(log: seq<Placed>, n: nat)
    requires UniqueKeys(log) && n <= |log|
    ensures UniqueKeys(log[..n]) && Within(LogKeys(log[..n]), LogKeys(log))
  {
    assert log == log[..n] + log[n..];
    UniqueConcat(log[..n], log[n..]);
    LogKeysConcat(log[..n], log[n..]);
  }

  /** A key of the log is the key of exactly one event, and its record is that
      event's. */
  ghost predicate Posts(log: seq<Placed>, i: nat, key: string, rec: Committed) {
    i < |log| && log[i].ev.event.TransactionPosted? && log[i].ev.event.tx.key == key && rec == RecordOf(log[i].ev)
  }

  lemma {:induction false} KeyNamesEvent(log: seq<Placed>, key: string) returns (i: nat)
    requires UniqueKeys(log) && key in LogKeys(log)
    ensures Posts(log, i, key, LogKeys(log)[key])
    ensures forall j :: 0 <= j < |log| && log[j].ev.event.TransactionPosted? && log[j].ev.event.tx.key == key ==> j == i
  {
    var n := |log| - 1;
    var e := log[n].ev;
    if e.event.TransactionPosted? && e.event.tx.key == key {
      i := n;
      forall j | 0 <= j < n && log[j].ev.event.TransactionPosted? && log[j].ev.event.tx.key == key
        ensures false
      {
        PostedIsKey(log[..n], j);
      }
    } else {
      i := KeyNamesEvent(log[..n], key);
    }
  }

  lemma {:induction false} PostedIsKey(log: seq<Placed>, j: nat)
    requires j < |log| && log[j].ev.event.TransactionPosted?
    ensures log[j].ev.event.tx.key in LogKeys(log)
  {
    if j < |log| - 1 {
      PostedIsKey(log[..|log| - 1], j);
    }
  }

  // ------------------------------------------------------------------
  // Replaying with some of the keys
  // ------------------------------------------------------------------

  lemma {:induction false} PostingIgnoresKeys(b: Book, h: Index, ps: seq<Posting>, txid: nat, seqno: nat, at: int)
    ensures PostAll(b.(keys := h), ps, txid, seqno, at) ==
      match PostAll(b, ps, txid, seqno, at) case None => None case Some(b') => Some(b'.(keys := h))
  {
    if ps != [] {
      PostingIgnoresKeys(b, h, ps[..|ps| - 1], txid, seqno, at);
    }
  }

  lemma ApplyIgnoresKeys(b: Book, h: Index, p: Placed)
    ensures Apply(b.(keys := h), p) ==
      match Apply(b, p)
      case None => None
      case Some(b') => Some(b'.(keys := h + LogKeys([p])))
  {
    assert LogKeys([]) == map[] && [p][..0] == [];
    match p.ev.event {
      case TransactionPosted(tx) =>
        PostingIgnoresKeys(b, h, tx.postings, tx.id, p.ev.seqno, p.ev.at);
        assert h[tx.key := RecordOf(p.ev)] == h + map[tx.key := RecordOf(p.ev)];
      case _ =>
        assert h + map[] == h;
    }
  }

  /** The key map rides along: replaying over any starting keys gives the same
      book with those keys and the log's on top. */
  lemma {:induction false} ReplayIgnoresKeys(b: Book, h: Index, log: seq<Placed>)
    ensures Replay(b.(keys := h), log) ==
      match Replay(b, log)
      case None => None
      case Some(b') => Some(b'.(keys := h + LogKeys(log)))
  {
    hide Apply;
    if log == [] {
      assert h + map[] == h;
    } else {
      var n := |log| - 1;
      ReplayIgnoresKeys(b, h, log[..n]);
      match Replay(b, log[..n]) {
        case None =>
        case Some(b') =>
          ApplyIgnoresKeys(b', h + LogKeys(log[..n]), log[n]);
          assert log == log[..n] + [log[n]];
          LogKeysConcat(log[..n], [log[n]]);
          MapAssoc(h, LogKeys(log[..n]), LogKeys([log[n]]));
      }
    }
  }

  lemma MapAssoc(a: Index, b: Index, c: Index)
    ensures (a + b) + c == a + (b + c)
  {
  }

  lemma ReplayKeys(b: Book, log: seq<Placed>)
    requires Replay(b, log).Some?
    ensures Replay(b, log).value.keys == b.keys + LogKeys(log)
  {
    assert b.(keys := b.keys) == b;
    ReplayIgnoresKeys(b, b.keys, log);
  }

  // ------------------------------------------------------------------
  // Replaying a whole log
  // ------------------------------------------------------------------

  /** The book a log leaves. */
  ghost function Fold(log: seq<Placed>): Book
    requires Replay(EmptyBook, log).Some?
  {
    Replay(EmptyBook, log).value
  }

  /** A log as the writer produces it: it replays, keys are unique, sequence
      numbers dense, times ordered. */
  ghost predicate GoodLog(log: seq<Placed>) {
    Replay(EmptyBook, log).Some? && UniqueKeys(log) && Ordered(log)
  }

  lemma ApplyStamps(b: Book, p: Placed)
    requires Apply(b, p).Some?
    ensures Apply(b, p).value.nextSeq == p.ev.seqno + 1 && Apply(b, p).value.lastAt == Some(p.ev.at)
  {
  }

  lemma FoldStamps(log: seq<Placed>)
    requires GoodLog(log)
    ensures Fold(log).nextSeq == |log| + 1
    ensures Fold(log).lastAt == if log == [] then None else Some(log[|log| - 1].ev.at)
    ensures Fold(log).keys == LogKeys(log)
  {
    hide Apply, LogKeys;
    ReplayKeys(EmptyBook, log);
    assert map[] + LogKeys(log) == LogKeys(log);
    if log != [] {
      ApplyStamps(Replay(EmptyBook, log[..|log| - 1]).value, log[|log| - 1]);
    }
  }

  lemma GoodPrefix(log: seq<Placed>, n: nat)
    requires GoodLog(log) && n <= |log|
    ensures GoodLog(log[..n])
  {
    hide Apply;
    ReplayPrefix(EmptyBook, log, n);
    PrefixKeys(log, n);
  }

  lemma FoldConcat(log: seq<Placed>, n: nat)
    requires GoodLog(log) && n <= |log|
    ensures GoodLog(log[..n])
    ensures Replay(Fold(log[..n]), log[n..]) == Some(Fold(log))
  {
    GoodPrefix(log, n);
    assert log == log[..n] + log[n..];
    ReplayConcat(EmptyBook, log[..n], log[n..]);
  }

  /** A snapshot: the state after q events, some of its keys perhaps only in runs. */
  ghost predicate SavedAt(saved: Book, log: seq<Placed>, q: nat) {
    && q <= |log| && GoodLog(log[..q])
    && saved == Fold(log[..q]).(keys := saved.keys)
    && Within(saved.keys, LogKeys(log[..q]))
  }

  lemma {:induction false} SavedLater(saved: Book, log: seq<Placed>, log': seq<Placed>, q: nat)
    requires SavedAt(saved, log, q) && log <= log'
    ensures SavedAt(saved, log', q)
  {
    hide GoodLog, Fold, LogKeys;
    assert log'[..q] == log[..q];
  }

  // ------------------------------------------------------------------
  // A batch extends the log
  // ------------------------------------------------------------------

  lemma {:induction false} StagedKeysUnique(log: seq<Placed>, idem: map<string, nat>, b: Book, pl: seq<Placed>,
                                            staged: seq<WireEvent>)
    requires GoodLog(log) && b.keys == LogKeys(log) && Places(pl, staged)
    requires forall i :: 0 <= i < |staged| && staged[i].event.TransactionPosted? ==>
      staged[i].event.tx.key in idem && idem[staged[i].event.tx.key] == i && staged[i].event.tx.key !in b.keys
    ensures UniqueKeys(log + pl)
    ensures forall k :: k in LogKeys(pl) ==> k in idem && idem[k] < |pl|
  {
    if pl == [] {
      assert log + pl == log;
    } else {
      var n := |pl| - 1;
      StagedKeysUnique(log, idem, b, pl[..n], staged[..n]);
      assert (log + pl)[..|log + pl| - 1] == log + pl[..n];
      LogKeysConcat(log, pl[..n]);
    }
  }

  lemma StagedOrdered(log: seq<Placed>, b: Book, acc: Batch, pl: seq<Placed>)
    requires GoodLog(log) && b.nextSeq == |log| + 1
    requires b.lastAt == if log == [] then None else Some(log[|log| - 1].ev.at)
    requires StagedOk(b, acc) && Places(pl, acc.staged)
    ensures Ordered(log + pl)
  {
    var all := log + pl;
    forall i | 0 <= i < |all|
      ensures all[i].ev.seqno == i + 1
    {
    }
    forall i, j | 0 <= i < j < |all|
      ensures all[i].ev.at <= all[j].ev.at
    {
      if i < |log| <= j {
        assert log[i].ev.at <= log[|log| - 1].ev.at;
        assert Floor(b) <= acc.staged[j - |log|].at;
      }
    }
  }

  /** Whatever a batch stages extends a good log to a good log. */
  lemma BatchExtends(log: seq<Placed>, jobs: seq<Job>, now0: int, nows: seq<int>, pl: seq<Placed>)
    requires GoodLog(log) && |nows| == |jobs|
    requires Places(pl, Classify(Fold(log), jobs, now0, nows).staged)
    ensures GoodLog(log + pl)
    ensures Replay(Fold(log), pl) == Some(Fold(log + pl))
  {
    hide Classify, Apply, LogKeys, Mirrors, UniqueKeys, Ordered;
    var b, acc := Fold(log), Classify(Fold(log), jobs, now0, nows);
    FoldStamps(log);
    StagedApply(b, jobs, now0, nows, pl);
    StagedKeysUnique(log, acc.idem, b, pl, acc.staged);
    StagedOrdered(log, b, acc, pl);
    ReplayConcat(EmptyBook, log, pl);
  }

  // ------------------------------------------------------------------
  // Lifetime sums
  // ------------------------------------------------------------------

  /** Debits and credits per asset. */
  type Sums = map<string, (i64, i64)>

  function AddSums(sums: Sums, ps: seq<Posting>): Sums {
    if ps == [] then sums else AddSum(AddSums(sums, ps[..|ps| - 1]), ps[|ps| - 1])
  }

  lemma {:induction false} PostAllSums(b: Book, ps: seq<Posting>, txid: nat, seqno: nat, at: int)
    requires PostAll(b, ps, txid, seqno, at).Some?
    ensures PostAll(b, ps, txid, seqno, at).value.sums == AddSums(b.sums, ps)
  {
    if ps != [] {
      PostAllSums(b, ps[..|ps| - 1], txid, seqno, at);
    }
  }
}
