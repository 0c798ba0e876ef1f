/**
 Opening one book: repair the segments, load a snapshot or nothing, replay the
 rest of the log onto it, attach the run files.
 */
module BookOpens {
  import opened LedgerTypes
  import opened Frames
  import opened Segments
  import opened SegmentReads
  import opened SegmentSets
  import opened Books
  import opened Batches
  import opened Histories
  import opened KeyOrder
  import opened IdemSpill
  import opened TieredIndex
  import opened BookStates
  import Sys = System
  import Safety = StoreSafety
  import Writers = BookWriters

  /** Replays events in order; fails exactly when the fold does. */
  method ReplayTail(st: BookState, pairs: seq<Placed>) returns (ok: bool)
    requires st.Valid() && UniqueKeys(pairs) && LogKeys(pairs).Keys !! st.idem.contents.Keys
    modifies st, st.idem`hot, st.idem`order, st.idem`contents
    ensures st.Valid()
    ensures ok <==> Replay(old(st.Model()), pairs).Some?
    ensures ok ==> st.Model() == Replay(old(st.Model()), pairs).value
  {
    hide Apply, UniqueKeys, LogKeys;
    ghost var b := st.Model();
    for i := 0 to |pairs|
      invariant st.Valid() && Replay(b, pairs[..i]) == Some(st.Model())
    {
      hide Replay;
      TailKeyIsNew(b, pairs, i);
      Writers.ReplayNext(b, pairs, i);
      ok := st.ApplyEvent(pairs[i]);
      if !ok {
        ReplayStops(b, pairs, i + 1);
        return;
      }
    }
    assert pairs[..|pairs|] == pairs;
    ok := true;
  }

  lemma {:induction false} TailKeyIsNew(b: Book, pairs: seq<Placed>, i: nat)
    requires UniqueKeys(pairs) && LogKeys(pairs).Keys !! b.keys.Keys && i < |pairs| && Replay(b, pairs[..i]).Some?
    ensures pairs[i].ev.event.TransactionPosted? ==> pairs[i].ev.event.tx.key !in Replay(b, pairs[..i]).value.keys
  {
    Writers.UniqueNext(pairs, i);
    ReplayKeys(b, pairs[..i]);
    if pairs[i].ev.event.TransactionPosted? {
      PostedIsKey(pairs, i);
    }
    hide Replay, LogKeys, UniqueKeys;
  }

  lemma {:induction false} ReplayStops(b: Book, pairs: seq<Placed>, i: nat)
    requires i <= |pairs| && Replay(b, pairs[..i]).None?
    ensures Replay(b, pairs).None?
  {
    if Replay(b, pairs).Some? {
      ReplayPrefix(b, pairs, i);
    }
  }

  // ------------------------------------------------------------------
  // The rebuild list
  // ------------------------------------------------------------------

  /** The keys of the replayed tail, with their records. */
  function RebuildList(pairs: seq<Placed>): seq<Pair> {
    if pairs == [] then []
    else
      var e := pairs[|pairs| - 1].ev;
      RebuildList(pairs[..|pairs| - 1]) + (if e.event.TransactionPosted? then [(e.event.tx.key, RecordOf(e))] else [])
  }

  lemma {:induction false} ListsTail(pairs: seq<Placed>, key: string)
    requires UniqueKeys(pairs)
    ensures HasKey(RebuildList(pairs), key) <==> key in LogKeys(pairs)
    ensures PairsIn(RebuildList(pairs), LogKeys(pairs))
  {
    if pairs != [] {
      var n := |pairs| - 1;
      ListsTail(pairs[..n], key);
      var e := pairs[n].ev;
      HasKeyConcat(RebuildList(pairs[..n]), if e.event.TransactionPosted? then [(e.event.tx.key, RecordOf(e))] else [], key);
    }
  }

  /** What a reopened index must find a key in: the snapshot's hot entries and the
      replayed tail, or run files that are all readable. */
  ghost predicate Findable(hot: Index, dir: RunDir, listing: seq<nat>, key: string) {
    key in hot || (Usable(dir, listing) && OnDisk(dir, listing, key))
  }

  /** The rebuild list only repeats the tail, which is hot already. */
  lemma {:induction false} RebuildIsNoHelp(hot: Index, dir: RunDir, listing: seq<nat>, tail: seq<Placed>,
                                           writeOk: bool, key: string)
    requires UniqueKeys(tail) && LogKeys(tail).Keys <= hot.Keys
    ensures Kept(hot, dir, listing, RebuildList(tail), writeOk, key) <==> Findable(hot, dir, listing, key)
  {
    ListsTail(tail, key);
    hide RebuildList, LogKeys, HasKey, Usable, OnDisk;
  }

  // ------------------------------------------------------------------
  // Opening
  // ------------------------------------------------------------------

  lemma {:induction false} TailReplays(saved: Book, log: seq<Placed>, q: nat)
    requires GoodLog(log) && SavedAt(saved, log, q)
    ensures Replay(saved, log[q..]) == Some(Fold(log).(keys := saved.keys + LogKeys(log[q..])))
    ensures UniqueKeys(log[q..]) && LogKeys(log[q..]).Keys !! saved.keys.Keys
    ensures Within(saved.keys + LogKeys(log[q..]), LogKeys(log)) && Within(LogKeys(log[q..]), LogKeys(log))
  {
    FoldConcat(log, q);
    ReplayIgnoresKeys(Fold(log[..q]), saved.keys, log[q..]);
    assert log == log[..q] + log[q..];
    UniqueConcat(log[..q], log[q..]);
    LogKeysConcat(log[..q], log[q..]);
    UniqueSuffix(log[..q], log[q..]);
    hide LogKeys, UniqueKeys, GoodLog, Replay, Fold;
  }

  lemma {:induction false} UniqueSuffix(a: seq<Placed>, b: seq<Placed>)
    requires UniqueKeys(a + b)
    ensures UniqueKeys(b)
  {
    if b != [] {
      var n := |b| - 1;
      assert (a + b)[..|a + b| - 1] == a + b[..n];
      UniqueSuffix(a, b[..n]);
      LogKeysConcat(a, b[..n]);
    }
  }

  lemma {:induction false} AllFindable(truth: Index, hot: Index, dir: RunDir, listing: seq<nat>, tail: seq<Placed>,
                                       writeOk: bool)
    requires UniqueKeys(tail) && LogKeys(tail).Keys <= hot.Keys
    ensures (forall k :: k in truth ==> Kept(hot, dir, listing, RebuildList(tail), writeOk, k))
       <==> (forall k :: k in truth ==> Findable(hot, dir, listing, k))
  {
    hide LogKeys, UniqueKeys, Kept, Findable;
    forall k
      ensures Kept(hot, dir, listing, RebuildList(tail), writeOk, k) <==> Findable(hot, dir, listing, k)
    {
      RebuildIsNoHelp(hot, dir, listing, tail, writeOk, k);
    }
  }

  /** Repairs the segments and reads what lies past the snapshot. */
  method ReadTail(c: Codec, image: Disk, segmentMax: nat, q: nat, ghost log: seq<Placed>, ghost dur: nat)
    returns (pairs: Option<seq<Placed>>, segs: SegmentSet?)
    requires Sound(c) && Repair(c, image).Some? && Sys.DiskInv(c, Repair(c, image).value, log, dur)
    requires Ordered(log) && q <= |log|
    ensures pairs == Some(log[q..]) && segs != null && fresh(segs) && segs.Valid()
    ensures segs.codec == c && segs.files == Repair(c, image).value
  {
    hide Sys.DiskInv, Repair, Ordered;
    segs := SegmentSet.Open(c, image, segmentMax);
    if segs == null {
      return None, null;
    }
    Safety.ScanIsSuffix(c, segs.files, log, dur, q);
    pairs := ScanWithPos(c, segs.files, q + 1, Sys.USIZE_MAX);
  }

  // ------------------------------------------------------------------
  // Which keys come back
  // ------------------------------------------------------------------

  /** The run files as they were stored miss no key that left the hot map before
      the snapshot was taken. */
  ghost predicate StoredAll(saved: Book, keys: Index, stored: RunDir) {
    forall k :: k in keys ==> k in saved.keys || InStored(stored, k)
  }

  ghost predicate InStored(stored: RunDir, key: string) {
    exists n :: n in stored && stored[n].Intact? && HasKey(stored[n].pairs, key)
  }

  /** The same files, some of them damaged since. */
  ghost predicate DamagedFrom(dir: RunDir, stored: RunDir) {
    dir.Keys == stored.Keys && forall n :: n in dir ==> dir[n] == stored[n] || dir[n].Damaged?
  }

  /** What decides it: every run file is readable, or nothing had left the hot map
      by the time of the snapshot. */
  ghost predicate Recoverable(saved: Book, front: Index, dir: RunDir, listing: seq<nat>) {
    AllIntact(dir, listing) || front.Keys <= saved.keys.Keys
  }

  lemma {:induction false} IntactFinds(saved: Book, front: Index, stored: RunDir, dir: RunDir, listing: seq<nat>,
                                       key: string)
    requires StoredAll(saved, front, stored) && DamagedFrom(dir, stored) && Lists(listing, dir)
    requires AllIntact(dir, listing) && key in front && key !in saved.keys
    ensures Usable(dir, listing) && OnDisk(dir, listing, key)
  {
    hide HasKey;
    assert InStored(stored, key);
    var n :| n in stored && stored[n].Intact? && HasKey(stored[n].pairs, key);
    assert n in dir && n in listing;
    var i :| 0 <= i < |listing| && listing[i] == n;
  }

  /** Every key of the log is found again if and only if all run files are readable
      or every key from before the snapshot was still hot in it. */
  lemma {:induction false} FoundExactly(saved: Book, log: seq<Placed>, q: nat, stored: RunDir, dir: RunDir,
                                        listing: seq<nat>)
    requires GoodLog(log) && SavedAt(saved, log, q)
    requires StoredAll(saved, LogKeys(log[..q]), stored) && DamagedFrom(dir, stored) && Lists(listing, dir)
    ensures (forall k :: k in LogKeys(log) ==> Findable(saved.keys + LogKeys(log[q..]), dir, listing, k))
       <==> Recoverable(saved, LogKeys(log[..q]), dir, listing)
  {
    TailKeys(log, q);
    hide GoodLog, LogKeys, SavedAt, StoredAll, DamagedFrom, Lists, OnDisk, AllIntact;
    var front, tail := LogKeys(log[..q]), LogKeys(log[q..]);
    if Recoverable(saved, front, dir, listing) {
      forall k | k in LogKeys(log)
        ensures Findable(saved.keys + tail, dir, listing, k)
      {
        if k !in saved.keys && k !in tail {
          IntactFinds(saved, front, stored, dir, listing, k);
        }
      }
    } else {
      var k :| k in front && k !in saved.keys;
      assert k in LogKeys(log) && !Findable(saved.keys + tail, dir, listing, k);
    }
  }

  lemma {:induction false} TailKeys(log: seq<Placed>, q: nat)
    requires GoodLog(log) && q <= |log|
    ensures LogKeys(log) == LogKeys(log[..q]) + LogKeys(log[q..])
    ensures LogKeys(log[..q]).Keys !! LogKeys(log[q..]).Keys
  {
    assert log == log[..q] + log[q..];
    UniqueConcat(log[..q], log[q..]);
    LogKeysConcat(log[..q], log[q..]);
  }

  /** With no snapshot the whole log is replayed, and nothing can be lost. */
  lemma {:induction false} WithoutSnapshot(saved: Book, log: seq<Placed>, q: nat, dir: RunDir, listing: seq<nat>)
    requires GoodLog(log) && SavedAt(saved, log, q)
    ensures q == 0 ==> forall k :: k in LogKeys(log) ==> Findable(saved.keys + LogKeys(log[q..]), dir, listing, k)
  {
    TailKeys(log, q);
    if q == 0 {
      assert log[..0] == [] && LogKeys([]) == map[];
    }
    hide GoodLog, LogKeys, Usable, OnDisk;
  }

  lemma {:induction false} AllFound(saved: Book, log: seq<Placed>, q: nat, stored: RunDir, dir: RunDir,
                                    listing: seq<nat>)
    requires GoodLog(log) && SavedAt(saved, log, q) && Lists(listing, dir)
    ensures q <= |log|
    ensures var found := forall k :: k in LogKeys(log) ==> Findable(saved.keys + LogKeys(log[q..]), dir, listing, k);
      && (StoredAll(saved, LogKeys(log[..q]), stored) && DamagedFrom(dir, stored) ==>
            (found <==> Recoverable(saved, LogKeys(log[..q]), dir, listing)))
      && (q == 0 ==> found)
  {
    hide LogKeys, StoredAll, DamagedFrom, Recoverable, Findable, GoodLog, SavedAt, Lists;
    assert q <= |log| by { SavedWithin(saved, log, q); }
    if StoredAll(saved, LogKeys(log[..q]), stored) && DamagedFrom(dir, stored) {
      FoundExactly(saved, log, q, stored, dir, listing);
    }
    WithoutSnapshot(saved, log, q, dir, listing);
  }

  lemma {:induction false} SavedWithin(saved: Book, log: seq<Placed>, q: nat)
    requires SavedAt(saved, log, q)
    ensures q <= |log|
  {
  }

  /** Every snapshot a running store takes, and the run files it has then, meet the
      premise: what `System` knows of its snapshots says so. */
  lemma {:induction false} TakenSnapshotsStored(b: Book, log: seq<Placed>, q: nat, runs: Sys.Runs, reg: set<nat>,
                                                stored: RunDir)
    requires Sys.IsFold(b, log, q, runs, reg)
    requires forall n :: n in reg && n in runs ==>
      n in stored && stored[n].Intact? && forall k :: k in runs[n] ==> HasKey(stored[n].pairs, k)
    ensures SavedAt(b, log, q) && StoredAll(b, LogKeys(log[..q]), stored)
  {
    hide GoodLog, Fold, LogKeys, HasKey;
    forall k | k in LogKeys(log[..q])
      ensures k in b.keys || InStored(stored, k)
    {
      if k !in b.keys {
        assert Sys.InReg(runs, reg, k);
        var n :| n in reg && n in runs && k in runs[n];
        assert HasKey(stored[n].pairs, k);
      }
    }
  }

  /** The index has these hot keys and the runs that attaching the directory gives. */
  ghost predicate Attached(st: BookState, hot: Index, dir: RunDir, listing: seq<nat>, tail: seq<Placed>, writeOk: bool,
                           stuck: set<nat>)
    reads st, st.idem
  {
    st.idem.hot == hot &&
    (st.idem.runs, st.idem.disk) == AttachedTo(hot, dir, listing, RebuildList(tail), writeOk, stuck)
  }

  /** The snapshot in memory and the tail replayed onto it; no run attached yet. */
  method LoadReplayed(saved: Book, order: seq<string>, q: nat, cap: nat, h1: string -> nat, h2: string -> nat,
                      tail: seq<Placed>, ghost log: seq<Placed>)
    returns (s: BookState?)
    requires GoodLog(log) && SavedAt(saved, log, q) && OrderOk(order, saved.keys) && q <= |log| && tail == log[q..]
    ensures s != null && fresh(s) && fresh(s.idem) && fresh(s.idem.Repr()) && s.Valid() && s.idem.runs == []
    ensures s.Model() == Fold(log).(keys := saved.keys + LogKeys(tail))
  {
    TailReplays(saved, log, q);
    hide GoodLog, SavedAt, Replay, LogKeys, UniqueKeys, Tiers, Tidy, OrderOk, Fold;
    var st := new BookState.Load(saved, order, cap, h1, h2);
    var ok := ReplayTail(st, tail);
    if !ok {
      return null;
    }
    s := st;
  }

  /** `open_with`, one book. The accounts, histories, sums, transaction index and
      counters are always those of the whole log. Over run files that missed nothing
      when they were stored, the index answers every key of the log if and only if
      all of them are still readable or no key had left the hot map when the snapshot
      was taken; with no snapshot, always. */
  method OpenBook(c: Codec, image: Disk, segmentMax: nat, saved: Book, order: seq<string>, q: nat,
                  cap: nat, h1: string -> nat, h2: string -> nat, dir: RunDir, listing: seq<nat>, writeOk: bool, stuck: set<nat>,
                  ghost log: seq<Placed>, ghost dur: nat, ghost stored: RunDir)
    returns (st: BookState?, segs: SegmentSet?)
    requires Sound(c) && Repair(c, image).Some? && Sys.DiskInv(c, Repair(c, image).value, log, dur)
    requires GoodLog(log) && SavedAt(saved, log, q) && OrderOk(order, saved.keys)
    requires DirOk(dir, LogKeys(log)) && Lists(listing, dir)
    ensures st != null && fresh(st) && st.Valid()
    ensures st.Model() == Fold(log).(keys := st.idem.contents)
    ensures st.idem.contents == LogKeys(log) <==>
      forall k :: k in LogKeys(log) ==> Findable(saved.keys + LogKeys(log[q..]), dir, listing, k)
    ensures StoredAll(saved, LogKeys(log[..q]), stored) && DamagedFrom(dir, stored) ==>
      (st.idem.contents == LogKeys(log) <==> Recoverable(saved, LogKeys(log[..q]), dir, listing))
    ensures q == 0 ==> st.idem.contents == LogKeys(log)
    ensures Attached(st, saved.keys + LogKeys(log[q..]), dir, listing, log[q..], writeOk, stuck)
    ensures segs != null && fresh(segs) && segs.Valid() && segs.codec == c && segs.files == Repair(c, image).value
  {
    TailReplays(saved, log, q);
    AllFound(saved, log, q, stored, dir, listing);
    assert Ordered(log);
    hide Sys.DiskInv, GoodLog, Replay, LogKeys, UniqueKeys, Tiers, DirOk, Tidy, Lists, OrderOk, Findable, Kept, KeptOf,
      Repair, Ordered, Fold,
      StoredAll, DamagedFrom, Recoverable, Attached;
    var pairs;
    pairs, segs := ReadTail(c, image, segmentMax, q, log, dur);
    if pairs.None? {
      return null, null;
    }
    var s := LoadReplayed(saved, order, q, cap, h1, h2, pairs.value, log);
    if s == null {
      return null, null;
    }
    AttachRuns(s, dir, listing, pairs.value, writeOk, stuck, log);
    st := s;
  }

  /** Attaches the run files to a replayed state, with the tail as rebuild list. */
  method AttachRuns(s: BookState, dir: RunDir, listing: seq<nat>, tail: seq<Placed>, writeOk: bool, stuck: set<nat>,
                    ghost log: seq<Placed>)
    requires s.Valid() && s.idem.runs == [] && UniqueKeys(tail) && DirOk(dir, LogKeys(log)) && Lists(listing, dir)
    requires Within(s.idem.contents, LogKeys(log)) && Within(LogKeys(tail), LogKeys(log))
    requires LogKeys(tail).Keys <= s.idem.contents.Keys
    modifies s.idem`runs, s.idem`bloom, s.idem`disk, s.idem`left, s.idem`contents
    ensures s.Valid() && s.Model() == old(s.Model()).(keys := s.idem.contents)
    ensures s.idem.contents == LogKeys(log) <==>
      forall k :: k in LogKeys(log) ==> Findable(old(s.idem.contents), dir, listing, k)
    ensures Attached(s, old(s.idem.contents), dir, listing, tail, writeOk, stuck)
  {
    hide LogKeys, UniqueKeys, Tiers, DirOk, Tidy, Lists, OrderOk, Findable, Kept, KeptOf, AttachedTo;
    s.idem.HotIsAll();
    ListsTail(tail, "");
    ghost var truth := LogKeys(log);
    PairsLater(RebuildList(tail), LogKeys(tail), truth);
    s.idem.AttachDir(dir, listing, RebuildList(tail), writeOk, stuck, truth);
    AllFindable(truth, s.idem.hot, dir, listing, tail, writeOk);
  }

  lemma {:induction false} PairsLater(pairs: seq<Pair>, a: Index, b: Index)
    requires PairsIn(pairs, a) && Within(a, b)
    ensures PairsIn(pairs, b)
  {
  }

  // ------------------------------------------------------------------
  // What a damaged run costs
  // ------------------------------------------------------------------

  /** A key spilled before the snapshot is lost when any run file is unreadable:
      the rebuild list never holds it. */
  lemma DamagedRunLosesKey(saved: Book, log: seq<Placed>, q: nat, dir: RunDir, listing: seq<nat>, n: nat, key: string,
                           writeOk: bool)
    requires GoodLog(log) && SavedAt(saved, log, q) && Lists(listing, dir)
    requires n in dir && dir[n].Damaged?
    requires key in LogKeys(log[..q]) && key !in saved.keys
    ensures key in LogKeys(log)
    ensures key !in KeptOf(LogKeys(log), saved.keys + LogKeys(log[q..]), dir, listing, RebuildList(log[q..]), writeOk)
  {
    TailReplays(saved, log, q);
    assert log == log[..q] + log[q..];
    UniqueConcat(log[..q], log[q..]);
    LogKeysConcat(log[..q], log[q..]);
    hide LogKeys, UniqueKeys, GoodLog, Replay, Fold, RebuildList, SavedAt;
    var i :| 0 <= i < |listing| && listing[i] == n;
    assert !Usable(dir, listing);
    RebuildIsNoHelp(saved.keys + LogKeys(log[q..]), dir, listing, log[q..], writeOk, key);
  }

  /** And then a retry of it, if it validates, is posted a second time. */
  lemma LostKeyPostsAgain(log: seq<Placed>, held: Index, tx: Transaction, now0: int, now: int)
    requires GoodLog(log) && tx.key in LogKeys(log) && tx.key !in held
    requires var b := Fold(log).(keys := held);
      Judge(TermsOf(b.accounts), Raws(b.accounts), tx).Accept?
    ensures var staged := Classify(Fold(log).(keys := held), [Commit(tx)], now0, [now]).staged;
      |staged| == 1 && staged[0].event == TransactionPosted(tx) && tx.key in LogKeys(log)
  {
    var b := Fold(log).(keys := held);
    assert [Commit(tx)][..0] == [] && [now][..0] == [];
    assert Overlay(b, map[]) == Raws(b.accounts);
    assert Classify(b, [], now0, []) == Start(b, now0);
    hide Judge, Project, Seeded, Raws, TermsOf, Fold;
  }
}
