/** The closed circle: a writer that stands for a reached state of the store machine,
    a power loss or a settled kill, and the writer that opening the files makes stand
    for the state the machine reopens to. */
module WriterReopens {
  import opened LedgerTypes
  import opened KeyOrder
  import opened Frames
  import opened Segments
  import opened SegmentSets
  import opened Books
  import opened Batches
  import opened Histories
  import opened TieredIndex
  import opened BookStates
  import opened Snapshots
  import opened BookOpens
  import opened BookWriters
  import opened WriterSteps
  import Idem = IdemSpill
  import Sys = System
  import Runs = StoreRuns
  import Safety = StoreSafety
  import Guarantees = StoreGuarantees

  // ------------------------------------------------------------------
  // What is on disk says nothing new
  // ------------------------------------------------------------------

  lemma {:induction false} DirSays(runs: Sys.Runs, dir: Idem.RunDir, log: seq<Placed>)
    requires DirStands(runs, dir) && Sys.RunsInv(runs, log, |log|) && log[..|log|] == log
    ensures DirOk(dir, LogKeys(log))
  {
    hide LogKeys, Sorted, HasKey;
    forall n | n in dir && dir[n].Intact?
      ensures Sorted(dir[n].pairs) && Idem.PairsIn(dir[n].pairs, LogKeys(log))
    {
      assert SameRun(runs[n], dir[n].pairs) && Within(runs[n], LogKeys(log));
    }
  }

  lemma {:induction false} NothingNotHot(pairs: seq<Pair>, hot: Idem.Index)
    requires forall k :: HasKey(pairs, k) ==> k in hot
    ensures NotHot(pairs, hot) == []
  {
    if pairs != [] {
      var front := pairs[..|pairs| - 1];
      assert HasKey(pairs, pairs[|pairs| - 1].0);
      assert forall k :: HasKey(front, k) ==> HasKey(pairs, k);
      NothingNotHot(front, hot);
    }
  }

  lemma {:induction false} TailIsHot(tail: seq<Placed>, hot: Idem.Index)
    requires UniqueKeys(tail) && LogKeys(tail).Keys <= hot.Keys
    ensures NotHot(RebuildList(tail), hot) == []
  {
    hide UniqueKeys, LogKeys, RebuildList, HasKey, NotHot;
    forall k | HasKey(RebuildList(tail), k)
      ensures k in hot
    {
      ListsTail(tail, k);
    }
    NothingNotHot(RebuildList(tail), hot);
  }

  lemma {:induction false} MetaNumbers(dir: Idem.RunDir, listing: seq<nat>)
    requires forall i :: 0 <= i < |listing| ==>
      listing[i] in dir && dir[listing[i]].Intact? && dir[listing[i]].pairs != []
    ensures Numbers(Metas(dir, listing)) == set n | n in listing
  {
    if listing != [] {
      var front, n := listing[..|listing| - 1], listing[|listing| - 1];
      MetaNumbers(dir, front);
      var m := Idem.MetaFor(n, dir[n].pairs);
      assert forall x :: x in Metas(dir, front) + [m] <==> x in Metas(dir, front) || x == m;
      assert forall x :: x in listing <==> x in front || x == n;
      assert Numbers(Metas(dir, front) + [m]) == Numbers(Metas(dir, front)) + {n};
    }
  }

  /** Attaching an undamaged directory registers every run. */
  lemma {:induction false} AttachStands(runs: Sys.Runs, hot: Idem.Index, dir: Idem.RunDir, listing: seq<nat>,
                                        rebuild: seq<Pair>, writeOk: bool, stuck: set<nat>)
    requires DirStands(runs, dir) && Lists(listing, dir) && NotHot(rebuild, hot) == []
    ensures var (metas, files) := AttachedTo(hot, dir, listing, rebuild, writeOk, stuck);
      RunsStand(runs, runs.Keys, files, metas) && DirStands(runs, files)
  {
    hide NotHot, HasKey, Sorted, Metas, Numbers;
    forall i | 0 <= i < |listing|
      ensures listing[i] in dir && dir[listing[i]].Intact? && dir[listing[i]].pairs != []
    {
      assert listing[i] in listing;
    }
    if listing == [] {
      assert dir.Keys == {} by { assert forall n :: n in dir ==> n in listing; }
      assert Restrict(dir, stuck) + map[] == dir;
      assert Numbers([]) == {} by { NoNumbers(); }
    } else {
      MetaNumbers(dir, listing);
    }
  }

  lemma {:induction false} NoNumbers()
    ensures Numbers([]) == {}
  {
  }

  // ------------------------------------------------------------------
  // The machine's step
  // ------------------------------------------------------------------

  /** A power loss, or a kill that leaves part of a frame. */
  function Ending(image: Disk, torn: Option<seq<byte>>, pick: Option<nat>): Sys.Label {
    if torn.None? then Sys.Crash(image, pick) else Sys.Kill(torn.value, pick)
  }

  /** What the next process finds in the segment files. */
  ghost predicate Finds(c: Codec, s: Sys.Sys, image: Disk, torn: Option<seq<byte>>) {
    if torn.None? then CrashImage(s.disk, image)
    else
      s.disk != [] && Sys.CanTear(c, s.disk, torn.value) && image == AppendBytes(s.disk, torn.value)
      && (torn.value == [] ==> AllSynced(s.disk))
  }

  /** The state the machine reopens to, and what the files must say for it. */
  lemma {:induction false} EndingNext(c: Codec, s: Sys.Sys, image: Disk, torn: Option<seq<byte>>, pick: Option<nat>)
    returns (s': Sys.Sys)
    requires Sound(c) && Sys.Inv(c, s) && Finds(c, s, image, torn) && (pick.Some? ==> pick.value in s.snaps)
    ensures Sys.Next(c, s, Ending(image, torn, pick)) == Some(s') && Sys.Settled(s, Ending(image, torn, pick)) && Sys.Inv(c, s')
    ensures Repair(c, image) == Some(s'.disk) && s'.phase.Idle? && Safety.Picked(pick) <= |s'.log| <= |s.log|
    ensures if torn.None? then s.dur <= |s'.log| else |s'.log| == |s.log|
    ensures s'.acks == s.acks && s'.log == s.log[..|s'.log|] && Sys.AppliedCount(s) <= |s'.log| && GoodLog(s'.log)
    ensures s'.runs == s.runs && s'.reg == s.runs.Keys && s'.snaps == s.snaps && s'.clones == map[]
    ensures s'.mem ==
      Fold(s'.log).(keys := Safety.StartFrom(s, pick).keys + LogKeys(s'.log[Safety.Picked(pick)..]))
  {
    hide Sys.Inv, Sys.Next, Sys.CanTear, CrashImage, Repair, Replay, LogKeys, AllSynced, Safety.StartFrom;
    var m;
    if torn.None? {
      m := Safety.CrashStep(c, s, image, pick);
    } else {
      Safety.KillStep(c, s, torn.value, pick);
      m := |s.log|;
      assert s.log[..m] == s.log;
    }
    s' := Safety.Reopened(s, Repair(c, image).value, pick, m);
    GoodOf(c, s');
    CountOf(c, s);
  }

  lemma {:induction false} GoodOf(c: Codec, s: Sys.Sys)
    requires Sys.Inv(c, s)
    ensures GoodLog(s.log)
  {
    hide GoodLog, Sys.MemInv, Sys.PhaseInv, Sys.DiskInv;
  }

  lemma {:induction false} CountOf(c: Codec, s: Sys.Sys)
    requires Sys.Inv(c, s)
    ensures Sys.AppliedCount(s) <= s.dur <= |s.log|
  {
    hide GoodLog, Sys.MemInv, Sys.PhaseInv;
    Safety.DurWithin(c, s);
  }

  lemma {:induction false} ReachedInv(c: Codec, s: Sys.Sys)
    requires Sound(c) && Reached(c, s)
    ensures Sys.Inv(c, s)
  {
    hide Sys.Inv, Sys.Orderly, Sys.Run;
    var ls :| Sys.Orderly(c, ls) && Sys.Run(c, ls) == Some(s);
    Safety.RunKeeps(c, ls);
  }

  lemma {:induction false} ReachedNext(c: Codec, s: Sys.Sys, l: Sys.Label)
    requires Reached(c, s) && Sys.Next(c, s, l).Some? && Sys.Settled(s, l)
    ensures Reached(c, Sys.Next(c, s, l).value)
  {
    hide Sys.Next, Sys.Settled;
    var ls :| Sys.Orderly(c, ls) && Sys.Run(c, ls) == Some(s);
    var all := ls + [l];
    assert all[..|all| - 1] == ls;
    assert Sys.RunFrom(c, Sys.Fresh, all) == Sys.Next(c, s, l);
    assert Sys.SettledFrom(c, Sys.Fresh, all);
    assert Sys.Orderly(c, all);
  }

  /** What the files say is true of the log that is found. */
  lemma {:induction false} FilesFit(c: Codec, s: Sys.Sys, s': Sys.Sys, pick: Option<nat>, dir: Idem.RunDir)
    requires Sys.Inv(c, s) && Sys.Inv(c, s') && (pick.Some? ==> pick.value in s.snaps) && DirStands(s.runs, dir)
    requires s'.runs == s.runs && s'.phase.Idle? && |s'.log| <= |s.log| && s'.log == s.log[..|s'.log|]
    requires Sys.AppliedCount(s) <= |s'.log|
    ensures DirOk(dir, LogKeys(s'.log)) && s'.dur == |s'.log|
    ensures Sys.IsFold(Safety.StartFrom(s, pick), s'.log, Safety.Picked(pick), s.runs, s.reg)
    ensures Sys.DiskInv(c, s'.disk, s'.log, s'.dur) && Last(s'.disk).linked
  {
    hide Sys.DiskInv, GoodLog, Sys.IsFold, Sys.BooksInv, Sys.AcksInv, DirStands, Safety.StartFrom;
    var m := |s'.log|;
    assert s'.log[..m] == s'.log;
    DirSays(s'.runs, dir, s'.log);
    Safety.StartSurvives(s, pick, m);
  }

  lemma {:induction false} StoredFit(s: Sys.Sys, pick: Option<nat>, log: seq<Placed>, dir: Idem.RunDir)
    requires (pick.Some? ==> pick.value in s.snaps) && DirStands(s.runs, dir)
    requires Sys.IsFold(Safety.StartFrom(s, pick), log, Safety.Picked(pick), s.runs, s.reg)
    ensures SavedAt(Safety.StartFrom(s, pick), log, Safety.Picked(pick))
    ensures StoredAll(Safety.StartFrom(s, pick), LogKeys(log[..Safety.Picked(pick)]), dir)
  {
    hide Sys.IsFold, Safety.StartFrom, Sorted, HasKey, LogKeys;
    TakenSnapshotsStored(Safety.StartFrom(s, pick), log, Safety.Picked(pick), s.runs, s.reg, dir);
  }

  /** An undamaged directory answers every key. */
  lemma {:induction false} AllRecoverable(runs: Sys.Runs, saved: Book, front: Idem.Index, dir: Idem.RunDir, listing: seq<nat>)
    requires DirStands(runs, dir) && Lists(listing, dir)
    ensures DamagedFrom(dir, dir) && Recoverable(saved, front, dir, listing)
  {
    hide SameRun;
    forall i | 0 <= i < |listing|
      ensures listing[i] in dir && dir[listing[i]].Intact?
    {
      assert listing[i] in listing;
    }
  }

  /** The newest readable snapshot as the machine knows it. */
  lemma {:induction false} PickStands(s: Sys.Sys, files: SnapDir, loaded: Option<(Book, nat)>)
    requires SnapsStand(s.snaps, map[], files, None)
    requires loaded.Some? ==> loaded.value.1 in files && files[loaded.value.1] == Holding(loaded.value.0)
    ensures var pick := if loaded.Some? then Some(loaded.value.1) else None;
      && (pick.Some? ==> pick.value in s.snaps)
      && Safety.StartFrom(s, pick) == (if loaded.Some? then loaded.value.0 else EmptyBook)
      && Safety.Picked(pick) == (if loaded.Some? then loaded.value.1 else 0)
  {
  }

  lemma {:induction false} TailHot(log: seq<Placed>, saved: Book, q: nat)
    requires GoodLog(log) && SavedAt(saved, log, q) && q <= |log|
    ensures NotHot(RebuildList(log[q..]), saved.keys + LogKeys(log[q..])) == []
  {
    TailReplays(saved, log, q);
    hide GoodLog, SavedAt, LogKeys, UniqueKeys, RebuildList, NotHot;
    TailIsHot(log[q..], saved.keys + LogKeys(log[q..]));
  }

  /** The index of an opened book is the machine's. */
  lemma {:induction false} OpenedStands(st: BookState, s': Sys.Sys, saved: Book, q: nat, dir: Idem.RunDir, listing: seq<nat>,
                                        writeOk: bool, stuck: set<nat>)
    requires DirStands(s'.runs, dir) && Lists(listing, dir) && s'.reg == s'.runs.Keys
    requires GoodLog(s'.log) && SavedAt(saved, s'.log, q) && q <= |s'.log|
    requires Attached(st, saved.keys + LogKeys(s'.log[q..]), dir, listing, s'.log[q..], writeOk, stuck)
    requires st.Model() == Fold(s'.log).(keys := st.idem.contents)
    requires s'.mem == Fold(s'.log).(keys := saved.keys + LogKeys(s'.log[q..]))
    ensures IndexStands(s'.mem, s'.runs, s'.reg, st) && DirKnown(s'.runs, st)
  {
    hide GoodLog, SavedAt, LogKeys, Fold, Replay, DirStands, Lists, RunsStand, NotHot, RebuildList;
    TailHot(s'.log, saved, q);
    AttachStands(s'.runs, saved.keys + LogKeys(s'.log[q..]), dir, listing, RebuildList(s'.log[q..]), writeOk, stuck);
  }

  /** Opening a book after a power loss, or after a kill that is settled, over run
      files and snapshots as the machine has them: it is never refused, and the
      writer it makes stands for the state the machine reopens to. */
  method Reopen(c: Codec, image: Disk, segmentMax: nat, snapshots: Snapshots, order: Book -> seq<string>, cap: nat,
                h1: string -> nat, h2: string -> nat, dir: Idem.RunDir, listing: seq<nat>, writeOk: bool, stuck: set<nat>,
                batchMax: nat, snapshotEvery: nat, ghost s: Sys.Sys, ghost torn: Option<seq<byte>>)
    returns (w: BookWriter?, ghost s': Sys.Sys, ghost pick: Option<nat>)
    requires Sound(c) && Reached(c, s) && Finds(c, s, image, torn)
    requires DirStands(s.runs, dir) && Lists(listing, dir) && SnapsStand(s.snaps, map[], snapshots.files, None)
    requires forall q :: q in snapshots.files && snapshots.files[q].Holding? ==>
      Idem.OrderOk(order(snapshots.files[q].state), snapshots.files[q].state.keys)
    ensures pick.Some? ==> pick.value in s.snaps
    ensures Sys.Next(c, s, Ending(image, torn, pick)) == Some(s') && Reached(c, s')
    ensures w != null && fresh(w) && w.Valid() && w.Stands(s') && DirKnown(s'.runs, w.state)
    ensures w.log <= s.log && if torn.None? then s.dur <= |w.log| else w.log == s.log
  {
    hide Sys.Inv, Sys.Next, Sys.Settled, Sys.DiskInv, Reached, Finds, DirStands, Lists, SnapsStand, GoodLog, LogKeys, Fold,
      Replay, Idem.OrderOk, SavedAt, StoredAll, Sys.IsFold, DamagedFrom, Recoverable, Attached, DirOk, IndexStands, Repair,
      Safety.StartFrom, Findable, Idem.Tiers, Tidy, DirKnown;
    ReachedInv(c, s);
    var loaded := LoadLatest(snapshots.files);
    PickStands(s, snapshots.files, loaded);
    pick := if loaded.Some? then Some(loaded.value.1) else None;
    s' := EndingNext(c, s, image, torn, pick);
    ReachedNext(c, s, Ending(image, torn, pick));
    FilesFit(c, s, s', pick, dir);
    StoredFit(s, pick, s'.log, dir);
    var saved, q, oldest := EmptyBook, 0, [];
    assert Idem.OrderOk([], map[]) by { EmptyOrder(); }
    if loaded.Some? {
      saved, q, oldest := loaded.value.0, loaded.value.1, order(loaded.value.0);
    }
    var st, segs := OpenBook(c, image, segmentMax, saved, oldest, q, cap, h1, h2, dir, listing, writeOk, stuck,
      s'.log, s'.dur, dir);
    AllRecoverable(s.runs, saved, LogKeys(s'.log[..q]), dir, listing);
    OpenedStands(st, s', saved, q, dir, listing, writeOk, stuck);
    FoldStamps(s'.log);
    w := new BookWriter(st, segs, snapshots, batchMax, snapshotEvery, s'.log);
    assert SnapsStand(s'.snaps, s'.clones, snapshots.files, None);
  }

  lemma {:induction false} EmptyOrder()
    ensures Idem.OrderOk([], map[])
  {
  }

  // ------------------------------------------------------------------
  // What the machine's results say of the writer
  // ------------------------------------------------------------------

  /** A writer over an empty directory stands for the empty store. */
  lemma {:induction false} FreshStands(w: BookWriter)
    requires w.segments.files == FreshDisk && w.log == [] && w.inflight.None? && w.snapshots.files == map[]
    requires w.state.Model() == EmptyBook && w.state.idem.hot == map[] && w.state.idem.disk == map[] && w.state.idem.runs == []
    ensures w.Stands(Sys.Fresh) && Reached(w.segments.codec, Sys.Fresh)
  {
    FreshReached(w.segments.codec);
    assert Numbers([]) == {};
    assert EmptyBook.(keys := map[]) == EmptyBook;
  }

  /** Between batches a power loss, and a kill, leave what `Reopen` asks for. */
  lemma {:induction false} IndexOf(pairs: seq<Pair>, contents: Idem.Index) returns (file: Idem.Index)
    requires pairs != [] && Sorted(pairs) && Idem.PairsIn(pairs, contents)
    ensures SameRun(file, pairs)
  {
    hide Sorted, HasKey;
    file := map k | k in contents && HasKey(pairs, k) :: contents[k];
    forall p | p in pairs
      ensures HasKey(pairs, p.0)
    {
      HasKeyIn(pairs, p.0);
    }
  }

  lemma {:induction false} RunsFor(disk: Idem.RunDir, metas: seq<Idem.RunMeta>, contents: Idem.Index) returns (runs: Sys.Runs)
    requires Idem.RunsOk(disk, metas, contents)
    ensures RunsStand(runs, Numbers(metas), disk, metas)
    decreases |metas|
  {
    hide Sorted, HasKey, SameRun;
    if metas == [] {
      runs := map[];
      NoNumbers();
    } else {
      var front, m := metas[..|metas| - 1], metas[|metas| - 1];
      assert Idem.RunOk(disk, metas[|metas| - 1], contents);
      var rest := RunsFor(disk, front, contents);
      var file := IndexOf(disk[m.n].pairs, contents);
      runs := rest[m.n := file];
      assert forall x :: x in metas <==> x in front || x == m;
      assert Numbers(metas) == Numbers(front) + {m.n};
    }
  }

  /** Every writer has a machine that stands for it. */
  lemma {:induction false} SomeStands(w: BookWriter) returns (s: Sys.Sys)
    requires w.Valid()
    ensures w.Stands(s)
  {
    hide GoodLog, Sys.DiskInv, CloneOk, RunsStand, Idem.RunsOk, Tidy, Idem.OrderOk, Idem.InRuns;
    var idem, files, inflight := w.state.idem, w.snapshots.files, w.inflight;
    var runs := RunsFor(idem.disk, idem.runs, idem.contents);
    var snaps := map q | q in files && files[q].Holding? :: files[q].state;
    var clones := if inflight.Some? then map[inflight.value.1 := inflight.value.0] else map[];
    s := Sys.Sys(w.segments.files, w.Saved(), runs, Numbers(idem.runs), snaps, clones, Sys.Idle, w.log, |w.log|, {});
  }

  lemma {:induction false} StandingFinds(w: BookWriter, s: Sys.Sys, image: Disk)
    requires w.Valid() && w.Stands(s) && Reached(w.segments.codec, s)
    ensures CrashImage(w.segments.files, image) ==> Finds(w.segments.codec, s, image, None)
    ensures Finds(w.segments.codec, s, w.segments.files, Some([]))
  {
    hide GoodLog, CrashImage, AppendBytes, CloneOk, IndexStands, SnapsStand, Reached, Idem.Tiers, Tidy;
    var c := w.segments.codec;
    ReachedInv(c, s);
    NothingAppended(c, s.disk);
    Safety.KillStep(c, s, [], None);
    hide Sys.Inv, Sys.DiskInv, Sys.CanTear, AllSynced, Replay;
    assert Sys.Settled(s, Sys.Kill([], None));
  }

  /** And so does a writer that stopped in a batch, for the states it stopped in. A
      restart without a power loss must have torn a frame or found the file synced. */
  lemma {:induction false} StoppedFinds(w: BookWriter, s: Sys.Sys, s': Sys.Sys, torn: seq<byte>, lost: Sys.Sys, image: Disk)
    requires w.Stopped(s, s', torn, lost)
    ensures CrashImage(w.segments.files, image) ==> Finds(w.segments.codec, lost, image, None)
    ensures torn != [] || AllSynced(s'.disk) ==> Finds(w.segments.codec, s', w.segments.files, Some(torn))
  {
    hide CrashImage, AppendBytes, Sys.CanTear, AllSynced;
  }

  /** Every Ok answer a writer ever gave names the one event of its log that posts
      the key, and its index answers a retry with that event's record. */
  lemma {:induction false} AnswersStand(w: BookWriter, s: Sys.Sys, a: Sys.Ack) returns (i: nat)
    requires w.Valid() && w.Stands(s) && Reached(w.segments.codec, s) && a in s.acks
    ensures i < |w.log| && Guarantees.PostsKey(w.log, i, a.key)
    ensures a.rec == Committed(w.log[i].ev.event.tx.id, i + 1, w.log[i].ev.at)
    ensures forall j :: 0 <= j < |w.log| && Guarantees.PostsKey(w.log, j, a.key) ==> j == i
    ensures a.key in w.state.Model().keys && w.state.Model().keys[a.key] == a.rec
  {
    hide CloneOk, IndexStands, SnapsStand, Idem.Tiers, Tidy, Sys.DiskInv, GoodLog, Guarantees.PostsKey;
    var c := w.segments.codec;
    var ls :| Sys.Orderly(c, ls) && Sys.Run(c, ls) == Some(s);
    hide Sys.Orderly, Sys.Run;
    i := Guarantees.ExactlyOnce(c, ls, a);
    FoldStamps(w.log);
    AnswerInLog(c, s, a);
  }

  lemma {:induction false} AnswerInLog(c: Codec, s: Sys.Sys, a: Sys.Ack)
    requires Sound(c) && Reached(c, s) && s.phase.Idle? && a in s.acks
    ensures a.key in LogKeys(s.log) && LogKeys(s.log)[a.key] == a.rec
  {
    hide LogKeys, GoodLog, Sys.DiskInv, Sys.IsFold, Sys.BooksInv, Sys.RunsInv, Reached;
    ReachedInv(c, s);
    assert s.log[..|s.log|] == s.log;
  }
}
