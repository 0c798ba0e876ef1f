/**
 A process killed without power loss: the files keep every byte written, synced
 or not, and a reopen that finds the active file clean does not sync it. When that
 is safe, exactly, and what it costs when it is not.
 */
module KilledRestarts {
  import opened LedgerTypes
  import opened AccountKeys
  import opened Frames
  import opened Segments
  import opened SegmentReads
  import opened Books
  import opened Batches
  import opened Histories
  import opened System
  import opened StoreRuns
  import opened StoreSafety
  import opened StoreGuarantees

  // ------------------------------------------------------------------
  // The promise
  // ------------------------------------------------------------------

  /** Memory and index are the replay of the log up to the applied event, and every
      Ok answer ever given names its event there. */
  ghost predicate TellsTruth(s: Sys) {
    var n := AppliedCount(s);
    0 <= n <= |s.log| && Replay(EmptyBook, s.log[..n]) == Some(Full(s)) && AcksInv(s.acks, s.log, n)
  }

  /** And that stays so whatever happens next, power losses and settled kills
      included. */
  ghost predicate StaysTrue(c: Codec, s: Sys) {
    forall ls :: RunFrom(c, s, ls).Some? && SettledFrom(c, s, ls) ==> TellsTruth(RunFrom(c, s, ls).value)
  }

  lemma {:induction false} InvTellsTruth(c: Codec, s: Sys)
    requires Inv(c, s)
    ensures TellsTruth(s)
  {
    InvParts(c, s);
    hide Inv, Full, GoodLog, Replay, IsFold, BooksInv, RunsInv, AcksInv;
    FullIsFold(s, s.log);
    GoodReplays(s.log[..AppliedCount(s)]);
  }

  lemma {:induction false} InvStaysTrue(c: Codec, s: Sys)
    requires Sound(c) && Inv(c, s)
    ensures StaysTrue(c, s)
  {
    hide Inv, TellsTruth, RunFrom, SettledFrom;
    forall ls | RunFrom(c, s, ls).Some? && SettledFrom(c, s, ls)
      ensures TellsTruth(RunFrom(c, s, ls).value)
    {
      ContinuedKeeps(c, s, ls);
      InvTellsTruth(c, RunFrom(c, s, ls).value);
    }
  }

  // ------------------------------------------------------------------
  // A power loss after the restart
  // ------------------------------------------------------------------

  /** The power loss that keeps no byte beyond the synced ones. */
  function CutToSynced(d: Disk): Disk
    requires d != [] && Last(d).synced <= |Last(d).bytes|
  {
    WithLast(d, SegFile(Last(d).base, Last(d).bytes[..Last(d).synced], Last(d).synced, true))
  }

  lemma {:induction false} SealedAllSynced(c: Codec, d: Disk, es: seq<WireEvent>, i: nat)
    requires Sealed(c, d, es) && i < |d|
    ensures d[i].synced == |d[i].bytes| && d[i].linked
  {
    if i < |d| - 1 {
      SealedAllSynced(c, Front(d), es[..Last(d).base - 1], i);
    }
  }

  lemma {:induction false} CutIsImage(c: Codec, d: Disk, es: seq<WireEvent>)
    requires Holds(c, d, es) && Last(d).synced <= |Last(d).bytes|
    ensures CrashImage(d, CutToSynced(d))
  {
    var image := CutToSynced(d);
    forall i | 0 <= i < |d|
      ensures CutFile(d[i], image[i])
    {
      if i < |d| - 1 {
        SealedAllSynced(c, Front(d), es[..Last(d).base - 1], i);
        assert image[i] == d[i];
      }
    }
  }

  lemma {:induction false} CutShare(c: Codec, es: seq<WireEvent>, lo: nat, n: nat)
    requires lo <= n <= |es|
    ensures |Stream(c, es[lo..n])| <= |Stream(c, es[lo..])|
    ensures Stream(c, es[lo..])[..|Stream(c, es[lo..n])|] == Stream(c, es[..n][lo..])
  {
    hide Stream;
    StreamSplit(c, es[lo..], n - lo);
    assert es[lo..][..n - lo] == es[lo..n] == es[..n][lo..];
  }

  /** It leaves exactly the durable events. */
  lemma {:induction false} CutHolds(c: Codec, d: Disk, es: seq<WireEvent>, n: nat)
    requires Holds(c, d, es) && Durable(c, d, es, n)
    ensures Last(d).synced <= |Last(d).bytes|
    ensures Holds(c, CutToSynced(d), es[..n]) && SameBases(d, CutToSynced(d))
  {
    var lo := Last(d).base - 1;
    hide Stream, Sealed;
    CutShare(c, es, lo, n);
    assert es[..n][..lo] == es[..lo];
    assert Front(CutToSynced(d)) == Front(d);
  }

  /** What reopening finds after that loss. */
  lemma {:induction false} CutDisk(c: Codec, d: Disk, log: seq<Placed>, dur: nat)
    requires Sound(c) && DiskInv(c, d, log, dur) && dur <= |log|
    ensures d != [] && Last(d).synced <= |Last(d).bytes| && CrashImage(d, CutToSynced(d))
    ensures Repair(c, CutToSynced(d)).Some? && DiskInv(c, Repair(c, CutToSynced(d)).value, log[..dur], dur)
    ensures AllSynced(Repair(c, CutToSynced(d)).value)
  {
    var es := Events(log);
    HoldsSomething(c, d, es);
    CutHolds(c, d, es, dur);
    var image := CutToSynced(d);
    CutIsImage(c, d, es);
    assert Last(d).base - 1 <= dur && Splits(c, d, es) && AllSynced(image);
    hide Stream, Sealed, Holds, Repair, CutToSynced, Durable, PlacedLog, CrashImage, AllSynced;
    HoldsShows(c, image, es[..dur]);
    RepairSynced(c, image, es[..dur]);
    assert Events(log[..dur]) == es[..dur];
    CutKeepsPlaces(c, d, es, image, dur);
    PlacesFollowBases(c, image, Repair(c, image).value, es[..dur]);
    SyncedExactly(c, Repair(c, image).value, es[..dur], dur);
  }

  lemma {:induction false} EmptyStart(log: seq<Placed>, runs: Runs, reg: set<nat>)
    ensures IsFold(EmptyBook, log, 0, runs, reg)
  {
    assert log[..0] == [];
    FreshFold(runs, reg);
  }

  lemma {:induction false} KeyBeyond(log: seq<Placed>, n: nat, i: nat)
    requires UniqueKeys(log) && n <= i < |log| && log[i].ev.event.TransactionPosted?
    ensures log[i].ev.event.tx.key !in LogKeys(log[..n])
  {
    var key := log[i].ev.event.tx.key;
    PrefixKeys(log, n);
    PostedIsKey(log, i);
    if key in LogKeys(log[..n]) {
      var j := KeyNamesEvent(log[..n], key);
      assert log[j] == log[..n][j];
      var k := KeyNamesEvent(log, key);
    }
  }

  // ------------------------------------------------------------------
  // The restarted store
  // ------------------------------------------------------------------

  /** Restarted after a kill between two frames, from whatever snapshot: every
      event is back, in memory and in the index, but no more of them is durable. */
  lemma {:induction false} KilledKnows(c: Codec, s: Sys, pick: Option<nat>)
    requires Sound(c) && Inv(c, s) && s.disk != [] && (pick.Some? ==> pick.value in s.snaps)
    ensures Next(c, s, Kill([], pick)).Some?
    ensures var k := Next(c, s, Kill([], pick)).value;
      && k.phase.Idle? && k.log == s.log && k.dur == s.dur && k.disk != []
      && DiskInv(c, k.disk, s.log, s.dur) && GoodLog(s.log)
      && k.mem.nextSeq == |s.log| + 1 && Full(k).keys == LogKeys(s.log)
  {
    KillStep(c, s, [], pick);
    CrashFacts(c, s, |s.log|);
    var d := Repair(c, AppendBytes(s.disk, [])).value;
    var k := Reopened(s, d, pick, |s.log|);
    assert AllSynced(s.disk) ==> s.dur == |s.log|;
    hide Inv, DiskInv, GoodLog, MemInv, Next, Repair, Fold, Replay, LogKeys, IsFold, Reopened, StartFrom, AllSynced;
    DiskCounts(c, k.disk, s.log, k.dur);
    StartSurvives(s, pick, |s.log|);
    ReopenedMemory(s, d, pick, |s.log|);
    ReopenedFiles(s, |s.log|);
    RestartedCovers(s, d, pick);
  }

  lemma {:induction false} RestartedCovers(s: Sys, d: Disk, pick: Option<nat>)
    requires (pick.Some? ==> pick.value in s.snaps) && Picked(pick) <= |s.log| && s.log[..|s.log|] == s.log
    requires Replay(EmptyBook, s.log).Some? && RunsInv(s.runs, s.log, |s.log|)
    requires var k := Reopened(s, d, pick, |s.log|);
      IsFold(k.mem, s.log, |s.log|, s.runs, s.runs.Keys)
    ensures var k := Reopened(s, d, pick, |s.log|);
      k.phase.Idle? && k.log == s.log && Full(k).keys == LogKeys(s.log)
  {
    hide Fold, Replay, LogKeys, GoodLog, Lookups, StartFrom, AllSynced, InReg;
    var k := Reopened(s, d, pick, |s.log|);
    CoveredLookups(k.mem.keys, s.runs, s.runs.Keys, LogKeys(s.log));
  }

  // ------------------------------------------------------------------
  // A snapshot ahead of the log
  // ------------------------------------------------------------------

  /** The restarted store takes a snapshot of all it knows and loses power. */
  function SnapshotThenCut(d: Disk, q: nat): seq<Label>
    requires d != [] && Last(d).synced <= |Last(d).bytes|
  {
    [CloneState, WriteSnapshot(q), Crash(CutToSynced(d), Some(q))]
  }

  /** A snapshot taken of unsynced events outlives them: the log is cut back to its
      durable part, and a reopen from the snapshot is ahead of it. */
  lemma {:induction false} AheadOfLog(c: Codec, k: Sys, q: nat)
    requires Sound(c) && DiskInv(c, k.disk, k.log, k.dur) && GoodLog(k.log) && k.dur <= q
    requires k.dur <= |k.log| && q in k.snaps && k.snaps[q].nextSeq == q + 1
    ensures k.disk != [] && Last(k.disk).synced <= |Last(k.disk).bytes|
    ensures var r := Next(c, k, Crash(CutToSynced(k.disk), Some(q)));
      r.Some? && r.value.log == k.log[..k.dur] && r.value.mem.nextSeq == q + 1
  {
    hide DiskInv, GoodLog, CrashImage, Repair, ScanAllFrom, CutToSynced, AllSynced, Recover, Next, Reload;
    CutDisk(c, k.disk, k.log, k.dur);
    GoodPrefix(k.log, k.dur);
    var image, log := CutToSynced(k.disk), k.log[..k.dur];
    BothScans(c, Repair(c, image).value, log, q);
    CrashNext(c, k, image, Some(q));
    RecoverAhead(c, k, image, q, log);
  }

  lemma {:induction false} BothScans(c: Codec, d: Disk, log: seq<Placed>, q: nat)
    requires Sound(c) && DiskInv(c, d, log, |log|) && GoodLog(log) && q >= |log|
    ensures d != [] && ScanAllFrom(c, d, q + 1) == Some([]) && ScanAllFrom(c, d, 1) == Some(log)
  {
    assert Ordered(log);
    hide DiskInv, GoodLog, ScanAllFrom, Ordered;
    ScanIsSuffix(c, d, log, |log|, q);
    ScanIsSuffix(c, d, log, |log|, 0);
    WholeAndNone(log);
  }

  lemma {:induction false} WholeAndNone(log: seq<Placed>)
    ensures log[0..] == log && log[|log|..] == []
  {
  }

  lemma {:induction false} RecoverAhead(c: Codec, k: Sys, image: Disk, q: nat, log: seq<Placed>)
    requires q in k.snaps && Repair(c, image).Some? && Repair(c, image).value != []
    requires ScanAllFrom(c, Repair(c, image).value, q + 1) == Some([])
    requires ScanAllFrom(c, Repair(c, image).value, 1) == Some(log)
    ensures var r := Recover(c, k, image, Some(q));
      r.Some? && r.value.log == log && r.value.mem.nextSeq == k.snaps[q].nextSeq
  {
    hide Repair, ScanAllFrom, AllSynced;
    assert Replay(Reload(k.snaps[q]), []) == Some(Reload(k.snaps[q]));
  }

  /** The three steps, from an unsynced restart. */
  lemma {:induction false} SnapshotAhead(c: Codec, k: Sys)
    requires Sound(c) && DiskInv(c, k.disk, k.log, k.dur) && GoodLog(k.log)
    requires k.phase.Idle? && k.dur < |k.log| && k.mem.nextSeq == |k.log| + 1
    ensures k.disk != [] && Last(k.disk).synced <= |Last(k.disk).bytes|
    ensures var ls := SnapshotThenCut(k.disk, |k.log|);
      && RunFrom(c, k, ls).Some? && SettledFrom(c, k, ls)
      && RunFrom(c, k, ls).value.log == k.log[..k.dur] && RunFrom(c, k, ls).value.mem.nextSeq == |k.log| + 1
  {
    var q := |k.log|;
    var k1 := k.(clones := k.clones[q := k.mem]);
    var k2 := k1.(snaps := k1.snaps[q := k.mem]);
    hide DiskInv, GoodLog, CutToSynced, CrashImage, Repair, AllSynced, Next, RunFrom, SettledFrom;
    AheadOfLog(c, k2, q);
    TakesSnapshot(c, k);
    ThreeSteps(c, k, k1, k2, SnapshotThenCut(k.disk, q));
  }

  lemma {:induction false} TakesSnapshot(c: Codec, k: Sys)
    requires k.phase.Idle? && k.mem.nextSeq == |k.log| + 1 > 1
    ensures var q := |k.log|;
      var k1 := k.(clones := k.clones[q := k.mem]);
      && Next(c, k, CloneState) == Some(k1)
      && Next(c, k1, WriteSnapshot(q)) == Some(k1.(snaps := k1.snaps[q := k.mem]))
  {
  }

  lemma {:induction false} ThreeSteps(c: Codec, k: Sys, k1: Sys, k2: Sys, ls: seq<Label>)
    requires |ls| == 3 && Next(c, k, ls[0]) == Some(k1) && Next(c, k1, ls[1]) == Some(k2)
    requires !ls[0].Kill? && !ls[1].Kill? && !ls[2].Kill?
    ensures RunFrom(c, k, ls) == Next(c, k2, ls[2]) && SettledFrom(c, k, ls)
  {
    hide Next;
    var one, two := ls[..1], ls[..2];
    assert ls[..2][..1] == one && one[..0] == [];
    assert RunFrom(c, k, one[..0]) == Some(k);
    assert RunFrom(c, k, one) == Some(k1) && SettledFrom(c, k, one);
    assert RunFrom(c, k, two) == Some(k2) && SettledFrom(c, k, two);
  }

  // ------------------------------------------------------------------
  // Exactly when a kill is safe
  // ------------------------------------------------------------------

  /** A killed store restarts, from any retained snapshot or none, and stays true to
      its log and its answers, if and only if the kill tore a frame or found the
      active file synced: if no event was written and not yet synced. */
  lemma {:induction false} KilledExactly(c: Codec, s: Sys, torn: seq<byte>, pick: Option<nat>)
    requires Sound(c) && Inv(c, s) && s.disk != [] && CanTear(c, s.disk, torn)
    requires pick.Some? ==> pick.value in s.snaps
    ensures Next(c, s, Kill(torn, pick)).Some?
    ensures StaysTrue(c, Next(c, s, Kill(torn, pick)).value) <==> Settled(s, Kill(torn, pick))
    ensures Settled(s, Kill(torn, pick)) <==> torn != [] || s.dur == |s.log|
  {
    KillStep(c, s, torn, pick);
    DurWithin(c, s);
    var k := Next(c, s, Kill(torn, pick)).value;
    hide Inv, DiskInv, Next, CanTear, Repair, Reopened, Replay, AllSynced, RunFrom, SettledFrom;
    if Settled(s, Kill(torn, pick)) {
      InvStaysTrue(c, k);
    } else {
      hide GoodLog, LogKeys, Full, Settled;
      KilledKnows(c, s, pick);
      SnapshotAhead(c, k);
      assert !TellsTruth(RunFrom(c, k, SnapshotThenCut(k.disk, |k.log|)).value);
    }
  }

  /** What the snapshot costs: after that power loss the store knows more events
      than its log has, and numbers the next one past the gap. */
  lemma {:induction false} SnapshotLeavesGap(c: Codec, s: Sys, pick: Option<nat>, asset: string, body: string, now: int)
    requires Sound(c) && Inv(c, s) && s.disk != [] && s.dur < |s.log| && (pick.Some? ==> pick.value in s.snaps)
    ensures Next(c, s, Kill([], pick)).Some?
    ensures var k := Next(c, s, Kill([], pick)).value;
      && k.disk != [] && Last(k.disk).synced <= |Last(k.disk).bytes|
      && var r := RunFrom(c, k, SnapshotThenCut(k.disk, |s.log|));
         && r.Some? && |r.value.log| == s.dur
         && Classify(Full(r.value), [RegisterAsset(asset, body)], now, [now]).staged ==
            [WireEvent(|s.log| + 1, Max(Max(now, Floor(r.value.mem)), now), LedgerEvent.AssetRegistered(asset, body))]
  {
    hide Inv, DiskInv, GoodLog, Next, LogKeys, RunFrom, SettledFrom, Lookups, SnapshotThenCut, Full, Classify;
    KilledKnows(c, s, pick);
    var k := Next(c, s, Kill([], pick)).value;
    SnapshotAhead(c, k);
    var r := RunFrom(c, k, SnapshotThenCut(k.disk, |s.log|)).value;
    NextNumber(Full(r), asset, body, now);
    FullKeepsTime(r);
  }

  lemma {:induction false} FullKeepsTime(s: Sys)
    ensures Floor(Full(s)) == Floor(s.mem) && Full(s).nextSeq == s.mem.nextSeq
  {
    hide Lookups;
  }

  lemma {:induction false} NextNumber(b: Book, asset: string, body: string, now: int)
    ensures Classify(b, [RegisterAsset(asset, body)], now, [now]).staged ==
      [WireEvent(b.nextSeq, Max(Max(now, Floor(b)), now), LedgerEvent.AssetRegistered(asset, body))]
  {
    assert [RegisterAsset(asset, body)][..0] == [] && [now][..0] == [];
    assert Classify(b, [], now, []) == Start(b, now);
  }

  // ------------------------------------------------------------------
  // A lost answer
  // ------------------------------------------------------------------

  /** The four steps of a batch that holds one retried commit. */
  ghost function Retried(c: Codec, s: Sys, tx: Transaction): Option<Sys> {
    match Next(c, s, Begin([Commit(tx)], 0, [0]))
    case None => None
    case Some(s1) =>
      match Next(c, s1, SyncBatch)
      case None => None
      case Some(s2) =>
        match Next(c, s2, ApplyBatch)
        case None => None
        case Some(s3) => Next(c, s3, ReplyAll)
  }

  /** A lone retry of a known key stages nothing. */
  lemma {:induction false} RetryAlone(b: Book, tx: Transaction)
    requires tx.key in b.keys
    ensures var acc := Classify(b, [Commit(tx)], 0, [0]);
      acc.staged == [] && acc.slots == [Dup(b.keys[tx.key])]
  {
    assert [Commit(tx)][..0] == [] && [0][..0] == [];
    assert Classify(b, [], 0, []) == Start(b, 0);
    hide Judge, Project, Seeded, Raws, TermsOf;
  }

  lemma {:induction false} AckOfRetry(tx: Transaction, rec: Committed, acc: Batch)
    requires acc.staged == [] && acc.slots == [Dup(rec)]
    ensures Ack(tx.key, rec) in AcksOf([Commit(tx)], acc)
  {
    assert Answer([Commit(tx)][0], acc.slots[0], acc.staged) == Some(rec);
  }

  /** The retry is answered Ok without any sync. */
  lemma {:induction false} RetryIsAnswered(c: Codec, s: Sys, tx: Transaction)
    requires s.phase.Idle? && s.disk != [] && tx.key in Full(s).keys
    ensures var r := Retried(c, s, tx);
      && r.Some? && Ack(tx.key, Full(s).keys[tx.key]) in r.value.acks
      && r.value == s.(acks := r.value.acks)
  {
    var acc := Classify(Full(s), [Commit(tx)], 0, [0]);
    RetryAlone(Full(s), tx);
    AckOfRetry(tx, Full(s).keys[tx.key], acc);
    hide Classify, Full, AcksOf;
    assert s.log[|s.log| - 0..] == [];
    assert Replay(s.mem, []) == Some(s.mem);
  }

  /** Reopening after the cut: the log is the durable part, the key is gone. */
  lemma {:induction false} CutForgets(c: Codec, r: Sys, i: nat)
    requires Sound(c) && DiskInv(c, r.disk, r.log, r.dur) && GoodLog(r.log)
    requires r.dur <= i < |r.log| && r.log[i].ev.event.TransactionPosted?
    ensures r.disk != [] && Last(r.disk).synced <= |Last(r.disk).bytes|
    ensures var image := CutToSynced(r.disk);
      && CrashImage(r.disk, image) && Next(c, r, Crash(image, None)).Some?
      && Next(c, r, Crash(image, None)).value.log == r.log[..r.dur]
      && r.log[i].ev.event.tx.key !in LogKeys(r.log[..r.dur])
  {
    CutDisk(c, r.disk, r.log, r.dur);
    GoodPrefix(r.log, r.dur);
    assert UniqueKeys(r.log) && Replay(EmptyBook, r.log[..r.dur]).Some?;
    KeyBeyond(r.log, r.dur, i);
    EmptyStart(r.log[..r.dur], r.runs, r.reg);
    hide DiskInv, GoodLog, CrashImage, Repair, Recover, Next, IsFold, LogKeys, UniqueKeys, CutToSynced, Replay,
      Reopened, AllSynced;
    var image := CutToSynced(r.disk);
    RecoverIs(c, r, image, None, r.dur, r.dur);
    ReopenedParts(r, Repair(c, image).value, None, r.dur);
    CrashNext(c, r, image, None);
  }

  /** Killed with a transaction written but not synced: after the restart a retry of
      it is answered Ok with no sync in between, and a power loss can then take
      the transaction away. */
  lemma KilledLosesAck(c: Codec, s: Sys, pick: Option<nat>, i: nat) returns (image: Disk)
    requires Sound(c) && Inv(c, s) && s.disk != [] && (pick.Some? ==> pick.value in s.snaps)
    requires s.dur <= i < |s.log| && s.log[i].ev.event.TransactionPosted?
    ensures Next(c, s, Kill([], pick)).Some?
    ensures var tx := s.log[i].ev.event.tx;
      var r := Retried(c, Next(c, s, Kill([], pick)).value, tx);
      && r.Some? && Ack(tx.key, RecordOf(s.log[i].ev)) in r.value.acks
      && CrashImage(r.value.disk, image) && Next(c, r.value, Crash(image, None)).Some?
      && tx.key !in LogKeys(Next(c, r.value, Crash(image, None)).value.log)
  {
    KilledKnows(c, s, pick);
    assert UniqueKeys(s.log);
    PostedRecord(s.log, i);
    var tx, k := s.log[i].ev.event.tx, Next(c, s, Kill([], pick)).value;
    hide Inv, DiskInv, GoodLog, Full, Retried, CrashImage, Next, LogKeys, UniqueKeys, CutToSynced, Replay, Fold;
    RetryIsAnswered(c, k, tx);
    var r := Retried(c, k, tx).value;
    CutForgets(c, r, i);
    image := CutToSynced(r.disk);
  }

  // ------------------------------------------------------------------
  // A run that gets there
  // ------------------------------------------------------------------

  const Lone: Transaction := Transaction(1, "b", [], "k", "")

  const LoneEvent: WireEvent := WireEvent(1, 0, TransactionPosted(Lone))

  /** Killed after the first frame of a new store was written, before it was
      synced. */
  const Hasty: seq<Label> := [Begin([Commit(Lone)], 0, [0]), AppendNext]

  lemma {:induction false} LoneStaged(b: Book)
    requires b == EmptyBook
    ensures Classify(b, [Commit(Lone)], 0, [0]).staged == [LoneEvent]
  {
    assert [Commit(Lone)][..0] == [] && [0][..0] == [];
    assert Classify(b, [], 0, []) == Start(b, 0);
    assert Project(Overlay(b, map[]), []) == Projected(Overlay(b, map[]));
    assert Touched([]) == {};
    assert Violators(TermsOf(b.accounts), Overlay(b, map[]), {}) == map[];
  }

  lemma {:induction false} FreshIsEmpty()
    ensures Full(Fresh) == EmptyBook
  {
    assert RegKeys(map[], {}) == {};
    assert Lookups(map[], map[], {}) == map[];
  }

  /** Such a kill is reachable, in two steps from a new store, whenever the first
      event can be encoded; and it is not safe. */
  lemma {:induction false} HastyKill(c: Codec)
    requires Sound(c) && Encodable(c, LoneEvent)
    ensures Orderly(c, Hasty)
    ensures var s := Run(c, Hasty).value;
      && Inv(c, s) && s.dur == 0 && Events(s.log) == [LoneEvent]
      && Next(c, s, Kill([], None)).Some? && !StaysTrue(c, Next(c, s, Kill([], None)).value)
  {
    HastyRun(c);
    hide Inv, Next, StaysTrue, Encodable, RunFrom, SettledFrom;
    RunKeeps(c, Hasty);
    var s := Run(c, Hasty).value;
    KilledExactly(c, s, [], None);
  }

  lemma {:induction false} HastyRun(c: Codec)
    requires Encodable(c, LoneEvent)
    ensures Orderly(c, Hasty)
    ensures var s := Run(c, Hasty).value;
      s.disk != [] && s.dur == 0 && Events(s.log) == [LoneEvent]
  {
    FreshIsEmpty();
    LoneStaged(EmptyBook);
    hide Full, Classify, Frame, Encodable;
    assert Hasty[..1] == [Begin([Commit(Lone)], 0, [0])] && Hasty[..1][..0] == [];
    assert RunFrom(c, Fresh, Hasty[..1][..0]) == Some(Fresh);
    var acc := Classify(EmptyBook, [Commit(Lone)], 0, [0]);
    assert RunFrom(c, Fresh, Hasty[..1]) == Some(Fresh.(phase := Writing([Commit(Lone)], acc, 0)));
    assert SettledFrom(c, Fresh, Hasty[..1]);
  }
}
