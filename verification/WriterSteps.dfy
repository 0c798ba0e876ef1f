/**
 What the in-place writer does to its files and its index is a run of the store
 machine: rotations and appends, however far they get, the sync, the apply, a spill
 or merge with whatever it leaves behind, and snapshots with what pruning removes.
 */
module WriterSteps {
  import opened LedgerTypes
  import opened Frames
  import opened Segments
  import opened SegmentReads
  import opened SegmentSets
  import opened KeyOrder
  import opened Books
  import opened Batches
  import opened Histories
  import opened Snapshots
  import opened System
  import Idem = IdemSpill
  import Tiered = TieredIndex
  import Safety = StoreSafety

  // ------------------------------------------------------------------
  // Runs of steps
  // ------------------------------------------------------------------

  ghost predicate Quiet(ls: seq<Label>) {
    forall i :: 0 <= i < |ls| ==> !ls[i].Crash? && !ls[i].Kill?
  }

  /** The machine gets from one state to the other by steps of its own. */
  ghost predicate Works(c: Codec, s: Sys, s': Sys) {
    exists ls :: Quiet(ls) && RunFrom(c, s, ls) == Some(s')
  }

  /** Some orderly run of a store ends here. */
  ghost predicate Reached(c: Codec, s: Sys) {
    exists ls :: Orderly(c, ls) && Run(c, ls) == Some(s)
  }

  lemma {:induction false} WorksSelf(c: Codec, s: Sys)
    ensures Works(c, s, s)
  {
    hide Next;
    assert RunFrom(c, s, []) == Some(s);
    assert Quiet([]);
  }

  lemma {:induction false} WorksStep(c: Codec, s: Sys, s': Sys, l: Label)
    requires Works(c, s, s') && Next(c, s', l).Some? && !l.Crash? && !l.Kill?
    ensures Works(c, s, Next(c, s', l).value)
  {
    hide Next;
    var ls :| Quiet(ls) && RunFrom(c, s, ls) == Some(s');
    var all := ls + [l];
    assert all[..|all| - 1] == ls && Quiet(all);
    assert RunFrom(c, s, all) == Next(c, s', l);
  }

  lemma {:induction false} OneStep(c: Codec, s: Sys, l: Label)
    requires Next(c, s, l).Some? && !l.Crash? && !l.Kill?
    ensures Works(c, s, Next(c, s, l).value)
  {
    hide Next, Works;
    WorksSelf(c, s);
    WorksStep(c, s, s, l);
  }

  lemma {:induction false} RunsOn(c: Codec, s: Sys, ks: seq<Label>, ls: seq<Label>)
    requires RunFrom(c, s, ks).Some?
    ensures RunFrom(c, s, ks + ls) == RunFrom(c, RunFrom(c, s, ks).value, ls)
  {
    hide Next;
    if ls == [] {
      assert ks + ls == ks;
    } else {
      RunsOn(c, s, ks, ls[..|ls| - 1]);
      assert (ks + ls)[..|ks + ls| - 1] == ks + ls[..|ls| - 1];
    }
  }

  lemma {:induction false} WorksThrough(c: Codec, a: Sys, b: Sys, d: Sys)
    requires Works(c, a, b) && Works(c, b, d)
    ensures Works(c, a, d)
  {
    hide RunFrom;
    var ks :| Quiet(ks) && RunFrom(c, a, ks) == Some(b);
    var ls :| Quiet(ls) && RunFrom(c, b, ls) == Some(d);
    RunsOn(c, a, ks, ls);
    assert Quiet(ks + ls);
  }

  lemma {:induction false} QuietSettles(c: Codec, ks: seq<Label>, ls: seq<Label>)
    requires SettledFrom(c, Fresh, ks) && Quiet(ls)
    ensures SettledFrom(c, Fresh, ks + ls)
  {
    hide RunFrom, AllSynced;
    if ls == [] {
      assert ks + ls == ks;
    } else {
      QuietSettles(c, ks, ls[..|ls| - 1]);
      assert (ks + ls)[..|ks + ls| - 1] == ks + ls[..|ls| - 1];
      assert (ks + ls)[|ks + ls| - 1] == ls[|ls| - 1];
    }
  }

  lemma {:induction false} ReachedOn(c: Codec, s: Sys, s': Sys)
    requires Reached(c, s) && Works(c, s, s')
    ensures Reached(c, s')
  {
    hide RunFrom, SettledFrom;
    var ks :| Orderly(c, ks) && Run(c, ks) == Some(s);
    var ls :| Quiet(ls) && RunFrom(c, s, ls) == Some(s');
    RunsOn(c, Fresh, ks, ls);
    QuietSettles(c, ks, ls);
    assert Orderly(c, ks + ls) && Run(c, ks + ls) == Some(s');
  }

  lemma {:induction false} FreshReached(c: Codec)
    ensures Reached(c, Fresh)
  {
    hide Next, Settled;
    assert RunFrom(c, Fresh, []) == Some(Fresh) && SettledFrom(c, Fresh, []);
    assert Orderly(c, []);
  }

  // ------------------------------------------------------------------
  // Writing a batch
  // ------------------------------------------------------------------

  /** Only files and log have moved; the batch is the same. */
  ghost predicate OnlyWrote(s: Sys, s': Sys) {
    && s' == s.(disk := s'.disk, log := s'.log, dur := s'.dur, phase := s'.phase)
    && s.phase.Writing? && s'.phase.Writing? && s'.phase.jobs == s.phase.jobs && s'.phase.acc == s.phase.acc
  }

  /** Whatever a power loss leaves of the one disk it may leave of the other. */
  ghost predicate LosesLess(d: Disk, d': Disk) {
    forall image :: CrashImage(d, image) ==> CrashImage(d', image)
  }

  /** A writer that stopped in a batch leaves the files of a machine stopped in it,
      and perhaps part of the next frame. A power loss on top leaves what it could
      have left of a machine that wrote that frame whole. */
  ghost predicate Halted(c: Codec, s: Sys, files: Disk) {
    exists s', torn, lost :: HaltedAt(c, s, files, s', torn, lost)
  }

  ghost predicate HaltedAt(c: Codec, s: Sys, files: Disk, s': Sys, torn: seq<byte>, lost: Sys) {
    && Works(c, s, s') && OnlyWrote(s, s')
    && s'.disk != [] && CanTear(c, s'.disk, torn) && files == AppendBytes(s'.disk, torn)
    && Works(c, s, lost) && OnlyWrote(s, lost) && LosesLess(files, lost.disk)
  }

  /** The machine began a batch at s0 and has written its first k events to these
      files. */
  ghost predicate AtWrite(c: Codec, s0: Sys, s: Sys, files: Disk, log: seq<Placed>, dur: nat, staged: seq<WireEvent>, k: nat) {
    && Works(c, s0, s) && OnlyWrote(s0, s)
    && s.disk == files && s.log == log && s.dur == dur && s.phase.acc.staged == staged && s.phase.written == k
  }

  lemma {:induction false} StartsAt(c: Codec, s: Sys)
    requires s.phase.Writing?
    ensures AtWrite(c, s, s, s.disk, s.log, s.dur, s.phase.acc.staged, s.phase.written)
  {
    hide Works;
    WorksSelf(c, s);
  }

  lemma {:induction false} AtWriting(c: Codec, s0: Sys, s: Sys, files: Disk, log: seq<Placed>, dur: nat, staged: seq<WireEvent>,
                                     k: nat)
    requires AtWrite(c, s0, s, files, log, dur, staged, k)
    ensures s0.phase.Writing? && s0.phase.acc.staged == staged
  {
    hide Works;
  }

  lemma {:induction false} NothingAppended(c: Codec, d: Disk)
    requires d != []
    ensures AppendBytes(d, []) == d && CanTear(c, d, [])
  {
    assert Last(d).bytes + [] == Last(d).bytes;
    assert Front(d) + [Last(d)] == d;
  }

  /** Stopped between two frames. */
  lemma {:induction false} HaltsHere(c: Codec, s0: Sys, s: Sys, files: Disk, log: seq<Placed>, dur: nat, staged: seq<WireEvent>,
                                     k: nat)
    requires AtWrite(c, s0, s, files, log, dur, staged, k) && files != []
    ensures Halted(c, s0, files)
  {
    hide Works, OnlyWrote, CanTear, AppendBytes, CrashImage;
    NothingAppended(c, files);
    assert HaltedAt(c, s0, files, s, [], s);
  }

  lemma {:induction false} RotateSyncNext(c: Codec, s: Sys)
    requires s.phase.Writing? && s.disk != []
    ensures Next(c, s, RotateSync) == Some(s.(disk := SyncActive(s.disk), dur := |s.log|))
    ensures Next(c, s, RotateLink) == Some(s.(disk := SyncDir(s.disk)))
  {
    hide SyncActive, SyncDir;
  }

  lemma {:induction false} RotateCreateNext(c: Codec, s: Sys)
    requires s.phase.Writing? && s.disk != [] && s.phase.written < |s.phase.acc.staged|
    requires s.dur == |s.log| && Last(s.disk).linked
    ensures Next(c, s, RotateCreate) == Some(s.(disk := CreateSegment(s.disk, s.phase.acc.staged[s.phase.written].seqno)))
    ensures CreateSegment(s.disk, s.phase.acc.staged[s.phase.written].seqno) != []
  {
  }

  /** The machine takes as many of a rotation's steps as succeeded. */
  lemma {:induction false} RotateWorks(c: Codec, s0: Sys, s: Sys, files: Disk, log: seq<Placed>, dur: nat,
                                       staged: seq<WireEvent>, k: nat, steps: nat)
    returns (s': Sys)
    requires AtWrite(c, s0, s, files, log, dur, staged, k) && k < |staged| && files != [] && Last(files).linked
    ensures AtWrite(c, s0, s', RotatedBy(files, staged[k].seqno, steps), log, if steps == 0 then dur else |log|, staged, k)
    ensures RotatedBy(files, staged[k].seqno, steps) != []
  {
    hide Next, Works, CreateSegment;
    s' := s;
    if steps >= 1 {
      RotateSyncNext(c, s);
      WorksStep(c, s0, s, RotateSync);
      s' := s.(disk := SyncActive(files), dur := |log|);
      if steps >= 2 {
        RotateCreateNext(c, s');
        WorksStep(c, s0, s', RotateCreate);
        s' := s'.(disk := CreateSegment(s'.disk, staged[k].seqno));
        if steps >= 3 {
          RotateSyncNext(c, s');
          WorksStep(c, s0, s', RotateLink);
          s' := s'.(disk := SyncDir(s'.disk));
        }
      }
    }
  }

  lemma {:induction false} AppendNextIs(c: Codec, s: Sys)
    requires s.phase.Writing? && s.disk != [] && s.phase.written < |s.phase.acc.staged| && Last(s.disk).linked
    requires var e := s.phase.acc.staged[s.phase.written]; Encodable(c, e) && e.seqno <= I64_MAX
    ensures var e := s.phase.acc.staged[s.phase.written];
      Next(c, s, AppendNext) ==
      Some(s.(disk := AppendBytes(s.disk, Frame(c, e)), log := s.log + [Placed(e, SegmentReads.NextPos(s.disk))],
              phase := s.phase.(written := s.phase.written + 1)))
  {
    hide AppendBytes, Frame, Encodable, SegmentReads.NextPos;
  }

  lemma {:induction false} AppendWorks(c: Codec, s0: Sys, s: Sys, files: Disk, log: seq<Placed>, dur: nat,
                                       staged: seq<WireEvent>, k: nat)
    returns (s': Sys)
    requires AtWrite(c, s0, s, files, log, dur, staged, k) && k < |staged| && files != [] && Last(files).linked
    requires Encodable(c, staged[k]) && staged[k].seqno <= I64_MAX
    ensures AtWrite(c, s0, s', AppendBytes(files, Frame(c, staged[k])),
                    log + [Placed(staged[k], SegmentReads.NextPos(files))], dur, staged, k + 1)
  {
    hide Next, Works, AppendBytes, Frame, Encodable, SegmentReads.NextPos;
    AppendNextIs(c, s);
    WorksStep(c, s0, s, AppendNext);
    s' := Next(c, s, AppendNext).value;
  }

  /** Losing power after part of a frame is losing part of the frame. */
  lemma {:induction false} PartOfFrame(d: Disk, frame: seq<byte>, n: nat)
    requires d != [] && n <= |frame| && Last(d).linked && Last(d).synced <= |Last(d).bytes|
    ensures LosesLess(AppendBytes(d, frame[..n]), AppendBytes(d, frame))
  {
    var part, whole := AppendBytes(d, frame[..n]), AppendBytes(d, frame);
    assert |part| == |whole| && forall i :: 0 <= i < |d| - 1 ==> part[i] == whole[i];
    forall image, i | CrashImage(part, image) && 0 <= i < |image|
      ensures CutFile(whole[i], image[i])
    {
      assert CutFile(part[i], image[i]);
      assert Last(d).bytes + frame[..n] <= Last(d).bytes + frame;
    }
  }

  /** Stopped in the middle of one. */
  lemma {:induction false} HaltsInFrame(c: Codec, s0: Sys, s: Sys, files: Disk, log: seq<Placed>, dur: nat,
                                        staged: seq<WireEvent>, k: nat, n: nat)
    requires AtWrite(c, s0, s, files, log, dur, staged, k) && k < |staged| && files != [] && Last(files).linked
    requires Encodable(c, staged[k]) && staged[k].seqno <= I64_MAX && n < |Frame(c, staged[k])|
    requires Last(files).synced <= |Last(files).bytes|
    ensures Halted(c, s0, AppendBytes(files, Frame(c, staged[k])[..n]))
  {
    hide Works, OnlyWrote, AppendBytes, Frame, Encodable, LosesLess, SegmentReads.NextPos;
    var torn := Frame(c, staged[k])[..n];
    assert torn <= Frame(c, staged[k]);
    assert TornFrame(c, torn);
    var lost := AppendWorks(c, s0, s, files, log, dur, staged, k);
    PartOfFrame(files, Frame(c, staged[k]), n);
    assert HaltedAt(c, s0, AppendBytes(files, torn), s, torn, lost);
  }

  /** The sync that ends the write phase; a batch that staged nothing has none. */
  lemma {:induction false} SyncWorks(c: Codec, s0: Sys, s: Sys, files: Disk, log: seq<Placed>, dur: nat,
                                     staged: seq<WireEvent>)
    returns (s': Sys)
    requires AtWrite(c, s0, s, files, log, dur, staged, |staged|) && files != [] && Last(files).linked
    requires staged == [] ==> dur == |log|
    ensures s' == s0.(disk := if staged == [] then files else SyncActive(files), log := log, dur := |log|,
                      phase := Phase.Synced(s0.phase.jobs, s0.phase.acc))
    ensures Works(c, s0, s')
  {
    hide SyncActive, Works;
    s' := Next(c, s, SyncBatch).value;
    hide Next;
    WorksStep(c, s0, s, SyncBatch);
  }

  lemma {:induction false} DieNext(c: Codec, s: Sys)
    ensures Next(c, s, Die) == Some(s.(phase := Dead))
  {
  }

  /** The writer stops for good: what a killed process leaves, and what a power loss
      then may. */
  lemma {:induction false} DieWorks(c: Codec, s: Sys, s0: Sys, files: Disk) returns (s': Sys, torn: seq<byte>, lost: Sys)
    requires Works(c, s, s0) && Halted(c, s0, files)
    ensures Works(c, s, s') && s' == s0.(disk := s'.disk, log := s'.log, dur := s'.dur, phase := Dead)
    ensures s'.disk != [] && CanTear(c, s'.disk, torn) && files == AppendBytes(s'.disk, torn)
    ensures Works(c, s, lost) && lost == s0.(disk := lost.disk, log := lost.log, dur := lost.dur, phase := Dead)
    ensures LosesLess(files, lost.disk)
  {
    hide Works, CanTear, AppendBytes, LosesLess, Next;
    var s1, t, s2 :| HaltedAt(c, s0, files, s1, t, s2);
    WorksThrough(c, s, s0, s1);
    WorksThrough(c, s, s0, s2);
    DieNext(c, s1);
    DieNext(c, s2);
    WorksStep(c, s, s1, Die);
    WorksStep(c, s, s2, Die);
    s', torn, lost := s1.(phase := Dead), t, s2.(phase := Dead);
  }

  // ------------------------------------------------------------------
  // Begin, apply, reply
  // ------------------------------------------------------------------

  lemma {:induction false} BeginWorks(c: Codec, s: Sys, b: Book, jobs: seq<Job>, now0: int, nows: seq<int>)
    returns (s': Sys)
    requires s.phase.Idle? && |nows| == |jobs| && Full(s) == b
    ensures s' == s.(phase := Writing(jobs, Classify(b, jobs, now0, nows), 0)) && Works(c, s, s')
  {
    hide Classify, Full, Works;
    s' := Next(c, s, Begin(jobs, now0, nows)).value;
    hide Next;
    OneStep(c, s, Begin(jobs, now0, nows));
  }

  lemma {:induction false} ApplyWorks(c: Codec, s: Sys, log: seq<Placed>, placed: seq<Placed>, b: Book, b': Book)
    returns (s': Sys)
    requires s.phase.Synced? && s.log == log + placed && |placed| == |s.phase.acc.staged|
    requires s.mem == b.(keys := s.mem.keys) && Replay(b, placed) == Some(b')
    ensures s' == s.(mem := b'.(keys := s.mem.keys + LogKeys(placed)), phase := Applied(s.phase.jobs, s.phase.acc))
    ensures Works(c, s, s')
  {
    hide Replay, LogKeys, Works;
    ReplayIgnoresKeys(b, s.mem.keys, placed);
    assert (log + placed)[|log|..] == placed;
    s' := Next(c, s, ApplyBatch).value;
    hide Next;
    OneStep(c, s, ApplyBatch);
  }

  lemma {:induction false} ReplyWorks(c: Codec, s: Sys) returns (s': Sys)
    requires s.phase.Applied?
    ensures s' == s.(acks := s.acks + AcksOf(s.phase.jobs, s.phase.acc), phase := Idle) && Works(c, s, s')
  {
    hide AcksOf, Works;
    s' := Next(c, s, ReplyAll).value;
    hide Next;
    OneStep(c, s, ReplyAll);
  }

  // ------------------------------------------------------------------
  // The index
  // ------------------------------------------------------------------

  function Numbers(metas: seq<Idem.RunMeta>): set<nat> {
    set m | m in metas :: m.n
  }

  /** A file as a map and as its sorted entries. */
  ghost predicate SameRun(file: Index, pairs: seq<Pair>) {
    pairs != [] && Sorted(pairs) && Idem.PairsIn(pairs, file) && forall k :: k in file ==> HasKey(pairs, k)
  }

  /** The machine and the directory have the same files under these numbers. */
  ghost predicate FilesStand(runs: Runs, disk: Idem.RunDir, ns: set<nat>) {
    forall n :: n in ns ==> n in runs && n in disk && disk[n].Intact? && SameRun(runs[n], disk[n].pairs)
  }

  /** The machine has registered the runs the index has. */
  ghost predicate RunsStand(runs: Runs, reg: set<nat>, disk: Idem.RunDir, metas: seq<Idem.RunMeta>) {
    reg == Numbers(metas) && FilesStand(runs, disk, reg)
  }

  /** Nothing else is in the directory, and the machine knows of nothing else. */
  ghost predicate DirStands(runs: Runs, disk: Idem.RunDir) {
    runs.Keys == disk.Keys && FilesStand(runs, disk, disk.Keys)
  }

  lemma {:induction false} InRegStands(runs: Runs, reg: set<nat>, disk: Idem.RunDir, metas: seq<Idem.RunMeta>,
                                       contents: Index, k: string)
    requires RunsStand(runs, reg, disk, metas) && Idem.RunsOk(disk, metas, contents)
    ensures InReg(runs, reg, k) <==> Idem.InRuns(disk, metas, k)
    ensures InReg(runs, reg, k) ==> k in contents && contents[k] == FromReg(runs, reg, k)
  {
    hide Sorted, HasKey;
    if InReg(runs, reg, k) {
      var n :| n in reg && n in runs && k in runs[n] && FromReg(runs, reg, k) == runs[n][k];
      var i :| 0 <= i < |metas| && metas[i].n == n;
      assert Idem.RunOk(disk, metas[i], contents);
      assert SameRun(runs[n], disk[n].pairs);
      assert Idem.InRun(disk, metas[i], k);
      var p := PairOf(disk[n].pairs, k);
    }
    if Idem.InRuns(disk, metas, k) {
      var i :| 0 <= i < |metas| && Idem.InRun(disk, metas[i], k);
      var n := metas[i].n;
      assert metas[i] in metas;
      var p := PairOf(disk[n].pairs, k);
      assert n in reg && n in runs && k in runs[n];
    }
  }

  lemma {:induction false} PairOf(pairs: seq<Pair>, k: string) returns (p: Pair)
    requires HasKey(pairs, k)
    ensures p in pairs && p.0 == k
  {
    HasKeyIn(pairs, k);
    var i :| 0 <= i < |pairs| && pairs[i].0 == k;
    p := pairs[i];
  }

  /** The machine looks up exactly what the index answers. */
  lemma {:induction false} LookupsStand(runs: Runs, reg: set<nat>, hot: Index, order: seq<string>, disk: Idem.RunDir,
                                        metas: seq<Idem.RunMeta>, added: set<string>, contents: Index)
    requires RunsStand(runs, reg, disk, metas) && Idem.Tiers(hot, order, disk, metas, added, contents)
    ensures Lookups(hot, runs, reg) == contents
  {
    hide RunsStand, FilesStand, Idem.RunsOk, Idem.OrderOk, Idem.InRuns, InReg, FromReg;
    forall k
      ensures k in Lookups(hot, runs, reg) <==> k in contents
      ensures k in contents ==> Lookups(hot, runs, reg)[k] == contents[k]
    {
      InRegStands(runs, reg, disk, metas, contents, k);
    }
  }

  /** One more file, not registered yet. */
  lemma {:induction false} FileStands(runs: Runs, reg: set<nat>, disk: Idem.RunDir, metas: seq<Idem.RunMeta>, n: nat,
                                      file: Index, pairs: seq<Pair>)
    requires RunsStand(runs, reg, disk, metas) && SameRun(file, pairs) && n !in reg
    ensures var runs', disk' := runs[n := file], disk[n := Idem.Intact(pairs)];
      && RunsStand(runs', reg, disk', metas) && FilesStand(runs', disk', {n})
      && (DirStands(runs, disk) ==> DirStands(runs', disk'))
  {
    hide SameRun;
  }

  lemma {:induction false} RegisteredStands(runs: Runs, reg: set<nat>, disk: Idem.RunDir, metas: seq<Idem.RunMeta>,
                                            m: Idem.RunMeta)
    requires RunsStand(runs, reg, disk, metas) && FilesStand(runs, disk, {m.n})
    ensures RunsStand(runs, reg + {m.n}, disk, metas + [m]) && RunsStand(runs, {m.n}, disk, [m])
  {
    hide SameRun;
    assert forall x :: x in metas + [m] <==> x in metas || x == m;
  }

  lemma {:induction false} RemovedStands(runs: Runs, reg: set<nat>, disk: Idem.RunDir, metas: seq<Idem.RunMeta>, n: nat)
    requires RunsStand(runs, reg, disk, metas) && n !in reg
    ensures RunsStand(runs - {n}, reg, disk - {n}, metas) && (DirStands(runs, disk) ==> DirStands(runs - {n}, disk - {n}))
  {
    hide SameRun;
  }

  lemma {:induction false} NextIsNew(metas: seq<Idem.RunMeta>)
    ensures Idem.NextRunN(metas) !in Numbers(metas)
  {
    hide Idem.NextRunN;
  }

  function Keys(order: seq<string>): set<string> {
    set k | k in order
  }

  /** The drained half as the machine sees it. */
  lemma {:induction false} DrainedStands(hot: Index, order: seq<string>, d: nat)
    requires Idem.OrderOk(order, hot) && 0 < d <= |order|
    ensures SameRun(Restrict(hot, Keys(order[..d])), Sort(Idem.Oldest(order, hot, d)))
  {
    var spilled, file := Idem.Oldest(order, hot, d), Restrict(hot, Keys(order[..d]));
    hide Sort, Sorted;
    SortSorts(spilled);
    SortSubset(spilled);
    forall p | p in Sort(spilled)
      ensures p.0 in file && file[p.0] == p.1
    {
      var i :| 0 <= i < |spilled| && spilled[i] == p;
      assert order[..d][i] == order[i];
    }
    forall k | k in file
      ensures HasKey(Sort(spilled), k)
    {
      var i :| 0 <= i < d && order[..d][i] == k;
      assert spilled[i].0 == k && spilled[i] in Sort(spilled);
      HasKeyIn(Sort(spilled), k);
    }
  }

  /** The merged run as the machine sees it. */
  lemma {:induction false} MergedStands(runs: Runs, reg: set<nat>, disk: Idem.RunDir, metas: seq<Idem.RunMeta>,
                                        contents: Index)
    requires RunsStand(runs, reg, disk, metas) && Idem.RunsOk(disk, metas, contents) && metas != []
    ensures SameRun(Union(runs, reg), Idem.Merged(disk, metas))
  {
    hide RunsStand, Idem.RunsOk, Idem.Merged, HasKey, InReg, Idem.InRuns, FromReg, Sorted;
    var merged, all := Idem.Merged(disk, metas), Union(runs, reg);
    Idem.MergedFind(disk, metas, contents, "");
    forall p | p in merged
      ensures p.0 in all && all[p.0] == p.1
    {
      var i :| 0 <= i < |merged| && merged[i] == p;
      HasKeyIn(merged, p.0);
      Idem.MergedFind(disk, metas, contents, p.0);
      InRegStands(runs, reg, disk, metas, contents, p.0);
    }
    forall k | k in all
      ensures HasKey(merged, k)
    {
      Idem.MergedFind(disk, metas, contents, k);
      InRegStands(runs, reg, disk, metas, contents, k);
    }
  }

  /** Only the index has moved. */
  ghost predicate OnlyTiers(s: Sys, s': Sys) {
    s' == s.(mem := s.mem.(keys := s'.mem.keys), runs := s'.runs, reg := s'.reg)
  }

  lemma {:induction false} RunsNextIs(c: Codec, s: Sys, l: Label)
    requires s.phase.Applied? && RunsNext(s, l).Some?
    ensures Next(c, s, l) == RunsNext(s, l) && !l.Crash? && !l.Kill? && OnlyTiers(s, RunsNext(s, l).value)
    ensures RunsNext(s, l).value.phase == s.phase
  {
    hide Restrict, Union;
  }

  lemma {:induction false} TiersWork(c: Codec, s: Sys, l: Label) returns (s': Sys)
    requires s.phase.Applied? && RunsNext(s, l).Some?
    ensures s' == RunsNext(s, l).value && Works(c, s, s') && OnlyTiers(s, s') && s'.phase == s.phase
  {
    hide Next, RunsNext, Works, OnlyTiers;
    RunsNextIs(c, s, l);
    s' := RunsNext(s, l).value;
    OneStep(c, s, l);
  }

  /** A run file of these hot keys, registered or left over. */
  lemma {:induction false} SpillNext(c: Codec, s: Sys, n: nat, keys: set<string>, registered: bool) returns (s': Sys)
    requires s.phase.Applied? && n !in s.reg
    ensures Works(c, s, s') && OnlyTiers(s, s') && s'.phase == s.phase
    ensures s'.runs == s.runs[n := Restrict(s.mem.keys, keys)]
    ensures s'.reg == if registered then s.reg + {n} else s.reg
    ensures s'.mem.keys == if registered then s.mem.keys - keys else s.mem.keys
  {
    hide Works, OnlyTiers, Restrict;
    s' := TiersWork(c, s, if registered then Spill(n, keys) else LeaveRun(n, keys));
  }

  /** A file of everything registered, alone in its place or left over. */
  lemma {:induction false} MergeNext(c: Codec, s: Sys, n: nat, registered: bool) returns (s': Sys)
    requires s.phase.Applied? && n !in s.reg
    ensures Works(c, s, s') && OnlyTiers(s, s') && s'.phase == s.phase && s'.mem == s.mem
    ensures s'.runs == s.runs[n := Union(s.runs, s.reg)] && s'.reg == if registered then {n} else s.reg
  {
    hide Works, OnlyTiers, Union;
    s' := TiersWork(c, s, if registered then Merge(n) else LeaveMerge(n));
  }

  lemma {:induction false} RemoveNext(c: Codec, s: Sys, n: nat) returns (s': Sys)
    requires s.phase.Applied? && n !in s.reg
    ensures Works(c, s, s') && OnlyTiers(s, s') && s'.phase == s.phase && s'.mem == s.mem
    ensures s'.runs == s.runs - {n} && s'.reg == s.reg
  {
    hide Works, OnlyTiers;
    s' := TiersWork(c, s, RemoveRun(n));
  }

  lemma {:induction false} ThenTiers(s: Sys, s1: Sys, s': Sys)
    requires s1 == s.(mem := s1.mem, phase := s1.phase) && OnlyTiers(s1, s')
    ensures s' == s.(mem := s'.mem, runs := s'.runs, reg := s'.reg, phase := s1.phase)
  {
  }

  lemma {:induction false} Stays(c: Codec, s: Sys)
    ensures Works(c, s, s) && OnlyTiers(s, s)
  {
    hide Works;
    WorksSelf(c, s);
  }

  lemma {:induction false} TiersThrough(c: Codec, a: Sys, b: Sys, d: Sys)
    requires Works(c, a, b) && Works(c, b, d) && OnlyTiers(a, b) && OnlyTiers(b, d)
    ensures Works(c, a, d) && OnlyTiers(a, d)
  {
    hide Works;
    WorksThrough(c, a, b, d);
  }

  /** Removing the files a merge replaced. */
  lemma {:induction false} RemovalWorks(c: Codec, s: Sys, disk: Idem.RunDir, metas: seq<Idem.RunMeta>,
                                        gone: seq<Idem.RunMeta>, stuck: set<nat>)
    returns (s': Sys)
    requires s.phase.Applied? && RunsStand(s.runs, s.reg, disk, metas) && Numbers(gone) !! Numbers(metas)
    ensures Works(c, s, s') && OnlyTiers(s, s') && s'.mem == s.mem && s'.phase == s.phase
    ensures RunsStand(s'.runs, s'.reg, Tiered.Removed(disk, gone, stuck), metas)
    ensures DirStands(s.runs, disk) ==> DirStands(s'.runs, Tiered.Removed(disk, gone, stuck))
  {
    hide Works, SameRun, DirStands, FilesStand;
    if gone == [] {
      WorksSelf(c, s);
      s' := s;
    } else {
      var front, m := gone[..|gone| - 1], gone[|gone| - 1];
      assert m in gone && forall x :: x in front ==> x in gone;
      s' := RemovalWorks(c, s, disk, metas, front, stuck);
      if m.n !in stuck {
        assert m.n in Numbers(gone);
        var rest := Tiered.Removed(disk, front, stuck);
        hide Tiered.Removed;
        RemovedStands(s'.runs, s'.reg, rest, metas, m.n);
        assert m.n !in s'.reg;
        hide RunsStand, Numbers;
        var s2 := RemoveNext(c, s', m.n);
        TiersThrough(c, s, s', s2);
        s' := s2;
      }
    }
  }

  /** However far a merge gets. */
  lemma {:induction false} MergeWorks(c: Codec, s: Sys, disk: Idem.RunDir, metas: seq<Idem.RunMeta>, contents: Index,
                                      io: Tiered.WriteOutcome, stuck: set<nat>)
    returns (s': Sys)
    requires s.phase.Applied? && RunsStand(s.runs, s.reg, disk, metas) && Idem.RunsOk(disk, metas, contents)
    ensures Works(c, s, s') && OnlyTiers(s, s') && s'.mem == s.mem && s'.phase == s.phase
    ensures var (disk', metas') := Tiered.MergedTo(disk, metas, io, stuck);
      RunsStand(s'.runs, s'.reg, disk', metas') && (DirStands(s.runs, disk) ==> DirStands(s'.runs, disk'))
  {
    var n, merged := Idem.NextRunN(metas), Idem.Merged(disk, metas);
    NextIsNew(metas);
    if metas != [] {
      MergedStands(s.runs, s.reg, disk, metas, contents);
      FileStands(s.runs, s.reg, disk, metas, n, Union(s.runs, s.reg), merged);
    }
    assert s.reg == Numbers(metas);
    hide RunsStand, DirStands, FilesStand, Idem.RunsOk, Idem.Merged, Works, Numbers, Union, SameRun, Tiered.Removed,
      Idem.NextRunN, OnlyTiers,
      Idem.MetaFor;
    if |metas| <= 1 || merged == [] || io.EncodeFailed? || io.NotWritten? {
      Stays(c, s);
      s' := s;
    } else if io.RenamedUnsynced? {
      s' := MergeNext(c, s, n, false);
    } else {
      var m := Idem.MetaFor(n, merged);
      RegisteredStands(s.runs[n := Union(s.runs, s.reg)], s.reg, disk[n := Idem.Intact(merged)], metas, m);
      var s1 := MergeNext(c, s, n, true);
      assert Numbers(metas) !! Numbers([m]) by { OneNumber(m); }
      s' := RemovalWorks(c, s1, disk[n := Idem.Intact(merged)], [m], metas, stuck);
      TiersThrough(c, s, s1, s');
    }
  }

  lemma {:induction false} OneNumber(m: Idem.RunMeta)
    ensures Numbers([m]) == {m.n}
  {
  }

  lemma {:induction false} DrainedHot(hot: Index, order: seq<string>, d: nat)
    requires d <= |order|
    ensures hot - Keys(order[..d]) == hot - (set k | k in order[..d])
  {
  }

  /** A run that was written, and the merge when there are too many. */
  lemma {:induction false} WrittenWorks(c: Codec, s: Sys, n: nat, keys: set<string>, disk: Idem.RunDir,
                                        metas: seq<Idem.RunMeta>, contents: Index, mergeIo: Tiered.WriteOutcome, stuck: set<nat>)
    returns (s': Sys)
    requires s.phase.Applied? && n !in s.reg && Idem.RunsOk(disk, metas, contents)
    requires RunsStand(s.runs[n := Restrict(s.mem.keys, keys)], s.reg + {n}, disk, metas)
    ensures Works(c, s, s') && OnlyTiers(s, s') && s'.phase == s.phase && s'.mem.keys == s.mem.keys - keys
    ensures var files := if |metas| > 8 then Tiered.MergedTo(disk, metas, mergeIo, stuck) else (disk, metas);
      && RunsStand(s'.runs, s'.reg, files.0, files.1)
      && (DirStands(s.runs[n := Restrict(s.mem.keys, keys)], disk) ==> DirStands(s'.runs, files.0))
  {
    hide RunsStand, DirStands, Idem.RunsOk, Works, Tiered.MergedTo, Restrict, OnlyTiers;
    s' := SpillNext(c, s, n, keys, true);
    if |metas| > 8 {
      var s2 := MergeWorks(c, s', disk, metas, contents, mergeIo, stuck);
      TiersThrough(c, s, s', s2);
      s' := s2;
    }
  }

  lemma {:induction false} TierFacts(hot: Index, order: seq<string>, disk: Idem.RunDir, metas: seq<Idem.RunMeta>,
                                     added: set<string>, contents: Index)
    requires Idem.Tiers(hot, order, disk, metas, added, contents)
    ensures Idem.OrderOk(order, hot)
  {
    hide Idem.OrderOk, Idem.RunsOk;
  }

  lemma {:induction false} Registered(runs: map<nat, Index>, reg: set<nat>, disk: Idem.RunDir, metas: seq<Idem.RunMeta>)
    requires RunsStand(runs, reg, disk, metas)
    ensures reg == Numbers(metas)
  {
    hide Numbers, FilesStand;
  }

  /** However far a spill and the merge after it get. */
  lemma {:induction false} SpillWorks(c: Codec, s: Sys, hot: Index, order: seq<string>, disk: Idem.RunDir,
                                      metas: seq<Idem.RunMeta>, added: set<string>, contents: Index,
                                      io: Tiered.WriteOutcome, mergeIo: Tiered.WriteOutcome, stuck: set<nat>)
    returns (s': Sys)
    requires s.phase.Applied? && s.mem.keys == hot && RunsStand(s.runs, s.reg, disk, metas)
    requires Idem.Tiers(hot, order, disk, metas, added, contents)
    ensures Works(c, s, s') && OnlyTiers(s, s') && s'.phase == s.phase
    ensures var (hot', disk', metas') := Tiered.SpilledTo(hot, order, disk, metas, io, mergeIo, stuck);
      && s'.mem.keys == hot' && RunsStand(s'.runs, s'.reg, disk', metas')
      && (DirStands(s.runs, disk) ==> DirStands(s'.runs, disk'))
  {
    TierFacts(hot, order, disk, metas, added, contents);
    Registered(s.runs, s.reg, disk, metas);
    hide RunsStand, DirStands, FilesStand, Idem.RunsOk, Works, Numbers, SameRun, Idem.NextRunN, Tiered.MergedTo,
      Idem.Tiers, Idem.OrderOk, Sort, Idem.Oldest, Keys, Restrict, OnlyTiers, Idem.MetaFor;
    Stays(c, s);
    var d := |hot| / 2;
    if d == 0 || d > |order| {
      return s;
    }
    var pairs, n, keys := Sort(Idem.Oldest(order, hot, d)), Idem.NextRunN(metas), Keys(order[..d]);
    NextIsNew(metas);
    DrainedStands(hot, order, d);
    FileStands(s.runs, s.reg, disk, metas, n, Restrict(hot, keys), pairs);
    SpilledRunsOk(hot, order, disk, metas, added, contents, d);
    DrainedHot(hot, order, d);
    match io {
      case RenamedUnsynced => s' := SpillNext(c, s, n, keys, false);
      case Written =>
        var m := Idem.MetaFor(n, pairs);
        RegisteredStands(s.runs[n := Restrict(hot, keys)], s.reg, disk[n := Idem.Intact(pairs)], metas, m);
        s' := WrittenWorks(c, s, n, keys, disk[n := Idem.Intact(pairs)], metas + [m], contents, mergeIo, stuck);
      case _ => s' := s;
    }
  }

  lemma {:induction false} SpilledRunsOk(hot: Index, order: seq<string>, disk: Idem.RunDir, metas: seq<Idem.RunMeta>,
                                         added: set<string>, contents: Index, d: nat)
    requires Idem.Tiers(hot, order, disk, metas, added, contents) && 0 < d <= |order|
    ensures var pairs, n := Sort(Idem.Oldest(order, hot, d)), Idem.NextRunN(metas);
      pairs != [] && Idem.RunsOk(disk[n := Idem.Intact(pairs)], metas + [Idem.MetaFor(n, pairs)], contents)
  {
    var hot1 := hot - (set k | k in order[..d]);
    assert Idem.Drained(order, hot, d, order[d..], hot1, Idem.Oldest(order, hot, d)) by {
      DrainsTo(hot, order, d);
    }
    hide Idem.Drained, Sort, Idem.Oldest, Idem.OrderOk, Idem.RunsOk, Idem.NextRunN;
    Idem.SpillKeepsContents(order, hot, disk, metas, added, contents, d, order[d..], hot1, Idem.Oldest(order, hot, d));
  }

  lemma {:induction false} DrainsTo(hot: Index, order: seq<string>, d: nat)
    requires Idem.OrderOk(order, hot) && d <= |order|
    ensures Idem.Drained(order, hot, d, order[d..], hot - (set k | k in order[..d]), Idem.Oldest(order, hot, d))
  {
    hide Idem.Oldest;
    var hot1 := hot - (set k | k in order[..d]);
    assert order == order[..d] + order[d..];
    forall k | k in order[d..]
      ensures k !in order[..d]
    {
      var i :| 0 <= i < |order| - d && order[d..][i] == k;
      assert order[d + i] == k;
    }
  }

  // ------------------------------------------------------------------
  // Snapshots
  // ------------------------------------------------------------------

  /** The machine's snapshots are the readable files of the directory, and what the
      background is writing is one of its clones. */
  ghost predicate SnapsStand(snaps: map<nat, Book>, clones: map<nat, Book>, files: SnapDir,
                             inflight: Option<(Book, nat)>) {
    && (forall q :: q in snaps <==> q in files && files[q].Holding?)
    && (forall q :: q in snaps ==> files[q].state == snaps[q])
    && (inflight.Some? ==> inflight.value.1 in clones && clones[inflight.value.1] == inflight.value.0)
  }

  /** Only snapshots have moved. */
  ghost predicate OnlySnaps(s: Sys, s': Sys) {
    s' == s.(snaps := s'.snaps, clones := s'.clones)
  }

  lemma {:induction false} DropNext(c: Codec, s: Sys, q: nat)
    ensures Next(c, s, DropSnapshot(q)) == Some(s.(snaps := s.snaps - {q}))
  {
  }

  /** Pruning. */
  lemma {:induction false} DropsWork(c: Codec, s: Sys, gone: set<nat>) returns (s': Sys)
    ensures Works(c, s, s') && s' == s.(snaps := s.snaps - gone)
  {
    hide Works, Next;
    if gone == {} {
      WorksSelf(c, s);
      assert s.snaps - gone == s.snaps;
      s' := s;
    } else {
      var q :| q in gone;
      var s1 := DropsWork(c, s, gone - {q});
      DropNext(c, s1, q);
      WorksStep(c, s, s1, DropSnapshot(q));
      assert s.snaps - (gone - {q}) - {q} == s.snaps - gone;
      s' := s.(snaps := s.snaps - gone);
    }
  }

  /** Whatever a snapshot write leaves of the directory, given a step that puts the
      state among the machine's snapshots. */
  lemma {:induction false} FilesWork(c: Codec, s: Sys, l: Label, before: SnapDir, after: SnapDir, saved: Book, q: nat,
                                     io: SnapIo, stuck: set<nat>, inflight: Option<(Book, nat)>)
    returns (s': Sys)
    requires SnapsStand(s.snaps, s.clones, before, inflight) && LeavesFiles(before, after, saved, q, io, stuck)
    requires Next(c, s, l) == Some(s.(snaps := s.snaps[q := saved])) && !l.Crash? && !l.Kill?
    ensures Works(c, s, s') && OnlySnaps(s, s') && s'.clones == s.clones
    ensures SnapsStand(s'.snaps, s'.clones, after, inflight)
  {
    hide Works, Next, LeavesFiles, SnapsStand;
    var gone := Gone(s.snaps, before, after, saved, q, io, stuck, s.clones, inflight);
    if io.TmpFailed? {
      WorksSelf(c, s);
      return s;
    }
    OneStep(c, s, l);
    var s1 := s.(snaps := s.snaps[q := saved]);
    s' := DropsWork(c, s1, gone);
    WorksThrough(c, s, s1, s');
  }

  /** What the pruning after a write removes. */
  lemma {:induction false} Gone(snaps: map<nat, Book>, before: SnapDir, after: SnapDir, saved: Book, q: nat, io: SnapIo,
                                stuck: set<nat>, clones: map<nat, Book>, inflight: Option<(Book, nat)>)
    returns (gone: set<nat>)
    requires SnapsStand(snaps, clones, before, inflight) && LeavesFiles(before, after, saved, q, io, stuck)
    ensures SnapsStand(if io.TmpFailed? then snaps else snaps[q := saved] - gone, clones, after, inflight)
  {
    hide AmongNewest;
    gone := set k | k in snaps[q := saved] && k !in after;
  }

  lemma {:induction false} SnapshotNowWorks(c: Codec, s: Sys, before: SnapDir, after: SnapDir, saved: Book, q: nat,
                                            io: SnapIo, stuck: set<nat>, inflight: Option<(Book, nat)>)
    returns (s': Sys)
    requires s.phase.Idle? && s.mem == saved && s.mem.nextSeq > 1 && q == s.mem.nextSeq - 1
    requires SnapsStand(s.snaps, s.clones, before, inflight) && LeavesFiles(before, after, saved, q, io, stuck)
    ensures Works(c, s, s') && OnlySnaps(s, s') && s'.clones == s.clones
    ensures SnapsStand(s'.snaps, s'.clones, after, inflight)
  {
    hide Works, SnapsStand, LeavesFiles;
    assert Next(c, s, SnapshotNow) == Some(s.(snaps := s.snaps[q := saved]));
    hide Next;
    s' := FilesWork(c, s, SnapshotNow, before, after, saved, q, io, stuck, inflight);
  }

  lemma {:induction false} BackgroundWorks(c: Codec, s: Sys, before: SnapDir, after: SnapDir, saved: Book, q: nat,
                                           io: SnapIo, stuck: set<nat>)
    returns (s': Sys)
    requires SnapsStand(s.snaps, s.clones, before, Some((saved, q))) && LeavesFiles(before, after, saved, q, io, stuck)
    ensures Works(c, s, s') && OnlySnaps(s, s') && SnapsStand(s'.snaps, s'.clones, after, None)
  {
    hide Works, LeavesFiles;
    assert Next(c, s, WriteSnapshot(q)) == Some(s.(snaps := s.snaps[q := saved]));
    hide Next;
    s' := FilesWork(c, s, WriteSnapshot(q), before, after, saved, q, io, stuck, Some((saved, q)));
  }

  lemma {:induction false} CloneWorks(c: Codec, s: Sys, files: SnapDir) returns (s': Sys)
    requires s.phase.Idle? && s.mem.nextSeq > 1 && SnapsStand(s.snaps, s.clones, files, None)
    ensures Works(c, s, s') && OnlySnaps(s, s') && SnapsStand(s'.snaps, s'.clones, files, Some((s.mem, s.mem.nextSeq - 1)))
  {
    hide Works;
    assert Next(c, s, CloneState) == Some(s.(clones := s.clones[s.mem.nextSeq - 1 := s.mem]));
    hide Next;
    OneStep(c, s, CloneState);
    s' := s.(clones := s.clones[s.mem.nextSeq - 1 := s.mem]);
  }
}
