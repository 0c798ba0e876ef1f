/**
 The per-book writer: drain, classify, rotate and append, one sync, apply, spill,
 broadcast and reply. One batch in place, against the log it must extend.
 */
module BookWriters {
  import opened LedgerTypes
  import opened Frames
  import opened Segments
  import opened SegmentReads
  import opened SegmentSets
  import opened Books
  import opened Batches
  import opened Histories
  import opened TieredIndex
  import opened BookStates
  import opened BatchRuns
  import opened Snapshots
  import Idem = IdemSpill
  import Sys = System
  import Runs = StoreRuns
  import Steps = WriterSteps
  import Safety = StoreSafety

  /** What the environment does to one batch: how many of a rotation's three
      steps succeed and how many bytes of a frame get out, per staged event;
      whether the sync succeeds; how far a spill, a merge and a snapshot get. */
  datatype Io = Io(
    rotated: nat -> nat, wrote: nat -> nat, synced: bool,
    spill: WriteOutcome, merge: WriteOutcome, stuck: set<nat>,
    snap: SnapIo, snapStuck: set<nat>)

  datatype Response =
    | Posted(rec: Committed)
    | Done
    | Failed(err: StoreError)
    | SnapshotOf(seqno: nat)
    | SnapshotFailed

  // ------------------------------------------------------------------
  // What a stopped writer leaves behind
  // ------------------------------------------------------------------

  /** The log and the first k staged events, all durable. */
  ghost predicate Keeps(c: Codec, d: Option<Disk>, log: seq<Placed>, staged: seq<WireEvent>, k: nat) {
    && k <= |staged| && d.Some?
    && Holds(c, d.value, Events(log) + staged[..k])
    && Durable(c, d.value, Events(log) + staged[..k], |log| + k)
  }

  /** Whatever a power loss does to these files, reopening gives the log and then
      some of the staged events, in order. */
  ghost predicate Recovers(c: Codec, d: Disk, log: seq<Placed>, staged: seq<WireEvent>) {
    forall image :: CrashImage(d, image) ==> exists k :: Keeps(c, Repair(c, image), log, staged, k)
  }

  lemma HeldKeeps(c: Codec, d: Disk, log: seq<Placed>, staged: seq<WireEvent>, placed: seq<Placed>, dur: nat,
                  image: Disk)
    returns (k: nat)
    requires Sound(c) && Sys.DiskInv(c, d, log + placed, dur) && |log| <= dur
    requires |placed| <= |staged| && Places(placed, staged[..|placed|]) && CrashImage(d, image)
    ensures Keeps(c, Repair(c, image), log, staged, k)
  {
    hide Holds, Durable, Repair, CrashImage, PlacedLog;
    var m := Safety.CrashLog(c, d, log + placed, dur, image);
    k := m - |log|;
    assert Events((log + placed)[..m]) == Events(log) + staged[..k];
  }

  lemma HeldRecovers(c: Codec, d: Disk, log: seq<Placed>, staged: seq<WireEvent>, placed: seq<Placed>, dur: nat)
    requires Sound(c) && Sys.DiskInv(c, d, log + placed, dur) && |log| <= dur
    requires |placed| <= |staged| && Places(placed, staged[..|placed|])
    ensures Recovers(c, d, log, staged)
  {
    hide Sys.DiskInv, Repair, CrashImage, Keeps;
    forall image | CrashImage(d, image)
      ensures exists k :: Keeps(c, Repair(c, image), log, staged, k)
    {
      var k := HeldKeeps(c, d, log, staged, placed, dur, image);
    }
  }

  lemma PartRecovers(c: Codec, d: Disk, frame: seq<byte>, n: nat, log: seq<Placed>, staged: seq<WireEvent>)
    requires d != [] && n <= |frame| && Last(d).linked && Last(d).synced <= |Last(d).bytes|
    requires Recovers(c, AppendBytes(d, frame), log, staged)
    ensures Recovers(c, AppendBytes(d, frame[..n]), log, staged)
  {
    hide CrashImage, Keeps, AppendBytes;
    Steps.PartOfFrame(d, frame, n);
    forall image | CrashImage(AppendBytes(d, frame[..n]), image)
      ensures exists k :: Keeps(c, Repair(c, image), log, staged, k)
    {
    }
  }

  // ------------------------------------------------------------------
  // The write phase
  // ------------------------------------------------------------------

  lemma DiskFacts(c: Codec, d: Disk, log: seq<Placed>, dur: nat)
    requires Sys.DiskInv(c, d, log, dur)
    ensures d != [] && Last(d).synced <= |Last(d).bytes| && (Last(d).base == |log| + 1 ==> Last(d).bytes == [])
  {
    var es, lo := Events(log), Last(d).base - 1;
    assert es[lo..] == es[lo..][..|log| - lo];
    StreamLengthMonotone(c, es[lo..], dur - lo, |log| - lo);
    assert es[lo..dur] == es[lo..][..dur - lo];
    assert Stream(c, []) == [];
  }

  /** However far a rotation gets, the log stays on disk. */
  lemma RotateHolds(c: Codec, d: Disk, log: seq<Placed>, dur: nat, steps: nat)
    requires Sys.DiskInv(c, d, log, dur) && d != [] && Last(d).linked
    ensures var r := RotatedBy(d, |log| + 1, steps);
      Sys.DiskInv(c, r, log, if steps == 0 then dur else |log|) && (steps >= 3 ==> Last(r).linked)
  {
    hide Sys.DiskInv, AppendBytes;
    if steps >= 1 {
      Runs.SyncStep(c, d, log, dur);
      if steps >= 2 {
        Runs.CreateStep(c, SyncActive(d), log);
        if steps >= 3 {
          Runs.LinkStep(c, CreateSegment(SyncActive(d), |log| + 1), log, |log|);
        }
      }
    }
  }

  lemma PlacesNext(placed: seq<Placed>, staged: seq<WireEvent>, p: Placed)
    requires |placed| < |staged| && Places(placed, staged[..|placed|]) && p.ev == staged[|placed|]
    ensures Places(placed + [p], staged[..|placed| + 1])
  {
    Runs.PlacesSnoc(placed, staged, p);
  }

  /** Stopped between two frames. */
  lemma {:induction false} StopsHere(c: Codec, d: Disk, log: seq<Placed>, placed: seq<Placed>, staged: seq<WireEvent>, dur: nat,
                                     s0: Sys.Sys, s: Sys.Sys)
    requires Sound(c) && Sys.DiskInv(c, d, log + placed, dur) && |log| <= dur
    requires |placed| <= |staged| && Places(placed, staged[..|placed|])
    requires Steps.AtWrite(c, s0, s, d, log + placed, dur, staged, |placed|)
    ensures Recovers(c, d, log, staged) && Steps.Halted(c, s0, d)
  {
    hide Sys.DiskInv, Recovers, Places, Steps.AtWrite, Steps.Halted;
    DiskFacts(c, d, log + placed, dur);
    HeldRecovers(c, d, log, staged, placed, dur);
    Steps.HaltsHere(c, s0, s, d, log + placed, dur, staged, |placed|);
  }

  /** Stopped with n bytes of the next frame written. */
  lemma {:induction false} StopsInFrame(c: Codec, d: Disk, log: seq<Placed>, placed: seq<Placed>, staged: seq<WireEvent>,
                                        dur: nat, n: nat, s0: Sys.Sys, s: Sys.Sys)
    requires Sound(c) && Sys.DiskInv(c, d, log + placed, dur) && |log| <= dur && |log + placed| < I64_MAX
    requires |placed| < |staged| && Places(placed, staged[..|placed|]) && d != [] && Last(d).linked
    requires Encodable(c, staged[|placed|]) && n < |Frame(c, staged[|placed|])| && staged[|placed|].seqno <= I64_MAX
    requires Steps.AtWrite(c, s0, s, d, log + placed, dur, staged, |placed|)
    ensures var d' := AppendBytes(d, Frame(c, staged[|placed|])[..n]); Recovers(c, d', log, staged) && Steps.Halted(c, s0, d')
  {
    hide Sys.DiskInv, Recovers, Places, Frame, Encodable, Steps.AtWrite, Steps.Halted, SegmentReads.NextPos, AppendBytes;
    var all, e := log + placed, staged[|placed|];
    var p := Placed(e, SegmentReads.NextPos(d));
    DiskFacts(c, d, all, dur);
    Runs.AppendStep(c, d, all, dur, e);
    PlacesNext(placed, staged, p);
    assert all + [p] == log + (placed + [p]);
    HeldRecovers(c, AppendBytes(d, Frame(c, e)), log, staged, placed + [p], dur);
    PartRecovers(c, d, Frame(c, e), n, log, staged);
    Steps.HaltsInFrame(c, s0, s, d, all, dur, staged, |placed|, n);
  }

  /** Rotates if it is time to, as far as the three steps succeed. */
  method RotateIfDue(segments: SegmentSet, steps: nat, ghost log: seq<Placed>, ghost placed: seq<Placed>,
                     nextSeq: nat, ghost staged: seq<WireEvent>, ghost dur: nat, ghost s0: Sys.Sys, ghost s: Sys.Sys)
    returns (ok: bool, ghost dur': nat, ghost s': Sys.Sys)
    requires segments.Valid() && Sound(segments.codec)
    requires Sys.DiskInv(segments.codec, segments.files, log + placed, dur) && |log| <= dur && Last(segments.files).linked
    requires |placed| < |staged| && Places(placed, staged[..|placed|])
    requires nextSeq == staged[|placed|].seqno == |log + placed| + 1
    requires Steps.AtWrite(segments.codec, s0, s, segments.files, log + placed, dur, staged, |placed|)
    modifies segments
    ensures !ok ==> Recovers(segments.codec, segments.files, log, staged) && Steps.Halted(segments.codec, s0, segments.files)
    ensures ok ==> segments.Valid() && Last(segments.files).linked && |log| <= dur'
    ensures ok ==> Sys.DiskInv(segments.codec, segments.files, log + placed, dur')
    ensures ok ==> Steps.AtWrite(segments.codec, s0, s', segments.files, log + placed, dur', staged, |placed|)
  {
    hide Sys.DiskInv, Recovers, Places, RotatedBy, Steps.AtWrite, Steps.Halted;
    DiskFacts(segments.codec, segments.files, log + placed, dur);
    RotateHolds(segments.codec, segments.files, log + placed, dur, steps);
    dur', s' := dur, s;
    if segments.activeLen >= segments.segmentMax {
      dur' := if steps > 0 then |log + placed| else dur;
      s' := Steps.RotateWorks(segments.codec, s0, s, segments.files, log + placed, dur, staged, |placed|, steps);
    }
    ok := segments.MaybeRotate(nextSeq, steps);
    StopsHere(segments.codec, segments.files, log, placed, staged, dur', s0, s');
  }

  /** Rotates if it is time to, then appends one frame. */
  method WriteOne(segments: SegmentSet, e: WireEvent, steps: nat, bytes: nat,
                  ghost log: seq<Placed>, ghost placed: seq<Placed>, ghost staged: seq<WireEvent>, ghost dur: nat,
                  ghost s0: Sys.Sys, ghost s: Sys.Sys)
    returns (pos: FramePos, ok: bool, ghost dur': nat, ghost s': Sys.Sys)
    requires segments.Valid() && Sound(segments.codec) && |log + placed| < I64_MAX
    requires Sys.DiskInv(segments.codec, segments.files, log + placed, dur) && |log| <= dur && Last(segments.files).linked
    requires |placed| < |staged| && Places(placed, staged[..|placed|]) && staged[|placed|] == e
    requires e.seqno == |log + placed| + 1
    requires Steps.AtWrite(segments.codec, s0, s, segments.files, log + placed, dur, staged, |placed|)
    modifies segments
    ensures !ok ==> Recovers(segments.codec, segments.files, log, staged) && Steps.Halted(segments.codec, s0, segments.files)
    ensures ok ==> segments.Valid() && Last(segments.files).linked && |log| <= dur'
    ensures ok ==> Sys.DiskInv(segments.codec, segments.files, log + placed + [Placed(e, pos)], dur')
    ensures ok ==>
      Steps.AtWrite(segments.codec, s0, s', segments.files, log + placed + [Placed(e, pos)], dur', staged, |placed| + 1)
  {
    hide Sys.DiskInv, Recovers, Places, Frame, Encodable, Steps.AtWrite, Steps.Halted, SegmentReads.NextPos;
    var c := segments.codec;
    pos := (0, 0);
    var frame := EncodeFrame(c, e);
    if frame.None? {
      StopsHere(c, segments.files, log, placed, staged, dur, s0, s);
      return pos, false, dur, s;
    }
    ok, dur', s' := RotateIfDue(segments, steps, log, placed, e.seqno, staged, dur, s0, s);
    if !ok {
      return;
    }
    pos := segments.NextPos();
    ghost var d := segments.files;
    Runs.AppendStep(c, d, log + placed, dur', e);
    var written := if bytes < |frame.value| then bytes else |frame.value|;
    ok := segments.Append(frame.value, written);
    if !ok {
      StopsInFrame(c, d, log, placed, staged, dur', written, s0, s');
    } else {
      s' := Steps.AppendWorks(c, s0, s', d, log + placed, dur', staged, |placed|);
      assert frame.value[..written] == frame.value;
    }
  }

  /** Frames in order, then one sync for the whole batch. */
  method WriteStaged(segments: SegmentSet, staged: seq<WireEvent>, io: Io, ghost log: seq<Placed>, ghost s: Sys.Sys)
    returns (placed: seq<Placed>, ok: bool, ghost s': Sys.Sys)
    requires segments.Valid() && Sound(segments.codec) && |log| + |staged| <= I64_MAX
    requires Sys.DiskInv(segments.codec, segments.files, log, |log|) && Last(segments.files).linked
    requires forall i :: 0 <= i < |staged| ==> staged[i].seqno == |log| + 1 + i
    requires Steps.AtWrite(segments.codec, s, s, segments.files, log, |log|, staged, 0)
    modifies segments
    ensures !ok ==> Recovers(segments.codec, segments.files, log, staged) && Steps.Halted(segments.codec, s, segments.files)
    ensures ok ==> segments.Valid() && Last(segments.files).linked && Places(placed, staged)
    ensures ok ==> Sys.DiskInv(segments.codec, segments.files, log + placed, |log + placed|)
    ensures ok ==> Steps.Works(segments.codec, s, s') && s.phase.Writing? && |placed| == |staged|
    ensures ok ==> s' == s.(disk := segments.files, log := log + placed, dur := |log + placed|,
                            phase := Sys.Phase.Synced(s.phase.jobs, s.phase.acc))
  {
    hide Sys.DiskInv, Recovers, Steps.AtWrite, Steps.Halted, Steps.Works;
    placed, s' := [], s;
    assert log + placed == log;
    DiskFacts(segments.codec, segments.files, log, |log|);
    Steps.AtWriting(segments.codec, s, s, segments.files, log, |log|, staged, 0);
    if staged == [] {
      s' := Steps.SyncWorks(segments.codec, s, s, segments.files, log, |log|, staged);
      return placed, true, s';
    }
    ghost var dur := |log|;
    for i := 0 to |staged|
      invariant |placed| == i && Places(placed, staged[..i]) && segments.Valid() && Last(segments.files).linked
      invariant |log| <= dur && Sys.DiskInv(segments.codec, segments.files, log + placed, dur)
      invariant Steps.AtWrite(segments.codec, s, s', segments.files, log + placed, dur, staged, i)
    {
      hide Places;
      var pos;
      pos, ok, dur, s' := WriteOne(segments, staged[i], io.rotated(i), io.wrote(i), log, placed, staged, dur, s, s');
      if !ok {
        return;
      }
      PlacesNext(placed, staged, Placed(staged[i], pos));
      assert log + placed + [Placed(staged[i], pos)] == log + (placed + [Placed(staged[i], pos)]);
      placed := placed + [Placed(staged[i], pos)];
    }
    assert staged[..|staged|] == staged;
    Runs.SyncStep(segments.codec, segments.files, log + placed, dur);
    HeldRecovers(segments.codec, segments.files, log, staged, placed, dur);
    Steps.HaltsHere(segments.codec, s, s', segments.files, log + placed, dur, staged, |staged|);
    s' := Steps.SyncWorks(segments.codec, s, s', segments.files, log + placed, dur, staged);
    ok := segments.Sync(io.synced);
  }

  // ------------------------------------------------------------------
  // Apply, broadcast, reply
  // ------------------------------------------------------------------

  lemma UniqueNext(all: seq<Placed>, m: nat)
    requires UniqueKeys(all) && m < |all|
    ensures all[m].ev.event.TransactionPosted? ==> all[m].ev.event.tx.key !in LogKeys(all[..m])
  {
    PrefixKeys(all, m + 1);
    assert all[..m + 1][..m] == all[..m];
    hide LogKeys;
  }

  lemma NextKeyIsNew(log: seq<Placed>, placed: seq<Placed>, i: nat)
    requires Replay(EmptyBook, log).Some?
    requires GoodLog(log + placed) && i < |placed| && Replay(Fold(log), placed[..i]).Some?
    ensures placed[i].ev.event.TransactionPosted? ==> placed[i].ev.event.tx.key !in Replay(Fold(log), placed[..i]).value.keys
  {
    var m := |log| + i;
    assert UniqueKeys(log + placed);
    hide GoodLog, Replay, LogKeys, UniqueKeys;
    UniqueNext(log + placed, m);
    assert (log + placed)[m] == placed[i] && (log + placed)[..m] == log + placed[..i];
    ReplayKeys(EmptyBook, log);
    ReplayKeys(Fold(log), placed[..i]);
    LogKeysConcat(log, placed[..i]);
    assert map[] + LogKeys(log) == LogKeys(log);
  }

  lemma ReplayNext(b: Book, placed: seq<Placed>, i: nat)
    requires i < |placed|
    ensures Replay(b, placed[..i + 1]) == match Replay(b, placed[..i]) case None => None case Some(b') => Apply(b', placed[i])
  {
    assert placed[..i + 1][..i] == placed[..i];
  }

  /** The machine's memory is this state, its hot map and run files this index's. */
  ghost predicate IndexStands(mem: Book, runs: Sys.Runs, reg: set<nat>, st: BookState)
    reads st, st.idem
  {
    mem == st.Model().(keys := st.idem.hot) && Steps.RunsStand(runs, reg, st.idem.disk, st.idem.runs)
  }

  /** The run directory holds nothing the machine does not know of. */
  ghost predicate DirKnown(runs: Sys.Runs, st: BookState)
    reads st, st.idem
  {
    Steps.DirStands(runs, st.idem.disk)
  }

  lemma {:induction false} NoKeys(hot: Idem.Index)
    ensures hot + LogKeys([]) == hot
  {
  }

  lemma {:induction false} KeyNext(hot: Idem.Index, before: Idem.Index, placed: seq<Placed>, i: nat)
    requires i < |placed| && hot == before + LogKeys(placed[..i])
    ensures before + LogKeys(placed[..i + 1]) ==
      var e := placed[i].ev; if e.event.TransactionPosted? then hot[e.event.tx.key := RecordOf(e)] else hot
  {
    assert placed[..i + 1][..i] == placed[..i];
  }

  /** Applies the durable batch in acceptance order. It never fails. */
  method ApplyStaged(st: BookState, placed: seq<Placed>, ghost log: seq<Placed>) returns (ok: bool)
    requires st.Valid() && Replay(EmptyBook, log).Some? && st.Model() == Fold(log) && GoodLog(log + placed)
    requires Replay(Fold(log), placed) == Some(Fold(log + placed))
    modifies st, st.idem`hot, st.idem`order, st.idem`contents
    ensures ok && st.Valid() && st.Model() == Fold(log + placed)
    ensures |st.idem.hot| <= |old(st.idem.hot)| + |placed| && st.idem.hot == old(st.idem.hot) + LogKeys(placed)
  {
    hide GoodLog, Apply;
    ghost var b := Fold(log);
    NoKeys(st.idem.hot);
    ok := true;
    var i := 0;
    assert placed[..0] == [];
    while i < |placed| && ok
      invariant 0 <= i <= |placed| && ok && st.Valid()
      invariant Replay(b, placed[..i]) == Some(st.Model())
      invariant |st.idem.hot| <= |old(st.idem.hot)| + i && st.idem.hot == old(st.idem.hot) + LogKeys(placed[..i])
    {
      hide Replay, Fold, LogKeys;
      KeyNext(st.idem.hot, old(st.idem.hot), placed, i);
      NextKeyIsNew(log, placed, i);
      ReplayNext(b, placed, i);
      ReplayPrefix(b, placed, i + 1);
      ok := st.ApplyEvent(placed[i]);
      i := i + 1;
    }
    assert placed[..|placed|] == placed;
  }

  /** The slots that staged something, in queue order, are the staged events. */
  ghost predicate InOrder(slots: seq<Slot>, sent: nat, staged: nat) {
    if slots == [] then sent == staged
    else if slots[0].Staged? then slots[0].slot == sent && InOrder(slots[1..], sent + 1, staged)
    else InOrder(slots[1..], sent, staged)
  }

  lemma {:induction false} InOrderSnoc(slots: seq<Slot>, s: Slot, sent: nat, staged: nat)
    requires InOrder(slots, sent, staged)
    ensures
      InOrder(slots + [s], sent, if s.Staged? && s.slot == staged then staged + 1 else staged) || (s.Staged? && s.slot != staged)
  {
    if slots == [] {
      assert (slots + [s])[1..] == [];
    } else {
      assert (slots + [s])[1..] == slots[1..] + [s];
      InOrderSnoc(slots[1..], s, if slots[0].Staged? then sent + 1 else sent, staged);
    }
  }

  lemma OneSlot(b: Book, acc: Batch, job: Job, now: int) returns (s: Slot)
    ensures var acc' := ClassifyOne(b, acc, job, now);
      && acc'.slots == acc.slots + [s]
      && |acc'.staged| == (if s.Staged? then |acc.staged| + 1 else |acc.staged|)
      && (s.Staged? ==> s.slot == |acc.staged|)
  {
    hide Judge, Overlay, Seeded, Project;
    s := ClassifyOne(b, acc, job, now).slots[|acc.slots|];
  }

  lemma {:induction false} ClassifyInOrder(b: Book, jobs: seq<Job>, now0: int, nows: seq<int>)
    requires |nows| == |jobs|
    ensures var acc := Classify(b, jobs, now0, nows); InOrder(acc.slots, 0, |acc.staged|)
  {
    hide ClassifyOne;
    if jobs != [] {
      var n := |jobs| - 1;
      ClassifyInOrder(b, jobs[..n], now0, nows[..n]);
      var acc := Classify(b, jobs[..n], now0, nows[..n]);
      var s := OneSlot(b, acc, jobs[n], nows[n]);
      InOrderSnoc(acc.slots, s, 0, |acc.staged|);
    }
  }

  /** The response a job's sender gets. */
  ghost predicate Responds(terms: Terms, job: Job, s: Slot, staged: seq<WireEvent>, last: nat, taken: bool,
                           r: Response) {
    match s
    case Dup(rec) => r == Posted(rec)
    case DupInBatch(i) => i < |staged| && staged[i].event.TransactionPosted? && r == Posted(RecordOf(staged[i]))
    case Rejected(v) => r.Failed? && Reports(terms, v, r.err)
    case OpenConflict(k) => r == Failed(AlreadyExists(k))
    case OpenExists => r == Done
    case Staged(i) =>
      if job.Commit? then i < |staged| && staged[i].event.TransactionPosted? && r == Posted(RecordOf(staged[i]))
      else r == Done
    case SnapshotRequest => r == if taken then SnapshotOf(last) else SnapshotFailed
  }

  ghost predicate AllRespond(terms: Terms, jobs: seq<Job>, slots: seq<Slot>, staged: seq<WireEvent>,
                             last: nat, taken: bool, rs: seq<Response>) {
    |jobs| == |slots| == |rs| && forall i :: 0 <= i < |rs| ==> Responds(terms, jobs[i], slots[i], staged, last, taken, rs[i])
  }

  /** What replying needs of the slots: they point at staged events of their job's
      kind. */
  ghost predicate Answerable(jobs: seq<Job>, slots: seq<Slot>, staged: seq<WireEvent>) {
    |jobs| == |slots| && forall i :: 0 <= i < |slots| ==>
      (slots[i].DupInBatch? || (slots[i].Staged? && jobs[i].Commit?) ==>
        slots[i].slot < |staged| && staged[slots[i].slot].event.TransactionPosted?)
  }

  /** The response to one job. */
  method RespondOne(job: Job, r: Reply, staged: seq<WireEvent>, last: nat, taken: bool, ghost terms: Terms,
                    ghost s: Slot)
    returns (response: Response)
    requires Matches(terms, s, r)
    requires s.DupInBatch? || (s.Staged? && job.Commit?) ==> s.slot < |staged| && staged[s.slot].event.TransactionPosted?
    ensures Responds(terms, job, s, staged, last, taken, response)
  {
    match r {
      case AlreadyCommitted(rec) => response := Posted(rec);
      case SameBatch(i) => response := Posted(RecordOf(staged[i]));
      case Refuse(err) => response := Failed(err);
      case OpenAgain => response := Done;
      case TakeSnapshot => response := if taken then SnapshotOf(last) else SnapshotFailed;
      case Accepted(i) =>
        if job.Commit? {
          response := Posted(RecordOf(staged[i]));
        } else {
          response := Done;
        }
    }
  }

  lemma InOrderBound(slots: seq<Slot>, sent: nat, staged: nat)
    requires InOrder(slots, sent, staged)
    ensures sent <= staged
  {
  }

  /** Broadcasts each staged event before answering its job; every job is
      answered, in queue order. */
  method ReplyAll(jobs: seq<Job>, replies: seq<Reply>, staged: seq<WireEvent>, last: nat, taken: bool,
                  ghost terms: Terms, ghost slots: seq<Slot>)
    returns (responses: seq<Response>, sent: seq<WireEvent>)
    requires AllMatch(terms, slots, replies) && Answerable(jobs, slots, staged) && InOrder(slots, 0, |staged|)
    ensures AllRespond(terms, jobs, slots, staged, last, taken, responses) && sent == staged
  {
    responses, sent := [], [];
    assert slots[0..] == slots;
    for i := 0 to |replies|
      invariant AllRespond(terms, jobs[..i], slots[..i], staged, last, taken, responses)
      invariant |sent| <= |staged| && sent == staged[..|sent|] && InOrder(slots[i..], |sent|, |staged|)
    {
      hide Responds;
      assert Matches(terms, slots[i], replies[i]);
      assert slots[i..][1..] == slots[i + 1..];
      InOrderBound(slots[i + 1..], if slots[i].Staged? then |sent| + 1 else |sent|, |staged|);
      if replies[i].Accepted? {
        sent := sent + [staged[replies[i].slot]];
      }
      var r := RespondOne(jobs[i], replies[i], staged, last, taken, terms, slots[i]);
      responses := responses + [r];
    }
    assert jobs[..|jobs|] == jobs && slots[..|slots|] == slots;
  }

  lemma BatchAnswerable(b: Book, jobs: seq<Job>, now0: int, nows: seq<int>)
    requires |nows| == |jobs|
    ensures var acc := Classify(b, jobs, now0, nows); Answerable(jobs, acc.slots, acc.staged)
  {
    hide Classify;
    SlotsAnswer(b, jobs, now0, nows);
    var acc := Classify(b, jobs, now0, nows);
    forall i | 0 <= i < |jobs|
      ensures acc.slots[i].DupInBatch? || (acc.slots[i].Staged? && jobs[i].Commit?) ==>
        acc.slots[i].slot < |acc.staged| && acc.staged[acc.slots[i].slot].event.TransactionPosted?
    {
      assert SlotOk(b, acc.staged, jobs[i], acc.slots[i]);
      if !jobs[i].Commit? {
        OnlyCommitsRepeat(b, jobs, now0, nows, i);
      }
    }
  }

  lemma {:induction false} OnlyCommitsRepeat(b: Book, jobs: seq<Job>, now0: int, nows: seq<int>, i: nat)
    requires |nows| == |jobs| && i < |jobs| && !jobs[i].Commit?
    ensures var acc := Classify(b, jobs, now0, nows); |acc.slots| == |jobs| && !acc.slots[i].DupInBatch?
  {
    hide Judge, Overlay, Seeded, Project, WellFormed;
    var n := |jobs| - 1;
    SlotsAnswer(b, jobs[..n], now0, nows[..n]);
    var s := OneSlot(b, Classify(b, jobs[..n], now0, nows[..n]), jobs[n], nows[n]);
    if i < n {
      OnlyCommitsRepeat(b, jobs[..n], now0, nows[..n], i);
    }
  }

  /** The hot map is drained to a run when it has outgrown its cap. */
  method SpillIfNeeded(st: BookState, io: Io, ghost c: Codec, ghost s: Sys.Sys) returns (ghost s': Sys.Sys)
    requires st.Valid() && s.phase.Applied? && IndexStands(s.mem, s.runs, s.reg, st)
    modifies st.idem.Repr()
    ensures st.Valid() && st.Model() == old(st.Model()) && st.idem.cap == old(st.idem.cap)
    ensures fresh(st.idem.Repr() - old(st.idem.Repr()))
    ensures io.spill.Written? ==>
      |st.idem.hot| == (var h := |old(st.idem.hot)|; if h > st.idem.cap then h - h / 2 else h)
    ensures Steps.Works(c, s, s') && Steps.OnlyTiers(s, s') && s'.phase == s.phase && IndexStands(s'.mem, s'.runs, s'.reg, st)
    ensures old(DirKnown(s.runs, st)) ==> DirKnown(s'.runs, st)
  {
    hide Idem.Tiers, Idem.OrderOk, Tidy, Steps.Works, Steps.RunsStand, Steps.DirStands, SpilledTo;
    Steps.Stays(c, s);
    s' := s;
    var needed := st.idem.NeedsFlush();
    if needed {
      s' := Steps.SpillWorks(c, s, st.idem.hot, st.idem.order, st.idem.disk, st.idem.runs, st.idem.bloom.added,
        st.idem.contents, io.spill, io.merge, io.stuck);
      st.idem.FlushSpill(io.spill, io.merge, io.stuck);
    }
  }

  /** The apply and the machine's step. */
  method ApplyBatch(st: BookState, placed: seq<Placed>, ghost log: seq<Placed>, ghost c: Codec, ghost s: Sys.Sys)
    returns (ghost s': Sys.Sys)
    requires st.Valid() && Replay(EmptyBook, log).Some? && st.Model() == Fold(log) && GoodLog(log + placed)
    requires Replay(Fold(log), placed) == Some(Fold(log + placed))
    requires s.phase.Synced? && s.log == log + placed && |placed| == |s.phase.acc.staged| && IndexStands(s.mem, s.runs, s.reg, st)
    modifies st, st.idem`hot, st.idem`order, st.idem`contents
    ensures st.Valid() && st.Model() == Fold(log + placed) && |st.idem.hot| <= |old(st.idem.hot)| + |placed|
    ensures Steps.Works(c, s, s') && IndexStands(s'.mem, s'.runs, s'.reg, st)
    ensures s' == s.(mem := s'.mem, phase := Sys.Applied(s.phase.jobs, s.phase.acc))
  {
    assert Replay(EmptyBook, log + placed).Some?;
    hide Idem.Tiers, Tidy, GoodLog, Replay, Fold, LogKeys, Steps.Works, Steps.RunsStand;
    s' := Steps.ApplyWorks(c, s, log, placed, Fold(log), Fold(log + placed));
    var ok := ApplyStaged(st, placed, log);
  }

  /** Applying a durable batch and then spilling: memory is the replay of the
      longer log, and the hot map stays within bounds when spills succeed. */
  method ApplyAndSpill(st: BookState, placed: seq<Placed>, io: Io, ghost log: seq<Placed>, ghost batchMax: nat,
                       ghost c: Codec, ghost s: Sys.Sys)
    returns (ghost s': Sys.Sys)
    requires s.phase.Synced? && s.log == log + placed && |placed| == |s.phase.acc.staged| && IndexStands(s.mem, s.runs, s.reg, st)
    requires st.Valid() && Replay(EmptyBook, log).Some? && st.Model() == Fold(log) && GoodLog(log + placed)
    requires Replay(Fold(log), placed) == Some(Fold(log + placed)) && |placed| <= batchMax
    modifies st, st.idem.Repr()
    ensures st.Valid() && st.Model() == Fold(log + placed)
    ensures st.idem.cap == old(st.idem.cap) && fresh(st.idem.Repr() - old(st.idem.Repr()))
    ensures io.spill.Written? ==> |st.idem.hot| <= Max(Max(st.idem.cap, batchMax), |old(st.idem.hot)|)
    ensures Steps.Works(c, s, s') && IndexStands(s'.mem, s'.runs, s'.reg, st)
    ensures s' == s.(mem := s'.mem, runs := s'.runs, reg := s'.reg, phase := Sys.Applied(s.phase.jobs, s.phase.acc))
    ensures old(DirKnown(s.runs, st)) ==> DirKnown(s'.runs, st)
  {
    hide Idem.Tiers, Tidy, GoodLog, Replay, Fold, LogKeys, Steps.Works, Steps.OnlyTiers, IndexStands, Steps.DirStands;
    ghost var s1 := ApplyBatch(st, placed, log, c, s);
    s' := SpillIfNeeded(st, io, c, s1);
    Steps.WorksThrough(c, s, s1, s');
    Steps.ThenTiers(s, s1, s');
  }

  /** The Ok answers given to commits. */
  ghost function Acked(jobs: seq<Job>, responses: seq<Response>): set<Sys.Ack> {
    set i | 0 <= i < |jobs| && i < |responses| && jobs[i].Commit? && responses[i].Posted?
      :: Sys.Ack(jobs[i].tx.key, responses[i].rec)
  }

  /** They are the ones the machine gives. */
  lemma {:induction false} AckedIs(terms: Terms, jobs: seq<Job>, acc: Batch, last: nat, taken: bool, rs: seq<Response>)
    requires AllRespond(terms, jobs, acc.slots, acc.staged, last, taken, rs)
    ensures Acked(jobs, rs) == Sys.AcksOf(jobs, acc)
  {
    hide Responds;
    forall i | 0 <= i < |jobs|
      ensures jobs[i].Commit? && rs[i].Posted? <==> Batches.Answer(jobs[i], acc.slots[i], acc.staged).Some?
      ensures jobs[i].Commit? && rs[i].Posted? ==> Batches.Answer(jobs[i], acc.slots[i], acc.staged).value == rs[i].rec
    {
      AnswerIs(terms, jobs[i], acc.slots[i], acc.staged, last, taken, rs[i]);
    }
  }

  lemma {:induction false} AnswerIs(terms: Terms, job: Job, slot: Slot, staged: seq<WireEvent>, last: nat, taken: bool,
                                    r: Response)
    requires Responds(terms, job, slot, staged, last, taken, r)
    ensures job.Commit? && r.Posted? <==> Batches.Answer(job, slot, staged).Some?
    ensures job.Commit? && r.Posted? ==> Batches.Answer(job, slot, staged).value == r.rec
  {
    hide Reports;
  }

  // ------------------------------------------------------------------
  // When a snapshot is due
  // ------------------------------------------------------------------

  /** A state handed to the background task, and how many events it holds. */
  type Clone = (Book, nat)

  /** The periodic trigger after a batch of `applied` events: count them; once
      enough have come, hand a clone to the background and count anew, unless one is
      still being written. */
  function Periodic(every: nat, since: nat, inflight: Option<Clone>, applied: nat, clone: Clone): (nat, Option<Clone>) {
    if every == 0 || applied == 0 then (since, inflight)
    else if since + applied < every || inflight.Some? || clone.1 == 0 then (since + applied, inflight)
    else (0, Some(clone))
  }

  /** What happens to snapshots in a writer's life: a batch that applied n events and
      did or did not hand a clone to the background, or the background's end. */
  datatype Tick = Applied(n: nat, handed: bool) | BackgroundEnded

  /** The events applied since a clone was last handed over. */
  function SinceClone(ticks: seq<Tick>): nat {
    if ticks == [] then 0
    else
      var front, last := SinceClone(ticks[..|ticks| - 1]), ticks[|ticks| - 1];
      if last.BackgroundEnded? then front else if last.handed then 0 else front + last.n
  }

  /** A clone has been handed over and the background is not done with it. */
  predicate Busy(ticks: seq<Tick>) {
    ticks != [] &&
    (var last := ticks[|ticks| - 1];
     last.Applied? && (last.handed || Busy(ticks[..|ticks| - 1])))
  }

  /** Every batch that applied something handed over a clone exactly when enough events
      had come since the last one and none was in flight; no other batch did. */
  ghost predicate Timely(every: nat, ticks: seq<Tick>) {
    forall i :: 0 <= i < |ticks| && ticks[i].Applied? ==>
      (ticks[i].handed <==>
        every > 0 && ticks[i].n > 0 && !Busy(ticks[..i]) && SinceClone(ticks[..i]) + ticks[i].n >= every)
  }

  /** The writer's counter and flag tell where it is. */
  ghost predicate Tallies(every: nat, ticks: seq<Tick>, since: nat, inflight: Option<Clone>) {
    && Timely(every, ticks) && (inflight.Some? <==> Busy(ticks))
    && since == if every == 0 then 0 else SinceClone(ticks)
  }

  lemma {:induction false} TimelyNext(every: nat, ticks: seq<Tick>, t: Tick)
    requires Timely(every, ticks)
    requires t.Applied? ==>
      (t.handed <==> every > 0 && t.n > 0 && !Busy(ticks) && SinceClone(ticks) + t.n >= every)
    ensures Timely(every, ticks + [t]) && (ticks + [t])[..|ticks|] == ticks
  {
    hide Busy, SinceClone;
    var all := ticks + [t];
    forall i | 0 <= i < |all| && all[i].Applied?
      ensures all[i].handed <==>
        every > 0 && all[i].n > 0 && !Busy(all[..i]) && SinceClone(all[..i]) + all[i].n >= every
    {
      assert all[..i] == ticks[..i];
      if i == |ticks| {
        assert ticks[..i] == ticks;
      }
    }
  }

  /** One batch on the tally: the trigger's counter and flag, the tick, and, handed over
      or not, what is in flight. */
  ghost predicate Counts(every: nat, ticks: seq<Tick>, since: nat, inflight: Option<Clone>, applied: nat, clone: Clone,
                         ticks': seq<Tick>, since': nat, inflight': Option<Clone>) {
    var handed := inflight.None? && inflight'.Some?;
    && (since', inflight') == Periodic(every, since, inflight, applied, clone)
    && ticks' == ticks + [Applied(applied, handed)] && Tallies(every, ticks', since', inflight')
    && inflight' == if handed then Some(clone) else inflight
  }

  lemma {:induction false} PeriodicCounts(every: nat, ticks: seq<Tick>, since: nat, inflight: Option<Clone>, applied: nat,
                                          clone: Clone)
    requires Tallies(every, ticks, since, inflight) && (applied > 0 ==> clone.1 > 0)
    ensures var (since', inflight') := Periodic(every, since, inflight, applied, clone);
      Counts(every, ticks, since, inflight, applied, clone,
             ticks + [Applied(applied, inflight.None? && inflight'.Some?)], since', inflight')
  {
    var (since', inflight') := Periodic(every, since, inflight, applied, clone);
    TimelyNext(every, ticks, Applied(applied, inflight.None? && inflight'.Some?));
    hide Timely;
  }

  /** Events can be overdue for a snapshot only because a batch came while the
      background was still at the last one. */
  lemma {:induction false} OverdueMeansBusy(every: nat, ticks: seq<Tick>) returns (i: nat)
    requires Timely(every, ticks) && every > 0 && SinceClone(ticks) >= every
    ensures i < |ticks| && ticks[i].Applied? && ticks[i].n > 0 && !ticks[i].handed && Busy(ticks[..i])
  {
    var n := |ticks| - 1;
    i := n;
    if ticks[n].BackgroundEnded? || ticks[n].n == 0 {
      forall k | 0 <= k < n
        ensures ticks[..n][k] == ticks[k] && ticks[..n][..k] == ticks[..k]
      {
      }
      i := OverdueMeansBusy(every, ticks[..n]);
    }
  }

  lemma {:induction false} Tallied(every: nat, ticks: seq<Tick>, since: nat, inflight: Option<Clone>, applied: nat, clone: Clone,
                                   ticks': seq<Tick>, since': nat, inflight': Option<Clone>)
    requires Counts(every, ticks, since, inflight, applied, clone, ticks', since', inflight')
    ensures Tallies(every, ticks', since', inflight')
    ensures inflight' == Periodic(every, since, inflight, applied, clone).1
  {
    hide Tallies, Periodic;
  }

  lemma {:induction false} EndTallies(every: nat, ticks: seq<Tick>, since: nat, inflight: Option<Clone>)
    requires Tallies(every, ticks, since, inflight)
    ensures Tallies(every, ticks + [BackgroundEnded], since, None)
  {
    TimelyNext(every, ticks, BackgroundEnded);
    hide Timely;
  }

  /** Whatever is written later is the state after exactly that many events. */
  ghost predicate CloneOk(inflight: Option<Clone>, log: seq<Placed>) {
    inflight.Some? ==> SavedAt(inflight.value.0, log, inflight.value.1)
  }

  lemma {:induction false} PeriodicOk(every: nat, since: nat, inflight: Option<Clone>, applied: nat, clone: Clone,
                                      log: seq<Placed>)
    requires CloneOk(inflight, log) && SavedAt(clone.0, log, clone.1)
    ensures CloneOk(Periodic(every, since, inflight, applied, clone).1, log)
  {
    hide SavedAt;
  }

  lemma {:induction false} CloneLater(inflight: Option<Clone>, log: seq<Placed>, log': seq<Placed>)
    requires CloneOk(inflight, log) && log <= log'
    ensures CloneOk(inflight, log')
  {
    hide SavedAt;
    if inflight.Some? {
      SavedLater(inflight.value.0, log, log', inflight.value.1);
    }
  }

  lemma {:induction false} SavesNow(b: Book, hot: Idem.Index, log: seq<Placed>)
    requires GoodLog(log) && b == Fold(log) && (forall k :: k in hot ==> k in b.keys && b.keys[k] == hot[k])
    ensures SavedAt(b.(keys := hot), log, |log|)
  {
    FoldStamps(log);
    assert log[..|log|] == log;
    hide GoodLog, Fold, LogKeys;
  }

  lemma {:induction false} HotWithin(st: BookState)
    requires st.Valid()
    ensures forall k :: k in st.idem.hot ==> k in st.Model().keys && st.Model().keys[k] == st.idem.hot[k]
  {
    hide Idem.OrderOk, Idem.RunsOk, Tidy;
  }

  /** What the writer saves is the state after exactly its log. */
  lemma {:induction false} SavesState(st: BookState, log: seq<Placed>)
    requires GoodLog(log) && st.Valid() && st.Model() == Fold(log)
    ensures SavedAt(st.Model().(keys := st.idem.hot), log, |log|)
  {
    hide GoodLog, Fold, SavedAt, Idem.Tiers, Tidy;
    HotWithin(st);
    SavesNow(st.Model(), st.idem.hot, log);
  }

  // ------------------------------------------------------------------
  // The writer
  // ------------------------------------------------------------------

  class BookWriter {
    const state: BookState
    const segments: SegmentSet
    const snapshots: Snapshots
    const batchMax: nat
    const snapshotEvery: nat
    var sinceSnap: nat
    var inflight: Option<Clone>
    ghost var log: seq<Placed>
    ghost var ticks: seq<Tick>

    /** The files hold exactly the log, durably; memory is its replay. */
    ghost predicate Consistent()
      reads this`log, segments, state, state.idem, state.idem.Repr()
    {
      && Sound(segments.codec) && segments.Valid() && Last(segments.files).linked
      && Sys.DiskInv(segments.codec, segments.files, log, |log|)
      && GoodLog(log) && state.Valid() && state.Model() == Fold(log)
    }

    ghost predicate Ready()
      reads this`log, this`inflight, segments, state, state.idem, state.idem.Repr()
    {
      Consistent() && CloneOk(inflight, log)
    }

    /** And the snapshots so far were handed over when they were due. */
    ghost predicate Valid()
      reads this, segments, state, state.idem, state.idem.Repr()
    {
      Ready() && Tallies(snapshotEvery, ticks, sinceSnap, inflight)
    }

    ghost function Repr(): set<object>
      reads this, state.idem
    {
      {this, state, segments, snapshots} + state.idem.Repr()
    }

    constructor (st: BookState, segments: SegmentSet, snapshots: Snapshots, batchMax: nat, snapshotEvery: nat,
                 ghost log: seq<Placed>)
      requires Sound(segments.codec) && segments.Valid() && Last(segments.files).linked
      requires Sys.DiskInv(segments.codec, segments.files, log, |log|)
      requires GoodLog(log) && st.Valid() && st.Model() == Fold(log)
      ensures Valid() && this.state == st && this.segments == segments && this.snapshots == snapshots
      ensures this.batchMax == batchMax && this.snapshotEvery == snapshotEvery && this.log == log && inflight == None
      ensures ticks == []
    {
      state, this.segments, this.snapshots, this.batchMax := st, segments, snapshots, batchMax;
      this.snapshotEvery, sinceSnap, inflight := snapshotEvery, 0, None;
      this.log, ticks := log, [];
    }

    /** What a snapshot taken now holds: the accounts and all but the spilled keys. */
    ghost function Saved(): Book
      reads state, state.idem
    {
      state.Model().(keys := state.idem.hot)
    }

    lemma {:induction false} SavesConsistent()
      requires Consistent()
      ensures SavedAt(Saved(), log, |log|)
    {
      hide GoodLog, Fold, SavedAt, Idem.Tiers, Tidy, Sys.DiskInv;
      SavesState(state, log);
    }

    /** Between batches: the machine has this log, durable, in these files, this
        memory and index, and these snapshots. */
    ghost predicate Stands(s: Sys.Sys)
      reads this, segments, state, state.idem, snapshots
    {
      && s.phase.Idle? && s.disk == segments.files && s.log == log && s.dur == |log|
      && IndexStands(s.mem, s.runs, s.reg, state) && Steps.SnapsStand(s.snaps, s.clones, snapshots.files, inflight)
    }

    /** The machine classifies against what memory and the index answer. */
    lemma FullStands(s: Sys.Sys)
      requires state.Valid() && IndexStands(s.mem, s.runs, s.reg, state)
      ensures Sys.Full(s) == state.Model()
    {
      hide Steps.RunsStand, Idem.Tiers, Sys.Lookups, Tidy;
      Steps.LookupsStand(s.runs, s.reg, state.idem.hot, state.idem.order, state.idem.disk, state.idem.runs,
        state.idem.bloom.added, state.idem.contents);
    }

    /** One batch. Alive afterwards, the log has grown by exactly the staged
        events, durable, applied, broadcast in order, every job has its answer, and
        a snapshot asked for is written or its failure answered. Stopped, memory and
        snapshots are as they were, no event of the log can be lost, and nothing but
        staged events can have joined it. Either way a machine that stands for the
        writer before has taken steps of its own that make it stand for the writer
        after: idle again, with exactly the Ok answers given here; or dead, over these
        files but for part of a frame. */
    method RunBatch(jobs: seq<Job>, now0: int, nows: seq<int>, io: Io, ghost s: Sys.Sys)
      returns (responses: seq<Response>, sent: seq<WireEvent>, alive: bool, ghost s': Sys.Sys, ghost torn: seq<byte>,
               ghost lost: Sys.Sys)
      requires Valid() && |nows| == |jobs| <= batchMax && |log| + |jobs| <= I64_MAX && Stands(s)
      modifies Repr()
      ensures var b, acc := old(state.Model()), Classify(old(state.Model()), jobs, now0, nows);
        if alive then
          && Valid()
          && old(log) <= log && Places(log[|old(log)|..], acc.staged)
          && AllRespond(TermsOf(b.accounts), jobs, acc.slots, acc.staged, |log|, SnapshotOk(jobs, io), responses)
          && sent == acc.staged
          && SnapshotsTaken(old(snapshots.files), jobs, io)
          && Counts(snapshotEvery, old(ticks), old(sinceSnap), old(inflight), |acc.staged|, (Saved(), |log|),
                    ticks, sinceSnap, inflight)
        else
          && state.Model() == b && log == old(log)
          && Recovers(segments.codec, segments.files, old(log), acc.staged)
          && snapshots.files == old(snapshots.files) && sinceSnap == old(sinceSnap) && inflight == old(inflight)
          && ticks == old(ticks)
      ensures alive && io.spill.Written? ==>
        |state.idem.hot| <= Max(Max(state.idem.cap, batchMax), |old(state.idem.hot)|) && state.idem.cap == old(state.idem.cap)
      ensures Steps.Works(segments.codec, s, s') && Steps.Works(segments.codec, s, lost)
      ensures alive ==> Stands(s') && s'.acks == s.acks + Acked(jobs, responses)
      ensures alive && old(DirKnown(s.runs, state)) ==> DirKnown(s'.runs, state)
      ensures !alive ==> Stopped(s, s', torn, lost)
    {
      hide Classify, GoodLog, Sys.DiskInv, Recovers, AllRespond, AllMatch, Idem.Tiers, Tidy, Replay, Fold, Answerable,
        InOrder, Places, CloneOk, LeavesFiles, Steps.Works, Steps.AtWrite, Steps.Halted, Steps.RunsStand, Steps.SnapsStand,
        Sys.Full, Sys.CanTear, AppendBytes, Acked, Steps.LosesLess, DirKnown, Tallies, Counts;
      BatchFacts(log, state.Model(), jobs, now0, nows);
      FullStands(s);
      responses, sent, alive := [], [], false;
      ghost var counted := (ticks, sinceSnap, inflight);
      var staged, replies, fatal := ClassifyJobs(state, jobs, now0, nows);
      ghost var begun := Steps.BeginWorks(segments.codec, s, state.Model(), jobs, now0, nows);
      Steps.StartsAt(segments.codec, begun);
      var placed, ok, written := WriteStaged(segments, staged, io, log, begun);
      if !ok {
        s', torn, lost := Steps.DieWorks(segments.codec, s, begun, segments.files);
        return;
      }
      responses, sent, s' := Finish(jobs, now0, nows, begun.phase.acc, staged, replies, placed, io, written);
      Steps.WorksThrough(segments.codec, s, begun, written);
      Steps.WorksThrough(segments.codec, s, written, s');
      Tallied(snapshotEvery, counted.0, counted.1, counted.2, |staged|, (Saved(), |log|), ticks, sinceSnap, inflight);
      alive, torn, lost := true, [], s';
    }

    /** The machine died where the writer stopped; for a power loss, perhaps one frame
        later. */
    ghost predicate Stopped(s: Sys.Sys, s': Sys.Sys, torn: seq<byte>, lost: Sys.Sys)
      reads segments
    {
      && s' == s.(disk := s'.disk, log := s'.log, dur := s'.dur, phase := Sys.Dead)
      && s'.disk != [] && Sys.CanTear(segments.codec, s'.disk, torn) && segments.files == AppendBytes(s'.disk, torn)
      && lost == s.(disk := lost.disk, log := lost.log, dur := lost.dur, phase := Sys.Dead)
      && Steps.LosesLess(segments.files, lost.disk)
    }

    /** After the sync, before the apply. */
    ghost predicate Pending(s: Sys.Sys, placed: seq<Placed>)
      reads this, segments, state, state.idem, snapshots
    {
      && s.phase.Synced? && |placed| == |s.phase.acc.staged|
      && s.disk == segments.files && s.log == log + placed && s.dur == |log + placed|
      && IndexStands(s.mem, s.runs, s.reg, state) && Steps.SnapsStand(s.snaps, s.clones, snapshots.files, inflight)
    }

    /** A snapshot of an empty book is never written; otherwise the directory sync
        must have succeeded. */
    predicate SnapshotOk(jobs: seq<Job>, io: Io)
      reads this, state
    {
      Job.Snapshot !in jobs || state.nextSeq <= 1 || io.snap.Synced?
    }

    /** What the snapshot jobs of a batch did to the directory. */
    ghost predicate SnapshotsTaken(before: SnapDir, jobs: seq<Job>, io: Io)
      reads this, state, state.idem, snapshots
    {
      if Job.Snapshot !in jobs || state.nextSeq <= 1 then snapshots.files == before
      else LeavesFiles(before, snapshots.files, state.Model().(keys := state.idem.hot), state.nextSeq - 1, io.snap, io.snapStuck)
    }

    /** The files hold the log and the batch, durably; memory is the log's replay. */
    ghost predicate AtSync(placed: seq<Placed>)
      reads this, segments, state, state.idem, state.idem.Repr()
    {
      && Sound(segments.codec) && segments.Valid() && Last(segments.files).linked
      && Sys.DiskInv(segments.codec, segments.files, log + placed, |log + placed|)
      && GoodLog(log) && state.Valid() && state.Model() == Fold(log) && CloneOk(inflight, log)
    }

    lemma {:induction false} SyncFacts(placed: seq<Placed>)
      requires AtSync(placed)
      ensures GoodLog(log) && Replay(EmptyBook, log).Some? && state.Model() == Fold(log)
    {
      hide Sys.DiskInv, Replay, Idem.Tiers, Tidy, CloneOk, UniqueKeys, Ordered;
    }

    /** After the sync: apply, spill, broadcast and reply, then snapshots. */
    method Finish(jobs: seq<Job>, ghost now0: int, ghost nows: seq<int>, ghost acc: Batch, staged: seq<WireEvent>,
                  replies: seq<Reply>, placed: seq<Placed>, io: Io, ghost s: Sys.Sys)
      returns (responses: seq<Response>, sent: seq<WireEvent>, ghost s': Sys.Sys)
      requires AtSync(placed) && |nows| == |jobs| <= batchMax && acc == Classify(state.Model(), jobs, now0, nows)
      requires staged == acc.staged && Places(placed, staged) && AllMatch(TermsOf(state.accounts), acc.slots, replies)
      requires Pending(s, placed) && s.phase.jobs == jobs && s.phase.acc == acc
      requires Tallies(snapshotEvery, ticks, sinceSnap, inflight)
      modifies this`log, this`ticks, this`sinceSnap, this`inflight, state, state.idem.Repr(), snapshots
      ensures Ready() && log == old(log) + placed && log[|old(log)|..] == placed && sent == staged
      ensures AllRespond(old(TermsOf(state.accounts)), jobs, acc.slots, staged, |log|, SnapshotOk(jobs, io), responses)
      ensures SnapshotsTaken(old(snapshots.files), jobs, io)
      ensures Counts(snapshotEvery, old(ticks), old(sinceSnap), old(inflight), |staged|, (Saved(), |log|),
                     ticks, sinceSnap, inflight)
      ensures io.spill.Written? ==>
        |state.idem.hot| <= Max(Max(state.idem.cap, batchMax), |old(state.idem.hot)|)
      ensures state.idem.cap == old(state.idem.cap)
      ensures Steps.Works(segments.codec, s, s') && Stands(s') && s'.acks == s.acks + Acked(jobs, responses)
      ensures old(DirKnown(s.runs, state)) ==> DirKnown(s'.runs, state)
    {
      hide AtSync, DirKnown, Consistent, Classify, GoodLog, AllRespond, AllMatch, Replay, Fold, Answerable, InOrder,
        Places, TermsOf, CloneOk, LeavesFiles, SnapshotsTaken, SnapshotOk, Periodic, Counts, Tallies, Steps.Works, IndexStands,
        Steps.SnapsStand, Acked;
      ghost var terms := TermsOf(state.accounts);
      SyncFacts(placed);
      BatchFacts(log, state.Model(), jobs, now0, nows);
      ghost var applied := ApplyDurable(jobs, now0, nows, acc, placed, io, s);
      responses, sent, s' := AfterApply(jobs, replies, staged, io, terms, acc.slots, applied);
      Steps.WorksThrough(segments.codec, s, applied, s');
    }

    /** Snapshots, broadcasts and replies, over a batch in memory. */
    method AfterApply(jobs: seq<Job>, replies: seq<Reply>, staged: seq<WireEvent>, io: Io,
                      ghost terms: Terms, ghost slots: seq<Slot>, ghost s: Sys.Sys)
      returns (responses: seq<Response>, sent: seq<WireEvent>, ghost s': Sys.Sys)
      requires s.phase.Applied? && Stands(s.(phase := Sys.Idle))
      requires s.phase.jobs == jobs && s.phase.acc.slots == slots && s.phase.acc.staged == staged
      requires Ready() && state.nextSeq == |log| + 1 && |staged| <= |log|
      requires AllMatch(terms, slots, replies) && Answerable(jobs, slots, staged) && InOrder(slots, 0, |staged|)
      requires Tallies(snapshotEvery, ticks, sinceSnap, inflight)
      modifies this`ticks, this`sinceSnap, this`inflight, snapshots
      ensures Ready() && sent == staged
      ensures AllRespond(terms, jobs, slots, staged, |log|, SnapshotOk(jobs, io), responses)
      ensures SnapshotsTaken(old(snapshots.files), jobs, io)
      ensures Counts(snapshotEvery, old(ticks), old(sinceSnap), old(inflight), |staged|, (Saved(), |log|),
                     ticks, sinceSnap, inflight)
      ensures Steps.Works(segments.codec, s, s') && Stands(s') && s'.acks == s.acks + Acked(jobs, responses)
      ensures s'.runs == s.runs
    {
      hide Consistent, GoodLog, AllRespond, AllMatch, Fold, Answerable, InOrder, CloneOk, LeavesFiles, Idem.Tiers, Tidy,
        SavedAt, SnapshotsTaken, SnapshotOk, Periodic, Counts, Tallies, IndexStands, Steps.SnapsStand, Steps.Works, Sys.AcksOf,
        Acked;
      SavesConsistent();
      PeriodicOk(snapshotEvery, sinceSnap, inflight, |staged|, (Saved(), |log|), log);
      ghost var counted := (ticks, sinceSnap, inflight);
      ghost var replied := Steps.ReplyWorks(segments.codec, s);
      var taken;
      assert this !in state.idem.Repr() && snapshots !in state.idem.Repr();
      taken, s' := SnapshotPhase(jobs, |staged|, io, replied);
      Steps.WorksThrough(segments.codec, s, replied, s');
      responses, sent := ReplyAll(jobs, replies, staged, state.nextSeq - 1, taken, terms, slots);
      AckedIs(terms, jobs, s.phase.acc, |log|, taken, responses);
      Tallied(snapshotEvery, counted.0, counted.1, counted.2, |staged|, (Saved(), |log|), ticks, sinceSnap, inflight);
    }

    /** The explicit and the periodic trigger. */
    method SnapshotPhase(jobs: seq<Job>, applied: nat, io: Io, ghost s: Sys.Sys) returns (taken: bool, ghost s': Sys.Sys)
      requires Stands(s) && state.nextSeq == |log| + 1 && applied <= |log|
      requires Tallies(snapshotEvery, ticks, sinceSnap, inflight)
      modifies this`ticks, this`sinceSnap, this`inflight, snapshots
      ensures taken == SnapshotOk(jobs, io) && SnapshotsTaken(old(snapshots.files), jobs, io)
      ensures Counts(snapshotEvery, old(ticks), old(sinceSnap), old(inflight), applied, (Saved(), |log|),
                     ticks, sinceSnap, inflight)
      ensures Steps.Works(segments.codec, s, s') && Stands(s') && s'.acks == s.acks && s'.runs == s.runs
    {
      hide LeavesFiles, Counts, Tallies, IndexStands, Steps.SnapsStand, Steps.Works;
      ghost var s1;
      taken, s1 := TakeSnapshot(jobs, io, s);
      s' := CountSnapshot(applied, s1);
      Steps.WorksThrough(segments.codec, s, s1, s');
    }

    /** The durable batch into memory, and a spill if one is due. */
    method ApplyDurable(ghost jobs: seq<Job>, ghost now0: int, ghost nows: seq<int>, ghost acc: Batch, placed: seq<Placed>,
                        io: Io, ghost s: Sys.Sys)
      returns (ghost s': Sys.Sys)
      requires AtSync(placed) && |nows| == |jobs| <= batchMax && acc == Classify(state.Model(), jobs, now0, nows)
      requires Places(placed, acc.staged) && Pending(s, placed)
      modifies this`log, state, state.idem.Repr()
      ensures Ready() && fresh(state.idem.Repr() - old(state.idem.Repr()))
      ensures log == old(log) + placed && log[|old(log)|..] == placed && state.nextSeq == |log| + 1
      ensures io.spill.Written? ==>
        |state.idem.hot| <= Max(Max(state.idem.cap, batchMax), |old(state.idem.hot)|)
      ensures state.idem.cap == old(state.idem.cap)
      ensures Steps.Works(segments.codec, s, s') && Stands(s'.(phase := Sys.Idle)) && s'.acks == s.acks
      ensures s'.phase == Sys.Applied(s.phase.jobs, s.phase.acc)
      ensures old(DirKnown(s.runs, state)) ==> DirKnown(s'.runs, state)
    {
      hide DirKnown, Classify, GoodLog, Sys.DiskInv, Idem.Tiers, Tidy, Replay, Fold, Places, CloneOk, Steps.Works, IndexStands,
        Steps.SnapsStand;
      BatchFacts(log, state.Model(), jobs, now0, nows);
      BatchGrows(log, state.Model(), jobs, now0, nows, placed);
      s' := ApplyAndSpill(state, placed, io, log, batchMax, segments.codec, s);
      CloneLater(inflight, log, log + placed);
      log := log + placed;
    }

    /** Explicit snapshot jobs: one write for all of them. */
    method TakeSnapshot(jobs: seq<Job>, io: Io, ghost s: Sys.Sys) returns (taken: bool, ghost s': Sys.Sys)
      requires Stands(s)
      modifies snapshots
      ensures taken == SnapshotOk(jobs, io) && SnapshotsTaken(old(snapshots.files), jobs, io)
      ensures Steps.Works(segments.codec, s, s') && Stands(s') && s'.acks == s.acks && s'.runs == s.runs
    {
      hide LeavesFiles, Steps.Works, Steps.SnapsStand, Steps.RunsStand;
      Steps.WorksSelf(segments.codec, s);
      if Job.Snapshot !in jobs || state.nextSeq <= 1 {
        return true, s;
      }
      var saved := state.Save();
      ghost var before := snapshots.files;
      taken := snapshots.WriteSnapshot(saved, state.nextSeq - 1, io.snap, io.snapStuck);
      s' := Steps.SnapshotNowWorks(segments.codec, s, before, snapshots.files, saved, state.nextSeq - 1, io.snap, io.snapStuck,
        inflight);
    }

    /** The periodic trigger. */
    method CountSnapshot(applied: nat, ghost s: Sys.Sys) returns (ghost s': Sys.Sys)
      requires Stands(s) && state.nextSeq == |log| + 1 && applied <= |log|
      requires Tallies(snapshotEvery, ticks, sinceSnap, inflight)
      modifies this`ticks, this`sinceSnap, this`inflight
      ensures Counts(snapshotEvery, old(ticks), old(sinceSnap), old(inflight), applied, (Saved(), |log|),
                     ticks, sinceSnap, inflight)
      ensures Steps.Works(segments.codec, s, s') && Stands(s') && s'.acks == s.acks && s'.runs == s.runs
    {
      hide Steps.Works, Steps.SnapsStand, Steps.RunsStand, Tallies, Counts;
      Steps.WorksSelf(segments.codec, s);
      PeriodicCounts(snapshotEvery, ticks, sinceSnap, inflight, applied, (Saved(), |log|));
      s' := s;
      ghost var flying := inflight.Some?;
      if snapshotEvery > 0 && applied > 0 {
        sinceSnap := sinceSnap + applied;
        if sinceSnap >= snapshotEvery && inflight.None? && state.nextSeq > 1 {
          var saved := state.Save();
          s' := Steps.CloneWorks(segments.codec, s, snapshots.files);
          sinceSnap, inflight := 0, Some((saved, state.nextSeq - 1));
        }
      }
      ticks := ticks + [Applied(applied, !flying && inflight.Some?)];
    }

    /** The background task comes to its end, whatever has been committed since: the
        file it leaves, if any, is the state after exactly the events it names. */
    method BackgroundDone(io: Io, ghost s: Sys.Sys) returns (ghost s': Sys.Sys)
      requires Valid() && inflight.Some? && Stands(s)
      modifies this`inflight, this`ticks, snapshots
      ensures Valid() && inflight == None && log == old(log) && ticks == old(ticks) + [BackgroundEnded]
      ensures var (saved, q) := old(inflight).value;
        SavedAt(saved, log, q) && LeavesFiles(old(snapshots.files), snapshots.files, saved, q, io.snap, io.snapStuck)
      ensures Steps.Works(segments.codec, s, s') && Stands(s') && s'.acks == s.acks && s'.runs == s.runs
    {
      hide LeavesFiles, Sys.DiskInv, GoodLog, Fold, SavedAt, Idem.Tiers, Tidy, Steps.Works, Steps.SnapsStand, Steps.RunsStand;
      var (saved, q) := inflight.value;
      ghost var before := snapshots.files;
      var ok := snapshots.WriteSnapshot(saved, q, io.snap, io.snapStuck);
      s' := Steps.BackgroundWorks(segments.codec, s, before, snapshots.files, saved, q, io.snap, io.snapStuck);
      EndTallies(snapshotEvery, ticks, sinceSnap, inflight);
      inflight, ticks := None, ticks + [BackgroundEnded];
    }
  }

  lemma {:induction false} StagedCount(b: Book, jobs: seq<Job>, now0: int, nows: seq<int>)
    requires |nows| == |jobs|
    ensures |Classify(b, jobs, now0, nows).staged| <= |jobs|
  {
    if jobs != [] {
      var n := |jobs| - 1;
      StagedCount(b, jobs[..n], now0, nows[..n]);
      var s := OneSlot(b, Classify(b, jobs[..n], now0, nows[..n]), jobs[n], nows[n]);
    }
  }

  lemma BatchFacts(log: seq<Placed>, b: Book, jobs: seq<Job>, now0: int, nows: seq<int>)
    requires GoodLog(log) && b == Fold(log) && |nows| == |jobs|
    ensures b.nextSeq == |log| + 1 && Replay(EmptyBook, log).Some?
    ensures var acc := Classify(b, jobs, now0, nows);
      && |acc.staged| <= |jobs|
      && (forall i :: 0 <= i < |acc.staged| ==> acc.staged[i].seqno == |log| + 1 + i)
      && Answerable(jobs, acc.slots, acc.staged) && InOrder(acc.slots, 0, |acc.staged|)
  {
    FoldStamps(log);
    hide Classify, KeysOk, Fold, Answerable, InOrder;
    ClassifyWellFormed(b, jobs, now0, nows);
    StagedCount(b, jobs, now0, nows);
    BatchAnswerable(b, jobs, now0, nows);
    ClassifyInOrder(b, jobs, now0, nows);
  }

  lemma BatchGrows(log: seq<Placed>, b: Book, jobs: seq<Job>, now0: int, nows: seq<int>, placed: seq<Placed>)
    requires GoodLog(log) && b == Fold(log) && |nows| == |jobs| && Places(placed, Classify(b, jobs, now0, nows).staged)
    ensures GoodLog(log + placed) && Replay(Fold(log), placed) == Some(Fold(log + placed))
    ensures Fold(log + placed).nextSeq == |log + placed| + 1
    ensures (log + placed)[|log|..] == placed && |placed| <= |jobs|
  {
    StagedCount(b, jobs, now0, nows);
    BatchExtends(log, jobs, now0, nows, placed);
    FoldStamps(log + placed);
  }
}
