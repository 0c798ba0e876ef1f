/**
 Every step of the store keeps its invariant: rotation, append and sync in any
 order the writer allows, the apply after the sync, spills, merges and removals
 of run files, and the replies. Memory stays the fold of the applied events, the
 runs never disagree with the log, and every Ok answer a batch gives carries the
 record that the log has for its key, whichever way it was found.
 */
module StoreRuns {
  import opened LedgerTypes
  import opened Frames
  import opened Segments
  import opened SegmentReads
  import opened PostingIndexes
  import opened Books
  import opened Batches
  import opened Histories
  import opened System

  // ------------------------------------------------------------------
  // Memory against a growing log
  // ------------------------------------------------------------------

  lemma MemExtends(s: Sys, log: seq<Placed>, log': seq<Placed>)
    requires MemInv(s, log) && log <= log'
    ensures MemInv(s, log')
  {
    hide GoodLog, Fold, LogKeys, Within, InReg;
    assert forall q :: 0 <= q <= |log| ==> log'[..q] == log[..q];
    BooksExtend(s.snaps, log, log', AppliedCount(s), s.runs, s.reg);
    BooksExtend(s.clones, log, log', AppliedCount(s), s.runs, s.reg);
  }

  lemma BooksExtend(books: map<nat, Book>, log: seq<Placed>, log': seq<Placed>, n: nat, runs: Runs, reg: set<nat>)
    requires BooksInv(books, log, n, runs, reg) && n <= |log| && log <= log'
    ensures BooksInv(books, log', n, runs, reg)
  {
    hide GoodLog, Fold, LogKeys, Within, InReg;
    forall q | q in books
      ensures IsFold(books[q], log', q, runs, reg)
    {
      assert IsFold(books[q], log, q, runs, reg);
      assert log'[..q] == log[..q];
    }
  }

  /** The writer classifies against exactly the fold of the applied events. */
  lemma FullIsFold(s: Sys, log: seq<Placed>)
    requires MemInv(s, log)
    ensures GoodLog(log[..AppliedCount(s)]) && Full(s) == Fold(log[..AppliedCount(s)])
  {
    hide GoodLog, Lookups;
    var applied := log[..AppliedCount(s)];
    assert Covers(s.mem.keys, s.runs, s.reg, LogKeys(applied));
    CoveredLookups(s.mem.keys, s.runs, s.reg, LogKeys(applied));
    FoldStamps(applied);
  }

  ghost predicate RegGrows(runs: Runs, reg: set<nat>, runs': Runs, reg': set<nat>) {
    forall k :: InReg(runs, reg, k) ==> InReg(runs', reg', k)
  }

  lemma BooksRegrow(books: map<nat, Book>, log: seq<Placed>, n: nat, runs: Runs, reg: set<nat>, runs': Runs,
                    reg': set<nat>)
    requires BooksInv(books, log, n, runs, reg) && RegGrows(runs, reg, runs', reg')
    ensures BooksInv(books, log, n, runs', reg')
  {
    hide GoodLog, Fold, LogKeys, Within, InReg;
    forall q | q in books
      ensures IsFold(books[q], log, q, runs', reg')
    {
      assert IsFold(books[q], log, q, runs, reg);
    }
  }

  /** Changing the run files and the hot map keeps memory sound when files still
      only repeat the log and no registered key is lost. */
  lemma RunsChange(s: Sys, s': Sys, log: seq<Placed>)
    requires MemInv(s, log) && s' == s.(runs := s'.runs, reg := s'.reg, mem := s.mem.(keys := s'.mem.keys))
    requires RegGrows(s.runs, s.reg, s'.runs, s'.reg) && s'.reg <= s'.runs.Keys
    requires RunsInv(s'.runs, log, AppliedCount(s))
    requires Within(s'.mem.keys, s.mem.keys)
    requires forall k :: k in s.mem.keys ==> k in s'.mem.keys || InReg(s'.runs, s'.reg, k)
    ensures MemInv(s', log)
  {
    BooksRegrow(s.snaps, log, AppliedCount(s), s.runs, s.reg, s'.runs, s'.reg);
    BooksRegrow(s.clones, log, AppliedCount(s), s.runs, s.reg, s'.runs, s'.reg);
    WithinTransitive(s'.mem.keys, s.mem.keys, LogKeys(log[..AppliedCount(s)]));
    hide GoodLog, Fold, LogKeys, Within, InReg, BooksInv, RunsInv, AcksInv;
  }

  lemma NewRun(runs: Runs, log: seq<Placed>, n: nat, r: nat, file: Index)
    requires n <= |log| && RunsInv(runs, log, n) && Within(file, LogKeys(log[..n]))
    ensures RunsInv(runs[r := file], log, n)
  {
    hide LogKeys, Within;
  }

  lemma FreshRunGrows(runs: Runs, reg: set<nat>, r: nat, file: Index)
    requires r !in reg
    ensures RegGrows(runs, reg, runs[r := file], reg) && RegGrows(runs, reg, runs[r := file], reg + {r})
    ensures forall k :: k in file ==> InReg(runs[r := file], reg + {r}, k)
  {
    forall k | InReg(runs, reg, k)
      ensures InReg(runs[r := file], reg, k) && InReg(runs[r := file], reg + {r}, k)
    {
      var n :| n in reg && n in runs && k in runs[n];
      assert n in runs[r := file] && k in runs[r := file][n];
    }
    forall k | k in file
      ensures InReg(runs[r := file], reg + {r}, k)
    {
      assert r in reg + {r} && k in runs[r := file][r];
    }
  }

  lemma UnionWithin(s: Sys, log: seq<Placed>)
    requires MemInv(s, log)
    ensures Within(Union(s.runs, s.reg), LogKeys(log[..AppliedCount(s)]))
    ensures forall k :: k in Union(s.runs, s.reg) <==> InReg(s.runs, s.reg, k)
  {
    hide GoodLog, Fold, LogKeys;
    var truth := LogKeys(log[..AppliedCount(s)]);
    forall k | InReg(s.runs, s.reg, k)
      ensures k in truth && truth[k] == FromReg(s.runs, s.reg, k)
    {
      var n :| n in s.reg && n in s.runs && k in s.runs[n] && FromReg(s.runs, s.reg, k) == s.runs[n][k];
      assert Within(s.runs[n], truth);
    }
  }

  lemma RunsStep(s: Sys, l: Label, log: seq<Placed>)
    requires MemInv(s, log) && RunsNext(s, l).Some?
    ensures MemInv(RunsNext(s, l).value, log)
    ensures AppliedCount(RunsNext(s, l).value) == AppliedCount(s)
  {
    var s' := RunsNext(s, l).value;
    var n := AppliedCount(s);
    hide GoodLog, Fold, LogKeys, BooksInv, AcksInv, InReg, Lookups, RegGrows;
    match l {
      case Spill(r, keys) =>
        FreshRunGrows(s.runs, s.reg, r, Restrict(s.mem.keys, keys));
        NewRun(s.runs, log, n, r, Restrict(s.mem.keys, keys));
      case LeaveRun(r, keys) =>
        FreshRunGrows(s.runs, s.reg, r, Restrict(s.mem.keys, keys));
        NewRun(s.runs, log, n, r, Restrict(s.mem.keys, keys));
      case Merge(r) =>
        UnionWithin(s, log);
        NewRun(s.runs, log, n, r, Union(s.runs, s.reg));
        MergeGrows(s.runs, s.reg, r);
      case LeaveMerge(r) =>
        UnionWithin(s, log);
        NewRun(s.runs, log, n, r, Union(s.runs, s.reg));
        FreshRunGrows(s.runs, s.reg, r, Union(s.runs, s.reg));
      case RemoveRun(r) =>
        RemoveGrows(s.runs, s.reg, r);
    }
    RunsChange(s, s', log);
  }

  lemma MergeGrows(runs: Runs, reg: set<nat>, r: nat)
    ensures RegGrows(runs, reg, runs[r := Union(runs, reg)], {r})
  {
    forall k | InReg(runs, reg, k)
      ensures InReg(runs[r := Union(runs, reg)], {r}, k)
    {
      assert k in runs[r := Union(runs, reg)][r];
    }
  }

  lemma RemoveGrows(runs: Runs, reg: set<nat>, r: nat)
    requires r !in reg
    ensures RegGrows(runs, reg, runs - {r}, reg)
  {
    forall k | InReg(runs, reg, k)
      ensures InReg(runs - {r}, reg, k)
    {
      var n :| n in reg && n in runs && k in runs[n];
      assert n in runs - {r};
    }
  }

  // ------------------------------------------------------------------
  // The batch in flight
  // ------------------------------------------------------------------

  lemma BeginStep(c: Codec, s: Sys, jobs: seq<Job>, now0: int, nows: seq<int>)
    requires Inv(c, s) && s.phase.Idle? && |nows| == |jobs|
    ensures Inv(c, s.(phase := Writing(jobs, Classify(Full(s), jobs, now0, nows), 0)))
  {
    hide DiskInv, GoodLog, Classify, Fold;
    FullIsFold(s, s.log);
    var acc := Classify(Full(s), jobs, now0, nows);
    assert s.log[..|s.log|] == s.log && s.log[|s.log|..] == [];
    assert InFlight(s.log, |s.log|, jobs, acc);
    assert MemInv(s.(phase := Writing(jobs, acc, 0)), s.log);
  }

  /** The next staged event has the next sequence number. */
  lemma NextStaged(log: seq<Placed>, n: nat, jobs: seq<Job>, acc: Batch)
    requires GoodLog(log) && n <= |log| && InFlight(log, n, jobs, acc)
    ensures forall i :: 0 <= i < |acc.staged| ==> acc.staged[i].seqno == n + 1 + i
  {
    assert Replay(EmptyBook, log[..n]).Some?;
    hide GoodLog, Classify, KeysOk, Replay, Fold;
    var now0, nows :| |nows| == |jobs| && acc == Classify(Fold(log[..n]), jobs, now0, nows);
    ClassifyWellFormed(Fold(log[..n]), jobs, now0, nows);
    FoldStamps(log[..n]);
  }

  /** A placement of the whole batch that begins with `front`. */
  lemma WholeBatch(front: seq<Placed>, staged: seq<WireEvent>) returns (pl: seq<Placed>)
    requires |front| <= |staged| && Places(front, staged[..|front|])
    ensures Places(pl, staged) && front <= pl
  {
    var k := |front|;
    pl := front + seq(|staged| - k, i requires 0 <= i < |staged| - k => Placed(staged[k + i], (0, 0)));
    assert forall i :: 0 <= i < k ==> front[i].ev == staged[..k][i];
  }

  lemma PlacesSnoc(pl: seq<Placed>, staged: seq<WireEvent>, p: Placed)
    requires |pl| < |staged| && Places(pl, staged[..|pl|]) && p.ev == staged[|pl|]
    ensures Places(pl + [p], staged[..|pl| + 1])
  {
    assert staged[..|pl| + 1] == staged[..|pl|] + [staged[|pl|]];
  }

  lemma BatchPrefixGood(log: seq<Placed>, jobs: seq<Job>, now0: int, nows: seq<int>, pl: seq<Placed>,
                        front: seq<Placed>)
    requires GoodLog(log) && |nows| == |jobs| && front <= pl
    requires Places(pl, Classify(Fold(log), jobs, now0, nows).staged)
    ensures GoodLog(log + front)
  {
    BatchExtends(log, jobs, now0, nows, pl);
    GoodPrefix(log + pl, |log + front|);
    assert (log + pl)[..|log + front|] == log + front;
  }

  /** Appending the next staged event, wherever it lands, extends the log to a
      good one. */
  lemma AppendIsGood(log: seq<Placed>, n: nat, jobs: seq<Job>, acc: Batch, p: Placed)
    requires GoodLog(log) && n <= |log| && InFlight(log, n, jobs, acc)
    requires |log| - n < |acc.staged| && p.ev == acc.staged[|log| - n]
    ensures GoodLog(log + [p])
  {
    assert Replay(EmptyBook, log[..n]).Some?;
    hide GoodLog, Classify, Replay, Fold, Places;
    var now0, nows :| |nows| == |jobs| && acc == Classify(Fold(log[..n]), jobs, now0, nows);
    NextIsGood(log[..n], log[n..], jobs, now0, nows, acc, p);
    assert log[..n] + (log[n..] + [p]) == log + [p];
  }

  lemma {:induction false} NextIsGood(log: seq<Placed>, front: seq<Placed>, jobs: seq<Job>, now0: int, nows: seq<int>, acc: Batch,
                                      p: Placed)
    requires GoodLog(log) && |nows| == |jobs| && acc == Classify(Fold(log), jobs, now0, nows)
    requires |front| < |acc.staged| && Places(front, acc.staged[..|front|]) && p.ev == acc.staged[|front|]
    ensures GoodLog(log + (front + [p]))
  {
    hide GoodLog, Classify, Replay, Fold, Places;
    PlacesSnoc(front, acc.staged, p);
    var pl := WholeBatch(front + [p], acc.staged);
    BatchPrefixGood(log, jobs, now0, nows, pl, front + [p]);
  }

  lemma InFlightExtends(log: seq<Placed>, n: nat, jobs: seq<Job>, acc: Batch, p: Placed)
    requires GoodLog(log) && n <= |log| && InFlight(log, n, jobs, acc)
    requires |log| - n < |acc.staged| && p.ev == acc.staged[|log| - n]
    ensures GoodLog(log + [p]) && InFlight(log + [p], n, jobs, acc)
  {
    AppendIsGood(log, n, jobs, acc, p);
    hide GoodLog, Classify, Replay, Fold, Places;
    PlacesSnoc(log[n..], acc.staged, p);
    assert (log + [p])[..n] == log[..n] && (log + [p])[n..] == log[n..] + [p];
  }

  lemma SameBasesPlaces(c: Codec, d: Disk, d': Disk, log: seq<Placed>)
    requires SameBases(d, d') && PlacedLog(c, d, Events(log)) == log
    ensures PlacedLog(c, d', Events(log)) == log
  {
    PlacesFollowBases(c, d, d', Events(log));
  }

  lemma SyncStep(c: Codec, disk: Disk, log: seq<Placed>, dur: nat)
    requires DiskInv(c, disk, log, dur)
    ensures DiskInv(c, SyncActive(disk), log, |log|) && Last(SyncActive(disk)).linked == Last(disk).linked
  {
    hide Holds, Durable, PlacedLog, AllEncodable;
    assert disk != [] by { HoldsSomething(c, disk, Events(log)); }
    SyncHolds(c, disk, Events(log), dur);
    SameBasesPlaces(c, disk, SyncActive(disk), log);
  }

  lemma HoldsSomething(c: Codec, d: Disk, es: seq<WireEvent>)
    requires Holds(c, d, es)
    ensures d != [] && 1 <= Last(d).base <= |es| + 1
  {
  }

  lemma CreateStep(c: Codec, disk: Disk, log: seq<Placed>)
    requires DiskInv(c, disk, log, |log|) && disk != [] && Last(disk).linked
    ensures DiskInv(c, CreateSegment(disk, |log| + 1), log, |log|)
  {
    hide Holds, Durable, PlacedLog, AllEncodable;
    CreateHolds(c, disk, Events(log));
    CreateKeepsPlaces(c, disk, Events(log));
  }

  lemma LinkStep(c: Codec, disk: Disk, log: seq<Placed>, dur: nat)
    requires DiskInv(c, disk, log, dur)
    ensures DiskInv(c, SyncDir(disk), log, dur)
  {
    hide Holds, Durable, PlacedLog, AllEncodable;
    HoldsSomething(c, disk, Events(log));
    SyncDirHolds(c, disk, Events(log), dur);
    SameBasesPlaces(c, disk, SyncDir(disk), log);
  }

  lemma AppendStep(c: Codec, disk: Disk, log: seq<Placed>, dur: nat, e: WireEvent)
    requires DiskInv(c, disk, log, dur) && disk != [] && Last(disk).linked
    requires Encodable(c, e) && |log| < I64_MAX
    ensures DiskInv(c, AppendBytes(disk, Frame(c, e)), log + [Placed(e, SegmentReads.NextPos(disk))], dur)
  {
    hide Holds, Durable, PlacedLog;
    var p := Placed(e, SegmentReads.NextPos(disk));
    assert Events(log + [p]) == Events(log) + [e];
    AppendHolds(c, disk, Events(log), dur, e);
    AppendPlaces(c, disk, Events(log), e);
  }

  lemma WritingStep(c: Codec, s: Sys, l: Label)
    requires Inv(c, s) && s.phase.Writing? && s.disk != [] && WritingNext(c, s, l).Some?
    ensures Inv(c, WritingNext(c, s, l).value)
    ensures s.log <= WritingNext(c, s, l).value.log && s.dur <= WritingNext(c, s, l).value.dur
    ensures WritingNext(c, s, l).value.acks == s.acks
  {
    hide GoodLog, Classify, DiskInv, MemInv, InFlight;
    var s' := WritingNext(c, s, l).value;
    var n, k, acc := AppliedCount(s), s.phase.written, s.phase.acc;
    MemCounts(s);
    DiskCounts(c, s.disk, s.log, s.dur);
    NextStaged(s.log, n, s.phase.jobs, acc);
    match l {
      case RotateSync => SyncStep(c, s.disk, s.log, s.dur);
      case RotateCreate => CreateStep(c, s.disk, s.log);
      case RotateLink => LinkStep(c, s.disk, s.log, s.dur);
      case AppendNext =>
        AppendStep(c, s.disk, s.log, s.dur, acc.staged[k]);
        InFlightExtends(s.log, n, s.phase.jobs, acc, Placed(acc.staged[k], SegmentReads.NextPos(s.disk)));
        MemExtends(s, s.log, s'.log);
      case SyncBatch =>
        if acc.staged != [] {
          SyncStep(c, s.disk, s.log, s.dur);
        }
    }
    MemIgnores(s, s', s'.log);
  }

  lemma MemCounts(s: Sys)
    requires MemInv(s, s.log)
    ensures 0 <= AppliedCount(s) <= |s.log|
  {
  }

  lemma DiskCounts(c: Codec, disk: Disk, log: seq<Placed>, dur: nat)
    requires DiskInv(c, disk, log, dur)
    ensures disk != [] && dur <= |log| <= I64_MAX
  {
    hide Holds;
  }

  /** The memory invariant looks at memory, runs, snapshots and answers only. */
  lemma MemIgnores(s: Sys, s': Sys, log: seq<Placed>)
    requires MemInv(s, log)
    requires s'.mem == s.mem && s'.runs == s.runs && s'.reg == s.reg
    requires s'.snaps == s.snaps && s'.clones == s.clones && s'.acks == s.acks
    ensures MemInv(s', log)
  {
    hide IsFold, RunsInv, BooksInv, AcksInv;
  }

  // ------------------------------------------------------------------
  // Apply and reply
  // ------------------------------------------------------------------

  /** Moving the applied mark forward keeps what was already true. */
  lemma AppliedGrows(s: Sys, mem: Book, log: seq<Placed>)
    requires MemInv(s, log) && GoodLog(log)
    requires AppliedCount(s) <= mem.nextSeq - 1 <= |log|
    requires IsFold(mem, log, mem.nextSeq - 1, s.runs, s.reg)
    ensures MemInv(s.(mem := mem), log)
  {
    var n, m := AppliedCount(s), mem.nextSeq - 1;
    assert log[..m][..n] == log[..n];
    GoodPrefix(log, m);
    PrefixKeys(log[..m], n);
    hide GoodLog, Fold, LogKeys, IsFold, InReg;
    var small, big := LogKeys(log[..n]), LogKeys(log[..m]);
    forall r | r in s.runs
      ensures Within(s.runs[r], big)
    {
      WithinTransitive(s.runs[r], small, big);
    }
  }

  /** Replaying the rest of a log onto a fold of its front, spilled keys or not,
      succeeds. */
  lemma FoldContinues(b: Book, log: seq<Placed>, q: nat, runs: Runs, reg: set<nat>)
    requires GoodLog(log) && IsFold(b, log, q, runs, reg)
    ensures Replay(b, log[q..]) == Some(Fold(log).(keys := b.keys + LogKeys(log[q..])))
  {
    FoldConcat(log, q);
    assert b == Fold(log[..q]).(keys := b.keys);
    ReplayIgnoresKeys(Fold(log[..q]), b.keys, log[q..]);
  }

  lemma ApplyNext(c: Codec, s: Sys, n: nat, mem: Book)
    requires s.phase.Synced? && |s.log| == n + |s.phase.acc.staged| && Replay(s.mem, s.log[n..]) == Some(mem)
    ensures Next(c, s, ApplyBatch) == Some(s.(mem := mem, phase := Applied(s.phase.jobs, s.phase.acc)))
  {
    hide Replay;
  }

  lemma SyncedFacts(c: Codec, s: Sys)
    requires Inv(c, s) && s.phase.Synced?
    ensures var n := AppliedCount(s);
      && Replay(EmptyBook, s.log).Some?
      && 0 <= n && |s.log| == n + |s.phase.acc.staged| == s.dur
      && IsFold(s.mem, s.log, n, s.runs, s.reg)
  {
    hide DiskInv, IsFold, BooksInv, RunsInv, AcksInv, InFlight, Replay;
  }

  lemma AppliedInv(c: Codec, s: Sys, mem: Book)
    requires Inv(c, s) && s.phase.Synced? && mem.nextSeq == |s.log| + 1 && MemInv(s.(mem := mem), s.log)
    ensures Inv(c, s.(mem := mem, phase := Applied(s.phase.jobs, s.phase.acc)))
  {
    hide GoodLog, DiskInv, IsFold, BooksInv, RunsInv, AcksInv, InFlight;
    MemIgnores(s.(mem := mem), s.(mem := mem, phase := Applied(s.phase.jobs, s.phase.acc)), s.log);
  }

  /** The post-fsync apply never fails, and leaves memory at the fold of the
      whole log. */
  lemma ApplyStep(c: Codec, s: Sys)
    requires Inv(c, s) && s.phase.Synced?
    ensures var r := Next(c, s, ApplyBatch);
      r.Some? && Inv(c, r.value) && r.value.log == s.log && r.value.dur == s.dur
  {
    SyncedFacts(c, s);
    var n := AppliedCount(s);
    var mem := Fold(s.log).(keys := s.mem.keys + LogKeys(s.log[n..]));
    hide GoodLog, DiskInv, Fold, LogKeys, InFlight, IsFold, MemInv, PhaseInv, Replay, Next;
    FoldContinues(s.mem, s.log, n, s.runs, s.reg);
    FoldStamps(s.log);
    ContinuedIsFold(s.mem, s.log, n, s.runs, s.reg);
    AppliedGrows(s, mem, s.log);
    ApplyNext(c, s, n, mem);
    AppliedInv(c, s, mem);
  }

  lemma ContinuedIsFold(b: Book, log: seq<Placed>, q: nat, runs: Runs, reg: set<nat>)
    requires GoodLog(log) && IsFold(b, log, q, runs, reg)
    ensures IsFold(Fold(log).(keys := b.keys + LogKeys(log[q..])), log, |log|, runs, reg)
  {
    assert Replay(EmptyBook, log).Some?;
    hide GoodLog, Fold, LogKeys, InReg, Replay;
    assert log[..|log|] == log;
    assert log == log[..q] + log[q..];
    LogKeysConcat(log[..q], log[q..]);
  }

  lemma {:induction false} PostedRecord(log: seq<Placed>, j: nat)
    requires UniqueKeys(log) && j < |log| && log[j].ev.event.TransactionPosted?
    ensures log[j].ev.event.tx.key in LogKeys(log)
    ensures LogKeys(log)[log[j].ev.event.tx.key] == RecordOf(log[j].ev)
  {
    PostedIsKey(log, j);
    var i := KeyNamesEvent(log, log[j].ev.event.tx.key);
  }

  lemma StagedRecord(log: seq<Placed>, n: nat, staged: seq<WireEvent>, j: nat)
    requires UniqueKeys(log) && n <= |log| && Places(log[n..], staged)
    requires j < |staged| && staged[j].event.TransactionPosted?
    ensures staged[j].event.tx.key in LogKeys(log)
    ensures LogKeys(log)[staged[j].event.tx.key] == RecordOf(staged[j])
  {
    assert log[n..][j].ev == staged[j];
    PostedRecord(log, n + j);
  }

  /** Every Ok answer of a batch carries the record its key has in the log. */
  lemma AnswersRecorded(log: seq<Placed>, jobs: seq<Job>, acc: Batch, i: nat)
    requires GoodLog(log) && |acc.staged| <= |log| && InFlight(log, |log| - |acc.staged|, jobs, acc)
    requires i < |jobs| && i < |acc.slots| && Answer(jobs[i], acc.slots[i], acc.staged).Some?
    ensures jobs[i].tx.key in LogKeys(log)
    ensures LogKeys(log)[jobs[i].tx.key] == Answer(jobs[i], acc.slots[i], acc.staged).value
  {
    var n := |log| - |acc.staged|;
    assert acc.staged[..|log| - n] == acc.staged;
    assert UniqueKeys(log) && Replay(EmptyBook, log[..n]).Some?;
    hide GoodLog, Classify, LogKeys, Fold, UniqueKeys, Replay, Places;
    var now0, nows :| |nows| == |jobs| && acc == Classify(Fold(log[..n]), jobs, now0, nows);
    SlotsAnswer(Fold(log[..n]), jobs, now0, nows);
    assert SlotOk(Fold(log[..n]), acc.staged, jobs[i], acc.slots[i]);
    match acc.slots[i] {
      case Dup(rec) =>
        FoldStamps(log[..n]);
        PrefixKeys(log, n);
      case DupInBatch(j) => StagedRecord(log, n, acc.staged, j);
      case Staged(j) => StagedRecord(log, n, acc.staged, j);
      case _ =>
    }
  }

  lemma AcksRecorded(log: seq<Placed>, jobs: seq<Job>, acc: Batch)
    requires GoodLog(log) && |acc.staged| <= |log| && InFlight(log, |log| - |acc.staged|, jobs, acc)
    ensures AcksInv(AcksOf(jobs, acc), log, |log|)
  {
    assert log[..|log|] == log;
    hide GoodLog, LogKeys, InFlight, Answer;
    forall a | a in AcksOf(jobs, acc)
      ensures a.key in LogKeys(log) && LogKeys(log)[a.key] == a.rec
    {
      var i :| 0 <= i < |jobs| && i < |acc.slots| && Answer(jobs[i], acc.slots[i], acc.staged).Some?
            && a == Ack(jobs[i].tx.key, Answer(jobs[i], acc.slots[i], acc.staged).value);
      AnswersRecorded(log, jobs, acc, i);
    }
  }

  lemma MemAcks(s: Sys, s': Sys, log: seq<Placed>)
    requires MemInv(s, log) && s' == s.(acks := s'.acks, phase := s'.phase)
    requires AcksInv(s'.acks, log, AppliedCount(s))
    ensures MemInv(s', log)
  {
    hide IsFold, BooksInv, RunsInv, AcksInv;
  }

  lemma AcksUnion(a: set<Ack>, b: set<Ack>, log: seq<Placed>)
    requires AcksInv(a, log, |log|) && AcksInv(b, log, |log|)
    ensures AcksInv(a + b, log, |log|)
  {
    hide LogKeys;
  }

  lemma ReplyStep(c: Codec, s: Sys)
    requires Inv(c, s) && s.phase.Applied?
    ensures Inv(c, s.(acks := s.acks + AcksOf(s.phase.jobs, s.phase.acc), phase := Idle))
  {
    hide GoodLog, DiskInv, IsFold, BooksInv, RunsInv, AcksInv, InFlight, AcksOf, LogKeys;
    MemCounts(s);
    AcksRecorded(s.log, s.phase.jobs, s.phase.acc);
    AcksUnion(s.acks, AcksOf(s.phase.jobs, s.phase.acc), s.log);
    MemAcks(s, s.(acks := s.acks + AcksOf(s.phase.jobs, s.phase.acc), phase := Idle), s.log);
  }
}
