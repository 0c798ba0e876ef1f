/** Double entry over whole runs of the store: service-built commits, any
    batching, any power loss or settled kill. */
module ConservingRuns {
  import opened LedgerTypes
  import opened Frames
  import opened Segments
  import opened SegmentReads
  import opened Books
  import opened Batches
  import opened Histories
  import opened Conservation
  import opened System
  import opened StoreRuns
  import opened StoreSafety
  import opened StoreGuarantees

  /** Every batch of the run holds commits built by the service. */
  ghost predicate ServiceRun(ls: seq<Label>) {
    forall i :: 0 <= i < |ls| && ls[i].Begin? ==> ServiceJobs(ls[i].jobs)
  }

  ghost predicate ServicePhase(p: Phase) {
    p.Writing? || p.Synced? || p.Applied? ==> ServiceJobs(p.jobs)
  }

  ghost predicate ConservedSoFar(s: Sys) {
    ConservesAlong(EmptyBook, s.log) && ServicePhase(s.phase)
  }

  lemma {:induction false} AlongPrefix(b: Book, log: seq<Placed>, m: nat)
    requires ConservesAlong(b, log) && m <= |log|
    ensures ConservesAlong(b, log[..m])
  {
    hide Conserved, Replay;
    forall n | 0 <= n <= m
      ensures Replay(b, log[..m][..n]).Some? && Conserved(Replay(b, log[..m][..n]).value)
    {
      assert log[..m][..n] == log[..n];
    }
  }

  lemma {:induction false} AlongAt(b: Book, log: seq<Placed>, n: nat)
    requires ConservesAlong(b, log) && n <= |log|
    ensures Replay(b, log[..n]).Some? && Conserved(Replay(b, log[..n]).value)
  {
  }

  lemma {:induction false} AlongSnoc(b: Book, log: seq<Placed>, p: Placed)
    requires ConservesAlong(b, log) && Replay(b, log + [p]).Some? && Conserved(Replay(b, log + [p]).value)
    ensures ConservesAlong(b, log + [p])
  {
    hide Conserved, Replay;
    var all := log + [p];
    assert all[..|all|] == all;
    forall n | 0 <= n <= |all|
      ensures Replay(b, all[..n]).Some? && Conserved(Replay(b, all[..n]).value)
    {
      if n <= |log| {
        assert all[..n] == log[..n];
      }
    }
  }

  /** The next event of a batch in flight leaves a conserving book. */
  lemma {:induction false} AppendConserves(log: seq<Placed>, n: nat, jobs: seq<Job>, acc: Batch, p: Placed)
    requires GoodLog(log) && n <= |log| && InFlight(log, n, jobs, acc)
    requires |log| - n < |acc.staged| && p.ev == acc.staged[|log| - n]
    requires ConservesAlong(EmptyBook, log) && ServiceJobs(jobs)
    ensures ConservesAlong(EmptyBook, log + [p])
  {
    AlongAt(EmptyBook, log, n);
    assert Replay(EmptyBook, log[..n]).Some?;
    hide GoodLog, Classify, Replay, Places, ConservesAlong, Conserved, ServiceJobs;
    var front := log[n..] + [p];
    PlacesSnoc(log[n..], acc.staged, p);
    var pl := WholeBatch(front, acc.staged);
    var now0, nows :| |nows| == |jobs| && acc == Classify(Fold(log[..n]), jobs, now0, nows);
    BatchConserves(Fold(log[..n]), jobs, now0, nows, pl);
    AlongAt(Fold(log[..n]), pl, |front|);
    assert pl[..|front|] == front && log[..n] + front == log + [p];
    ReplayConcat(EmptyBook, log[..n], front);
    AlongSnoc(EmptyBook, log, p);
  }

  lemma {:induction false} AppendFacts(c: Codec, s: Sys)
    requires Inv(c, s) && s.phase.Writing?
    ensures var n := AppliedCount(s);
      && GoodLog(s.log) && 0 <= n && |s.log| == n + s.phase.written && InFlight(s.log, n, s.phase.jobs, s.phase.acc)
  {
    hide DiskInv, GoodLog, InFlight, IsFold, RunsInv, BooksInv, AcksInv;
  }

  lemma {:induction false} WritingConserves(c: Codec, s: Sys, l: Label)
    requires Inv(c, s) && s.phase.Writing? && s.disk != [] && WritingNext(c, s, l).Some? && ConservedSoFar(s)
    ensures ConservedSoFar(WritingNext(c, s, l).value)
  {
    hide Inv, ConservesAlong, ServiceJobs, SyncActive, CreateSegment, SyncDir, AppendBytes, Frame, Encodable;
    AppendFacts(c, s);
    if l.AppendNext? {
      var acc, k := s.phase.acc, s.phase.written;
      AppendConserves(s.log, AppliedCount(s), s.phase.jobs, acc, Placed(acc.staged[k], SegmentReads.NextPos(s.disk)));
    }
  }

  lemma {:induction false} RunsKeepsLog(s: Sys, l: Label)
    requires RunsNext(s, l).Some?
    ensures RunsNext(s, l).value.log == s.log && RunsNext(s, l).value.phase == s.phase
  {
    hide Restrict, Union;
  }

  lemma {:induction false} StepConserves(c: Codec, s: Sys, l: Label)
    requires Sound(c) && Inv(c, s) && Next(c, s, l).Some? && ConservedSoFar(s)
    requires l.Begin? ==> ServiceJobs(l.jobs)
    ensures ConservedSoFar(Next(c, s, l).value)
  {
    hide Inv, Recover, WritingNext, RunsNext, Full, AcksOf, Classify, CrashImage, CanTear, AllSynced, Replay,
      ConservesAlong, ServiceJobs, Reopened;
    match l {
      case Crash(image, pick) =>
        var m := CrashStep(c, s, image, pick);
        ReopenedParts(s, Repair(c, image).value, pick, m);
        AlongPrefix(EmptyBook, s.log, m);
      case Kill(torn, pick) =>
        KillStep(c, s, torn, pick);
        ReopenedParts(s, Repair(c, AppendBytes(s.disk, torn)).value, pick, |s.log|);
      case _ =>
        if l.RotateSync? || l.RotateCreate? || l.RotateLink? || l.AppendNext? || l.SyncBatch? {
          NotRuns(s, l);
          WritingConserves(c, s, l);
        } else if !(l.Begin? || l.ApplyBatch? || l.ReplyAll? || l.SnapshotNow? || l.CloneState? || l.WriteSnapshot? ||
                    l.DropSnapshot? || l.Die?) {
          RunsKeepsLog(s, l);
        }
    }
  }

  lemma {:induction false} EmptyConserved()
    ensures ConservesAlong(EmptyBook, [])
  {
    forall asset
      ensures NetOf(EmptyBook.accounts, asset) == 0
    {
      assert Holdings(EmptyBook.accounts, asset).Keys == {};
    }
  }

  lemma {:induction false} RunConserves(c: Codec, ls: seq<Label>)
    requires Sound(c) && Orderly(c, ls) && ServiceRun(ls)
    ensures ConservedSoFar(Run(c, ls).value)
  {
    hide Inv, Next, Settled, ConservesAlong, ServiceJobs;
    if ls == [] {
      EmptyConserved();
    } else {
      var n := |ls| - 1;
      RunConserves(c, ls[..n]);
      RunKeeps(c, ls[..n]);
      StepConserves(c, Run(c, ls[..n]).value, ls[n]);
    }
  }

  /** Double-entry conservation: in every state a store reaches on service-built
      commits, through batching, retries, spills, snapshots, kills and power losses, the
      raw balances of each asset add up to zero, lifetime debits equal lifetime
      credits even once saturated, and every account ever posted to meets its
      minimum. */
  lemma DoubleEntryHolds(c: Codec, ls: seq<Label>)
    requires Sound(c) && Orderly(c, ls) && ServiceRun(ls)
    ensures Conserved(Full(Run(c, ls).value))
  {
    RunConserves(c, ls);
    LiveIsReplay(c, ls);
    var s := Run(c, ls).value;
    hide RunFrom, SettledFrom, Full, Conserved, Replay;
    AlongAt(EmptyBook, s.log, AppliedCount(s));
  }
}
