/** What every run of the store guarantees: crash safety, snapshot independence,
    exactly-once posting, and a live state that is the replay of the log. */
module StoreGuarantees {
  import opened LedgerTypes
  import opened Frames
  import opened Segments
  import opened SegmentReads
  import opened Books
  import opened Batches
  import opened Histories
  import opened System
  import opened StoreRuns
  import opened StoreSafety

  lemma {:induction false} RunPrefix(c: Codec, ls: seq<Label>, n: nat)
    requires Sound(c) && Orderly(c, ls) && n <= |ls|
    ensures Orderly(c, ls[..n]) && Follows(Run(c, ls[..n]).value, Run(c, ls).value)
  {
    hide Inv, Next, Follows, Settled;
    if n == |ls| {
      assert ls[..n] == ls;
      RunKeeps(c, ls);
      FollowsSelf(c, Run(c, ls).value);
    } else {
      var front := ls[..|ls| - 1];
      RunPrefix(c, front, n);
      assert front[..n] == ls[..n];
      RunKeeps(c, front);
      StepKeeps(c, Run(c, front).value, ls[|ls| - 1]);
      FollowsThrough(Run(c, ls[..n]).value, Run(c, front).value, Run(c, ls).value);
    }
  }

  lemma FollowsSelf(c: Codec, s: Sys)
    requires Inv(c, s)
    ensures Follows(s, s)
  {
    DurWithin(c, s);
  }

  lemma FollowsThrough(a: Sys, b: Sys, d: Sys)
    requires Follows(a, b) && Follows(b, d)
    ensures Follows(a, d)
  {
    assert b.log[..b.dur][..a.dur] == b.log[..a.dur];
    assert d.log[..b.dur][..a.dur] == d.log[..a.dur];
  }

  /** What is durable once stays, event for event, and no Ok answer is ever
      taken back, whatever happens later, power losses and kills included. */
  lemma DurableForever(c: Codec, ls: seq<Label>, n: nat)
    requires Sound(c) && Orderly(c, ls) && n <= |ls| && Run(c, ls[..n]).Some?
    ensures var before, after := Run(c, ls[..n]).value, Run(c, ls).value;
      && before.dur <= |before.log| && before.log[..before.dur] <= after.log
      && before.acks <= after.acks
  {
    RunPrefix(c, ls, n);
    var before, after := Run(c, ls[..n]).value, Run(c, ls).value;
    assert after.log[..before.dur] <= after.log;
  }

  lemma AckedIsPosted(s: Sys, a: Ack) returns (i: nat)
    requires MemInv(s, s.log) && GoodLog(s.log) && a in s.acks
    ensures i < AppliedCount(s) && i < |s.log| && Posts(s.log, i, a.key, a.rec)
  {
    var applied := s.log[..AppliedCount(s)];
    GoodPrefix(s.log, AppliedCount(s));
    assert UniqueKeys(applied);
    hide GoodLog, LogKeys, UniqueKeys;
    i := KeyNamesEvent(applied, a.key);
    assert applied[i] == s.log[i];
  }

  lemma PostsOnce(log: seq<Placed>, i: nat, j: nat, key: string, r: Committed, t: Committed)
    requires UniqueKeys(log) && Posts(log, i, key, r) && Posts(log, j, key, t)
    ensures i == j && r == t
  {
    PostedIsKey(log, i);
    var k := KeyNamesEvent(log, key);
  }

  predicate PostsKey(log: seq<Placed>, i: nat, key: string)
    requires i < |log|
  {
    log[i].ev.event.TransactionPosted? && log[i].ev.event.tx.key == key
  }

  /** Exactly once: over any run with retries, spills, merges, snapshots and power
      losses, each key labels at most one posted event, and every Ok answer ever
      given for it names that event: durable, at the answered sequence number,
      with the answered transaction id and time. */
  lemma ExactlyOnce(c: Codec, ls: seq<Label>, a: Ack) returns (i: nat)
    requires Sound(c) && Orderly(c, ls) && a in Run(c, ls).value.acks
    ensures var s := Run(c, ls).value;
      && i < s.dur <= |s.log| && PostsKey(s.log, i, a.key)
      && a.rec == Committed(s.log[i].ev.event.tx.id, i + 1, s.log[i].ev.at)
      && (forall j :: 0 <= j < |s.log| && PostsKey(s.log, j, a.key) ==> j == i)
      && (forall b :: b in s.acks && b.key == a.key ==> b == a)
  {
    var s := Run(c, ls).value;
    RunKeeps(c, ls);
    DurWithin(c, s);
    assert UniqueKeys(s.log) && Ordered(s.log) && AppliedCount(s) <= s.dur;
    hide Inv, GoodLog, MemInv, UniqueKeys, Ordered, RunFrom, SettledFrom;
    assert MemInv(s, s.log) && GoodLog(s.log) by { InvParts(c, s); }
    i := AckedIsPosted(s, a);
    SeqnoAt(s.log, i);
    forall j | 0 <= j < |s.log| && PostsKey(s.log, j, a.key)
      ensures j == i
    {
      PostsOnce(s.log, i, j, a.key, a.rec, RecordOf(s.log[j].ev));
    }
    forall b | b in s.acks && b.key == a.key
      ensures b == a
    {
      var j := AckedIsPosted(s, b);
      PostsOnce(s.log, i, j, a.key, a.rec, b.rec);
    }
  }

  lemma SeqnoAt(log: seq<Placed>, i: nat)
    requires Ordered(log) && i < |log|
    ensures log[i].ev.seqno == i + 1
  {
  }

  lemma InvParts(c: Codec, s: Sys)
    requires Inv(c, s)
    ensures MemInv(s, s.log) && GoodLog(s.log) && AppliedCount(s) <= s.dur <= |s.log|
  {
    DurWithin(c, s);
    hide MemInv, GoodLog, PhaseInv, DiskInv;
  }

  /** The live state is the replay of the log: what memory and the index answer
      is, in every state of every run, the fold of the first events of a log with
      dense sequence numbers and times that never decrease; all of those events
      are durable, and between batches they are the whole log. */
  lemma LiveIsReplay(c: Codec, ls: seq<Label>)
    requires Sound(c) && Orderly(c, ls)
    ensures var s := Run(c, ls).value;
      var n := AppliedCount(s);
      && 0 <= n <= s.dur <= |s.log| && Ordered(s.log)
      && Replay(EmptyBook, s.log[..n]) == Some(Full(s))
      && (s.phase.Idle? ==> n == |s.log|)
  {
    var s := Run(c, ls).value;
    RunKeeps(c, ls);
    InvParts(c, s);
    hide RunFrom, SettledFrom, MemInv, Full;
    FullIsFold(s, s.log);
  }

  /** Once the batch is on disk the apply always goes through: the poison branch
      after the fsync is unreachable. */
  lemma ApplyAlwaysEnabled(c: Codec, ls: seq<Label>)
    requires Sound(c) && Orderly(c, ls) && Run(c, ls).value.phase.Synced?
    ensures Next(c, Run(c, ls).value, ApplyBatch).Some?
  {
    RunKeeps(c, ls);
    ApplyStep(c, Run(c, ls).value);
  }

  /** A commit retried with a key the log has is answered with that key's record,
      wherever the key is kept, and stages nothing for it. */
  lemma RetryIsDup(c: Codec, ls: seq<Label>, jobs: seq<Job>, now0: int, nows: seq<int>, i: nat)
    requires Sound(c) && Orderly(c, ls) && Run(c, ls).value.phase.Idle?
    requires |nows| == |jobs| && i < |jobs| && jobs[i].Commit? && jobs[i].tx.key in LogKeys(Run(c, ls).value.log)
    ensures var s := Run(c, ls).value;
      var r := Next(c, s, Begin(jobs, now0, nows));
      && r.Some? && r.value.phase.Writing? && |r.value.phase.acc.slots| == |jobs|
      && r.value.phase.acc.slots[i] == Dup(LogKeys(s.log)[jobs[i].tx.key])
      && forall e :: e in r.value.phase.acc.staged && e.event.TransactionPosted? ==> e.event.tx.key != jobs[i].tx.key
  {
    var s := Run(c, ls).value;
    LiveIsReplay(c, ls);
    RunKeeps(c, ls);
    InvParts(c, s);
    assert s.log[..|s.log|] == s.log;
    FoldStamps(s.log);
    hide RunFrom, SettledFrom, Inv, MemInv, LogKeys, Classify, GoodLog, Full, Replay, StagedOk;
    SlotsAnswer(Full(s), jobs, now0, nows);
    ClassifyWellFormed(Full(s), jobs, now0, nows);
    var acc := Classify(Full(s), jobs, now0, nows);
    assert SlotOk(Full(s), acc.staged, jobs[i], acc.slots[i]);
    assert KeysOk(Full(s), acc.idem, acc.staged);
  }

  lemma ReopenedFacts(c: Codec, s: Sys)
    requires Inv(c, s) && s.phase.Idle?
    ensures Holds(c, s.disk, Events(s.log)) && Durable(c, s.disk, Events(s.log), s.dur)
    ensures Replay(EmptyBook, s.log) == Some(Full(s)) && AcksInv(s.acks, s.log, |s.log|)
  {
    hide Holds, Durable, PlacedLog, GoodLog, AcksInv, Full, IsFold, BooksInv, RunsInv;
    FullIsFold(s, s.log);
    assert s.log[..|s.log|] == s.log;
    assert Replay(EmptyBook, s.log).Some? by { GoodReplays(s.log); }
  }

  lemma GoodReplays(log: seq<Placed>)
    requires GoodLog(log)
    ensures Replay(EmptyBook, log).Some?
  {
  }

  /** Crash safety: after any run and a power loss at any point of it, reopening
      succeeds whichever retained snapshot it starts from. The log is the durable
      events and some prefix of the unsynced ones, all of them now durable; the
      state is its replay; every Ok answer still holds. */
  lemma CrashSafety(c: Codec, ls: seq<Label>, image: Disk, pick: Option<nat>) returns (m: nat)
    requires Sound(c) && Orderly(c, ls)
    requires CrashImage(Run(c, ls).value.disk, image) && (pick.Some? ==> pick.value in Run(c, ls).value.snaps)
    ensures var s := Run(c, ls).value;
      var r := Next(c, s, Crash(image, pick));
      && s.dur <= m <= |s.log| && r.Some?
      && r.value.log == s.log[..m] && r.value.dur == m && r.value.phase.Idle?
      && Holds(c, r.value.disk, Events(s.log[..m])) && Durable(c, r.value.disk, Events(s.log[..m]), m)
      && Replay(EmptyBook, s.log[..m]) == Some(Full(r.value))
      && r.value.acks == s.acks && AcksInv(s.acks, s.log[..m], m)
  {
    hide RunFrom, SettledFrom, Recover, Next, Inv, Reopened, Full, Replay, Holds, Durable, AcksInv, CrashImage;
    RunKeeps(c, ls);
    var s := Run(c, ls).value;
    m := CrashStep(c, s, image, pick);
    ReopenedParts(s, Repair(c, image).value, pick, m);
    ReopenedFacts(c, Next(c, s, Crash(image, pick)).value);
  }

  /** The surviving log is read from the disk alone. */
  lemma SameLog(c: Codec, s: Sys, image: Disk, pick: Option<nat>, pick': Option<nat>)
    requires (pick.Some? ==> pick.value in s.snaps) && (pick'.Some? ==> pick'.value in s.snaps)
    requires CrashImage(s.disk, image)
    requires Next(c, s, Crash(image, pick)).Some? && Next(c, s, Crash(image, pick')).Some?
    ensures Next(c, s, Crash(image, pick)).value.log == Next(c, s, Crash(image, pick')).value.log
  {
    hide Replay, ScanAllFrom, Repair, Reload, Next, CrashImage;
    CrashNext(c, s, image, pick);
    CrashNext(c, s, image, pick');
  }

  /** Snapshot independence: from the newest snapshot, an older one or none, a
      reopen gives the same accounts, histories, sums, transaction index, next
      sequence number and key lookups. */
  lemma SnapshotIndependence(c: Codec, ls: seq<Label>, image: Disk, pick: Option<nat>, pick': Option<nat>)
    requires Sound(c) && Orderly(c, ls) && CrashImage(Run(c, ls).value.disk, image)
    requires pick.Some? ==> pick.value in Run(c, ls).value.snaps
    requires pick'.Some? ==> pick'.value in Run(c, ls).value.snaps
    ensures var r, r' := Next(c, Run(c, ls).value, Crash(image, pick)), Next(c, Run(c, ls).value, Crash(image, pick'));
      r.Some? && r'.Some? && r.value.log == r'.value.log && Full(r.value) == Full(r'.value)
  {
    hide RunFrom, SettledFrom, Full, Replay, Next, CrashImage, Holds, Durable, AcksInv;
    var m := CrashSafety(c, ls, image, pick);
    var m' := CrashSafety(c, ls, image, pick');
    SameLog(c, Run(c, ls).value, image, pick, pick');
  }
}
