/**
 Power loss at any point of a run, and the reopen after it: from the bytes that
 survive, the newest snapshot, an older one or none, the state is rebuilt that
 replaying the surviving log from its first event gives. Run files, retained
 snapshots and the answers given before the loss stay true of that log, so the
 store's invariant holds again in the reopened state.
 */
module StoreSafety {
  import opened LedgerTypes
  import opened AccountKeys
  import opened Frames
  import opened Segments
  import opened SegmentReads
  import opened PostingIndexes
  import opened Books
  import opened Batches
  import opened Histories
  import opened System
  import opened StoreRuns

  // ------------------------------------------------------------------
  // Snapshots load as what they saved
  // ------------------------------------------------------------------

  ghost predicate Chunked(b: Book) {
    forall k :: k in b.accounts ==> PostingIndexes.Valid(b.accounts[k].postings)
  }

  lemma PostKeepsChunks(b: Book, p: Posting, txid: nat, seqno: nat, at: int)
    requires Chunked(b) && PostOne(b, p, txid, seqno, at).Some?
    ensures Chunked(PostOne(b, p, txid, seqno, at).value)
  {
    hide PostingIndexes.Valid;
    var k := Key(p.account);
    if k in b.accounts {
      PushAppends(b.accounts[k].postings, Entry(seqno, at, txid, p.minor, p.direction, Moved(b.accounts[k].raw, p).value));
    }
  }

  lemma {:induction false} PostAllKeepsChunks(b: Book, ps: seq<Posting>, txid: nat, seqno: nat, at: int)
    requires Chunked(b) && PostAll(b, ps, txid, seqno, at).Some?
    ensures Chunked(PostAll(b, ps, txid, seqno, at).value)
  {
    hide Chunked, PostOne;
    if ps != [] {
      PostAllKeepsChunks(b, ps[..|ps| - 1], txid, seqno, at);
      PostKeepsChunks(PostAll(b, ps[..|ps| - 1], txid, seqno, at).value, ps[|ps| - 1], txid, seqno, at);
    }
  }

  lemma ApplyKeepsChunks(b: Book, p: Placed)
    requires Chunked(b) && Apply(b, p).Some?
    ensures Chunked(Apply(b, p).value)
  {
    match p.ev.event {
      case TransactionPosted(tx) => PostAllKeepsChunks(b, tx.postings, tx.id, p.ev.seqno, p.ev.at);
      case _ =>
    }
  }

  lemma {:induction false} ReplayKeepsChunks(b: Book, log: seq<Placed>)
    requires Chunked(b) && Replay(b, log).Some?
    ensures Chunked(Replay(b, log).value)
  {
    hide Chunked, Apply;
    if log != [] {
      ReplayKeepsChunks(b, log[..|log| - 1]);
      ApplyKeepsChunks(Replay(b, log[..|log| - 1]).value, log[|log| - 1]);
    }
  }

  lemma ReloadChunked(b: Book)
    requires Chunked(b)
    ensures Reload(b) == b
  {
    forall k | k in b.accounts
      ensures Rechunk(Flat(b.accounts[k].postings)) == b.accounts[k].postings
    {
      RechunkRoundTrip(b.accounts[k].postings);
    }
    hide Rechunk, Flat;
    assert Reload(b).accounts == b.accounts;
  }

  /** Loading a snapshot of the state after q events gives that state back,
      posting histories chunked again included. */
  lemma SnapshotRoundTrip(b: Book, log: seq<Placed>, q: nat, runs: Runs, reg: set<nat>)
    requires IsFold(b, log, q, runs, reg)
    ensures Reload(b) == b
  {
    assert Chunked(EmptyBook);
    ReplayKeepsChunks(EmptyBook, log[..q]);
    hide GoodLog, LogKeys, InReg, Reload, Replay;
    ReloadChunked(b);
  }

  // ------------------------------------------------------------------
  // What a crash leaves of the log
  // ------------------------------------------------------------------

  lemma ScanIsFrom(c: Codec, d: Disk, log: seq<Placed>, dur: nat, from: nat)
    requires Sound(c) && DiskInv(c, d, log, dur) && Ordered(log)
    ensures d != [] && ScanAllFrom(c, d, from) == Some(Take(USIZE_MAX, From(log, from)))
  {
    hide PlacedLog, Holds, Durable, Stream, ScanFiles, From;
    HoldsShows(c, d, Events(log));
    HoldsSomething(c, d, Events(log));
    ScanRefinesLog(c, d, Events(log), from, USIZE_MAX);
  }

  lemma ScanIsSuffix(c: Codec, d: Disk, log: seq<Placed>, dur: nat, q: nat)
    requires Sound(c) && DiskInv(c, d, log, dur) && Ordered(log)
    ensures d != [] && ScanAllFrom(c, d, q + 1) == Some(if q <= |log| then log[q..] else [])
  {
    hide PlacedLog, Holds, Durable, AllEncodable, ScanAllFrom, From;
    ScanIsFrom(c, d, log, dur, q + 1);
    DenseSuffix(log, q);
  }

  lemma DenseSuffix(log: seq<Placed>, q: nat)
    requires Ordered(log) && |log| <= I64_MAX
    ensures Take(USIZE_MAX, From(log, q + 1)) == if q <= |log| then log[q..] else []
  {
    OrderedIsDense(log);
    hide From, Ordered, Dense, Events;
    FromDense(log, q + 1);
    if q == 0 {
      assert log[0..] == log;
    } else if q == |log| {
      assert log[|log|..] == [];
    }
  }

  lemma OrderedIsDense(log: seq<Placed>)
    requires Ordered(log)
    ensures Dense(Events(log))
  {
  }

  /** Reopening leaves, durably and in place, the durable events and then some
      prefix of the rest. */
  lemma CrashLog(c: Codec, d: Disk, log: seq<Placed>, dur: nat, image: Disk) returns (m: nat)
    requires Sound(c) && DiskInv(c, d, log, dur) && CrashImage(d, image)
    ensures dur <= m <= |log| && Repair(c, image).Some?
    ensures DiskInv(c, Repair(c, image).value, log[..m], m)
    ensures Last(Repair(c, image).value).linked && AllSynced(Repair(c, image).value)
  {
    hide PlacedLog, Stream, Sealed, Repair;
    var es := Events(log);
    HoldsSomething(c, d, es);
    m := CrashShows(c, d, es, dur, image);
    RepairSynced(c, image, es[..m]);
    var r := Repair(c, image).value;
    SyncedExactly(c, r, es[..m], m);
    assert Events(log[..m]) == es[..m];
    if |image| == |d| {
      ImageBases(d, image);
      CutKeepsPlaces(c, d, es, image, m);
    } else {
      assert es[..m] == es && log[..m] == log;
      FrontBases(d, image);
      LostFileKeepsPlaces(c, d, es, image);
    }
    PlacesFollowBases(c, image, r, es[..m]);
  }

  /** Reopening after a kill leaves every event in place; all of them are durable
      exactly when a frame was torn or the active file was synced. */
  lemma KillLog(c: Codec, d: Disk, log: seq<Placed>, dur: nat, torn: seq<byte>)
    requires Sound(c) && DiskInv(c, d, log, dur) && TornFrame(c, torn) && d != []
    ensures var r := Repair(c, AppendBytes(d, torn));
      && r.Some? && DiskInv(c, r.value, log, if torn == [] then dur else |log|) && Last(r.value).linked
      && (AllSynced(r.value) <==> torn != [] || AllSynced(d))
      && (AllSynced(d) <==> dur == |log|)
  {
    hide PlacedLog, Stream, Sealed, Repair, TornFrame, Holds, Durable, AllSynced;
    var es := Events(log);
    KillHolds(c, d, es, dur, torn);
    var r := Repair(c, AppendBytes(d, torn)).value;
    SyncedExactly(c, r, es, if torn == [] then dur else |log|);
    SyncedExactly(c, d, es, dur);
    PlacesFollowBases(c, d, r, es);
  }

  lemma ImageBases(d: Disk, image: Disk)
    requires CrashImage(d, image) && |image| == |d|
    ensures SameBases(d, image)
  {
  }

  lemma FrontBases(d: Disk, image: Disk)
    requires CrashImage(d, image) && |image| == |d| - 1
    ensures SameBases(Front(d), image)
  {
  }

  // ------------------------------------------------------------------
  // The crash step
  // ------------------------------------------------------------------

  /** The snapshot a reopen starts from, and how many events it holds. */
  function Picked(pick: Option<nat>): nat {
    if pick.Some? then pick.value else 0
  }

  ghost function StartFrom(s: Sys, pick: Option<nat>): Book
    requires pick.Some? ==> pick.value in s.snaps
  {
    if pick.Some? then s.snaps[pick.value] else EmptyBook
  }

  /** Whatever the pick, it is the fold of its events but for spilled keys. */
  lemma StartIsFold(s: Sys, log: seq<Placed>, pick: Option<nat>)
    requires MemInv(s, log) && (pick.Some? ==> pick.value in s.snaps)
    ensures var q := Picked(pick);
      q <= AppliedCount(s) <= |log| && IsFold(StartFrom(s, pick), log, q, s.runs, s.reg)
  {
    if pick.None? {
      assert log[..0] == [];
      assert UniqueKeys([]) && LogKeys([]) == map[];
      assert EmptyBook.(keys := map[]) == EmptyBook;
    } else {
      hide IsFold, RunsInv, AcksInv;
    }
  }

  /** The state a reopen reaches when m events survive. */
  ghost function Reopened(s: Sys, d: Disk, pick: Option<nat>, m: nat): Sys
    requires (pick.Some? ==> pick.value in s.snaps) && Picked(pick) <= m <= |s.log|
    requires Replay(EmptyBook, s.log[..m]).Some?
  {
    var log := s.log[..m];
    Sys(d, Fold(log).(keys := StartFrom(s, pick).keys + LogKeys(log[Picked(pick)..])), s.runs, s.runs.Keys,
        s.snaps, map[], Idle, log, if AllSynced(d) then m else s.dur, s.acks)
  }

  lemma StartLoads(s: Sys, log: seq<Placed>, pick: Option<nat>)
    requires pick.Some? ==> pick.value in s.snaps
    requires IsFold(StartFrom(s, pick), log, Picked(pick), s.runs, s.reg)
    ensures (if pick.Some? then Reload(s.snaps[pick.value]) else EmptyBook) == StartFrom(s, pick)
  {
    hide IsFold, Reload;
    if pick.Some? {
      SnapshotRoundTrip(StartFrom(s, pick), log, Picked(pick), s.runs, s.reg);
    }
  }

  lemma ScansFrom(c: Codec, d: Disk, log: seq<Placed>, dur: nat, pick: Option<nat>)
    requires Sound(c) && DiskInv(c, d, log, dur) && Ordered(log) && Picked(pick) <= |log|
    ensures d != [] && ScanAllFrom(c, d, if pick.Some? then pick.value + 1 else 1) == Some(log[Picked(pick)..])
    ensures ScanAllFrom(c, d, 1) == Some(log)
  {
    hide DiskInv, ScanAllFrom, Ordered;
    ScanIsSuffix(c, d, log, dur, Picked(pick));
    ScanIsSuffix(c, d, log, dur, 0);
    assert log[0..] == log;
  }

  lemma RecoverForm(c: Codec, s: Sys, image: Disk, pick: Option<nat>, d: Disk, log: seq<Placed>, mem: Book)
    requires (pick.Some? ==> pick.value in s.snaps) && Picked(pick) <= |log|
    requires Repair(c, image) == Some(d) && d != []
    requires (if pick.Some? then Reload(s.snaps[pick.value]) else EmptyBook) == StartFrom(s, pick)
    requires ScanAllFrom(c, d, if pick.Some? then pick.value + 1 else 1) == Some(log[Picked(pick)..])
    requires ScanAllFrom(c, d, 1) == Some(log)
    requires Replay(StartFrom(s, pick), log[Picked(pick)..]) == Some(mem)
    ensures Recover(c, s, image, pick) ==
      Some(Sys(d, mem, s.runs, s.runs.Keys, s.snaps, map[], Idle, log, if AllSynced(d) then |log| else s.dur, s.acks))
  {
    hide AllSynced, Repair, Reload, StartFrom, ScanAllFrom, Replay;
  }

  /** Reading the surviving log from disk and replaying it onto the pick. */
  lemma RecoverIs(c: Codec, s: Sys, image: Disk, pick: Option<nat>, m: nat, dur: nat)
    requires Sound(c) && m <= |s.log| && GoodLog(s.log[..m])
    requires (pick.Some? ==> pick.value in s.snaps) && Picked(pick) <= m
    requires IsFold(StartFrom(s, pick), s.log[..m], Picked(pick), s.runs, s.reg)
    requires Repair(c, image).Some? && DiskInv(c, Repair(c, image).value, s.log[..m], dur)
    ensures Recover(c, s, image, pick) == Some(Reopened(s, Repair(c, image).value, pick, m))
  {
    var log, d := s.log[..m], Repair(c, image).value;
    assert Ordered(log) && Replay(EmptyBook, log).Some?;
    hide GoodLog, IsFold, DiskInv, AllSynced, Repair, Replay, LogKeys, Fold, Reload, ScanAllFrom, Ordered, StartFrom,
      Recover;
    StartLoads(s, log, pick);
    ScansFrom(c, d, log, dur, pick);
    FoldContinues(StartFrom(s, pick), log, Picked(pick), s.runs, s.reg);
    RecoverForm(c, s, image, pick, d, log, Reopened(s, d, pick, m).mem);
  }

  lemma RegisterAll(s: Sys, reg: set<nat>, runs: Runs)
    requires reg <= runs.Keys
    ensures RegGrows(runs, reg, runs, runs.Keys)
  {
  }

  lemma ReopenedMemory(s: Sys, d: Disk, pick: Option<nat>, m: nat)
    requires s.reg <= s.runs.Keys && m <= |s.log| && GoodLog(s.log[..m])
    requires (pick.Some? ==> pick.value in s.snaps) && Picked(pick) <= m
    requires IsFold(StartFrom(s, pick), s.log[..m], Picked(pick), s.runs, s.reg)
    ensures var s' := Reopened(s, d, pick, m);
      AppliedCount(s') == m && IsFold(s'.mem, s.log[..m], m, s.runs, s.runs.Keys)
  {
    var log := s.log[..m];
    assert Replay(EmptyBook, log).Some?;
    hide GoodLog, Fold, LogKeys, Replay, InReg, IsFold, StartFrom;
    ContinuedIsFold(StartFrom(s, pick), log, Picked(pick), s.runs, s.reg);
    FoldStamps(log);
    RegisterAll(s, s.reg, s.runs);
    FoldRegrows(Reopened(s, d, pick, m).mem, log, m, s.runs, s.reg, s.runs.Keys);
  }

  /** Run files, snapshots and answers given stay true of the surviving log. */
  lemma ReopenedFiles(s: Sys, m: nat)
    requires MemInv(s, s.log) && AppliedCount(s) <= m <= |s.log| && GoodLog(s.log[..m])
    ensures BooksInv(s.snaps, s.log[..m], m, s.runs, s.runs.Keys)
    ensures RunsInv(s.runs, s.log[..m], m) && AcksInv(s.acks, s.log[..m], m)
  {
    var log, n := s.log[..m], AppliedCount(s);
    assert log[..n] == s.log[..n];
    assert UniqueKeys(log);
    hide GoodLog, Fold, LogKeys, UniqueKeys, InReg, IsFold;
    PrefixKeys(log, n);
    RegisterAll(s, s.reg, s.runs);
    ShrunkBooks(s.snaps, s.log, log, n, s.runs, s.reg);
    BooksRegrow(s.snaps, log, n, s.runs, s.reg, s.runs, s.runs.Keys);
    BooksLater(s.snaps, log, n, m, s.runs, s.runs.Keys);
    RunsLater(s.runs, log, n);
    AcksLater(s.acks, log, n);
  }

  lemma FoldRegrows(b: Book, log: seq<Placed>, q: nat, runs: Runs, reg: set<nat>, reg': set<nat>)
    requires IsFold(b, log, q, runs, reg) && RegGrows(runs, reg, runs, reg')
    ensures IsFold(b, log, q, runs, reg')
  {
    hide GoodLog, Fold, LogKeys, InReg;
  }

  lemma ShrunkBooks(books: map<nat, Book>, log: seq<Placed>, log': seq<Placed>, n: nat, runs: Runs, reg: set<nat>)
    requires BooksInv(books, log, n, runs, reg) && n <= |log'| && log' <= log
    ensures BooksInv(books, log', n, runs, reg)
  {
    hide GoodLog, Fold, LogKeys, Within, InReg;
    forall q | q in books
      ensures IsFold(books[q], log', q, runs, reg)
    {
      assert IsFold(books[q], log, q, runs, reg);
      assert log'[..q] == log[..q];
    }
  }

  lemma BooksLater(books: map<nat, Book>, log: seq<Placed>, n: nat, m: nat, runs: Runs, reg: set<nat>)
    requires BooksInv(books, log, n, runs, reg) && n <= m
    ensures BooksInv(books, log, m, runs, reg)
  {
  }

  lemma RunsLater(runs: Runs, log: seq<Placed>, n: nat)
    requires n <= |log| && RunsInv(runs, log, n) && Within(LogKeys(log[..n]), LogKeys(log))
    ensures RunsInv(runs, log, |log|)
  {
    assert log[..|log|] == log;
    hide LogKeys;
    forall r | r in runs
      ensures Within(runs[r], LogKeys(log))
    {
      WithinTransitive(runs[r], LogKeys(log[..n]), LogKeys(log));
    }
  }

  lemma AcksLater(acks: set<Ack>, log: seq<Placed>, n: nat)
    requires n <= |log| && AcksInv(acks, log, n) && Within(LogKeys(log[..n]), LogKeys(log))
    ensures AcksInv(acks, log, |log|)
  {
    assert log[..|log|] == log;
    hide LogKeys;
  }

  lemma CrashFacts(c: Codec, s: Sys, m: nat)
    requires Inv(c, s) && m <= |s.log|
    ensures GoodLog(s.log[..m]) && s.reg <= s.runs.Keys && MemInv(s, s.log)
    ensures 0 <= AppliedCount(s) <= s.dur && DiskInv(c, s.disk, s.log, s.dur)
  {
    GoodPrefix(s.log, m);
    hide GoodLog, DiskInv, PhaseInv, IsFold, BooksInv, RunsInv, AcksInv;
  }

  lemma StartSurvives(s: Sys, pick: Option<nat>, m: nat)
    requires MemInv(s, s.log) && AppliedCount(s) <= m <= |s.log|
    requires pick.Some? ==> pick.value in s.snaps
    ensures Picked(pick) <= m && IsFold(StartFrom(s, pick), s.log[..m], Picked(pick), s.runs, s.reg)
  {
    hide MemInv, StartFrom;
    StartIsFold(s, s.log, pick);
    assert s.log[..m][..Picked(pick)] == s.log[..Picked(pick)];
  }

  lemma {:induction false} ReopenedInv(c: Codec, s: Sys, d: Disk, pick: Option<nat>, m: nat)
    requires MemInv(s, s.log) && AppliedCount(s) <= m <= |s.log| && GoodLog(s.log[..m])
    requires (pick.Some? ==> pick.value in s.snaps) && Picked(pick) <= m
    requires IsFold(StartFrom(s, pick), s.log[..m], Picked(pick), s.runs, s.reg)
    requires DiskInv(c, d, s.log[..m], m) && AllSynced(d) && Last(d).linked
    ensures Inv(c, Reopened(s, d, pick, m))
  {
    ReopenedFiles(s, m);
    assert s.reg <= s.runs.Keys && Replay(EmptyBook, s.log[..m]).Some?;
    hide GoodLog, DiskInv, IsFold, BooksInv, RunsInv, AcksInv, Replay, Fold, LogKeys, StartFrom;
    ReopenedMemory(s, d, pick, m);
    assert BooksInv(map[], s.log[..m], m, s.runs, s.runs.Keys) by { NoBooks(s.log[..m], m, s.runs, s.runs.Keys); }
  }

  lemma NoBooks(log: seq<Placed>, n: nat, runs: Runs, reg: set<nat>)
    ensures BooksInv(map[], log, n, runs, reg)
  {
  }

  lemma CrashNext(c: Codec, s: Sys, image: Disk, pick: Option<nat>)
    requires CrashImage(s.disk, image) && (pick.Some? ==> pick.value in s.snaps)
    ensures Next(c, s, Crash(image, pick)) == Recover(c, s, image, pick)
  {
    hide Recover, CrashImage;
  }

  /** A power loss at any point, and a reopen from any retained snapshot or from
      none: it succeeds, with the durable events and some prefix of the rest. */
  lemma CrashStep(c: Codec, s: Sys, image: Disk, pick: Option<nat>) returns (m: nat)
    requires Sound(c) && Inv(c, s) && CrashImage(s.disk, image)
    requires pick.Some? ==> pick.value in s.snaps
    ensures s.dur <= m <= |s.log| && Picked(pick) <= m && Replay(EmptyBook, s.log[..m]).Some?
    ensures Repair(c, image).Some? && AllSynced(Repair(c, image).value)
    ensures Next(c, s, Crash(image, pick)) == Some(Reopened(s, Repair(c, image).value, pick, m))
    ensures Inv(c, Reopened(s, Repair(c, image).value, pick, m))
  {
    assert DiskInv(c, s.disk, s.log, s.dur);
    hide Inv, DiskInv, Recover, MemInv, IsFold, Replay, Repair, CrashImage, StartFrom, Next, Reopened, AllSynced;
    m := CrashLog(c, s.disk, s.log, s.dur, image);
    CrashFacts(c, s, m);
    assert Replay(EmptyBook, s.log[..m]).Some?;
    StartSurvives(s, pick, m);
    hide GoodLog;
    RecoverIs(c, s, image, pick, m, m);
    ReopenedInv(c, s, Repair(c, image).value, pick, m);
    CrashNext(c, s, image, pick);
  }

  lemma KillNext(c: Codec, s: Sys, torn: seq<byte>, pick: Option<nat>)
    requires s.disk != [] && CanTear(c, s.disk, torn) && (pick.Some? ==> pick.value in s.snaps)
    ensures Next(c, s, Kill(torn, pick)) == Recover(c, s, AppendBytes(s.disk, torn), pick)
  {
    hide Recover, CanTear;
  }

  /** A kill at any point, and a restart from any retained snapshot or from none:
      it succeeds and finds every event written. Settled, the store goes on as if
      nothing had happened. */
  lemma KillStep(c: Codec, s: Sys, torn: seq<byte>, pick: Option<nat>)
    requires Sound(c) && Inv(c, s) && s.disk != [] && CanTear(c, s.disk, torn)
    requires pick.Some? ==> pick.value in s.snaps
    ensures Picked(pick) <= |s.log| && s.log[..|s.log|] == s.log && Replay(EmptyBook, s.log).Some?
    ensures Repair(c, AppendBytes(s.disk, torn)).Some?
    ensures var r := Reopened(s, Repair(c, AppendBytes(s.disk, torn)).value, pick, |s.log|);
      && Next(c, s, Kill(torn, pick)) == Some(r)
      && DiskInv(c, r.disk, s.log, r.dur) && r.dur == (if Settled(s, Kill(torn, pick)) then |s.log| else s.dur)
      && (Settled(s, Kill(torn, pick)) <==> torn != [] || s.dur == |s.log|)
      && (Settled(s, Kill(torn, pick)) ==> Inv(c, r))
  {
    hide Inv, DiskInv, Recover, MemInv, IsFold, Replay, Repair, CanTear, TornFrame, StartFrom, Next, AllSynced, GoodLog,
      Fold, LogKeys, Reopened;
    KillFacts(c, s, torn, pick);
    KillLog(c, s.disk, s.log, s.dur, torn);
    var d, k := Repair(c, AppendBytes(s.disk, torn)).value, if torn == [] then s.dur else |s.log|;
    RecoverIs(c, s, AppendBytes(s.disk, torn), pick, |s.log|, k);
    KillNext(c, s, torn, pick);
    ReopenedParts(s, d, pick, |s.log|);
    if AllSynced(d) {
      ReopenedInv(c, s, d, pick, |s.log|);
    }
  }

  lemma {:induction false} KillFacts(c: Codec, s: Sys, torn: seq<byte>, pick: Option<nat>)
    requires Inv(c, s) && s.disk != [] && CanTear(c, s.disk, torn) && (pick.Some? ==> pick.value in s.snaps)
    ensures DiskInv(c, s.disk, s.log, s.dur) && TornFrame(c, torn) && s.log[..|s.log|] == s.log
    ensures MemInv(s, s.log) && AppliedCount(s) <= |s.log| && GoodLog(s.log) && Replay(EmptyBook, s.log).Some?
    ensures Picked(pick) <= |s.log| && IsFold(StartFrom(s, pick), s.log, Picked(pick), s.runs, s.reg)
  {
    hide DiskInv, MemInv, IsFold, TornFrame, StartFrom, PhaseInv;
    CrashFacts(c, s, |s.log|);
    assert s.log[..|s.log|] == s.log;
    assert Replay(EmptyBook, s.log).Some?;
    hide GoodLog, Inv, Replay;
    MemCounts(s);
    StartSurvives(s, pick, |s.log|);
  }

  lemma {:induction false} ReopenedParts(s: Sys, d: Disk, pick: Option<nat>, m: nat)
    requires (pick.Some? ==> pick.value in s.snaps) && Picked(pick) <= m <= |s.log|
    requires Replay(EmptyBook, s.log[..m]).Some?
    ensures var r := Reopened(s, d, pick, m);
      && r.disk == d && r.log == s.log[..m] && r.dur == (if AllSynced(d) then m else s.dur)
      && r.phase.Idle? && r.acks == s.acks
  {
    hide Replay, LogKeys, AllSynced;
  }

  // ------------------------------------------------------------------
  // Every step
  // ------------------------------------------------------------------

  lemma FreshPlaces(c: Codec)
    ensures PlacedLog(c, FreshDisk, []) == []
  {
    var none: seq<WireEvent> := [];
    assert none[0..] == none && none[..0] == none;
    assert PlacedFrom(c, none, 1, 0) == [] && PlacedLog(c, [], none) == [];
    assert Front(FreshDisk) == [];
    hide PlacedFrom;
  }

  lemma FreshDiskInv(c: Codec)
    ensures DiskInv(c, FreshDisk, [], 0)
  {
    hide Holds, Durable, PlacedLog, AllEncodable;
    FreshHolds(c);
    FreshPlaces(c);
    assert Events([]) == [];
    assert AllEncodable(c, []) by { NoneEncodable(c); }
  }

  lemma NoneEncodable(c: Codec)
    ensures AllEncodable(c, [])
  {
  }

  lemma FreshFold(runs: Runs, reg: set<nat>)
    ensures GoodLog([]) && IsFold(EmptyBook, [], 0, runs, reg)
  {
    assert EmptyBook.(keys := map[]) == EmptyBook;
    assert LogKeys([]) == map[] && UniqueKeys([]);
  }

  lemma FreshInv(c: Codec)
    ensures Inv(c, Fresh)
  {
    hide DiskInv, GoodLog, IsFold, LogKeys;
    FreshDiskInv(c);
    FreshFold(map[], {});
  }

  lemma CloneStep(c: Codec, s: Sys)
    requires Inv(c, s) && s.phase.Idle?
    ensures Inv(c, s.(clones := s.clones[s.mem.nextSeq - 1 := s.mem]))
    ensures Inv(c, s.(snaps := s.snaps[s.mem.nextSeq - 1 := s.mem]))
  {
    hide GoodLog, DiskInv, IsFold, RunsInv, AcksInv;
  }

  lemma SnapshotStep(c: Codec, s: Sys, q: nat)
    requires Inv(c, s)
    ensures q in s.clones ==> Inv(c, s.(snaps := s.snaps[q := s.clones[q]]))
    ensures Inv(c, s.(snaps := s.snaps - {q})) && Inv(c, s.(phase := Dead))
  {
    hide GoodLog, DiskInv, IsFold, RunsInv, AcksInv, InFlight;
  }

  lemma RunsNextStep(c: Codec, s: Sys, l: Label)
    requires Inv(c, s) && (s.phase.Applied? || s.phase.Idle?) && RunsNext(s, l).Some?
    ensures Inv(c, RunsNext(s, l).value)
    ensures RunsNext(s, l).value.log == s.log && RunsNext(s, l).value.dur == s.dur
    ensures RunsNext(s, l).value.acks == s.acks
  {
    hide GoodLog, DiskInv, MemInv, InFlight, Restrict, Union;
    RunsStep(s, l, s.log);
  }

  /** What one step may do to the history: keep the durable events and the
      answers given. */
  ghost predicate Follows(s: Sys, s': Sys) {
    && s.dur <= |s.log| && s.dur <= s'.dur <= |s'.log|
    && s.log[..s.dur] == s'.log[..s.dur]
    && s.acks <= s'.acks
  }

  lemma DurWithin(c: Codec, s: Sys)
    requires Inv(c, s)
    ensures s.dur <= |s.log|
  {
    hide GoodLog, MemInv, PhaseInv, Holds;
  }

  lemma NotRuns(s: Sys, l: Label)
    requires l.RotateSync? || l.RotateCreate? || l.RotateLink? || l.AppendNext? || l.SyncBatch?
    ensures RunsNext(s, l).None?
  {
  }

  lemma StepKeeps(c: Codec, s: Sys, l: Label)
    requires Sound(c) && Inv(c, s) && Next(c, s, l).Some? && Settled(s, l)
    ensures Inv(c, Next(c, s, l).value) && Follows(s, Next(c, s, l).value)
  {
    hide Inv, Recover, WritingNext, RunsNext, Full, AcksOf, Classify, CrashImage, CanTear, AllSynced, Replay;
    var s' := Next(c, s, l).value;
    DurWithin(c, s);
    match l {
      case Begin(jobs, now0, nows) => BeginStep(c, s, jobs, now0, nows);
      case ApplyBatch => ApplyStep(c, s);
      case ReplyAll => ReplyStep(c, s);
      case SnapshotNow => CloneStep(c, s);
      case CloneState => CloneStep(c, s);
      case WriteSnapshot(q) => SnapshotStep(c, s, q);
      case DropSnapshot(q) => SnapshotStep(c, s, q);
      case Die => SnapshotStep(c, s, 0);
      case Crash(image, pick) => var m := CrashStep(c, s, image, pick);
      case Kill(torn, pick) => KillStep(c, s, torn, pick);
      case _ =>
        if l.RotateSync? || l.RotateCreate? || l.RotateLink? || l.AppendNext? || l.SyncBatch? {
          NotRuns(s, l);
          WritingStep(c, s, l);
        } else {
          RunsNextStep(c, s, l);
        }
    }
    DurWithin(c, s');
  }

  /** What every orderly continuation of a sound state keeps. */
  lemma {:induction false} ContinuedKeeps(c: Codec, s: Sys, ls: seq<Label>)
    requires Sound(c) && Inv(c, s) && RunFrom(c, s, ls).Some? && SettledFrom(c, s, ls)
    ensures Inv(c, RunFrom(c, s, ls).value)
  {
    hide Inv, Next, Settled;
    if ls != [] {
      ContinuedKeeps(c, s, ls[..|ls| - 1]);
      StepKeeps(c, RunFrom(c, s, ls[..|ls| - 1]).value, ls[|ls| - 1]);
    }
  }

  lemma RunKeeps(c: Codec, ls: seq<Label>)
    requires Sound(c) && Orderly(c, ls)
    ensures Inv(c, Run(c, ls).value)
  {
    hide Inv, RunFrom, SettledFrom;
    FreshInv(c);
    ContinuedKeeps(c, Fresh, ls);
  }
}
