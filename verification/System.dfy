/**
 One book's store over whole runs: the writer's steps on disk and memory, spills,
 merges, snapshots, killed processes, and power losses at any point. What a reopen
 starts from is bytes on disk, not remembered events.
 */
module System {
  import opened LedgerTypes
  import opened Frames
  import opened Segments
  import opened SegmentReads
  import opened PostingIndexes
  import opened Books
  import opened Batches
  import opened Histories

  // ------------------------------------------------------------------
  // State
  // ------------------------------------------------------------------

  /** Readable run files by number. */
  type Runs = map<nat, Index>

  datatype Phase =
    | Idle
    | Writing(jobs: seq<Job>, acc: Batch, written: nat)
    | Synced(jobs: seq<Job>, acc: Batch)
    | Applied(jobs: seq<Job>, acc: Batch)
    | Dead

  /** An Ok answer to a commit. */
  datatype Ack = Ack(key: string, rec: Committed)

  /** `mem.keys` is the hot map; `reg` are the runs the index has registered.
      `log`, `dur` and `acks` are history: what was appended, how much of it is
      durable, and what was ever answered Ok. */
  datatype Sys = Sys(
    disk: Disk, mem: Book, runs: Runs, reg: set<nat>,
    snaps: map<nat, Book>, clones: map<nat, Book>, phase: Phase,
    log: seq<Placed>, dur: nat, acks: set<Ack>)

  const Fresh: Sys :=
    Sys(FreshDisk, EmptyBook, map[], {}, map[], map[], Idle, [], 0, {})

  // ------------------------------------------------------------------
  // The tiered index, as lookups see it
  // ------------------------------------------------------------------

  ghost predicate InReg(runs: Runs, reg: set<nat>, key: string) {
    exists n :: n in reg && n in runs && key in runs[n]
  }

  ghost function RegKeys(runs: Runs, reg: set<nat>): (ks: set<string>)
    ensures forall k :: k in ks <==> InReg(runs, reg, k)
  {
    set n, k | n in reg && n in runs && k in runs[n] :: k
  }

  ghost function FromReg(runs: Runs, reg: set<nat>, key: string): Committed
    requires InReg(runs, reg, key)
  {
    var n :| n in reg && n in runs && key in runs[n];
    runs[n][key]
  }

  /** Hot map first, then the registered runs. */
  ghost function Lookups(hot: Index, runs: Runs, reg: set<nat>): Index {
    map k | k in hot.Keys + RegKeys(runs, reg) :: if k in hot then hot[k] else FromReg(runs, reg, k)
  }

  /** Hot map and files only repeat `truth`, and together miss none of it. */
  ghost predicate Covers(hot: Index, runs: Runs, reg: set<nat>, truth: Index) {
    && Within(hot, truth)
    && (forall n :: n in runs ==> Within(runs[n], truth))
    && (forall k :: k in truth ==> k in hot || InReg(runs, reg, k))
  }

  lemma CoveredLookup(hot: Index, runs: Runs, reg: set<nat>, truth: Index, k: string)
    requires Covers(hot, runs, reg, truth)
    ensures k in Lookups(hot, runs, reg) <==> k in truth
    ensures k in truth ==> Lookups(hot, runs, reg)[k] == truth[k]
  {
    if k !in hot && InReg(runs, reg, k) {
      var n :| n in reg && n in runs && k in runs[n] && FromReg(runs, reg, k) == runs[n][k];
      assert Within(runs[n], truth);
    }
    if k in truth && k !in hot {
      assert InReg(runs, reg, k);
    }
  }

  lemma CoveredLookups(hot: Index, runs: Runs, reg: set<nat>, truth: Index)
    requires Covers(hot, runs, reg, truth)
    ensures Lookups(hot, runs, reg) == truth
  {
    hide Lookups;
    forall k
      ensures k in Lookups(hot, runs, reg) <==> k in truth
      ensures k in truth ==> Lookups(hot, runs, reg)[k] == truth[k]
    {
      CoveredLookup(hot, runs, reg, truth, k);
    }
  }

  /** The committed state the writer classifies against. */
  ghost function Full(s: Sys): Book {
    s.mem.(keys := Lookups(s.mem.keys, s.runs, s.reg))
  }

  // ------------------------------------------------------------------
  // Steps
  // ------------------------------------------------------------------

  datatype Label =
    | Begin(jobs: seq<Job>, now0: int, nows: seq<int>)
    | RotateSync
    | RotateCreate
    | RotateLink
    | AppendNext
    | SyncBatch
    | ApplyBatch
    | Spill(n: nat, keys: set<string>)
    | LeaveRun(n: nat, keys: set<string>)
    | Merge(n: nat)
    | LeaveMerge(n: nat)
    | RemoveRun(n: nat)
    | ReplyAll
    | SnapshotNow
    | CloneState
    | WriteSnapshot(q: nat)
    | DropSnapshot(q: nat)
    | Die
    | Crash(image: Disk, pick: Option<nat>)
    | Kill(torn: seq<byte>, pick: Option<nat>)

  function Restrict(m: Index, keys: set<string>): Index {
    map k | k in keys && k in m :: m[k]
  }

  ghost function Union(runs: Runs, reg: set<nat>): Index {
    Lookups(map[], runs, reg)
  }

  /** Postings are stored flat in a snapshot and chunked again on load. */
  function Reload(b: Book): Book {
    b.(accounts := map k | k in b.accounts :: b.accounts[k].(postings := Rechunk(Flat(b.accounts[k].postings))))
  }

  /** The Ok answers a batch gives its commits. */
  ghost function AcksOf(jobs: seq<Job>, acc: Batch): set<Ack> {
    set i | 0 <= i < |jobs| && i < |acc.slots| && Answer(jobs[i], acc.slots[i], acc.staged).Some?
      :: Ack(jobs[i].tx.key, Answer(jobs[i], acc.slots[i], acc.staged).value)
  }

  const USIZE_MAX: nat := 0xFFFF_FFFF_FFFF_FFFF

  /** `scan_with_pos` over the whole rest of the log. */
  function ScanAllFrom(c: Codec, d: Disk, from: nat): Option<seq<Placed>>
    requires d != []
  {
    ScanFiles(c, d[StartIndex(d, from)..], true, from, USIZE_MAX)
  }

  /** Reopening: repair the segments, load the picked snapshot or start empty,
      replay the tail of the log onto it, register every run file. None when the
      open is refused. Everything found is durable when the active file is synced
      afterwards; otherwise only what was durable before. */
  ghost function Recover(c: Codec, s: Sys, image: Disk, pick: Option<nat>): Option<Sys>
    requires pick.Some? ==> pick.value in s.snaps
  {
    var repaired := Repair(c, image);
    if repaired.None? || repaired.value == [] then None
    else
      var d := repaired.value;
      var start := if pick.Some? then Reload(s.snaps[pick.value]) else EmptyBook;
      var tail := ScanAllFrom(c, d, if pick.Some? then pick.value + 1 else 1);
      var whole := ScanAllFrom(c, d, 1);
      if tail.None? || whole.None? || Replay(start, tail.value).None? then None
      else
        Some(Sys(d, Replay(start, tail.value).value, s.runs, s.runs.Keys, s.snaps, map[], Idle,
                 whole.value, if AllSynced(d) then |whole.value| else s.dur, s.acks))
  }

  /** What a kill may leave of a frame at the end of the active file. */
  ghost predicate CanTear(c: Codec, d: Disk, torn: seq<byte>)
    requires d != []
  {
    TornFrame(c, torn) && (torn != [] ==> Last(d).linked)
  }

  ghost function WritingNext(c: Codec, s: Sys, l: Label): Option<Sys>
    requires s.phase.Writing? && s.disk != []
  {
    var acc, k := s.phase.acc, s.phase.written;
    match l
    case RotateSync => Some(s.(disk := SyncActive(s.disk), dur := |s.log|))
    case RotateCreate =>
      if k < |acc.staged| && s.dur == |s.log| && Last(s.disk).linked then
        Some(s.(disk := CreateSegment(s.disk, acc.staged[k].seqno)))
      else None
    case RotateLink => Some(s.(disk := SyncDir(s.disk)))
    case AppendNext =>
      if k < |acc.staged| && Last(s.disk).linked && Encodable(c, acc.staged[k]) && acc.staged[k].seqno <= I64_MAX then
        Some(s.(disk := AppendBytes(s.disk, Frame(c, acc.staged[k])),
                log := s.log + [Placed(acc.staged[k], NextPos(s.disk))],
                phase := s.phase.(written := k + 1)))
      else None
    case SyncBatch =>
      if acc.staged == [] then Some(s.(phase := Synced(s.phase.jobs, acc)))
      else if k == |acc.staged| && Last(s.disk).linked then
        Some(s.(disk := SyncActive(s.disk), dur := |s.log|, phase := Synced(s.phase.jobs, acc)))
      else None
    case _ => None
  }

  /** Spills, merges and the removal of files no longer registered. */
  ghost function RunsNext(s: Sys, l: Label): Option<Sys> {
    match l
    case Spill(n, keys) =>
      if n in s.reg then None
      else Some(s.(runs := s.runs[n := Restrict(s.mem.keys, keys)], reg := s.reg + {n},
                   mem := s.mem.(keys := s.mem.keys - keys)))
    case LeaveRun(n, keys) =>
      if n in s.reg then None else Some(s.(runs := s.runs[n := Restrict(s.mem.keys, keys)]))
    case Merge(n) =>
      if n in s.reg then None else Some(s.(runs := s.runs[n := Union(s.runs, s.reg)], reg := {n}))
    case LeaveMerge(n) =>
      if n in s.reg then None else Some(s.(runs := s.runs[n := Union(s.runs, s.reg)]))
    case RemoveRun(n) =>
      if n in s.reg then None else Some(s.(runs := s.runs - {n}))
    case _ => None
  }

  /** One step; None when it is not enabled. */
  ghost function Next(c: Codec, s: Sys, l: Label): Option<Sys> {
    match l
    case Begin(jobs, now0, nows) =>
      if s.phase.Idle? && |nows| == |jobs| then
        Some(s.(phase := Writing(jobs, Classify(Full(s), jobs, now0, nows), 0)))
      else None
    case ApplyBatch =>
      if s.phase.Synced? && |s.phase.acc.staged| <= |s.log| then
        match Replay(s.mem, s.log[|s.log| - |s.phase.acc.staged|..])
        case None => None
        case Some(m) => Some(s.(mem := m, phase := Applied(s.phase.jobs, s.phase.acc)))
      else None
    case ReplyAll =>
      if s.phase.Applied? then Some(s.(acks := s.acks + AcksOf(s.phase.jobs, s.phase.acc), phase := Idle)) else None
    case SnapshotNow =>
      if s.phase.Idle? && s.mem.nextSeq > 1 then Some(s.(snaps := s.snaps[s.mem.nextSeq - 1 := s.mem])) else None
    case CloneState =>
      if s.phase.Idle? && s.mem.nextSeq > 1 then Some(s.(clones := s.clones[s.mem.nextSeq - 1 := s.mem])) else None
    case WriteSnapshot(q) =>
      if q in s.clones then Some(s.(snaps := s.snaps[q := s.clones[q]])) else None
    case DropSnapshot(q) => Some(s.(snaps := s.snaps - {q}))
    case Die => Some(s.(phase := Dead))
    case Crash(image, pick) =>
      if CrashImage(s.disk, image) && (pick.Some? ==> pick.value in s.snaps) then Recover(c, s, image, pick) else None
    case Kill(torn, pick) =>
      if s.disk != [] && CanTear(c, s.disk, torn) && (pick.Some? ==> pick.value in s.snaps) then
        Recover(c, s, AppendBytes(s.disk, torn), pick)
      else None
    case _ =>
      if s.phase.Writing? && s.disk != [] &&
        (l.RotateSync? || l.RotateCreate? || l.RotateLink? || l.AppendNext? || l.SyncBatch?) then
        WritingNext(c, s, l)
      else if s.phase.Applied? || s.phase.Idle? then RunsNext(s, l)
      else None
  }

  /** Steps in a row. */
  ghost function RunFrom(c: Codec, s: Sys, ls: seq<Label>): Option<Sys> {
    if ls == [] then Some(s)
    else match RunFrom(c, s, ls[..|ls| - 1])
      case None => None
      case Some(s') => Next(c, s', ls[|ls| - 1])
  }

  /** A kill is settled when it tears a frame, which the reopen cuts off and then
      syncs, or finds the active file synced. Other steps always are. */
  predicate Settled(s: Sys, l: Label) {
    l.Kill? && l.torn == [] ==> AllSynced(s.disk)
  }

  ghost predicate SettledFrom(c: Codec, s: Sys, ls: seq<Label>) {
    ls == [] ||
      (var n := |ls| - 1;
       SettledFrom(c, s, ls[..n]) && (RunFrom(c, s, ls[..n]).Some? ==> Settled(RunFrom(c, s, ls[..n]).value, ls[n])))
  }

  /** A whole run from an empty store. */
  ghost function Run(c: Codec, ls: seq<Label>): Option<Sys> {
    RunFrom(c, Fresh, ls)
  }

  /** A run whose kills are all settled. Power losses need no such condition. */
  ghost predicate Orderly(c: Codec, ls: seq<Label>) {
    Run(c, ls).Some? && SettledFrom(c, Fresh, ls)
  }

  // ------------------------------------------------------------------
  // The invariant
  // ------------------------------------------------------------------

  /** The disk holds exactly the appended events, each where it was put, the
      first `dur` of them durably. */
  ghost predicate DiskInv(c: Codec, disk: Disk, log: seq<Placed>, dur: nat) {
    && AllEncodable(c, Events(log)) && |log| <= I64_MAX
    && Holds(c, disk, Events(log)) && Durable(c, disk, Events(log), dur)
    && PlacedLog(c, disk, Events(log)) == log
  }

  /** A book in memory or in a snapshot is the fold of the first q events, but
      for keys that may sit in runs instead. */
  ghost predicate IsFold(b: Book, log: seq<Placed>, q: nat, runs: Runs, reg: set<nat>) {
    && q <= |log| && GoodLog(log[..q])
    && b == Fold(log[..q]).(keys := b.keys)
    && Within(b.keys, LogKeys(log[..q]))
    && forall k :: k in LogKeys(log[..q]) ==> k in b.keys || InReg(runs, reg, k)
  }

  ghost predicate BooksInv(books: map<nat, Book>, log: seq<Placed>, n: nat, runs: Runs, reg: set<nat>) {
    forall q :: q in books ==> q <= n && IsFold(books[q], log, q, runs, reg)
  }

  ghost predicate RunsInv(runs: Runs, log: seq<Placed>, n: nat)
    requires n <= |log|
  {
    forall r :: r in runs ==> Within(runs[r], LogKeys(log[..n]))
  }

  ghost predicate AcksInv(acks: set<Ack>, log: seq<Placed>, n: nat)
    requires n <= |log|
  {
    forall a :: a in acks ==> a.key in LogKeys(log[..n]) && LogKeys(log[..n])[a.key] == a.rec
  }

  /** How many events memory has applied. */
  function AppliedCount(s: Sys): int {
    s.mem.nextSeq - 1
  }

  /** The batch in flight was classified against the applied state and its
      events are the end of the log. */
  ghost predicate PhaseInv(c: Codec, phase: Phase, log: seq<Placed>, dur: nat, n: nat, linked: bool)
    requires n <= |log| && GoodLog(log)
  {
    match phase
    case Idle => linked && n == dur == |log|
    case Dead => true
    case Writing(jobs, acc, k) =>
      k <= |acc.staged| && |log| == n + k && (acc.staged == [] ==> linked) && InFlight(log, n, jobs, acc)
    case Synced(jobs, acc) => linked && |log| == n + |acc.staged| == dur && InFlight(log, n, jobs, acc)
    case Applied(jobs, acc) => linked && n == dur == |log| && |acc.staged| <= n && InFlight(log, n - |acc.staged|, jobs, acc)
  }

  ghost predicate InFlight(log: seq<Placed>, n: nat, jobs: seq<Job>, acc: Batch)
    requires n <= |log| && GoodLog(log)
  {
    && |log| <= n + |acc.staged|
    && Places(log[n..], acc.staged[..|log| - n])
    && GoodLog(log[..n])
    && exists now0, nows :: |nows| == |jobs| && acc == Classify(Fold(log[..n]), jobs, now0, nows)
  }

  /** Memory, runs, snapshots and answers all agree with the applied events. */
  ghost predicate MemInv(s: Sys, log: seq<Placed>) {
    var n := AppliedCount(s);
    && 0 <= n <= |log|
    && IsFold(s.mem, log, n, s.runs, s.reg)
    && s.reg <= s.runs.Keys
    && RunsInv(s.runs, log, n)
    && BooksInv(s.snaps, log, n, s.runs, s.reg)
    && BooksInv(s.clones, log, n, s.runs, s.reg)
    && AcksInv(s.acks, log, n)
  }

  ghost predicate Inv(c: Codec, s: Sys) {
    && DiskInv(c, s.disk, s.log, s.dur)
    && GoodLog(s.log)
    && MemInv(s, s.log) && AppliedCount(s) <= s.dur
    && PhaseInv(c, s.phase, s.log, s.dur, AppliedCount(s), Last(s.disk).linked)
  }
}
