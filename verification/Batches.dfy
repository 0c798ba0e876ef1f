/**
 Group commit: how the writer classifies the jobs of one batch against the
 committed state and a projection of the batchmates it has accepted so far.
 */
module Batches {
  import opened LedgerTypes
  import opened AccountKeys
  import opened Books

  datatype Job =
    | Commit(tx: Transaction)
    | OpenAccount(def: AccountDef, cfg: AccountCfg)
    | RegisterAsset(asset: string, body: string)
    | Snapshot

  /** How a job was classified; slots are indexes into the staged events. */
  datatype Slot =
    | Dup(rec: Committed)
    | DupInBatch(slot: nat)
    | Rejected(verdict: Verdict)
    | OpenConflict(key: string)
    | OpenExists
    | Staged(slot: nat)
    | SnapshotRequest

  /** The loop's variables: `Scratch`, the replies and staged events so far, the
      next sequence number and the batch's running time. */
  datatype Batch = Batch(
    raw: Balances, idem: map<string, nat>, slots: seq<Slot>, staged: seq<WireEvent>, seqno: nat, at: int)

  function Floor(b: Book): int {
    match b.lastAt case None => 0 case Some(t) => t
  }

  function Start(b: Book, now: int): Batch {
    Batch(map[], map[], [], [], b.nextSeq, Max(now, Floor(b)))
  }

  /** What `validate` seeds: the committed balance of each touched account not
      yet projected. */
  function Seeded(committed: Balances, raw: Balances, ps: seq<Posting>): Balances {
    (map k | k in Touched(ps) && k in committed :: committed[k]) + raw
  }

  /** Committed balances overlaid with the projected ones. */
  function Overlay(b: Book, raw: Balances): Balances {
    Raws(b.accounts) + raw
  }

  function Reply(acc: Batch, s: Slot): Batch {
    acc.(slots := acc.slots + [s])
  }

  function StageEvent(acc: Batch, e: LedgerEvent, now: int): Batch {
    var at := Max(acc.at, now);
    acc.(staged := acc.staged + [WireEvent(acc.seqno, at, e)],
         slots := acc.slots + [Staged(|acc.staged|)],
         seqno := acc.seqno + 1, at := at)
  }

  function ClassifyCommit(b: Book, acc: Batch, tx: Transaction, now: int): Batch {
    if tx.key in b.keys then Reply(acc, Dup(b.keys[tx.key]))
    else if tx.key in acc.idem then Reply(acc, DupInBatch(acc.idem[tx.key]))
    else
      var verdict := Judge(TermsOf(b.accounts), Overlay(b, acc.raw), tx);
      var seeded := if verdict.ReservedBook? || verdict.UnknownAccount? || verdict.AssetMismatch? then acc.raw
                    else Seeded(Raws(b.accounts), acc.raw, tx.postings);
      if !verdict.Accept? then Reply(acc.(raw := seeded), Rejected(verdict))
      else
        var raw := match Project(seeded, tx.postings) case Projected(r) => r case _ => seeded;
        StageEvent(acc.(raw := raw, idem := acc.idem[tx.key := |acc.staged|]), TransactionPosted(tx), now)
  }

  function ClassifyOne(b: Book, acc: Batch, job: Job, now: int): Batch {
    match job
    case Commit(tx) => ClassifyCommit(b, acc, tx, now)
    case OpenAccount(def, cfg) =>
      var k := Key(def.id);
      if k in b.accounts then
        Reply(acc, if b.accounts[k].def == def && b.accounts[k].cfg == cfg then OpenExists else OpenConflict(k))
      else StageEvent(acc, AccountOpened(def, cfg), now)
    case RegisterAsset(asset, body) => StageEvent(acc, LedgerEvent.AssetRegistered(asset, body), now)
    case Snapshot => Reply(acc, SnapshotRequest)
  }

  /** The whole batch; `nows[i]` is the clock reading job i gets if it is
      staged. Readings may step back. */
  function Classify(b: Book, jobs: seq<Job>, now0: int, nows: seq<int>): Batch
    requires |nows| == |jobs|
  {
    if jobs == [] then Start(b, now0)
    else
      var n := |jobs| - 1;
      ClassifyOne(b, Classify(b, jobs[..n], now0, nows[..n]), jobs[n], nows[n])
  }

  // ------------------------------------------------------------------
  // What classification keeps
  // ------------------------------------------------------------------

  ghost predicate Places(pl: seq<Placed>, staged: seq<WireEvent>) {
    |pl| == |staged| && forall i :: 0 <= i < |pl| ==> pl[i].ev == staged[i]
  }

  function RecordOf(e: WireEvent): Committed
    requires e.event.TransactionPosted?
  {
    Committed(e.event.tx.id, e.seqno, e.at)
  }

  /** Sequence numbers are dense, times never decrease. */
  ghost predicate StagedOk(b: Book, acc: Batch) {
    && acc.seqno == b.nextSeq + |acc.staged|
    && (forall i :: 0 <= i < |acc.staged| ==> acc.staged[i].seqno == b.nextSeq + i)
    && Floor(b) <= acc.at
    && (forall i :: 0 <= i < |acc.staged| ==> Floor(b) <= acc.staged[i].at <= acc.at)
    && (forall i, j :: 0 <= i < j < |acc.staged| ==> acc.staged[i].at <= acc.staged[j].at)
  }

  ghost predicate Names(idem: map<string, nat>, staged: seq<WireEvent>, k: string)
    requires k in idem
  {
    var i := idem[k];
    i < |staged| && staged[i].event.TransactionPosted? && staged[i].event.tx.key == k
  }

  /** A key accepted in the batch is new and names its event; every staged
      transaction is named by its key, so no two share one. */
  ghost predicate KeysOk(b: Book, idem: map<string, nat>, staged: seq<WireEvent>) {
    && (forall k :: k in idem ==> k !in b.keys && Names(idem, staged, k))
    && (forall i :: 0 <= i < |staged| && staged[i].event.TransactionPosted? ==>
         staged[i].event.tx.key in idem && idem[staged[i].event.tx.key] == i)
  }

  ghost predicate WellFormed(b: Book, acc: Batch) {
    acc.raw.Keys <= b.accounts.Keys && StagedOk(b, acc) && KeysOk(b, acc.idem, acc.staged)
  }

  ghost predicate Within<V>(a: map<string, V>, b: map<string, V>) {
    forall k :: k in a ==> k in b && b[k] == a[k]
  }

  ghost function AcceptedKeys(idem: map<string, nat>, staged: seq<WireEvent>): map<string, Committed> {
    map k | k in idem && Names(idem, staged, k) :: RecordOf(staged[idem[k]])
  }

  /** `after` is the committed state with the staged events applied: committed
      accounts carry the projected balances, and the keys are the committed ones
      and those accepted in the batch. */
  ghost predicate Mirrors(b: Book, acc: Batch, after: Book) {
    && after.nextSeq == acc.seqno
    && Floor(after) <= acc.at
    && Within(Overlay(b, acc.raw), Raws(after.accounts))
    && Within(TermsOf(b.accounts), TermsOf(after.accounts))
    && after.keys == b.keys + AcceptedKeys(acc.idem, acc.staged)
  }

  lemma StartMirrors(b: Book, now: int)
    ensures WellFormed(b, Start(b, now)) && Mirrors(b, Start(b, now), b)
  {
  }

  /** The map arithmetic behind acceptance: projecting from the seeds, from the
      overlay, and from any balances extending it, is one and the same. */
  lemma AcceptedProjects(committed: Balances, raw: Balances, all: Balances, ps: seq<Posting>)
    requires raw.Keys <= committed.Keys && Touched(ps) <= committed.Keys
    requires Within(committed + raw, all)
    requires Project(committed + raw, ps).Projected?
    ensures var staged := Project(Seeded(committed, raw, ps), ps);
      && staged.Projected? && staged.raws.Keys <= committed.Keys
      && Project(all, ps).Projected?
      && Within(committed + staged.raws, Project(all, ps).raws)
  {
    hide Project, Touched;
    var seeded, overlay := Seeded(committed, raw, ps), committed + raw;
    ProjectLocally(seeded, overlay, ps);
    ProjectKeys(seeded, ps);
    ProjectLocally(overlay, all, ps);
    ProjectKeys(overlay, ps);
    var r := Project(seeded, ps).raws;
    assert committed + r == overlay + r;
  }

  /** An accepted transaction can always be staged, and applying it to any state
      the batch mirrors succeeds and lands on the staged projection. */
  lemma AcceptedApplies(b: Book, raw: Balances, after: Book, tx: Transaction, seqno: nat, at: int)
    requires raw.Keys <= b.accounts.Keys
    requires Within(Overlay(b, raw), Raws(after.accounts))
    requires Judge(TermsOf(b.accounts), Overlay(b, raw), tx).Accept?
    ensures var staged := Project(Seeded(Raws(b.accounts), raw, tx.postings), tx.postings);
      var posted := PostAll(after, tx.postings, tx.id, seqno, at);
      && staged.Projected? && staged.raws.Keys <= b.accounts.Keys
      && posted.Some?
      && Within(Overlay(b, staged.raws), Raws(posted.value.accounts))
      && TermsOf(posted.value.accounts) == TermsOf(after.accounts)
      && posted.value == after.(accounts := posted.value.accounts, sums := posted.value.sums)
  {
    MisfitFree(TermsOf(b.accounts), tx.postings);
    hide Project, PostAll, FirstMisfit, Violators, Touched, Seeded;
    AcceptedProjects(Raws(b.accounts), raw, Raws(after.accounts), tx.postings);
    PostingProjects(after, tx.postings, tx.id, seqno, at);
  }

  lemma StageStagedOk(b: Book, acc: Batch, e: LedgerEvent, now: int)
    requires StagedOk(b, acc)
    ensures StagedOk(b, StageEvent(acc, e, now))
  {
  }

  lemma StageKeysOk(b: Book, idem: map<string, nat>, staged: seq<WireEvent>, e: WireEvent)
    requires KeysOk(b, idem, staged) && !e.event.TransactionPosted?
    ensures KeysOk(b, idem, staged + [e])
    ensures AcceptedKeys(idem, staged + [e]) == AcceptedKeys(idem, staged)
  {
    assert forall k :: k in idem ==> Names(idem, staged, k) && Names(idem, staged + [e], k);
  }

  lemma AcceptKeysOk(b: Book, idem: map<string, nat>, staged: seq<WireEvent>, e: WireEvent)
    requires KeysOk(b, idem, staged) && e.event.TransactionPosted?
    requires e.event.tx.key !in b.keys && e.event.tx.key !in idem
    ensures var k, idem' := e.event.tx.key, idem[e.event.tx.key := |staged|];
      && KeysOk(b, idem', staged + [e])
      && AcceptedKeys(idem', staged + [e]) == AcceptedKeys(idem, staged)[k := RecordOf(e)]
  {
    var idem', staged' := idem[e.event.tx.key := |staged|], staged + [e];
    forall k | k in idem'
      ensures Names(idem', staged', k)
    {
      assert k in idem ==> Names(idem, staged, k);
    }
    assert forall k :: k in idem ==> Names(idem, staged, k);
  }

  lemma WithinTransitive<V>(a: map<string, V>, b: map<string, V>, c: map<string, V>)
    requires Within(a, b) && Within(b, c)
    ensures Within(a, c)
  {
  }

  lemma PlainApplies(after: Book, p: Placed)
    requires !p.ev.event.TransactionPosted?
    ensures var r := Apply(after, p);
      && r.Some? && r.value.keys == after.keys
      && r.value.nextSeq == p.ev.seqno + 1 && r.value.lastAt == Some(p.ev.at)
      && Within(Raws(after.accounts), Raws(r.value.accounts))
      && Within(TermsOf(after.accounts), TermsOf(r.value.accounts))
  {
  }

  lemma StagePlain(b: Book, acc: Batch, after: Book, e: LedgerEvent, now: int, pos: FramePos)
    requires WellFormed(b, acc) && Mirrors(b, acc, after) && !e.TransactionPosted?
    ensures var acc' := StageEvent(acc, e, now);
      var applied := Apply(after, Placed(acc'.staged[|acc.staged|], pos));
      WellFormed(b, acc') && applied.Some? && Mirrors(b, acc', applied.value)
  {
    var acc' := StageEvent(acc, e, now);
    var p := Placed(acc'.staged[|acc.staged|], pos);
    StageStagedOk(b, acc, e, now);
    StageKeysOk(b, acc.idem, acc.staged, p.ev);
    PlainApplies(after, p);
    hide StagedOk, KeysOk, AcceptedKeys, Overlay, Apply, Raws, TermsOf, Within;
    var after' := Apply(after, p).value;
    WithinTransitive(Overlay(b, acc.raw), Raws(after.accounts), Raws(after'.accounts));
    WithinTransitive(TermsOf(b.accounts), TermsOf(after.accounts), TermsOf(after'.accounts));
  }

  lemma TransactionApplies(after: Book, tx: Transaction, seqno: nat, at: int, pos: FramePos)
    requires PostAll(after, tx.postings, tx.id, seqno, at).Some?
    ensures var posted := PostAll(after, tx.postings, tx.id, seqno, at).value;
      var r := Apply(after, Placed(WireEvent(seqno, at, TransactionPosted(tx)), pos));
      && r.Some? && r.value.accounts == posted.accounts
      && r.value.keys == posted.keys[tx.key := Committed(tx.id, seqno, at)]
      && r.value.nextSeq == seqno + 1 && r.value.lastAt == Some(at)
  {
    hide PostAll;
  }

  lemma AcceptForm(b: Book, acc: Batch, tx: Transaction, now: int)
    requires tx.key !in b.keys && tx.key !in acc.idem
    requires Judge(TermsOf(b.accounts), Overlay(b, acc.raw), tx).Accept?
    requires Project(Seeded(Raws(b.accounts), acc.raw, tx.postings), tx.postings).Projected?
    ensures var acc' := ClassifyCommit(b, acc, tx, now);
      var e := WireEvent(acc.seqno, Max(acc.at, now), TransactionPosted(tx));
      && acc'.raw == Project(Seeded(Raws(b.accounts), acc.raw, tx.postings), tx.postings).raws
      && acc'.idem == acc.idem[tx.key := |acc.staged|] && acc'.staged == acc.staged + [e]
      && acc'.slots == acc.slots + [Staged(|acc.staged|)]
      && acc'.seqno == e.seqno + 1 && acc'.at == e.at
  {
    hide Judge, Project, Seeded, Overlay, Raws, TermsOf;
  }

  lemma StageCommit(b: Book, acc: Batch, after: Book, tx: Transaction, now: int, pos: FramePos)
    requires WellFormed(b, acc) && Mirrors(b, acc, after)
    requires tx.key !in b.keys && tx.key !in acc.idem
    requires Judge(TermsOf(b.accounts), Overlay(b, acc.raw), tx).Accept?
    ensures var acc' := ClassifyCommit(b, acc, tx, now);
      var applied := Apply(after, Placed(acc'.staged[|acc.staged|], pos));
      WellFormed(b, acc') && applied.Some? && Mirrors(b, acc', applied.value)
  {
    var e := WireEvent(acc.seqno, Max(acc.at, now), TransactionPosted(tx));
    StageStagedOk(b, acc, e.event, now);
    AcceptKeysOk(b, acc.idem, acc.staged, e);
    AcceptedApplies(b, acc.raw, after, tx, e.seqno, e.at);
    TransactionApplies(after, tx, e.seqno, e.at, pos);
    AcceptForm(b, acc, tx, now);
    StagedOkIgnores(b, StageEvent(acc, e.event, now), ClassifyCommit(b, acc, tx, now));
    hide StagedOk, KeysOk, AcceptedKeys, Overlay, Project, PostAll, Judge, Seeded, Raws, TermsOf, Within, Apply,
      ClassifyCommit, StageEvent;
    var acc' := ClassifyCommit(b, acc, tx, now);
    var posted := PostAll(after, tx.postings, tx.id, e.seqno, e.at).value;
    MapPut(b.keys, AcceptedKeys(acc.idem, acc.staged), tx.key, RecordOf(e));
    assert posted.keys == after.keys;
    assert acc'.staged[|acc.staged|] == e;
  }

  lemma MapPut<V>(a: map<string, V>, b: map<string, V>, k: string, v: V)
    ensures (a + b)[k := v] == a + b[k := v]
  {
  }

  lemma StagedOkIgnores(b: Book, acc: Batch, acc': Batch)
    requires StagedOk(b, acc) && acc'.staged == acc.staged && acc'.seqno == acc.seqno && acc'.at == acc.at
    ensures StagedOk(b, acc')
  {
  }

  lemma ReplyOnly(b: Book, acc: Batch, after: Book, raw: Balances, s: Slot)
    requires WellFormed(b, acc) && Mirrors(b, acc, after)
    requires raw == acc.raw || (raw.Keys <= b.accounts.Keys && Overlay(b, raw) == Overlay(b, acc.raw))
    ensures WellFormed(b, Reply(acc.(raw := raw), s)) && Mirrors(b, Reply(acc.(raw := raw), s), after)
  {
    hide KeysOk, AcceptedKeys, Overlay;
    StagedOkIgnores(b, acc, Reply(acc.(raw := raw), s));
  }

  lemma SeedingChangesNothing(b: Book, acc: Batch, ps: seq<Posting>)
    requires WellFormed(b, acc)
    ensures var seeded := Seeded(Raws(b.accounts), acc.raw, ps);
      seeded.Keys <= b.accounts.Keys && Overlay(b, seeded) == Overlay(b, acc.raw)
  {
    hide StagedOk, KeysOk;
  }

  /** One step: whatever the job and the clock, the batch stays well formed, at
      most one event is staged, and applying it to a mirrored state succeeds. */
  lemma ClassifyStep(b: Book, acc: Batch, after: Book, job: Job, now: int, pos: FramePos)
    requires WellFormed(b, acc) && Mirrors(b, acc, after)
    ensures var acc' := ClassifyOne(b, acc, job, now);
      && WellFormed(b, acc')
      && (acc'.staged == acc.staged || |acc'.staged| == |acc.staged| + 1)
      && acc.staged == acc'.staged[..|acc.staged|]
      && (acc'.staged == acc.staged ==> Mirrors(b, acc', after))
      && (|acc'.staged| == |acc.staged| + 1 ==>
           var applied := Apply(after, Placed(acc'.staged[|acc.staged|], pos));
           applied.Some? && Mirrors(b, acc', applied.value))
  {
    hide WellFormed, Mirrors, Judge, Apply, Overlay, Seeded, Project;
    match job {
      case Commit(tx) =>
        if tx.key in b.keys || tx.key in acc.idem {
          ReplyOnly(b, acc, after, acc.raw, if tx.key in b.keys then Dup(b.keys[tx.key]) else DupInBatch(acc.idem[tx.key]));
        } else if Judge(TermsOf(b.accounts), Overlay(b, acc.raw), tx).Accept? {
          StageCommit(b, acc, after, tx, now, pos);
        } else {
          SeedingChangesNothing(b, acc, tx.postings);
          var verdict := Judge(TermsOf(b.accounts), Overlay(b, acc.raw), tx);
          ReplyOnly(b, acc, after, acc.raw, Rejected(verdict));
          ReplyOnly(b, acc, after, Seeded(Raws(b.accounts), acc.raw, tx.postings), Rejected(verdict));
        }
      case OpenAccount(def, cfg) =>
        if Key(def.id) in b.accounts {
          ReplyOnly(b, acc, after, acc.raw, OpenExists);
          ReplyOnly(b, acc, after, acc.raw, OpenConflict(Key(def.id)));
        } else {
          StagePlain(b, acc, after, AccountOpened(def, cfg), now, pos);
        }
      case RegisterAsset(asset, body) =>
        StagePlain(b, acc, after, LedgerEvent.AssetRegistered(asset, body), now, pos);
      case Snapshot =>
        ReplyOnly(b, acc, after, acc.raw, SnapshotRequest);
    }
  }

  /** The fail-stop branches are unreachable: for any batch of jobs and any clock
      readings, every staged event applies to the committed state, in order, with
      no overflow, and leaves what the projection promised. */
  lemma {:induction false} StagedApply(b: Book, jobs: seq<Job>, now0: int, nows: seq<int>, pl: seq<Placed>)
    requires |nows| == |jobs|
    requires Places(pl, Classify(b, jobs, now0, nows).staged)
    ensures var acc := Classify(b, jobs, now0, nows);
      WellFormed(b, acc) && Replay(b, pl).Some? && Mirrors(b, acc, Replay(b, pl).value)
  {
    hide WellFormed, Mirrors, Apply, ClassifyOne;
    if jobs == [] {
      StartMirrors(b, now0);
    } else {
      var n := |jobs| - 1;
      var acc := Classify(b, jobs[..n], now0, nows[..n]);
      var acc' := Classify(b, jobs, now0, nows);
      StagedGrow(b, jobs, now0, nows);
      var m := |acc.staged|;
      assert Places(pl[..m], acc.staged);
      StagedApply(b, jobs[..n], now0, nows[..n], pl[..m]);
      var pos := if |pl| > m then pl[m].pos else (0, 0);
      ClassifyStep(b, acc, Replay(b, pl[..m]).value, jobs[n], nows[n], pos);
      if |pl| > m {
        assert pl[m] == Placed(acc'.staged[m], pos);
      } else {
        assert pl[..m] == pl;
      }
    }
  }

  lemma StagedGrow(b: Book, jobs: seq<Job>, now0: int, nows: seq<int>)
    requires |nows| == |jobs| > 0
    ensures var n := |jobs| - 1;
      var acc, acc' := Classify(b, jobs[..n], now0, nows[..n]), Classify(b, jobs, now0, nows);
      |acc.staged| <= |acc'.staged| && acc'.staged[..|acc.staged|] == acc.staged
  {
    hide Judge, Overlay, Seeded;
  }

  // ------------------------------------------------------------------
  // What a commit is answered with
  // ------------------------------------------------------------------

  /** The record an Ok answer to job i carries, if it is a commit answered Ok. */
  function Answer(job: Job, s: Slot, staged: seq<WireEvent>): Option<Committed> {
    if !job.Commit? then None
    else match s
      case Dup(rec) => Some(rec)
      case DupInBatch(i) => if i < |staged| && staged[i].event.TransactionPosted? then Some(RecordOf(staged[i])) else None
      case Staged(i) => if i < |staged| && staged[i].event.TransactionPosted? then Some(RecordOf(staged[i])) else None
      case _ => None
  }

  /** Slots refer to events staged already, for the job's own key. */
  ghost predicate SlotOk(b: Book, staged: seq<WireEvent>, job: Job, s: Slot) {
    job.Commit? ==>
      match s
      case Dup(rec) => job.tx.key in b.keys && b.keys[job.tx.key] == rec
      case DupInBatch(i) => i < |staged| && staged[i].event.TransactionPosted? && staged[i].event.tx.key == job.tx.key
      case Staged(i) => i < |staged| && staged[i].event.TransactionPosted? && staged[i].event.tx.key == job.tx.key
      case Rejected(v) => !v.Accept? && job.tx.key !in b.keys
      case _ => false
  }

  ghost predicate SlotsOk(b: Book, acc: Batch, jobs: seq<Job>) {
    |acc.slots| == |jobs| && forall i :: 0 <= i < |jobs| ==> SlotOk(b, acc.staged, jobs[i], acc.slots[i])
  }

  lemma {:induction false} SlotStep(b: Book, acc: Batch, jobs: seq<Job>, job: Job, now: int)
    requires WellFormed(b, acc) && SlotsOk(b, acc, jobs)
    ensures SlotsOk(b, ClassifyOne(b, acc, job, now), jobs + [job])
  {
    hide StagedOk, Judge, Overlay, Seeded, Project;
    var acc' := ClassifyOne(b, acc, job, now);
    assert |acc.staged| <= |acc'.staged| && acc'.staged[..|acc.staged|] == acc.staged;
    assert acc'.slots == acc.slots + [acc'.slots[|jobs|]];
    if job.Commit? && job.tx.key in acc.idem {
      assert Names(acc.idem, acc.staged, job.tx.key);
    }
    forall i | 0 <= i < |jobs|
      ensures SlotOk(b, acc'.staged, jobs[i], acc'.slots[i])
    {
      assert SlotOk(b, acc.staged, jobs[i], acc.slots[i]);
      assert forall j :: 0 <= j < |acc.staged| ==> acc'.staged[j] == acc'.staged[..|acc.staged|][j];
    }
  }

  /** Every commit in a batch is answered for its own key: with the committed
      record, with an event of the batch, or with a refusal. */
  lemma {:induction false} SlotsAnswer(b: Book, jobs: seq<Job>, now0: int, nows: seq<int>)
    requires |nows| == |jobs|
    ensures SlotsOk(b, Classify(b, jobs, now0, nows), jobs)
  {
    hide ClassifyOne, SlotOk, WellFormed;
    if jobs != [] {
      var n := |jobs| - 1;
      SlotsAnswer(b, jobs[..n], now0, nows[..n]);
      ClassifyWellFormed(b, jobs[..n], now0, nows[..n]);
      SlotStep(b, Classify(b, jobs[..n], now0, nows[..n]), jobs[..n], jobs[n], nows[n]);
      assert jobs == jobs[..n] + [jobs[n]];
    }
  }

  lemma ClassifyWellFormed(b: Book, jobs: seq<Job>, now0: int, nows: seq<int>)
    requires |nows| == |jobs|
    ensures WellFormed(b, Classify(b, jobs, now0, nows))
  {
    hide WellFormed, Mirrors, Replay, Classify;
    var staged := Classify(b, jobs, now0, nows).staged;
    StagedApply(b, jobs, now0, nows, seq(|staged|, i requires 0 <= i < |staged| => Placed(staged[i], (0, 0))));
  }
}
