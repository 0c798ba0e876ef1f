/**
 One job at a time: a reference that knows no batches and no clocks, and how a
 single classified job of a batch compares with it.
 */
module SerialJobs {
  import opened LedgerTypes
  import opened AccountKeys
  import opened Books
  import opened Batches

  // ------------------------------------------------------------------
  // The reference
  // ------------------------------------------------------------------

  /** What a job can depend on and change, without times. */
  datatype Ledger = Ledger(terms: Terms, raws: Balances, keys: map<string, (nat, nat)>, nextSeq: nat)

  /** What a job's caller is told. `Done` is the plain Ok of opens, registrations
      and snapshots. */
  datatype Outcome =
    | Ok(txid: nat, seqno: nat)
    | Refused(verdict: Verdict)
    | Done
    | Conflict(key: string)

  function SerialCommit(l: Ledger, tx: Transaction): (Ledger, Outcome) {
    if tx.key in l.keys then (l, Ok(l.keys[tx.key].0, l.keys[tx.key].1))
    else
      var verdict := Judge(l.terms, l.raws, tx);
      var after := Project(l.raws, tx.postings);
      if verdict.Accept? && after.Projected? then
        (Ledger(l.terms, after.raws, l.keys[tx.key := (tx.id, l.nextSeq)], l.nextSeq + 1), Ok(tx.id, l.nextSeq))
      else (l, Refused(verdict))
  }

  function SerialOpen(l: Ledger, def: AccountDef, cfg: AccountCfg): (Ledger, Outcome) {
    var k := Key(def.id);
    if k in l.terms then (l, if l.terms[k] == Term(def, cfg) then Done else Conflict(k))
    else (Ledger(l.terms[k := Term(def, cfg)], l.raws[k := 0], l.keys, l.nextSeq + 1), Done)
  }

  function SerialOne(l: Ledger, job: Job): (Ledger, Outcome) {
    match job
    case Commit(tx) => SerialCommit(l, tx)
    case OpenAccount(def, cfg) => SerialOpen(l, def, cfg)
    case RegisterAsset(_, _) => (l.(nextSeq := l.nextSeq + 1), Done)
    case Snapshot => (l, Done)
  }

  function SerialAll(l: Ledger, jobs: seq<Job>): (r: (Ledger, seq<Outcome>))
    ensures |r.1| == |jobs|
  {
    if jobs == [] then (l, [])
    else
      var n := |jobs| - 1;
      var (l1, outs) := SerialAll(l, jobs[..n]);
      var (l2, out) := SerialOne(l1, jobs[n]);
      (l2, outs + [out])
  }

  lemma {:induction false} SerialConcat(l: Ledger, a: seq<Job>, b: seq<Job>)
    ensures var (l1, outs1) := SerialAll(l, a);
      var (l2, outs2) := SerialAll(l1, b);
      SerialAll(l, a + b) == (l2, outs1 + outs2)
  {
    hide SerialOne;
    if b == [] {
      assert a + b == a;
      assert SerialAll(l, a).1 + [] == SerialAll(l, a).1;
    } else {
      var n := |b| - 1;
      assert (a + b)[..|a + b| - 1] == a + b[..n];
      SerialConcat(l, a, b[..n]);
      assert (a + b)[|a + b| - 1] == b[n];
      var (l1, outs1) := SerialAll(l, a);
      var (l2, outs2) := SerialAll(l1, b[..n]);
      var (_, out) := SerialOne(l2, b[n]);
      assert outs1 + (outs2 + [out]) == (outs1 + outs2) + [out];
    }
  }

  // ------------------------------------------------------------------
  // A batch as its callers see it
  // ------------------------------------------------------------------

  function Untimed(keys: map<string, Committed>): (r: map<string, (nat, nat)>)
    ensures r.Keys == keys.Keys
  {
    map k | k in keys :: (keys[k].txid, keys[k].seqno)
  }

  function View(b: Book): Ledger {
    Ledger(TermsOf(b.accounts), Raws(b.accounts), Untimed(b.keys), b.nextSeq)
  }

  /** What the classified job's caller is told. */
  function OutcomeOf(staged: seq<WireEvent>, s: Slot): Outcome {
    match s
    case Dup(rec) => Ok(rec.txid, rec.seqno)
    case DupInBatch(i) => EventOutcome(staged, i)
    case Staged(i) => EventOutcome(staged, i)
    case Rejected(v) => Refused(v)
    case OpenConflict(k) => Conflict(k)
    case OpenExists => Done
    case SnapshotRequest => Done
  }

  function EventOutcome(staged: seq<WireEvent>, i: nat): Outcome {
    if i < |staged| && staged[i].event.TransactionPosted? then Ok(staged[i].event.tx.id, staged[i].seqno)
    else Done
  }

  function Outcomes(staged: seq<WireEvent>, slots: seq<Slot>): seq<Outcome> {
    seq(|slots|, i requires 0 <= i < |slots| => OutcomeOf(staged, slots[i]))
  }

  /** Every slot so far refers to an event already staged. */
  ghost predicate Answered(acc: Batch) {
    forall i :: 0 <= i < |acc.slots| ==>
      (acc.slots[i].DupInBatch? || acc.slots[i].Staged? ==> acc.slots[i].slot < |acc.staged|)
  }

  lemma {:induction false} AnsweredNext(acc: Batch, acc': Batch, s: Slot)
    requires Answered(acc) && acc'.slots == acc.slots + [s] && |acc.staged| <= |acc'.staged|
    requires s.DupInBatch? || s.Staged? ==> s.slot < |acc'.staged|
    ensures Answered(acc')
  {
  }

  /** Classifying a job adds one slot and at most one event. */
  lemma {:induction false} SlotAdded(b: Book, acc: Batch, job: Job, now: int)
    requires WellFormed(b, acc) && Answered(acc)
    ensures var acc' := ClassifyOne(b, acc, job, now);
      && Answered(acc') && |acc'.slots| == |acc.slots| + 1 && acc'.slots == acc.slots + [acc'.slots[|acc.slots|]]
      && |acc.staged| <= |acc'.staged| && acc'.staged[..|acc.staged|] == acc.staged
  {
    hide Judge, Overlay, Seeded, Project, StagedOk, Answered;
    var acc' := ClassifyOne(b, acc, job, now);
    if job.Commit? && job.tx.key in acc.idem {
      assert Names(acc.idem, acc.staged, job.tx.key);
    }
    AnsweredNext(acc, acc', acc'.slots[|acc.slots|]);
  }

  lemma {:induction false} OutcomesGrow(acc: Batch, acc': Batch, s: Slot)
    requires Answered(acc) && |acc.staged| <= |acc'.staged| && acc'.staged[..|acc.staged|] == acc.staged
    requires acc'.slots == acc.slots + [s]
    ensures Outcomes(acc'.staged, acc'.slots) == Outcomes(acc.staged, acc.slots) + [OutcomeOf(acc'.staged, s)]
  {
    forall i | 0 <= i < |acc.slots|
      ensures OutcomeOf(acc'.staged, acc.slots[i]) == OutcomeOf(acc.staged, acc.slots[i])
    {
      assert forall j :: 0 <= j < |acc.staged| ==> acc'.staged[j] == acc'.staged[..|acc.staged|][j];
    }
  }

  // ------------------------------------------------------------------
  // Judging against more accounts
  // ------------------------------------------------------------------

  /** The verdict names an account missing from `terms` that `terms'` has. */
  ghost predicate MissesKnown(terms: Terms, terms': Terms, ps: seq<Posting>) {
    var v := FirstMisfit(terms, ps);
    v.Some? && v.value.UnknownAccount? && Key(v.value.id) in terms'
  }

  lemma {:induction false} MisfitExtends(terms: Terms, terms': Terms, ps: seq<Posting>)
    requires Within(terms, terms')
    ensures if MissesKnown(terms, terms', ps) then FirstMisfit(terms', ps) != FirstMisfit(terms, ps)
            else FirstMisfit(terms', ps) == FirstMisfit(terms, ps)
    ensures var v := FirstMisfit(terms', ps);
      v.Some? && v.value.UnknownAccount? ==> Key(v.value.id) !in terms'
  {
    hide Key;
    if ps != [] {
      MisfitExtends(terms, terms', ps[1..]);
    }
  }

  lemma {:induction false} ViolatorsLocal(terms: Terms, terms': Terms, raws: Balances, raws': Balances,
                                          touched: set<string>)
    requires Within(terms, terms') && touched <= terms.Keys && raws.Keys == terms.Keys
    requires forall k :: k in touched ==> k in raws' && raws'[k] == raws[k]
    ensures Violators(terms', raws', touched) == Violators(terms, raws, touched)
  {
    hide BelowMinimum;
  }

  /** Known accounts judge alike whatever other accounts there are. */
  lemma {:induction false} JudgeExtends(terms: Terms, terms': Terms, raws: Balances, raws': Balances, tx: Transaction)
    requires Within(terms, terms') && Within(raws, raws') && raws.Keys == terms.Keys && raws'.Keys == terms'.Keys
    ensures !MissesKnown(terms, terms', tx.postings) ==> Judge(terms', raws', tx) == Judge(terms, raws, tx)
    ensures MissesKnown(terms, terms', tx.postings) && !IsReserved(tx.book) ==> Judge(terms', raws', tx) != Judge(terms, raws, tx)
    ensures IsReserved(tx.book) ==> Judge(terms', raws', tx) == Judge(terms, raws, tx)
  {
    MisfitExtends(terms, terms', tx.postings);
    hide FirstMisfit, MissesKnown, Violators, Project;
    if MissesKnown(terms, terms', tx.postings) {
      JudgeDiffers(terms, terms', raws, raws', tx);
    } else if FirstMisfit(terms, tx.postings).None? {
      JudgeFitting(terms, terms', raws, raws', tx);
    }
  }

  lemma {:induction false} JudgeDiffers(terms: Terms, terms': Terms, raws: Balances, raws': Balances, tx: Transaction)
    requires MissesKnown(terms, terms', tx.postings)
    requires var v := FirstMisfit(terms', tx.postings);
      v.Some? && v.value.UnknownAccount? ==> Key(v.value.id) !in terms'
    ensures !IsReserved(tx.book) ==> Judge(terms', raws', tx) != Judge(terms, raws, tx)
  {
    hide FirstMisfit, Violators, Project, Key;
  }

  lemma {:induction false} JudgeFitting(terms: Terms, terms': Terms, raws: Balances, raws': Balances, tx: Transaction)
    requires Within(terms, terms') && Within(raws, raws') && raws.Keys == terms.Keys
    requires FirstMisfit(terms, tx.postings).None? && FirstMisfit(terms', tx.postings).None?
    ensures Judge(terms', raws', tx) == Judge(terms, raws, tx)
  {
    MisfitFree(terms, tx.postings);
    ProjectLocally(raws, raws', tx.postings);
    ProjectKeys(raws, tx.postings);
    hide FirstMisfit, Violators, Project, Touched;
    match Project(raws, tx.postings) {
      case Projected(r) => ViolatorsLocal(terms, terms', r, raws' + r, Touched(tx.postings));
      case _ =>
    }
  }

  // ------------------------------------------------------------------
  // In step with the reference
  // ------------------------------------------------------------------

  /** The accounts a list of jobs asks to open. */
  function OpenedBy(jobs: seq<Job>): set<string> {
    if jobs == [] then {}
    else
      var last := jobs[|jobs| - 1];
      OpenedBy(jobs[..|jobs| - 1]) + (if last.OpenAccount? then {Key(last.def.id)} else {})
  }

  /** The staged events applied, the state is the reference's. */
  ghost predicate InStep(b: Book, acc: Batch, opens: set<string>, after: Book, l: Ledger) {
    && WellFormed(b, acc) && Mirrors(b, acc, after)
    && after.accounts.Keys == b.accounts.Keys + opens
    && View(after) == l
  }

  /** Where the batch cannot see what an earlier job of it did: it opens a new
      account once more, or it commits to an account opened earlier in the batch
      before anything else is found wrong with the commit. */
  ghost predicate Clashes(b: Book, acc: Batch, opens: set<string>, job: Job) {
    match job
    case OpenAccount(def, _) => Key(def.id) !in b.accounts && Key(def.id) in opens
    case Commit(tx) =>
      && tx.key !in b.keys && tx.key !in acc.idem && !IsReserved(tx.book)
      && var v := FirstMisfit(TermsOf(b.accounts), tx.postings);
         v.Some? && v.value.UnknownAccount? && Key(v.value.id) in opens
    case _ => false
  }

  /** The new state of the batch and of the reference, told apart by whether an
      event was staged. */
  ghost predicate StepAgrees(b: Book, acc': Batch, m: nat, opens: set<string>, after: Book, pos: FramePos, l': Ledger) {
    && m <= |acc'.staged| <= m + 1
    && if |acc'.staged| == m then InStep(b, acc', opens, after, l')
       else
         var applied := Apply(after, Placed(acc'.staged[m], pos));
         applied.Some? && InStep(b, acc', opens, applied.value, l')
  }

  lemma {:induction false} MirrorSeq(b: Book, acc: Batch, after: Book)
    requires Mirrors(b, acc, after)
    ensures after.nextSeq == acc.seqno && Within(Overlay(b, acc.raw), Raws(after.accounts))
    ensures Within(TermsOf(b.accounts), TermsOf(after.accounts))
  {
    hide Overlay, Within;
  }

  lemma {:induction false} OverlayKeys(b: Book, acc: Batch)
    requires WellFormed(b, acc)
    ensures Overlay(b, acc.raw).Keys == b.accounts.Keys
  {
    hide StagedOk, KeysOk;
  }

  /** A key known to the committed state or to the batch is known to the mirrored
      state, with the same answer. */
  lemma {:induction false} KnownKey(b: Book, acc: Batch, after: Book, k: string)
    requires WellFormed(b, acc) && Mirrors(b, acc, after)
    requires k in b.keys || k in acc.idem
    ensures k in after.keys
    ensures k in b.keys ==> after.keys[k] == b.keys[k]
    ensures k !in b.keys ==> Names(acc.idem, acc.staged, k) && after.keys[k] == RecordOf(acc.staged[acc.idem[k]])
  {
    hide StagedOk, Overlay, Within;
    assert k in b.keys ==> k !in acc.idem;
  }

  lemma {:induction false} UnknownKey(b: Book, acc: Batch, after: Book, k: string)
    requires Mirrors(b, acc, after) && k !in b.keys && k !in acc.idem
    ensures k !in after.keys
  {
    hide Overlay, Within;
  }

  lemma {:induction false} KnownStep(b: Book, acc: Batch, opens: set<string>, after: Book, tx: Transaction, now: int,
                                     pos: FramePos)
    requires InStep(b, acc, opens, after, View(after)) && (tx.key in b.keys || tx.key in acc.idem)
    ensures var acc' := ClassifyCommit(b, acc, tx, now);
      var (l, out) := SerialCommit(View(after), tx);
      && StepAgrees(b, acc', |acc.staged|, opens, after, pos, l)
      && acc'.slots != [] && OutcomeOf(acc'.staged, acc'.slots[|acc'.slots| - 1]) == out
  {
    hide Mirrors, WellFormed, Judge, Overlay, Seeded, Project, Apply, Raws, TermsOf, Untimed;
    KnownKey(b, acc, after, tx.key);
    var s := if tx.key in b.keys then Dup(b.keys[tx.key]) else DupInBatch(acc.idem[tx.key]);
    ReplyOnly(b, acc, after, acc.raw, s);
    assert acc.(raw := acc.raw) == acc;
    UntimedAt(after.keys, tx.key);
  }

  lemma {:induction false} UntimedAt(keys: map<string, Committed>, k: string)
    ensures k in Untimed(keys) <==> k in keys
    ensures k in keys ==> Untimed(keys)[k] == (keys[k].txid, keys[k].seqno)
  {
  }

  lemma {:induction false} RefusedStep(b: Book, acc: Batch, opens: set<string>, after: Book, tx: Transaction, now: int,
                                       pos: FramePos)
    requires InStep(b, acc, opens, after, View(after)) && tx.key !in b.keys && tx.key !in acc.idem
    requires !Judge(TermsOf(b.accounts), Overlay(b, acc.raw), tx).Accept?
    requires Judge(TermsOf(after.accounts), Raws(after.accounts), tx) == Judge(TermsOf(b.accounts), Overlay(b, acc.raw), tx)
    ensures var acc' := ClassifyCommit(b, acc, tx, now);
      var (l, out) := SerialCommit(View(after), tx);
      && StepAgrees(b, acc', |acc.staged|, opens, after, pos, l)
      && acc'.slots != [] && OutcomeOf(acc'.staged, acc'.slots[|acc'.slots| - 1]) == out
  {
    hide Mirrors, WellFormed, Judge, Overlay, Seeded, Project, Apply, Raws, TermsOf, Untimed;
    UnknownKey(b, acc, after, tx.key);
    UntimedAt(after.keys, tx.key);
    var verdict := Judge(TermsOf(b.accounts), Overlay(b, acc.raw), tx);
    SeedingChangesNothing(b, acc, tx.postings);
    ReplyOnly(b, acc, after, acc.raw, Rejected(verdict));
    ReplyOnly(b, acc, after, Seeded(Raws(b.accounts), acc.raw, tx.postings), Rejected(verdict));
    assert acc.(raw := acc.raw) == acc;
  }

  lemma {:induction false} AcceptKnows(b: Book, acc: Batch, after: Book, tx: Transaction)
    requires WellFormed(b, acc) && Mirrors(b, acc, after)
    requires Judge(TermsOf(b.accounts), Overlay(b, acc.raw), tx).Accept?
    ensures Touched(tx.postings) <= b.accounts.Keys <= after.accounts.Keys
    ensures Project(Seeded(Raws(b.accounts), acc.raw, tx.postings), tx.postings).Projected?
  {
    MisfitFree(TermsOf(b.accounts), tx.postings);
    MirrorSeq(b, acc, after);
    hide Project, Touched, FirstMisfit, Violators, StagedOk, KeysOk, Mirrors;
    AcceptedProjects(Raws(b.accounts), acc.raw, Overlay(b, acc.raw), tx.postings);
  }

  /** What applying an accepted commit does to the mirrored state. */
  lemma {:induction false} AcceptedLands(b: Book, acc: Batch, after: Book, tx: Transaction, e: WireEvent, pos: FramePos)
    requires WellFormed(b, acc) && Mirrors(b, acc, after) && e.event == TransactionPosted(tx)
    requires Judge(TermsOf(b.accounts), Overlay(b, acc.raw), tx).Accept?
    ensures var applied := Apply(after, Placed(e, pos));
      && applied.Some? && TermsOf(applied.value.accounts) == TermsOf(after.accounts)
      && Project(Raws(after.accounts), tx.postings) == Projected(Raws(applied.value.accounts))
      && applied.value.keys == after.keys[tx.key := Committed(tx.id, e.seqno, e.at)]
      && applied.value.nextSeq == e.seqno + 1
  {
    AcceptKnows(b, acc, after, tx);
    MirrorSeq(b, acc, after);
    assert acc.raw.Keys <= b.accounts.Keys;
    hide Judge, Project, PostAll, Seeded, Within, WellFormed, Apply, Touched, Mirrors;
    AcceptedApplies(b, acc.raw, after, tx, e.seqno, e.at);
    TransactionApplies(after, tx, e.seqno, e.at, pos);
    PostingProjects(after, tx.postings, tx.id, e.seqno, e.at);
    assert Placed(WireEvent(e.seqno, e.at, TransactionPosted(tx)), pos) == Placed(e, pos);
  }

  lemma {:induction false} UntimedPut(keys: map<string, Committed>, k: string, rec: Committed)
    ensures Untimed(keys[k := rec]) == Untimed(keys)[k := (rec.txid, rec.seqno)]
  {
  }

  lemma {:induction false} SerialAccepts(after: Book, tx: Transaction, after': Book, rec: Committed)
    requires tx.key !in after.keys && Judge(TermsOf(after.accounts), Raws(after.accounts), tx).Accept?
    requires Project(Raws(after.accounts), tx.postings) == Projected(Raws(after'.accounts))
    requires TermsOf(after'.accounts) == TermsOf(after.accounts) && after'.nextSeq == after.nextSeq + 1
    requires after'.keys == after.keys[tx.key := rec] && rec.txid == tx.id && rec.seqno == after.nextSeq
    ensures SerialCommit(View(after), tx) == (View(after'), Ok(tx.id, after.nextSeq))
  {
    UntimedPut(after.keys, tx.key, rec);
    UntimedAt(after.keys, tx.key);
    hide Judge, Project, Raws, TermsOf, Untimed;
  }

  lemma {:induction false} SameAccounts(a: Accounts, b: Accounts)
    requires TermsOf(a) == TermsOf(b)
    ensures a.Keys == b.Keys
  {
    assert TermsOf(a).Keys == a.Keys && TermsOf(b).Keys == b.Keys;
    hide TermsOf;
  }

  lemma {:induction false} AcceptedStep(b: Book, acc: Batch, opens: set<string>, after: Book, tx: Transaction,
                                        now: int, pos: FramePos)
    requires InStep(b, acc, opens, after, View(after)) && tx.key !in b.keys && tx.key !in acc.idem
    requires Judge(TermsOf(b.accounts), Overlay(b, acc.raw), tx).Accept?
    requires Judge(TermsOf(after.accounts), Raws(after.accounts), tx).Accept?
    ensures var acc' := ClassifyCommit(b, acc, tx, now);
      var (l, out) := SerialCommit(View(after), tx);
      && StepAgrees(b, acc', |acc.staged|, opens, after, pos, l)
      && acc'.slots != [] && OutcomeOf(acc'.staged, acc'.slots[|acc'.slots| - 1]) == out
  {
    var e := WireEvent(acc.seqno, Max(acc.at, now), TransactionPosted(tx));
    hide Mirrors, WellFormed, Judge, Overlay, Seeded, Project, Apply, Raws, TermsOf, ClassifyCommit, View,
      SerialCommit, Touched;
    UnknownKey(b, acc, after, tx.key);
    MirrorSeq(b, acc, after);
    AcceptKnows(b, acc, after, tx);
    AcceptForm(b, acc, tx, now);
    AcceptedLands(b, acc, after, tx, e, pos);
    StageCommit(b, acc, after, tx, now, pos);
    var after' := Apply(after, Placed(e, pos)).value;
    SameAccounts(after'.accounts, after.accounts);
    SerialAccepts(after, tx, after', Committed(tx.id, acc.seqno, e.at));
    assert ClassifyCommit(b, acc, tx, now).staged[|acc.staged|] == e;
  }

  /** A commit that does not clash is answered and done as on its own. */
  lemma {:induction false} CommitStep(b: Book, acc: Batch, opens: set<string>, after: Book, tx: Transaction, now: int,
                                      pos: FramePos)
    requires InStep(b, acc, opens, after, View(after)) && !Clashes(b, acc, opens, Commit(tx))
    ensures var acc' := ClassifyCommit(b, acc, tx, now);
      var (l, out) := SerialCommit(View(after), tx);
      && StepAgrees(b, acc', |acc.staged|, opens, after, pos, l)
      && acc'.slots != [] && OutcomeOf(acc'.staged, acc'.slots[|acc'.slots| - 1]) == out
  {
    hide StepAgrees, Judge, Overlay, TermsOf, Raws, ClassifyCommit, SerialCommit, Mirrors, WellFormed, View, Within,
      FirstMisfit;
    if tx.key in b.keys || tx.key in acc.idem {
      KnownStep(b, acc, opens, after, tx, now, pos);
    } else {
      MirrorSeq(b, acc, after);
      OverlayKeys(b, acc);
      CommitSeesAll(b, opens, after, tx);
      JudgeExtends(TermsOf(b.accounts), TermsOf(after.accounts), Overlay(b, acc.raw), Raws(after.accounts), tx);
      if Judge(TermsOf(b.accounts), Overlay(b, acc.raw), tx).Accept? {
        AcceptedStep(b, acc, opens, after, tx, now, pos);
      } else {
        RefusedStep(b, acc, opens, after, tx, now, pos);
      }
    }
  }

  lemma {:induction false} MisfitIsUnknown(terms: Terms, ps: seq<Posting>)
    ensures var v := FirstMisfit(terms, ps);
      v.Some? && v.value.UnknownAccount? ==> Key(v.value.id) !in terms
  {
    hide Key;
    if ps != [] {
      MisfitIsUnknown(terms, ps[1..]);
    }
  }

  /** What the batch misses of the mirrored state's accounts are the opened ones. */
  lemma {:induction false} CommitSeesAll(b: Book, opens: set<string>, after: Book, tx: Transaction)
    requires after.accounts.Keys == b.accounts.Keys + opens
    ensures MissesKnown(TermsOf(b.accounts), TermsOf(after.accounts), tx.postings) <==>
      (var v := FirstMisfit(TermsOf(b.accounts), tx.postings);
       v.Some? && v.value.UnknownAccount? && Key(v.value.id) in opens)
  {
    assert TermsOf(b.accounts).Keys == b.accounts.Keys && TermsOf(after.accounts).Keys == after.accounts.Keys;
    MisfitIsUnknown(TermsOf(b.accounts), tx.postings);
    hide FirstMisfit, TermsOf, Key;
  }

  // ------------------------------------------------------------------
  // Opens, registrations, snapshots
  // ------------------------------------------------------------------

  lemma {:induction false} ViewOpened(after: Book, def: AccountDef, cfg: AccountCfg, e: WireEvent, pos: FramePos)
    requires e.event == AccountOpened(def, cfg) && e.seqno == after.nextSeq && Key(def.id) !in after.accounts
    ensures var applied := Apply(after, Placed(e, pos));
      && applied.Some? && applied.value.accounts.Keys == after.accounts.Keys + {Key(def.id)}
      && SerialOpen(View(after), def, cfg) == (View(applied.value), Done)
  {
    var k, after' := Key(def.id), Apply(after, Placed(e, pos)).value;
    hide Key, Untimed;
    assert TermsOf(after'.accounts) == TermsOf(after.accounts)[k := Term(def, cfg)];
    assert Raws(after'.accounts) == Raws(after.accounts)[k := 0];
  }

  lemma {:induction false} OpenStep(b: Book, acc: Batch, opens: set<string>, after: Book, def: AccountDef,
                                    cfg: AccountCfg, now: int, pos: FramePos)
    requires InStep(b, acc, opens, after, View(after)) && !Clashes(b, acc, opens, OpenAccount(def, cfg))
    ensures var acc' := ClassifyOne(b, acc, OpenAccount(def, cfg), now);
      var (l, out) := SerialOpen(View(after), def, cfg);
      && StepAgrees(b, acc', |acc.staged|, opens + {Key(def.id)}, after, pos, l)
      && acc'.slots != [] && OutcomeOf(acc'.staged, acc'.slots[|acc'.slots| - 1]) == out
  {
    var k := Key(def.id);
    hide Key, Mirrors, WellFormed, Overlay, Apply, View, SerialOpen, Raws;
    MirrorSeq(b, acc, after);
    if k in b.accounts {
      TermMatches(b, after, def, cfg);
      ReplyOnly(b, acc, after, acc.raw, OpenExists);
      ReplyOnly(b, acc, after, acc.raw, OpenConflict(k));
      assert acc.(raw := acc.raw) == acc;
    } else {
      hide TermsOf;
      StagePlain(b, acc, after, AccountOpened(def, cfg), now, pos);
      var e := WireEvent(acc.seqno, Max(acc.at, now), AccountOpened(def, cfg));
      assert ClassifyOne(b, acc, OpenAccount(def, cfg), now).staged[|acc.staged|] == e;
      ViewOpened(after, def, cfg, e, pos);
    }
  }

  lemma {:induction false} TermMatches(b: Book, after: Book, def: AccountDef, cfg: AccountCfg)
    requires Within(TermsOf(b.accounts), TermsOf(after.accounts)) && Key(def.id) in b.accounts
    ensures var k := Key(def.id);
      SerialOpen(View(after), def, cfg) ==
        (View(after), if b.accounts[k].def == def && b.accounts[k].cfg == cfg then Done else Conflict(k))
  {
    var k := Key(def.id);
    hide Key, Untimed, Raws;
    assert TermsOf(b.accounts)[k] == TermsOf(after.accounts)[k] == Term(b.accounts[k].def, b.accounts[k].cfg);
  }

  lemma {:induction false} ViewRegistered(after: Book, asset: string, body: string, e: WireEvent, pos: FramePos)
    requires e.event == LedgerEvent.AssetRegistered(asset, body) && e.seqno == after.nextSeq
    ensures var applied := Apply(after, Placed(e, pos));
      && applied.Some? && applied.value.accounts == after.accounts
      && View(applied.value) == View(after).(nextSeq := after.nextSeq + 1)
  {
    hide Untimed, Raws, TermsOf;
  }

  lemma {:induction false} RegisterStep(b: Book, acc: Batch, opens: set<string>, after: Book, asset: string,
                                        body: string, now: int, pos: FramePos)
    requires InStep(b, acc, opens, after, View(after))
    ensures var acc' := ClassifyOne(b, acc, RegisterAsset(asset, body), now);
      && StepAgrees(b, acc', |acc.staged|, opens, after, pos, View(after).(nextSeq := View(after).nextSeq + 1))
      && acc'.slots != [] && OutcomeOf(acc'.staged, acc'.slots[|acc'.slots| - 1]) == Done
  {
    hide Mirrors, WellFormed, Overlay, Apply, Raws, TermsOf, Untimed;
    MirrorSeq(b, acc, after);
    StagePlain(b, acc, after, LedgerEvent.AssetRegistered(asset, body), now, pos);
    var e := WireEvent(acc.seqno, Max(acc.at, now), LedgerEvent.AssetRegistered(asset, body));
    assert ClassifyOne(b, acc, RegisterAsset(asset, body), now).staged[|acc.staged|] == e;
    ViewRegistered(after, asset, body, e, pos);
  }

  /** A job that does not clash is answered and done as on its own. */
  lemma {:induction false} JobStep(b: Book, acc: Batch, jobs: seq<Job>, after: Book, job: Job, now: int, pos: FramePos)
    requires InStep(b, acc, OpenedBy(jobs), after, View(after)) && !Clashes(b, acc, OpenedBy(jobs), job)
    ensures var acc' := ClassifyOne(b, acc, job, now);
      var (l, out) := SerialOne(View(after), job);
      && StepAgrees(b, acc', |acc.staged|, OpenedBy(jobs + [job]), after, pos, l)
      && acc'.slots != [] && OutcomeOf(acc'.staged, acc'.slots[|acc'.slots| - 1]) == out
  {
    hide OpenedBy, InStep, StepAgrees, ClassifyCommit, SerialCommit, SerialOpen, View, Clashes, OutcomeOf;
    OpenedNext(jobs, job);
    var opens := OpenedBy(jobs);
    match job {
      case Commit(tx) =>
        CommitStep(b, acc, opens, after, tx, now, pos);
      case OpenAccount(def, cfg) =>
        OpenStep(b, acc, opens, after, def, cfg, now, pos);
      case RegisterAsset(asset, body) =>
        RegisterStep(b, acc, opens, after, asset, body, now, pos);
      case Snapshot =>
        SnapshotStep(b, acc, opens, after, now, pos);
    }
  }

  lemma {:induction false} OpenedNext(jobs: seq<Job>, job: Job)
    ensures OpenedBy(jobs + [job]) == if job.OpenAccount? then OpenedBy(jobs) + {Key(job.def.id)} else OpenedBy(jobs)
  {
    assert (jobs + [job])[..|jobs|] == jobs;
  }

  lemma {:induction false} SnapshotStep(b: Book, acc: Batch, opens: set<string>, after: Book, now: int, pos: FramePos)
    requires InStep(b, acc, opens, after, View(after))
    ensures var acc' := ClassifyOne(b, acc, Snapshot, now);
      var (l, out) := SerialOne(View(after), Snapshot);
      && StepAgrees(b, acc', |acc.staged|, opens, after, pos, l)
      && acc'.slots != [] && OutcomeOf(acc'.staged, acc'.slots[|acc'.slots| - 1]) == out
  {
    hide Mirrors, WellFormed, View;
    ReplyOnly(b, acc, after, acc.raw, SnapshotRequest);
    assert acc.(raw := acc.raw) == acc;
  }

  // ------------------------------------------------------------------
  // Out of step
  // ------------------------------------------------------------------

  /** Answers may still agree, but the batch has spent a sequence number the
      reference has not. */
  ghost predicate OutOfStep(b: Book, acc: Batch, l: Ledger) {
    && l.nextSeq < acc.seqno
    && Within(TermsOf(b.accounts), l.terms)
    && l.keys == Untimed(b.keys + AcceptedKeys(acc.idem, acc.staged))
  }

  /** A clash tells the batch from the reference at once: by the answer, or by a
      sequence number spent on an account that was open already. */
  lemma {:induction false} ClashStep(b: Book, acc: Batch, opens: set<string>, after: Book, job: Job, now: int)
    requires InStep(b, acc, opens, after, View(after)) && Clashes(b, acc, opens, job)
    ensures var acc' := ClassifyOne(b, acc, job, now);
      var (l, out) := SerialOne(View(after), job);
      acc'.slots != [] && (OutcomeOf(acc'.staged, acc'.slots[|acc'.slots| - 1]) != out || OutOfStep(b, acc', l))
  {
    MirrorSeq(b, acc, after);
    match job {
      case OpenAccount(def, cfg) =>
        hide Overlay, Within, StagedOk, Untimed, AcceptedKeys, Key, Raws, TermsOf;
        var e := WireEvent(acc.seqno, Max(acc.at, now), AccountOpened(def, cfg));
        StageKeysOk(b, acc.idem, acc.staged, e);
      case Commit(tx) => ClashingCommit(b, acc, opens, after, tx, now);
    }
  }

  lemma {:induction false} ClashingCommit(b: Book, acc: Batch, opens: set<string>, after: Book, tx: Transaction,
                                          now: int)
    requires InStep(b, acc, opens, after, View(after)) && Clashes(b, acc, opens, Commit(tx))
    ensures var acc' := ClassifyCommit(b, acc, tx, now);
      acc'.slots != [] && OutcomeOf(acc'.staged, acc'.slots[|acc'.slots| - 1]) != SerialCommit(View(after), tx).1
  {
    hide Overlay, TermsOf, Raws, Mirrors, WellFormed, Within, FirstMisfit, Untimed, Seeded, Project, Violators, Key,
      MissesKnown;
    MirrorSeq(b, acc, after);
    OverlayKeys(b, acc);
    UnknownKey(b, acc, after, tx.key);
    UntimedAt(after.keys, tx.key);
    CommitSeesAll(b, opens, after, tx);
    JudgeExtends(TermsOf(b.accounts), TermsOf(after.accounts), Overlay(b, acc.raw), Raws(after.accounts), tx);
  }

  /** From then on no job brings the two together again. */
  lemma {:induction false} OutOfStepStays(b: Book, acc: Batch, l: Ledger, job: Job, now: int)
    requires WellFormed(b, acc) && OutOfStep(b, acc, l)
    ensures var acc' := ClassifyOne(b, acc, job, now);
      var (l', out) := SerialOne(l, job);
      acc'.slots != [] && (OutcomeOf(acc'.staged, acc'.slots[|acc'.slots| - 1]) != out || OutOfStep(b, acc', l'))
  {
    match job {
      case Commit(tx) => LateCommit(b, acc, l, tx, now);
      case OpenAccount(def, cfg) => LateOpen(b, acc, l, def, cfg, now);
      case RegisterAsset(asset, body) =>
        hide Within, StagedOk, Untimed, AcceptedKeys, TermsOf;
        StageKeysOk(b, acc.idem, acc.staged, WireEvent(acc.seqno, Max(acc.at, now), LedgerEvent.AssetRegistered(asset, body)));
      case Snapshot =>
    }
  }

  lemma {:induction false} LateOpen(b: Book, acc: Batch, l: Ledger, def: AccountDef, cfg: AccountCfg, now: int)
    requires WellFormed(b, acc) && OutOfStep(b, acc, l)
    ensures var acc' := ClassifyOne(b, acc, OpenAccount(def, cfg), now);
      var (l', out) := SerialOpen(l, def, cfg);
      acc'.slots != [] && OutOfStep(b, acc', l')
  {
    var k := Key(def.id);
    hide StagedOk, Untimed, AcceptedKeys, Key;
    if k !in b.accounts {
      StageKeysOk(b, acc.idem, acc.staged, WireEvent(acc.seqno, Max(acc.at, now), AccountOpened(def, cfg)));
    }
    assert TermsOf(b.accounts).Keys == b.accounts.Keys;
    hide TermsOf;
  }

  lemma {:induction false} LateCommit(b: Book, acc: Batch, l: Ledger, tx: Transaction, now: int)
    requires WellFormed(b, acc) && OutOfStep(b, acc, l)
    ensures var acc' := ClassifyCommit(b, acc, tx, now);
      var (l', out) := SerialCommit(l, tx);
      acc'.slots != [] && (OutcomeOf(acc'.staged, acc'.slots[|acc'.slots| - 1]) != out || OutOfStep(b, acc', l'))
  {
    hide StagedOk, Judge, Project, Seeded, Overlay, Raws, TermsOf, Within;
    var known := b.keys + AcceptedKeys(acc.idem, acc.staged);
    UntimedAt(known, tx.key);
    if tx.key in b.keys || tx.key in acc.idem {
      assert tx.key in acc.idem ==> Names(acc.idem, acc.staged, tx.key) && tx.key !in b.keys;
    }
    hide Untimed;
  }
}
