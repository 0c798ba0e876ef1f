/**
 Classifying one batch in place: the writer's local variables, advanced job by
 job, are the specification's fold of the batch.
 */
module BatchRuns {
  import opened LedgerTypes
  import opened AccountKeys
  import opened Books
  import opened Batches
  import opened TieredIndex
  import opened BookStates
  import Idem = IdemSpill

  /** How a job is to be answered once the batch is on disk. */
  datatype Reply =
    | AlreadyCommitted(rec: Committed)
    | SameBatch(slot: nat)
    | Refuse(err: StoreError)
    | OpenAgain
    | Accepted(slot: nat)
    | TakeSnapshot

  /** A reply carries what the slot says; a refusal, some error its verdict may
      be reported with. */
  ghost predicate Matches(terms: Terms, s: Slot, r: Reply) {
    match s
    case Dup(rec) => r == AlreadyCommitted(rec)
    case DupInBatch(i) => r == SameBatch(i)
    case Rejected(v) => r.Refuse? && Reports(terms, v, r.err)
    case OpenConflict(k) => r == Refuse(AlreadyExists(k))
    case OpenExists => r == OpenAgain
    case Staged(i) => r == Accepted(i)
    case SnapshotRequest => r == TakeSnapshot
  }

  ghost predicate AllMatch(terms: Terms, slots: seq<Slot>, replies: seq<Reply>) {
    |slots| == |replies| && forall i :: 0 <= i < |slots| ==> Matches(terms, slots[i], replies[i])
  }

  /** `resolved` holds what run files answered for the batch's keys that the hot
      map missed. */
  ghost predicate Resolves(jobs: seq<Job>, hot: map<string, Committed>, contents: map<string, Committed>,
                           resolved: map<string, Committed>) {
    && (forall k :: k in resolved ==> k in contents && contents[k] == resolved[k])
    && (forall i :: 0 <= i < |jobs| && jobs[i].Commit? && jobs[i].tx.key in contents ==>
         jobs[i].tx.key in hot || jobs[i].tx.key in resolved)
  }

  /** The commit keys of the batch neither hot nor ruled out by the filter. */
  method FilterKeys(st: BookState, jobs: seq<Job>) returns (positive: seq<string>)
    requires st.Valid()
    ensures forall i :: 0 <= i < |jobs| && jobs[i].Commit? ==> Filtered(st, positive, jobs[i].tx.key)
  {
    hide Idem.InRuns;
    positive := [];
    for i := 0 to |jobs|
      invariant forall j :: 0 <= j < i && jobs[j].Commit? ==> Filtered(st, positive, jobs[j].tx.key)
    {
      if jobs[i].Commit? {
        var key := jobs[i].tx.key;
        var hit := st.idem.GetHot(key);
        var maybe := st.idem.BloomMightContain(key);
        if hit.None? && maybe {
          positive := positive + [key];
        }
      }
    }
  }

  ghost predicate Filtered(st: BookState, positive: seq<string>, key: string)
    reads st.idem
  {
    key in st.idem.hot || key in positive || !Idem.InRuns(st.idem.disk, st.idem.runs, key)
  }

  method LookupKeys(st: BookState, positive: seq<string>) returns (resolved: map<string, Committed>)
    requires st.Valid()
    ensures forall k :: k in resolved ==> k in st.idem.contents && st.idem.contents[k] == resolved[k]
    ensures forall k :: k in positive ==> k in resolved || !Idem.InRuns(st.idem.disk, st.idem.runs, k)
  {
    hide Idem.InRuns;
    resolved := map[];
    for i := 0 to |positive|
      invariant forall k :: k in resolved ==> k in st.idem.contents && st.idem.contents[k] == resolved[k]
      invariant forall k :: k in positive[..i] ==> k in resolved || !Idem.InRuns(st.idem.disk, st.idem.runs, k)
    {
      var hit := st.idem.GetHot(positive[i]);
      if hit.None? {
        hit := st.idem.LookupRuns(positive[i]);
      }
      if hit.Some? {
        HotIsHeld(st, positive[i]);
        resolved := resolved[positive[i] := hit.value];
      }
    }
  }

  lemma HotIsHeld(st: BookState, key: string)
    requires st.Valid()
    ensures key in st.idem.hot ==> key in st.idem.contents && st.idem.contents[key] == st.idem.hot[key]
    ensures key in st.idem.contents ==> key in st.idem.hot || Idem.InRuns(st.idem.disk, st.idem.runs, key)
  {
  }

  /** Hot map, then the filter, then the run files: together they answer exactly
      what the index holds. */
  method ResolveKeys(st: BookState, jobs: seq<Job>) returns (resolved: map<string, Committed>)
    requires st.Valid()
    ensures Resolves(jobs, st.idem.hot, st.idem.contents, resolved)
  {
    var positive := FilterKeys(st, jobs);
    resolved := LookupKeys(st, positive);
    hide Idem.InRuns;
    forall i | 0 <= i < |jobs| && jobs[i].Commit? && jobs[i].tx.key in st.idem.contents
      ensures jobs[i].tx.key in st.idem.hot || jobs[i].tx.key in resolved
    {
      assert Filtered(st, positive, jobs[i].tx.key);
      HotIsHeld(st, jobs[i].tx.key);
    }
  }

  /** The variables of the classification loop. */
  class BatchRun {
    const scratch: Scratch
    var replies: seq<Reply>
    var staged: seq<WireEvent>
    var seqno: nat
    var at: int
    ghost var slots: seq<Slot>

    ghost function View(): Batch
      reads this, scratch
    {
      Batch(scratch.raw, scratch.idem, slots, staged, seqno, at)
    }

    ghost predicate Valid(terms: Terms)
      reads this
    {
      AllMatch(terms, slots, replies)
    }

    constructor (st: BookState, now: int)
      ensures fresh(scratch) && View() == Start(st.Model(), now) && AllMatch(map[], slots, replies) && slots == []
    {
      scratch := new Scratch();
      replies, staged, slots := [], [], [];
      seqno := st.nextSeq;
      at := Max(now, if st.lastAt.Some? then st.lastAt.value else 0);
    }

    method Answer(r: Reply, ghost s: Slot, ghost terms: Terms)
      requires Valid(terms) && Matches(terms, s, r)
      modifies this`replies, this`slots
      ensures Valid(terms) && View() == Batches.Reply(old(View()), s)
    {
      replies := replies + [r];
      slots := slots + [s];
    }

    /** Time advances with the clock but never steps back. */
    method Stage(e: LedgerEvent, now: int, ghost terms: Terms)
      requires Valid(terms)
      modifies this
      ensures Valid(terms) && View() == StageEvent(old(View()), e, now)
    {
      at := Max(at, now);
      Answer(Accepted(|staged|), Slot.Staged(|staged|), terms);
      staged := staged + [WireEvent(seqno, at, e)];
      seqno := seqno + 1;
    }

    /** One commit job. `ok` is false only if the overlay cannot take what
        validation accepted, which never happens. */
    method CommitJob(st: BookState, tx: Transaction, now: int, resolved: map<string, Committed>) returns (ok: bool)
      requires st.Valid() && Valid(TermsOf(st.accounts)) && WellFormed(st.Model(), View())
      requires Resolves([Commit(tx)], st.idem.hot, st.idem.contents, resolved)
      modifies this, scratch
      ensures ok && Valid(TermsOf(st.accounts))
      ensures View() == ClassifyCommit(old(st.Model()), old(View()), tx, now)
    {
      ghost var b, terms, before := st.Model(), TermsOf(st.accounts), View();
      assert [Commit(tx)][0].tx.key == tx.key;
      var hit := st.idem.GetHot(tx.key);
      if hit.None? && tx.key in resolved {
        hit := Some(resolved[tx.key]);
      }
      if hit.Some? {
        Answer(AlreadyCommitted(hit.value), Slot.Dup(hit.value), terms);
        return true;
      }
      if tx.key in scratch.idem {
        Answer(SameBatch(scratch.idem[tx.key]), Slot.DupInBatch(scratch.idem[tx.key]), terms);
        return true;
      }
      hide Judge, Project, Seeded, Raws, TermsOf, Reports, WellFormed;
      assert before.raw.Keys <= st.accounts.Keys by { RawWithin(b, before); }
      ghost var verdict := Judge(terms, Overlay(b, before.raw), tx);
      var refusal := st.Validate(tx, scratch);
      if refusal.Some? {
        Answer(Refuse(refusal.value), Slot.Rejected(verdict), terms);
        return true;
      }
      AcceptedStages(b, before, tx);
      ok := scratch.Stage(tx);
      assert scratch.raw == Project(Seeded(Raws(b.accounts), before.raw, tx.postings), tx.postings).raws;
      scratch.idem := scratch.idem[tx.key := |staged|];
      Stage(TransactionPosted(tx), now, terms);
    }

    method RunJob(st: BookState, job: Job, now: int, resolved: map<string, Committed>) returns (ok: bool)
      requires st.Valid() && Valid(TermsOf(st.accounts)) && WellFormed(st.Model(), View())
      requires Resolves([job], st.idem.hot, st.idem.contents, resolved)
      modifies this, scratch
      ensures ok && Valid(TermsOf(st.accounts))
      ensures View() == ClassifyOne(old(st.Model()), old(View()), job, now)
    {
      hide ClassifyCommit, WellFormed, AllMatch;
      ok := true;
      match job {
        case Commit(tx) => ok := CommitJob(st, tx, now, resolved);
        case OpenAccount(def, cfg) => OpenJob(st, def, cfg, now);
        case RegisterAsset(asset, body) => Stage(LedgerEvent.AssetRegistered(asset, body), now, TermsOf(st.accounts));
        case Snapshot =>
          assert Matches(TermsOf(st.accounts), SnapshotRequest, TakeSnapshot);
          Answer(TakeSnapshot, SnapshotRequest, TermsOf(st.accounts));
      }
    }

    method OpenJob(st: BookState, def: AccountDef, cfg: AccountCfg, now: int)
      requires Valid(TermsOf(st.accounts))
      modifies this
      ensures Valid(TermsOf(st.accounts))
      ensures View() == ClassifyOne(st.Model(), old(View()), OpenAccount(def, cfg), now)
    {
      ghost var terms := TermsOf(st.accounts);
      var k := ToKey(def.id);
      if k in st.accounts {
        if st.accounts[k].def == def && st.accounts[k].cfg == cfg {
          Answer(OpenAgain, OpenExists, terms);
        } else {
          Answer(Refuse(AlreadyExists(k)), OpenConflict(k), terms);
        }
        return;
      }
      Stage(AccountOpened(def, cfg), now, terms);
    }
  }

  lemma ResolvesOne(jobs: seq<Job>, i: nat, hot: map<string, Committed>, contents: map<string, Committed>,
                    resolved: map<string, Committed>)
    requires Resolves(jobs, hot, contents, resolved) && i < |jobs|
    ensures Resolves([jobs[i]], hot, contents, resolved)
  {
  }

  lemma ClassifyNext(b: Book, jobs: seq<Job>, now0: int, nows: seq<int>, i: nat)
    requires |nows| == |jobs| && i < |jobs|
    ensures Classify(b, jobs[..i + 1], now0, nows[..i + 1]) ==
      ClassifyOne(b, Classify(b, jobs[..i], now0, nows[..i]), jobs[i], nows[i])
  {
    hide ClassifyOne;
    assert jobs[..i + 1][..i] == jobs[..i] && nows[..i + 1][..i] == nows[..i];
  }

  lemma RawWithin(b: Book, acc: Batch)
    requires WellFormed(b, acc)
    ensures acc.raw.Keys <= b.accounts.Keys
  {
  }

  /** What validation accepts, the overlay can take. */
  lemma AcceptedStages(b: Book, acc: Batch, tx: Transaction)
    requires WellFormed(b, acc) && Judge(TermsOf(b.accounts), Overlay(b, acc.raw), tx).Accept?
    ensures Project(Seeded(Raws(b.accounts), acc.raw, tx.postings), tx.postings).Projected?
  {
    MisfitFree(TermsOf(b.accounts), tx.postings);
    hide Project, Touched, FirstMisfit, Violators, StagedOk, KeysOk;
    AcceptedProjects(Raws(b.accounts), acc.raw, Overlay(b, acc.raw), tx.postings);
  }

  /** The whole batch, in queue order: the in-place loop computes the fold, and
      its fail-stop branch is never taken. */
  method ClassifyJobs(st: BookState, jobs: seq<Job>, now0: int, nows: seq<int>)
    returns (staged: seq<WireEvent>, replies: seq<Reply>, fatal: bool)
    requires st.Valid() && |nows| == |jobs|
    ensures !fatal
    ensures staged == Classify(st.Model(), jobs, now0, nows).staged
    ensures AllMatch(TermsOf(st.accounts), Classify(st.Model(), jobs, now0, nows).slots, replies)
  {
    var resolved := ResolveKeys(st, jobs);
    var run := new BatchRun(st, now0);
    ghost var b, terms := st.Model(), TermsOf(st.accounts);
    fatal := false;
    var i := 0;
    while i < |jobs| && !fatal
      invariant 0 <= i <= |jobs| && !fatal
      invariant fresh(run) && fresh(run.scratch)
      invariant st.Valid() && st.Model() == b && TermsOf(st.accounts) == terms
      invariant Resolves(jobs, st.idem.hot, st.idem.contents, resolved)
      invariant run.View() == Classify(b, jobs[..i], now0, nows[..i]) && run.Valid(terms)
    {
      hide Classify, ClassifyOne, WellFormed, TermsOf, AllMatch, Resolves;
      ClassifyWellFormed(b, jobs[..i], now0, nows[..i]);
      ClassifyNext(b, jobs, now0, nows, i);
      ResolvesOne(jobs, i, st.idem.hot, st.idem.contents, resolved);
      var ok := run.RunJob(st, jobs[i], nows[i], resolved);
      fatal := !ok;
      i := i + 1;
    }
    assert jobs[..|jobs|] == jobs && nows[..|jobs|] == nows;
    return run.staged, run.replies, fatal;
  }
}
