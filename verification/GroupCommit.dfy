/**
 Group commit against one job at a time: for any jobs at all, when a batch answers
 and does what its jobs do on their own, and when it does not.
 */
module GroupCommit {
  import opened LedgerTypes
  import opened AccountKeys
  import opened Books
  import opened Batches
  import opened SerialJobs

  // ------------------------------------------------------------------
  // One batch
  // ------------------------------------------------------------------

  /** No job of the batch clashes with an earlier one. */
  ghost predicate ClashFree(b: Book, jobs: seq<Job>, now0: int, nows: seq<int>)
    requires |nows| == |jobs|
  {
    jobs == [] ||
      (var n := |jobs| - 1;
       && ClashFree(b, jobs[..n], now0, nows[..n])
       && !Clashes(b, Classify(b, jobs[..n], now0, nows[..n]), OpenedBy(jobs[..n]), jobs[n]))
  }

  /** How batch and reference stand after some jobs: in step as long as nothing
      clashed, and never again in agreement once something has. */
  ghost predicate Tracks(b: Book, jobs: seq<Job>, now0: int, nows: seq<int>, after: Book)
    requires |nows| == |jobs|
  {
    var acc := Classify(b, jobs, now0, nows);
    var (l, outs) := SerialAll(View(b), jobs);
    if ClashFree(b, jobs, now0, nows) then
      InStep(b, acc, OpenedBy(jobs), after, l) && Outcomes(acc.staged, acc.slots) == outs
    else
      Outcomes(acc.staged, acc.slots) != outs || OutOfStep(b, acc, l)
  }

  lemma {:induction false} AllAnswered(b: Book, jobs: seq<Job>, now0: int, nows: seq<int>)
    requires |nows| == |jobs|
    ensures var acc := Classify(b, jobs, now0, nows); Answered(acc) && |acc.slots| == |jobs|
  {
    hide ClassifyOne, WellFormed, Answered;
    if jobs == [] {
      NothingAnswered(b, now0);
    } else {
      var n := |jobs| - 1;
      AllAnswered(b, jobs[..n], now0, nows[..n]);
      ClassifyWellFormed(b, jobs[..n], now0, nows[..n]);
      SlotAdded(b, Classify(b, jobs[..n], now0, nows[..n]), jobs[n], nows[n]);
    }
  }

  lemma {:induction false} NothingAnswered(b: Book, now: int)
    ensures Answered(Start(b, now))
  {
  }

  lemma {:induction false} StartTracks(b: Book, now: int)
    ensures Tracks(b, [], now, [], b)
  {
    StartMirrors(b, now);
    hide Mirrors, WellFormed, View;
    assert Outcomes([], []) == [];
    assert b.accounts.Keys + {} == b.accounts.Keys;
  }

  lemma {:induction false} SlotAppended(b: Book, jobs: seq<Job>, now0: int, nows: seq<int>)
    requires |nows| == |jobs| > 0
    ensures var n := |jobs| - 1;
      var acc, acc' := Classify(b, jobs[..n], now0, nows[..n]), Classify(b, jobs, now0, nows);
      && WellFormed(b, acc) && acc' == ClassifyOne(b, acc, jobs[n], nows[n]) && acc'.slots != []
      && |acc.staged| <= |acc'.staged| && acc'.staged[..|acc.staged|] == acc.staged
      && Outcomes(acc'.staged, acc'.slots) ==
         Outcomes(acc.staged, acc.slots) + [OutcomeOf(acc'.staged, acc'.slots[|acc'.slots| - 1])]
  {
    var n := |jobs| - 1;
    var acc, acc' := Classify(b, jobs[..n], now0, nows[..n]), Classify(b, jobs, now0, nows);
    hide ClassifyOne, WellFormed, Answered, OutcomeOf;
    AllAnswered(b, jobs[..n], now0, nows[..n]);
    ClassifyWellFormed(b, jobs[..n], now0, nows[..n]);
    SlotAdded(b, acc, jobs[n], nows[n]);
    OutcomesGrow(acc, acc', acc'.slots[|acc.slots|]);
  }

  lemma {:induction false} SerialLast(l: Ledger, jobs: seq<Job>)
    requires jobs != []
    ensures var n := |jobs| - 1;
      var (l1, outs) := SerialAll(l, jobs[..n]);
      SerialAll(l, jobs) == (SerialOne(l1, jobs[n]).0, outs + [SerialOne(l1, jobs[n]).1])
  {
    hide SerialOne;
  }

  lemma {:induction false} Longer<T>(a: seq<T>, b: seq<T>, x: T, y: T)
    ensures a + [x] == b + [y] <==> a == b && x == y
  {
    if a + [x] == b + [y] {
      assert |a| == |b| && (a + [x])[|a|] == x && (b + [y])[|b|] == y;
      assert (a + [x])[..|a|] == a && (b + [y])[..|b|] == b;
    }
  }

  /** One job more, not clashing, keeps batch and reference in step. */
  lemma {:induction false} TracksStep(b: Book, jobs: seq<Job>, now0: int, nows: seq<int>, after: Book, pos: FramePos)
    requires |nows| == |jobs| > 0 && ClashFree(b, jobs, now0, nows)
    requires var n := |jobs| - 1; Tracks(b, jobs[..n], now0, nows[..n], after)
    ensures var n := |jobs| - 1;
      var m, staged := |Classify(b, jobs[..n], now0, nows[..n]).staged|, Classify(b, jobs, now0, nows).staged;
      && m <= |staged| <= m + 1
      && if |staged| == m then Tracks(b, jobs, now0, nows, after)
         else Apply(after, Placed(staged[m], pos)).Some?
              && Tracks(b, jobs, now0, nows, Apply(after, Placed(staged[m], pos)).value)
  {
    var n := |jobs| - 1;
    var acc, acc' := Classify(b, jobs[..n], now0, nows[..n]), Classify(b, jobs, now0, nows);
    var (l, outs) := SerialAll(View(b), jobs[..n]);
    assert jobs == jobs[..n] + [jobs[n]];
    SlotAppended(b, jobs, now0, nows);
    SerialLast(View(b), jobs);
    hide ClassifyOne, WellFormed, Mirrors, Clashes, OutcomeOf, SerialOne, OutOfStep, Apply, Outcomes, OpenedBy,
      Classify, SerialAll, View;
    JobStep(b, acc, jobs[..n], after, jobs[n], nows[n], pos);
    Longer(Outcomes(acc.staged, acc.slots), outs, OutcomeOf(acc'.staged, acc'.slots[|acc'.slots| - 1]), SerialOne(l, jobs[n]).1);
  }

  /** The last answers differ, or the sequence numbers do. */
  ghost predicate LastDiffers(b: Book, jobs: seq<Job>, now0: int, nows: seq<int>)
    requires |nows| == |jobs|
  {
    var acc := Classify(b, jobs, now0, nows);
    var (l, outs) := SerialAll(View(b), jobs);
    acc.slots != [] && outs != [] &&
      (OutcomeOf(acc.staged, acc.slots[|acc.slots| - 1]) != outs[|outs| - 1] || OutOfStep(b, acc, l))
  }

  lemma {:induction false} FirstClash(b: Book, jobs: seq<Job>, now0: int, nows: seq<int>, after: Book)
    requires |nows| == |jobs| > 0 && !ClashFree(b, jobs, now0, nows)
    requires var n := |jobs| - 1; ClashFree(b, jobs[..n], now0, nows[..n]) && Tracks(b, jobs[..n], now0, nows[..n], after)
    ensures LastDiffers(b, jobs, now0, nows)
  {
    var n := |jobs| - 1;
    SlotAppended(b, jobs, now0, nows);
    SerialLast(View(b), jobs);
    hide ClassifyOne, WellFormed, Mirrors, Clashes, OutcomeOf, SerialOne, OutOfStep, Outcomes, OpenedBy, Classify,
      SerialAll, View;
    ClashStep(b, Classify(b, jobs[..n], now0, nows[..n]), OpenedBy(jobs[..n]), after, jobs[n], nows[n]);
  }

  lemma {:induction false} LaterClash(b: Book, jobs: seq<Job>, now0: int, nows: seq<int>)
    requires |nows| == |jobs| > 0
    requires var n := |jobs| - 1;
      OutOfStep(b, Classify(b, jobs[..n], now0, nows[..n]), SerialAll(View(b), jobs[..n]).0)
    ensures LastDiffers(b, jobs, now0, nows)
  {
    hide ClassifyOne, WellFormed, OutcomeOf, SerialOne, OutOfStep, Outcomes, Classify, SerialAll, View;
    var n := |jobs| - 1;
    var acc, l, job := Classify(b, jobs[..n], now0, nows[..n]), SerialAll(View(b), jobs[..n]).0, jobs[n];
    SlotAppended(b, jobs, now0, nows);
    SerialLast(View(b), jobs);
    OutOfStepStays(b, acc, l, job, nows[n]);
    var acc', outs := Classify(b, jobs, now0, nows), SerialAll(View(b), jobs).1;
    assert outs[|outs| - 1] == SerialOne(l, job).1 && SerialAll(View(b), jobs).0 == SerialOne(l, job).0;
  }

  lemma {:induction false} DiffersTracks(b: Book, jobs: seq<Job>, now0: int, nows: seq<int>, after: Book)
    requires |nows| == |jobs| > 0 && !ClashFree(b, jobs, now0, nows)
    requires var n := |jobs| - 1;
      var acc := Classify(b, jobs[..n], now0, nows[..n]);
      LastDiffers(b, jobs, now0, nows) || Outcomes(acc.staged, acc.slots) != SerialAll(View(b), jobs[..n]).1
    ensures Tracks(b, jobs, now0, nows, after)
  {
    var n := |jobs| - 1;
    var acc, acc' := Classify(b, jobs[..n], now0, nows[..n]), Classify(b, jobs, now0, nows);
    var (l, outs) := SerialAll(View(b), jobs[..n]);
    SlotAppended(b, jobs, now0, nows);
    SerialLast(View(b), jobs);
    hide ClassifyOne, WellFormed, OutcomeOf, SerialOne, OutOfStep, Outcomes, Classify, SerialAll, View, ClashFree;
    Longer(Outcomes(acc.staged, acc.slots), outs, OutcomeOf(acc'.staged, acc'.slots[|acc'.slots| - 1]), SerialOne(l, jobs[n]).1);
  }

  /** Once something has clashed, batch and reference differ for good. */
  lemma {:induction false} TracksClash(b: Book, jobs: seq<Job>, now0: int, nows: seq<int>, after: Book, after': Book)
    requires |nows| == |jobs| > 0 && !ClashFree(b, jobs, now0, nows)
    requires var n := |jobs| - 1; Tracks(b, jobs[..n], now0, nows[..n], after)
    ensures Tracks(b, jobs, now0, nows, after')
  {
    var n := |jobs| - 1;
    hide Classify, OutOfStep, Outcomes, SerialAll, View, LastDiffers, ClashFree, InStep;
    if ClashFree(b, jobs[..n], now0, nows[..n]) {
      FirstClash(b, jobs, now0, nows, after);
    } else if OutOfStep(b, Classify(b, jobs[..n], now0, nows[..n]), SerialAll(View(b), jobs[..n]).0) {
      LaterClash(b, jobs, now0, nows);
    }
    DiffersTracks(b, jobs, now0, nows, after');
  }

  lemma {:induction false} BatchTracks(b: Book, jobs: seq<Job>, now0: int, nows: seq<int>, pl: seq<Placed>)
    requires |nows| == |jobs|
    requires Places(pl, Classify(b, jobs, now0, nows).staged)
    ensures Replay(b, pl).Some? && Tracks(b, jobs, now0, nows, Replay(b, pl).value)
  {
    hide Tracks, Apply, ClassifyOne, ClashFree;
    if jobs == [] {
      StartTracks(b, now0);
    } else {
      var n := |jobs| - 1;
      var acc, acc' := Classify(b, jobs[..n], now0, nows[..n]), Classify(b, jobs, now0, nows);
      StagedGrow(b, jobs, now0, nows);
      StagedApply(b, jobs, now0, nows, pl);
      var m := |acc.staged|;
      assert Places(pl[..m], acc.staged);
      BatchTracks(b, jobs[..n], now0, nows[..n], pl[..m]);
      var pos := if |pl| > m then pl[m].pos else (0, 0);
      if ClashFree(b, jobs, now0, nows) {
        TracksStep(b, jobs, now0, nows, Replay(b, pl[..m]).value, pos);
      } else {
        TracksClash(b, jobs, now0, nows, Replay(b, pl[..m]).value, Replay(b, pl).value);
      }
      if |pl| == m + 1 {
        assert pl[m] == Placed(acc'.staged[m], pos) && pl[..|pl| - 1] == pl[..m];
      } else if |pl| == m {
        assert pl[..m] == pl;
      }
    }
  }

  /** One batch of any jobs, whatever the clock says, answers and does what its jobs
      do one at a time, if and only if none of them clashes with an earlier one. */
  lemma {:induction false} BatchIsSerial(b: Book, jobs: seq<Job>, now0: int, nows: seq<int>, pl: seq<Placed>)
    requires |nows| == |jobs|
    requires Places(pl, Classify(b, jobs, now0, nows).staged)
    ensures var acc := Classify(b, jobs, now0, nows);
      && |acc.slots| == |jobs| && Replay(b, pl).Some?
      && ((View(Replay(b, pl).value), Outcomes(acc.staged, acc.slots)) == SerialAll(View(b), jobs)
          <==> ClashFree(b, jobs, now0, nows))
  {
    AllAnswered(b, jobs, now0, nows);
    BatchTracks(b, jobs, now0, nows, pl);
    StagedApply(b, jobs, now0, nows, pl);
    MirrorSeq(b, Classify(b, jobs, now0, nows), Replay(b, pl).value);
    hide Classify, ClashFree, Replay, Mirrors, WellFormed, Outcomes, SerialAll;
  }

  // ------------------------------------------------------------------
  // Telling beforehand
  // ------------------------------------------------------------------

  /** The job opens the account or posts to it. */
  ghost predicate Concerns(job: Job, k: string) {
    match job
    case OpenAccount(def, _) => Key(def.id) == k
    case Commit(tx) => k in Touched(tx.postings)
    case _ => false
  }

  /** No job concerns a new account that an earlier job of the batch opens. */
  ghost predicate Separate(b: Book, jobs: seq<Job>) {
    forall i, j :: 0 <= i < j < |jobs| && jobs[i].OpenAccount? && Key(jobs[i].def.id) !in b.accounts
      ==> !Concerns(jobs[j], Key(jobs[i].def.id))
  }

  lemma {:induction false} OpenedIsSome(jobs: seq<Job>, k: string) returns (i: nat)
    requires k in OpenedBy(jobs)
    ensures i < |jobs| && jobs[i].OpenAccount? && Key(jobs[i].def.id) == k
  {
    var n := |jobs| - 1;
    if jobs[n].OpenAccount? && Key(jobs[n].def.id) == k {
      i := n;
    } else {
      i := OpenedIsSome(jobs[..n], k);
    }
  }

  lemma {:induction false} MisfitIsTouched(terms: Terms, ps: seq<Posting>)
    ensures var v := FirstMisfit(terms, ps);
      v.Some? && v.value.UnknownAccount? ==> Key(v.value.id) in Touched(ps) && Key(v.value.id) !in terms
  {
    MisfitIsUnknown(terms, ps);
    if ps != [] {
      MisfitIsTouched(terms, ps[1..]);
      assert ps == [ps[0]] + ps[1..];
      hide Key;
    }
  }

  /** Separate jobs never clash: all a caller needs to look at is the jobs. */
  lemma {:induction false} SeparateIsClashFree(b: Book, jobs: seq<Job>, now0: int, nows: seq<int>)
    requires |nows| == |jobs| && Separate(b, jobs)
    ensures ClashFree(b, jobs, now0, nows)
  {
    hide Key, Touched, Classify, OpenedBy;
    if jobs != [] {
      var n := |jobs| - 1;
      assert Separate(b, jobs[..n]);
      SeparateIsClashFree(b, jobs[..n], now0, nows[..n]);
      var acc := Classify(b, jobs[..n], now0, nows[..n]);
      if Clashes(b, acc, OpenedBy(jobs[..n]), jobs[n]) {
        var k;
        match jobs[n] {
          case OpenAccount(def, _) => k := Key(def.id);
          case Commit(tx) =>
            MisfitIsTouched(TermsOf(b.accounts), tx.postings);
            k := Key(FirstMisfit(TermsOf(b.accounts), tx.postings).value.id);
        }
        assert k !in b.accounts && Concerns(jobs[n], k);
        var i := OpenedIsSome(jobs[..n], k);
        assert false;
      }
    }
  }

  /** Commits, registrations and snapshots alone are always separate, and so is a
      batch of one. */
  lemma {:induction false} NoOpensAreSeparate(b: Book, jobs: seq<Job>)
    ensures (forall i :: 0 <= i < |jobs| ==> !jobs[i].OpenAccount?) ==> Separate(b, jobs)
    ensures |jobs| <= 1 ==> Separate(b, jobs)
  {
    hide Concerns, Key;
  }

  // ------------------------------------------------------------------
  // Any cut into batches
  // ------------------------------------------------------------------

  /** One batch and the clock readings it meets. */
  datatype Group = Group(jobs: seq<Job>, now0: int, nows: seq<int>)

  ghost predicate Timed(gs: seq<Group>) {
    forall i :: 0 <= i < |gs| ==> |gs[i].nows| == |gs[i].jobs|
  }

  function AllJobs(gs: seq<Group>): seq<Job> {
    if gs == [] then [] else AllJobs(gs[..|gs| - 1]) + gs[|gs| - 1].jobs
  }

  /** The segments put the event with sequence number s at `place(s)`. */
  function PlaceAll(staged: seq<WireEvent>, place: nat -> FramePos): (pl: seq<Placed>)
    ensures Places(pl, staged)
  {
    seq(|staged|, i requires 0 <= i < |staged| => Placed(staged[i], place(staged[i].seqno)))
  }

  function RunGroup(b: Book, g: Group, place: nat -> FramePos): Option<(Book, seq<Outcome>)>
    requires |g.nows| == |g.jobs|
  {
    var acc := Classify(b, g.jobs, g.now0, g.nows);
    match Replay(b, PlaceAll(acc.staged, place))
    case None => None
    case Some(b') => Some((b', Outcomes(acc.staged, acc.slots)))
  }

  function RunGroups(b: Book, gs: seq<Group>, place: nat -> FramePos): Option<(Book, seq<Outcome>)>
    requires Timed(gs)
  {
    if gs == [] then Some((b, []))
    else match RunGroups(b, gs[..|gs| - 1], place)
      case None => None
      case Some((b1, outs1)) =>
        match RunGroup(b1, gs[|gs| - 1], place)
        case None => None
        case Some((b2, outs2)) => Some((b2, outs1 + outs2))
  }

  /** Every batch is clash-free for the book it meets. */
  ghost predicate AllClashFree(b: Book, gs: seq<Group>, place: nat -> FramePos)
    requires Timed(gs)
  {
    gs == [] ||
      (var front, g := gs[..|gs| - 1], gs[|gs| - 1];
       && AllClashFree(b, front, place)
       && (RunGroups(b, front, place).Some? ==> ClashFree(RunGroups(b, front, place).value.0, g.jobs, g.now0, g.nows)))
  }

  /** Group commit refines one job at a time: however jobs are cut into clash-free
      batches and whatever the clocks read, the answers, sequence numbers, dedup
      results, accounts and balances are those of the reference. */
  lemma {:induction false} GroupCommitIsSerial(b: Book, gs: seq<Group>, place: nat -> FramePos)
    requires Timed(gs) && AllClashFree(b, gs, place)
    ensures var r := RunGroups(b, gs, place);
      r.Some? && (View(r.value.0), r.value.1) == SerialAll(View(b), AllJobs(gs))
  {
    hide View, SerialOne, ClashFree;
    if gs != [] {
      var front, g := gs[..|gs| - 1], gs[|gs| - 1];
      GroupCommitIsSerial(b, front, place);
      var b1 := RunGroups(b, front, place).value.0;
      BatchIsSerial(b1, g.jobs, g.now0, g.nows, PlaceAll(Classify(b1, g.jobs, g.now0, g.nows).staged, place));
      SerialConcat(View(b), AllJobs(front), g.jobs);
    }
  }

  /** Any two clash-free ways to batch the same jobs, batches of one included,
      agree. */
  lemma CutsAgree(b: Book, gs: seq<Group>, hs: seq<Group>, place: nat -> FramePos, place': nat -> FramePos)
    requires Timed(gs) && Timed(hs) && AllJobs(gs) == AllJobs(hs)
    requires AllClashFree(b, gs, place) && AllClashFree(b, hs, place')
    ensures var r, s := RunGroups(b, gs, place), RunGroups(b, hs, place');
      r.Some? && s.Some? && r.value.1 == s.value.1 && View(r.value.0) == View(s.value.0)
  {
    hide View, AllClashFree;
    GroupCommitIsSerial(b, gs, place);
    GroupCommitIsSerial(b, hs, place');
  }

  /** Batches without opens, and batches of one, never clash. */
  lemma {:induction false} EasyGroups(b: Book, gs: seq<Group>, place: nat -> FramePos)
    requires Timed(gs)
    requires forall i, j :: 0 <= i < |gs| && 0 <= j < |gs[i].jobs| ==> !gs[i].jobs[j].OpenAccount? || |gs[i].jobs| == 1
    ensures AllClashFree(b, gs, place)
  {
    hide ClashFree, RunGroups, Separate;
    if gs != [] {
      var front, g := gs[..|gs| - 1], gs[|gs| - 1];
      EasyGroups(b, front, place);
      if RunGroups(b, front, place).Some? {
        var b1 := RunGroups(b, front, place).value.0;
        NoOpensAreSeparate(b1, g.jobs);
        SeparateIsClashFree(b1, g.jobs, g.now0, g.nows);
      }
    }
  }

  // ------------------------------------------------------------------
  // What a clash looks like
  // ------------------------------------------------------------------

  /** An account opened in a batch is invisible to that batch's commits: posting
      to it in the same batch is refused, whatever else the transaction does. */
  lemma OpenedInBatchIsUnknown(b: Book, def: AccountDef, cfg: AccountCfg, tx: Transaction, now0: int, nows: seq<int>)
    requires |nows| == 2 && Key(def.id) !in b.accounts && tx.key !in b.keys && !IsReserved(tx.book)
    requires tx.postings != [] && tx.postings[0].account == def.id
    ensures var acc := Classify(b, [OpenAccount(def, cfg), Commit(tx)], now0, nows);
      acc.slots == [Staged(0), Rejected(UnknownAccount(def.id))]
  {
    var jobs := [OpenAccount(def, cfg), Commit(tx)];
    assert jobs[..1] == [OpenAccount(def, cfg)] && jobs[..1][..0] == [] && nows[..1][..0] == [];
    assert Classify(b, [], now0, []) == Start(b, now0);
    assert FirstMisfit(TermsOf(b.accounts), tx.postings) == Some(UnknownAccount(def.id));
  }

  lemma {:induction false} TwoOpens(b: Book, def: AccountDef, cfg: AccountCfg, def': AccountDef, cfg': AccountCfg,
                                    now0: int, nows: seq<int>)
    requires |nows| == 2 && Key(def'.id) == Key(def.id) && Key(def.id) !in b.accounts
    ensures var acc := Classify(b, [OpenAccount(def, cfg), OpenAccount(def', cfg')], now0, nows);
      && acc.slots == [Staged(0), Staged(1)] && |acc.staged| == 2
      && acc.staged[0].event == AccountOpened(def, cfg) && acc.staged[1].event == AccountOpened(def', cfg')
      && acc.staged[1].seqno == b.nextSeq + 1
  {
    var jobs := [OpenAccount(def, cfg), OpenAccount(def', cfg')];
    assert jobs[..1] == [OpenAccount(def, cfg)] && jobs[..1][..0] == [] && nows[..1][..0] == [];
    assert Classify(b, [], now0, []) == Start(b, now0);
  }

  /** Two opens of one new account in a batch are both answered Ok and both staged;
      the first one's settings stay, the second one's are dropped without a word,
      and a sequence number is spent on it. On its own the second is refused when it
      differs and spends none when it does not. */
  lemma {:induction false} SecondOpenIsDropped(b: Book, def: AccountDef, cfg: AccountCfg, def': AccountDef,
                                               cfg': AccountCfg,
                                               now0: int, nows: seq<int>, pl: seq<Placed>)
    requires |nows| == 2 && Key(def'.id) == Key(def.id) && Key(def.id) !in b.accounts
    requires Places(pl, Classify(b, [OpenAccount(def, cfg), OpenAccount(def', cfg')], now0, nows).staged)
    ensures var jobs, k := [OpenAccount(def, cfg), OpenAccount(def', cfg')], Key(def.id);
      var acc := Classify(b, jobs, now0, nows);
      var (l, outs) := SerialAll(View(b), jobs);
      && Outcomes(acc.staged, acc.slots) == [Done, Done] && Replay(b, pl).Some?
      && var after := Replay(b, pl).value;
         && k in after.accounts && Term(after.accounts[k].def, after.accounts[k].cfg) == Term(def, cfg)
         && after.nextSeq == b.nextSeq + 2
         && outs == [Done, if Term(def', cfg') == Term(def, cfg) then Done else Conflict(k)]
         && l.nextSeq == b.nextSeq + 1
  {
    TwoOpens(b, def, cfg, def', cfg', now0, nows);
    var jobs := [OpenAccount(def, cfg), OpenAccount(def', cfg')];
    hide Classify, Key, View;
    assert jobs[..1] == [OpenAccount(def, cfg)] && jobs[..1][..0] == [];
    assert |pl| == 2 && pl[..1] == [pl[0]] && pl[..1][..0] == [];
    assert Replay(b, pl[..1]) == Apply(b, pl[0]);
    SerialTwoOpens(View(b), def, cfg, def', cfg');
    ViewKnows(b, Key(def.id));
  }

  lemma {:induction false} SerialTwoOpens(l: Ledger, def: AccountDef, cfg: AccountCfg, def': AccountDef,
                                          cfg': AccountCfg)
    requires Key(def'.id) == Key(def.id) && Key(def.id) !in l.terms
    ensures var (l', outs) := SerialAll(l, [OpenAccount(def, cfg), OpenAccount(def', cfg')]);
      && outs == [Done, if Term(def', cfg') == Term(def, cfg) then Done else Conflict(Key(def.id))]
      && l'.nextSeq == l.nextSeq + 1
  {
    var jobs := [OpenAccount(def, cfg), OpenAccount(def', cfg')];
    hide Key;
    assert jobs[..1] == [OpenAccount(def, cfg)] && jobs[..1][..0] == [];
    SerialLast(l, jobs[..1]);
    SerialLast(l, jobs);
  }

  lemma {:induction false} ViewKnows(b: Book, k: string)
    ensures k in View(b).terms <==> k in b.accounts
    ensures View(b).nextSeq == b.nextSeq
  {
  }
}
