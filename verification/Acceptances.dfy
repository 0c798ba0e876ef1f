/** Which commits of a batch are staged, said from the log: the sums of everything
    posted to an account so far, batchmates included. */
module Acceptances {
  import opened LedgerTypes
  import opened AccountKeys
  import PostingIndexes
  import opened Books
  import opened Judgements
  import opened Batches
  import opened Histories
  import opened AccountHistories

  /** What a log leaves on these accounts. */
  ghost function Standing(log: seq<Placed>, keys: set<string>): map<string, int> {
    map k | k in keys :: Sum(Movements(log, k))
  }

  lemma {:induction false} OneMore(b: Book, acc: Batch, job: Job, now: int)
    ensures var acc' := ClassifyOne(b, acc, job, now); |acc'.slots| == |acc.slots| + 1 && acc'.slots[..|acc.slots|] == acc.slots
  {
    hide Judge, Overlay, Seeded, Project;
  }

  lemma {:induction false} OneSlotEach(b: Book, jobs: seq<Job>, now0: int, nows: seq<int>)
    requires |nows| == |jobs|
    ensures |Classify(b, jobs, now0, nows).slots| == |jobs|
  {
    hide ClassifyOne;
    if jobs != [] {
      var n := |jobs| - 1;
      OneSlotEach(b, jobs[..n], now0, nows[..n]);
      OneMore(b, Classify(b, jobs[..n], now0, nows[..n]), jobs[n], nows[n]);
    }
  }

  /** A slot once given stays. */
  lemma {:induction false} SlotStays(b: Book, jobs: seq<Job>, now0: int, nows: seq<int>, i: nat)
    requires |nows| == |jobs| && i < |jobs|
    ensures |Classify(b, jobs, now0, nows).slots| == |jobs|
    ensures var acc := ClassifyOne(b, Classify(b, jobs[..i], now0, nows[..i]), jobs[i], nows[i]);
      |acc.slots| == i + 1 && Classify(b, jobs, now0, nows).slots[i] == acc.slots[i]
  {
    hide ClassifyOne;
    var n := |jobs| - 1;
    OneSlotEach(b, jobs, now0, nows);
    OneSlotEach(b, jobs[..i], now0, nows[..i]);
    OneMore(b, Classify(b, jobs[..i], now0, nows[..i]), jobs[i], nows[i]);
    if i < n {
      SlotStays(b, jobs[..n], now0, nows[..n], i);
      assert jobs[..n][..i] == jobs[..i] && nows[..n][..i] == nows[..i];
      var front := Classify(b, jobs[..n], now0, nows[..n]);
      OneMore(b, front, jobs[n], nows[n]);
      assert Classify(b, jobs, now0, nows).slots[..n][i] == front.slots[i];
    }
  }

  /** The overlay is what the log and the batchmates before leave. */
  lemma {:induction false} OverlayIs(log: seq<Placed>, jobs: seq<Job>, now0: int, nows: seq<int>, pl: seq<Placed>)
    requires GoodLog(log) && |nows| == |jobs| && Places(pl, Classify(Fold(log), jobs, now0, nows).staged)
    ensures Overlay(Fold(log), Classify(Fold(log), jobs, now0, nows).raw) == Standing(log + pl, Fold(log).accounts.Keys)
  {
    var b, acc := Fold(log), Classify(Fold(log), jobs, now0, nows);
    BatchExtends(log, jobs, now0, nows, pl);
    StagedApply(b, jobs, now0, nows, pl);
    assert Replay(EmptyBook, log + pl).Some?;
    hide Classify, Replay, GoodLog, StagedOk, KeysOk, Movements, Sum, PostingIndexes.Valid, PostingIndexes.Flat, EntryOk;
    var after, over := Fold(log + pl), Overlay(b, acc.raw);
    assert over.Keys == b.accounts.Keys;
    forall k | k in over
      ensures over[k] == Sum(Movements(log + pl, k))
    {
      assert k in Raws(after.accounts);
      ReplayHistory(log + pl, k);
    }
  }

  ghost predicate Names(pl: seq<Placed>, j: nat, key: string) {
    j < |pl| && pl[j].ev.event.TransactionPosted? && pl[j].ev.event.tx.key == key
  }

  /** Some event before has the key. */
  ghost predicate StagedKey(pl: seq<Placed>, key: string) {
    exists j: nat :: Names(pl, j, key)
  }

  /** How commit i of a batch is answered, from the log and the events of the batch
      before it: with the log's record for a key the log has, with the batchmate's for
      a key staged before, and otherwise on its merits. It is staged if and only if it
      is acceptable on top of everything posted so far; accounts opened by batchmates
      do not count. */
  lemma {:induction false} CommitExactly(log: seq<Placed>, jobs: seq<Job>, now0: int, nows: seq<int>, i: nat,
                                         pl: seq<Placed>)
    returns (at: nat)
    requires GoodLog(log) && |nows| == |jobs| && i < |jobs| && jobs[i].Commit?
    requires Places(pl, Classify(Fold(log), jobs[..i], now0, nows[..i]).staged)
    ensures |Classify(Fold(log), jobs, now0, nows).slots| == |jobs|
    ensures var tx, s := jobs[i].tx, Classify(Fold(log), jobs, now0, nows).slots[i];
      var terms, raws := TermsOf(Fold(log).accounts), Standing(log + pl, Fold(log).accounts.Keys);
      if tx.key in LogKeys(log) then s == Dup(LogKeys(log)[tx.key])
      else if StagedKey(pl, tx.key) then s.DupInBatch? && Names(pl, s.slot, tx.key)
      else if Acceptable(terms, raws, tx) then s == Staged(|pl|)
      else s.Rejected? && Deserves(terms, raws, tx, s.verdict, at)
  {
    var b, front, tx := Fold(log), Classify(Fold(log), jobs[..i], now0, nows[..i]), jobs[i].tx;
    SlotStays(b, jobs, now0, nows, i);
    FoldStamps(log);
    OverlayIs(log, jobs[..i], now0, nows[..i], pl);
    ClassifyWellFormed(b, jobs[..i], now0, nows[..i]);
    hide Classify, GoodLog, Fold, LogKeys, StagedOk, Standing, Overlay, Deserves, Acceptable, Seeded, Project, Judge;
    at := JudgedExactly(TermsOf(b.accounts), Overlay(b, front.raw), tx);
    StagedKeyIs(b, front.idem, front.staged, pl, tx.key);
  }

  lemma {:induction false} StagedKeyIs(b: Book, idem: map<string, nat>, staged: seq<WireEvent>, pl: seq<Placed>, key: string)
    requires KeysOk(b, idem, staged) && Places(pl, staged)
    ensures key in idem <==> StagedKey(pl, key)
    ensures key in idem ==> Names(pl, idem[key], key)
  {
    if key in idem {
      assert Batches.Names(idem, staged, key);
      assert Names(pl, idem[key], key);
    }
    if StagedKey(pl, key) {
      var j: nat :| Names(pl, j, key);
      assert staged[j].event.tx.key in idem;
    }
  }

  // ------------------------------------------------------------------
  // Opens
  // ------------------------------------------------------------------

  /** How an open is answered, from the log: staged for an account the log never
      opened, Ok for one it first opened with these very settings, and a conflict for
      one it first opened with others. Batchmates do not count. */
  lemma {:induction false} OpenExactly(log: seq<Placed>, jobs: seq<Job>, now0: int, nows: seq<int>, i: nat)
    requires GoodLog(log) && |nows| == |jobs| && i < |jobs| && jobs[i].OpenAccount?
    ensures |Classify(Fold(log), jobs, now0, nows).slots| == |jobs|
    ensures var k, s := Key(jobs[i].def.id), Classify(Fold(log), jobs, now0, nows).slots[i];
      match OpenedAs(log, k)
      case None => s.Staged?
      case Some(term) => s == if term == Term(jobs[i].def, jobs[i].cfg) then OpenExists else OpenConflict(k)
  {
    assert Replay(EmptyBook, log).Some?;
    hide Classify, GoodLog, OpenedAs, Replay, Key;
    SlotStays(Fold(log), jobs, now0, nows, i);
    TermsFromLog(log, Key(jobs[i].def.id));
  }

  lemma {:induction false} TermsFromLog(log: seq<Placed>, k: string)
    requires GoodLog(log)
    ensures k in Fold(log).accounts <==> OpenedAs(log, k).Some?
    ensures k in Fold(log).accounts ==> Term(Fold(log).accounts[k].def, Fold(log).accounts[k].cfg) == OpenedAs(log, k).value
  {
    OpenedTerms(log, k);
  }

  // ------------------------------------------------------------------
  // Times
  // ------------------------------------------------------------------

  /** A time some clock reading gave, or the log's last. */
  ghost predicate IsReading(b: Book, now0: int, nows: seq<int>, at: int) {
    at == Floor(b) || at == now0 || exists j :: 0 <= j < |nows| && nows[j] == at
  }

  /** The batch's time is a reading, never behind the log or the first. */
  lemma {:induction false} BatchTime(b: Book, jobs: seq<Job>, now0: int, nows: seq<int>)
    requires |nows| == |jobs|
    ensures var acc := Classify(b, jobs, now0, nows); IsReading(b, now0, nows, acc.at) && Floor(b) <= acc.at && now0 <= acc.at
  {
    hide Judge, Overlay, Seeded, Project, Floor;
    if jobs != [] {
      var n := |jobs| - 1;
      BatchTime(b, jobs[..n], now0, nows[..n]);
      var front := Classify(b, jobs[..n], now0, nows[..n]);
      if exists j :: 0 <= j < n && nows[..n][j] == front.at {
        var j :| 0 <= j < n && nows[..n][j] == front.at;
        assert nows[j] == front.at;
      }
      assert nows[n] == nows[n];
      hide Classify, ClassifyOne;
      StepTime(b, front, jobs[n], nows[n]);
    }
  }

  lemma {:induction false} StepTime(b: Book, acc: Batch, job: Job, now: int)
    ensures var acc' := ClassifyOne(b, acc, job, now);
      (acc'.at == acc.at || acc'.at == now) && acc.at <= acc'.at && (acc'.staged != acc.staged ==> now <= acc'.at)
  {
    hide Judge, Overlay, Seeded, Project;
  }

  lemma {:induction false} StepStages(b: Book, acc: Batch, job: Job, now: int)
    ensures var acc' := ClassifyOne(b, acc, job, now);
      && acc'.slots != []
      && (acc'.slots[|acc'.slots| - 1].Staged? ==>
           var m := acc'.slots[|acc'.slots| - 1].slot;
           m == |acc.staged| < |acc'.staged| && acc'.staged[m].at == acc'.at && now <= acc'.at)
  {
    hide Judge, Overlay, Seeded, Project;
  }

  /** An event staged for job i has a time that is not behind the log, the first
      reading or its own, and is one of the readings up to its own. */
  lemma {:induction false} TimesExactly(b: Book, jobs: seq<Job>, now0: int, nows: seq<int>, i: nat)
    requires |nows| == |jobs| && i < |jobs|
    ensures |Classify(b, jobs, now0, nows).slots| == |jobs|
    ensures var acc := Classify(b, jobs, now0, nows);
      acc.slots[i].Staged? ==>
        && acc.slots[i].slot < |acc.staged|
        && var at := acc.staged[acc.slots[i].slot].at;
           IsReading(b, now0, nows[..i + 1], at) && Floor(b) <= at && now0 <= at && nows[i] <= at
  {
    hide ClassifyOne, IsReading, Floor;
    var n := |jobs| - 1;
    OneSlotEach(b, jobs, now0, nows);
    OneSlotEach(b, jobs[..n], now0, nows[..n]);
    OneMore(b, Classify(b, jobs[..n], now0, nows[..n]), jobs[n], nows[n]);
    StagedGrow(b, jobs, now0, nows);
    var front, acc := Classify(b, jobs[..n], now0, nows[..n]), Classify(b, jobs, now0, nows);
    if i < n {
      TimesExactly(b, jobs[..n], now0, nows[..n], i);
      assert acc.slots[..n][i] == front.slots[i] && nows[..n][..i + 1] == nows[..i + 1];
      if front.slots[i].Staged? {
        assert acc.staged[..|front.staged|][front.slots[i].slot] == acc.staged[front.slots[i].slot];
      }
    } else {
      StepStages(b, front, jobs[n], nows[n]);
      BatchTime(b, jobs, now0, nows);
      assert nows[..n + 1] == nows;
    }
  }
}
