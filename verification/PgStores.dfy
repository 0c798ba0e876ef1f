/** The store object: batch commits in place, set-based first, draft by draft when
    that attempt aborts. */
module PgStores {
  import opened LedgerTypes
  import opened AccountKeys
  import PgDrafts
  import opened PgTables
  import opened PgBatch
  import opened PgSerial
  import opened PgRefinement

  /** One account's accumulated contribution: the wrapping total, each draft's
      delta in order, and the last draft that touched it. */
  datatype AcctAgg = AcctAgg(total: i64, steps: seq<(nat, i64)>, lastTouch: nat)

  function StepDeltas(steps: seq<(nat, i64)>): (r: seq<i64>)
    ensures |r| == |steps| && forall i :: 0 <= i < |r| ==> r[i] == steps[i].1
  {
    if steps == [] then [] else StepDeltas(steps[..|steps| - 1]) + [steps[|steps| - 1].1]
  }

  ghost predicate EntryOk(a: AcctAgg, ws: seq<Draft>, k: string)
    requires k in TouchedBy(ws)
  {
    a.total == Wrap(IntSum(Steps(ws, k))) && StepDeltas(a.steps) == Steps(ws, k) && a.lastTouch == LastTouch(ws, k)
  }

  ghost predicate AggOk(agg: map<string, AcctAgg>, ws: seq<Draft>) {
    agg.Keys == TouchedBy(ws) && forall k :: k in agg ==> EntryOk(agg[k], ws, k)
  }

  // ------------------------------------------------------------------
  // Accumulating
  // ------------------------------------------------------------------

  function Accumulate(a: AcctAgg, idx: nat, delta: i64): AcctAgg {
    AcctAgg(Wrap(a.total + delta), a.steps + [(idx, delta)], idx)
  }

  lemma {:induction false} NothingYet()
    ensures IntSum([]) == 0 && Wrap(0) == 0 && StepDeltas([]) == []
  {
  }

  lemma {:induction false} AccumulateNext(a: AcctAgg, ws: seq<Draft>, w: Draft, k: string)
    requires k in w.deltas
    requires if k in TouchedBy(ws) then EntryOk(a, ws, k) else a.total == 0 && a.steps == []
    ensures k in TouchedBy(ws + [w]) && EntryOk(Accumulate(a, |ws|, w.deltas[k]), ws + [w], k)
  {
    hide Steps, TouchedBy, IntSum, Wrap, StepDeltas, LastTouch;
    NothingYet();
    StepsNext(ws, w, k);
    StepsUntouched(ws, k);
    LastTouchNext(ws, w, k);
    WrapAdds(IntSum(Steps(ws, k)), w.deltas[k]);
    StepDeltasNext(a.steps, (|ws|, w.deltas[k]));
  }

  lemma {:induction false} StepDeltasNext(steps: seq<(nat, i64)>, s: (nat, i64))
    ensures StepDeltas(steps + [s]) == StepDeltas(steps) + [s.1]
  {
    assert (steps + [s])[..|steps|] == steps;
  }

  lemma {:induction false} UntouchedNext(a: AcctAgg, ws: seq<Draft>, w: Draft, k: string)
    requires k !in w.deltas && k in TouchedBy(ws) && EntryOk(a, ws, k)
    ensures k in TouchedBy(ws + [w]) && EntryOk(a, ws + [w], k)
  {
    StepsNext(ws, w, k);
    LastTouchNext(ws, w, k);
    assert Steps(ws, k) + [] == Steps(ws, k);
  }

  lemma {:induction false} EntryOf(agg: map<string, AcctAgg>, ws: seq<Draft>, k: string)
    requires AggOk(agg, ws)
    ensures k in agg <==> k in TouchedBy(ws)
    ensures k in agg ==> EntryOk(agg[k], ws, k)
  {
    hide EntryOk, TouchedBy;
  }

  ghost predicate Entered(r: map<string, AcctAgg>, ws: seq<Draft>, k: string) {
    k in r && k in TouchedBy(ws) && EntryOk(r[k], ws, k)
  }

  lemma {:induction false} AllEntered(agg: map<string, AcctAgg>, r: map<string, AcctAgg>, ws: seq<Draft>, w: Draft)
    requires AggOk(agg, ws) && forall k :: k in r <==> k in agg || k in w.deltas
    requires forall k :: k in agg && k !in w.deltas ==> r[k] == agg[k]
    requires forall k :: k in w.deltas ==> Entered(r, ws + [w], k)
    ensures AggOk(r, ws + [w])
  {
    StepsNext(ws, w, "");
    hide EntryOk, TouchedBy, Steps;
    forall k | k in r
      ensures k in TouchedBy(ws + [w]) && EntryOk(r[k], ws + [w], k)
    {
      if k in w.deltas {
        assert Entered(r, ws + [w], k);
      } else {
        EntryOf(agg, ws, k);
        UntouchedNext(agg[k], ws, w, k);
      }
    }
  }

  /** Adds one draft's deltas to the aggregate, account by account. */
  method AddDraft(agg: map<string, AcctAgg>, deltas: Deltas, idx: nat, ghost ws: seq<Draft>, ghost w: Draft)
    returns (r: map<string, AcctAgg>)
    requires AggOk(agg, ws) && idx == |ws| && w.deltas == deltas
    ensures AggOk(r, ws + [w])
  {
    hide EntryOk, Accumulate, Steps, LastTouch, TouchedBy, AggOk, Entered;
    r := agg;
    var rest := deltas.Keys;
    while rest != {}
      invariant forall k :: k in rest ==> k in deltas
      invariant forall k :: k in r <==> k in agg || (k in deltas && k !in rest)
      invariant forall k :: k in agg && (k in rest || k !in deltas) ==> r[k] == agg[k]
      invariant forall k :: k in deltas && k !in rest ==> Entered(r, ws + [w], k)
      decreases |rest|
    {
      var k :| k in rest;
      var entry := if k in agg then agg[k] else AcctAgg(0, [], idx);
      EntryOf(agg, ws, k);
      AccumulateNext(entry, ws, w, k);
      ghost var before := r;
      r := r[k := Accumulate(entry, idx, deltas[k])];
      EnteredNext(before, r, ws + [w], k);
      rest := rest - {k};
    }
    AllEntered(agg, r, ws, w);
  }

  lemma {:induction false} EnteredNext(before: map<string, AcctAgg>, r: map<string, AcctAgg>, ws: seq<Draft>, k: string)
    requires k in r && r == before[k := r[k]] && k in TouchedBy(ws) && EntryOk(r[k], ws, k)
    ensures Entered(r, ws, k) && forall j :: Entered(before, ws, j) && j != k ==> Entered(r, ws, j)
  {
    hide EntryOk, TouchedBy;
  }

  // ------------------------------------------------------------------
  // Loops over postings and drafts
  // ------------------------------------------------------------------

  lemma {:induction false} FoldStops(accounts: map<string, AccountRow>, ps: seq<Posting>, i: nat)
    requires i <= |ps| && FoldPostings(accounts, ps[..i]).Invalid?
    ensures FoldPostings(accounts, ps) == FoldPostings(accounts, ps[..i])
    decreases |ps| - i
  {
    hide FoldPosting;
    if i == |ps| {
      assert ps[..i] == ps;
    } else {
      assert ps[..i + 1][..i] == ps[..i];
      FoldStops(accounts, ps, i + 1);
    }
  }

  /** `fold_postings`. */
  method FoldDraft(accounts: map<string, AccountRow>, tx: Transaction) returns (r: Folded)
    ensures r == FoldPostings(accounts, tx.postings)
  {
    var pending: Deltas := map[];
    for i := 0 to |tx.postings|
      invariant FoldPostings(accounts, tx.postings[..i]) == Folded.Deltas(pending)
    {
      assert tx.postings[..i + 1][..i] == tx.postings[..i];
      match FoldPosting(accounts, pending, tx.postings[i]) {
        case Invalid(e) =>
          FoldStops(accounts, tx.postings, i + 1);
          return Invalid(e);
        case Deltas(d) =>
          pending := d;
      }
    }
    assert tx.postings[..|tx.postings|] == tx.postings;
    return Folded.Deltas(pending);
  }

  lemma {:induction false} PlanStops(t: Tables, book: string, txs: seq<Transaction>, i: nat)
    requires i <= |txs| && PlanOf(t, book, txs[..i]).None?
    ensures PlanOf(t, book, txs).None?
    decreases |txs| - i
  {
    hide FoldPostings;
    if i == |txs| {
      assert txs[..i] == txs;
    } else {
      assert txs[..i + 1][..i] == txs[..i];
      PlanStops(t, book, txs, i + 1);
    }
  }

  /** The single pass: duplicates set aside, the rest folded and aggregated. None
      when some draft does not validate. */
  method BuildWriteSet(t: Tables, book: string, txs: seq<Transaction>)
    returns (ok: bool, ws: seq<Draft>, agg: map<string, AcctAgg>)
    ensures ok <==> PlanOf(t, book, txs).Some?
    ensures ok ==> ws == PlanOf(t, book, txs).value.writes && AggOk(agg, ws)
  {
    ws, agg := [], map[];
    var seen: set<string> := {};
    for i := 0 to |txs|
      invariant PlanOf(t, book, txs[..i]) == Some(Plan(ws, seen)) && AggOk(agg, ws)
    {
      hide FoldPostings, AggOk;
      var tx := txs[i];
      assert txs[..i + 1][..i] == txs[..i];
      if (book, tx.key) !in t.byKey && tx.key !in seen {
        var folded := FoldDraft(t.accounts, tx);
        if folded.Invalid? {
          PlanStops(t, book, txs, i + 1);
          return false, ws, agg;
        }
        var w := Draft(i, tx, folded.deltas);
        agg := AddDraft(agg, folded.deltas, |ws|, ws, w);
        ws := ws + [w];
        seen := seen + {tx.key};
      }
    }
    assert txs[..|txs|] == txs;
    ok := true;
  }

  // ------------------------------------------------------------------
  // The prefix check
  // ------------------------------------------------------------------

  lemma {:induction false} LowStays(row: AccountRow, base: int, steps: seq<i64>, j: nat)
    requires j <= |steps| && PrefixLow(row, base, steps[..j])
    ensures PrefixLow(row, base, steps)
    decreases |steps| - j
  {
    if j == |steps| {
      assert steps[..j] == steps;
    } else {
      assert steps[..j + 1][..j] == steps[..j];
      LowStays(row, base, steps, j + 1);
    }
  }

  /** Replays an account's steps on its balance before the batch. */
  method ReplaySteps(row: AccountRow, final: i64, entry: AcctAgg) returns (low: bool)
    requires InI64(final - entry.total)
    ensures low <==> PrefixLow(row, final - entry.total, StepDeltas(entry.steps))
  {
    ghost var base, deltas := final - entry.total, StepDeltas(entry.steps);
    var running: i64 := final - entry.total;
    WrapIsExact(base);
    assert deltas[..0] == [] && IntSum([]) == 0;
    for j := 0 to |entry.steps|
      invariant running == Wrap(base + IntSum(deltas[..j])) && !PrefixLow(row, base, deltas[..j])
    {
      hide Wrap, Low;
      assert deltas[..j + 1][..j] == deltas[..j];
      WrapAdds(base + IntSum(deltas[..j]), deltas[j]);
      running := Wrap(running + entry.steps[j].1);
      if Low(row, running) {
        LowStays(row, base, deltas, j + 1);
        return true;
      }
    }
    assert deltas[..|deltas|] == deltas;
    return false;
  }

  /** Some account with a minimum falls below it on the way. */
  method AnyReplayLow(t: Tables, ws: seq<Draft>, agg: map<string, AcctAgg>, balances: map<string, BalanceRow>)
    returns (low: bool)
    requires AggOk(agg, ws) && TouchedBy(ws) <= t.accounts.Keys && TouchedBy(ws) <= balances.Keys
    requires forall k :: k in agg ==> k in balances && InI64(balances[k].balance - agg[k].total)
    ensures low <==> AnyPrefixLow(t, ws, balances)
  {
    hide EntryOk, TouchedBy, PrefixLow, Steps;
    var rest := agg.Keys;
    while rest != {}
      invariant rest <= agg.Keys
      invariant forall k :: k in agg && k !in rest && t.accounts[k].cfg.minBalance.Some? ==>
        !PrefixLow(t.accounts[k], balances[k].balance - Totals(ws)[k], Steps(ws, k))
      decreases |rest|
    {
      var k :| k in rest;
      EntryTotals(agg, ws, k);
      if t.accounts[k].cfg.minBalance.Some? {
        low := ReplaySteps(t.accounts[k], balances[k].balance, agg[k]);
        if low {
          return;
        }
      }
      rest := rest - {k};
    }
    return false;
  }

  lemma {:induction false} EntryTotals(agg: map<string, AcctAgg>, ws: seq<Draft>, k: string)
    requires AggOk(agg, ws) && k in agg
    ensures k in TouchedBy(ws) && agg[k].total == Totals(ws)[k] && StepDeltas(agg[k].steps) == Steps(ws, k)
    ensures agg[k].lastTouch == LastTouch(ws, k)
  {
    assert EntryOk(agg[k], ws, k);
  }

  function TotalsIn(agg: map<string, AcctAgg>): Deltas {
    map k | k in agg :: agg[k].total
  }

  function SeqsIn(agg: map<string, AcctAgg>, first: nat): map<string, nat> {
    map k | k in agg :: first + agg[k].lastTouch
  }

  lemma {:induction false} AggMaps(agg: map<string, AcctAgg>, ws: seq<Draft>, first: nat)
    requires AggOk(agg, ws)
    ensures TotalsIn(agg) == Totals(ws) && SeqsIn(agg, first) == LastSeqs(ws, first)
  {
    hide EntryOk, TouchedBy, Steps, LastTouch;
    forall k | k in agg
      ensures k in TouchedBy(ws) && agg[k].total == Totals(ws)[k] && agg[k].lastTouch == LastTouch(ws, k)
    {
      EntryTotals(agg, ws, k);
    }
  }

  /** The prefix check, then the inserts. */
  method InsertRows(t: Tables, book: string, ws: seq<Draft>, agg: map<string, AcctAgg>, balances: map<string,
                    BalanceRow>)
    returns (r: Option<Tables>)
    requires ws != [] && AggOk(agg, ws) && TouchedBy(ws) <= t.accounts.Keys && TouchedBy(ws) <= balances.Keys
    requires forall k :: k in agg ==> k in balances && InI64(balances[k].balance - agg[k].total)
    ensures r == WriteRows(t, book, ws, balances)
  {
    hide AggOk, TouchedBy, AnyPrefixLow, Stored, DistinctIds, IdsOf;
    var low := AnyReplayLow(t, ws, agg, balances);
    if low {
      return None;
    }
    if !DistinctIds(ws) || IdsOf(ws) * t.ids != {} {
      return None;
    }
    return Some(Stored(t, book, ws, balances));
  }

  /** One upsert of the totals, if the range of sequence numbers and every balance
      are in range. */
  method ClaimBalances(t: Tables, book: string, ws: seq<Draft>, agg: map<string, AcctAgg>)
    returns (r: Option<map<string, BalanceRow>>)
    requires AggOk(agg, ws) && TouchedBy(ws) <= t.accounts.Keys
    ensures r.Some? <==> Claims(t, book, ws)
    ensures r.Some? ==> r.value == Upsert(t, Totals(ws), LastSeqs(ws, Counter(t, book) + 1))
  {
    AggMaps(agg, ws, Counter(t, book) + 1);
    hide AggOk, TouchedBy, Upsert, Counter, TotalsIn, SeqsIn, Fits, Totals, LastSeqs;
    var first := Counter(t, book) + 1;
    if !InI64(first + |ws| - 1) || !Fits(t, TotalsIn(agg)) {
      return None;
    }
    return Some(Upsert(t, TotalsIn(agg), SeqsIn(agg, first)));
  }

  lemma {:induction false} ReplayBase(t: Tables, ws: seq<Draft>, first: nat, agg: map<string, AcctAgg>)
    requires AggOk(agg, ws) && TouchedBy(ws) <= t.accounts.Keys && Fits(t, Totals(ws))
    ensures var b := Upsert(t, Totals(ws), LastSeqs(ws, first));
      && TouchedBy(ws) <= b.Keys
      && forall k :: k in agg ==> k in b && InI64(b[k].balance - agg[k].total)
  {
    hide Upsert, Steps, TouchedBy, LastTouch, Raw;
    forall k | k in agg
      ensures k in Totals(ws) && agg[k].total == Totals(ws)[k]
    {
      EntryTotals(agg, ws, k);
    }
  }

  /** The whole write set in one open transaction; None drops it. */
  method WriteAll(t: Tables, book: string, ws: seq<Draft>, agg: map<string, AcctAgg>) returns (r: Option<Tables>)
    requires ws != [] && AggOk(agg, ws) && TouchedBy(ws) <= t.accounts.Keys
    ensures r == WriteSet(t, book, ws)
  {
    hide AggOk, TouchedBy, Upsert, Counter, Fits, Totals, LastSeqs, WriteRows;
    var balances := ClaimBalances(t, book, ws, agg);
    if balances.None? {
      return None;
    }
    ReplayBase(t, ws, Counter(t, book) + 1, agg);
    r := InsertRows(t, book, ws, agg, balances.value);
  }

  // ------------------------------------------------------------------
  // The store
  // ------------------------------------------------------------------

  class PgStore {
    var tables: Tables

    constructor (t: Tables)
      ensures tables == t
    {
      tables := t;
    }

    /** One draft in its savepoint. */
    method CommitDraft(tx: Transaction) returns (out: Outcome)
      modifies this
      ensures (tables, out) == CommitInSavepoint(old(tables), tx)
      ensures (tx.book, tx.key) !in old(tables).byKey ==> (out.Committed? <==> PgDrafts.Committable(old(tables), tx))
    {
      hide FoldPostings, Upsert, Fits, AnyLow, PgDrafts.Committable;
      if (tx.book, tx.key) !in tables.byKey {
        PgDrafts.CommitsExactly(tables, tx);
      }
      if IsReserved(tx.book) {
        return Rejected(BookReserved);
      }
      if (tx.book, tx.key) in tables.byKey {
        return Outcome.Committed(tables.byKey[(tx.book, tx.key)]);
      }
      var folded := FoldDraft(tables.accounts, tx);
      if folded.Invalid? {
        return Rejected(folded.err);
      }
      match WriteDraft(tables, tx, folded.deltas) {
        case Failed(e) => return Rejected(e);
        case Wrote(t) =>
          tables := t;
          return Outcome.Committed(t.byKey[(tx.book, tx.key)]);
      }
    }

    /** Drafts one after another, each failing alone. */
    method CommitPerDraft(txs: seq<Transaction>) returns (outs: seq<Outcome>)
      modifies this
      ensures (tables, outs) == PerDraft(old(tables), txs)
    {
      ghost var before := tables;
      outs := [];
      for i := 0 to |txs|
        invariant PerDraft(before, txs[..i]) == (tables, outs)
      {
        hide CommitInSavepoint;
        assert txs[..i + 1][..i] == txs[..i];
        var out := CommitDraft(txs[i]);
        outs := outs + [out];
      }
      assert txs[..|txs|] == txs;
    }

    /** Answers and stores everything, or answers nothing and changes nothing. */
    method TryCommitBatchFast(txs: seq<Transaction>) returns (r: Option<seq<Outcome>>)
      requires txs != []
      modifies this
      ensures match Fast(old(tables), txs)
        case None => r.None? && tables == old(tables)
        case Some(result) => r == Some(result.1) && tables == result.0
    {
      hide PlanOf, WriteSet, TouchedBy, AggOk, OutcomesOf;
      if !Eligible(txs) {
        return None;
      }
      var book := txs[0].book;
      var ok, ws, agg := BuildWriteSet(tables, book, txs);
      if !ok {
        return None;
      }
      PlanTouches(tables, book, txs);
      var written: Option<Tables> := Some(tables);
      if ws != [] {
        written := WriteAll(tables, book, ws, agg);
        if written.None? {
          return None;
        }
      }
      r := OutcomesOf(written.value, book, txs);
      if r.Some? {
        tables := written.value;
      }
    }

    /** `commit_batch_traced`. */
    method CommitBatch(txs: seq<Transaction>) returns (outs: seq<Outcome>)
      modifies this
      ensures (tables, outs) == PgBatch.CommitBatch(old(tables), txs)
    {
      hide Fast, PerDraft;
      if txs == [] {
        NothingToCommit(tables);
        return [];
      }
      var r := TryCommitBatchFast(txs);
      if r.Some? {
        return r.value;
      }
      outs := CommitPerDraft(txs);
    }
  }

  lemma {:induction false} NothingToCommit(t: Tables)
    ensures Fast(t, []).None? && PerDraft(t, []) == (t, [])
  {
  }
}
