/** The set-based commit against the per-draft loop: when they agree, when the fast
    path aborts, and the one case where they differ. */
module PgRefinement {
  import opened LedgerTypes
  import opened AccountKeys
  import opened PgTables
  import opened PgBatch
  import opened PgSerial

  // ------------------------------------------------------------------
  // As a set, in closed form
  // ------------------------------------------------------------------

  /** With every running balance in range, the wrapping replay is exact. */
  lemma {:induction false} PrefixLowIsExact(row: AccountRow, base: i64, steps: seq<i64>)
    requires PrefixesFit(base, steps)
    ensures PrefixLow(row, base, steps) <==> !PrefixesHigh(row, base, steps)
  {
    if steps != [] {
      PrefixLowIsExact(row, base, steps[..|steps| - 1]);
      WrapIsExact(base + IntSum(steps));
    }
  }

  /** Without a minimum nothing is low. */
  lemma {:induction false} NoMinimum(row: AccountRow, base: int, steps: seq<i64>)
    requires row.cfg.minBalance.None? && PrefixesFit(base, steps)
    ensures PrefixesHigh(row, base, steps)
  {
    if steps != [] {
      NoMinimum(row, base, steps[..|steps| - 1]);
    }
  }

  lemma {:induction false} UntouchedFine(t: Tables, ws: seq<Draft>, k: string)
    requires k !in TouchedBy(ws) && k in t.accounts
    ensures PrefixesHigh(t.accounts[k], Raw(t.balances, k), Steps(ws, k)) && PrefixesFit(Raw(t.balances, k), Steps(ws, k))
    ensures IntSum(Steps(ws, k)) == 0
  {
    StepsUntouched(ws, k);
  }

  /** The upsert of the totals is in range exactly when no total wrapped. */
  lemma {:induction false} TotalsFitOrEscape(t: Tables, ws: seq<Draft>)
    requires TouchedBy(ws) <= t.accounts.Keys && AllFit(t, ws)
    ensures Fits(t, Totals(ws)) <==> TotalsFit(t, ws)
    ensures TotalsFit(t, ws) ==> forall k :: k in TouchedBy(ws) ==> Totals(ws)[k] == IntSum(Steps(ws, k))
  {
    hide Steps, PrefixesFit, TouchedBy, IntSum, Raw, Wrap;
    forall k | k in t.accounts
      ensures k in TouchedBy(ws) ==> (InI64(Raw(t.balances, k) + Totals(ws)[k]) <==> InI64(IntSum(Steps(ws, k))))
      ensures k in TouchedBy(ws) && InI64(IntSum(Steps(ws, k))) ==> Totals(ws)[k] == IntSum(Steps(ws, k))
      ensures k !in TouchedBy(ws) ==> InI64(IntSum(Steps(ws, k)))
    {
      if k in TouchedBy(ws) {
        FinalFits(Raw(t.balances, k), Steps(ws, k));
        WrapEscapes(Raw(t.balances, k), IntSum(Steps(ws, k)));
        if InI64(IntSum(Steps(ws, k))) {
          WrapIsExact(IntSum(Steps(ws, k)));
        }
      } else {
        UntouchedFine(t, ws, k);
      }
    }
  }

  lemma {:induction false} SetRow(t: Tables, ws: seq<Draft>, first: nat, k: string)
    requires TouchedBy(ws) <= t.accounts.Keys && Fits(t, Totals(ws)) && k in TouchedBy(ws)
    requires PrefixesFit(Raw(t.balances, k), Steps(ws, k)) && Totals(ws)[k] == IntSum(Steps(ws, k))
    ensures Upsert(t, Totals(ws), LastSeqs(ws, first))[k] == FinalRow(t, ws, first, k)
  {
    hide Steps, PrefixesFit, TouchedBy, IntSum, Upsert, LastTouch, Fits, FinalBalances;
    FinalRaw(t, ws, first, k);
  }

  lemma {:induction false} OtherRow(t: Tables, ws: seq<Draft>, first: nat, k: string)
    requires TouchedBy(ws) <= t.accounts.Keys && k !in TouchedBy(ws) && k in t.balances
    ensures FinalRow(t, ws, first, k) == t.balances[k]
  {
  }

  lemma {:induction false} FitOne(t: Tables, ws: seq<Draft>, k: string)
    requires AllFit(t, ws) && k in t.accounts
    ensures PrefixesFit(Raw(t.balances, k), Steps(ws, k))
  {
  }

  lemma {:induction false} SetBalances(t: Tables, ws: seq<Draft>, first: nat)
    requires TouchedBy(ws) <= t.accounts.Keys && AllFit(t, ws) && TotalsFit(t, ws) && Fits(t, Totals(ws))
    ensures Upsert(t, Totals(ws), LastSeqs(ws, first)) == FinalBalances(t, ws, first)
  {
    TotalsFitOrEscape(t, ws);
    hide Steps, PrefixesFit, TouchedBy, IntSum, Upsert, FinalBalances, FinalRow, TotalsFit, LastTouch, AllFit, Fits,
      Raw, Wrap;
    var a, b := Upsert(t, Totals(ws), LastSeqs(ws, first)), FinalBalances(t, ws, first);
    forall k | k in a
      ensures a[k] == b[k]
    {
      if k in TouchedBy(ws) {
        FitOne(t, ws, k);
        SetRow(t, ws, first, k);
      } else {
        OtherRow(t, ws, first, k);
      }
    }
    SameMaps(a, b);
  }

  /** The set's prefix check refuses exactly what draft by draft would. */
  lemma {:induction false} SetLow(t: Tables, ws: seq<Draft>, first: nat)
    requires TouchedBy(ws) <= t.accounts.Keys && AllFit(t, ws) && TotalsFit(t, ws) && Fits(t, Totals(ws))
    ensures AnyPrefixLow(t, ws, Upsert(t, Totals(ws), LastSeqs(ws, first))) <==> !AllHigh(t, ws)
  {
    hide Steps, PrefixesFit, PrefixesHigh, PrefixLow, TouchedBy, IntSum, Upsert, TotalsFit, LastTouch, Raw, Wrap;
    var b := Upsert(t, Totals(ws), LastSeqs(ws, first));
    forall k | k in t.accounts
      ensures k in TouchedBy(ws) ==> b[k].balance - Totals(ws)[k] == Raw(t.balances, k)
      ensures k in TouchedBy(ws) ==>
        (PrefixLow(t.accounts[k], Raw(t.balances, k), Steps(ws, k)) <==>
         !PrefixesHigh(t.accounts[k], Raw(t.balances, k), Steps(ws, k)))
      ensures k !in TouchedBy(ws) || t.accounts[k].cfg.minBalance.None? ==>
        PrefixesHigh(t.accounts[k], Raw(t.balances, k), Steps(ws, k))
    {
      if k in TouchedBy(ws) {
        PrefixLowIsExact(t.accounts[k], Raw(t.balances, k), Steps(ws, k));
        if t.accounts[k].cfg.minBalance.None? {
          NoMinimum(t.accounts[k], Raw(t.balances, k), Steps(ws, k));
        }
      } else {
        UntouchedFine(t, ws, k);
      }
    }
  }

  /** With every running balance in range, writing as a set is writing draft by
      draft, unless some total does not fit and the set is refused. */
  lemma {:induction false} SetIsSerial(t: Tables, book: string, ws: seq<Draft>)
    requires ws != [] && TouchedBy(ws) <= t.accounts.Keys && OneBook(ws, book) && InI64(Counter(t, book)) && AllFit(t, ws)
    ensures WriteSet(t, book, ws) == if TotalsFit(t, ws) then Serial(t, ws) else None
  {
    hide Steps, PrefixesFit, PrefixesHigh, TouchedBy, Upsert, FinalBalances, AllFit, AllHigh, TotalsFit, Totals,
      LastSeqs, AnyPrefixLow, Fits, Serial, SerialState, Stored, IdsOf, DistinctIds;
    SerialForm(t, book, ws);
    TotalsFitOrEscape(t, ws);
    if TotalsFit(t, ws) {
      SetLow(t, ws, Counter(t, book) + 1);
      SetBalances(t, ws, Counter(t, book) + 1);
      StateOf(t, book, ws);
    }
  }

  // ------------------------------------------------------------------
  // The plan and the per-draft loop
  // ------------------------------------------------------------------

  predicate AllCommitted(outs: seq<Outcome>) {
    forall i :: 0 <= i < |outs| ==> outs[i].Committed?
  }

  lemma {:induction false} PlanBook(t: Tables, book: string, txs: seq<Transaction>)
    requires PlanOf(t, book, txs).Some? && forall i :: 0 <= i < |txs| ==> txs[i].book == book
    ensures OneBook(PlanOf(t, book, txs).value.writes, book)
  {
    if txs != [] {
      PlanBook(t, book, txs[..|txs| - 1]);
    }
  }

  lemma {:induction false} KeysForSeen(ws: seq<Draft>, book: string, first: nat, key: string)
    ensures (book, key) in KeysFor(ws, book, first) <==> exists i :: 0 <= i < |ws| && ws[i].tx.key == key
  {
    if ws != [] {
      KeysForSeen(ws[..|ws| - 1], book, first, key);
      var n := |ws| - 1;
      if (book, key) in KeysFor(ws, book, first) && ws[n].tx.key != key {
        var i :| 0 <= i < n && ws[..n][i].tx.key == key;
        assert ws[i].tx.key == key;
      }
    }
  }

  lemma {:induction false} PlanSeen(t: Tables, book: string, txs: seq<Transaction>, key: string)
    requires PlanOf(t, book, txs).Some?
    ensures var p := PlanOf(t, book, txs).value;
      key in p.seen <==> exists i :: 0 <= i < |p.writes| && p.writes[i].tx.key == key
  {
    hide FoldPostings;
    if txs != [] {
      var n := |txs| - 1;
      PlanSeen(t, book, txs[..n], key);
      var p0, p := PlanOf(t, book, txs[..n]).value, PlanOf(t, book, txs).value;
      if p.writes != p0.writes {
        assert p.writes[..|p0.writes|] == p0.writes;
        if key in p0.seen {
          var i :| 0 <= i < |p0.writes| && p0.writes[i].tx.key == key;
          assert p.writes[i].tx.key == key;
        }
        assert p.writes[|p0.writes|].tx.key == txs[n].key;
      }
    }
  }

  /** The keys known after the write set are the committed and the planned. */
  lemma {:induction false} StateKnows(t: Tables, book: string, txs: seq<Transaction>, key: string)
    requires PlanOf(t, book, txs).Some? && TouchedBy(PlanOf(t, book, txs).value.writes) <= t.accounts.Keys
    ensures var p := PlanOf(t, book, txs).value;
      (book, key) in SerialState(t, book, p.writes).byKey <==> (book, key) in t.byKey || key in p.seen
  {
    hide FoldPostings, FinalBalances, TouchedBy;
    PlanSeen(t, book, txs, key);
    KeysForSeen(PlanOf(t, book, txs).value.writes, book, Counter(t, book) + 1, key);
    hide PlanOf, KeysFor, Counter;
  }

  /** How far the per-draft loop agrees with the plan. */
  ghost predicate InStep(t: Tables, book: string, txs: seq<Transaction>) {
    && (AllCommitted(PerDraft(t, txs).1) ==> PlanOf(t, book, txs).Some?)
    && (PlanOf(t, book, txs).Some? ==>
         var ws := PlanOf(t, book, txs).value.writes;
         && TouchedBy(ws) <= t.accounts.Keys
         && (AllCommitted(PerDraft(t, txs).1) <==> Serial(t, ws).Some?)
         && (Serial(t, ws).Some? ==> PerDraft(t, txs).0 == Serial(t, ws).value))
  }

  lemma {:induction false} PerDraftNext(t: Tables, txs: seq<Transaction>)
    requires txs != []
    ensures var n := |txs| - 1;
      var (t1, outs) := PerDraft(t, txs[..n]);
      var (t2, out) := CommitInSavepoint(t1, txs[n]);
      && PerDraft(t, txs) == (t2, outs + [out])
      && (AllCommitted(PerDraft(t, txs).1) <==> AllCommitted(outs) && out.Committed?)
  {
    hide CommitInSavepoint;
    var n := |txs| - 1;
    var (t1, outs) := PerDraft(t, txs[..n]);
    var (t2, out) := CommitInSavepoint(t1, txs[n]);
    assert (outs + [out])[n] == out && forall i :: 0 <= i < n ==> (outs + [out])[i] == outs[i];
  }

  lemma {:induction false} SerialNext(t: Tables, ws: seq<Draft>, w: Draft)
    requires TouchedBy(ws) <= t.accounts.Keys && w.deltas.Keys <= t.accounts.Keys
    ensures TouchedBy(ws + [w]) <= t.accounts.Keys
    ensures Serial(t, ws).None? ==> Serial(t, ws + [w]).None?
    ensures Serial(t, ws).Some? ==>
      Serial(t, ws + [w]) ==
        match WriteDraft(Serial(t, ws).value, w.tx, w.deltas) case Failed(_) => None case Wrote(t2) => Some(t2)
  {
    hide WriteDraft;
    assert (ws + [w])[..|ws|] == ws;
  }

  /** One draft of the loop against one draft of the plan. */
  lemma {:induction false} InStepNext(t: Tables, book: string, txs: seq<Transaction>)
    requires txs != [] && !IsReserved(book) && InI64(Counter(t, book)) && (forall i :: 0 <= i < |txs| ==> txs[i].book == book)
    requires InStep(t, book, txs[..|txs| - 1])
    ensures InStep(t, book, txs)
  {
    hide FoldPostings, WriteDraft, TouchedBy, AllCommitted, Serial, PerDraft;
    var n := |txs| - 1;
    var front, tx := txs[..n], txs[n];
    PerDraftNext(t, txs);
    if PlanOf(t, book, front).Some? {
      var p := PlanOf(t, book, front).value;
      PlanBook(t, book, front);
      SerialForm(t, book, p.writes);
      StateKnows(t, book, front, tx.key);
      hide SerialState, SerialOk;
      match FoldPostings(t.accounts, tx.postings) {
        case Deltas(d) => SerialNext(t, p.writes, Draft(n, tx, d));
        case Invalid(_) =>
      }
    }
  }

  lemma {:induction false} LoopInStep(t: Tables, book: string, txs: seq<Transaction>)
    requires !IsReserved(book) && InI64(Counter(t, book)) && forall i :: 0 <= i < |txs| ==> txs[i].book == book
    ensures InStep(t, book, txs)
  {
    if txs != [] {
      LoopInStep(t, book, txs[..|txs| - 1]);
      InStepNext(t, book, txs);
    }
  }

  /** Every Ok outcome of the loop is what the tables hold for its key at the
      end. */
  lemma {:induction false} OutcomesAreKeys(t: Tables, book: string, txs: seq<Transaction>)
    requires (forall i :: 0 <= i < |txs| ==> txs[i].book == book) && AllCommitted(PerDraft(t, txs).1)
    ensures OutcomesOf(PerDraft(t, txs).0, book, txs) == Some(PerDraft(t, txs).1)
  {
    var (t', outs) := PerDraft(t, txs);
    forall i | 0 <= i < |txs|
      ensures (book, txs[i].key) in t'.byKey && outs[i] == Outcome.Committed(t'.byKey[(book, txs[i].key)])
    {
      OutcomeIsKey(t, book, txs, i);
    }
    hide PerDraft;
    assert OutcomesOf(t', book, txs).value == outs;
  }

  lemma {:induction false} OutcomeIsKey(t: Tables, book: string, txs: seq<Transaction>, i: nat)
    requires i < |txs| && (forall j :: 0 <= j < |txs| ==> txs[j].book == book) && AllCommitted(PerDraft(t, txs).1)
    ensures var (t', outs) := PerDraft(t, txs);
      (book, txs[i].key) in t'.byKey && outs[i] == Outcome.Committed(t'.byKey[(book, txs[i].key)])
  {
    var n := |txs| - 1;
    PerDraftNext(t, txs);
    DraftKeepsAccounts(PerDraft(t, txs[..n]).0, txs[n]);
    if i < n {
      OutcomeIsKey(t, book, txs[..n], i);
    } else {
      hide FoldPostings, Upsert, Fits, AnyLow, PerDraft;
    }
  }

  // ------------------------------------------------------------------
  // Main results
  // ------------------------------------------------------------------

  /** The drafts the batch would write. */
  function WriteDrafts(t: Tables, txs: seq<Transaction>): seq<Draft>
    requires txs != [] && PlanOf(t, txs[0].book, txs).Some?
  {
    PlanOf(t, txs[0].book, txs).value.writes
  }

  lemma {:induction false} FastForm(t: Tables, txs: seq<Transaction>, book: string)
    requires Eligible(txs) && book == txs[0].book && PlanOf(t, book, txs).Some?
    requires TouchedBy(WriteDrafts(t, txs)) <= t.accounts.Keys
    ensures var ws := WriteDrafts(t, txs);
      var r := if ws == [] then Some(t) else WriteSet(t, book, ws);
      Fast(t, txs) == match r
        case None => None
        case Some(t') => match OutcomesOf(t', book, txs) case None => None case Some(outs) => Some((t', outs))
  {
    hide PlanOf, WriteSet, OutcomesOf, TouchedBy, Eligible;
  }

  lemma {:induction false} NothingToWrite(t: Tables)
    ensures TouchedBy([]) == {} && Serial(t, []) == Some(t) && AllFit(t, []) && TotalsFit(t, [])
  {
    assert forall k :: Steps([], k) == [];
  }

  /** With every running balance in range the fast path gives what the loop gives,
      when every draft commits and no total wraps, and otherwise aborts. */
  lemma {:induction false} FastIsPerDraft(t: Tables, txs: seq<Transaction>)
    requires Eligible(txs) && InI64(Counter(t, txs[0].book)) && PlanOf(t, txs[0].book, txs).Some?
    requires AllFit(t, WriteDrafts(t, txs))
    ensures Fast(t, txs) ==
      if AllCommitted(PerDraft(t, txs).1) && TotalsFit(t, WriteDrafts(t, txs)) then Some(PerDraft(t, txs)) else None
  {
    var book, ws := txs[0].book, WriteDrafts(t, txs);
    LoopInStep(t, book, txs);
    PlanBook(t, book, txs);
    hide PlanOf, PerDraft, Fast, WriteSet, Serial, TouchedBy, AllFit, TotalsFit, OutcomesOf, AllCommitted;
    FastForm(t, txs, book);
    if ws == [] {
      NothingToWrite(t);
    } else {
      SetIsSerial(t, book, ws);
    }
    if AllCommitted(PerDraft(t, txs).1) {
      OutcomesAreKeys(t, book, txs);
    }
  }

  lemma {:induction false} FastHasPlan(t: Tables, txs: seq<Transaction>)
    requires Fast(t, txs).Some?
    ensures Eligible(txs) && PlanOf(t, txs[0].book, txs).Some? && AllCommitted(Fast(t, txs).value.1)
  {
    hide PlanOf, WriteSet, Eligible;
  }

  /** A running balance out of range makes some draft of the loop fail. */
  lemma {:induction false} MisfitRejected(t: Tables, txs: seq<Transaction>)
    requires Eligible(txs) && InI64(Counter(t, txs[0].book)) && PlanOf(t, txs[0].book, txs).Some?
    requires !AllFit(t, WriteDrafts(t, txs))
    ensures !AllCommitted(PerDraft(t, txs).1)
  {
    var book := txs[0].book;
    LoopInStep(t, book, txs);
    PlanBook(t, book, txs);
    hide PlanOf, PerDraft, Serial, TouchedBy, AllFit, AllCommitted, AllHigh;
    SerialForm(t, book, WriteDrafts(t, txs));
  }

  /** When the fast path answers, its results and tables are those of the
      per-draft loop if and only if every account's running balance, draft by
      draft, fits in 64 bits. */
  lemma FastRefinesPerDraft(t: Tables, txs: seq<Transaction>)
    requires Fast(t, txs).Some? && InI64(Counter(t, txs[0].book))
    ensures Eligible(txs) && PlanOf(t, txs[0].book, txs).Some?
    ensures Fast(t, txs).value == PerDraft(t, txs) <==> AllFit(t, WriteDrafts(t, txs))
  {
    FastHasPlan(t, txs);
    hide PlanOf, PerDraft, Fast, AllFit, TotalsFit, AllCommitted;
    if AllFit(t, WriteDrafts(t, txs)) {
      FastIsPerDraft(t, txs);
    } else {
      MisfitRejected(t, txs);
    }
  }

  /** When every draft would commit one by one, neither validation nor a minimum
      balance aborts the fast path: only an account total that does not fit in 64
      bits does. */
  lemma CommittableIsFast(t: Tables, txs: seq<Transaction>)
    requires Eligible(txs) && InI64(Counter(t, txs[0].book)) && AllCommitted(PerDraft(t, txs).1)
    ensures PlanOf(t, txs[0].book, txs).Some?
    ensures Fast(t, txs).Some? <==> TotalsFit(t, WriteDrafts(t, txs))
    ensures Fast(t, txs).Some? ==> Fast(t, txs).value == PerDraft(t, txs)
  {
    LoopInStep(t, txs[0].book, txs);
    hide PlanOf, PerDraft, Fast, AllFit, TotalsFit, AllCommitted, Serial, TouchedBy;
    if !AllFit(t, WriteDrafts(t, txs)) {
      MisfitRejected(t, txs);
    }
    FastIsPerDraft(t, txs);
  }

  /** An aborted attempt is unobservable, so the batch as committed is the
      per-draft loop, but for the one case where the fast path answers over a
      running balance that does not fit. */
  lemma CommitBatchRefines(t: Tables, txs: seq<Transaction>)
    requires txs != [] ==> InI64(Counter(t, txs[0].book))
    ensures CommitBatch(t, txs) == PerDraft(t, txs) <==>
      (Fast(t, txs).Some? ==> Eligible(txs) && PlanOf(t, txs[0].book, txs).Some? && AllFit(t, WriteDrafts(t, txs)))
  {
    if Fast(t, txs).Some? {
      FastHasPlan(t, txs);
      hide PlanOf, PerDraft, Fast, AllFit;
      FastRefinesPerDraft(t, txs);
    }
  }

  // ------------------------------------------------------------------
  // The case exists
  // ------------------------------------------------------------------

  lemma {:induction false} OnePosting(accounts: map<string, AccountRow>, p: Posting)
    requires Key(p.account) in accounts && accounts[Key(p.account)].asset == p.asset
    ensures FoldPostings(accounts, [p]) == Folded.Deltas(map[Key(p.account) := PostingDelta(p)])
  {
    hide Key;
    assert [p][..0] == [];
    assert FoldPostings(accounts, []) == Folded.Deltas(map[]);
  }

  lemma {:induction false} PlanNext(t: Tables, book: string, front: seq<Transaction>, tx: Transaction, p: Plan,
                                    d: Deltas)
    requires PlanOf(t, book, front) == Some(p) && (book, tx.key) !in t.byKey && tx.key !in p.seen
    requires FoldPostings(t.accounts, tx.postings) == Folded.Deltas(d)
    ensures PlanOf(t, book, front + [tx]) == Some(Plan(p.writes + [Draft(|front|, tx, d)], p.seen + {tx.key}))
  {
    hide FoldPostings;
    assert (front + [tx])[..|front|] == front;
  }

  lemma {:induction false} TwoDrafts(t: Tables, book: string, up: Transaction, down: Transaction, a: Deltas, b: Deltas)
    requires (book, up.key) !in t.byKey && (book, down.key) !in t.byKey && up.key != down.key
    requires FoldPostings(t.accounts, up.postings) == Folded.Deltas(a)
    requires FoldPostings(t.accounts, down.postings) == Folded.Deltas(b)
    ensures PlanOf(t, book, [up, down]).Some?
    ensures PlanOf(t, book, [up, down]).value.writes == [Draft(0, up, a), Draft(1, down, b)]
  {
    assert PlanOf(t, book, []) == Some(Plan([], {}));
    hide FoldPostings, PlanOf;
    PlanNext(t, book, [], up, Plan([], {}), a);
    assert [] + [up] == [up] && [up] + [down] == [up, down];
    PlanNext(t, book, [up], down, Plan([] + [Draft(0, up, a)], {} + {up.key}), b);
  }

  /** One account gaining 1 in the first draft and losing it in the second. */
  lemma {:induction false} UpAndDownSteps(w0: Draft, w1: Draft, k: string)
    requires w0.deltas == map[k := 1] && w1.deltas == map[k := -1]
    ensures TouchedBy([w0, w1]) == {k} && Steps([w0, w1], k) == [1, -1]
  {
    assert Steps([], k) == [] && TouchedBy([]) == {};
    hide Steps, TouchedBy;
    assert [] + [w0] == [w0] && [w0] + [w1] == [w0, w1];
    StepsNext([], w0, k);
    StepsNext([w0], w1, k);
    assert [] + [1] == [1] && [1] + [-1] == [1, -1];
    assert {} + {k} == {k} && {k} + {k} == {k};
  }

  lemma {:induction false} UpAndDownSum()
    ensures IntSum([1, -1]) == 0 && IntSum([1]) == 1
  {
    assert [1, -1][..1] == [1] && [1][..0] == [] && IntSum([]) == 0;
  }

  lemma {:induction false} UpAndDownTotals(ws: seq<Draft>, k: string)
    requires TouchedBy(ws) == {k} && Steps(ws, k) == [1, -1]
    ensures Totals(ws) == map[k := 0]
  {
    hide Steps, TouchedBy;
    UpAndDownSum();
    WrapIsExact(0);
  }

  lemma {:induction false} TwoIds(w0: Draft, w1: Draft)
    requires w0.tx.id != w1.tx.id
    ensures DistinctIds([w0, w1]) && IdsOf([w0, w1]) == {w0.tx.id, w1.tx.id}
  {
    assert [w0, w1][..1] == [w0] && [w0][..0] == [];
    assert IdsOf([]) == {} && IdsOf([w0]) == {w0.tx.id} && DistinctIds([w0]);
  }

  lemma {:induction false} UpDoesNotFit(t: Tables, ws: seq<Draft>, k: string)
    requires k in t.accounts && Raw(t.balances, k) == I64_MAX && Steps(ws, k) == [1, -1]
    ensures !AllFit(t, ws)
  {
    hide Steps, IntSum;
    UpAndDownSum();
    assert [1, -1][..1] == [1];
    assert !PrefixesFit(I64_MAX, [1]);
  }

  lemma {:induction false} UpAndDownStored(t: Tables, ws: seq<Draft>, k: string)
    requires ws != [] && TouchedBy(ws) == {k} && Totals(ws) == map[k := 0]
    requires DistinctIds(ws) && t.ids == {} && t.counters == map[]
    requires |ws| == 2 && k in t.accounts && t.accounts[k].cfg.minBalance.None?
    ensures TouchedBy(ws) <= t.accounts.Keys
    ensures WriteSet(t, "b", ws).Some? && WriteSet(t, "b", ws).value.byKey == t.byKey + KeysFor(ws, "b", 1)
  {
    hide TouchedBy, Totals, IdsOf, DistinctIds, KeysFor, RowsFor;
  }

  /** An account without a minimum stands at the 64-bit maximum; a draft adds 1
      before another takes 1 away. The fast path commits both; draft by draft the
      first is refused. */
  lemma FastPathMissesOverflow(t: Tables, up: Transaction, down: Transaction)
    requires t.counters == map[] && t.byKey == map[] && t.ids == {}
    requires up.book == down.book == "b" && up.key == "1" && down.key == "2" && up.id == 1 && down.id == 2
    requires var id := AccountId("b", "cash");
      && up.postings == [Posting(id, "USD", 1, Debit)] && down.postings == [Posting(id, "USD", 1, Credit)]
      && t.accounts == map[Key(id) := AccountRow("USD", AccountCfg(None, None))]
      && t.balances == map[Key(id) := BalanceRow("USD", I64_MAX, 7)]
    ensures Fast(t, [up, down]).Some? && AllCommitted(Fast(t, [up, down]).value.1)
    ensures !AllCommitted(PerDraft(t, [up, down]).1)
    ensures CommitBatch(t, [up, down]) != PerDraft(t, [up, down])
  {
    var k := Key(AccountId("b", "cash"));
    hide Key, FoldPostings, PlanOf, PerDraft, AllCommitted, Fast;
    OnePosting(t.accounts, up.postings[0]);
    OnePosting(t.accounts, down.postings[0]);
    TwoDrafts(t, "b", up, down, map[k := 1], map[k := -1]);
    FastMisses(t, up, down, k);
  }

  lemma {:induction false} FastMisses(t: Tables, up: Transaction, down: Transaction, k: string)
    requires t.counters == map[] && t.ids == {} && up.book == down.book == "b" && up.id != down.id
    requires k in t.accounts && t.accounts[k].cfg.minBalance.None? && Raw(t.balances, k) == I64_MAX
    requires PlanOf(t, "b", [up, down]).Some?
    requires PlanOf(t, "b", [up, down]).value.writes == [Draft(0, up, map[k := 1]), Draft(1, down, map[k := -1])]
    ensures Fast(t, [up, down]).Some? && AllCommitted(Fast(t, [up, down]).value.1)
    ensures !AllCommitted(PerDraft(t, [up, down]).1)
  {
    var ws := [Draft(0, up, map[k := 1]), Draft(1, down, map[k := -1])];
    hide PlanOf, TouchedBy, Totals, Steps, PerDraft, AllFit, DistinctIds, IdsOf, AllCommitted, Fast, Raw;
    UpAndDownSteps(ws[0], ws[1], k);
    UpAndDownTotals(ws, k);
    TwoIds(ws[0], ws[1]);
    LoopRejects(t, up, down, ws, k);
    UpAndDownStored(t, ws, k);
    StoredIsFast(t, up, down, ws);
  }

  lemma {:induction false} LoopRejects(t: Tables, up: Transaction, down: Transaction, ws: seq<Draft>, k: string)
    requires t.counters == map[] && up.book == down.book == "b"
    requires k in t.accounts && Raw(t.balances, k) == I64_MAX && Steps(ws, k) == [1, -1]
    requires PlanOf(t, "b", [up, down]).Some? && PlanOf(t, "b", [up, down]).value.writes == ws
    ensures !AllCommitted(PerDraft(t, [up, down]).1)
  {
    hide PlanOf, Steps, PerDraft, AllFit, AllCommitted, Raw;
    UpDoesNotFit(t, ws, k);
    MisfitRejected(t, [up, down]);
  }

  lemma {:induction false} StoredIsFast(t: Tables, up: Transaction, down: Transaction, ws: seq<Draft>)
    requires up.book == down.book == "b" && |ws| == 2 && ws[0].tx == up && ws[1].tx == down
    requires PlanOf(t, "b", [up, down]).Some? && PlanOf(t, "b", [up, down]).value.writes == ws
    requires TouchedBy(ws) <= t.accounts.Keys
    requires WriteSet(t, "b", ws).Some? && WriteSet(t, "b", ws).value.byKey == t.byKey + KeysFor(ws, "b", 1)
    ensures Fast(t, [up, down]).Some? && AllCommitted(Fast(t, [up, down]).value.1)
  {
    hide PlanOf, TouchedBy, WriteSet, KeysFor, AllCommitted, Fast, OutcomesOf;
    FastForm(t, [up, down], "b");
    KeysStored(t, up, down, ws);
    FastHasPlan(t, [up, down]);
  }

  lemma {:induction false} KeysStored(t: Tables, up: Transaction, down: Transaction, ws: seq<Draft>)
    requires up.book == down.book == "b" && |ws| == 2 && ws[0].tx == up && ws[1].tx == down && ws != []
    requires TouchedBy(ws) <= t.accounts.Keys
    requires WriteSet(t, "b", ws).Some? && WriteSet(t, "b", ws).value.byKey == t.byKey + KeysFor(ws, "b", 1)
    ensures OutcomesOf(WriteSet(t, "b", ws).value, "b", [up, down]).Some?
  {
    hide WriteSet, KeysFor, TouchedBy;
    KeysForSeen(ws, "b", 1, up.key);
    KeysForSeen(ws, "b", 1, down.key);
    assert ws[0].tx.key == up.key && ws[1].tx.key == down.key;
  }
}
