/**
 Writing the set draft by draft, in closed form: when it goes through and what it
 leaves. It goes through exactly when the running balance of every account fits
 after each draft and stays above the minimum, and all transaction ids are new; it
 leaves every account the sum of its deltas and the number of its last draft, the
 counter moved on by the number of drafts, and one row a draft, numbered in order.
 The proof takes one draft more at a time.
 */
module PgSerial {
  import opened LedgerTypes
  import opened AccountKeys
  import opened PgTables
  import opened PgBatch

  // ------------------------------------------------------------------
  // One draft more
  // ------------------------------------------------------------------

  lemma {:induction false} StepsUntouched(ws: seq<Draft>, k: string)
    ensures Steps(ws, k) == [] <==> k !in TouchedBy(ws)
  {
    if ws != [] {
      StepsUntouched(ws[..|ws| - 1], k);
    }
  }

  lemma {:induction false} StepsNext(front: seq<Draft>, w: Draft, k: string)
    ensures var ws := front + [w];
      && Steps(ws, k) == Steps(front, k) + (if k in w.deltas then [w.deltas[k]] else [])
      && TouchedBy(ws) == TouchedBy(front) + w.deltas.Keys
      && IntSum(Steps(ws, k)) == IntSum(Steps(front, k)) + (if k in w.deltas then w.deltas[k] else 0)
  {
    var ws := front + [w];
    assert ws[..|ws| - 1] == front;
    var steps := Steps(front, k);
    if k in w.deltas {
      assert (steps + [w.deltas[k]])[..|steps|] == steps;
    } else {
      assert steps + [] == steps;
    }
  }

  lemma {:induction false} FitNext(row: AccountRow, base: int, front: seq<Draft>, w: Draft, k: string)
    ensures var ws := front + [w];
      var after := base + IntSum(Steps(ws, k));
      && (PrefixesFit(base, Steps(ws, k)) <==> PrefixesFit(base, Steps(front, k)) && (k in w.deltas ==> InI64(after)))
      && (PrefixesHigh(row, base, Steps(ws, k)) <==>
           PrefixesHigh(row, base, Steps(front, k)) && (k in w.deltas ==> InI64(after) && !Low(row, after)))
  {
    StepsNext(front, w, k);
    var steps := Steps(front, k);
    if k in w.deltas {
      assert (steps + [w.deltas[k]])[..|steps|] == steps;
    } else {
      assert steps + [] == steps;
    }
  }

  lemma {:induction false} FinalFits(base: i64, steps: seq<i64>)
    requires PrefixesFit(base, steps)
    ensures InI64(base + IntSum(steps))
  {
  }

  lemma {:induction false} FinalRaw(t: Tables, ws: seq<Draft>, first: nat, k: string)
    requires TouchedBy(ws) <= t.accounts.Keys && PrefixesFit(Raw(t.balances, k), Steps(ws, k))
    ensures var b := FinalBalances(t, ws, first);
      && Raw(b, k) == Raw(t.balances, k) + IntSum(Steps(ws, k))
      && (k in b <==> k in t.balances || k in TouchedBy(ws))
      && (k in TouchedBy(ws) ==> b[k] == BalanceRow(FinalAsset(t, k), Raw(b, k), first + LastTouch(ws, k)))
      && (k in t.balances && k !in TouchedBy(ws) ==> b[k] == t.balances[k])
  {
    assert IntSum([]) == 0;
    hide Steps, PrefixesFit, TouchedBy, IntSum, LastTouch, FinalAsset, FinalBalances;
    StepsUntouched(ws, k);
    FinalFits(Raw(t.balances, k), Steps(ws, k));
  }

  /** The raw balance after the front of the write set. */
  lemma {:induction false} RawAfter(t: Tables, book: string, front: seq<Draft>, k: string)
    requires TouchedBy(front) <= t.accounts.Keys && PrefixesFit(Raw(t.balances, k), Steps(front, k))
    ensures SerialState(t, book, front).accounts == t.accounts
    ensures var b := SerialState(t, book, front).balances;
      && Raw(b, k) == Raw(t.balances, k) + IntSum(Steps(front, k))
      && (k in b <==> k in t.balances || k in TouchedBy(front))
      && (k in TouchedBy(front) ==>
           k in t.accounts && b[k] == BalanceRow(FinalAsset(t, k), Raw(b, k), Counter(t, book) + 1 + LastTouch(front, k)))
      && (k in t.balances && k !in TouchedBy(front) ==> b[k] == t.balances[k])
  {
    assert IntSum([]) == 0 && TouchedBy([]) == {} && Steps([], k) == [];
    hide FinalBalances, Raw, Steps, PrefixesFit, IntSum, LastTouch, FinalAsset, TouchedBy;
    FinalRaw(t, front, Counter(t, book) + 1, k);
  }

  /** The last draft's own conditions. */
  ghost predicate DraftFits(t: Tables, front: seq<Draft>, w: Draft) {
    forall k :: k in w.deltas ==> InI64(Raw(t.balances, k) + IntSum(Steps(front, k)) + w.deltas[k])
  }

  ghost predicate DraftHigh(t: Tables, front: seq<Draft>, w: Draft)
    requires w.deltas.Keys <= t.accounts.Keys
  {
    forall k :: k in w.deltas && InI64(Raw(t.balances, k) + IntSum(Steps(front, k)) + w.deltas[k]) ==>
      !Low(t.accounts[k], Raw(t.balances, k) + IntSum(Steps(front, k)) + w.deltas[k])
  }

  lemma {:induction false} AllNext(t: Tables, front: seq<Draft>, w: Draft)
    requires w.deltas.Keys <= t.accounts.Keys
    ensures AllFit(t, front + [w]) <==> AllFit(t, front) && DraftFits(t, front, w)
    ensures AllFit(t, front + [w]) && AllHigh(t, front + [w])
       <==> AllFit(t, front) && AllHigh(t, front) && DraftFits(t, front, w) && DraftHigh(t, front, w)
  {
    hide Steps, PrefixesFit, PrefixesHigh, Low, Raw;
    forall k | k in t.accounts
      ensures var base, before := Raw(t.balances, k), Raw(t.balances, k) + IntSum(Steps(front, k));
        && (PrefixesFit(base, Steps(front + [w], k)) <==>
             PrefixesFit(base, Steps(front, k)) && (k in w.deltas ==> InI64(before + w.deltas[k])))
        && (PrefixesHigh(t.accounts[k], base, Steps(front + [w], k)) <==>
             PrefixesHigh(t.accounts[k], base, Steps(front, k))
             && (k in w.deltas ==> InI64(before + w.deltas[k]) && !Low(t.accounts[k], before + w.deltas[k])))
    {
      FitNext(t.accounts[k], Raw(t.balances, k), front, w, k);
      StepsNext(front, w, k);
    }
  }

  // ------------------------------------------------------------------
  // Draft by draft, in closed form
  // ------------------------------------------------------------------

  /** The row of an account after one draft more, from its row before. */
  lemma {:induction false} RowNext(t: Tables, book: string, front: seq<Draft>, w: Draft, k: string)
    requires TouchedBy(front) <= t.accounts.Keys && w.deltas.Keys <= t.accounts.Keys && k in t.accounts
    requires PrefixesFit(Raw(t.balances, k), Steps(front, k)) && PrefixesFit(Raw(t.balances, k), Steps(front + [w], k))
    ensures TouchedBy(front + [w]) <= t.accounts.Keys
    ensures var b, first := SerialState(t, book, front).balances, Counter(t, book) + 1;
      var row := FinalRow(t, front + [w], first, k);
      && (k in w.deltas ==> InI64(Raw(b, k) + w.deltas[k])
                            && row == BalanceRow(
                                  if k in b then b[k].asset else t.accounts[k].asset, Raw(b, k) + w.deltas[k], first + |front|))
      && (k !in w.deltas && k in b ==> row == b[k])
  {
    StepsNext(front, w, k);
    hide Steps, PrefixesFit, TouchedBy, IntSum, LastTouch, FinalBalances, SerialState, Counter;
    RawAfter(t, book, front, k);
    FinalRaw(t, front + [w], Counter(t, book) + 1, k);
    if k in TouchedBy(front + [w]) {
      LastTouchNext(front, w, k);
    }
    hide Raw;
  }

  lemma {:induction false} UpsertIn(t: Tables, book: string, front: seq<Draft>, w: Draft, k: string)
    requires TouchedBy(front) <= t.accounts.Keys && w.deltas.Keys <= t.accounts.Keys && k in w.deltas
    requires PrefixesFit(Raw(t.balances, k), Steps(front, k)) && PrefixesFit(Raw(t.balances, k), Steps(front + [w], k))
    requires Fits(SerialState(t, book, front), w.deltas)
    ensures SerialState(t, book, front).accounts == t.accounts && TouchedBy(front + [w]) <= t.accounts.Keys
    ensures var t1, first := SerialState(t, book, front), Counter(t, book) + 1;
      Upsert(t1, w.deltas, SameSeq(w.deltas, first + |front|))[k] == FinalRow(t, front + [w], first, k)
  {
    hide Steps, PrefixesFit, TouchedBy, Upsert, SerialState, FinalRow, Counter;
    StateKeys(t, book, front);
    RowNext(t, book, front, w, k);
  }

  lemma {:induction false} UpsertOut(t: Tables, book: string, front: seq<Draft>, w: Draft, k: string)
    requires TouchedBy(front) <= t.accounts.Keys && w.deltas.Keys <= t.accounts.Keys && k !in w.deltas
    requires k in t.accounts ==>
      PrefixesFit(Raw(t.balances, k), Steps(front, k)) && PrefixesFit(Raw(t.balances, k), Steps(front + [w], k))
    requires k in SerialState(t, book, front).balances
    ensures TouchedBy(front + [w]) <= t.accounts.Keys
    ensures SerialState(t, book, front).balances[k] == FinalRow(t, front + [w], Counter(t, book) + 1, k)
  {
    StepsNext(front, w, k);
    hide Steps, PrefixesFit, TouchedBy, SerialState, FinalRow, Counter;
    if k in t.accounts {
      RowNext(t, book, front, w, k);
    } else {
      StateElsewhere(t, book, front, k);
      RowElsewhere(t, front + [w], Counter(t, book) + 1, k);
    }
  }

  lemma {:induction false} SameMaps(a: map<string, BalanceRow>, b: map<string, BalanceRow>)
    requires a.Keys == b.Keys && forall k :: k in a ==> a[k] == b[k]
    ensures a == b
  {
  }

  lemma {:induction false} FitBoth(t: Tables, front: seq<Draft>, w: Draft, k: string)
    requires AllFit(t, front + [w]) && AllFit(t, front) && k in t.accounts
    ensures PrefixesFit(Raw(t.balances, k), Steps(front, k)) && PrefixesFit(Raw(t.balances, k), Steps(front + [w], k))
  {
  }

  /** The upsert of one draft more. */
  lemma {:induction false} UpsertNext(t: Tables, book: string, front: seq<Draft>, w: Draft)
    requires TouchedBy(front) <= t.accounts.Keys && w.deltas.Keys <= t.accounts.Keys
    requires AllFit(t, front + [w]) && AllFit(t, front)
    requires Fits(SerialState(t, book, front), w.deltas)
    ensures SerialState(t, book, front).accounts == t.accounts && TouchedBy(front + [w]) <= t.accounts.Keys
    ensures var t1, first := SerialState(t, book, front), Counter(t, book) + 1;
      Upsert(t1, w.deltas, SameSeq(w.deltas, first + |front|)) == FinalBalances(t, front + [w], first)
  {
    hide AllFit, Steps, PrefixesFit, TouchedBy, Upsert, FinalBalances, SerialState, FinalRow, Counter, Fits;
    StateKeys(t, book, front);
    StepsNext(front, w, "");
    var t1, first := SerialState(t, book, front), Counter(t, book) + 1;
    var a, b := Upsert(t1, w.deltas, SameSeq(w.deltas, first + |front|)), FinalBalances(t, front + [w], first);
    forall k | k in a
      ensures a[k] == b[k]
    {
      if k in t.accounts {
        FitBoth(t, front, w, k);
      }
      if k in w.deltas {
        UpsertIn(t, book, front, w, k);
      } else {
        UpsertOut(t, book, front, w, k);
      }
    }
    SameMaps(a, b);
  }

  lemma {:induction false} StateKeys(t: Tables, book: string, ws: seq<Draft>)
    requires TouchedBy(ws) <= t.accounts.Keys
    ensures SerialState(t, book, ws).balances.Keys == t.balances.Keys + TouchedBy(ws)
    ensures SerialState(t, book, ws).accounts == t.accounts
  {
    hide FinalBalances;
  }

  lemma {:induction false} RowElsewhere(t: Tables, ws: seq<Draft>, first: nat, k: string)
    requires TouchedBy(ws) <= t.accounts.Keys && k !in t.accounts && k in t.balances
    ensures FinalRow(t, ws, first, k) == t.balances[k]
  {
  }

  lemma {:induction false} StateElsewhere(t: Tables, book: string, ws: seq<Draft>, k: string)
    requires TouchedBy(ws) <= t.accounts.Keys && k !in t.accounts
    ensures var b := SerialState(t, book, ws).balances; (k in b <==> k in t.balances) && (k in b ==> b[k] == t.balances[k])
    ensures SerialState(t, book, ws).accounts == t.accounts
  {
  }

  lemma {:induction false} LastTouchNext(front: seq<Draft>, w: Draft, k: string)
    requires k in TouchedBy(front + [w])
    ensures LastTouch(front + [w], k) ==
      if k in w.deltas then |front| else if k in TouchedBy(front) then LastTouch(front, k) else 0
  {
    assert (front + [w])[..|front|] == front;
  }

  lemma {:induction false} FitsNext(t: Tables, book: string, front: seq<Draft>, w: Draft)
    requires TouchedBy(front) <= t.accounts.Keys && w.deltas.Keys <= t.accounts.Keys && AllFit(t, front)
    ensures Fits(SerialState(t, book, front), w.deltas) <==> DraftFits(t, front, w)
    ensures forall k :: k in w.deltas ==>
      Raw(SerialState(t, book, front).balances, k) == Raw(t.balances, k) + IntSum(Steps(front, k))
  {
    hide Steps, PrefixesFit, TouchedBy, SerialState, IntSum, LastTouch;
    forall k | k in w.deltas
      ensures Raw(SerialState(t, book, front).balances, k) == Raw(t.balances, k) + IntSum(Steps(front, k))
    {
      RawAfter(t, book, front, k);
    }
    hide Raw, AllFit;
  }

  lemma {:induction false} LowNext(t: Tables, book: string, front: seq<Draft>, w: Draft, seqno: nat)
    requires TouchedBy(front) <= t.accounts.Keys && w.deltas.Keys <= t.accounts.Keys && AllFit(t, front)
    requires Fits(SerialState(t, book, front), w.deltas)
    ensures SerialState(t, book, front).accounts == t.accounts
    ensures AnyLow(SerialState(t, book, front), w.deltas, Upsert(SerialState(t, book, front), w.deltas, SameSeq(w.deltas, seqno)))
       <==> !DraftHigh(t, front, w)
  {
    FitsNext(t, book, front, w);
    StateKeys(t, book, front);
    hide Steps, TouchedBy, SerialState, IntSum, AllFit, Upsert, Raw, Low;
    var b := Upsert(SerialState(t, book, front), w.deltas, SameSeq(w.deltas, seqno));
    forall k | k in w.deltas
      ensures b[k].balance == Raw(t.balances, k) + IntSum(Steps(front, k)) + w.deltas[k]
    {
      assert Raw(SerialState(t, book, front).balances, k) == Raw(t.balances, k) + IntSum(Steps(front, k));
    }
  }

  lemma {:induction false} IdsNext(t: Tables, book: string, front: seq<Draft>, w: Draft)
    requires TouchedBy(front) <= t.accounts.Keys && DistinctIds(front) && IdsOf(front) * t.ids == {}
    ensures w.tx.id !in SerialState(t, book, front).ids <==> DistinctIds(front + [w]) && IdsOf(front + [w]) * t.ids == {}
  {
    assert (front + [w])[..|front|] == front;
    assert IdsOf(front + [w]) == IdsOf(front) + {w.tx.id};
    assert IdsOf([]) == {};
    hide FinalBalances, IdsOf;
  }

  lemma {:induction false} PutAll(a: map<BookKey, Rec>, b: map<BookKey, Rec>, k: BookKey, r: Rec)
    ensures (a + b)[k := r] == a + b[k := r]
    ensures a + map[] == a
  {
  }

  lemma {:induction false} StateCounter(t: Tables, book: string, ws: seq<Draft>)
    requires TouchedBy(ws) <= t.accounts.Keys
    ensures Counter(SerialState(t, book, ws), book) == Counter(t, book) + |ws|
  {
    hide FinalBalances;
  }

  lemma {:induction false} PutTwice<V>(m: map<string, V>, k: string, x: V, y: V)
    ensures m[k := x][k := y] == m[k := y]
  {
  }

  lemma {:induction false} WritesNext(front: seq<Draft>, w: Draft, book: string, first: nat)
    ensures var ws := front + [w];
      && RowsFor(ws, first) == RowsFor(front, first) + [Row(first + |front|, w.tx)]
      && KeysFor(ws, book, first) == KeysFor(front, book, first)[(book, w.tx.key) := Rec(w.tx.id, first + |front|)]
      && IdsOf(ws) == IdsOf(front) + {w.tx.id}
  {
    assert (front + [w])[..|front|] == front;
  }

  lemma {:induction false} StoredFirst(t: Tables, book: string, w: Draft, balances: map<string, BalanceRow>)
    requires w.tx.book == book
    ensures Recorded(t, w.tx, Counter(t, book) + 1, balances) == Stored(t, book, [w], balances)
  {
    var first := Counter(t, book) + 1;
    WritesNext([], w, book, first);
    EmptyWrites(book, first);
    assert [] + [w] == [w];
    PutAll(t.byKey, map[], (book, w.tx.key), Rec(w.tx.id, first));
    hide Counter, RowsFor, KeysFor, IdsOf;
    assert [] + [Row(first, w.tx)] == [Row(first, w.tx)];
    assert t.ids + ({} + {w.tx.id}) == t.ids + {w.tx.id};
  }

  lemma {:induction false} RowsMore(t: Tables, book: string, front: seq<Draft>, w: Draft, first: nat)
    ensures var row := Row(first + |front|, w.tx);
      RowsOf(t, book) + RowsFor(front + [w], first) == (RowsOf(t, book) + RowsFor(front, first)) + [row]
  {
    WritesNext(front, w, book, first);
    hide RowsFor, RowsOf, KeysFor, IdsOf;
    var row := Row(first + |front|, w.tx);
    assert RowsOf(t, book) + (RowsFor(front, first) + [row]) == (RowsOf(t, book) + RowsFor(front, first)) + [row];
  }

  lemma {:induction false} KeysMore(t: Tables, book: string, front: seq<Draft>, w: Draft, first: nat)
    ensures (t.byKey + KeysFor(front, book, first))[(book, w.tx.key) := Rec(w.tx.id, first + |front|)] ==
      t.byKey + KeysFor(front + [w], book, first)
    ensures t.ids + IdsOf(front) + {w.tx.id} == t.ids + IdsOf(front + [w])
  {
    WritesNext(front, w, book, first);
    hide RowsFor, KeysFor, IdsOf;
    PutAll(t.byKey, KeysFor(front, book, first), (book, w.tx.key), Rec(w.tx.id, first + |front|));
    assert t.ids + IdsOf(front) + {w.tx.id} == t.ids + (IdsOf(front) + {w.tx.id});
  }

  lemma {:induction false} StoredRows(t: Tables, book: string, ws: seq<Draft>, balances: map<string, BalanceRow>)
    requires ws != []
    ensures var s := Stored(t, book, ws, balances);
      RowsOf(s, book) == RowsOf(t, book) + RowsFor(ws, Counter(t, book) + 1)
  {
    hide RowsFor, KeysFor, IdsOf, Counter;
  }

  lemma {:induction false} StoredMore(t: Tables, book: string, front: seq<Draft>, w: Draft, b0: map<string,
                                      BalanceRow>, balances: map<string, BalanceRow>)
    requires front != [] && w.tx.book == book
    ensures Recorded(Stored(t, book, front, b0), w.tx, Counter(t, book) + 1 + |front|, balances) ==
      Stored(t, book, front + [w], balances)
  {
    var first := Counter(t, book) + 1;
    hide Counter, RowsFor, KeysFor, IdsOf, RowsOf;
    StoredRows(t, book, front, b0);
    RowsMore(t, book, front, w, first);
    KeysMore(t, book, front, w, first);
    PutTwice(t.counters, book, first + |front| - 1, first + |front|);
    PutTwice(t.rows, book, RowsOf(t, book) + RowsFor(front, first), RowsOf(t, book) + RowsFor(front + [w], first));
  }

  /** Writing one draft more on the stored front stores the longer set. */
  lemma {:induction false} StoredNext(t: Tables, book: string, front: seq<Draft>, w: Draft, balances: map<string,
                                      BalanceRow>)
    requires TouchedBy(front) <= t.accounts.Keys && w.tx.book == book
    ensures var first := Counter(t, book) + 1;
      Recorded(SerialState(t, book, front), w.tx, first + |front|, balances) == Stored(t, book, front + [w], balances)
  {
    hide Stored, Recorded, FinalBalances, TouchedBy, Counter;
    if front == [] {
      StoredFirst(t, book, w, balances);
      assert front + [w] == [w];
    } else {
      StateOf(t, book, front);
      StoredMore(t, book, front, w, FinalBalances(t, front, Counter(t, book) + 1), balances);
    }
  }

  lemma {:induction false} EmptyWrites(book: string, first: nat)
    ensures RowsFor([], first) == [] && KeysFor([], book, first) == map[] && IdsOf([]) == {}
  {
  }

  lemma {:induction false} WriteForm(t: Tables, tx: Transaction, deltas: Deltas, seqno: nat)
    requires deltas.Keys <= t.accounts.Keys && seqno == Counter(t, tx.book) + 1
    ensures var r := WriteDraft(t, tx, deltas);
      && (r.Wrote? <==>
            InI64(seqno) && Fits(t, deltas) && !AnyLow(t, deltas, Upsert(t, deltas, SameSeq(deltas, seqno))) && tx.id !in t.ids)
      && (r.Wrote? ==> r.t == Recorded(t, tx, seqno, Upsert(t, deltas, SameSeq(deltas, seqno))))
  {
    hide Upsert, Fits, AnyLow, Recorded, Counter;
  }

  /** When one draft more goes through. */
  lemma {:induction false} SerialEnabled(t: Tables, book: string, front: seq<Draft>, w: Draft)
    requires TouchedBy(front) <= t.accounts.Keys && w.deltas.Keys <= t.accounts.Keys && w.tx.book == book
    requires SerialOk(t, book, front)
    ensures SerialState(t, book, front).accounts == t.accounts
    ensures WriteDraft(SerialState(t, book, front), w.tx, w.deltas).Wrote? <==> SerialOk(t, book, front + [w])
  {
    var t1 := SerialState(t, book, front);
    var seqno := Counter(t, book) + 1 + |front|;
    hide Steps, TouchedBy, Upsert, SerialState, Counter, AllFit, AllHigh, Fits, DraftFits, DraftHigh, AnyLow, Recorded,
      IdsOf, DistinctIds, WriteDraft;
    StateKeys(t, book, front);
    StateCounter(t, book, front);
    WriteForm(t1, w.tx, w.deltas, seqno);
    FitsNext(t, book, front, w);
    AllNext(t, front, w);
    IdsNext(t, book, front, w);
    if InI64(seqno) && Fits(t1, w.deltas) {
      LowNext(t, book, front, w, seqno);
    }
  }

  /** What it leaves. */
  lemma {:induction false} SerialLeaves(t: Tables, book: string, front: seq<Draft>, w: Draft)
    requires TouchedBy(front) <= t.accounts.Keys && w.deltas.Keys <= t.accounts.Keys && w.tx.book == book
    requires AllFit(t, front) && AllFit(t, front + [w])
    requires SerialState(t, book, front).accounts == t.accounts
    requires WriteDraft(SerialState(t, book, front), w.tx, w.deltas).Wrote?
    ensures TouchedBy(front + [w]) <= t.accounts.Keys
    ensures WriteDraft(SerialState(t, book, front), w.tx, w.deltas).t == SerialState(t, book, front + [w])
  {
    hide *;
    LeavesRecorded(t, book, front, w);
    var balances := FinalBalances(t, front + [w], Counter(t, book) + 1);
    StoredState(t, book, front, w, Counter(t, book) + 1 + |front|, balances);
  }

  lemma {:induction false} LeavesRecorded(t: Tables, book: string, front: seq<Draft>, w: Draft)
    requires TouchedBy(front) <= t.accounts.Keys && w.deltas.Keys <= t.accounts.Keys && w.tx.book == book
    requires AllFit(t, front) && AllFit(t, front + [w])
    requires SerialState(t, book, front).accounts == t.accounts
    requires WriteDraft(SerialState(t, book, front), w.tx, w.deltas).Wrote?
    ensures TouchedBy(front + [w]) <= t.accounts.Keys
    ensures var t1 := SerialState(t, book, front);
      WriteDraft(t1, w.tx, w.deltas).t ==
      Recorded(t1, w.tx, Counter(t, book) + 1 + |front|, FinalBalances(t, front + [w], Counter(t, book) + 1))
  {
    hide *;
    StateCounter(t, book, front);
    WroteIs(SerialState(t, book, front), w.tx, w.deltas, Counter(t, book) + 1 + |front|);
    UpsertNext(t, book, front, w);
  }

  lemma {:induction false} WroteIs(t: Tables, tx: Transaction, deltas: Deltas, seqno: nat)
    requires deltas.Keys <= t.accounts.Keys && seqno == Counter(t, tx.book) + 1 && WriteDraft(t, tx, deltas).Wrote?
    ensures Fits(t, deltas) && WriteDraft(t, tx, deltas).t == Recorded(t, tx, seqno, Upsert(t, deltas, SameSeq(deltas, seqno)))
  {
    hide Upsert, Fits, AnyLow, Recorded, Counter, WriteDraft;
    WriteForm(t, tx, deltas, seqno);
  }

  lemma {:induction false} StoredState(t: Tables, book: string, front: seq<Draft>, w: Draft, seqno: nat,
                                       balances: map<string, BalanceRow>)
    requires TouchedBy(front) <= t.accounts.Keys && TouchedBy(front + [w]) <= t.accounts.Keys && w.tx.book == book
    requires seqno == Counter(t, book) + 1 + |front| && balances == FinalBalances(t, front + [w], Counter(t, book) + 1)
    ensures Recorded(SerialState(t, book, front), w.tx, seqno, balances) == SerialState(t, book, front + [w])
  {
    hide TouchedBy, FinalBalances, SerialState, Recorded, Stored, Counter;
    StoredNext(t, book, front, w, balances);
    StateOf(t, book, front + [w]);
  }

  /** Draft by draft, the write set goes through exactly when every running balance
      fits and stays above its minimum, and ids are new; what it leaves is the
      closed form. */
  lemma {:induction false} SerialForm(t: Tables, book: string, ws: seq<Draft>)
    requires TouchedBy(ws) <= t.accounts.Keys && OneBook(ws, book) && InI64(Counter(t, book))
    ensures Serial(t, ws).Some? <==> SerialOk(t, book, ws)
    ensures Serial(t, ws).Some? ==> Serial(t, ws).value == SerialState(t, book, ws)
  {
    if ws == [] {
      EmptyOk(t, book);
    } else {
      var front, w := ws[..|ws| - 1], ws[|ws| - 1];
      assert ws == front + [w];
      SerialForm(t, book, front);
      hide *;
      SerialLast(t, front, w);
      SerialNext(t, book, front, w);
    }
  }

  lemma {:induction false} SerialLast(t: Tables, front: seq<Draft>, w: Draft)
    requires TouchedBy(front + [w]) <= t.accounts.Keys
    ensures TouchedBy(front) <= t.accounts.Keys && w.deltas.Keys <= t.accounts.Keys
    ensures Serial(t, front + [w]) ==
            match Serial(t, front)
            case None => None
            case Some(t1) => (match WriteDraft(t1, w.tx, w.deltas) case Failed(_) => None case Wrote(t2) => Some(t2))
  {
    assert (front + [w])[..|front|] == front;
    hide WriteDraft;
  }

  lemma {:induction false} SerialNext(t: Tables, book: string, front: seq<Draft>, w: Draft)
    requires TouchedBy(front + [w]) <= t.accounts.Keys && TouchedBy(front) <= t.accounts.Keys
    requires w.deltas.Keys <= t.accounts.Keys && w.tx.book == book
    requires Serial(t, front).Some? <==> SerialOk(t, book, front)
    requires Serial(t, front).Some? ==> Serial(t, front).value == SerialState(t, book, front)
    ensures Serial(t, front + [w]).Some? <==> SerialOk(t, book, front + [w])
    ensures Serial(t, front + [w]).Some? ==> Serial(t, front + [w]).value == SerialState(t, book, front + [w])
  {
    hide WriteDraft, Serial, SerialState, AllHigh, AllFit, Steps, TouchedBy, DistinctIds, IdsOf, Counter;
    SerialLast(t, front, w);
    OkPrefix(t, book, front, w);
    if SerialOk(t, book, front) {
      SerialEnabled(t, book, front, w);
      if Serial(t, front + [w]).Some? {
        SerialLeaves(t, book, front, w);
      }
    }
  }

  lemma {:induction false} EmptyOk(t: Tables, book: string)
    requires InI64(Counter(t, book))
    ensures SerialOk(t, book, [])
  {
    assert forall k :: Steps([], k) == [];
  }

  lemma {:induction false} OkPrefix(t: Tables, book: string, front: seq<Draft>, w: Draft)
    requires w.deltas.Keys <= t.accounts.Keys
    ensures SerialOk(t, book, front + [w]) ==> SerialOk(t, book, front)
  {
    AllNext(t, front, w);
    assert (front + [w])[..|front|] == front;
    assert IdsOf(front + [w]) == IdsOf(front) + {w.tx.id};
    hide AllFit, AllHigh, DraftFits, DraftHigh, IdsOf;
  }

  lemma {:induction false} StateOf(t: Tables, book: string, ws: seq<Draft>)
    requires TouchedBy(ws) <= t.accounts.Keys && ws != []
    ensures SerialState(t, book, ws) == Stored(t, book, ws, FinalBalances(t, ws, Counter(t, book) + 1))
  {
    hide Stored, FinalBalances, TouchedBy, Counter;
  }
}
