/** What one draft is answered with and what it stores, said over the integers: sums
    of its postings on top of the balances in the tables. */
module PgDrafts {
  import opened LedgerTypes
  import opened AccountKeys
  import opened PgTables

  // ------------------------------------------------------------------
  // The conditions
  // ------------------------------------------------------------------

  /** What a posting moves: debits up, credits down. The one amount that has no
      negation in 64 bits stays as it is. */
  function Moves(p: Posting): int {
    if p.direction == Debit || p.minor == I64_MIN then p.minor else -p.minor
  }

  function Net(ps: seq<Posting>, k: string): int {
    if ps == [] then 0
    else Net(ps[..|ps| - 1], k) + (if Key(ps[|ps| - 1].account) == k then Moves(ps[|ps| - 1]) else 0)
  }

  ghost predicate PostedTo(ps: seq<Posting>, k: string) {
    exists i :: 0 <= i < |ps| && Key(ps[i].account) == k
  }

  /** Posting i is to a known account in its asset, and the account's sum so far is a
      64-bit number. */
  ghost predicate Fine(accounts: map<string, AccountRow>, ps: seq<Posting>, i: nat)
    requires i < |ps|
  {
    var k := Key(ps[i].account);
    && k in accounts && accounts[k].asset == ps[i].asset
    && I64_MIN <= Net(ps[..i + 1], k) <= I64_MAX
  }

  ghost predicate AllFine(accounts: map<string, AccountRow>, ps: seq<Posting>) {
    forall i :: 0 <= i < |ps| ==> Fine(accounts, ps, i)
  }

  /** The first posting that is not, and what is wrong with it. */
  ghost predicate FailsAt(accounts: map<string, AccountRow>, ps: seq<Posting>, i: nat, e: DraftError) {
    && i < |ps| && !Fine(accounts, ps, i) && (forall j :: 0 <= j < i ==> Fine(accounts, ps, j))
    && e == var k := Key(ps[i].account);
            if k !in accounts then AccountMissing
            else if accounts[k].asset != ps[i].asset then AssetWrong
            else DeltaTooLarge
  }

  /** The balance the account would have. */
  function After(t: Tables, ps: seq<Posting>, k: string): int {
    (if k in t.balances then t.balances[k].balance else 0) + Net(ps, k)
  }

  function NextSeqno(t: Tables, book: string): nat {
    (if book in t.counters then t.counters[book] else 0) + 1
  }

  ghost predicate InRange(t: Tables, ps: seq<Posting>) {
    forall k :: PostedTo(ps, k) ==> I64_MIN <= After(t, ps, k) <= I64_MAX
  }

  ghost predicate FallsShort(t: Tables, ps: seq<Posting>, k: string) {
    PostedTo(ps, k) && k in t.accounts && !Meets(t.accounts[k].cfg, After(t, ps, k))
  }

  ghost predicate AnyShort(t: Tables, ps: seq<Posting>) {
    exists k :: FallsShort(t, ps, k)
  }

  ghost predicate Reserved(book: string) {
    |book| >= 1 && book[0] == '_'
  }

  /** What a draft with a new key needs to be committed. */
  ghost predicate Committable(t: Tables, tx: Transaction) {
    && !Reserved(tx.book) && AllFine(t.accounts, tx.postings)
    && NextSeqno(t, tx.book) <= I64_MAX && InRange(t, tx.postings)
    && !AnyShort(t, tx.postings) && tx.id !in t.ids
  }

  /** The tables with the draft in them: one new row, numbered next, and the balances
      of exactly the accounts it names moved by its sums. */
  ghost predicate Stores(t: Tables, tx: Transaction, t': Tables) {
    var n := NextSeqno(t, tx.book);
    && t'.accounts == t.accounts && t'.counters == t.counters[tx.book := n]
    && t'.byKey == t.byKey[(tx.book, tx.key) := Rec(tx.id, n)] && t'.ids == t.ids + {tx.id}
    && t'.rows == t.rows[tx.book := (if tx.book in t.rows then t.rows[tx.book] else []) + [Row(n, tx)]]
    && (forall k :: k in t'.balances <==> k in t.balances || PostedTo(tx.postings, k))
    && (forall k :: k in t'.balances && !PostedTo(tx.postings, k) ==> t'.balances[k] == t.balances[k])
    && (forall k :: k in t'.balances && PostedTo(tx.postings, k) ==>
         && t'.balances[k].balance == After(t, tx.postings, k) && t'.balances[k].updatedSeq == n
         && (k in t.balances || k in t.accounts)
         && t'.balances[k].asset == if k in t.balances then t.balances[k].asset else t.accounts[k].asset)
  }

  // ------------------------------------------------------------------
  // The code meets them
  // ------------------------------------------------------------------

  lemma {:induction false} NetIs(ps: seq<Posting>, k: string)
    ensures AccountSum(ps, k) == Net(ps, k)
  {
    hide Key;
    if ps != [] {
      NetIs(ps[..|ps| - 1], k);
    }
  }

  lemma {:induction false} FineIs(accounts: map<string, AccountRow>, ps: seq<Posting>)
    ensures Foldable(accounts, ps) <==> AllFine(accounts, ps)
  {
    hide Key, AccountSum, Net;
    forall i | 0 <= i < |ps|
      ensures Fine(accounts, ps, i) <==>
        Key(ps[i].account) in accounts && accounts[Key(ps[i].account)].asset == ps[i].asset
        && InI64(AccountSum(ps[..i + 1], Key(ps[i].account)))
    {
      NetIs(ps[..i + 1], Key(ps[i].account));
    }
    hide Fine;
  }

  lemma {:induction false} FineFront(accounts: map<string, AccountRow>, ps: seq<Posting>, i: nat)
    requires i < |ps| - 1
    ensures Fine(accounts, ps[..|ps| - 1], i) <==> Fine(accounts, ps, i)
  {
    hide Key, Net;
    assert ps[..|ps| - 1][..i + 1] == ps[..i + 1];
  }

  /** A refused fold names the first bad posting. */
  lemma {:induction false} FoldFailsAt(accounts: map<string, AccountRow>, ps: seq<Posting>) returns (i: nat)
    requires FoldPostings(accounts, ps).Invalid?
    ensures FailsAt(accounts, ps, i, FoldPostings(accounts, ps).err)
  {
    hide Key, Net, AccountSum, Foldable;
    var n := |ps| - 1;
    var front := ps[..n];
    i := n;
    if FoldPostings(accounts, front).Invalid? {
      i := FoldFailsAt(accounts, front);
    } else {
      FoldIsSums(accounts, front);
      FoldIsSums(accounts, ps);
      FineIs(accounts, front);
      FineIs(accounts, ps);
    }
    forall j | 0 <= j < n
      ensures Fine(accounts, front, j) <==> Fine(accounts, ps, j)
    {
      FineFront(accounts, ps, j);
    }
  }

  /** The deltas of a fold are the sums, for exactly the accounts named. */
  lemma {:induction false} DeltaIs(accounts: map<string, AccountRow>, ps: seq<Posting>, k: string)
    requires FoldPostings(accounts, ps).Deltas?
    ensures var d := FoldPostings(accounts, ps).deltas; (k in d <==> PostedTo(ps, k)) && (k in d ==> d[k] == Net(ps, k))
  {
    FoldTouches(accounts, ps, k);
    FoldIsSums(accounts, ps);
    NetIs(ps, k);
    hide FoldPostings, AccountSum, Net, Key, Foldable;
  }

  lemma {:induction false} LowExactly(row: AccountRow, raw: i64)
    ensures Low(row, raw) <==> !Meets(row.cfg, raw)
  {
  }

  ghost predicate DeltasAre(ps: seq<Posting>, deltas: Deltas) {
    forall k :: (k in deltas <==> PostedTo(ps, k)) && (k in deltas ==> deltas[k] == Net(ps, k))
  }

  lemma {:induction false} FitsIs(t: Tables, ps: seq<Posting>, deltas: Deltas)
    requires DeltasAre(ps, deltas)
    ensures Fits(t, deltas) <==> InRange(t, ps)
  {
    hide PostedTo, Net;
  }

  lemma {:induction false} AnyLowIs(t: Tables, ps: seq<Posting>, deltas: Deltas, seqno: nat)
    requires DeltasAre(ps, deltas) && deltas.Keys <= t.accounts.Keys && Fits(t, deltas)
    ensures AnyLow(t, deltas, Upsert(t, deltas, SameSeq(deltas, seqno))) <==> AnyShort(t, ps)
  {
    hide PostedTo, Net, Meets, Low, Upsert;
    var b := Upsert(t, deltas, SameSeq(deltas, seqno));
    forall k | k in deltas
      ensures Low(t.accounts[k], b[k].balance) <==> FallsShort(t, ps, k)
    {
      LowExactly(t.accounts[k], b[k].balance);
    }
    if AnyLow(t, deltas, b) {
      var k :| k in deltas && Low(t.accounts[k], b[k].balance);
      assert FallsShort(t, ps, k);
    }
    if exists k :: FallsShort(t, ps, k) {
      var k :| FallsShort(t, ps, k);
      assert k in deltas && Low(t.accounts[k], b[k].balance);
    }
  }

  /** Which outcome a draft gets, and what it does to the tables. */
  ghost predicate Deserves(t: Tables, tx: Transaction, t': Tables, out: Outcome, i: nat) {
    var ps := tx.postings;
    if Reserved(tx.book) then t' == t && out == Rejected(BookReserved)
    else if (tx.book, tx.key) in t.byKey then t' == t && out == Outcome.Committed(t.byKey[(tx.book, tx.key)])
    else if !AllFine(t.accounts, ps) then t' == t && out.Rejected? && FailsAt(t.accounts, ps, i, out.err)
    else if NextSeqno(t, tx.book) > I64_MAX || !InRange(t, ps) then t' == t && out == Rejected(SqlError)
    else if AnyShort(t, ps) then t' == t && out == Rejected(BelowMin)
    else if tx.id in t.ids then t' == t && out == Rejected(NotUnique)
    else out == Outcome.Committed(Rec(tx.id, NextSeqno(t, tx.book))) && Stores(t, tx, t')
  }

  lemma {:induction false} DraftExactly(t: Tables, tx: Transaction) returns (i: nat)
    ensures Deserves(t, tx, CommitInSavepoint(t, tx).0, CommitInSavepoint(t, tx).1, i)
  {
    var ps := tx.postings;
    i := 0;
    if !Reserved(tx.book) && (tx.book, tx.key) !in t.byKey {
      FoldIsSums(t.accounts, ps);
      FineIs(t.accounts, ps);
      if FoldPostings(t.accounts, ps).Invalid? {
        i := FoldFailsAt(t.accounts, ps);
        hide Foldable, AllFine, FailsAt, FoldPostings;
      } else {
        hide Foldable, AllFine, FoldPostings;
        FoldedExactly(t, tx);
      }
    }
  }

  lemma {:induction false} FoldedExactly(t: Tables, tx: Transaction)
    requires !Reserved(tx.book) && (tx.book, tx.key) !in t.byKey && AllFine(t.accounts, tx.postings)
    requires FoldPostings(t.accounts, tx.postings).Deltas?
    ensures Deserves(t, tx, CommitInSavepoint(t, tx).0, CommitInSavepoint(t, tx).1, 0)
  {
    var deltas := FoldPostings(t.accounts, tx.postings).deltas;
    hide FoldPostings, AllFine, InRange, AnyShort, WriteDraft, Stores, PostedTo, Net;
    forall k
      ensures (k in deltas <==> PostedTo(tx.postings, k)) && (k in deltas ==> deltas[k] == Net(tx.postings, k))
    {
      DeltaIs(t.accounts, tx.postings, k);
    }
    WriteExactly(t, tx, deltas);
  }

  /** A draft with a new key is committed if and only if it is committable. */
  lemma {:induction false} CommitsExactly(t: Tables, tx: Transaction)
    requires (tx.book, tx.key) !in t.byKey
    ensures CommitInSavepoint(t, tx).1.Committed? <==> Committable(t, tx)
  {
    hide CommitInSavepoint, AllFine, InRange, AnyShort, FailsAt, Stores;
    var i := DraftExactly(t, tx);
  }

  lemma {:induction false} WriteExactly(t: Tables, tx: Transaction, deltas: Deltas)
    requires DeltasAre(tx.postings, deltas) && deltas.Keys <= t.accounts.Keys
    ensures WriteDraft(t, tx, deltas).Wrote? <==>
      && NextSeqno(t, tx.book) <= I64_MAX && InRange(t, tx.postings)
      && !AnyShort(t, tx.postings) && tx.id !in t.ids
    ensures match WriteDraft(t, tx, deltas)
      case Wrote(t') => Stores(t, tx, t') && t'.byKey[(tx.book, tx.key)] == Rec(tx.id, NextSeqno(t, tx.book))
      case Failed(e) =>
        e == if NextSeqno(t, tx.book) > I64_MAX || !InRange(t, tx.postings) then SqlError
             else if AnyShort(t, tx.postings) then BelowMin else NotUnique
  {
    hide Fits, InRange, AnyShort, AnyLow, Upsert, Recorded, Stores, DeltasAre, SameSeq, Low;
    FitsIs(t, tx.postings, deltas);
    var n := NextSeqno(t, tx.book);
    assert n == Counter(t, tx.book) + 1;
    if Fits(t, deltas) {
      AnyLowIs(t, tx.postings, deltas, n);
      StoresIs(t, tx, deltas, n);
    }
  }

  lemma {:induction false} StoresIs(t: Tables, tx: Transaction, deltas: Deltas, n: nat)
    requires DeltasAre(tx.postings, deltas) && deltas.Keys <= t.accounts.Keys && Fits(t, deltas)
    requires n == NextSeqno(t, tx.book)
    ensures var t' := Recorded(t, tx, n, Upsert(t, deltas, SameSeq(deltas, n)));
      Stores(t, tx, t') && t'.byKey[(tx.book, tx.key)] == Rec(tx.id, n)
  {
    hide PostedTo, Net, Upsert;
  }

  lemma {:induction false} PerDraftFront(t: Tables, txs: seq<Transaction>, i: nat)
    requires i < |txs|
    ensures PerDraft(t, txs).1[i] == PerDraft(t, txs[..i + 1]).1[i]
  {
    hide CommitInSavepoint;
    var n := |txs| - 1;
    if i < n {
      PerDraftFront(t, txs[..n], i);
      assert txs[..n][..i + 1] == txs[..i + 1];
    } else {
      assert txs[..i + 1] == txs;
    }
  }

  /** The loop: each draft gets what it deserves over the tables the ones before it
      left. */
  lemma {:induction false} EachDraftExactly(t: Tables, txs: seq<Transaction>, i: nat) returns (at: nat)
    requires i < |txs|
    ensures Deserves(PerDraft(t, txs[..i]).0, txs[i], PerDraft(t, txs[..i + 1]).0, PerDraft(t, txs).1[i], at)
  {
    hide CommitInSavepoint, Deserves;
    PerDraftFront(t, txs, i);
    assert txs[..i + 1][..i] == txs[..i];
    at := DraftExactly(PerDraft(t, txs[..i]).0, txs[i]);
  }
}
