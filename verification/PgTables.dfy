/**
 The Postgres store's tables and its per-draft commit: idempotency check, fold,
 write, each draft in its own savepoint.
 */
module PgTables {
  import opened LedgerTypes
  import opened AccountKeys

  datatype AccountRow = AccountRow(asset: string, cfg: AccountCfg)

  datatype BalanceRow = BalanceRow(asset: string, balance: i64, updatedSeq: nat)

  /** What a committed draft is answered with, but for its time. */
  datatype Rec = Rec(txid: nat, seqno: nat)

  /** The transaction row, its posting rows and its event row are all written from
      one draft and one sequence number. */
  datatype Row = Row(seqno: nat, tx: Transaction)

  type BookKey = (string, string)

  /** `byKey` and `ids` are the unique indexes on the transactions table. */
  datatype Tables = Tables(
    counters: map<string, nat>,
    accounts: map<string, AccountRow>,
    balances: map<string, BalanceRow>,
    byKey: map<BookKey, Rec>,
    ids: set<nat>,
    rows: map<string, seq<Row>>)

  datatype DraftError = BookReserved | AccountMissing | AssetWrong | DeltaTooLarge | SqlError | BelowMin | NotUnique

  datatype Outcome = Committed(rec: Rec) | Rejected(err: DraftError)

  // ------------------------------------------------------------------
  // Folding a draft
  // ------------------------------------------------------------------

  type Deltas = map<string, i64>

  datatype Folded = Deltas(deltas: Deltas) | Invalid(err: DraftError)

  function PostingDelta(p: Posting): i64 {
    if p.direction == Debit then p.minor else WrapNeg(p.minor)
  }

  function FoldPosting(accounts: map<string, AccountRow>, deltas: Deltas, p: Posting): Folded {
    var k := Key(p.account);
    if k !in accounts then Invalid(AccountMissing)
    else if accounts[k].asset != p.asset then Invalid(AssetWrong)
    else
      var before: int := if k in deltas then deltas[k] else 0;
      if InI64(before + PostingDelta(p)) then Deltas(deltas[k := before + PostingDelta(p)]) else Invalid(DeltaTooLarge)
  }

  /** One signed delta per account a draft touches. */
  function FoldPostings(accounts: map<string, AccountRow>, ps: seq<Posting>): (r: Folded)
    ensures r.Deltas? ==> r.deltas.Keys <= accounts.Keys
  {
    if ps == [] then Deltas(map[])
    else match FoldPostings(accounts, ps[..|ps| - 1])
      case Deltas(d) => FoldPosting(accounts, d, ps[|ps| - 1])
      case failed => failed
  }

  /** What the postings move on one account. */
  function AccountSum(ps: seq<Posting>, k: string): int {
    if ps == [] then 0
    else
      var p := ps[|ps| - 1];
      AccountSum(ps[..|ps| - 1], k) + (if Key(p.account) == k then PostingDelta(p) as int else 0)
  }

  /** Every account known, every asset its account's, every running sum in range. */
  ghost predicate Foldable(accounts: map<string, AccountRow>, ps: seq<Posting>) {
    forall i :: 0 <= i < |ps| ==>
      && Key(ps[i].account) in accounts && accounts[Key(ps[i].account)].asset == ps[i].asset
      && InI64(AccountSum(ps[..i + 1], Key(ps[i].account)))
  }

  lemma FoldableFront(accounts: map<string, AccountRow>, ps: seq<Posting>)
    requires ps != []
    ensures var front, p := ps[..|ps| - 1], ps[|ps| - 1];
      Foldable(accounts, ps) <==>
        && Foldable(accounts, front)
        && Key(p.account) in accounts && accounts[Key(p.account)].asset == p.asset
        && InI64(AccountSum(ps, Key(p.account)))
  {
    hide AccountSum;
    var front := ps[..|ps| - 1];
    assert ps[..|ps|] == ps;
    forall i | 0 <= i < |front|
      ensures front[..i + 1] == ps[..i + 1] && front[i] == ps[i]
    {
    }
  }

  /** A draft folds exactly when it is well formed and no running sum leaves 64
      bits; its deltas are then the sums over its postings, account by account. */
  lemma {:induction false} FoldIsSums(accounts: map<string, AccountRow>, ps: seq<Posting>)
    ensures FoldPostings(accounts, ps).Deltas? <==> Foldable(accounts, ps)
    ensures FoldPostings(accounts, ps).Deltas? ==>
      forall k :: if k in FoldPostings(accounts, ps).deltas then FoldPostings(accounts, ps).deltas[k] == AccountSum(ps, k)
                  else AccountSum(ps, k) == 0
  {
    if ps != [] {
      FoldIsSums(accounts, ps[..|ps| - 1]);
      FoldableFront(accounts, ps);
      hide Key, Foldable;
    }
  }

  /** A delta for every account the postings name, even a delta of zero, and for
      no other. */
  lemma {:induction false} FoldTouches(accounts: map<string, AccountRow>, ps: seq<Posting>, k: string)
    requires FoldPostings(accounts, ps).Deltas?
    ensures k in FoldPostings(accounts, ps).deltas <==> exists i :: 0 <= i < |ps| && Key(ps[i].account) == k
  {
    if ps != [] {
      var front := ps[..|ps| - 1];
      FoldTouches(accounts, front, k);
      hide Key;
      forall i | 0 <= i < |front|
        ensures front[i] == ps[i]
      {
      }
      assert Key(ps[|ps| - 1].account) == k ==> k in FoldPostings(accounts, ps).deltas;
    }
  }

  // ------------------------------------------------------------------
  // Writing
  // ------------------------------------------------------------------

  function Counter(t: Tables, book: string): nat {
    if book in t.counters then t.counters[book] else 0
  }

  function Raw(balances: map<string, BalanceRow>, k: string): i64 {
    if k in balances then balances[k].balance else 0
  }

  /** One row of the balances upsert. */
  function Added(t: Tables, k: string, delta: i64, seqno: nat): BalanceRow
    requires k in t.accounts && InI64(Raw(t.balances, k) + delta)
  {
    BalanceRow(if k in t.balances then t.balances[k].asset else t.accounts[k].asset, Raw(t.balances, k) + delta, seqno)
  }

  predicate Fits(t: Tables, deltas: Deltas) {
    forall k :: k in deltas ==> InI64(Raw(t.balances, k) + deltas[k])
  }

  function Upsert(t: Tables, deltas: Deltas, seqs: map<string, nat>): (r: map<string, BalanceRow>)
    requires deltas.Keys <= t.accounts.Keys && Fits(t, deltas) && deltas.Keys <= seqs.Keys
    ensures r.Keys == t.balances.Keys + deltas.Keys
    ensures forall k :: k in r ==> r[k] == if k in deltas then Added(t, k, deltas[k], seqs[k]) else t.balances[k]
  {
    map k | k in t.balances.Keys + deltas.Keys ::
      if k in deltas then Added(t, k, deltas[k], seqs[k]) else t.balances[k]
  }

  predicate Low(row: AccountRow, raw: i64) {
    row.cfg.minBalance.Some? && Effective(raw, row.cfg.normalSide) < row.cfg.minBalance.value
  }

  function RowsOf(t: Tables, book: string): seq<Row> {
    if book in t.rows then t.rows[book] else []
  }

  /** Constant sequence numbers for the accounts of one draft. */
  function SameSeq(deltas: Deltas, seqno: nat): map<string, nat> {
    map k | k in deltas :: seqno
  }

  datatype Written = Wrote(t: Tables) | Failed(err: DraftError)

  function Recorded(t: Tables, tx: Transaction, seqno: nat, balances: map<string, BalanceRow>): Tables {
    t.(counters := t.counters[tx.book := seqno],
       balances := balances,
       byKey := t.byKey[(tx.book, tx.key) := Rec(tx.id, seqno)],
       ids := t.ids + {tx.id},
       rows := t.rows[tx.book := RowsOf(t, tx.book) + [Row(seqno, tx)]])
  }

  /** Some touched account would fall below its minimum. */
  predicate AnyLow(t: Tables, deltas: Deltas, balances: map<string, BalanceRow>)
    requires deltas.Keys <= t.accounts.Keys && deltas.Keys <= balances.Keys
  {
    exists k :: k in deltas && Low(t.accounts[k], balances[k].balance)
  }

  /** `write_transaction`; any failure rolls the savepoint back. */
  function WriteDraft(t: Tables, tx: Transaction, deltas: Deltas): Written
    requires deltas.Keys <= t.accounts.Keys
  {
    var seqno := Counter(t, tx.book) + 1;
    if !InI64(seqno) || !Fits(t, deltas) then Failed(SqlError)
    else
      var balances := Upsert(t, deltas, SameSeq(deltas, seqno));
      if AnyLow(t, deltas, balances) then Failed(BelowMin)
      else if tx.id in t.ids then Failed(NotUnique)
      else Wrote(Recorded(t, tx, seqno, balances))
  }

  /** One draft in its savepoint: the tables after it, and its outcome. */
  function CommitInSavepoint(t: Tables, tx: Transaction): (Tables, Outcome) {
    if IsReserved(tx.book) then (t, Rejected(BookReserved))
    else if (tx.book, tx.key) in t.byKey then (t, Outcome.Committed(t.byKey[(tx.book, tx.key)]))
    else match FoldPostings(t.accounts, tx.postings)
      case Invalid(e) => (t, Rejected(e))
      case Deltas(deltas) =>
        match WriteDraft(t, tx, deltas)
        case Failed(e) => (t, Rejected(e))
        case Wrote(t') => (t', Outcome.Committed(t'.byKey[(tx.book, tx.key)]))
  }

  /** The semantic reference: drafts one after another. */
  function PerDraft(t: Tables, txs: seq<Transaction>): (r: (Tables, seq<Outcome>))
    ensures |r.1| == |txs|
  {
    if txs == [] then (t, [])
    else
      var n := |txs| - 1;
      var (t1, outs) := PerDraft(t, txs[..n]);
      var (t2, out) := CommitInSavepoint(t1, txs[n]);
      (t2, outs + [out])
  }

  lemma DraftKeepsAccounts(t: Tables, tx: Transaction)
    ensures CommitInSavepoint(t, tx).0.accounts == t.accounts
    ensures forall bk :: bk in t.byKey ==>
      bk in CommitInSavepoint(t, tx).0.byKey && CommitInSavepoint(t, tx).0.byKey[bk] == t.byKey[bk]
  {
    hide FoldPostings, Upsert, Fits, Low;
  }
}
