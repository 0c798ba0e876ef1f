/**
 The set-based batch commit: one aggregate per account, one upsert, a prefix
 check of minimum balances, against committing draft by draft.
 */
module PgBatch {
  import opened LedgerTypes
  import opened AccountKeys
  import opened PgTables

  // ------------------------------------------------------------------
  // 64-bit sums
  // ------------------------------------------------------------------

  const SPAN: int := 0x1_0000_0000_0000_0000

  /** What an unchecked i64 addition leaves of an exact sum. */
  function Wrap(x: int): i64 {
    (x - I64_MIN) % SPAN + I64_MIN
  }

  function IntSum(ds: seq<i64>): int {
    if ds == [] then 0 else IntSum(ds[..|ds| - 1]) + ds[|ds| - 1]
  }

  lemma {:induction false} WrapIsExact(x: int)
    requires InI64(x)
    ensures Wrap(x) == x
  {
  }

  lemma {:induction false} WrapAdds(x: int, y: int)
    ensures Wrap(Wrap(x) + y) == Wrap(x + y)
  {
  }

  /** A wrapped total shifts by whole spans, so a balance and a wrapped total only
      add up in range when nothing wrapped. */
  lemma {:induction false} WrapEscapes(base: i64, x: int)
    requires InI64(base + x)
    ensures InI64(base + Wrap(x)) <==> InI64(x)
  {
    if InI64(x) {
      WrapIsExact(x);
    } else {
      WrapOff(x);
    }
  }

  lemma {:induction false} WrapOff(x: int)
    requires !InI64(x) && -SPAN <= x <= SPAN
    ensures Wrap(x) == x + SPAN || Wrap(x) == x - SPAN
  {
  }

  // ------------------------------------------------------------------
  // The write set
  // ------------------------------------------------------------------

  /** A draft to write: its place in the input and its folded deltas. */
  datatype Draft = Draft(at: nat, tx: Transaction, deltas: Deltas)

  /** The first pass over the batch: drafts to write, in order, and the keys they
      bring. */
  datatype Plan = Plan(writes: seq<Draft>, seen: set<string>)

  function PlanOf(t: Tables, book: string, txs: seq<Transaction>): Option<Plan> {
    if txs == [] then Some(Plan([], {}))
    else
      var n := |txs| - 1;
      match PlanOf(t, book, txs[..n])
      case None => None
      case Some(p) =>
        var tx := txs[n];
        if (book, tx.key) in t.byKey || tx.key in p.seen then Some(p)
        else match FoldPostings(t.accounts, tx.postings)
          case Invalid(_) => None
          case Deltas(d) => Some(Plan(p.writes + [Draft(n, tx, d)], p.seen + {tx.key}))
  }

  /** An account's deltas over the write set, in draft order. */
  function Steps(ws: seq<Draft>, k: string): seq<i64> {
    if ws == [] then []
    else
      var w := ws[|ws| - 1];
      Steps(ws[..|ws| - 1], k) + (if k in w.deltas then [w.deltas[k]] else [])
  }

  function TouchedBy(ws: seq<Draft>): set<string> {
    if ws == [] then {} else TouchedBy(ws[..|ws| - 1]) + ws[|ws| - 1].deltas.Keys
  }

  /** The last draft that touches the account. */
  function LastTouch(ws: seq<Draft>, k: string): (i: nat)
    requires k in TouchedBy(ws)
    ensures i < |ws|
  {
    if k in ws[|ws| - 1].deltas then |ws| - 1 else LastTouch(ws[..|ws| - 1], k)
  }

  // ------------------------------------------------------------------
  // Writing it as a set
  // ------------------------------------------------------------------

  function Totals(ws: seq<Draft>): Deltas {
    map k | k in TouchedBy(ws) :: Wrap(IntSum(Steps(ws, k)))
  }

  function LastSeqs(ws: seq<Draft>, first: nat): map<string, nat> {
    map k | k in TouchedBy(ws) :: first + LastTouch(ws, k)
  }

  /** Replays the running balance, from the balance before the batch. */
  predicate PrefixLow(row: AccountRow, base: int, steps: seq<i64>) {
    steps != [] &&
    (PrefixLow(row, base, steps[..|steps| - 1]) || Low(row, Wrap(base + IntSum(steps))))
  }

  function IdsOf(ws: seq<Draft>): set<nat> {
    if ws == [] then {} else IdsOf(ws[..|ws| - 1]) + {ws[|ws| - 1].tx.id}
  }

  predicate DistinctIds(ws: seq<Draft>) {
    ws == [] || (DistinctIds(ws[..|ws| - 1]) && ws[|ws| - 1].tx.id !in IdsOf(ws[..|ws| - 1]))
  }

  function RowsFor(ws: seq<Draft>, first: nat): seq<Row> {
    if ws == [] then [] else RowsFor(ws[..|ws| - 1], first) + [Row(first + |ws| - 1, ws[|ws| - 1].tx)]
  }

  function KeysFor(ws: seq<Draft>, book: string, first: nat): map<BookKey, Rec> {
    if ws == [] then map[]
    else
      var w := ws[|ws| - 1];
      KeysFor(ws[..|ws| - 1], book, first)[(book, w.tx.key) := Rec(w.tx.id, first + |ws| - 1)]
  }

  /** The tables with the whole set written and these balances. */
  function Stored(t: Tables, book: string, ws: seq<Draft>, balances: map<string, BalanceRow>): Tables
    requires ws != []
  {
    var first := Counter(t, book) + 1;
    t.(counters := t.counters[book := first + |ws| - 1],
       balances := balances,
       byKey := t.byKey + KeysFor(ws, book, first),
       ids := t.ids + IdsOf(ws),
       rows := t.rows[book := RowsOf(t, book) + RowsFor(ws, first)])
  }

  /** Some account falls below its minimum on the way. */
  predicate AnyPrefixLow(t: Tables, ws: seq<Draft>, balances: map<string, BalanceRow>)
    requires TouchedBy(ws) <= t.accounts.Keys && TouchedBy(ws) <= balances.Keys
  {
    exists k :: k in TouchedBy(ws) && t.accounts[k].cfg.minBalance.Some?
                && PrefixLow(t.accounts[k], balances[k].balance - Totals(ws)[k], Steps(ws, k))
  }

  /** The prefix check and the row inserts, over these balances. */
  function WriteRows(t: Tables, book: string, ws: seq<Draft>, balances: map<string, BalanceRow>): Option<Tables>
    requires ws != [] && TouchedBy(ws) <= t.accounts.Keys && TouchedBy(ws) <= balances.Keys
  {
    if AnyPrefixLow(t, ws, balances) then None
    else if !DistinctIds(ws) || IdsOf(ws) * t.ids != {} then None
    else Some(Stored(t, book, ws, balances))
  }

  /** The range of sequence numbers and every balance are in range. */
  predicate Claims(t: Tables, book: string, ws: seq<Draft>) {
    InI64(Counter(t, book) + |ws|) && Fits(t, Totals(ws))
  }

  /** `write_set`. None rolls everything back. */
  function WriteSet(t: Tables, book: string, ws: seq<Draft>): Option<Tables>
    requires ws != [] && TouchedBy(ws) <= t.accounts.Keys
  {
    if !Claims(t, book, ws) then None
    else WriteRows(t, book, ws, Upsert(t, Totals(ws), LastSeqs(ws, Counter(t, book) + 1)))
  }

  function OutcomesOf(t: Tables, book: string, txs: seq<Transaction>): Option<seq<Outcome>> {
    if forall i :: 0 <= i < |txs| ==> (book, txs[i].key) in t.byKey then
      Some(seq(|txs|, i requires 0 <= i < |txs| && (book, txs[i].key) in t.byKey =>
        Outcome.Committed(t.byKey[(book, txs[i].key)])))
    else None
  }

  predicate Eligible(txs: seq<Transaction>) {
    txs != [] && !IsReserved(txs[0].book) && forall i :: 0 <= i < |txs| ==> txs[i].book == txs[0].book
  }

  lemma {:induction false} PlanTouches(t: Tables, book: string, txs: seq<Transaction>)
    requires PlanOf(t, book, txs).Some?
    ensures TouchedBy(PlanOf(t, book, txs).value.writes) <= t.accounts.Keys
  {
    if txs != [] {
      PlanTouches(t, book, txs[..|txs| - 1]);
      var ws := PlanOf(t, book, txs).value.writes;
      if ws != [] {
        assert ws[..|ws| - 1] + [ws[|ws| - 1]] == ws;
      }
    }
  }

  /** `try_commit_batch_fast`. None: nothing was written, run draft by draft. */
  function Fast(t: Tables, txs: seq<Transaction>): Option<(Tables, seq<Outcome>)> {
    if !Eligible(txs) then None
    else
      var book := txs[0].book;
      match PlanOf(t, book, txs)
      case None => None
      case Some(p) =>
        PlanTouches(t, book, txs);
        match (if p.writes == [] then Some(t) else WriteSet(t, book, p.writes))
        case None => None
        case Some(t') =>
          match OutcomesOf(t', book, txs)
          case None => None
          case Some(outs) => Some((t', outs))
  }

  /** `commit_batch_traced`. */
  function CommitBatch(t: Tables, txs: seq<Transaction>): (Tables, seq<Outcome>) {
    match Fast(t, txs)
    case Some(r) => r
    case None => PerDraft(t, txs)
  }

  // ------------------------------------------------------------------
  // Writing it draft by draft
  // ------------------------------------------------------------------

  /** The write set one draft at a time; None once a draft fails. */
  function Serial(t: Tables, ws: seq<Draft>): Option<Tables>
    requires TouchedBy(ws) <= t.accounts.Keys
    ensures Serial(t, ws).Some? ==> Serial(t, ws).value.accounts == t.accounts
  {
    if ws == [] then Some(t)
    else
      match Serial(t, ws[..|ws| - 1])
      case None => None
      case Some(t1) =>
        match WriteDraft(t1, ws[|ws| - 1].tx, ws[|ws| - 1].deltas)
        case Failed(_) => None
        case Wrote(t2) => Some(t2)
  }

  /** Every running balance of the account fits in 64 bits. */
  predicate PrefixesFit(base: int, steps: seq<i64>) {
    steps == [] || (PrefixesFit(base, steps[..|steps| - 1]) && InI64(base + IntSum(steps)))
  }

  /** No running balance of the account is below its minimum. */
  predicate PrefixesHigh(row: AccountRow, base: int, steps: seq<i64>) {
    steps == [] ||
    (PrefixesHigh(row, base, steps[..|steps| - 1]) && InI64(base + IntSum(steps)) && !Low(row, base + IntSum(steps)))
  }

  ghost predicate AllFit(t: Tables, ws: seq<Draft>) {
    forall k :: k in t.accounts ==> PrefixesFit(Raw(t.balances, k), Steps(ws, k))
  }

  ghost predicate AllHigh(t: Tables, ws: seq<Draft>) {
    forall k :: k in t.accounts ==> PrefixesHigh(t.accounts[k], Raw(t.balances, k), Steps(ws, k))
  }

  /** Each account's deltas add up in 64 bits. */
  ghost predicate TotalsFit(t: Tables, ws: seq<Draft>) {
    forall k :: k in t.accounts ==> InI64(IntSum(Steps(ws, k)))
  }

  function FinalAsset(t: Tables, k: string): string
    requires k in t.accounts
  {
    if k in t.balances then t.balances[k].asset else t.accounts[k].asset
  }

  /** An account's row after exactly these drafts, over the integers. */
  function FinalRow(t: Tables, ws: seq<Draft>, first: nat, k: string): BalanceRow
    requires TouchedBy(ws) <= t.accounts.Keys
  {
    if k in TouchedBy(ws) && InI64(Raw(t.balances, k) + IntSum(Steps(ws, k))) then
      BalanceRow(FinalAsset(t, k), Raw(t.balances, k) + IntSum(Steps(ws, k)), first + LastTouch(ws, k))
    else if k in t.balances then t.balances[k]
    else BalanceRow("", 0, 0)
  }

  function FinalBalances(t: Tables, ws: seq<Draft>, first: nat): (r: map<string, BalanceRow>)
    requires TouchedBy(ws) <= t.accounts.Keys
    ensures r.Keys == t.balances.Keys + TouchedBy(ws)
    ensures forall k :: k in r ==> r[k] == FinalRow(t, ws, first, k)
  {
    map k | k in t.balances.Keys + TouchedBy(ws) :: FinalRow(t, ws, first, k)
  }

  ghost predicate OneBook(ws: seq<Draft>, book: string) {
    forall i :: 0 <= i < |ws| ==> ws[i].tx.book == book
  }

  /** When the write set goes through draft by draft. */
  ghost predicate SerialOk(t: Tables, book: string, ws: seq<Draft>) {
    && InI64(Counter(t, book) + |ws|) && AllFit(t, ws) && AllHigh(t, ws)
    && DistinctIds(ws) && IdsOf(ws) * t.ids == {}
  }

  function SerialState(t: Tables, book: string, ws: seq<Draft>): Tables
    requires TouchedBy(ws) <= t.accounts.Keys
  {
    if ws == [] then t else Stored(t, book, ws, FinalBalances(t, ws, Counter(t, book) + 1))
  }
}
