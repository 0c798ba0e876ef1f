/**
 What an account's chunked index holds, said from the log alone: its postings in
 order, each with the running balance.
 */
module AccountHistories {
  import opened LedgerTypes
  import opened AccountKeys
  import opened PostingIndexes
  import opened Books
  import opened Batches
  import opened Histories

  datatype Movement = Movement(seqno: nat, at: int, txid: nat, minor: i64, direction: Direction)

  function MovementOf(e: Entry): Movement {
    Movement(e.seqno, e.at, e.txid, e.minor, e.direction)
  }

  function Signed(m: Movement): int {
    if m.direction == Debit then m.minor as int else 0 - (m.minor as int)
  }

  function Sum(ms: seq<Movement>): int {
    if ms == [] then 0 else Sum(ms[..|ms| - 1]) + Signed(ms[|ms| - 1])
  }

  /** What was posted on one side. */
  function Total(ms: seq<Movement>, side: Direction): int {
    if ms == [] then 0
    else
      var m := ms[|ms| - 1];
      var minor: int := m.minor;
      Total(ms[..|ms| - 1], side) + (if m.direction == side then minor else 0)
  }

  lemma {:induction false} SumIsTotals(ms: seq<Movement>)
    ensures Sum(ms) == Total(ms, Debit) - Total(ms, Credit)
  {
    if ms != [] {
      SumIsTotals(ms[..|ms| - 1]);
    }
  }

  // ------------------------------------------------------------------
  // From the log
  // ------------------------------------------------------------------

  /** The account with this key has been opened. */
  predicate Opened(log: seq<Placed>, k: string) {
    log != [] &&
    (Opened(log[..|log| - 1], k) ||
     (var e := log[|log| - 1].ev.event; e.AccountOpened? && Key(e.def.id) == k))
  }

  /** The settings the account was first opened with. */
  function OpenedAs(log: seq<Placed>, k: string): Option<Term> {
    if log == [] then None
    else
      var front, e := OpenedAs(log[..|log| - 1], k), log[|log| - 1].ev.event;
      if front.None? && e.AccountOpened? && Key(e.def.id) == k then Some(Term(e.def, e.cfg)) else front
  }

  function MovesIn(ps: seq<Posting>, k: string, txid: nat, seqno: nat, at: int): seq<Movement> {
    if ps == [] then []
    else
      var p := ps[|ps| - 1];
      MovesIn(ps[..|ps| - 1], k, txid, seqno, at) +
      (if Key(p.account) == k then [Movement(seqno, at, txid, p.minor, p.direction)] else [])
  }

  /** The account's postings in the log, from when it was opened. */
  function Movements(log: seq<Placed>, k: string): seq<Movement> {
    if log == [] then []
    else
      var front, e := log[..|log| - 1], log[|log| - 1].ev;
      Movements(front, k) +
      (if e.event.TransactionPosted? && Opened(front, k) then
         MovesIn(e.event.tx.postings, k, e.event.tx.id, e.seqno, e.at)
       else [])
  }

  // ------------------------------------------------------------------
  // The index holds it
  // ------------------------------------------------------------------

  ghost predicate EntryOk(es: seq<Entry>, ms: seq<Movement>, i: nat)
    requires i < |es| == |ms|
  {
    MovementOf(es[i]) == ms[i] && es[i].rawAfter == Sum(ms[..i + 1])
  }

  /** The account's fields after exactly these postings. */
  ghost predicate HistoryOk(a: AccountState, ms: seq<Movement>) {
    && PostingIndexes.Valid(a.postings) && |Flat(a.postings)| == |ms|
    && (forall i :: 0 <= i < |ms| ==> EntryOk(Flat(a.postings), ms, i))
    && a.raw == Sum(ms)
    && a.updatedSeq == if ms == [] then 0 else ms[|ms| - 1].seqno
  }

  lemma PostToHistory(a: AccountState, ms: seq<Movement>, p: Posting, txid: nat, seqno: nat, at: int)
    requires HistoryOk(a, ms) && Moved(a.raw, p).Some?
    ensures var m := Movement(seqno, at, txid, p.minor, p.direction);
      HistoryOk(PostTo(a, p, Moved(a.raw, p).value, txid, seqno, at), ms + [m])
  {
    var m := Movement(seqno, at, txid, p.minor, p.direction);
    var e := Entry(seqno, at, txid, p.minor, p.direction, Moved(a.raw, p).value);
    PushAppends(a.postings, e);
    hide PostingIndexes.Valid, Flat, Push;
    assert (ms + [m])[..|ms|] == ms && (ms + [m])[..|ms| + 1] == ms + [m];
    var es, es' := Flat(a.postings), Flat(a.postings) + [e];
    forall i | 0 <= i <= |ms|
      ensures EntryOk(es', ms + [m], i)
    {
      if i < |ms| {
        assert EntryOk(es, ms, i);
        assert (ms + [m])[..i + 1] == ms[..i + 1];
      }
    }
  }

  lemma {:induction false} PostAllHistory(b: Book, ps: seq<Posting>, txid: nat, seqno: nat, at: int, k: string,
                                          ms: seq<Movement>)
    requires PostAll(b, ps, txid, seqno, at).Some? && k in b.accounts && HistoryOk(b.accounts[k], ms)
    ensures var b' := PostAll(b, ps, txid, seqno, at).value;
      k in b'.accounts && HistoryOk(b'.accounts[k], ms + MovesIn(ps, k, txid, seqno, at))
  {
    hide HistoryOk;
    if ps == [] {
      assert ms + [] == ms;
    } else {
      var n := |ps| - 1;
      PostAllHistory(b, ps[..n], txid, seqno, at, k, ms);
      var b1 := PostAll(b, ps[..n], txid, seqno, at).value;
      var ms1 := ms + MovesIn(ps[..n], k, txid, seqno, at);
      if Key(ps[n].account) == k {
        PostToHistory(b1.accounts[k], ms1, ps[n], txid, seqno, at);
        var m := Movement(seqno, at, txid, ps[n].minor, ps[n].direction);
        assert ms1 + [m] == ms + MovesIn(ps, k, txid, seqno, at);
      } else {
        assert MovesIn(ps[..n], k, txid, seqno, at) + [] == MovesIn(ps[..n], k, txid, seqno, at);
      }
    }
  }

  lemma {:induction false} PostAllSameAccounts(b: Book, ps: seq<Posting>, txid: nat, seqno: nat, at: int)
    requires PostAll(b, ps, txid, seqno, at).Some?
    ensures PostAll(b, ps, txid, seqno, at).value.accounts.Keys == b.accounts.Keys
  {
    if ps != [] {
      PostAllSameAccounts(b, ps[..|ps| - 1], txid, seqno, at);
    }
  }

  /** Applying an event moves each account's history by its own postings. */
  lemma ApplyHistory(b: Book, p: Placed, k: string, ms: seq<Movement>)
    requires Apply(b, p).Some? && (k in b.accounts ==> HistoryOk(b.accounts[k], ms)) && (k !in b.accounts ==> ms == [])
    ensures var b', e := Apply(b, p).value, p.ev.event;
      && (k in b'.accounts <==> k in b.accounts || (e.AccountOpened? && Key(e.def.id) == k))
      && (k in b'.accounts ==>
           HistoryOk(b'.accounts[k], ms + if e.TransactionPosted? && k in b.accounts then
                                            MovesIn(e.tx.postings, k, e.tx.id, p.ev.seqno, p.ev.at) else []))
  {
    assert ms + [] == ms;
    match p.ev.event {
      case TransactionPosted(tx) =>
        hide HistoryOk;
        PostAllSameAccounts(b, tx.postings, tx.id, p.ev.seqno, p.ev.at);
        if k in b.accounts {
          PostAllHistory(b, tx.postings, tx.id, p.ev.seqno, p.ev.at, k, ms);
        }
      case AccountOpened(def, cfg) =>
        assert Flat(EmptyIndex) == [];
      case AssetRegistered(_, _) =>
    }
  }

  /** An account exists in the replayed book exactly when the log opened it, and
      its history is its postings in the log. */
  lemma {:induction false} ReplayHistory(log: seq<Placed>, k: string)
    requires Replay(EmptyBook, log).Some?
    ensures var b := Replay(EmptyBook, log).value;
      && (k in b.accounts <==> Opened(log, k))
      && (k in b.accounts ==> HistoryOk(b.accounts[k], Movements(log, k)))
      && (k !in b.accounts ==> Movements(log, k) == [])
  {
    hide HistoryOk, Apply, MovesIn;
    if log != [] {
      var n := |log| - 1;
      ReplayHistory(log[..n], k);
      ApplyHistory(Replay(EmptyBook, log[..n]).value, log[n], k, Movements(log[..n], k));
    }
  }

  lemma {:induction false} PostAllSameTerms(b: Book, ps: seq<Posting>, txid: nat, seqno: nat, at: int)
    requires PostAll(b, ps, txid, seqno, at).Some?
    ensures TermsOf(PostAll(b, ps, txid, seqno, at).value.accounts) == TermsOf(b.accounts)
  {
    if ps != [] {
      PostAllSameTerms(b, ps[..|ps| - 1], txid, seqno, at);
    }
  }

  /** Every account keeps the settings of its first opening. */
  lemma {:induction false} OpenedTerms(log: seq<Placed>, k: string)
    requires Replay(EmptyBook, log).Some?
    ensures var terms := TermsOf(Replay(EmptyBook, log).value.accounts);
      OpenedAs(log, k) == if k in terms then Some(terms[k]) else None
  {
    if log != [] {
      var n := |log| - 1;
      OpenedTerms(log[..n], k);
      match log[n].ev.event {
        case TransactionPosted(tx) =>
          PostAllSameTerms(Replay(EmptyBook, log[..n]).value, tx.postings, tx.id, log[n].ev.seqno, log[n].ev.at);
        case _ =>
      }
    }
  }

  // ------------------------------------------------------------------
  // Order
  // ------------------------------------------------------------------

  ghost predicate InOrder(ms: seq<Movement>) {
    forall i, j :: 0 <= i < j < |ms| ==> ms[i].seqno <= ms[j].seqno && ms[i].at <= ms[j].at
  }

  ghost predicate Bounded(ms: seq<Movement>, seqno: nat, at: int) {
    forall i :: 0 <= i < |ms| ==> 1 <= ms[i].seqno <= seqno && ms[i].at <= at
  }

  lemma {:induction false} MovesInStamped(ps: seq<Posting>, k: string, txid: nat, seqno: nat, at: int)
    ensures forall m :: m in MovesIn(ps, k, txid, seqno, at) ==> m.seqno == seqno && m.at == at && m.txid == txid
  {
    if ps != [] {
      MovesInStamped(ps[..|ps| - 1], k, txid, seqno, at);
    }
  }

  lemma {:induction false} MovementsOrdered(log: seq<Placed>, k: string)
    requires Ordered(log)
    ensures InOrder(Movements(log, k))
    ensures log != [] ==> Bounded(Movements(log, k), |log|, log[|log| - 1].ev.at)
    ensures log == [] ==> Movements(log, k) == []
  {
    if log != [] {
      var n := |log| - 1;
      var e := log[n].ev;
      var front := log[..n];
      assert Ordered(front);
      MovementsOrdered(front, k);
      var a := Movements(front, k);
      if e.event.TransactionPosted? && Opened(front, k) {
        var c := MovesIn(e.event.tx.postings, k, e.event.tx.id, e.seqno, e.at);
        MovesInStamped(e.event.tx.postings, k, e.event.tx.id, e.seqno, e.at);
        hide Movements, MovesIn, Opened;
        if n > 0 {
          assert log[n - 1].ev.at <= e.at;
        }
        LaterInOrder(a, c, n, e.at);
      }
    }
  }

  lemma LaterInOrder(a: seq<Movement>, c: seq<Movement>, n: nat, at: int)
    requires InOrder(a) && Bounded(a, n, at) && forall m :: m in c ==> m.seqno == n + 1 && m.at == at
    ensures InOrder(a + c) && Bounded(a + c, n + 1, at)
  {
    assert forall i :: 0 <= i < |c| ==> c[i] in c;
  }

  /** The flat index of a replayed account is sorted by sequence number and by
      time. */
  lemma HistorySorted(log: seq<Placed>, k: string)
    requires GoodLog(log) && k in Fold(log).accounts
    ensures var es := Flat(Fold(log).accounts[k].postings);
      && SortedBy(es, BySeq) && SortedBy(es, ByTime)
      && (forall i :: 0 <= i < |es| ==> 1 <= es[i].seqno <= |log|)
  {
    ReplayHistory(log, k);
    MovementsOrdered(log, k);
    var a, ms := Fold(log).accounts[k], Movements(log, k);
    hide Movements, Replay, Flat;
    forall i | 0 <= i < |ms|
      ensures MovementOf(Flat(a.postings)[i]) == ms[i]
    {
      assert EntryOk(Flat(a.postings), ms, i);
    }
  }
}
