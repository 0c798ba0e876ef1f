/**
 Double entry, conserved: what balanced posts keep true of a book. The balances
 of the accounts holding an asset always add up to zero; the lifetime debits and
 credits of an asset stay equal, capped sums included; and an account that a
 transaction touched meets its minimum balance. All of it holds over a list of
 postings, over a transaction, and over every batch of transactions the writer
 accepts against its projection.
 */
module Conservation {
  import opened LedgerTypes
  import opened AccountKeys
  import opened PostingIndexes
  import opened Books
  import opened Judgements
  import opened Batches
  import opened Histories
  import opened Posts

  // ------------------------------------------------------------------
  // Sums over accounts
  // ------------------------------------------------------------------

  ghost function SumOver(keys: set<string>, m: map<string, int>): int
    requires keys <= m.Keys
  {
    if keys == {} then 0
    else
      var k :| k in keys;
      m[k] + SumOver(keys - {k}, m)
  }

  lemma {:induction false} SumRemove(keys: set<string>, m: map<string, int>, k: string)
    requires keys <= m.Keys && k in keys
    ensures SumOver(keys, m) == m[k] + SumOver(keys - {k}, m)
    decreases |keys|
  {
    var j :| j in keys && SumOver(keys, m) == m[j] + SumOver(keys - {j}, m);
    if j != k {
      SumRemove(keys - {j}, m, k);
      SumRemove(keys - {k}, m, j);
      assert keys - {j} - {k} == keys - {k} - {j};
    }
  }

  lemma {:induction false} SumSame(keys: set<string>, a: map<string, int>, b: map<string, int>)
    requires keys <= a.Keys && keys <= b.Keys && forall k :: k in keys ==> a[k] == b[k]
    ensures SumOver(keys, a) == SumOver(keys, b)
    decreases |keys|
  {
    if keys != {} {
      var k :| k in keys && SumOver(keys, a) == a[k] + SumOver(keys - {k}, a);
      SumRemove(keys, b, k);
      SumSame(keys - {k}, a, b);
    }
  }

  /** Raw balances of the accounts that hold an asset. */
  ghost function Holdings(accounts: Accounts, asset: string): (m: map<string, int>)
    ensures forall k :: k in m <==> k in accounts && accounts[k].def.asset == asset
    ensures forall k :: k in m ==> m[k] == accounts[k].raw
  {
    map k | k in accounts && accounts[k].def.asset == asset :: accounts[k].raw as int
  }

  ghost function NetOf(accounts: Accounts, asset: string): int {
    SumOver(Holdings(accounts, asset).Keys, Holdings(accounts, asset))
  }

  lemma {:induction false} NetMoves(a: Accounts, b: Accounts, k: string, asset: string)
    requires k in a && k in b && b == a[k := b[k]] && b[k].def == a[k].def
    ensures NetOf(b, asset) == NetOf(a, asset) + (if a[k].def.asset == asset then b[k].raw - a[k].raw else 0)
  {
    var x, y := Holdings(a, asset), Holdings(b, asset);
    assert x.Keys == y.Keys;
    if a[k].def.asset == asset {
      SumRemove(x.Keys, x, k);
      SumRemove(y.Keys, y, k);
      SumSame(x.Keys - {k}, x, y);
    } else {
      SumSame(x.Keys, x, y);
    }
  }

  lemma {:induction false} NetOpens(a: Accounts, k: string, added: AccountState, asset: string)
    requires k !in a && added.raw == 0
    ensures NetOf(a[k := added], asset) == NetOf(a, asset)
  {
    var x, y := Holdings(a, asset), Holdings(a[k := added], asset);
    if added.def.asset == asset {
      assert y.Keys - {k} == x.Keys;
      SumRemove(y.Keys, y, k);
      SumSame(x.Keys, x, y);
    } else {
      assert x.Keys == y.Keys;
      SumSame(x.Keys, x, y);
    }
  }

  // ------------------------------------------------------------------
  // Postings
  // ------------------------------------------------------------------

  /** Every posting names a known account of its asset. */
  ghost predicate Fitting(terms: Terms, ps: seq<Posting>) {
    forall i :: 0 <= i < |ps| ==> Key(ps[i].account) in terms && terms[Key(ps[i].account)].def.asset == ps[i].asset
  }

  lemma {:induction false} PostMoves(b: Book, p: Posting, txid: nat, seqno: nat, at: int, asset: string)
    requires PostOne(b, p, txid, seqno, at).Some? && Fitting(TermsOf(b.accounts), [p])
    ensures var b' := PostOne(b, p, txid, seqno, at).value;
      && TermsOf(b'.accounts) == TermsOf(b.accounts)
      && NetOf(b'.accounts, asset) == NetOf(b.accounts, asset) + (if p.asset == asset then Delta(p) else 0)
  {
    var k := Key(p.account);
    assert [p][0] == p;
    var b' := PostOne(b, p, txid, seqno, at).value;
    hide NetOf, Key;
    NetMoves(b.accounts, b'.accounts, k, asset);
  }

  /** Over a list of postings the net of an asset moves by its debits less its
      credits. */
  lemma {:induction false} PostAllMoves(b: Book, ps: seq<Posting>, txid: nat, seqno: nat, at: int, asset: string)
    requires PostAll(b, ps, txid, seqno, at).Some? && Fitting(TermsOf(b.accounts), ps)
    ensures var b' := PostAll(b, ps, txid, seqno, at).value;
      && TermsOf(b'.accounts) == TermsOf(b.accounts)
      && NetOf(b'.accounts, asset) == NetOf(b.accounts, asset) + SideSum(ps, asset, Debit) - SideSum(ps, asset, Credit)
  {
    hide PostOne, NetOf, TermsOf;
    if ps != [] {
      var n := |ps| - 1;
      PostAllMoves(b, ps[..n], txid, seqno, at, asset);
      PostMoves(PostAll(b, ps[..n], txid, seqno, at).value, ps[n], txid, seqno, at, asset);
    }
  }

  // ------------------------------------------------------------------
  // Lifetime sums
  // ------------------------------------------------------------------

  function SumFor(sums: Sums, asset: string): (i64, i64) {
    if asset in sums then sums[asset] else (0, 0)
  }

  function Capped(x: int): int {
    Min(x, I64_MAX)
  }

  /** What one posting adds to one side of an asset. */
  function SideOf(p: Posting, asset: string, side: Direction): int {
    if p.asset == asset && p.direction == side then p.minor as int else 0
  }

  lemma {:induction false} AddOneSum(sums: Sums, p: Posting, asset: string)
    requires p.minor > 0 && SumFor(sums, asset).0 >= 0 && SumFor(sums, asset).1 >= 0
    ensures var before, after := SumFor(sums, asset), SumFor(AddSum(sums, p), asset);
      && after.0 == Capped(before.0 + SideOf(p, asset, Debit)) >= 0
      && after.1 == Capped(before.1 + SideOf(p, asset, Credit)) >= 0
  {
  }

  lemma {:induction false} CappedAdds(x: int, a: int, b: int)
    requires b >= 0
    ensures Capped(Capped(x + a) + b) == Capped(x + (a + b))
  {
  }

  lemma {:induction false} SideSumLast(ps: seq<Posting>, asset: string)
    requires ps != []
    ensures var n := |ps| - 1;
      && SideSum(ps, asset, Debit) == SideSum(ps[..n], asset, Debit) + SideOf(ps[n], asset, Debit)
      && SideSum(ps, asset, Credit) == SideSum(ps[..n], asset, Credit) + SideOf(ps[n], asset, Credit)
  {
  }

  /** Lifetime sums add up the postings' sides, capped at the 64-bit maximum. */
  lemma {:induction false} SumsAddUp(sums: Sums, ps: seq<Posting>, asset: string)
    requires PositivePostings(ps) && SumFor(sums, asset).0 >= 0 && SumFor(sums, asset).1 >= 0
    ensures var before, after := SumFor(sums, asset), SumFor(AddSums(sums, ps), asset);
      && after.0 == Capped(before.0 + SideSum(ps, asset, Debit)) >= 0
      && after.1 == Capped(before.1 + SideSum(ps, asset, Credit)) >= 0
  {
    if ps != [] {
      var n := |ps| - 1;
      SumsAddUp(sums, ps[..n], asset);
      SideSumLast(ps, asset);
      hide SumFor, Capped, SideSum, SideOf, AddSum;
      AddOneSum(AddSums(sums, ps[..n]), ps[n], asset);
      SideOfPositive(ps[n], asset);
      CappedAdds(SumFor(sums, asset).0, SideSum(ps[..n], asset, Debit), SideOf(ps[n], asset, Debit));
      CappedAdds(SumFor(sums, asset).1, SideSum(ps[..n], asset, Credit), SideOf(ps[n], asset, Credit));
    }
  }

  lemma {:induction false} SideOfPositive(p: Posting, asset: string)
    requires p.minor > 0
    ensures SideOf(p, asset, Debit) >= 0 && SideOf(p, asset, Credit) >= 0
  {
  }

  // ------------------------------------------------------------------
  // What is conserved
  // ------------------------------------------------------------------

  /** Something was ever posted to the account. */
  predicate EverPosted(a: AccountState) {
    a.postings != EmptyIndex
  }

  ghost predicate MinimumsHold(b: Book) {
    forall k :: k in b.accounts && EverPosted(b.accounts[k]) ==> Meets(b.accounts[k].cfg, b.accounts[k].raw)
  }

  ghost predicate SumsAgree(b: Book) {
    forall asset :: SumFor(b.sums, asset).0 == SumFor(b.sums, asset).1 >= 0
  }

  ghost predicate NetsZero(b: Book) {
    forall asset :: NetOf(b.accounts, asset) == 0
  }

  /** Raw balances of each asset add up to zero; lifetime debits are lifetime
      credits, saturated or not; accounts posted to meet their minimum. */
  ghost predicate Conserved(b: Book) {
    NetsZero(b) && SumsAgree(b) && MinimumsHold(b)
  }

  lemma {:induction false} PostTouches(b: Book, p: Posting, txid: nat, seqno: nat, at: int, k: string)
    requires PostOne(b, p, txid, seqno, at).Some? && k != Key(p.account)
    ensures var b' := PostOne(b, p, txid, seqno, at).value;
      (k in b'.accounts <==> k in b.accounts) && (k in b.accounts ==> b'.accounts[k] == b.accounts[k])
  {
    hide Key, PostTo, AddSum;
  }

  lemma {:induction false} Untouched(b: Book, ps: seq<Posting>, txid: nat, seqno: nat, at: int, k: string)
    requires PostAll(b, ps, txid, seqno, at).Some? && k !in Touched(ps)
    ensures var b' := PostAll(b, ps, txid, seqno, at).value;
      (k in b'.accounts <==> k in b.accounts) && (k in b.accounts ==> b'.accounts[k] == b.accounts[k])
  {
    if ps != [] {
      var n := |ps| - 1;
      assert ps == ps[..n] + [ps[n]];
      assert Key(ps[n].account) in Touched(ps) && k !in Touched(ps[..n]);
      hide PostOne, Touched, Key;
      Untouched(b, ps[..n], txid, seqno, at, k);
      PostTouches(PostAll(b, ps[..n], txid, seqno, at).value, ps[n], txid, seqno, at, k);
    }
  }

  /** A transaction is sound for a book: balanced, for known accounts, and leaving
      no touched account below its minimum. */
  ghost predicate SoundFor(b: Book, ps: seq<Posting>) {
    && Balanced(ps) && Fitting(TermsOf(b.accounts), ps) && Touched(ps) <= b.accounts.Keys
    && Project(Raws(b.accounts), ps).Projected?
    && forall k :: k in Touched(ps) && k in Project(Raws(b.accounts), ps).raws && k in b.accounts ==>
         !BelowMinimum(b.accounts[k].cfg, Project(Raws(b.accounts), ps).raws[k])
  }

  lemma {:induction false} PostKeepsMinimums(b: Book, ps: seq<Posting>, txid: nat, seqno: nat, at: int)
    requires MinimumsHold(b) && SoundFor(b, ps) && PostAll(b, ps, txid, seqno, at).Some?
    ensures MinimumsHold(PostAll(b, ps, txid, seqno, at).value)
  {
    var b' := PostAll(b, ps, txid, seqno, at).value;
    PostingProjects(b, ps, txid, seqno, at);
    hide PostAll, Project, Touched, Fitting, Balanced, BelowMinimum, EverPosted, Meets;
    forall k | k in b'.accounts && EverPosted(b'.accounts[k])
      ensures Meets(b'.accounts[k].cfg, b'.accounts[k].raw)
    {
      MinimumExactly(b'.accounts[k].cfg, b'.accounts[k].raw);
      assert TermsOf(b'.accounts)[k] == TermsOf(b.accounts)[k];
      if k in Touched(ps) {
        assert Raws(b'.accounts)[k] == b'.accounts[k].raw;
      } else {
        Untouched(b, ps, txid, seqno, at, k);
      }
    }
  }

  lemma {:induction false} AssetConserved(b: Book, ps: seq<Posting>, txid: nat, seqno: nat, at: int, asset: string)
    requires NetOf(b.accounts, asset) == 0 && SumFor(b.sums, asset).0 == SumFor(b.sums, asset).1 >= 0
    requires Fitting(TermsOf(b.accounts), ps) && Balanced(ps) && PostAll(b, ps, txid, seqno, at).Some?
    ensures var b' := PostAll(b, ps, txid, seqno, at).value;
      NetOf(b'.accounts, asset) == 0 && SumFor(b'.sums, asset).0 == SumFor(b'.sums, asset).1 >= 0
  {
    hide PostAll, NetOf, SumFor, SideSum, Fitting;
    PostAllMoves(b, ps, txid, seqno, at, asset);
    PostAllSums(b, ps, txid, seqno, at);
    SumsAddUp(b.sums, ps, asset);
  }

  /** A sound transaction conserves. */
  lemma {:induction false} PostConserves(b: Book, ps: seq<Posting>, txid: nat, seqno: nat, at: int)
    requires Conserved(b) && SoundFor(b, ps) && PostAll(b, ps, txid, seqno, at).Some?
    ensures Conserved(PostAll(b, ps, txid, seqno, at).value)
  {
    PostKeepsMinimums(b, ps, txid, seqno, at);
    var b' := PostAll(b, ps, txid, seqno, at).value;
    hide MinimumsHold, PostAll, Project, NetOf, SumFor, Balanced, Fitting;
    forall asset
      ensures NetOf(b'.accounts, asset) == 0
      ensures SumFor(b'.sums, asset).0 == SumFor(b'.sums, asset).1 >= 0
    {
      AssetConserved(b, ps, txid, seqno, at, asset);
    }
  }

  lemma {:induction false} OpenConserves(b: Book, def: AccountDef, cfg: AccountCfg, seqno: nat, at: int)
    requires Conserved(b)
    ensures Conserved(ApplyOpened(b, def, cfg, seqno, at))
  {
    var k := Key(def.id);
    hide NetOf, SumFor, Key;
    if k !in b.accounts {
      forall asset
        ensures NetOf(ApplyOpened(b, def, cfg, seqno, at).accounts, asset) == 0
      {
        NetOpens(b.accounts, k, AccountState(def, cfg, 0, 0, EmptyIndex), asset);
        assert NetOf(b.accounts, asset) == 0;
      }
    }
  }

  /** The event at hand is sound for the book it meets. */
  ghost predicate SoundEvent(b: Book, e: LedgerEvent) {
    e.TransactionPosted? ==> SoundFor(b, e.tx.postings)
  }

  lemma {:induction false} SameConserved(b: Book, b': Book)
    requires Conserved(b) && b'.accounts == b.accounts && b'.sums == b.sums
    ensures Conserved(b')
  {
    hide NetOf, SumFor;
  }

  lemma {:induction false} ApplyConserves(b: Book, p: Placed)
    requires Conserved(b) && SoundEvent(b, p.ev.event) && Apply(b, p).Some?
    ensures Conserved(Apply(b, p).value)
  {
    hide Conserved, SoundFor;
    match p.ev.event {
      case TransactionPosted(tx) =>
        PostConserves(b, tx.postings, tx.id, p.ev.seqno, p.ev.at);
        SameConserved(PostAll(b, tx.postings, tx.id, p.ev.seqno, p.ev.at).value, Apply(b, p).value);
      case AccountOpened(def, cfg) => OpenConserves(b, def, cfg, p.ev.seqno, p.ev.at);
      case AssetRegistered(_, _) => SameConserved(b, Apply(b, p).value);
    }
  }

  // ------------------------------------------------------------------
  // Batches
  // ------------------------------------------------------------------

  /** The commits of a batch come from the service: each is balanced. */
  ghost predicate ServiceJobs(jobs: seq<Job>) {
    forall i :: 0 <= i < |jobs| && jobs[i].Commit? ==> Balanced(jobs[i].tx.postings)
  }

  lemma {:induction false} FitsLater(terms: Terms, terms': Terms, ps: seq<Posting>)
    requires FirstMisfit(terms, ps).None? && Within(terms, terms')
    ensures Fitting(terms', ps) && Touched(ps) <= terms.Keys
  {
    MisfitFree(terms, ps);
    hide FirstMisfit, Touched;
    assert forall i :: 0 <= i < |ps| ==> ps[i] in ps;
  }

  /** Validated against the overlay, the same balances hold in any state the batch
      mirrors. */
  lemma {:induction false} ProjectsSame(overlay: Balances, all: Balances, ps: seq<Posting>)
    requires Within(overlay, all) && Touched(ps) <= overlay.Keys && Project(overlay, ps).Projected?
    ensures Project(all, ps).Projected? && forall k :: k in Touched(ps) ==>
      k in Project(overlay, ps).raws && k in Project(all, ps).raws && Project(all, ps).raws[k] == Project(overlay, ps).raws[k]
  {
    hide Project, Touched;
    ProjectLocally(overlay, all, ps);
    ProjectKeys(overlay, ps);
  }

  lemma {:induction false} NotViolator(terms: Terms, raws: Balances, touched: set<string>, k: string)
    requires Violators(terms, raws, touched) == map[] && k in touched && k in terms && k in raws
    ensures !BelowMinimum(terms[k].cfg, raws[k])
  {
    assert k !in Violators(terms, raws, touched);
  }

  lemma {:induction false} JudgedSound(terms: Terms, overlay: Balances, tx: Transaction)
    requires Judge(terms, overlay, tx).Accept?
    ensures FirstMisfit(terms, tx.postings).None?
    ensures overlay.Keys == terms.Keys ==> Project(overlay, tx.postings).Projected?
    ensures Project(overlay, tx.postings).Projected? ==>
      Violators(terms, Project(overlay, tx.postings).raws, Touched(tx.postings)) == map[]
  {
    hide FirstMisfit, Project, Violators, Touched;
  }

  /** What validation accepts is sound for the state the batch has reached. */
  lemma {:induction false} AcceptedSound(b: Book, acc: Batch, after: Book, tx: Transaction)
    requires WellFormed(b, acc) && Mirrors(b, acc, after) && Balanced(tx.postings)
    requires Judge(TermsOf(b.accounts), Overlay(b, acc.raw), tx).Accept?
    ensures SoundFor(after, tx.postings)
  {
    var terms, overlay, ps := TermsOf(b.accounts), Overlay(b, acc.raw), tx.postings;
    assert Within(terms, TermsOf(after.accounts)) && Within(overlay, Raws(after.accounts));
    assert overlay.Keys == terms.Keys;
    JudgedSound(terms, overlay, tx);
    FitsLater(terms, TermsOf(after.accounts), ps);
    hide Judge, Project, Violators, FirstMisfit, Touched, Fitting, Balanced, WellFormed, BelowMinimum;
    ProjectsSame(overlay, Raws(after.accounts), ps);
    assert Touched(ps) <= after.accounts.Keys by { WithinKeys(terms, TermsOf(after.accounts)); }
    forall k | k in Touched(ps)
      ensures !BelowMinimum(after.accounts[k].cfg, Project(Raws(after.accounts), ps).raws[k])
    {
      NotViolator(terms, Project(overlay, ps).raws, Touched(ps), k);
      assert TermsOf(after.accounts)[k] == terms[k];
    }
  }

  lemma {:induction false} WithinKeys<V>(a: map<string, V>, b: map<string, V>)
    requires Within(a, b)
    ensures a.Keys <= b.Keys
  {
  }

  /** The event a job stages is sound for the state the batch has reached. */
  lemma {:induction false} StagedSound(b: Book, acc: Batch, after: Book, job: Job, now: int)
    requires WellFormed(b, acc) && Mirrors(b, acc, after) && (job.Commit? ==> Balanced(job.tx.postings))
    requires |ClassifyOne(b, acc, job, now).staged| == |acc.staged| + 1
    ensures SoundEvent(after, ClassifyOne(b, acc, job, now).staged[|acc.staged|].event)
  {
    hide WellFormed, Mirrors, Judge, Overlay, Seeded, Project, SoundFor, Balanced;
    if job.Commit? {
      AcceptedSound(b, acc, after, job.tx) by { StagedWasAccepted(b, acc, job.tx, now); }
    }
  }

  lemma {:induction false} StagedWasAccepted(b: Book, acc: Batch, tx: Transaction, now: int)
    requires |ClassifyCommit(b, acc, tx, now).staged| == |acc.staged| + 1
    ensures Judge(TermsOf(b.accounts), Overlay(b, acc.raw), tx).Accept?
  {
    hide Judge, Overlay, Seeded, Project;
  }

  /** Replaying any front of these events leaves a conserving book. */
  ghost predicate ConservesAlong(b: Book, pl: seq<Placed>) {
    forall n :: 0 <= n <= |pl| ==> Replay(b, pl[..n]).Some? && Conserved(Replay(b, pl[..n]).value)
  }

  lemma {:induction false} AlongNext(b: Book, pl: seq<Placed>, n: nat)
    requires |pl| == n + 1 && ConservesAlong(b, pl[..n])
    requires SoundEvent(Replay(b, pl[..n][..n]).value, pl[n].ev.event) && Replay(b, pl).Some?
    ensures ConservesAlong(b, pl)
  {
    assert pl[..n][..n] == pl[..n];
    hide Conserved, SoundEvent, Apply;
    ApplyConserves(Replay(b, pl[..n]).value, pl[n]);
    assert pl[..n + 1] == pl;
    forall m | 0 <= m <= |pl|
      ensures Replay(b, pl[..m]).Some? && Conserved(Replay(b, pl[..m]).value)
    {
      if m <= n {
        assert pl[..n][..m] == pl[..m];
      }
    }
  }

  /** Over a batch of balanced commits, from a conserving book, every event along
      the way leaves a conserving book. */
  lemma {:induction false} BatchConserves(b: Book, jobs: seq<Job>, now0: int, nows: seq<int>, pl: seq<Placed>)
    requires |nows| == |jobs| && Conserved(b) && ServiceJobs(jobs)
    requires Places(pl, Classify(b, jobs, now0, nows).staged)
    ensures ConservesAlong(b, pl)
  {
    hide Conserved, WellFormed, Mirrors, Apply, ClassifyOne, SoundEvent;
    if jobs == [] {
      assert pl[..0] == [];
    } else {
      var n := |jobs| - 1;
      var acc, acc' := Classify(b, jobs[..n], now0, nows[..n]), Classify(b, jobs, now0, nows);
      StagedGrow(b, jobs, now0, nows);
      var m := |acc.staged|;
      assert Places(pl[..m], acc.staged);
      BatchConserves(b, jobs[..n], now0, nows[..n], pl[..m]);
      StagedApply(b, jobs[..n], now0, nows[..n], pl[..m]);
      StagedApply(b, jobs, now0, nows, pl);
      var pos := if |pl| > m then pl[m].pos else (0, 0);
      ClassifyStep(b, acc, Replay(b, pl[..m]).value, jobs[n], nows[n], pos);
      if |pl| > m {
        StagedSound(b, acc, Replay(b, pl[..m]).value, jobs[n], nows[n]);
        assert pl[..m][..m] == pl[..m];
        AlongNext(b, pl, m);
      } else {
        assert pl[..m] == pl;
      }
    }
  }
}
