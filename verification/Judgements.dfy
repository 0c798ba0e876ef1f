/** When a transaction is accepted, said over the integers: sums of its postings on
    top of the balances before it, and the accounts' minimums. */
module Judgements {
  import opened LedgerTypes
  import opened AccountKeys
  import opened Books

  // ------------------------------------------------------------------
  // The conditions
  // ------------------------------------------------------------------

  /** What the postings move on one account: debits up, credits down. */
  function Net(ps: seq<Posting>, k: string): int {
    if ps == [] then 0
    else
      var p := ps[|ps| - 1];
      var minor: int := p.minor;
      Net(ps[..|ps| - 1], k) + (if Key(p.account) != k then 0 else if p.direction == Debit then minor else -minor)
  }

  ghost predicate GoodPosting(terms: Terms, p: Posting) {
    Key(p.account) in terms && terms[Key(p.account)].def.asset == p.asset
  }

  /** Every posting names an account of the book, in the account's own asset. */
  ghost predicate WellPosted(terms: Terms, ps: seq<Posting>) {
    forall i :: 0 <= i < |ps| ==> GoodPosting(terms, ps[i])
  }

  /** After posting i its account's balance is still a 64-bit number. */
  ghost predicate RunsTo(raws: map<string, int>, ps: seq<Posting>, i: nat)
    requires i < |ps|
  {
    var k := Key(ps[i].account);
    k in raws ==> I64_MIN <= raws[k] + Net(ps[..i + 1], k) <= I64_MAX
  }

  ghost predicate InRange(raws: map<string, int>, ps: seq<Posting>) {
    forall i :: 0 <= i < |ps| ==> RunsTo(raws, ps, i)
  }

  ghost predicate PostedTo(ps: seq<Posting>, k: string) {
    exists i :: 0 <= i < |ps| && Key(ps[i].account) == k
  }

  /** The account would end below its minimum. */
  ghost predicate FallsShort(terms: Terms, raws: map<string, int>, ps: seq<Posting>, k: string) {
    PostedTo(ps, k) && k in terms && k in raws && !Meets(terms[k].cfg, raws[k] + Net(ps, k))
  }

  /** The minimum missed, and what the balance would have been. */
  ghost predicate Shortfall(terms: Terms, raws: map<string, int>, ps: seq<Posting>, k: string, named: (i64, i64)) {
    && k in terms && k in raws && terms[k].cfg.minBalance == Some(named.0)
    && named.1 == Seen(terms[k].cfg, raws[k] + Net(ps, k))
  }

  ghost predicate Reserved(book: string) {
    |book| >= 1 && book[0] == '_'
  }

  /** What a transaction needs to be accepted. */
  ghost predicate Acceptable(terms: Terms, raws: map<string, int>, tx: Transaction) {
    && !Reserved(tx.book) && WellPosted(terms, tx.postings) && InRange(raws, tx.postings)
    && forall k :: !FallsShort(terms, raws, tx.postings, k)
  }

  // ------------------------------------------------------------------
  // The checks meet them
  // ------------------------------------------------------------------

  lemma {:induction false} MinimumExactly(cfg: AccountCfg, raw: i64)
    ensures BelowMinimum(cfg, raw) <==> !Meets(cfg, raw)
    ensures Effective(raw, cfg.normalSide) == Seen(cfg, raw)
  {
  }

  /** Read over all integers a minimum is met in the same cases but one: a credit-normal
      account at the lowest 64-bit total, whose negation wraps, is refused. */
  lemma {:induction false} MinimumOverIntegers(cfg: AccountCfg, total: i64, m: i64)
    requires cfg.minBalance == Some(m)
    ensures var seen: int := if cfg.normalSide == Some(Credit) then -(total as int) else total;
      (Meets(cfg, total) <==> m <= seen) <==> !(cfg.normalSide == Some(Credit) && total == I64_MIN && m > I64_MIN)
  {
  }

  /** The account check stops at the first bad posting and says what is wrong. */
  ghost predicate BadAt(terms: Terms, ps: seq<Posting>, i: nat, v: Verdict) {
    && i < |ps| && !GoodPosting(terms, ps[i]) && (forall j :: 0 <= j < i ==> GoodPosting(terms, ps[j]))
    && v == var k := Key(ps[i].account);
            if k !in terms then UnknownAccount(ps[i].account)
            else AssetMismatch(ps[i].account, terms[k].def.asset, ps[i].asset)
  }

  lemma {:induction false} MisfitExactly(terms: Terms, ps: seq<Posting>) returns (i: nat)
    ensures FirstMisfit(terms, ps).None? <==> WellPosted(terms, ps)
    ensures FirstMisfit(terms, ps).Some? ==> BadAt(terms, ps, i, FirstMisfit(terms, ps).value)
  {
    hide Key;
    i := 0;
    if ps != [] {
      assert ps == [ps[0]] + ps[1..];
      if GoodPosting(terms, ps[0]) {
        var j := MisfitExactly(terms, ps[1..]);
        i := j + 1;
        if WellPosted(terms, ps[1..]) {
          forall n | 0 < n < |ps|
            ensures GoodPosting(terms, ps[n])
          {
            assert GoodPosting(terms, ps[1..][n - 1]);
          }
        }
      }
    }
  }

  /** The first posting that leaves 64 bits. */
  ghost predicate OverAt(raws: map<string, int>, ps: seq<Posting>, i: nat, k: string) {
    && i < |ps| && Key(ps[i].account) == k && !RunsTo(raws, ps, i)
    && forall j :: 0 <= j < i ==> RunsTo(raws, ps, j)
  }

  lemma {:induction false} RunsFront(raws: map<string, int>, ps: seq<Posting>, i: nat)
    requires i < |ps| - 1
    ensures RunsTo(raws, ps[..|ps| - 1], i) <==> RunsTo(raws, ps, i)
  {
    hide Net, Key;
    assert ps[..|ps| - 1][..i + 1] == ps[..i + 1];
  }

  /** What projecting the postings comes to: the sums added, or the first posting that
      does not fit. */
  ghost predicate Projects(raws: Balances, ps: seq<Posting>, p: Projection, i: nat) {
    match p
    case Projected(r) => InRange(raws, ps) && r.Keys == raws.Keys && forall k :: k in raws ==> r[k] == raws[k] + Net(ps, k)
    case Overflows(k) => OverAt(raws, ps, i, k)
    case Unseeded(_) => false
  }

  lemma {:induction false} ProjectLast(raws: Balances, ps: seq<Posting>, r: Balances)
    requires ps != [] && Key(ps[|ps| - 1].account) in raws
    requires Projects(raws, ps[..|ps| - 1], Projected(r), 0)
    ensures Projects(raws, ps, ProjectOne(r, ps[|ps| - 1]), |ps| - 1)
  {
    hide Key;
    var n := |ps| - 1;
    assert ps[..n + 1] == ps;
    forall j | 0 <= j < n
      ensures RunsTo(raws, ps, j)
    {
      RunsFront(raws, ps, j);
    }
  }

  lemma {:induction false} OverStays(raws: Balances, ps: seq<Posting>, i: nat, k: string)
    requires ps != [] && OverAt(raws, ps[..|ps| - 1], i, k)
    ensures OverAt(raws, ps, i, k)
  {
    hide Key, RunsTo;
    forall j | 0 <= j < |ps| - 1
      ensures RunsTo(raws, ps[..|ps| - 1], j) <==> RunsTo(raws, ps, j)
    {
      RunsFront(raws, ps, j);
    }
  }

  /** Projecting is adding the sums, as far as they stay in 64 bits. */
  lemma {:induction false} ProjectExactly(raws: Balances, ps: seq<Posting>) returns (i: nat)
    requires forall n :: 0 <= n < |ps| ==> Key(ps[n].account) in raws
    ensures Projects(raws, ps, Project(raws, ps), i)
  {
    hide Key, OverAt, ProjectOne;
    i := 0;
    if ps != [] {
      var n := |ps| - 1;
      i := ProjectExactly(raws, ps[..n]);
      match Project(raws, ps[..n]) {
        case Projected(r) =>
          ProjectLast(raws, ps, r);
          i := n;
        case Overflows(k) =>
          OverStays(raws, ps, i, k);
        case Unseeded(_) =>
      }
    }
  }

  lemma {:induction false} TouchedIs(ps: seq<Posting>, k: string)
    ensures k in Touched(ps) <==> PostedTo(ps, k)
  {
    hide Key;
    if k in Touched(ps) {
      var p :| p in ps && Key(p.account) == k;
      var i :| 0 <= i < |ps| && ps[i] == p;
    }
    if PostedTo(ps, k) {
      var i :| 0 <= i < |ps| && Key(ps[i].account) == k;
      assert ps[i] in ps;
    }
  }

  /** The accounts named are exactly those that fall short. */
  lemma {:induction false} ViolatorsExactly(terms: Terms, raws: Balances, after: Balances, ps: seq<Posting>, k: string)
    requires after.Keys == raws.Keys && forall k :: k in raws ==> after[k] == raws[k] + Net(ps, k)
    ensures k in Violators(terms, after, Touched(ps)) <==> FallsShort(terms, raws, ps, k)
    ensures k in Violators(terms, after, Touched(ps)) ==>
      Shortfall(terms, raws, ps, k, Violators(terms, after, Touched(ps))[k])
  {
    hide Net, Touched, PostedTo;
    TouchedIs(ps, k);
    if k in terms && k in raws {
      MinimumExactly(terms[k].cfg, after[k]);
    }
    hide BelowMinimum, Meets, Effective, Seen;
  }

  /** Which verdict a transaction gets, each with what it names: the first check that
      fails in the order book, accounts, range, minimums; and none fails exactly for
      an acceptable one. */
  ghost predicate Deserves(terms: Terms, raws: map<string, int>, tx: Transaction, v: Verdict, i: nat) {
    var ps := tx.postings;
    if Reserved(tx.book) then v == ReservedBook(tx.book)
    else if !WellPosted(terms, ps) then BadAt(terms, ps, i, v)
    else if !InRange(raws, ps) then v.Overflow? && OverAt(raws, ps, i, v.key)
    else if exists k :: FallsShort(terms, raws, ps, k) then
      && v.BelowMin? && (forall k :: k in v.violators <==> FallsShort(terms, raws, ps, k))
      && (forall k :: k in v.violators ==> Shortfall(terms, raws, ps, k, v.violators[k]))
    else v == Accept
  }

  lemma {:induction false} JudgedExactly(terms: Terms, raws: Balances, tx: Transaction) returns (i: nat)
    requires terms.Keys <= raws.Keys
    ensures Deserves(terms, raws, tx, Judge(terms, raws, tx), i)
    ensures Judge(terms, raws, tx).Accept? <==> Acceptable(terms, raws, tx)
  {
    var ps := tx.postings;
    i := MisfitExactly(terms, ps);
    hide FirstMisfit, Violators, Project, GoodPosting, RunsTo, FallsShort, Touched, Shortfall;
    if !Reserved(tx.book) && WellPosted(terms, ps) {
      i := Ranged(terms, raws, tx);
    }
  }

  lemma {:induction false} PostedKnown(terms: Terms, raws: Balances, ps: seq<Posting>)
    requires WellPosted(terms, ps) && terms.Keys <= raws.Keys
    ensures forall n :: 0 <= n < |ps| ==> Key(ps[n].account) in raws
  {
    hide Key;
    forall n | 0 <= n < |ps|
      ensures Key(ps[n].account) in raws
    {
      assert GoodPosting(terms, ps[n]);
    }
  }

  lemma {:induction false} Ranged(terms: Terms, raws: Balances, tx: Transaction) returns (i: nat)
    requires terms.Keys <= raws.Keys && !Reserved(tx.book) && WellPosted(terms, tx.postings)
    ensures Deserves(terms, raws, tx, Judge(terms, raws, tx), i)
    ensures Judge(terms, raws, tx).Accept? <==> Acceptable(terms, raws, tx)
  {
    hide FirstMisfit, Violators, WellPosted, RunsTo, FallsShort, Touched, Net, Key, InRange, OverAt, Project,
      BadAt, Shortfall;
    var ps := tx.postings;
    var j := MisfitExactly(terms, ps);
    PostedKnown(terms, raws, ps);
    i := ProjectExactly(raws, ps);
    match Project(raws, ps) {
      case Projected(after) => Minimums(terms, raws, tx, after);
      case Overflows(k) => OverIsOut(raws, ps, i, k);
    }
  }

  lemma {:induction false} OverIsOut(raws: Balances, ps: seq<Posting>, i: nat, k: string)
    requires OverAt(raws, ps, i, k)
    ensures !InRange(raws, ps)
  {
    hide RunsTo;
  }

  lemma {:induction false} Minimums(terms: Terms, raws: Balances, tx: Transaction, after: Balances)
    requires terms.Keys <= raws.Keys && !Reserved(tx.book) && WellPosted(terms, tx.postings) && InRange(raws, tx.postings)
    requires FirstMisfit(terms, tx.postings).None? && Project(raws, tx.postings) == Projected(after)
    requires after.Keys == raws.Keys && forall k :: k in raws ==> after[k] == raws[k] + Net(tx.postings, k)
    ensures Deserves(terms, raws, tx, Judge(terms, raws, tx), 0)
    ensures Judge(terms, raws, tx).Accept? <==> Acceptable(terms, raws, tx)
  {
    var ps := tx.postings;
    hide FirstMisfit, Violators, Project, WellPosted, FallsShort, Touched, Net, Key, InRange, Shortfall;
    forall k
      ensures k in Violators(terms, after, Touched(ps)) <==> FallsShort(terms, raws, ps, k)
      ensures k in Violators(terms, after, Touched(ps)) ==>
        Shortfall(terms, raws, ps, k, Violators(terms, after, Touched(ps))[k])
    {
      ViolatorsExactly(terms, raws, after, ps, k);
    }
  }
}
