/** The service's `post`: what a draft must satisfy to become a transaction. */
module Posts {
  import opened LedgerTypes
  import opened AccountKeys

  datatype PostingDraft = PostingDraft(account: string, asset: string, minor: i64, direction: Direction)

  datatype TransactionDraft = TransactionDraft(book: string, key: string, postings: seq<PostingDraft>, extra: string)

  datatype ApiError =
    | InvalidField(field: string)
    | InvalidAmount(amount: i64)
    | Unbalanced(asset: string, debit: i64, credit: i64)

  datatype Posted = Built(tx: Transaction) | Refused(err: ApiError)

  /** What the postings move on one side of one asset. */
  function SideSum(ps: seq<Posting>, asset: string, side: Direction): int {
    if ps == [] then 0
    else
      var p := ps[|ps| - 1];
      SideSum(ps[..|ps| - 1], asset, side) + (if p.asset == asset && p.direction == side then p.minor as int else 0)
  }

  function PostingFor(book: string, d: PostingDraft): Posting {
    Posting(AccountId(book, d.account), d.asset, d.minor, d.direction)
  }

  function PostingsFor(book: string, ds: seq<PostingDraft>): (ps: seq<Posting>)
    ensures |ps| == |ds| && forall i :: 0 <= i < |ps| ==> ps[i] == PostingFor(book, ds[i])
  {
    seq(|ds|, i requires 0 <= i < |ds| => PostingFor(book, ds[i]))
  }

  ghost predicate PositivePostings(ps: seq<Posting>) {
    forall i :: 0 <= i < |ps| ==> ps[i].minor > 0
  }

  /** Double entry: positive amounts, debits equal to credits asset by asset. */
  ghost predicate Balanced(ps: seq<Posting>) {
    PositivePostings(ps) && forall asset :: SideSum(ps, asset, Debit) == SideSum(ps, asset, Credit)
  }

  /** Everything `post` asks of a draft. */
  ghost predicate Postable(d: TransactionDraft) {
    var ps := PostingsFor(d.book, d.postings);
    && d.book != "" && !IsReserved(d.book) && d.key != "" && d.postings != []
    && (forall i :: 0 <= i < |d.postings| ==> d.postings[i].account != "")
    && Balanced(ps)
    && forall asset :: SideSum(ps, asset, Debit) <= I64_MAX
  }

  /** What a refusal may report: a fault the draft has, with its figures. */
  ghost predicate Faults(d: TransactionDraft, e: ApiError) {
    var ps := PostingsFor(d.book, d.postings);
    match e
    case InvalidField(field) =>
      || (field == "book" && (d.book == "" || IsReserved(d.book)))
      || (field == "idempotency_key" && d.key == "")
      || (field == "postings" && d.postings == [])
      || (field == "postings.account" && exists i :: 0 <= i < |d.postings| && d.postings[i].account == "")
    case InvalidAmount(amount) =>
      exists i :: 0 <= i < |ps| && ps[i].minor == amount &&
        (amount <= 0 || SideSum(ps[..i + 1], ps[i].asset, ps[i].direction) > I64_MAX)
    case Unbalanced(asset, debit, credit) =>
      SideSum(ps, asset, Debit) == debit && SideSum(ps, asset, Credit) == credit && debit != credit
  }

  lemma {:induction false} SideSumNext(ps: seq<Posting>, i: nat, asset: string, side: Direction)
    requires i < |ps|
    ensures SideSum(ps[..i + 1], asset, side) ==
      SideSum(ps[..i], asset, side) + (if ps[i].asset == asset && ps[i].direction == side then ps[i].minor as int else 0)
  {
    assert ps[..i + 1][..i] == ps[..i];
  }

  /** With positive amounts sums only grow. */
  lemma {:induction false} SideSumGrows(ps: seq<Posting>, i: nat, asset: string, side: Direction)
    requires i <= |ps| && PositivePostings(ps)
    ensures 0 <= SideSum(ps[..i], asset, side) <= SideSum(ps, asset, side)
    decreases |ps|
  {
    if ps != [] {
      var front := ps[..|ps| - 1];
      if i < |ps| {
        assert front[..i] == ps[..i];
        SideSumGrows(front, i, asset, side);
      } else {
        assert front[..|front|] == front && ps[..i] == ps;
        SideSumGrows(front, |front|, asset, side);
      }
    }
  }

  /** Debits and credits per asset seen so far. */
  type Totals = map<string, (i64, i64)>

  ghost predicate TotalsAre(totals: Totals, ps: seq<Posting>) {
    && (forall a :: a in totals ==> totals[a].0 == SideSum(ps, a, Debit) && totals[a].1 == SideSum(ps, a, Credit))
    && (forall a :: a !in totals ==> SideSum(ps, a, Debit) == 0 == SideSum(ps, a, Credit))
  }

  lemma {:induction false} TotalsNext(totals: Totals, ps: seq<Posting>, i: nat, totals': Totals)
    requires i < |ps| && TotalsAre(totals, ps[..i])
    requires var p, before := ps[i], (if ps[i].asset in totals then totals[ps[i].asset] else (0, 0));
      var after: (int, int) := if p.direction == Debit then (before.0 + p.minor, before.1 as int)
                               else (before.0 as int, before.1 + p.minor);
      InI64(after.0) && InI64(after.1) && totals' == totals[p.asset := (after.0, after.1)]
    ensures TotalsAre(totals', ps[..i + 1])
  {
    hide SideSum;
    forall a
      ensures SideSum(ps[..i + 1], a, Debit) ==
        SideSum(ps[..i], a, Debit) + (if ps[i].asset == a && ps[i].direction == Debit then ps[i].minor as int else 0)
      ensures SideSum(ps[..i + 1], a, Credit) ==
        SideSum(ps[..i], a, Credit) + (if ps[i].asset == a && ps[i].direction == Credit then ps[i].minor as int else 0)
    {
      SideSumNext(ps, i, a, Debit);
      SideSumNext(ps, i, a, Credit);
    }
  }

  /** A checked addition that fails shows a total that does not fit. */
  lemma {:induction false} TooMuch(d: TransactionDraft, i: nat)
    requires i < |d.postings| && forall j :: 0 <= j <= i ==> d.postings[j].minor > 0
    requires var ps := PostingsFor(d.book, d.postings);
      SideSum(ps[..i + 1], ps[i].asset, ps[i].direction) > I64_MAX
    ensures !Postable(d)
  {
    var ps := PostingsFor(d.book, d.postings);
    if PositivePostings(ps) {
      SideSumGrows(ps, i + 1, ps[i].asset, ps[i].direction);
    }
  }

  method CheckBalanced(totals: Totals) returns (e: Option<ApiError>)
    ensures e.None? <==> forall a :: a in totals ==> totals[a].0 == totals[a].1
    ensures e.Some? ==>
      && e.value.Unbalanced? && e.value.debit != e.value.credit
      && e.value.asset in totals && totals[e.value.asset] == (e.value.debit, e.value.credit)
  {
    var rest := totals.Keys;
    while rest != {}
      invariant rest <= totals.Keys
      invariant forall a :: a in totals && a !in rest ==> totals[a].0 == totals[a].1
      decreases |rest|
    {
      var a :| a in rest;
      var (debit, credit) := totals[a];
      if debit != credit {
        return Some(Unbalanced(a, debit, credit));
      }
      rest := rest - {a};
    }
    return None;
  }

  /** `checked_add` of one posting to its side of its asset's totals. */
  method AddToTotals(totals: Totals, ghost ps: seq<Posting>, ghost i: nat, p: Posting) returns (r: Totals, ok: bool)
    requires i < |ps| && ps[i] == p && TotalsAre(totals, ps[..i]) && p.minor > 0 && forall j :: 0 <= j < i ==> ps[j].minor > 0
    ensures ok ==> TotalsAre(r, ps[..i + 1])
    ensures !ok ==> SideSum(ps[..i + 1], p.asset, p.direction) > I64_MAX
  {
    hide TotalsAre, SideSum;
    var before: (i64, i64) := if p.asset in totals then totals[p.asset] else (0, 0);
    var side: i64 := if p.direction == Debit then before.0 else before.1;
    SideIs(totals, ps, i);
    if side + p.minor > I64_MAX {
      SideSumNext(ps, i, p.asset, p.direction);
      return totals, false;
    }
    SideSumGrowsTo(ps, i, p.asset, p.direction);
    r, ok := totals, true;
    if p.direction == Debit {
      r := r[p.asset := (before.0 + p.minor, before.1)];
    } else {
      r := r[p.asset := (before.0, before.1 + p.minor)];
    }
    TotalsNext(totals, ps, i, r);
  }

  /** Builds the postings and the per-asset totals, refusing the first bad one. */
  method BuildPostings(d: TransactionDraft) returns (e: Option<ApiError>, postings: seq<Posting>, totals: Totals)
    ensures e.Some? ==> !Postable(d) && Faults(d, e.value)
    ensures e.None? ==> postings == PostingsFor(d.book, d.postings) && PositivePostings(postings) && TotalsAre(totals, postings)
    ensures e.None? ==> forall i :: 0 <= i < |d.postings| ==> d.postings[i].account != ""
  {
    ghost var ps := PostingsFor(d.book, d.postings);
    e, postings, totals := None, [], map[];
    for i := 0 to |d.postings|
      invariant e.None? && postings == ps[..i] && TotalsAre(totals, ps[..i])
      invariant forall j :: 0 <= j < i ==> d.postings[j].account != "" && d.postings[j].minor > 0
    {
      hide TotalsAre, SideSum;
      var p := d.postings[i];
      if p.minor <= 0 {
        e := Some(InvalidAmount(p.minor));
        return;
      }
      if p.account == "" {
        e := Some(InvalidField("postings.account"));
        return;
      }
      var posting := PostingFor(d.book, p);
      var ok;
      totals, ok := AddToTotals(totals, ps, i, posting);
      if !ok {
        TooMuch(d, i);
        e := Some(InvalidAmount(p.minor));
        return;
      }
      postings := postings + [posting];
    }
    assert ps[..|ps|] == ps;
  }

  lemma {:induction false} SideIs(totals: Totals, ps: seq<Posting>, i: nat)
    requires i < |ps| && TotalsAre(totals, ps[..i])
    ensures var before := if ps[i].asset in totals then totals[ps[i].asset] else (0, 0);
      (if ps[i].direction == Debit then before.0 else before.1) == SideSum(ps[..i], ps[i].asset, ps[i].direction)
  {
  }

  lemma {:induction false} SideSumGrowsTo(ps: seq<Posting>, i: nat, asset: string, side: Direction)
    requires i < |ps| && forall j :: 0 <= j < i ==> ps[j].minor > 0
    ensures SideSum(ps[..i], asset, side) >= 0
  {
    SideSumGrows(ps[..i], i, asset, side);
    assert ps[..i][..i] == ps[..i];
  }

  /** A draft becomes a transaction exactly when it is postable, and then carries
      its postings in order, balanced asset by asset. */
  method Post(d: TransactionDraft, id: nat) returns (r: Posted)
    ensures r.Built? <==> Postable(d)
    ensures r.Refused? ==> Faults(d, r.err)
    ensures r.Built? ==>
      r.tx == Transaction(id, d.book, PostingsFor(d.book, d.postings), d.key, d.extra) && Balanced(r.tx.postings)
  {
    if d.book == "" || IsReserved(d.book) {
      return Refused(InvalidField("book"));
    }
    if d.key == "" {
      return Refused(InvalidField("idempotency_key"));
    }
    if d.postings == [] {
      return Refused(InvalidField("postings"));
    }
    hide SideSum;
    var e, postings, totals := BuildPostings(d);
    if e.Some? {
      return Refused(e.value);
    }
    e := CheckBalanced(totals);
    if e.Some? {
      assert SideSum(postings, e.value.asset, Debit) != SideSum(postings, e.value.asset, Credit);
      return Refused(e.value);
    }
    return Built(Transaction(id, d.book, postings, d.key, d.extra));
  }
}
