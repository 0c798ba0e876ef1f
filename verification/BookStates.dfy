/**
 The writer's mutable state: one book's accounts and indexes, changed in place
 by committed events, and the scratch overlay that carries accepted batchmates.
 */
module BookStates {
  import opened LedgerTypes
  import opened AccountKeys
  import opened PostingIndexes
  import opened Books
  import opened Batches
  import opened Judgements
  import opened TieredIndex
  import opened IdemSpill

  datatype StoreError =
    | InvalidBook(book: string)
    | NoSuchAccount(id: AccountId)
    | WrongAsset(account: AccountId, accountAsset: string, asset: string)
    | DeltaOverflow(key: string)
    | ConstraintViolation(account: AccountId, minBalance: i64, wouldBe: i64)
    | AlreadyExists(key: string)

  /** The error a verdict may be reported with. Which of several violators is
      named depends on the order of a hash map. */
  ghost predicate Reports(terms: Terms, v: Verdict, e: StoreError) {
    match v
    case Accept => false
    case ReservedBook(book) => e == InvalidBook(book)
    case UnknownAccount(id) => e == NoSuchAccount(id)
    case AssetMismatch(account, accountAsset, asset) => e == WrongAsset(account, accountAsset, asset)
    case Overflow(key) => e == DeltaOverflow(key)
    case BelowMin(bad) =>
      exists k :: k in bad && k in terms && e == ConstraintViolation(terms[k].def.id, bad[k].0, bad[k].1)
  }

  class Scratch {
    var raw: Balances
    var idem: map<string, nat>

    constructor ()
      ensures raw == map[] && idem == map[]
    {
      raw, idem := map[], map[];
    }

    /** Folds an accepted transaction into the projected balances. After a
        failure the overlay may be partly advanced. */
    method Stage(tx: Transaction) returns (ok: bool)
      modifies this`raw
      ensures ok <==> Project(old(raw), tx.postings).Projected?
      ensures ok ==> raw == Project(old(raw), tx.postings).raws
    {
      ghost var before := raw;
      for i := 0 to |tx.postings|
        invariant Project(before, tx.postings[..i]) == Projected(raw)
      {
        var p := tx.postings[i];
        ProjectStep(before, tx.postings, i);
        var k := ToKey(p.account);
        if k !in raw {
          ProjectFails(before, tx.postings, i + 1);
          return false;
        }
        match Moved(raw[k], p) {
          case None =>
            ProjectFails(before, tx.postings, i + 1);
            return false;
          case Some(moved) =>
            raw := raw[k := moved];
        }
      }
      assert tx.postings[..|tx.postings|] == tx.postings;
      return true;
    }
  }

  lemma ProjectStep(raws: Balances, ps: seq<Posting>, i: nat)
    requires i < |ps|
    ensures Project(raws, ps[..i + 1]) ==
      match Project(raws, ps[..i]) case Projected(r) => ProjectOne(r, ps[i]) case failed => failed
  {
    assert ps[..i + 1][..i] == ps[..i];
  }

  /** A projection that failed stays failed, with the same failure. */
  lemma {:induction false} ProjectFails(raws: Balances, ps: seq<Posting>, i: nat)
    requires i <= |ps| && !Project(raws, ps[..i]).Projected?
    ensures Project(raws, ps) == Project(raws, ps[..i])
    decreases |ps| - i
  {
    if i == |ps| {
      assert ps[..i] == ps;
    } else {
      ProjectStep(raws, ps, i);
      ProjectFails(raws, ps, i + 1);
    }
  }

  /** The error names the account, its minimum and what its balance would be. */
  ghost predicate MissesMinimum(a: AccountState, raw: i64, e: StoreError) {
    && a.cfg.minBalance.Some? && !Meets(a.cfg, raw)
    && e == ConstraintViolation(a.def.id, a.cfg.minBalance.value, Seen(a.cfg, raw))
  }

  class BookState {
    var nextSeq: nat
    var accounts: Accounts
    const idem: TieredIdem
    var txids: map<nat, (nat, FramePos)>
    var sums: map<string, (i64, i64)>
    var lastAt: Option<int>

    ghost predicate Valid()
      reads this, idem, idem.Repr()
    {
      idem.Valid()
    }

    /** The book this state stands for; its keys are all the index answers. */
    ghost function Model(): Book
      reads this, idem
    {
      Book(nextSeq, accounts, idem.contents, txids, sums, lastAt)
    }

    constructor (cap: nat, h1: string -> nat, h2: string -> nat)
      ensures Valid() && fresh(this.idem) && fresh(idem.Repr()) && Model() == EmptyBook && idem.cap == cap && idem.hot == map[]
    {
      nextSeq, accounts, txids, sums, lastAt := 1, map[], map[], map[], None;
      idem := new TieredIdem.WithCap(cap, h1, h2);
    }

    /** As a snapshot loads it. */
    constructor Load(b: Book, order: seq<string>, cap: nat, h1: string -> nat, h2: string -> nat)
      requires OrderOk(order, b.keys)
      ensures Valid() && fresh(this.idem) && fresh(idem.Repr()) && Model() == b
      ensures idem.cap == cap && idem.hot == b.keys && idem.runs == []
    {
      nextSeq, accounts, txids, sums, lastAt := b.nextSeq, b.accounts, b.txids, b.sums, b.lastAt;
      idem := new TieredIdem.Loaded(b.keys, order, cap, h1, h2);
    }

    /** The state as a snapshot saves it: of all the keys, the hot ones. */
    method Save() returns (b: Book)
      ensures b == Model().(keys := idem.hot)
    {
      return Book(nextSeq, accounts, idem.hot, txids, sums, lastAt);
    }

    // ----------------------------------------------------------------
    // Validation
    // ----------------------------------------------------------------

    method CheckAccounts(ps: seq<Posting>) returns (e: Option<StoreError>)
      ensures e.None? <==> FirstMisfit(TermsOf(accounts), ps).None?
      ensures e.Some? ==> Reports(TermsOf(accounts), FirstMisfit(TermsOf(accounts), ps).value, e.value)
    {
      ghost var terms := TermsOf(accounts);
      for i := 0 to |ps|
        invariant FirstMisfit(terms, ps) == FirstMisfit(terms, ps[i..])
      {
        assert ps[i..][1..] == ps[i + 1..];
        var p := ps[i];
        var k := ToKey(p.account);
        if k !in accounts {
          return Some(NoSuchAccount(p.account));
        }
        if p.asset != accounts[k].def.asset {
          return Some(WrongAsset(p.account, accounts[k].def.asset, p.asset));
        }
      }
      return None;
    }

    /** Committed balances for touched accounts no batchmate has projected. */
    method Seed(ps: seq<Posting>, scratch: Scratch)
      requires Touched(ps) <= accounts.Keys
      modifies scratch`raw
      ensures scratch.raw == Seeded(Raws(accounts), old(scratch.raw), ps)
    {
      ghost var before, committed := scratch.raw, Raws(accounts);
      assert scratch.raw == Seeded(committed, before, ps[..0]);
      for i := 0 to |ps|
        invariant scratch.raw == Seeded(committed, before, ps[..i])
      {
        var k := ToKey(ps[i].account);
        assert ps[..i + 1] == ps[..i] + [ps[i]];
        assert k in Touched(ps);
        SeedStep(committed, before, ps[..i], ps[i]);
        if k !in scratch.raw {
          scratch.raw := scratch.raw[k := accounts[k].raw];
        }
      }
      assert ps[..|ps|] == ps;
    }

    /** The balances this transaction alone would leave on what it touches. */
    method ProjectTouched(ps: seq<Posting>, base: Balances) returns (projected: Balances, failed: Option<string>)
      requires Touched(ps) <= base.Keys
      ensures match Project(base, ps)
        case Overflows(k) => failed == Some(k)
        case Unseeded(_) => false
        case Projected(r) => failed.None? && projected.Keys == Touched(ps) && Within(projected, r)
    {
      hide Project, Touched, Moved, Key;
      projected := map[];
      NothingProjected(base);
      assert ps[..0] == [];
      for i := 0 to |ps|
        invariant Project(base, ps[..i]).Projected? && projected.Keys == Touched(ps[..i])
        invariant Within(projected, Project(base, ps[..i]).raws)
      {
        var p := ps[i];
        var k := ToKey(p.account);
        ProjectTouchedStep(base, ps, i, projected);
        match Moved(if k in projected then projected[k] else base[k], p) {
          case None =>
            return projected, Some(k);
          case Some(moved) =>
            projected := projected[k := moved];
        }
      }
      assert ps[..|ps|] == ps;
      return projected, None;
    }

    /** Looks at the touched accounts in no particular order. */
    method CheckMinimums(projected: Balances) returns (e: Option<StoreError>)
      requires projected.Keys <= accounts.Keys
      ensures var bad := Violators(TermsOf(accounts), projected, projected.Keys);
        && (e.None? <==> bad == map[])
        && (e.Some? ==> Reports(TermsOf(accounts), BelowMin(bad), e.value))
      ensures e.None? <==> forall k :: k in projected ==> Meets(accounts[k].cfg, projected[k])
      ensures e.Some? ==> exists k :: k in projected && MissesMinimum(accounts[k], projected[k], e.value)
    {
      ghost var terms := TermsOf(accounts);
      var rest := projected.Keys;
      while rest != {}
        invariant rest <= projected.Keys
        invariant forall k :: k in projected && k !in rest ==> !BelowMinimum(terms[k].cfg, projected[k])
        invariant forall k :: k in projected && k !in rest ==> Meets(accounts[k].cfg, projected[k])
        decreases |rest|
      {
        var k :| k in rest;
        var a := accounts[k];
        MinimumExactly(a.cfg, projected[k]);
        if a.cfg.minBalance.Some? {
          var wouldBe := Effective(projected[k], a.cfg.normalSide);
          if wouldBe < a.cfg.minBalance.value {
            assert k in Violators(terms, projected, projected.Keys);
            return Some(ConstraintViolation(a.def.id, a.cfg.minBalance.value, wouldBe));
          }
        }
        rest := rest - {k};
      }
      assert Violators(terms, projected, projected.Keys) == map[];
      return None;
    }

    /** Judges a transaction against committed balances overlaid with the
        scratch; only seeds the scratch, never advances it. */
    method Validate(tx: Transaction, scratch: Scratch) returns (e: Option<StoreError>)
      requires scratch.raw.Keys <= accounts.Keys
      modifies scratch`raw
      ensures var v := Judge(TermsOf(accounts), Raws(accounts) + old(scratch.raw), tx);
        && (e.None? <==> v.Accept?)
        && (e.Some? ==> Reports(TermsOf(accounts), v, e.value))
        && scratch.raw == (if v.ReservedBook? || v.UnknownAccount? || v.AssetMismatch? then old(scratch.raw)
                           else Seeded(Raws(accounts), old(scratch.raw), tx.postings))
      ensures e.None? <==> Acceptable(TermsOf(accounts), Raws(accounts) + old(scratch.raw), tx)
    {
      hide Acceptable;
      ghost var i := JudgedExactly(TermsOf(accounts), Raws(accounts) + scratch.raw, tx);
      if IsReserved(tx.book) {
        return Some(InvalidBook(tx.book));
      }
      e := CheckAccounts(tx.postings);
      if e.Some? {
        return;
      }
      MisfitFree(TermsOf(accounts), tx.postings);
      ghost var overlay := Raws(accounts) + scratch.raw;
      Seed(tx.postings, scratch);
      hide Project, Touched, FirstMisfit;
      ProjectLocally(scratch.raw, overlay, tx.postings);
      var projected, failed := ProjectTouched(tx.postings, scratch.raw);
      if failed.Some? {
        return Some(DeltaOverflow(failed.value));
      }
      SameViolators(TermsOf(accounts), projected, Project(scratch.raw, tx.postings).raws, overlay);
      e := CheckMinimums(projected);
    }

    // ----------------------------------------------------------------
    // Applying committed events
    // ----------------------------------------------------------------

    method AddToSums(p: Posting)
      modifies this`sums
      ensures sums == AddSum(old(sums), p)
    {
      var (debits, credits) := if p.asset in sums then sums[p.asset] else (0, 0);
      if p.direction == Debit {
        sums := sums[p.asset := (SaturatingAdd(debits, p.minor), credits)];
      } else {
        sums := sums[p.asset := (debits, SaturatingAdd(credits, p.minor))];
      }
    }

    method ApplyPosting(p: Posting, txid: nat, seqno: nat, at: int) returns (ok: bool)
      modifies this`accounts, this`sums
      ensures ok <==> PostOne(old(Model()), p, txid, seqno, at).Some?
      ensures ok ==> Model() == PostOne(old(Model()), p, txid, seqno, at).value
    {
      var k := ToKey(p.account);
      if k in accounts {
        match Moved(accounts[k].raw, p) {
          case None =>
            return false;
          case Some(raw) =>
            accounts := accounts[k := PostTo(accounts[k], p, raw, txid, seqno, at)];
        }
      }
      AddToSums(p);
      return true;
    }

    /** Fails exactly when a balance would leave the i64 range; the state is
        then partly advanced and the writer stops. */
    method TryApplyTransaction(tx: Transaction, seqno: nat, at: int, pos: FramePos) returns (ok: bool)
      requires Valid() && (tx.key in idem.contents ==> idem.contents[tx.key] == Committed(tx.id, seqno, at))
      modifies this, idem`hot, idem`order, idem`contents
      ensures Valid()
      ensures ok <==> ApplyTransaction(old(Model()), tx, seqno, at, pos).Some?
      ensures ok ==> Model() == ApplyTransaction(old(Model()), tx, seqno, at, pos).value
      ensures ok ==> idem.hot == old(idem.hot)[tx.key := Committed(tx.id, seqno, at)]
    {
      ghost var before := Model();
      for i := 0 to |tx.postings|
        invariant Valid() && idem.contents == old(idem.contents) && idem.hot == old(idem.hot)
        invariant PostAll(before, tx.postings[..i], tx.id, seqno, at) == Some(Model())
      {
        hide PostOne;
        PostStep(before, tx.postings, i, tx.id, seqno, at);
        ok := ApplyPosting(tx.postings[i], tx.id, seqno, at);
        if !ok {
          PostFails(before, tx.postings, i + 1, tx.id, seqno, at);
          return;
        }
      }
      assert tx.postings[..|tx.postings|] == tx.postings;
      idem.Insert(tx.key, Committed(tx.id, seqno, at));
      txids := txids[tx.id := (seqno, pos)];
      nextSeq := seqno + 1;
      lastAt := Some(at);
      return true;
    }

    method ApplyAccountOpened(def: AccountDef, cfg: AccountCfg, seqno: nat, at: int)
      modifies this`accounts, this`nextSeq, this`lastAt
      ensures Model() == ApplyOpened(old(Model()), def, cfg, seqno, at)
    {
      var k := ToKey(def.id);
      if k !in accounts {
        accounts := accounts[k := AccountState(def, cfg, 0, 0, EmptyIndex)];
      }
      BumpSeq(seqno, at);
    }

    method BumpSeq(seqno: nat, at: int)
      modifies this`nextSeq, this`lastAt
      ensures Model() == Stamp(old(Model()), seqno, at)
    {
      nextSeq := seqno + 1;
      lastAt := Some(at);
    }

    /** Applies one event of the log, as replay and the writer both do. */
    method ApplyEvent(p: Placed) returns (ok: bool)
      requires Valid()
      requires p.ev.event.TransactionPosted? && p.ev.event.tx.key in idem.contents
           ==> idem.contents[p.ev.event.tx.key] == RecordOf(p.ev)
      modifies this, idem`hot, idem`order, idem`contents
      ensures Valid()
      ensures ok <==> Apply(old(Model()), p).Some?
      ensures ok ==> Model() == Apply(old(Model()), p).value
      ensures ok ==> |idem.hot| <= |old(idem.hot)| + 1
      ensures var e, before := p.ev, old(idem.hot);
        ok ==> idem.hot == if e.event.TransactionPosted? then before[e.event.tx.key := RecordOf(e)] else before
    {
      match p.ev.event {
        case TransactionPosted(tx) => ok := TryApplyTransaction(tx, p.ev.seqno, p.ev.at, p.pos);
        case AccountOpened(def, cfg) => ok := true; ApplyAccountOpened(def, cfg, p.ev.seqno, p.ev.at);
        case AssetRegistered(_, _) => ok := true; BumpSeq(p.ev.seqno, p.ev.at);
      }
    }
  }

  lemma SeedStep(committed: Balances, before: Balances, ps: seq<Posting>, p: Posting)
    requires Key(p.account) in committed
    ensures var k, s := Key(p.account), Seeded(committed, before, ps);
      Seeded(committed, before, ps + [p]) == if k in s then s else s[k := committed[k]]
  {
    TouchedSnoc(ps, p);
    hide Touched, Key;
  }

  lemma TouchedSnoc(ps: seq<Posting>, p: Posting)
    ensures Touched(ps + [p]) == Touched(ps) + {Key(p.account)}
  {
    assert p in ps + [p];
    hide Key;
  }

  lemma ProjectTouchedStep(base: Balances, ps: seq<Posting>, i: nat, projected: Balances)
    requires i < |ps| && Touched(ps) <= base.Keys
    requires Project(base, ps[..i]).Projected? && projected.Keys == Touched(ps[..i])
    requires Within(projected, Project(base, ps[..i]).raws)
    ensures var k := Key(ps[i].account);
      && k in base && Touched(ps[..i + 1]) == projected.Keys + {k}
      && match Moved(if k in projected then projected[k] else base[k], ps[i])
         case None => Project(base, ps) == Overflows(k)
         case Some(moved) => Project(base, ps[..i + 1]) == Projected(Project(base, ps[..i]).raws[k := moved])
  {
    hide Moved, Project, Touched, Key;
    ProjectKeys(base, ps[..i]);
    ProjectStep(base, ps, i);
    assert ps[..i + 1] == ps[..i] + [ps[i]];
    TouchedSnoc(ps[..i], ps[i]);
    InTouched(ps, i);
    if !Project(base, ps[..i + 1]).Projected? {
      ProjectFails(base, ps, i + 1);
    }
  }

  lemma {:induction false} NothingProjected(base: Balances)
    ensures Project(base, []) == Projected(base) && Touched([]) == {}
  {
  }

  lemma InTouched(ps: seq<Posting>, i: nat)
    requires i < |ps|
    ensures Key(ps[i].account) in Touched(ps)
  {
    hide Key;
    assert ps[i] in ps;
  }

  lemma SameViolators(terms: Terms, projected: Balances, after: Balances, overlay: Balances)
    requires Within(projected, after)
    ensures Violators(terms, overlay + after, projected.Keys) == Violators(terms, projected, projected.Keys)
  {
  }

  lemma PostStep(b: Book, ps: seq<Posting>, i: nat, txid: nat, seqno: nat, at: int)
    requires i < |ps|
    ensures PostAll(b, ps[..i + 1], txid, seqno, at) ==
      match PostAll(b, ps[..i], txid, seqno, at) case None => None case Some(b') => PostOne(b', ps[i], txid, seqno, at)
  {
    assert ps[..i + 1][..i] == ps[..i];
  }

  lemma {:induction false} PostFails(b: Book, ps: seq<Posting>, i: nat, txid: nat, seqno: nat, at: int)
    requires i <= |ps| && PostAll(b, ps[..i], txid, seqno, at).None?
    ensures PostAll(b, ps, txid, seqno, at).None?
    decreases |ps| - i
  {
    if i == |ps| {
      assert ps[..i] == ps;
    } else {
      PostStep(b, ps, i, txid, seqno, at);
      PostFails(b, ps, i + 1, txid, seqno, at);
    }
  }
}
