/**
 The in-memory state of one book as a value: what applying an event does to it,
 and how a transaction is judged against it.
 */
module Books {
  import opened LedgerTypes
  import opened AccountKeys
  import opened PostingIndexes

  datatype AccountState = AccountState(
    def: AccountDef, cfg: AccountCfg, raw: i64, updatedSeq: nat, postings: PostingIndex)

  type Accounts = map<string, AccountState>

  /** What opening an account fixed for good. */
  datatype Term = Term(def: AccountDef, cfg: AccountCfg)

  type Terms = map<string, Term>

  function TermsOf(accounts: Accounts): (t: Terms)
    ensures t.Keys == accounts.Keys
  {
    map k | k in accounts :: Term(accounts[k].def, accounts[k].cfg)
  }

  /** Raw balances by account key. */
  type Balances = map<string, i64>

  datatype Book = Book(
    nextSeq: nat,
    accounts: Accounts,
    keys: map<string, Committed>,
    txids: map<nat, (nat, FramePos)>,
    sums: map<string, (i64, i64)>,
    lastAt: Option<int>)

  const EmptyBook: Book := Book(1, map[], map[], map[], map[], None)

  // ------------------------------------------------------------------
  // Applying events
  // ------------------------------------------------------------------

  /** `checked_add` or `checked_sub` of a posting. */
  function Moved(raw: i64, p: Posting): Option<i64> {
    if InI64(raw + Delta(p)) then Some(raw + Delta(p)) else None
  }

  function SaturatingAdd(a: i64, b: i64): i64 {
    var sum: int := (a as int) + (b as int);
    if sum > I64_MAX then I64_MAX else if sum < I64_MIN then I64_MIN else sum
  }

  function AddSum(sums: map<string, (i64, i64)>, p: Posting): map<string, (i64, i64)> {
    var before := if p.asset in sums then sums[p.asset] else (0, 0);
    sums[p.asset := if p.direction == Debit then (SaturatingAdd(before.0, p.minor), before.1)
                    else (before.0, SaturatingAdd(before.1, p.minor))]
  }

  function PostTo(a: AccountState, p: Posting, raw: i64, txid: nat, seqno: nat, at: int): AccountState {
    a.(raw := raw, updatedSeq := seqno,
       postings := Push(a.postings, Entry(seqno, at, txid, p.minor, p.direction, raw)))
  }

  /** None when a balance would leave the i64 range. A posting to an account the
      book does not have moves only the lifetime sums. */
  function PostOne(b: Book, p: Posting, txid: nat, seqno: nat, at: int): Option<Book> {
    var k := Key(p.account);
    var sums := AddSum(b.sums, p);
    if k !in b.accounts then Some(b.(sums := sums))
    else match Moved(b.accounts[k].raw, p)
      case None => None
      case Some(raw) =>
        Some(b.(accounts := b.accounts[k := PostTo(b.accounts[k], p, raw, txid, seqno, at)], sums := sums))
  }

  function PostAll(b: Book, ps: seq<Posting>, txid: nat, seqno: nat, at: int): Option<Book> {
    if ps == [] then Some(b)
    else match PostAll(b, ps[..|ps| - 1], txid, seqno, at)
      case None => None
      case Some(b') => PostOne(b', ps[|ps| - 1], txid, seqno, at)
  }

  function Stamp(b: Book, seqno: nat, at: int): Book {
    b.(nextSeq := seqno + 1, lastAt := Some(at))
  }

  /** `try_apply_transaction`. */
  function ApplyTransaction(b: Book, tx: Transaction, seqno: nat, at: int, pos: FramePos): Option<Book> {
    match PostAll(b, tx.postings, tx.id, seqno, at)
    case None => None
    case Some(b') =>
      Some(Stamp(b'.(keys := b'.keys[tx.key := Committed(tx.id, seqno, at)],
                     txids := b'.txids[tx.id := (seqno, pos)]), seqno, at))
  }

  /** `apply_account_opened`: an account already there is left alone. */
  function ApplyOpened(b: Book, def: AccountDef, cfg: AccountCfg, seqno: nat, at: int): Book {
    var k := Key(def.id);
    Stamp(if k in b.accounts then b
          else b.(accounts := b.accounts[k := AccountState(def, cfg, 0, 0, EmptyIndex)]), seqno, at)
  }

  function Apply(b: Book, p: Placed): Option<Book> {
    match p.ev.event
    case TransactionPosted(tx) => ApplyTransaction(b, tx, p.ev.seqno, p.ev.at, p.pos)
    case AccountOpened(def, cfg) => Some(ApplyOpened(b, def, cfg, p.ev.seqno, p.ev.at))
    case AssetRegistered(_, _) => Some(Stamp(b, p.ev.seqno, p.ev.at))
  }

  /** Replaying events in order onto a book. */
  function Replay(b: Book, log: seq<Placed>): Option<Book> {
    if log == [] then Some(b)
    else match Replay(b, log[..|log| - 1])
      case None => None
      case Some(b') => Apply(b', log[|log| - 1])
  }

  lemma {:induction false} ReplayConcat(b: Book, a: seq<Placed>, c: seq<Placed>)
    ensures Replay(b, a + c) ==
      match Replay(b, a) case None => None case Some(b') => Replay(b', c)
  {
    hide Apply;
    if c == [] {
      assert a + c == a;
    } else {
      assert (a + c)[..|a + c| - 1] == a + c[..|c| - 1];
      ReplayConcat(b, a, c[..|c| - 1]);
    }
  }

  /** A log that replays, replays up to every point. */
  lemma ReplayPrefix(b: Book, log: seq<Placed>, n: nat)
    requires n <= |log| && Replay(b, log).Some?
    ensures Replay(b, log[..n]).Some?
  {
    assert log == log[..n] + log[n..];
    ReplayConcat(b, log[..n], log[n..]);
  }

  // ------------------------------------------------------------------
  // Judging a transaction
  // ------------------------------------------------------------------

  function Raws(accounts: Accounts): (r: Balances)
    ensures r.Keys == accounts.Keys
  {
    map k | k in accounts :: accounts[k].raw
  }

  /** Balances after postings, over whatever accounts `raws` covers: the checked
      arithmetic `validate`, `stage` and `try_apply_transaction` all perform. */
  datatype Projection = Projected(raws: Balances) | Overflows(key: string) | Unseeded(key: string)

  function ProjectOne(raws: Balances, p: Posting): Projection {
    var k := Key(p.account);
    if k !in raws then Unseeded(k)
    else match Moved(raws[k], p)
      case None => Overflows(k)
      case Some(raw) => Projected(raws[k := raw])
  }

  function Project(raws: Balances, ps: seq<Posting>): Projection {
    if ps == [] then Projected(raws)
    else match Project(raws, ps[..|ps| - 1])
      case Projected(r) => ProjectOne(r, ps[|ps| - 1])
      case failed => failed
  }

  function Touched(ps: seq<Posting>): set<string> {
    set p | p in ps :: Key(p.account)
  }

  datatype Verdict =
    | Accept
    | ReservedBook(book: string)
    | UnknownAccount(id: AccountId)
    | AssetMismatch(account: AccountId, accountAsset: string, asset: string)
    | Overflow(key: string)
    | BelowMin(violators: map<string, (i64, i64)>)

  /** The first posting whose account is missing or holds another asset. */
  function FirstMisfit(terms: Terms, ps: seq<Posting>): (v: Option<Verdict>)
    ensures v.Some? ==> v.value.UnknownAccount? || v.value.AssetMismatch?
  {
    if ps == [] then None
    else
      var p, k := ps[0], Key(ps[0].account);
      if k !in terms then Some(UnknownAccount(p.account))
      else if terms[k].def.asset != p.asset then
        Some(AssetMismatch(p.account, terms[k].def.asset, p.asset))
      else FirstMisfit(terms, ps[1..])
  }

  predicate BelowMinimum(cfg: AccountCfg, raw: i64) {
    cfg.minBalance.Some? && Effective(raw, cfg.normalSide) < cfg.minBalance.value
  }

  /** Touched accounts left below their minimum, with the minimum and what the
      effective balance would be. */
  function Violators(terms: Terms, raws: Balances, touched: set<string>): map<string, (i64, i64)> {
    map k | k in touched && k in terms && k in raws && BelowMinimum(terms[k].cfg, raws[k])
      :: (terms[k].cfg.minBalance.value, Effective(raws[k], terms[k].cfg.normalSide))
  }

  /** `validate`, in its order of checks, against the balances `raws`. When
      several accounts would fall below their minimum it names one of them. */
  function Judge(terms: Terms, raws: Balances, tx: Transaction): Verdict {
    if IsReserved(tx.book) then ReservedBook(tx.book)
    else match FirstMisfit(terms, tx.postings)
      case Some(v) => v
      case None =>
        match Project(raws, tx.postings)
        case Overflows(k) => Overflow(k)
        case Unseeded(k) => Overflow(k)
        case Projected(after) =>
          var bad := Violators(terms, after, Touched(tx.postings));
          if bad == map[] then Accept else BelowMin(bad)
  }

  lemma {:induction false} MisfitFree(terms: Terms, ps: seq<Posting>)
    requires FirstMisfit(terms, ps).None?
    ensures forall p :: p in ps ==> Key(p.account) in terms && terms[Key(p.account)].def.asset == p.asset
    ensures Touched(ps) <= terms.Keys
  {
    if ps != [] {
      MisfitFree(terms, ps[1..]);
      assert ps == [ps[0]] + ps[1..];
    }
  }

  // ------------------------------------------------------------------
  // One arithmetic, three places
  // ------------------------------------------------------------------

  lemma {:induction false} ProjectKeys(raws: Balances, ps: seq<Posting>)
    ensures var r := Project(raws, ps);
      r.Projected? ==> r.raws.Keys == raws.Keys && (forall k :: k in raws && k !in Touched(ps) ==> r.raws[k] == raws[k])
  {
    if ps != [] {
      var front, p := ps[..|ps| - 1], ps[|ps| - 1];
      ProjectKeys(raws, front);
      assert ps == front + [p];
    }
  }

  /** Projecting over some of the balances agrees with projecting over all. */
  lemma {:induction false} ProjectLocally(part: Balances, all: Balances, ps: seq<Posting>)
    requires part.Keys <= all.Keys && (forall k :: k in part ==> part[k] == all[k])
    requires Touched(ps) <= part.Keys
    ensures match Project(part, ps)
      case Projected(r) => Project(all, ps) == Projected(all + r)
      case Overflows(k) => Project(all, ps) == Overflows(k)
      case Unseeded(_) => false
  {
    hide ProjectOne, Key;
    if ps == [] {
      assert all + part == all;
    } else {
      var front, p := ps[..|ps| - 1], ps[|ps| - 1];
      assert ps == front + [p];
      assert Key(p.account) in Touched(ps) && Touched(front) <= Touched(ps);
      ProjectLocally(part, all, front);
      ProjectKeys(part, front);
      if Project(part, front).Projected? {
        LocalStep(Project(part, front).raws, all, p);
      }
    }
  }

  lemma LocalStep(r: Balances, all: Balances, p: Posting)
    requires Key(p.account) in r
    ensures match ProjectOne(r, p)
      case Projected(r') => ProjectOne(all + r, p) == Projected(all + r')
      case Overflows(k) => ProjectOne(all + r, p) == Overflows(k)
      case Unseeded(_) => false
  {
    hide Moved, Key;
    var k := Key(p.account);
    match Moved(r[k], p) {
      case Some(raw) => assert (all + r)[k := raw] == all + r[k := raw];
      case None =>
    }
  }

  /** Posting to known accounts succeeds exactly when the projection does, and
      leaves exactly the projected balances and the other indexes alone. */
  lemma {:induction false} PostingProjects(b: Book, ps: seq<Posting>, txid: nat, seqno: nat, at: int)
    requires Touched(ps) <= b.accounts.Keys
    ensures match PostAll(b, ps, txid, seqno, at)
      case None => Project(Raws(b.accounts), ps).Overflows?
      case Some(b') =>
        && Project(Raws(b.accounts), ps) == Projected(Raws(b'.accounts))
        && TermsOf(b.accounts) == TermsOf(b'.accounts)
        && b' == b.(accounts := b'.accounts, sums := b'.sums)
  {
    if ps != [] {
      var front, p := ps[..|ps| - 1], ps[|ps| - 1];
      assert ps == front + [p];
      assert Key(p.account) in Touched(ps) && Touched(front) <= Touched(ps);
      PostingProjects(b, front, txid, seqno, at);
      match PostAll(b, front, txid, seqno, at) {
        case None =>
        case Some(b1) => PostOneProjects(b1, p, txid, seqno, at);
      }
    }
  }

  lemma PostOneProjects(b: Book, p: Posting, txid: nat, seqno: nat, at: int)
    requires Key(p.account) in b.accounts
    ensures match PostOne(b, p, txid, seqno, at)
      case None => ProjectOne(Raws(b.accounts), p).Overflows?
      case Some(b') =>
        && ProjectOne(Raws(b.accounts), p) == Projected(Raws(b'.accounts))
        && TermsOf(b.accounts) == TermsOf(b'.accounts)
        && b' == b.(accounts := b'.accounts, sums := b'.sums)
  {
    var k := Key(p.account);
    match Moved(b.accounts[k].raw, p) {
      case None =>
      case Some(raw) =>
        var b' := PostOne(b, p, txid, seqno, at).value;
        assert Raws(b'.accounts) == Raws(b.accounts)[k := raw];
    }
  }
}
