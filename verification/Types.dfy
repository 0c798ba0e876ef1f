/**
 The ledger's value types: what talea-core declares, plus the 64-bit integer
 arithmetic that every balance in the stores goes through.
 */
module LedgerTypes {

  type i64 = x: int | -0x8000_0000_0000_0000 <= x <= 0x7fff_ffff_ffff_ffff

  const I64_MIN: i64 := -0x8000_0000_0000_0000
  const I64_MAX: i64 := 0x7fff_ffff_ffff_ffff

  predicate InI64(x: int) {
    I64_MIN <= x <= I64_MAX
  }

  datatype Option<+T> = None | Some(value: T)

  datatype Direction = Debit | Credit

  datatype AccountId = AccountId(book: string, path: string)

  datatype AccountDef = AccountDef(id: AccountId, asset: string, kind: string)

  datatype AccountCfg = AccountCfg(normalSide: Option<Direction>, minBalance: Option<i64>)

  datatype Posting = Posting(account: AccountId, asset: string, minor: i64, direction: Direction)

  /** `extra` stands for the fields the stores carry without reading them:
      external references, metadata and `occurred_at`. */
  datatype Transaction = Transaction(id: nat, book: string, postings: seq<Posting>, key: string, extra: string)

  datatype LedgerEvent =
    | AssetRegistered(asset: string, body: string)
    | AccountOpened(def: AccountDef, cfg: AccountCfg)
    | TransactionPosted(tx: Transaction)

  datatype WireEvent = WireEvent(seqno: nat, at: int, event: LedgerEvent)

  /** What a committed transaction is answered with. */
  datatype Committed = Committed(txid: nat, seqno: nat, at: int)

  /** `(segment base, byte offset)` of a frame. */
  type FramePos = (nat, nat)

  /** An event of the log and where its frame starts. */
  datatype Placed = Placed(ev: WireEvent, pos: FramePos)

  /** Two's-complement negation, as `-x` computes it on an i64. */
  function WrapNeg(x: i64): i64 {
    var n: int := x;
    if n == I64_MIN then I64_MIN else 0 - n
  }

  /** Raw balances are debit-positive; the effective one is seen from the
      account's normal side. */
  function Effective(raw: i64, side: Option<Direction>): i64 {
    if side == Some(Credit) then WrapNeg(raw) else raw
  }

  /** A total as the account's holder counts it, over the integers. The one total
      that has no negation in 64 bits counts as it is. */
  function Seen(cfg: AccountCfg, total: int): int {
    if cfg.normalSide == Some(Credit) && total != I64_MIN then -total else total
  }

  /** A total is not below the account's minimum. */
  ghost predicate Meets(cfg: AccountCfg, total: int) {
    cfg.minBalance.Some? ==> cfg.minBalance.value <= Seen(cfg, total)
  }

  /** The signed effect of a posting on a raw balance, over the integers. */
  function Delta(p: Posting): int {
    var minor: int := p.minor;
    if p.direction == Debit then minor else 0 - minor
  }

  function Max(a: int, b: int): int {
    if a < b then b else a
  }

  function Min(a: int, b: int): int {
    if a < b then a else b
  }
}
