/** The flat `book:path` key that indexes every account map and column. */
module AccountKeys {
  import opened LedgerTypes

  function Escape(c: char): string {
    if c == ':' || c == '\\' then ['\\', c] else [c]
  }

  function Escaped(book: string): string {
    if book == "" then "" else Escape(book[0]) + Escaped(book[1..])
  }

  function Key(id: AccountId): string {
    Escaped(id.book) + ":" + id.path
  }

  predicate IsReserved(book: string) {
    book != "" && book[0] == '_'
  }

  /** Cuts a key at its first unescaped colon, undoing the escapes before it. */
  function SplitKey(key: string): Option<AccountId> {
    if key == "" then None
    else if key[0] == ':' then Some(AccountId("", key[1..]))
    else if key[0] == '\\' then
      if |key| == 1 then None
      else match SplitKey(key[2..])
        case None => None
        case Some(id) => Some(AccountId([key[1]] + id.book, id.path))
    else match SplitKey(key[1..])
      case None => None
      case Some(id) => Some(AccountId([key[0]] + id.book, id.path))
  }

  lemma {:induction false} EscapedStep(book: string, i: nat, done: string)
    requires i < |book|
    ensures done + Escaped(book[i..]) == done + Escape(book[i]) + Escaped(book[i + 1..])
    ensures done + Escape(book[i]) == if |Escape(book[i])| == 1 then done + [book[i]] else done + ['\\'] + [book[i]]
  {
    assert book[i..][1..] == book[i + 1..];
    hide Escape;
    assert done + (Escape(book[i]) + Escaped(book[i + 1..])) == done + Escape(book[i]) + Escaped(book[i + 1..]);
  }

  method ToKey(id: AccountId) returns (key: string)
    ensures key == Key(id)
  {
    key := "";
    for i := 0 to |id.book|
      invariant key + Escaped(id.book[i..]) == Escaped(id.book)
    {
      hide Escaped;
      EscapedStep(id.book, i, key);
      var c := id.book[i];
      if c == ':' || c == '\\' {
        key := key + ['\\'];
      }
      key := key + [c];
    }
    key := key + [':'];
    key := key + id.path;
  }

  /** The key determines the account: splitting gives back book and path. */
  lemma {:induction false} SplitUndoesKey(id: AccountId)
    ensures SplitKey(Key(id)) == Some(id)
    decreases |id.book|
  {
    if id.book == "" {
      assert Key(id) == [':'] + id.path;
    } else {
      var rest := AccountId(id.book[1..], id.path);
      SplitUndoesKey(rest);
      var c := id.book[0];
      assert Key(id) == Escape(c) + Key(rest);
      assert Key(id)[|Escape(c)|..] == Key(rest);
      assert [c] + rest.book == id.book;
    }
  }

  /** No two accounts share a map entry. */
  lemma KeyInjective(a: AccountId, b: AccountId)
    requires Key(a) == Key(b)
    ensures a == b
  {
    SplitUndoesKey(a);
    SplitUndoesKey(b);
  }
}
