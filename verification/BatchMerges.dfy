/** The store's `commit_batch`: jobs sent to their books' writers first, replies
    awaited after, answers put back in input order. */
module BatchMerges {
  import opened LedgerTypes

  datatype Answer = Ok(rec: Committed) | Failed(reason: string)

  /** The writers and channels a batch meets: whether a book's writer can be had
      (None) or why not, whether a job is taken (None) or why not, and what comes
      back for it; None when the writer is gone. */
  datatype World = World(
    writer: string -> Option<string>, submit: nat -> Option<string>, reply: nat -> Option<Answer>)

  const Gone: string := "book writer gone during commit_batch"

  /** What the sender of transaction i is due. */
  function Due(w: World, txs: seq<Transaction>, i: nat): Answer
    requires i < |txs|
  {
    match w.writer(txs[i].book)
    case Some(reason) => Failed(reason)
    case None =>
      match w.submit(i)
      case Some(reason) => Failed(reason)
      case None => match w.reply(i) case Some(a) => a case None => Failed(Gone)
  }

  /** Who must be asked and who has failed already. */
  method AcquireWriters(w: World, txs: seq<Transaction>) returns (pending: seq<nat>, errs: map<nat, string>)
    ensures forall k :: 0 <= k < |pending| ==> pending[k] < |txs| && w.writer(txs[pending[k]].book).None?
    ensures forall j, k :: 0 <= j < k < |pending| ==> pending[j] < pending[k]
    ensures forall i :: 0 <= i < |txs| ==> (i in errs <==> w.writer(txs[i].book).Some?) && (i in pending <==> i !in errs)
    ensures forall i :: i in errs ==> i < |txs| && w.writer(txs[i].book) == Some(errs[i])
  {
    pending, errs := [], map[];
    var cache: map<string, Option<string>> := map[];
    for i := 0 to |txs|
      invariant forall b :: b in cache ==> cache[b] == w.writer(b)
      invariant forall k :: 0 <= k < |pending| ==> pending[k] < i && w.writer(txs[pending[k]].book).None?
      invariant forall j, k :: 0 <= j < k < |pending| ==> pending[j] < pending[k]
      invariant forall j :: 0 <= j < i ==> (j in errs <==> w.writer(txs[j].book).Some?) && (j in pending <==> j !in errs)
      invariant forall j :: j in errs ==> j < i && w.writer(txs[j].book) == Some(errs[j])
    {
      var book := txs[i].book;
      if book !in cache {
        cache := cache[book := w.writer(book)];
      }
      match cache[book] {
        case None => pending := pending + [i];
        case Some(reason) => errs := errs[i := reason];
      }
    }
  }

  /** Sends every pending job before any reply is awaited; `rxOf[i]` is the place of
      transaction i's reply channel. */
  method SubmitAll(w: World, n: nat, pending: seq<nat>, errs0: map<nat, string>)
    returns (sent: seq<nat>, rxOf: seq<Option<nat>>, errs: map<nat, string>)
    requires forall k :: 0 <= k < |pending| ==> pending[k] < n && pending[k] !in errs0
    requires forall j, k :: 0 <= j < k < |pending| ==> pending[j] < pending[k]
    ensures |rxOf| == n
    ensures forall i :: 0 <= i < n && rxOf[i].Some? ==> rxOf[i].value < |sent| && sent[rxOf[i].value] == i
    ensures forall i :: 0 <= i < n ==> (rxOf[i].Some? <==> i in pending && w.submit(i).None?)
    ensures forall i :: 0 <= i < n ==> (i in errs <==> i in errs0 || (i in pending && w.submit(i).Some?))
    ensures forall i :: i in errs0 ==> i in errs && errs[i] == errs0[i]
    ensures forall i :: i in pending && i in errs ==> w.submit(i) == Some(errs[i])
  {
    sent, errs := [], errs0;
    rxOf := seq(n, _ => None);
    for k := 0 to |pending|
      invariant |rxOf| == n
      invariant forall i :: 0 <= i < n && rxOf[i].Some? ==> rxOf[i].value < |sent| && sent[rxOf[i].value] == i
      invariant forall i :: 0 <= i < n ==> (rxOf[i].Some? <==> i in pending[..k] && w.submit(i).None?)
      invariant forall i :: 0 <= i < n ==> (i in errs <==> i in errs0 || (i in pending[..k] && w.submit(i).Some?))
      invariant forall i :: i in errs0 ==> i in errs && errs[i] == errs0[i]
      invariant forall i :: i in pending[..k] && i in errs ==> w.submit(i) == Some(errs[i])
    {
      var i := pending[k];
      assert pending[..k + 1] == pending[..k] + [i] && i !in pending[..k];
      match w.submit(i) {
        case None =>
          rxOf := rxOf[i := Some(|sent|)];
          sent := sent + [i];
        case Some(reason) => errs := errs[i := reason];
      }
    }
    assert pending[..|pending|] == pending;
  }

  /** Awaits the replies in the order the jobs were sent. */
  method AwaitAll(w: World, sent: seq<nat>) returns (replies: seq<Answer>)
    ensures |replies| == |sent|
    ensures forall k :: 0 <= k < |sent| ==> replies[k] == match w.reply(sent[k]) case Some(a) => a case None => Failed(Gone)
  {
    replies := [];
    for k := 0 to |sent|
      invariant |replies| == k
      invariant forall j :: 0 <= j < k ==> replies[j] == match w.reply(sent[j]) case Some(a) => a case None => Failed(Gone)
    {
      var r := w.reply(sent[k]);
      replies := replies + [match r case Some(a) => a case None => Failed(Gone)];
    }
  }

  /** Results are positional: slot i is what transaction i is due, whatever books
      fail, whatever jobs are refused, and however replies are spread over
      writers. */
  method CommitBatch(w: World, txs: seq<Transaction>) returns (out: seq<Answer>)
    ensures |out| == |txs| && forall i :: 0 <= i < |txs| ==> out[i] == Due(w, txs, i)
  {
    var pending, errs0 := AcquireWriters(w, txs);
    var sent, rxOf, errs := SubmitAll(w, |txs|, pending, errs0);
    var replies := AwaitAll(w, sent);
    out := seq(|txs|, _ => Failed("unreachable: unset commit_batch slot"));
    for i := 0 to |txs|
      invariant |out| == |txs| && forall j :: 0 <= j < i ==> out[j] == Due(w, txs, j)
    {
      if i in errs {
        out := out[i := Failed(errs[i])];
      } else if rxOf[i].Some? {
        out := out[i := replies[rxOf[i].value]];
      }
    }
  }
}
