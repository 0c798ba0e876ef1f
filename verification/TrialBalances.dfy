/** What a trial balance shows: each asset's lifetime debits and credits, added up over
    the log and capped at the 64-bit maximum. */
module TrialBalances {
  import opened LedgerTypes
  import opened Books
  import opened Batches
  import opened Histories
  import opened Posts
  import opened Conservation
  import opened Readers

  /** Everything the log posts on one side of an asset. */
  function Lifetime(log: seq<Placed>, asset: string, side: Direction): int {
    if log == [] then 0
    else
      var e := log[|log| - 1].ev.event;
      Lifetime(log[..|log| - 1], asset, side) + (if e.TransactionPosted? then SideSum(e.tx.postings, asset, side) else 0)
  }

  ghost predicate AllPositive(log: seq<Placed>) {
    forall i :: 0 <= i < |log| && log[i].ev.event.TransactionPosted? ==> PositivePostings(log[i].ev.event.tx.postings)
  }

  lemma {:induction false} SideSumPositive(ps: seq<Posting>, asset: string, side: Direction)
    requires PositivePostings(ps)
    ensures SideSum(ps, asset, side) >= 0
  {
    if ps != [] {
      SideSumPositive(ps[..|ps| - 1], asset, side);
    }
  }

  /** With positive amounts, as the service posts them, the sums shown are the log's
      debits and credits, each capped on its own. */
  lemma {:induction false} TrialTotals(log: seq<Placed>, asset: string)
    requires AllPositive(log)
    ensures SumFor(SumsOf(log), asset).0 == Min(Lifetime(log, asset, Debit), I64_MAX)
    ensures SumFor(SumsOf(log), asset).1 == Min(Lifetime(log, asset, Credit), I64_MAX)
    ensures Lifetime(log, asset, Debit) >= 0 && Lifetime(log, asset, Credit) >= 0
  {
    hide AddSums, SideSum, PositivePostings;
    if log != [] {
      var n := |log| - 1;
      TrialTotals(log[..n], asset);
      var e := log[n].ev.event;
      if e.TransactionPosted? {
        SideSumPositive(e.tx.postings, asset, Debit);
        SideSumPositive(e.tx.postings, asset, Credit);
        SumsAddUp(SumsOf(log[..n]), e.tx.postings, asset);
      }
    }
  }
}
