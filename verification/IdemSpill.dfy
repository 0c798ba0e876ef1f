/**
 The tiered idempotency index: a hot map with its insertion order, sorted run
 files on disk, and a Bloom filter in front of them. Draining the oldest half of
 the hot map to a new run, merging the runs into one, and putting entries back
 after a failed write all leave it answering like one plain map from key to
 committed record.
 */
module IdemSpill {
  import opened LedgerTypes
  import opened KeyOrder

  const U64: nat := 0x1_0000_0000_0000_0000
  const BLOOM_K: nat := 4

  // ------------------------------------------------------------------
  // Bloom filter
  // ------------------------------------------------------------------

  /** The two seeded hashes are taken as given. */
  class Bloom {
    const h1: string -> nat
    const h2: string -> nat
    const bits: array<bool>
    ghost var added: set<string>

    ghost predicate Valid()
      reads this, bits
    {
      bits.Length > 0 && forall k, i :: k in added && 0 <= i < BLOOM_K ==> bits[Bit(i, k)]
    }

    function Bit(i: nat, key: string): (b: nat)
      requires bits.Length > 0
      ensures b < bits.Length
    {
      (h1(key) + i * h2(key)) % U64 % bits.Length
    }

    /** Ten bits a key, rounded up to whole 64-bit words. */
    constructor (expected: nat, h1: string -> nat, h2: string -> nat)
      ensures Valid() && fresh(bits) && added == {}
      ensures this.h1 == h1 && this.h2 == h2
    {
      var n := if expected == 0 then 1 else expected;
      this.h1, this.h2 := h1, h2;
      bits := new bool[(10 * n + 63) / 64 * 64](_ => false);
      added := {};
    }

    method Add(key: string)
      requires Valid()
      modifies this`added, bits
      ensures Valid() && added == old(added) + {key}
    {
      hide Bit;
      for i := 0 to BLOOM_K
        invariant added == old(added) && Valid()
        invariant forall j :: 0 <= j < i ==> bits[Bit(j, key)]
      {
        bits[Bit(i, key)] := true;
      }
      added := added + {key};
    }

    /** No false negatives. */
    method MightContain(key: string) returns (maybe: bool)
      requires Valid()
      ensures key in added ==> maybe
    {
      hide Bit;
      for i := 0 to BLOOM_K {
        if !bits[Bit(i, key)] {
          return false;
        }
      }
      return true;
    }
  }

  // ------------------------------------------------------------------
  // The tiers as values
  // ------------------------------------------------------------------

  type Index = map<string, Committed>

  /** A run file: its entries, or bytes whose checksum or text is bad. */
  datatype RunFile = Intact(pairs: seq<Pair>) | Damaged

  type RunDir = map<nat, RunFile>

  datatype RunMeta = RunMeta(n: nat, lo: string, hi: string, len: nat)

  function MetaFor(n: nat, pairs: seq<Pair>): RunMeta
    requires pairs != []
  {
    RunMeta(n, pairs[0].0, pairs[|pairs| - 1].0, |pairs|)
  }

  ghost predicate PairsIn(pairs: seq<Pair>, contents: Index) {
    forall p :: p in pairs ==> p.0 in contents && contents[p.0] == p.1
  }

  ghost predicate RunOk(disk: RunDir, m: RunMeta, contents: Index) {
    && m.n in disk && disk[m.n].Intact? && disk[m.n].pairs != []
    && Sorted(disk[m.n].pairs)
    && m == MetaFor(m.n, disk[m.n].pairs)
    && PairsIn(disk[m.n].pairs, contents)
  }

  ghost predicate RunsOk(disk: RunDir, runs: seq<RunMeta>, contents: Index) {
    && (forall i :: 0 <= i < |runs| ==> RunOk(disk, runs[i], contents))
    && (forall i, j :: 0 <= i < j < |runs| ==> runs[i].n < runs[j].n)
  }

  /** The key is in one of the runs. */
  ghost predicate InRuns(disk: RunDir, runs: seq<RunMeta>, key: string) {
    exists i :: 0 <= i < |runs| && InRun(disk, runs[i], key)
  }

  ghost predicate InRun(disk: RunDir, m: RunMeta, key: string) {
    m.n in disk && disk[m.n].Intact? && HasKey(disk[m.n].pairs, key)
  }

  ghost predicate OrderOk(order: seq<string>, hot: Index) {
    && (forall i, j :: 0 <= i < j < |order| ==> order[i] != order[j])
    && (forall k :: k in order <==> k in hot)
  }

  /** Every tier agrees with `contents`, and between them they miss none of it. */
  ghost predicate Tiers(hot: Index, order: seq<string>, disk: RunDir, runs: seq<RunMeta>, added: set<string>,
                        contents: Index) {
    && OrderOk(order, hot)
    && (forall k :: k in hot ==> k in contents && contents[k] == hot[k])
    && RunsOk(disk, runs, contents)
    && (forall k :: InRuns(disk, runs, k) ==> k in added)
    && (forall k :: k in contents ==> k in hot || InRuns(disk, runs, k))
  }

  /** `next_run_n`: one past the highest registered number. */
  function NextRunN(runs: seq<RunMeta>): (n: nat)
    ensures forall i :: 0 <= i < |runs| ==> runs[i].n < n
  {
    if runs == [] then 0
    else
      var rest := NextRunN(runs[..|runs| - 1]);
      if runs[|runs| - 1].n >= rest then runs[|runs| - 1].n + 1 else rest
  }

  /** And no further past it than one. */
  lemma {:induction false} NextIsOnePast(runs: seq<RunMeta>)
    ensures runs == [] ==> NextRunN(runs) == 0
    ensures runs != [] ==> exists i :: 0 <= i < |runs| && NextRunN(runs) == runs[i].n + 1
  {
    if runs != [] {
      var last := |runs| - 1;
      NextIsOnePast(runs[..last]);
      if NextRunN(runs) != runs[last].n + 1 {
        var i :| 0 <= i < last && NextRunN(runs[..last]) == runs[..last][i].n + 1;
        assert runs[i].n + 1 == NextRunN(runs);
      }
    }
  }

  lemma {:induction false} OrderCounts(order: seq<string>, hot: Index)
    requires OrderOk(order, hot)
    ensures |order| == |hot|
    decreases |order|
  {
    if order != [] {
      var n := |order| - 1;
      var k := order[n];
      assert k in hot;
      var rest := hot - {k};
      assert OrderOk(order[..n], rest) by {
        assert order == order[..n] + [k];
      }
      OrderCounts(order[..n], rest);
      assert hot == rest[k := hot[k]];
      assert |rest[k := hot[k]]| == |rest| + 1;
    }
  }

  // ------------------------------------------------------------------
  // Spilling
  // ------------------------------------------------------------------

  /** The oldest d entries. */
  ghost function Oldest(order: seq<string>, hot: Index, d: nat): seq<Pair>
    requires OrderOk(order, hot) && d <= |order|
  {
    seq(d, i requires 0 <= i < d => (assert order[i] in order; (order[i], hot[order[i]])))
  }

  ghost predicate Drained(order: seq<string>, hot: Index, d: nat, order': seq<string>, hot': Index, spilled: seq<Pair>)
    requires OrderOk(order, hot)
  {
    && d <= |order| && order' == order[d..] && OrderOk(order', hot')
    && spilled == Oldest(order, hot, d)
    && (forall k :: k in hot' <==> k in hot && k !in order[..d])
    && (forall k :: k in hot' ==> hot'[k] == hot[k])
  }

  lemma PopOrder(order: seq<string>, hot: Index)
    requires OrderOk(order, hot) && order != []
    ensures order[0] in hot && OrderOk(order[1..], hot - {order[0]})
  {
    var rest := order[1..];
    assert order == [order[0]] + rest;
    assert order[0] !in rest;
  }

  lemma OldestStep(order: seq<string>, hot: Index, d: nat)
    requires OrderOk(order, hot) && d < |order|
    ensures order[d] in hot
    ensures Oldest(order, hot, d + 1) == Oldest(order, hot, d) + [(order[d], hot[order[d]])]
  {
    assert order[d] in order;
  }

  lemma DrainStep(order: seq<string>, hot: Index, d: nat, order': seq<string>, hot': Index, spilled: seq<Pair>)
    requires OrderOk(order, hot) && Drained(order, hot, d, order', hot', spilled) && d < |order|
    ensures order' != [] && order'[0] in hot'
    ensures Drained(order, hot, d + 1, order'[1..], hot' - {order'[0]}, spilled + [(order'[0], hot'[order'[0]])])
  {
    PopOrder(order', hot');
    OldestStep(order, hot, d);
    hide OrderOk, Oldest;
    assert order'[0] == order[d];
    assert order'[1..] == order[d + 1..];
    assert order[..d + 1] == order[..d] + [order[d]];
  }

  lemma NewRunFound(disk: RunDir, runs: seq<RunMeta>, n: nat, pairs: seq<Pair>, contents: Index, key: string)
    requires RunsOk(disk, runs, contents) && pairs != [] && forall i :: 0 <= i < |runs| ==> runs[i].n < n
    ensures InRuns(disk[n := Intact(pairs)], runs + [MetaFor(n, pairs)], key)
       <==> InRuns(disk, runs, key) || HasKey(pairs, key)
  {
    var disk', runs' := disk[n := Intact(pairs)], runs + [MetaFor(n, pairs)];
    forall i | 0 <= i < |runs|
      ensures InRun(disk', runs'[i], key) <==> InRun(disk, runs[i], key)
    {
      assert RunOk(disk, runs[i], contents);
    }
    assert InRun(disk', runs'[|runs|], key) <==> HasKey(pairs, key);
    if InRuns(disk, runs, key) {
      var i :| 0 <= i < |runs| && InRun(disk, runs[i], key);
      assert InRun(disk', runs'[i], key);
    }
  }

  lemma NewRunOk(disk: RunDir, runs: seq<RunMeta>, n: nat, pairs: seq<Pair>, contents: Index)
    requires RunsOk(disk, runs, contents) && forall i :: 0 <= i < |runs| ==> runs[i].n < n
    requires pairs != [] && Sorted(pairs) && PairsIn(pairs, contents)
    ensures RunsOk(disk[n := Intact(pairs)], runs + [MetaFor(n, pairs)], contents)
  {
    var disk', runs' := disk[n := Intact(pairs)], runs + [MetaFor(n, pairs)];
    forall i | 0 <= i < |runs'|
      ensures RunOk(disk', runs'[i], contents)
    {
      assert i < |runs| ==> RunOk(disk, runs[i], contents);
    }
  }

  /** Moving the oldest entries to a new run changes no answer. */
  lemma SpillKeepsContents(order: seq<string>, hot: Index, disk: RunDir, runs: seq<RunMeta>, added: set<string>,
                           contents: Index,
                           d: nat, order': seq<string>, hot': Index, spilled: seq<Pair>)
    requires Tiers(hot, order, disk, runs, added, contents)
    requires Drained(order, hot, d, order', hot', spilled) && d > 0
    ensures var pairs, n := Sort(spilled), NextRunN(runs);
      && pairs != []
      && Tiers(hot', order', disk[n := Intact(pairs)], runs + [MetaFor(n, pairs)],
               added + (set p | p in pairs :: p.0), contents)
  {
    hide Sorted, RunsOk, HasKey, OrderOk, NextRunN;
    var pairs, n := Sort(spilled), NextRunN(runs);
    SortSorts(spilled);
    SortSubset(spilled);
    SpilledPairs(order, hot, d, spilled, contents);
    NewRunOk(disk, runs, n, pairs, contents);
    var disk', runs' := disk[n := Intact(pairs)], runs + [MetaFor(n, pairs)];
    forall k
      ensures InRuns(disk', runs', k) <==> InRuns(disk, runs, k) || HasKey(pairs, k)
    {
      NewRunFound(disk, runs, n, pairs, contents, k);
    }
    forall k | HasKey(pairs, k)
      ensures k in set p | p in pairs :: p.0
    {
      HasKeyIn(pairs, k);
      var i :| 0 <= i < |pairs| && pairs[i].0 == k;
      assert pairs[i] in pairs;
    }
    forall k | k in contents
      ensures k in hot' || InRuns(disk', runs', k)
    {
      if k in hot && k !in hot' {
        var i :| 0 <= i < d && order[i] == k;
        assert spilled[i].0 == k && spilled[i] in spilled;
        SortKeeps(spilled, spilled[i]);
        HasKeyIn(pairs, k);
      }
    }
  }

  lemma SpilledPairs(order: seq<string>, hot: Index, d: nat, spilled: seq<Pair>, contents: Index)
    requires OrderOk(order, hot) && d <= |order| && spilled == Oldest(order, hot, d)
    requires forall k :: k in hot ==> k in contents && contents[k] == hot[k]
    ensures PairsIn(spilled, contents)
  {
    forall p | p in spilled
      ensures p.0 in contents && contents[p.0] == p.1
    {
      var i :| 0 <= i < |spilled| && spilled[i] == p;
      assert order[i] in order;
    }
  }

  // ------------------------------------------------------------------
  // Merging
  // ------------------------------------------------------------------

  function AllPairs(disk: RunDir, runs: seq<RunMeta>): seq<Pair> {
    if runs == [] then []
    else
      var m := runs[|runs| - 1];
      AllPairs(disk, runs[..|runs| - 1]) + (if m.n in disk && disk[m.n].Intact? then disk[m.n].pairs else [])
  }

  lemma {:induction false} HasKeyConcat(a: seq<Pair>, b: seq<Pair>, key: string)
    ensures HasKey(a + b, key) <==> HasKey(a, key) || HasKey(b, key)
  {
    if b == [] {
      assert a + b == a;
    } else {
      assert (a + b)[..|a + b| - 1] == a + b[..|b| - 1];
      HasKeyConcat(a, b[..|b| - 1], key);
    }
  }

  lemma NoPairsIn(contents: Index)
    ensures PairsIn([], contents)
  {
  }

  lemma PairsInConcat(a: seq<Pair>, b: seq<Pair>, contents: Index)
    requires PairsIn(a, contents) && PairsIn(b, contents)
    ensures PairsIn(a + b, contents)
  {
  }

  lemma InRunsSnoc(disk: RunDir, front: seq<RunMeta>, m: RunMeta, key: string)
    ensures InRuns(disk, front + [m], key) <==> InRuns(disk, front, key) || InRun(disk, m, key)
  {
    hide InRun;
    var runs := front + [m];
    assert runs[|front|] == m;
    if InRuns(disk, front, key) {
      var i :| 0 <= i < |front| && InRun(disk, front[i], key);
      assert runs[i] == front[i];
    }
  }

  lemma {:induction false} AllPairsIn(disk: RunDir, runs: seq<RunMeta>, contents: Index)
    requires RunsOk(disk, runs, contents)
    ensures PairsIn(AllPairs(disk, runs), contents)
    ensures runs != [] ==> AllPairs(disk, runs) != []
  {
    hide PairsIn, Sorted, MetaFor;
    NoPairsIn(contents);
    if runs != [] {
      var n := |runs| - 1;
      assert RunOk(disk, runs[n], contents);
      AllPairsIn(disk, runs[..n], contents);
      PairsInConcat(AllPairs(disk, runs[..n]), disk[runs[n].n].pairs, contents);
    }
  }

  lemma {:induction false} AllPairsFind(disk: RunDir, runs: seq<RunMeta>, key: string)
    ensures HasKey(AllPairs(disk, runs), key) <==> InRuns(disk, runs, key)
  {
    assert !HasKey([], key);
    hide HasKey, InRuns;
    if runs == [] {
      assert !InRuns(disk, runs, key) by { NotInNoRuns(disk, key); }
    } else {
      var n := |runs| - 1;
      AllPairsFind(disk, runs[..n], key);
      assert runs == runs[..n] + [runs[n]];
      InRunsSnoc(disk, runs[..n], runs[n], key);
      var last := if runs[n].n in disk && disk[runs[n].n].Intact? then disk[runs[n].n].pairs else [];
      HasKeyConcat(AllPairs(disk, runs[..n]), last, key);
    }
  }

  lemma NotInNoRuns(disk: RunDir, key: string)
    ensures !InRuns(disk, [], key)
  {
  }

  function Merged(disk: RunDir, runs: seq<RunMeta>): seq<Pair> {
    Dedup(Sort(AllPairs(disk, runs)))
  }

  lemma MergedFind(disk: RunDir, runs: seq<RunMeta>, contents: Index, key: string)
    requires RunsOk(disk, runs, contents)
    ensures PairsIn(Merged(disk, runs), contents) && Sorted(Merged(disk, runs))
    ensures HasKey(Merged(disk, runs), key) <==> InRuns(disk, runs, key)
    ensures runs != [] ==> Merged(disk, runs) != []
  {
    hide RunsOk, AllPairs, InRuns, Sorted;
    var all := AllPairs(disk, runs);
    AllPairsIn(disk, runs, contents);
    AllPairsFind(disk, runs, key);
    SortSorts(all);
    DedupSorted(Sort(all));
    DedupSubset(Sort(all));
    SortHasKey(all, key);
    DedupKeepsKeys(Sort(all), key);
    forall p | p in Merged(disk, runs)
      ensures p in all
    {
      SortKeeps(all, p);
    }
    HasKeyIn(Merged(disk, runs), key);
    HasKeyIn(all, key);
    if HasKey(Merged(disk, runs), key) {
      var i :| 0 <= i < |Merged(disk, runs)| && Merged(disk, runs)[i].0 == key;
      var p := Merged(disk, runs)[i];
      assert p in all;
      var j :| 0 <= j < |all| && all[j] == p;
    }
  }

  lemma SortHasKey(ps: seq<Pair>, key: string)
    ensures HasKey(Sort(ps), key) <==> HasKey(ps, key)
  {
    HasKeyIn(Sort(ps), key);
    HasKeyIn(ps, key);
    if HasKey(ps, key) {
      var i :| 0 <= i < |ps| && ps[i].0 == key;
      SortKeeps(ps, ps[i]);
      var j :| 0 <= j < |Sort(ps)| && Sort(ps)[j] == ps[i];
    }
    if HasKey(Sort(ps), key) {
      var i :| 0 <= i < |Sort(ps)| && Sort(ps)[i].0 == key;
      SortKeeps(ps, Sort(ps)[i]);
      var j :| 0 <= j < |ps| && ps[j] == Sort(ps)[i];
    }
  }

  /** One merged run answers like the runs it replaces. */
  lemma MergeKeepsContents(hot: Index, order: seq<string>, disk: RunDir, runs: seq<RunMeta>, added: set<string>,
                           contents: Index,
                           disk': RunDir, n: nat, merged: seq<Pair>)
    requires Tiers(hot, order, disk, runs, added, contents) && runs != []
    requires merged == Merged(disk, runs)
    requires n in disk' && disk'[n] == Intact(merged)
    ensures merged != []
    ensures Tiers(hot, order, disk', [MetaFor(n, merged)], set p | p in merged :: p.0, contents)
  {
    hide Sorted, HasKey, OrderOk, RunsOk, Merged;
    MergedFind(disk, runs, contents, "");
    var runs' := [MetaFor(n, merged)];
    assert RunOk(disk', runs'[0], contents);
    assert RunsOk(disk', runs', contents) by { SingleRun(disk', runs'[0], contents); }
    forall k
      ensures InRuns(disk', runs', k) <==> InRuns(disk, runs, k)
      ensures InRuns(disk', runs', k) ==> k in set p | p in merged :: p.0
    {
      MergedFind(disk, runs, contents, k);
      HasKeyIn(merged, k);
      assert InRun(disk', runs'[0], k) <==> HasKey(merged, k);
      if HasKey(merged, k) {
        var i :| 0 <= i < |merged| && merged[i].0 == k;
        assert merged[i] in merged;
      }
    }
  }

  lemma SingleRun(disk: RunDir, m: RunMeta, contents: Index)
    requires RunOk(disk, m, contents)
    ensures RunsOk(disk, [m], contents)
  {
  }

  /** Entries put back after a failed write restore the hot map. */
  lemma RestoredHot(order: seq<string>, hot: Index, d: nat, order1: seq<string>, hot1: Index, spilled: seq<Pair>,
                    back: seq<Pair>, hot2: Index)
    requires OrderOk(order, hot) && Drained(order, hot, d, order1, hot1, spilled)
    requires forall p :: p in back <==> p in spilled
    requires forall k :: k in hot2 <==> k in hot1 || HasKey(back, k)
    requires forall k :: k in hot1 ==> hot2[k] == hot1[k]
    requires forall p :: p in back ==> p.0 in hot2 && hot2[p.0] == p.1
    ensures hot2 == hot
  {
    forall k
      ensures k in hot2 <==> k in hot
      ensures k in hot2 ==> hot2[k] == hot[k]
    {
      HasKeyIn(back, k);
      if HasKey(back, k) {
        var i :| 0 <= i < |back| && back[i].0 == k;
        assert back[i] in spilled;
        var j :| 0 <= j < |spilled| && spilled[j] == back[i];
        assert order[j] in order;
      }
      if k in hot && k !in hot1 {
        var j :| 0 <= j < d && order[j] == k;
        assert spilled[j] in back && spilled[j].0 == k;
        var i :| 0 <= i < |back| && back[i] == spilled[j];
      }
    }
  }

  lemma SpilledDistinct(order: seq<string>, hot: Index, d: nat)
    requires OrderOk(order, hot) && d <= |order|
    ensures Distinct(Oldest(order, hot, d))
  {
  }
}
