/** The index object: its fields change in place, its answers never do. */
module TieredIndex {
  import opened LedgerTypes
  import opened KeyOrder
  import opened IdemSpill

  /** How far an atomic tmp-then-rename write got. After the rename but before
      the directory sync the file is there, yet the write reports an error. */
  datatype WriteOutcome = Written | EncodeFailed | NotWritten | RenamedUnsynced

  /** Every readable file in the directory, registered or left over, is sorted
      and says nothing new. */
  ghost predicate DirOk(disk: RunDir, contents: Index) {
    forall n :: n in disk && disk[n].Intact? ==> Sorted(disk[n].pairs) && PairsIn(disk[n].pairs, contents)
  }

  /** The same, but for files left over that nothing will read before the directory
      is attached again. */
  ghost predicate Tidy(disk: RunDir, left: set<nat>, contents: Index) {
    forall n :: n in disk && n !in left && disk[n].Intact? ==> Sorted(disk[n].pairs) && PairsIn(disk[n].pairs, contents)
  }

  lemma {:induction false} InsertTidy(disk: RunDir, left: set<nat>, contents: Index, key: string, rec: Committed)
    requires Tidy(disk, left, contents) && (key in contents ==> contents[key] == rec)
    ensures Tidy(disk, left, contents[key := rec])
  {
    hide Sorted;
  }

  lemma InsertKeeps(hot: Index, order: seq<string>, disk: RunDir, runs: seq<RunMeta>, added: set<string>,
                    contents: Index,
                    key: string, rec: Committed, left: set<nat>)
    requires Tiers(hot, order, disk, runs, added, contents) && Tidy(disk, left, contents)
    requires key in contents ==> contents[key] == rec
    ensures Tiers(hot[key := rec], if key in hot then order else order + [key], disk, runs, added, contents[key := rec])
    ensures Tidy(disk, left, contents[key := rec])
  {
    InsertTidy(disk, left, contents, key, rec);
    InsertRuns(disk, runs, contents, key, rec);
    InsertOrder(order, hot, key, rec);
    hide Tidy, OrderOk, RunsOk, InRuns;
  }

  lemma {:induction false} InsertOrder(order: seq<string>, hot: Index, key: string, rec: Committed)
    requires OrderOk(order, hot)
    ensures OrderOk(if key in hot then order else order + [key], hot[key := rec])
  {
  }

  lemma {:induction false} InsertRuns(disk: RunDir, runs: seq<RunMeta>, contents: Index, key: string, rec: Committed)
    requires RunsOk(disk, runs, contents) && (key in contents ==> contents[key] == rec)
    ensures RunsOk(disk, runs, contents[key := rec])
  {
    hide Sorted;
    forall i | 0 <= i < |runs|
      ensures RunOk(disk, runs[i], contents[key := rec])
    {
      assert RunOk(disk, runs[i], contents);
    }
  }

  /** A key outside a run's range is not in the run. */
  lemma RangeExcludes(disk: RunDir, m: RunMeta, contents: Index, key: string)
    requires RunOk(disk, m, contents) && (Less(key, m.lo) || Less(m.hi, key))
    ensures !HasKey(disk[m.n].pairs, key)
  {
    hide Less;
    var pairs := disk[m.n].pairs;
    HasKeyIn(pairs, key);
    Total(m.lo, key);
    Total(key, m.hi);
    Total(key, key);
    forall i | 0 <= i < |pairs|
      ensures Leq(m.lo, pairs[i].0) && Leq(pairs[i].0, m.hi)
    {
    }
  }

  /** One run: the key-range early-out, then binary search. */
  method SearchRun(disk: RunDir, m: RunMeta, key: string, ghost contents: Index) returns (r: Option<Committed>)
    requires RunOk(disk, m, contents)
    ensures r.Some? ==> key in contents && contents[key] == r.value
    ensures r.None? ==> !InRun(disk, m, key)
  {
    hide Less, Sorted, HasKey;
    if Less(key, m.lo) || Less(m.hi, key) {
      RangeExcludes(disk, m, contents, key);
      return None;
    }
    r := BinarySearch(disk[m.n].pairs, key);
    HasKeyIn(disk[m.n].pairs, key);
  }

  // ------------------------------------------------------------------
  // What each step of a spill or merge keeps
  // ------------------------------------------------------------------

  /** A file nobody registered changes nothing. */
  lemma UnregisteredKeeps(hot: Index, order: seq<string>, disk: RunDir, runs: seq<RunMeta>, added: set<string>,
                          contents: Index,
                          n: nat, pairs: seq<Pair>)
    requires Tiers(hot, order, disk, runs, added, contents) && forall i :: 0 <= i < |runs| ==> runs[i].n < n
    ensures Tiers(hot, order, disk[n := Intact(pairs)], runs, added, contents)
  {
    hide Sorted, HasKey, OrderOk;
    var disk' := disk[n := Intact(pairs)];
    forall i | 0 <= i < |runs|
      ensures RunOk(disk', runs[i], contents)
      ensures forall k :: InRun(disk', runs[i], k) <==> InRun(disk, runs[i], k)
    {
      assert RunOk(disk, runs[i], contents);
    }
    forall k
      ensures InRuns(disk', runs, k) <==> InRuns(disk, runs, k)
    {
      if InRuns(disk, runs, k) {
        var i :| 0 <= i < |runs| && InRun(disk, runs[i], k);
        assert InRun(disk', runs[i], k);
      }
    }
  }

  lemma MergeWriteKeeps(hot: Index, order: seq<string>, disk: RunDir, runs: seq<RunMeta>, added: set<string>,
                        contents: Index,
                        merged: seq<Pair>, left: set<nat>)
    requires Tiers(hot, order, disk, runs, added, contents) && Tidy(disk, left, contents)
    requires merged == Merged(disk, runs)
    ensures var disk' := disk[NextRunN(runs) := Intact(merged)];
      Tiers(hot, order, disk', runs, added, contents) && Tidy(disk', left, contents)
    ensures runs != [] ==> merged != []
  {
    hide Sorted, HasKey, OrderOk, Merged, NextRunN, InRuns, PairsIn;
    MergedFind(disk, runs, contents, "");
    UnregisteredKeeps(hot, order, disk, runs, added, contents, NextRunN(runs), merged);
  }

  lemma RemoveKeeps(disk: RunDir, contents: Index, n: nat, left: set<nat>)
    requires Tidy(disk, left, contents)
    ensures Tidy(disk - {n}, left, contents)
  {
  }

  lemma HotCounts(hot: Index, order: seq<string>, disk: RunDir, runs: seq<RunMeta>, added: set<string>, contents: Index)
    requires Tiers(hot, order, disk, runs, added, contents)
    ensures OrderOk(order, hot) && |order| == |hot|
  {
    OrderCounts(order, hot);
  }

  lemma DrainedCount(order: seq<string>, hot: Index, d: nat, order1: seq<string>, hot1: Index, spilled: seq<Pair>)
    requires OrderOk(order, hot) && Drained(order, hot, d, order1, hot1, spilled)
    ensures |hot1| == |hot| - d
  {
    OrderCounts(order, hot);
    OrderCounts(order1, hot1);
  }

  lemma SpillKeepsDir(disk: RunDir, hot: Index, order: seq<string>, runs: seq<RunMeta>, added: set<string>,
                      contents: Index,
                      d: nat, order1: seq<string>, hot1: Index, spilled: seq<Pair>, n: nat, left: set<nat>)
    requires Tiers(hot, order, disk, runs, added, contents) && Tidy(disk, left, contents)
    requires Drained(order, hot, d, order1, hot1, spilled)
    ensures Tidy(disk[n := Intact(Sort(spilled))], left, contents)
  {
    hide Sorted, HasKey, OrderOk, RunsOk;
    SpilledPairs(order, hot, d, spilled, contents);
    SortSorts(spilled);
    SortSubset(spilled);
  }

  function Reversed(ps: seq<Pair>): seq<Pair> {
    seq(|ps|, i requires 0 <= i < |ps| => ps[|ps| - 1 - i])
  }

  lemma ReversedKeeps(ps: seq<Pair>)
    ensures Distinct(ps) ==> Distinct(Reversed(ps))
    ensures forall p :: p in Reversed(ps) <==> p in ps
  {
    forall p | p in ps
      ensures p in Reversed(ps)
    {
      var i :| 0 <= i < |ps| && ps[i] == p;
      assert Reversed(ps)[|ps| - 1 - i] == p;
    }
  }

  /** What is put back after a failed write: the sorted entries, forwards or
      backwards. */
  function PutBack(spilled: seq<Pair>, io: WriteOutcome): seq<Pair> {
    if io.EncodeFailed? then Sort(spilled) else Reversed(Sort(spilled))
  }

  lemma PutBackReady(order: seq<string>, hot: Index, d: nat, order1: seq<string>, hot1: Index, spilled: seq<Pair>,
                     io: WriteOutcome)
    requires OrderOk(order, hot) && Drained(order, hot, d, order1, hot1, spilled)
    ensures var back := PutBack(spilled, io);
      && OrderOk(order1, hot1) && Distinct(back)
      && (forall i :: 0 <= i < |back| ==> back[i].0 !in hot1)
      && (forall p :: p in back <==> p in spilled)
  {
    hide OrderOk, Sort;
    var back := PutBack(spilled, io);
    SpilledDistinct(order, hot, d);
    SortDistinct(spilled);
    ReversedKeeps(Sort(spilled));
    SortSubset(spilled);
    forall i | 0 <= i < |back|
      ensures back[i].0 !in hot1
    {
      assert back[i] in spilled;
      var j :| 0 <= j < |spilled| && spilled[j] == back[i];
      assert order[j] in order[..d];
    }
  }

  lemma ReorderKeeps(hot: Index, order: seq<string>, order': seq<string>, disk: RunDir, runs: seq<RunMeta>,
                     added: set<string>, contents: Index)
    requires Tiers(hot, order, disk, runs, added, contents) && OrderOk(order', hot)
    ensures Tiers(hot, order', disk, runs, added, contents)
  {
    hide OrderOk, RunsOk, InRuns;
  }

  // ------------------------------------------------------------------
  // Attaching a directory
  // ------------------------------------------------------------------

  /** The run numbers in the directory, ascending. */
  ghost predicate Lists(listing: seq<nat>, disk: RunDir) {
    && (forall i, j :: 0 <= i < j < |listing| ==> listing[i] < listing[j])
    && (forall n :: n in listing <==> n in disk)
  }

  /** Runs are used as they are when there are some and all are readable. */
  ghost predicate Usable(disk: RunDir, listing: seq<nat>) {
    listing != [] && AllIntact(disk, listing)
  }

  ghost predicate AllIntact(disk: RunDir, listing: seq<nat>) {
    forall i :: 0 <= i < |listing| ==> listing[i] in disk && disk[listing[i]].Intact?
  }

  ghost predicate OnDisk(disk: RunDir, listing: seq<nat>, key: string) {
    exists i :: 0 <= i < |listing| && listing[i] in disk && disk[listing[i]].Intact? && HasKey(disk[listing[i]].pairs, key)
  }

  /** The non-empty runs, in order. */
  function Metas(disk: RunDir, listing: seq<nat>): seq<RunMeta> {
    if listing == [] then []
    else
      var n := listing[|listing| - 1];
      Metas(disk, listing[..|listing| - 1]) +
      (if n in disk && disk[n].Intact? && disk[n].pairs != [] then [MetaFor(n, disk[n].pairs)] else [])
  }

  lemma {:induction false} MetasOk(disk: RunDir, listing: seq<nat>, truth: Index, key: string)
    requires DirOk(disk, truth) && AllIntact(disk, listing)
    requires forall i, j :: 0 <= i < j < |listing| ==> listing[i] < listing[j]
    ensures RunsOk(disk, Metas(disk, listing), truth)
    ensures forall i :: 0 <= i < |Metas(disk, listing)| ==> listing != [] && Metas(disk, listing)[i].n <= listing[|listing| - 1]
    ensures InRuns(disk, Metas(disk, listing), key) <==> OnDisk(disk, listing, key)
  {
    hide Sorted, HasKey, PairsIn;
    if listing != [] {
      var k := |listing| - 1;
      var front, n := listing[..k], listing[k];
      MetasOk(disk, front, truth, key);
      MetasStep(disk, front, n, truth, key);
      assert listing == front + [n];
    }
  }

  lemma MetasStep(disk: RunDir, front: seq<nat>, n: nat, truth: Index, key: string)
    requires DirOk(disk, truth) && n in disk && disk[n].Intact?
    requires RunsOk(disk, Metas(disk, front), truth) && forall i :: 0 <= i < |Metas(disk, front)| ==> Metas(disk, front)[i].n < n
    requires InRuns(disk, Metas(disk, front), key) <==> OnDisk(disk, front, key)
    ensures RunsOk(disk, Metas(disk, front + [n]), truth)
    ensures InRuns(disk, Metas(disk, front + [n]), key) <==> OnDisk(disk, front + [n], key)
  {
    assert (front + [n])[..|front|] == front;
    assert disk[n].pairs == [] ==> !HasKey(disk[n].pairs, key);
    hide Sorted, HasKey, PairsIn;
    var metas, pairs := Metas(disk, front), disk[n].pairs;
    assert OnDisk(disk, front + [n], key) <==> OnDisk(disk, front, key) || HasKey(pairs, key) by {
      OnDiskStep(disk, front, n, key);
    }
    if pairs != [] {
      NewRunOk(disk, metas, n, pairs, truth);
      NewRunFound(disk, metas, n, pairs, truth, key);
      assert disk[n := Intact(pairs)] == disk;
    } else {
      assert metas + [] == metas;
    }
  }

  lemma OnDiskStep(disk: RunDir, front: seq<nat>, n: nat, key: string)
    requires n in disk && disk[n].Intact?
    ensures OnDisk(disk, front + [n], key) <==> OnDisk(disk, front, key) || HasKey(disk[n].pairs, key)
  {
    hide HasKey;
    var all := front + [n];
    if OnDisk(disk, front, key) {
      var i :| 0 <= i < |front| && front[i] in disk && disk[front[i]].Intact? && HasKey(disk[front[i]].pairs, key);
      assert all[i] == front[i];
    }
    if HasKey(disk[n].pairs, key) {
      assert all[|front|] == n;
    }
  }

  /** The entries of a rebuild list that are not hot. */
  function NotHot(pairs: seq<Pair>, hot: Index): seq<Pair> {
    if pairs == [] then []
    else NotHot(pairs[..|pairs| - 1], hot) + (if pairs[|pairs| - 1].0 in hot then [] else [pairs[|pairs| - 1]])
  }

  lemma {:induction false} NotHotKeeps(pairs: seq<Pair>, hot: Index, key: string)
    ensures HasKey(NotHot(pairs, hot), key) <==> key !in hot && HasKey(pairs, key)
    ensures forall p :: p in NotHot(pairs, hot) ==> p in pairs
  {
    if pairs != [] {
      var front, last := pairs[..|pairs| - 1], pairs[|pairs| - 1];
      NotHotKeeps(front, hot, key);
      HasKeyConcat(NotHot(front, hot), if last.0 in hot then [] else [last], key);
      assert [last][..0] == [];
    }
  }

  /** What a reopened index can still answer. */
  ghost predicate Kept(hot: Index, disk: RunDir, listing: seq<nat>, rebuild: seq<Pair>, writeOk: bool, key: string) {
    key in hot || if Usable(disk, listing) then OnDisk(disk, listing, key) else writeOk && HasKey(rebuild, key)
  }

  ghost function KeptOf(truth: Index, hot: Index, disk: RunDir, listing: seq<nat>, rebuild: seq<Pair>,
                        writeOk: bool): Index {
    map k | k in truth && Kept(hot, disk, listing, rebuild, writeOk, k) :: truth[k]
  }

  /** Nothing is lost exactly when every key is hot or can be found again. */
  lemma KeptIsAll(truth: Index, hot: Index, dir: RunDir, listing: seq<nat>, rebuild: seq<Pair>, writeOk: bool)
    ensures KeptOf(truth, hot, dir, listing, rebuild, writeOk) == truth
       <==> forall k :: k in truth ==> Kept(hot, dir, listing, rebuild, writeOk, k)
  {
    hide Kept;
    if KeptOf(truth, hot, dir, listing, rebuild, writeOk) == truth {
      assert forall k :: k in truth ==> k in KeptOf(truth, hot, dir, listing, rebuild, writeOk);
    }
  }

  lemma AttachedTiers(hot: Index, order: seq<string>, dir: RunDir, runs: seq<RunMeta>, added: set<string>,
                      truth: Index, kept: Index)
    requires OrderOk(order, hot) && (forall k :: k in hot ==> k in truth && truth[k] == hot[k])
    requires RunsOk(dir, runs, truth) && DirOk(dir, truth)
    requires forall k :: k in kept <==> k in truth && (k in hot || InRuns(dir, runs, k))
    requires forall k :: k in kept ==> kept[k] == truth[k]
    requires forall k :: InRuns(dir, runs, k) ==> k in added
    requires forall n, p :: n in dir && dir[n].Intact? && p in dir[n].pairs ==> p.0 in kept
    ensures Tiers(hot, order, dir, runs, added, kept) && DirOk(dir, kept)
  {
    hide Sorted, OrderOk, InRuns;
    forall i | 0 <= i < |runs|
      ensures RunOk(dir, runs[i], kept)
    {
      assert RunOk(dir, runs[i], truth);
    }
  }

  function Rebuilt(spill: seq<Pair>, writeOk: bool): (seq<RunMeta>, RunDir) {
    var sorted := Sort(spill);
    if spill == [] || sorted == [] || !writeOk then ([], map[]) else ([MetaFor(0, sorted)], map[0 := Intact(sorted)])
  }

  lemma RebuiltOk(hot: Index, rebuild: seq<Pair>, writeOk: bool, truth: Index, key: string)
    requires PairsIn(rebuild, truth)
    ensures var (metas, files) := Rebuilt(NotHot(rebuild, hot), writeOk);
      && RunsOk(files, metas, truth) && DirOk(files, truth)
      && (InRuns(files, metas, key) <==> writeOk && key !in hot && HasKey(rebuild, key))
  {
    hide Sorted, HasKey, Sort, NotHot, InRun;
    var spill := NotHot(rebuild, hot);
    var sorted := Sort(spill);
    NotHotKeeps(rebuild, hot, key);
    SortSorts(spill);
    SortSubset(spill);
    SortHasKey(spill, key);
    if spill != [] && writeOk {
      SingleRebuilt(sorted, truth, key);
    } else {
      assert spill == [] ==> !HasKey(spill, key) by { HasKeyIn(spill, key); }
    }
  }

  lemma SingleRebuilt(sorted: seq<Pair>, truth: Index, key: string)
    requires sorted != [] && Sorted(sorted) && PairsIn(sorted, truth)
    ensures var metas, files := [MetaFor(0, sorted)], map[0 := Intact(sorted)];
      RunsOk(files, metas, truth) && DirOk(files, truth) && (InRuns(files, metas, key) <==> HasKey(sorted, key))
  {
    hide Sorted, HasKey, PairsIn;
    var metas, files: RunDir := [MetaFor(0, sorted)], map[0 := Intact(sorted)];
    assert RunOk(files, metas[0], truth);
    SingleRun(files, metas[0], truth);
    assert InRun(files, metas[0], key) <==> HasKey(sorted, key);
  }

  /** What attaching registers is sound, and answers the keys kept. */
  lemma AttachedRuns(hot: Index, dir: RunDir, listing: seq<nat>, rebuild: seq<Pair>, writeOk: bool, truth: Index,
                     metas: seq<RunMeta>, files: RunDir)
    requires (forall k :: k in hot ==> k in truth && truth[k] == hot[k])
    requires DirOk(dir, truth) && Lists(listing, dir) && PairsIn(rebuild, truth)
    requires (metas, files) == if Usable(dir, listing) then (Metas(dir, listing), dir) else Rebuilt(NotHot(rebuild, hot), writeOk)
    ensures RunsOk(files, metas, truth) && DirOk(files, truth)
    ensures var kept := KeptOf(truth, hot, dir, listing, rebuild, writeOk);
      && (forall k :: k in kept <==> k in truth && (k in hot || InRuns(files, metas, k)))
      && (forall k :: k in kept ==> kept[k] == truth[k])
      && (forall n, p :: n in files && files[n].Intact? && p in files[n].pairs ==> p.0 in kept)
  {
    hide Sorted, HasKey, InRuns, PairsIn, RunsOk, DirOk, Metas, Rebuilt, OnDisk;
    AttachedKey(hot, dir, listing, rebuild, writeOk, truth, metas, files, "");
    forall k
      ensures k in hot || (Kept(hot, dir, listing, rebuild, writeOk, k) <==> InRuns(files, metas, k))
    {
      AttachedKey(hot, dir, listing, rebuild, writeOk, truth, metas, files, k);
    }
    var kept := KeptOf(truth, hot, dir, listing, rebuild, writeOk);
    forall n, p | n in files && files[n].Intact? && p in files[n].pairs
      ensures p.0 in kept
    {
      FilePairKept(hot, dir, listing, rebuild, writeOk, truth, metas, files, n, p);
    }
  }

  lemma AttachedKey(hot: Index, dir: RunDir, listing: seq<nat>, rebuild: seq<Pair>, writeOk: bool, truth: Index,
                    metas: seq<RunMeta>, files: RunDir, key: string)
    requires DirOk(dir, truth) && Lists(listing, dir) && PairsIn(rebuild, truth)
    requires (metas, files) == if Usable(dir, listing) then (Metas(dir, listing), dir) else Rebuilt(NotHot(rebuild, hot), writeOk)
    ensures RunsOk(files, metas, truth) && DirOk(files, truth)
    ensures key in hot || (Kept(hot, dir, listing, rebuild, writeOk, key) <==> InRuns(files, metas, key))
  {
    hide Sorted, HasKey, InRuns, PairsIn, RunsOk, DirOk, Metas, Rebuilt, OnDisk;
    if Usable(dir, listing) {
      MetasOk(dir, listing, truth, key);
    } else {
      RebuiltOk(hot, rebuild, writeOk, truth, key);
    }
  }

  lemma FilePairKept(hot: Index, dir: RunDir, listing: seq<nat>, rebuild: seq<Pair>, writeOk: bool, truth: Index,
                     metas: seq<RunMeta>, files: RunDir, n: nat, p: Pair)
    requires DirOk(files, truth) && Lists(listing, dir)
    requires (metas, files) == if Usable(dir, listing) then (Metas(dir, listing), dir) else Rebuilt(NotHot(rebuild, hot), writeOk)
    requires n in files && files[n].Intact? && p in files[n].pairs
    ensures p.0 in truth && Kept(hot, dir, listing, rebuild, writeOk, p.0)
  {
    HasKeyIn(files[n].pairs, p.0);
    var i :| 0 <= i < |files[n].pairs| && files[n].pairs[i] == p;
    if Usable(dir, listing) {
      var j :| 0 <= j < |listing| && listing[j] == n;
    } else {
      SortHasKey(NotHot(rebuild, hot), p.0);
      NotHotKeeps(rebuild, hot, p.0);
    }
  }

  /** What is left of a directory when everything outside `stuck` is removed. */
  function Restrict(dir: RunDir, stuck: set<nat>): RunDir {
    map n | n in dir && n in stuck :: dir[n]
  }

  lemma {:induction false} LeftKeys(dir: RunDir, stuck: set<nat>, files: RunDir)
    ensures Restrict(dir, stuck).Keys == dir.Keys * stuck && Restrict(dir, stuck).Keys <= (Restrict(dir, stuck) + files).Keys
  {
  }

  /** Files that resisted removal are not registered and change nothing. */
  lemma {:induction false} LeftoversKeep(hot: Index, order: seq<string>, files: RunDir, rest: RunDir,
                                         runs: seq<RunMeta>,
                                         added: set<string>, kept: Index)
    requires Tiers(hot, order, files, runs, added, kept) && DirOk(files, kept)
    ensures Tiers(hot, order, rest + files, runs, added, kept) && Tidy(rest + files, rest.Keys, kept)
  {
    hide Sorted, HasKey, OrderOk, PairsIn;
    var disk := rest + files;
    forall i | 0 <= i < |runs|
      ensures RunOk(disk, runs[i], kept) && forall k :: InRun(disk, runs[i], k) <==> InRun(files, runs[i], k)
    {
      assert RunOk(files, runs[i], kept);
    }
    forall k
      ensures InRuns(disk, runs, k) <==> InRuns(files, runs, k)
    {
      if InRuns(files, runs, k) {
        var i :| 0 <= i < |runs| && InRun(files, runs[i], k);
        assert InRun(disk, runs[i], k);
      }
    }
  }

  lemma RunKeys(files: RunDir, m: RunMeta)
    requires m.n in files && files[m.n].Intact?
    ensures forall k :: InRun(files, m, k) ==> k in set p | p in files[m.n].pairs :: p.0
  {
    forall k | InRun(files, m, k)
      ensures k in set p | p in files[m.n].pairs :: p.0
    {
      HasKeyIn(files[m.n].pairs, k);
      var i :| 0 <= i < |files[m.n].pairs| && files[m.n].pairs[i].0 == k;
      assert files[m.n].pairs[i] in files[m.n].pairs;
    }
  }

  /** Registered runs and run files after attaching a directory. */
  ghost function AttachedTo(hot: Index, dir: RunDir, listing: seq<nat>, rebuild: seq<Pair>, writeOk: bool, stuck: set<nat>):
    (seq<RunMeta>, RunDir)
  {
    if Usable(dir, listing) then (Metas(dir, listing), dir)
    else
      var made := Rebuilt(NotHot(rebuild, hot), writeOk);
      (made.0, Restrict(dir, stuck) + made.1)
  }

  lemma {:induction false} AttachedIs(hot: Index, dir: RunDir, listing: seq<nat>, rebuild: seq<Pair>, writeOk: bool,
                                      stuck: set<nat>, metas: seq<RunMeta>, files: RunDir, rest: RunDir)
    requires (metas, files) == if Usable(dir, listing) then (Metas(dir, listing), dir) else Rebuilt(NotHot(rebuild, hot), writeOk)
    requires rest == if Usable(dir, listing) then map[] else Restrict(dir, stuck)
    ensures AttachedTo(hot, dir, listing, rebuild, writeOk, stuck) == (metas, rest + files)
  {
    hide Usable, Metas, Rebuilt, NotHot, Restrict;
    assert map[] + files == files;
  }

  // ------------------------------------------------------------------
  // What spills and merges make of the index
  // ------------------------------------------------------------------

  /** The runs a merge replaced are removed, but for those that resist. */
  function Removed(disk: RunDir, runs: seq<RunMeta>, stuck: set<nat>): RunDir {
    if runs == [] then disk
    else
      var rest, n := Removed(disk, runs[..|runs| - 1], stuck), runs[|runs| - 1].n;
      if n in stuck then rest else rest - {n}
  }

  lemma {:induction false} NothingRemoved(disk: RunDir, stuck: set<nat>)
    ensures Removed(disk, [], stuck) == disk
  {
  }

  lemma {:induction false} RemovedNext(disk: RunDir, runs: seq<RunMeta>, i: nat, stuck: set<nat>)
    requires i < |runs|
    ensures Removed(disk, runs[..i + 1], stuck) ==
      var rest := Removed(disk, runs[..i], stuck); if runs[i].n in stuck then rest else rest - {runs[i].n}
  {
    assert runs[..i + 1][..i] == runs[..i];
  }

  /** Run files and registered runs after a merge that got as far as `io` says. */
  function MergedTo(disk: RunDir, runs: seq<RunMeta>, io: WriteOutcome, stuck: set<nat>): (RunDir, seq<RunMeta>) {
    var n, merged := NextRunN(runs), Merged(disk, runs);
    if |runs| <= 1 || merged == [] || io.EncodeFailed? || io.NotWritten? then (disk, runs)
    else if io.RenamedUnsynced? then (disk[n := Intact(merged)], runs)
    else (Removed(disk[n := Intact(merged)], runs, stuck), [MetaFor(n, merged)])
  }

  /** Hot map, run files and registered runs after a spill of the oldest half, and
      after the merge it may lead to. */
  ghost function SpilledTo(hot: Index, order: seq<string>, disk: RunDir, runs: seq<RunMeta>, io: WriteOutcome,
                           mergeIo: WriteOutcome, stuck: set<nat>): (Index, RunDir, seq<RunMeta>)
    requires OrderOk(order, hot)
  {
    var d := |hot| / 2;
    if d == 0 || d > |order| then (hot, disk, runs)
    else
      var pairs, n := Sort(Oldest(order, hot, d)), NextRunN(runs);
      if io.EncodeFailed? || io.NotWritten? || pairs == [] then (hot, disk, runs)
      else if io.RenamedUnsynced? then (hot, disk[n := Intact(pairs)], runs)
      else
        var disk', runs' := disk[n := Intact(pairs)], runs + [MetaFor(n, pairs)];
        var files := if |runs'| > 8 then MergedTo(disk', runs', mergeIo, stuck) else (disk', runs');
        (hot - (set k | k in order[..d]), files.0, files.1)
  }

  lemma {:induction false} NoSpill(hot: Index, order: seq<string>, disk: RunDir, runs: seq<RunMeta>, io: WriteOutcome,
                                   mergeIo: WriteOutcome, stuck: set<nat>)
    requires OrderOk(order, hot)
    ensures |hot| / 2 == 0 ==> SpilledTo(hot, order, disk, runs, io, mergeIo, stuck) == (hot, disk, runs)
  {
    hide OrderOk, Oldest, Sort, MergedTo, NextRunN, MetaFor;
  }

  lemma {:induction false} SpillIs(hot: Index, order: seq<string>, disk: RunDir, runs: seq<RunMeta>, d: nat,
                                   order1: seq<string>, hot1: Index, spilled: seq<Pair>, io: WriteOutcome,
                                   mergeIo: WriteOutcome, stuck: set<nat>)
    requires OrderOk(order, hot) && Drained(order, hot, d, order1, hot1, spilled) && d == |hot| / 2 > 0
    ensures var pairs, n := Sort(spilled), NextRunN(runs);
      && pairs != []
      && SpilledTo(hot, order, disk, runs, io, mergeIo, stuck) ==
         if io.EncodeFailed? || io.NotWritten? then (hot, disk, runs)
         else if io.RenamedUnsynced? then (hot, disk[n := Intact(pairs)], runs)
         else
           var disk', runs' := disk[n := Intact(pairs)], runs + [MetaFor(n, pairs)];
           var files := if |runs'| > 8 then MergedTo(disk', runs', mergeIo, stuck) else (disk', runs');
           (hot1, files.0, files.1)
  {
    OrderCounts(order, hot);
    SortSorts(spilled);
    assert hot1 == hot - (set k | k in order[..d]);
    hide OrderOk, Sort, MergedTo, NextRunN, MetaFor;
  }

  /** Runs pile up to eight; the ninth is merged with them into one. */
  lemma {:induction false} RunsPileUp(hot: Index, order: seq<string>, disk: RunDir, runs: seq<RunMeta>,
                                      added: set<string>, contents: Index, mergeIo: WriteOutcome, stuck: set<nat>)
    requires Tiers(hot, order, disk, runs, added, contents) && |hot| >= 2 && |runs| <= 8
    ensures OrderOk(order, hot)
    ensures var runs' := SpilledTo(hot, order, disk, runs, Written, mergeIo, stuck).2;
      && (|runs| < 8 ==> |runs'| == |runs| + 1 && runs'[..|runs|] == runs)
      && (|runs| == 8 ==> |runs'| == if mergeIo.Written? then 1 else 9)
  {
    var d := |hot| / 2;
    OrderCounts(order, hot);
    var rest, pairs, n := hot - (set k | k in order[..d]), Sort(Oldest(order, hot, d)), NextRunN(runs);
    SpillDrains(hot, order, d);
    SpillKeepsContents(order, hot, disk, runs, added, contents, d, order[d..], rest, Oldest(order, hot, d));
    hide OrderOk, RunsOk, Oldest, Sort, Merged, NextRunN, MetaFor, InRuns, Removed;
    MergedFind(disk[n := Intact(pairs)], runs + [MetaFor(n, pairs)], contents, "");
    assert (runs + [MetaFor(n, pairs)])[..|runs|] == runs;
  }

  lemma {:induction false} SpillDrains(hot: Index, order: seq<string>, d: nat)
    requires OrderOk(order, hot) && d <= |order|
    ensures Drained(order, hot, d, order[d..], hot - (set k | k in order[..d]), Oldest(order, hot, d))
  {
    hide Oldest;
    assert order == order[..d] + order[d..];
    forall k | k in order[d..]
      ensures k !in order[..d]
    {
      var i :| 0 <= i < |order| - d && order[d..][i] == k;
      assert order[d + i] == k;
    }
  }

  class TieredIdem {
    const h1: string -> nat
    const h2: string -> nat
    var hot: Index
    var order: seq<string>
    var cap: nat
    var runs: seq<RunMeta>
    var bloom: Bloom
    var disk: RunDir
    ghost var left: set<nat>
    ghost var contents: Index

    ghost predicate Valid()
      reads this, bloom, bloom.bits
    {
      && bloom.Valid()
      && Tiers(hot, order, disk, runs, bloom.added, contents)
      && Tidy(disk, left, contents)
    }

    ghost function Repr(): set<object>
      reads this
    {
      {this, bloom, bloom.bits}
    }

    constructor WithCap(cap: nat, h1: string -> nat, h2: string -> nat)
      ensures Valid() && fresh(Repr()) && contents == map[] && hot == map[] && this.cap == cap && disk == map[]
    {
      this.h1, this.h2, this.cap := h1, h2, cap;
      hot, order, runs, disk, left, contents := map[], [], [], map[], {}, map[];
      bloom := new Bloom(cap, h1, h2);
    }

    /** As a snapshot loads it: hot entries and their order, nothing attached. */
    constructor Loaded(hot: Index, order: seq<string>, cap: nat, h1: string -> nat, h2: string -> nat)
      requires OrderOk(order, hot)
      ensures Valid() && fresh(Repr()) && contents == hot && this.hot == hot && this.cap == cap && disk == map[] && runs == []
    {
      this.h1, this.h2, this.cap := h1, h2, cap;
      this.hot, this.order, runs, disk, left, contents := hot, order, [], map[], {}, hot;
      bloom := new Bloom(cap, h1, h2);
    }

    /** Nothing attached: only the hot entries answer. */
    lemma HotIsAll()
      requires Valid() && runs == []
      ensures contents == hot && OrderOk(order, hot)
    {
      assert forall k :: !InRuns(disk, [], k);
      hide OrderOk;
    }

    /** Binds a key that is new, or binds it again to the same record. */
    method Insert(key: string, rec: Committed)
      requires Valid() && (key in contents ==> contents[key] == rec)
      modifies this`hot, this`order, this`contents
      ensures Valid() && contents == old(contents)[key := rec]
      ensures hot == old(hot)[key := rec]
    {
      InsertKeeps(hot, order, disk, runs, bloom.added, contents, key, rec, left);
      if key !in hot {
        order := order + [key];
      }
      hot := hot[key := rec];
      contents := contents[key := rec];
    }

    method GetHot(key: string) returns (r: Option<Committed>)
      ensures r == if key in hot then Some(hot[key]) else None
    {
      return if key in hot then Some(hot[key]) else None;
    }

    method BloomMightContain(key: string) returns (maybe: bool)
      requires Valid()
      ensures InRuns(disk, runs, key) ==> maybe
    {
      maybe := bloom.MightContain(key);
    }

    /** Newest run first. */
    method LookupRuns(key: string) returns (r: Option<Committed>)
      requires Valid()
      ensures r.Some? ==> key in contents && contents[key] == r.value
      ensures r.None? ==> !InRuns(disk, runs, key)
    {
      hide OrderOk, RunOk, InRun;
      for i := |runs| downto 0
        invariant forall j :: i <= j < |runs| ==> !InRun(disk, runs[j], key)
      {
        r := SearchRun(disk, runs[i], key, contents);
        if r.Some? {
          return;
        }
      }
      return None;
    }

    /** Hot map, then Bloom filter, then runs: the plain map's answer. */
    method Get(key: string) returns (r: Option<Committed>)
      requires Valid()
      ensures r == if key in contents then Some(contents[key]) else None
    {
      hide RunsOk, OrderOk, InRuns;
      if key in hot {
        return Some(hot[key]);
      }
      var maybe := BloomMightContain(key);
      if !maybe {
        return None;
      }
      r := LookupRuns(key);
      assert r.None? ==> key !in contents;
    }

    method NeedsFlush() returns (b: bool)
      ensures b == (|hot| > cap)
    {
      return |hot| > cap;
    }

    /** Drains the oldest half of the hot map. */
    method Drain(n: nat) returns (spilled: seq<Pair>)
      requires Valid() && n <= |order|
      modifies this`hot, this`order
      ensures OrderOk(old(order), old(hot)) && Drained(old(order), old(hot), n, order, hot, spilled)
    {
      hide RunsOk, InRuns;
      spilled := [];
      for d := 0 to n
        invariant Drained(old(order), old(hot), d, order, hot, spilled)
      {
        hide OrderOk, Oldest;
        DrainStep(old(order), old(hot), d, order, hot, spilled);
        var key := order[0];
        spilled := spilled + [(key, hot[key])];
        order := order[1..];
        hot := hot - {key};
      }
    }

    /** Puts drained entries back at the front. The set of hot keys is restored;
        their age order is not. */
    method Restore(spilled: seq<Pair>)
      requires OrderOk(order, hot)
      requires forall i :: 0 <= i < |spilled| ==> spilled[i].0 !in hot
      requires Distinct(spilled)
      modifies this`hot, this`order
      ensures OrderOk(order, hot)
      ensures forall k :: k in hot <==> k in old(hot) || HasKey(spilled, k)
      ensures forall k :: k in old(hot) ==> hot[k] == old(hot)[k]
      ensures forall p :: p in spilled ==> p.0 in hot && hot[p.0] == p.1
    {
      for i := 0 to |spilled|
        invariant OrderOk(order, hot)
        invariant forall k :: k in hot <==> k in old(hot) || HasKey(spilled[..i], k)
        invariant forall j :: i <= j < |spilled| ==> spilled[j].0 !in hot
        invariant forall k :: k in old(hot) ==> k in hot && hot[k] == old(hot)[k]
        invariant forall j :: 0 <= j < i ==> spilled[j].0 in hot && hot[spilled[j].0] == spilled[j].1
      {
        assert spilled[..i + 1][..i] == spilled[..i];
        order := [spilled[i].0] + order;
        hot := hot[spilled[i].0 := spilled[i].1];
      }
      assert spilled[..|spilled|] == spilled;
    }

    /** Adds keys to the filter. */
    method AddAll(filter: Bloom, pairs: seq<Pair>)
      requires filter.Valid()
      modifies filter`added, filter.bits
      ensures filter.Valid() && filter.added == old(filter.added) + (set p | p in pairs :: p.0)
    {
      for i := 0 to |pairs|
        invariant filter.Valid() && filter.added == old(filter.added) + (set p | p in pairs[..i] :: p.0)
      {
        filter.Add(pairs[i].0);
        assert pairs[..i + 1] == pairs[..i] + [pairs[i]];
      }
      assert pairs[..|pairs|] == pairs;
    }

    /** `merge_runs`: all runs become one, under a number none of them has, so
        the removals that follow cannot touch it. `stuck` files resist removal. */
    method MergeRuns(io: WriteOutcome, stuck: set<nat>)
      requires Valid()
      modifies this`runs, this`disk, this`bloom
      ensures Valid() && fresh(Repr() - old(Repr()))
      ensures (disk, runs) == MergedTo(old(disk), old(runs), io, stuck)
    {
      hide Tiers, Tidy, Dedup, Sort, AllPairs, NextRunN, Removed;
      if |runs| <= 1 {
        return;
      }
      var all := ReadAll();
      var merged := Dedup(Sort(all));
      var n := NextRunN(runs);
      if io.EncodeFailed? || io.NotWritten? {
        return;
      }
      ghost var disk0, runs0 := disk, runs;
      disk := disk[n := Intact(merged)];
      MergeWriteKeeps(hot, order, disk0, runs, bloom.added, contents, merged, left);
      if io.RenamedUnsynced? {
        return;
      }
      NothingRemoved(disk, stuck);
      assert runs[..0] == [];
      for i := 0 to |runs|
        invariant n in disk && disk[n] == Intact(merged) && runs == runs0 && bloom == old(bloom)
        invariant Tidy(disk, left, contents) && disk == Removed(disk0[n := Intact(merged)], runs[..i], stuck)
      {
        RemovedNext(disk0[n := Intact(merged)], runs, i, stuck);
        if runs[i].n !in stuck {
          RemoveKeeps(disk, contents, runs[i].n, left);
          disk := disk - {runs[i].n};
        }
      }
      assert runs[..|runs|] == runs;
      MergeKeepsContents(hot, order, disk0, runs0, old(bloom.added), contents, disk, n, merged);
      runs := [MetaFor(n, merged)];
      var filter := new Bloom(if |merged| < cap then cap else |merged|, h1, h2);
      AddAll(filter, merged);
      bloom := filter;
      assert filter.added == set p | p in merged :: p.0;
    }

    method ReadAll() returns (all: seq<Pair>)
      requires Valid()
      ensures all == AllPairs(disk, runs)
    {
      hide OrderOk, Sorted, HasKey;
      all := [];
      for i := 0 to |runs|
        invariant all == AllPairs(disk, runs[..i])
      {
        assert RunOk(disk, runs[i], contents);
        assert runs[..i + 1][..i] == runs[..i];
        all := all + disk[runs[i].n].pairs;
      }
      assert runs[..|runs|] == runs;
    }

    /** `flush_spill`: the oldest half becomes a new run. On a failed write the
        entries are hot again; either way every lookup answers as before. */
    method FlushSpill(io: WriteOutcome, mergeIo: WriteOutcome, stuck: set<nat>)
      requires Valid()
      modifies Repr()
      ensures Valid() && fresh(Repr() - old(Repr()))
      ensures contents == old(contents) && cap == old(cap)
      ensures io.Written? ==> |hot| == old(|hot|) - old(|hot|) / 2
      ensures !io.Written? ==> hot == old(hot) && runs == old(runs)
      ensures OrderOk(old(order), old(hot))
      ensures (hot, disk, runs) == SpilledTo(old(hot), old(order), old(disk), old(runs), io, mergeIo, stuck)
    {
      hide Tiers, Tidy, Drained, Sort, HasKey, NextRunN, OrderOk, PutBack, SpilledTo, MergedTo, MetaFor;
      HotCounts(hot, order, disk, runs, bloom.added, contents);
      var d := |hot| / 2;
      NoSpill(hot, order, disk, runs, io, mergeIo, stuck);
      if d == 0 {
        return;
      }
      ghost var hot0, order0 := hot, order;
      var spilled := Drain(d);
      var pairs := Sort(spilled);
      var n := NextRunN(runs);
      SpillKeepsDir(disk, hot0, order0, runs, bloom.added, contents, d, order, hot, spilled, n, left);
      UnregisteredKeeps(hot0, order0, disk, runs, bloom.added, contents, n, pairs);
      SpillIs(hot0, order0, disk, runs, d, order, hot, spilled, io, mergeIo, stuck);
      if io.Written? {
        SpillKeepsContents(order0, hot0, disk, runs, bloom.added, contents, d, order, hot, spilled);
        DrainedCount(order0, hot0, d, order, hot, spilled);
        runs := runs + [MetaFor(n, pairs)];
        disk := disk[n := Intact(pairs)];
        AddAll(bloom, pairs);
        if |runs| > 8 {
          MergeRuns(mergeIo, stuck);
        }
        return;
      }
      if io.RenamedUnsynced? {
        disk := disk[n := Intact(pairs)];
      }
      PutBackReady(order0, hot0, d, order, hot, spilled, io);
      var back := PutBack(spilled, io);
      ghost var order1, hot1 := order, hot;
      Restore(back);
      RestoredHot(order0, hot0, d, order1, hot1, spilled, back, hot);
      ReorderKeeps(hot0, order0, order, disk, runs, bloom.added, contents);
    }

    /** `attach_dir` on a freshly loaded index, over run files and a rebuild list
        that say nothing but the truth: afterwards it answers exactly the keys it
        kept, whichever old files resist removal before a rebuild. */
    method AttachDir(dir: RunDir, listing: seq<nat>, rebuild: seq<Pair>, writeOk: bool, stuck: set<nat>,
                     ghost truth: Index)
      requires OrderOk(order, hot) && (forall k :: k in hot ==> k in truth && truth[k] == hot[k])
      requires DirOk(dir, truth) && Lists(listing, dir) && PairsIn(rebuild, truth)
      modifies this`runs, this`bloom, this`disk, this`left, this`contents
      ensures Valid() && fresh(bloom) && fresh(bloom.bits)
      ensures left == (if Usable(dir, listing) then {} else dir.Keys * stuck) <= disk.Keys
      ensures (runs, disk) == AttachedTo(hot, dir, listing, rebuild, writeOk, stuck)
      ensures contents == KeptOf(truth, hot, dir, listing, rebuild, writeOk)
      ensures contents == truth <==> forall k :: k in truth ==> Kept(hot, dir, listing, rebuild, writeOk, k)
    {
      hide OrderOk, Sorted, HasKey, InRuns, PairsIn, OnDisk, MetaFor, Rebuilt, NotHot, AllIntact, Lists, DirOk, RunsOk,
        Kept, Tiers, KeptOf, Tidy, Restrict, Usable, AttachedTo;
      KeptIsAll(truth, hot, dir, listing, rebuild, writeOk);
      var metas, files, rest := ChooseRuns(dir, listing, rebuild, writeOk, stuck);
      ghost var kept := KeptOf(truth, hot, dir, listing, rebuild, writeOk);
      AttachedRuns(hot, dir, listing, rebuild, writeOk, truth, metas, files);
      var filter := RebuildBloom(files, metas, truth);
      AttachedTiers(hot, order, files, metas, filter.added, truth, kept);
      LeftoversKeep(hot, order, files, rest, metas, filter.added, kept);
      LeftKeys(dir, stuck, files);
      runs, disk, bloom := metas, rest + files, filter;
      left, contents := rest.Keys, kept;
    }

    method ChooseRuns(dir: RunDir, listing: seq<nat>, rebuild: seq<Pair>, writeOk: bool, stuck: set<nat>)
      returns (metas: seq<RunMeta>, files: RunDir, rest: RunDir)
      requires Lists(listing, dir)
      ensures (metas, files) ==
        if Usable(dir, listing) then (Metas(dir, listing), dir) else Rebuilt(NotHot(rebuild, hot), writeOk)
      ensures rest == if Usable(dir, listing) then map[] else Restrict(dir, stuck)
      ensures (metas, rest + files) == AttachedTo(hot, dir, listing, rebuild, writeOk, stuck)
    {
      hide Metas, Rebuilt, NotHot, AttachedTo, Restrict;
      var usable := AllReadable(dir, listing);
      if usable && listing != [] {
        metas := LoadMetas(dir, listing);
        files, rest := dir, map[];
      } else {
        rest := RemoveRuns(dir, listing, stuck);
        metas, files := RebuildRuns(rebuild, writeOk);
      }
      AttachedIs(hot, dir, listing, rebuild, writeOk, stuck, metas, files, rest);
    }

    /** Removes every listed file; those that resist stay. */
    method RemoveRuns(dir: RunDir, listing: seq<nat>, stuck: set<nat>) returns (rest: RunDir)
      requires Lists(listing, dir)
      ensures rest == Restrict(dir, stuck)
    {
      rest := dir;
      for i := 0 to |listing|
        invariant rest.Keys <= dir.Keys && forall n :: n in rest ==> rest[n] == dir[n]
        invariant forall n :: n in dir ==> (n in rest <==> n in stuck || n !in listing[..i])
      {
        assert listing[..i + 1] == listing[..i] + [listing[i]];
        if listing[i] !in stuck {
          rest := rest - {listing[i]};
        }
      }
      assert listing[..|listing|] == listing;
    }

    method RebuildBloom(files: RunDir, metas: seq<RunMeta>, ghost truth: Index) returns (filter: Bloom)
      requires RunsOk(files, metas, truth)
      ensures filter.Valid() && fresh(filter) && fresh(filter.bits)
      ensures forall k :: InRuns(files, metas, k) ==> k in filter.added
    {
      hide Sorted, HasKey, PairsIn;
      filter := new Bloom(cap, h1, h2);
      for i := 0 to |metas|
        invariant fresh(filter) && fresh(filter.bits) && filter.Valid()
        invariant forall j, k :: 0 <= j < i && InRun(files, metas[j], k) ==> k in filter.added
      {
        assert RunOk(files, metas[i], truth);
        AddAll(filter, files[metas[i].n].pairs);
        RunKeys(files, metas[i]);
      }
    }

    method AllReadable(dir: RunDir, listing: seq<nat>) returns (ok: bool)
      requires Lists(listing, dir)
      ensures ok <==> AllIntact(dir, listing)
    {
      for i := 0 to |listing|
        invariant forall j :: 0 <= j < i ==> dir[listing[j]].Intact?
      {
        if dir[listing[i]].Damaged? {
          return false;
        }
      }
      return true;
    }

    method LoadMetas(dir: RunDir, listing: seq<nat>) returns (metas: seq<RunMeta>)
      requires Lists(listing, dir) && AllIntact(dir, listing)
      ensures metas == Metas(dir, listing)
    {
      metas := [];
      for i := 0 to |listing|
        invariant metas == Metas(dir, listing[..i])
      {
        assert listing[..i + 1][..i] == listing[..i];
        var pairs := dir[listing[i]].pairs;
        if pairs != [] {
          metas := metas + [MetaFor(listing[i], pairs)];
        }
      }
      assert listing[..|listing|] == listing;
    }

    /** One run, number 0, from the entries of the list that are not hot. */
    method RebuildRuns(rebuild: seq<Pair>, writeOk: bool) returns (metas: seq<RunMeta>, files: RunDir)
      ensures (metas, files) == Rebuilt(NotHot(rebuild, hot), writeOk)
    {
      var spill: seq<Pair> := [];
      for i := 0 to |rebuild|
        invariant spill == NotHot(rebuild[..i], hot)
      {
        assert rebuild[..i + 1][..i] == rebuild[..i];
        if rebuild[i].0 !in hot {
          spill := spill + [rebuild[i]];
        }
      }
      assert rebuild[..|rebuild|] == rebuild;
      if spill == [] || !writeOk {
        return [], map[];
      }
      var sorted := Sort(spill);
      SortSorts(spill);
      return [MetaFor(0, sorted)], map[0 := Intact(sorted)];
    }
  }
}
