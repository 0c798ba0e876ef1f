/**
 The order run files are sorted by, and sorting and searching by it: code points
 from the left, a proper prefix first. Sorting gives a sorted permutation,
 dropping the later of two entries with one key keeps every key, and binary
 search of a sorted run finds a key exactly when the run has an entry for it, as
 the lookups in run files need.
 */
module KeyOrder {
  import opened LedgerTypes

  predicate Less(a: string, b: string) {
    b != "" && (a == "" || a[0] < b[0] || (a[0] == b[0] && Less(a[1..], b[1..])))
  }

  predicate Leq(a: string, b: string) {
    a == b || Less(a, b)
  }

  lemma {:induction false} Total(a: string, b: string)
    ensures Leq(a, b) || Less(b, a)
    ensures Leq(a, b) || Leq(b, a)
    ensures !(Less(a, b) && Less(b, a)) && !Less(a, a)
  {
    if a != "" && b != "" && a[0] == b[0] {
      Total(a[1..], b[1..]);
      assert a == [a[0]] + a[1..] && b == [b[0]] + b[1..];
    }
    if a != "" {
      Total(a[1..], a[1..]);
    }
  }

  lemma {:induction false} Transitive(a: string, b: string, c: string)
    requires Leq(a, b) && Leq(b, c)
    ensures Leq(a, c)
  {
    if a != "" && b != "" && c != "" && a[0] == b[0] == c[0] && a != b && b != c {
      Transitive(a[1..], b[1..], c[1..]);
      assert a == [a[0]] + a[1..] && c == [c[0]] + c[1..];
    }
  }

  /** One entry of a run file. */
  type Pair = (string, Committed)

  ghost predicate Sorted(ps: seq<Pair>) {
    forall i, j :: 0 <= i < j < |ps| ==> Leq(ps[i].0, ps[j].0)
  }

  function Insert(p: Pair, ps: seq<Pair>): seq<Pair> {
    if ps == [] || Leq(p.0, ps[0].0) then [p] + ps else [ps[0]] + Insert(p, ps[1..])
  }

  /** `sort_by` key: stable. */
  function Sort(ps: seq<Pair>): seq<Pair> {
    if ps == [] then [] else Insert(ps[0], Sort(ps[1..]))
  }

  lemma {:induction false} InsertSorts(p: Pair, ps: seq<Pair>)
    requires Sorted(ps)
    ensures var r := Insert(p, ps);
      && Sorted(r) && |r| == |ps| + 1 && multiset(r) == multiset(ps) + multiset{p}
  {
    hide Leq;
    if ps != [] {
      Total(p.0, ps[0].0);
      var rest := Insert(p, ps[1..]);
      InsertSorts(p, ps[1..]);
      assert ps == [ps[0]] + ps[1..];
      LeqHead(p, ps);
      HeadBelow(p, ps, rest);
    }
  }

  lemma LeqHead(p: Pair, ps: seq<Pair>)
    requires Sorted(ps) && ps != []
    ensures Leq(p.0, ps[0].0) ==> Sorted([p] + ps)
  {
    hide Leq;
    forall j | 0 <= j < |ps| && Leq(p.0, ps[0].0)
      ensures Leq(p.0, ps[j].0)
    {
      assert j == 0 || Leq(ps[0].0, ps[j].0);
      if j > 0 {
        Transitive(p.0, ps[0].0, ps[j].0);
      }
    }
  }

  lemma HeadBelow(p: Pair, ps: seq<Pair>, rest: seq<Pair>)
    requires Sorted(ps) && ps != [] && Sorted(rest) && multiset(rest) == multiset(ps[1..]) + multiset{p}
    ensures Leq(ps[0].0, p.0) ==> Sorted([ps[0]] + rest)
  {
    forall j | 0 <= j < |rest| && Leq(ps[0].0, p.0)
      ensures Leq(ps[0].0, rest[j].0)
    {
      assert rest[j] in multiset(rest);
      if rest[j] != p {
        assert rest[j] in ps[1..];
      }
    }
  }

  lemma {:induction false} SortSorts(ps: seq<Pair>)
    ensures Sorted(Sort(ps)) && |Sort(ps)| == |ps| && multiset(Sort(ps)) == multiset(ps)
  {
    if ps != [] {
      SortSorts(ps[1..]);
      InsertSorts(ps[0], Sort(ps[1..]));
      assert ps == [ps[0]] + ps[1..];
    }
  }

  /** Sorting keeps exactly the same entries. */
  lemma SortKeeps(ps: seq<Pair>, p: Pair)
    ensures p in Sort(ps) <==> p in ps
  {
    SortSorts(ps);
    assert p in Sort(ps) <==> p in multiset(Sort(ps));
    assert p in ps <==> p in multiset(ps);
  }

  lemma SortSubset(ps: seq<Pair>)
    ensures forall p :: p in Sort(ps) <==> p in ps
  {
    forall p
      ensures p in Sort(ps) <==> p in ps
    {
      SortKeeps(ps, p);
    }
  }

  ghost predicate Distinct(ps: seq<Pair>) {
    forall i, j :: 0 <= i < j < |ps| ==> ps[i].0 != ps[j].0
  }

  lemma {:induction false} InsertDistinct(p: Pair, ps: seq<Pair>)
    requires Distinct(ps) && forall i :: 0 <= i < |ps| ==> ps[i].0 != p.0
    ensures Distinct(Insert(p, ps)) && forall q :: q in Insert(p, ps) <==> q == p || q in ps
  {
    if ps != [] && !Leq(p.0, ps[0].0) {
      var rest := Insert(p, ps[1..]);
      InsertDistinct(p, ps[1..]);
      assert ps == [ps[0]] + ps[1..];
      forall j | 0 <= j < |rest|
        ensures rest[j].0 != ps[0].0
      {
        assert rest[j] in rest;
      }
    }
  }

  lemma {:induction false} SortDistinct(ps: seq<Pair>)
    requires Distinct(ps)
    ensures Distinct(Sort(ps))
  {
    if ps != [] {
      var rest := Sort(ps[1..]);
      SortDistinct(ps[1..]);
      forall i | 0 <= i < |rest|
        ensures rest[i].0 != ps[0].0
      {
        SortKeeps(ps[1..], rest[i]);
      }
      InsertDistinct(ps[0], rest);
    }
  }

  /** `dedup_by` key: of neighbours with one key the first stays. */
  function Dedup(ps: seq<Pair>): seq<Pair> {
    if |ps| <= 1 then ps
    else
      var front := Dedup(ps[..|ps| - 1]);
      if front != [] && front[|front| - 1].0 == ps[|ps| - 1].0 then front else front + [ps[|ps| - 1]]
  }

  predicate HasKey(ps: seq<Pair>, key: string) {
    ps != [] && (ps[|ps| - 1].0 == key || HasKey(ps[..|ps| - 1], key))
  }

  lemma {:induction false} HasKeyIn(ps: seq<Pair>, key: string)
    ensures HasKey(ps, key) <==> exists i :: 0 <= i < |ps| && ps[i].0 == key
  {
    if ps != [] {
      HasKeyIn(ps[..|ps| - 1], key);
    }
  }

  lemma {:induction false} DedupKeepsKeys(ps: seq<Pair>, key: string)
    ensures HasKey(ps, key) ==> HasKey(Dedup(ps), key)
  {
    if |ps| > 1 {
      var front := Dedup(ps[..|ps| - 1]);
      DedupKeepsKeys(ps[..|ps| - 1], key);
      assert (front + [ps[|ps| - 1]])[..|front|] == front;
    }
  }

  lemma {:induction false} DedupSubset(ps: seq<Pair>)
    ensures forall p :: p in Dedup(ps) ==> p in ps
    ensures ps != [] ==> Dedup(ps) != []
  {
    if |ps| > 1 {
      DedupSubset(ps[..|ps| - 1]);
    }
  }

  lemma {:induction false} DedupSorted(ps: seq<Pair>)
    requires Sorted(ps)
    ensures Sorted(Dedup(ps))
  {
    hide Leq;
    if |ps| > 1 {
      var front, last := ps[..|ps| - 1], ps[|ps| - 1];
      DedupSorted(front);
      DedupSubset(front);
      var d := Dedup(front);
      forall i | 0 <= i < |d|
        ensures Leq(d[i].0, last.0)
      {
        assert d[i] in front;
      }
    }
  }

  /** Binary search of a sorted run. */
  method BinarySearch(ps: seq<Pair>, key: string) returns (r: Option<Committed>)
    requires Sorted(ps)
    ensures r.Some? ==> (key, r.value) in ps
    ensures r.None? ==> forall i :: 0 <= i < |ps| ==> ps[i].0 != key
  {
    hide Leq, Less;
    var lo, hi := 0, |ps|;
    while lo < hi
      invariant 0 <= lo <= hi <= |ps|
      invariant forall i :: 0 <= i < lo ==> ps[i].0 != key
      invariant forall i :: hi <= i < |ps| ==> ps[i].0 != key
    {
      var mid := (lo + hi) / 2;
      if ps[mid].0 == key {
        assert ps[mid] == (key, ps[mid].1);
        return Some(ps[mid].1);
      }
      Discards(ps, key, mid);
      if Less(ps[mid].0, key) {
        lo := mid + 1;
      } else {
        hi := mid;
      }
    }
    return None;
  }

  /** A key other than the middle one is on one side only. */
  lemma Discards(ps: seq<Pair>, key: string, mid: nat)
    requires Sorted(ps) && mid < |ps| && ps[mid].0 != key
    ensures Less(ps[mid].0, key) ==> forall i :: 0 <= i <= mid ==> ps[i].0 != key
    ensures !Less(ps[mid].0, key) ==> forall i :: mid <= i < |ps| ==> ps[i].0 != key
  {
    Total(ps[mid].0, key);
    forall i | 0 <= i < |ps| && ps[i].0 == key
      ensures if Less(ps[mid].0, key) then i > mid else i < mid
    {
      Total(ps[i].0, ps[mid].0);
      assert i < mid ==> Leq(ps[i].0, ps[mid].0);
      assert mid < i ==> Leq(ps[mid].0, ps[i].0);
    }
  }
}
