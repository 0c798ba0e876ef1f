/** The snapshot directory: written by tmp-then-rename, pruned to the two newest,
    loaded newest valid first. */
module Snapshots {
  import opened LedgerTypes
  import opened Books

  /** A `.snap` file, as loading finds it: the state it holds, or a checksum or
      parse failure. */
  datatype SnapFile = Holding(state: Book) | Invalid

  /** Snapshot files by the sequence number in their name. */
  type SnapDir = map<nat, SnapFile>

  /** How far a write gets: nothing under the final name, the file there but the
      directory sync failed, or all of it. */
  datatype SnapIo = TmpFailed | Renamed | Synced

  ghost function Newer(keys: set<nat>, q: nat): set<nat> {
    set r | r in keys && r > q
  }

  /** One of the two newest. */
  ghost predicate AmongNewest(keys: set<nat>, q: nat) {
    q in keys && |Newer(keys, q)| < 2
  }

  ghost predicate Descending(s: seq<nat>) {
    forall i, j :: 0 <= i < j < |s| ==> s[i] > s[j]
  }

  function Elements(s: seq<nat>): set<nat> {
    set i | 0 <= i < |s| :: s[i]
  }

  // ------------------------------------------------------------------
  // Enumerating newest first
  // ------------------------------------------------------------------

  method Newest(keys: set<nat>) returns (q: nat)
    requires keys != {}
    ensures q in keys && forall r :: r in keys ==> r <= q
  {
    q :| q in keys;
    var rest := keys - {q};
    while rest != {}
      invariant rest < keys && q in keys
      invariant forall r :: r in keys && r !in rest ==> r <= q
      decreases |rest|
    {
      var r :| r in rest;
      if r > q {
        q := r;
      }
      rest := rest - {r};
    }
  }

  method NewestFirst(keys: set<nat>) returns (s: seq<nat>)
    ensures Descending(s) && Elements(s) == keys
  {
    s := [];
    var rest := keys;
    assert Elements([]) == {};
    hide Elements;
    while rest != {}
      invariant Descending(s)
      invariant forall k :: k in keys <==> k in Elements(s) || k in rest
      invariant s != [] ==> forall r :: r in rest ==> s[|s| - 1] > r
      decreases |rest|
    {
      hide Descending;
      var q := Newest(rest);
      ElementsSnoc(s, q);
      DescendingSnoc(s, q);
      s := s + [q];
      rest := rest - {q};
    }
  }

  lemma {:induction false} DescendingSnoc(s: seq<nat>, q: nat)
    requires Descending(s) && (s != [] ==> s[|s| - 1] > q)
    ensures Descending(s + [q])
  {
  }

  lemma {:induction false} ElementsSnoc(s: seq<nat>, q: nat)
    ensures Elements(s + [q]) == Elements(s) + {q}
  {
    var all := s + [q];
    assert all[|s|] == q && forall i :: 0 <= i < |s| ==> all[i] == s[i];
    forall r | r in Elements(s) + {q}
      ensures r in Elements(all)
    {
      if r != q {
        var i :| 0 <= i < |s| && s[i] == r;
        assert all[i] == r;
      }
    }
  }

  lemma {:induction false} ElementsCount(s: seq<nat>)
    requires Descending(s)
    ensures |Elements(s)| == |s|
  {
    if s == [] {
      assert Elements(s) == {};
    } else {
      var n := |s| - 1;
      ElementsCount(s[..n]);
      ElementsSnoc(s[..n], s[n]);
      assert s[..n] + [s[n]] == s;
      assert s[n] !in Elements(s[..n]);
    }
  }

  /** In a descending list, place i has exactly i newer entries. */
  lemma {:induction false} PlaceIsRank(s: seq<nat>, i: nat)
    requires Descending(s) && i < |s|
    ensures |Newer(Elements(s), s[i])| == i
  {
    assert Newer(Elements(s), s[i]) == Elements(s[..i]) by {
      forall r | r in Newer(Elements(s), s[i])
        ensures r in Elements(s[..i])
      {
        var j :| 0 <= j < |s| && s[j] == r;
        assert j < i;
        assert s[..i][j] == r;
      }
      forall r | r in Elements(s[..i])
        ensures r in Newer(Elements(s), s[i])
      {
        var j :| 0 <= j < i && s[..i][j] == r;
        assert s[j] == r;
      }
    }
    ElementsCount(s[..i]);
  }

  /** What comes after the first two places. */
  function PastTwo(s: seq<nat>): seq<nat> {
    if |s| <= 2 then [] else s[2..]
  }

  lemma {:induction false} NewestAreFirst(s: seq<nat>, q: nat)
    requires Descending(s) && q in Elements(s)
    ensures AmongNewest(Elements(s), q) <==> q !in PastTwo(s)
  {
    var j :| 0 <= j < |s| && s[j] == q;
    PlaceIsRank(s, j);
    hide Elements;
    if j >= 2 {
      assert s[2..][j - 2] == q;
    }
  }

  // ------------------------------------------------------------------
  // Loading
  // ------------------------------------------------------------------

  /** The newest file that passes its checks; invalid ones are skipped. */
  method LoadLatest(dir: SnapDir) returns (r: Option<(Book, nat)>)
    ensures r.None? <==> forall q :: q in dir ==> dir[q].Invalid?
    ensures r.Some? ==>
      var (b, q) := r.value;
      q in dir && dir[q] == Holding(b) && forall newer :: newer in dir && newer > q ==> dir[newer].Invalid?
  {
    var entries := NewestFirst(dir.Keys);
    for i := 0 to |entries|
      invariant forall j :: 0 <= j < i ==> entries[j] in dir && dir[entries[j]].Invalid?
    {
      assert entries[i] in Elements(entries);
      match dir[entries[i]] {
        case Holding(b) =>
          forall newer | newer in dir && newer > entries[i]
            ensures dir[newer].Invalid?
          {
            var j :| 0 <= j < |entries| && entries[j] == newer;
          }
          return Some((b, entries[i]));
        case Invalid =>
      }
    }
    forall q | q in dir
      ensures dir[q].Invalid?
    {
      assert q in Elements(entries);
    }
    return None;
  }

  // ------------------------------------------------------------------
  // Writing
  // ------------------------------------------------------------------

  /** What a write leaves of the directory: as it was before the rename, the new
      file after it, and after the directory sync only the two newest and those that
      could not be deleted. */
  ghost predicate LeavesFiles(before: SnapDir, after: SnapDir, state: Book, seqno: nat, io: SnapIo, stuck: set<nat>) {
    var all := before[seqno := Holding(state)];
    match io
    case TmpFailed => after == before
    case Renamed => after == all
    case Synced =>
      && after.Keys <= all.Keys && (forall q :: q in after ==> after[q] == all[q])
      && forall q :: q in all ==> (q in after <==> AmongNewest(all.Keys, q) || q in stuck)
  }

  /** The first two places of a list, or all there are. */
  function FirstTwo(s: seq<nat>): seq<nat> {
    if |s| <= 2 then s else s[..2]
  }

  lemma {:induction false} NewestTwo(s: seq<nat>, q: nat)
    requires Descending(s) && q in Elements(s)
    ensures AmongNewest(Elements(s), q) <==> q in FirstTwo(s)
  {
    var j :| 0 <= j < |s| && s[j] == q;
    PlaceIsRank(s, j);
    hide Elements;
    if j < 2 {
      assert FirstTwo(s)[j] == q;
    }
  }

  lemma {:induction false} FrontBeforeRest(s: seq<nat>, kept: nat, gone: nat)
    requires Descending(s)
    requires kept in FirstTwo(s) && gone in s && gone !in FirstTwo(s)
    ensures kept > gone
  {
    var i :| 0 <= i < |FirstTwo(s)| && FirstTwo(s)[i] == kept;
    var j :| 0 <= j < |s| && s[j] == gone;
    assert FirstTwo(s) == s[..|FirstTwo(s)|];
    assert forall k :: 0 <= k < |FirstTwo(s)| ==> FirstTwo(s)[k] != gone;
    assert j >= |FirstTwo(s)|;
  }

  /** What pruning the files named s leaves when every removal went through. */
  lemma {:induction false} PrunedNames(s: seq<nat>, left: set<nat>)
    requires Descending(s) && left <= Elements(s)
    requires forall q :: q in Elements(s) ==> (q in left <==> AmongNewest(Elements(s), q))
    ensures left == Elements(FirstTwo(s))
    ensures |left| == if |s| <= 2 then |s| else 2
  {
    forall q | q in Elements(s)
      ensures q in left <==> q in FirstTwo(s)
    {
      NewestTwo(s, q);
    }
    hide AmongNewest;
    assert left == Elements(FirstTwo(s));
    ElementsCount(FirstTwo(s));
  }

  lemma {:induction false} SyncedNames(before: SnapDir, after: SnapDir, state: Book, seqno: nat)
    requires LeavesFiles(before, after, state, seqno, Synced, {})
    ensures var all := before.Keys + {seqno};
      after.Keys <= all && forall q :: q in all ==> (q in after.Keys <==> AmongNewest(all, q))
  {
    hide AmongNewest;
    assert before[seqno := Holding(state)].Keys == before.Keys + {seqno};
  }

  lemma {:induction false} Oldest(keys: set<nat>) returns (q: nat)
    requires keys != {}
    ensures q in keys && forall r :: r in keys ==> q <= r
    decreases |keys|
  {
    var one :| one in keys;
    var rest := keys - {one};
    q := one;
    if rest == {} {
      assert keys == {one};
    } else {
      var r := Oldest(rest);
      q := if r < one then r else one;
      assert forall k :: k in keys ==> k == one || k in rest;
    }
  }

  lemma {:induction false} Listed(keys: set<nat>) returns (s: seq<nat>)
    ensures Descending(s) && Elements(s) == keys
    decreases |keys|
  {
    if keys == {} {
      s := [];
    } else {
      var q := Oldest(keys);
      s := Listed(keys - {q});
      assert s != [] ==> s[|s| - 1] in Elements(s);
      DescendingSnoc(s, q);
      ElementsSnoc(s, q);
      s := s + [q];
    }
  }

  /** After a write that went through, with every removal a success, the directory holds
      two files, or the one there is, and none that was removed is newer than one that
      stayed. */
  lemma {:induction false} KeepsTwo(before: SnapDir, after: SnapDir, state: Book, seqno: nat)
    requires LeavesFiles(before, after, state, seqno, Synced, {})
    ensures |after.Keys| == if |before.Keys + {seqno}| <= 2 then |before.Keys + {seqno}| else 2
    ensures forall kept, gone :: kept in after && gone in before && gone !in after ==> kept > gone
  {
    var s := Listed(before.Keys + {seqno});
    SyncedNames(before, after, state, seqno);
    PrunedNames(s, after.Keys);
    ElementsCount(s);
    hide LeavesFiles;
    hide AmongNewest;
    hide FirstTwo;
    forall kept, gone | kept in after && gone in before && gone !in after
      ensures kept > gone
    {
      assert kept in Elements(FirstTwo(s)) && gone in Elements(s) && gone !in Elements(FirstTwo(s));
      FrontBeforeRest(s, kept, gone);
    }
  }

  class Snapshots {
    var files: SnapDir

    constructor ()
      ensures files == map[]
    {
      files := map[];
    }

    /** Deletes all but the two newest; a delete that fails leaves its file. */
    method PruneOld(stuck: set<nat>)
      modifies this
      ensures files.Keys <= old(files).Keys && forall q :: q in files ==> files[q] == old(files)[q]
      ensures forall q :: q in old(files) ==> (q in files <==> AmongNewest(old(files).Keys, q) || q in stuck)
    {
      ghost var before := files;
      var entries := NewestFirst(files.Keys);
      var rest := PastTwo(entries);
      for i := 0 to |rest|
        invariant files.Keys <= before.Keys && forall q :: q in files ==> files[q] == before[q]
        invariant forall q :: q in before ==> (q in files <==> q in stuck || q !in rest[..i])
      {
        if rest[i] !in stuck {
          files := files - {rest[i]};
        }
      }
      assert rest[..|rest|] == rest;
      forall q | q in before
        ensures AmongNewest(before.Keys, q) <==> q !in rest
      {
        NewestAreFirst(entries, q);
      }
    }

    /** Tmp file, rename, directory sync, prune. The final name never holds a
        partial file. */
    method WriteSnapshot(state: Book, seqno: nat, io: SnapIo, stuck: set<nat>) returns (ok: bool)
      modifies this
      ensures ok <==> io.Synced?
      ensures LeavesFiles(old(files), files, state, seqno, io, stuck)
    {
      if io.TmpFailed? {
        return false;
      }
      files := files[seqno := Holding(state)];
      if io.Renamed? {
        return false;
      }
      PruneOld(stuck);
      return true;
    }
  }
}
