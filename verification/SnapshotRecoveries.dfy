/** Recovery from what the snapshot directory holds. */
module SnapshotRecoveries {
  import opened LedgerTypes
  import opened Frames
  import opened Segments
  import opened Books
  import opened Snapshots
  import opened System
  import opened StoreSafety
  import opened StoreGuarantees

  /** Valid files hold snapshots the store took. */
  ghost predicate Holds(dir: SnapDir, snaps: map<nat, Book>) {
    forall q :: q in dir && dir[q].Holding? ==> q in snaps && snaps[q] == dir[q].state
  }

  /** Whatever files are missing, pruned or invalid, loading the newest valid one
      and replaying the tail recovers the whole surviving log. */
  method RecoverFrom(dir: SnapDir, ghost c: Codec, ghost ls: seq<Label>, ghost image: Disk)
    returns (pick: Option<nat>, ghost m: nat)
    requires Sound(c) && Orderly(c, ls) && CrashImage(Run(c, ls).value.disk, image)
    requires Holds(dir, Run(c, ls).value.snaps)
    ensures pick.None? <==> forall q :: q in dir ==> dir[q].Invalid?
    ensures pick.Some? ==> pick.value in Run(c, ls).value.snaps
    ensures var s := Run(c, ls).value;
      var r := Next(c, s, Crash(image, pick));
      && s.dur <= m <= |s.log| && r.Some? && r.value.log == s.log[..m]
      && Replay(EmptyBook, s.log[..m]) == Some(Full(r.value))
  {
    hide RunFrom, SettledFrom, Next, Replay, Full, CrashImage;
    var latest := LoadLatest(dir);
    pick := if latest.Some? then Some(latest.value.1) else None;
    m := CrashSafety(c, ls, image, pick);
  }
}
