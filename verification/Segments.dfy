/**
 A book's log on disk: segment files named by the first sequence number they
 hold, appended to at the end, sealed by rotation, repaired on open.
 */
module Segments {
  import opened LedgerTypes
  import opened Frames

  /** One segment file: its visible bytes, how many of them are durable, and
      whether its directory entry is. */
  datatype SegFile = SegFile(base: nat, bytes: seq<byte>, synced: nat, linked: bool)

  /** Segment files in ascending base order; the last one is active. */
  type Disk = seq<SegFile>

  function Last(d: Disk): SegFile
    requires d != []
  {
    d[|d| - 1]
  }

  function Front(d: Disk): Disk
    requires d != []
  {
    d[..|d| - 1]
  }

  function WithLast(d: Disk, f: SegFile): (r: Disk)
    requires d != []
    ensures r != [] && Last(r) == f && Front(r) == Front(d)
  {
    Front(d) + [f]
  }

  // ------------------------------------------------------------------
  // What a disk holds
  // ------------------------------------------------------------------

  ghost predicate Dense(es: seq<WireEvent>) {
    forall j :: 0 <= j < |es| ==> es[j].seqno == j + 1
  }

  /** Sealed files hold exactly `es`, durably, each at least one event, each
      named by the first event it holds. */
  ghost predicate Sealed(c: Codec, d: Disk, es: seq<WireEvent>) {
    if d == [] then es == []
    else
      var f := Last(d);
      && 1 <= f.base <= |es|
      && f.bytes == Stream(c, es[f.base - 1..])
      && f.synced == |f.bytes| && f.linked
      && Sealed(c, Front(d), es[..f.base - 1])
  }

  /** The log is the sealed files' events and then the active file's share. */
  ghost predicate Splits(c: Codec, d: Disk, es: seq<WireEvent>) {
    && d != []
    && 1 <= Last(d).base <= |es| + 1
    && Sealed(c, Front(d), es[..Last(d).base - 1])
  }

  ghost function Share(d: Disk, es: seq<WireEvent>): seq<WireEvent>
    requires d != [] && 1 <= Last(d).base <= |es| + 1
  {
    es[Last(d).base - 1..]
  }

  /** A reader finds exactly `es`: the active file is the frames of its share of
      the log, up to an undecodable tail. */
  ghost predicate Shows(c: Codec, d: Disk, es: seq<WireEvent>) {
    && Splits(c, d, es)
    && var whole := Stream(c, Share(d, es));
       whole <= Last(d).bytes && !DecodeFrame(c, Last(d).bytes[|whole|..]).Got?
  }

  ghost predicate Holds(c: Codec, d: Disk, es: seq<WireEvent>) {
    Splits(c, d, es) && Last(d).bytes == Stream(c, Share(d, es))
  }

  /** The first n events are durable. A file whose directory entry may still be
      lost is empty, and not the only one. */
  ghost predicate Durable(c: Codec, d: Disk, es: seq<WireEvent>, n: nat) {
    && d != []
    && 1 <= Last(d).base <= n + 1 <= |es| + 1
    && Last(d).synced == |Stream(c, es[Last(d).base - 1..n])|
    && (!Last(d).linked ==> |d| > 1 && n == |es| == Last(d).base - 1)
  }

  /** Whether the bytes of the active file are all durable. */
  predicate AllSynced(d: Disk) {
    d != [] && Last(d).synced == |Last(d).bytes|
  }

  lemma HoldsShows(c: Codec, d: Disk, es: seq<WireEvent>)
    requires Holds(c, d, es)
    ensures Shows(c, d, es)
  {
    assert Last(d).bytes[|Last(d).bytes|..] == [];
  }

  /** The active file is synced exactly when every event held is durable. */
  lemma SyncedExactly(c: Codec, d: Disk, es: seq<WireEvent>, n: nat)
    requires Holds(c, d, es) && Durable(c, d, es, n)
    ensures AllSynced(d) <==> n == |es|
  {
    hide Sealed;
    var lo := Last(d).base - 1;
    assert es[lo..|es|] == es[lo..];
    if n < |es| {
      StreamSplit(c, es[lo..], n - lo);
      assert es[lo..][..n - lo] == es[lo..n];
      assert es[lo..][n - lo..] != [];
    }
  }

  // ------------------------------------------------------------------
  // What the writer does to it
  // ------------------------------------------------------------------

  const FreshDisk: Disk := [SegFile(1, [], 0, true)]

  function AppendBytes(d: Disk, frame: seq<byte>): Disk
    requires d != []
  {
    WithLast(d, Last(d).(bytes := Last(d).bytes + frame))
  }

  function SyncActive(d: Disk): Disk
    requires d != []
  {
    WithLast(d, Last(d).(synced := |Last(d).bytes|))
  }

  /** Creating the segment file named `base`; opening it again when it is the
      active one already. */
  function CreateSegment(d: Disk, base: nat): Disk
    requires d != []
  {
    if Last(d).base == base then d else d + [SegFile(base, [], 0, false)]
  }

  function SyncDir(d: Disk): Disk
    requires d != []
  {
    WithLast(d, Last(d).(linked := true))
  }

  lemma FreshHolds(c: Codec)
    ensures Holds(c, FreshDisk, []) && Durable(c, FreshDisk, [], 0)
  {
    assert Front(FreshDisk) == [];
  }

  lemma AppendHolds(c: Codec, d: Disk, es: seq<WireEvent>, n: nat, e: WireEvent)
    requires Holds(c, d, es) && Durable(c, d, es, n) && Last(d).linked
    ensures Holds(c, AppendBytes(d, Frame(c, e)), es + [e])
    ensures Durable(c, AppendBytes(d, Frame(c, e)), es + [e], n)
  {
    hide Stream, Frame, Sealed;
    var es' := es + [e];
    var lo := Last(d).base - 1;
    StreamSnoc(c, es[lo..], e);
    assert es'[lo..] == es[lo..] + [e];
    assert es'[..lo] == es[..lo];
    assert es'[lo..n] == es[lo..n];
  }

  lemma SyncHolds(c: Codec, d: Disk, es: seq<WireEvent>, n: nat)
    requires Holds(c, d, es) && Durable(c, d, es, n)
    ensures Holds(c, SyncActive(d), es) && Durable(c, SyncActive(d), es, |es|)
  {
    assert es[Last(d).base - 1..|es|] == es[Last(d).base - 1..];
  }

  lemma SyncDirHolds(c: Codec, d: Disk, es: seq<WireEvent>, n: nat)
    requires Holds(c, d, es) && Durable(c, d, es, n)
    ensures Holds(c, SyncDir(d), es) && Durable(c, SyncDir(d), es, n)
  {
  }

  /** Once synced, an active file with events in it can be sealed. */
  lemma SealActive(c: Codec, d: Disk, es: seq<WireEvent>)
    requires Holds(c, d, es) && Durable(c, d, es, |es|) && Last(d).linked && Last(d).base <= |es|
    ensures Sealed(c, d, es)
  {
    assert es[Last(d).base - 1..|es|] == es[Last(d).base - 1..];
  }

  lemma CreateHolds(c: Codec, d: Disk, es: seq<WireEvent>)
    requires Holds(c, d, es) && Durable(c, d, es, |es|) && Last(d).linked
    ensures Holds(c, CreateSegment(d, |es| + 1), es)
    ensures Durable(c, CreateSegment(d, |es| + 1), es, |es|)
  {
    hide Stream, Sealed;
    if Last(d).base <= |es| {
      SealActive(c, d, es);
      SealedThenEmpty(c, d, es);
    }
  }

  lemma {:induction false} SealedThenEmpty(c: Codec, d: Disk, es: seq<WireEvent>)
    requires d != [] && Sealed(c, d, es)
    ensures var r := d + [SegFile(|es| + 1, [], 0, false)];
      Holds(c, r, es) && Durable(c, r, es, |es|)
  {
    assert Stream(c, []) == [];
    hide Stream, Sealed;
    assert es[..|es|] == es && es[|es|..] == [] && es[|es|..|es|] == [];
    assert Front(d + [SegFile(|es| + 1, [], 0, false)]) == d;
  }

  // ------------------------------------------------------------------
  // Crash and repair
  // ------------------------------------------------------------------

  /** A power loss keeps each file's durable bytes and any prefix of the rest,
      and may lose the newest file when its directory entry was not synced. */
  ghost predicate CrashImage(d: Disk, image: Disk)
  {
    && d != []
    && (|image| == |d| || (|image| == |d| - 1 && !Last(d).linked))
    && forall i :: 0 <= i < |image| ==> CutFile(d[i], image[i])
  }

  ghost predicate CutFile(f: SegFile, g: SegFile) {
    g.base == f.base && g.bytes <= f.bytes && f.synced <= |g.bytes| == g.synced && g.linked
  }

  /** Whether the active file decodes to its end. */
  predicate Clean(c: Codec, d: Disk)
    requires d != []
  {
    ScanAll(c, Last(d).bytes).end.AtEnd?
  }

  /** `open_with_max`: a fresh directory gets segment 1; a sealed segment must
      decode to its end; the final one is cut back to its last good frame and then
      synced, but when it is clean it is left as it is, synced or not. The
      directory is always synced. */
  function Repair(c: Codec, image: Disk): Option<Disk> {
    if image == [] then Some(FreshDisk)
    else if !SealedClean(c, Front(image)) then None
    else
      var f, good := Last(image), ScanAll(c, Last(image).bytes).good;
      Some(WithLast(image, if Clean(c, image) then f.(linked := true) else SegFile(f.base, f.bytes[..good], good, true)))
  }

  predicate SealedClean(c: Codec, d: Disk) {
    d == [] || (ScanAll(c, Last(d).bytes).end.AtEnd? && SealedClean(c, Front(d)))
  }

  lemma {:induction false} SealedIsClean(c: Codec, d: Disk, es: seq<WireEvent>)
    requires Sound(c) && AllEncodable(c, es) && Sealed(c, d, es)
    ensures SealedClean(c, d)
  {
    if d != [] {
      WholeStream(c, es[Last(d).base - 1..]);
      SealedIsClean(c, Front(d), es[..Last(d).base - 1]);
    }
  }

  lemma GoodPart(c: Codec, es: seq<WireEvent>, bytes: seq<byte>)
    requires Sound(c) && AllEncodable(c, es)
    requires Stream(c, es) <= bytes && !DecodeFrame(c, bytes[|Stream(c, es)|..]).Got?
    ensures ScanAll(c, bytes).good == |Stream(c, es)| && bytes[..ScanAll(c, bytes).good] == Stream(c, es)
    ensures ScanAll(c, bytes).events == es
  {
    var tail := bytes[|Stream(c, es)|..];
    assert bytes == Stream(c, es) + tail;
    ScanPrefix(c, es, tail);
  }

  lemma CleanIsWhole(c: Codec, es: seq<WireEvent>, bytes: seq<byte>)
    requires Sound(c) && AllEncodable(c, es)
    requires Stream(c, es) <= bytes && !DecodeFrame(c, bytes[|Stream(c, es)|..]).Got?
    ensures ScanAll(c, bytes).end.AtEnd? <==> bytes == Stream(c, es)
  {
    var tail := bytes[|Stream(c, es)|..];
    assert bytes == Stream(c, es) + tail;
    ScanPrefix(c, es, tail);
  }

  /** Repair turns what a reader can find into what the disk holds: durable to the
      end when it had to cut the active file, and otherwise exactly as far as that
      file was synced before. */
  lemma RepairHolds(c: Codec, image: Disk, es: seq<WireEvent>, n: nat)
    requires Sound(c) && AllEncodable(c, es) && Shows(c, image, es)
    requires Clean(c, image) ==>
      Last(image).base - 1 <= n <= |es| && Last(image).synced == |Stream(c, es[Last(image).base - 1..n])|
    ensures var r := Repair(c, image);
      && r.Some? && SameBases(image, r.value) && Last(r.value).linked
      && Holds(c, r.value, es) && Durable(c, r.value, es, if Clean(c, image) then n else |es|)
  {
    hide Stream, Repair, Sealed, Clean;
    var k := if Clean(c, image) then n else |es|;
    RepairForm(c, image, es);
    assert es[Last(image).base - 1..|es|] == Share(image, es);
    RewrittenHolds(c, image, es, k);
  }

  lemma RepairForm(c: Codec, image: Disk, es: seq<WireEvent>)
    requires Sound(c) && AllEncodable(c, es) && Shows(c, image, es)
    ensures var whole := Stream(c, Share(image, es));
      Repair(c, image) == Some(WithLast(image,
        SegFile(Last(image).base, whole, if Clean(c, image) then Last(image).synced else |whole|, true)))
  {
    hide Stream, ScanAll, SealedClean, DecodeFrame;
    SealedIsClean(c, Front(image), es[..Last(image).base - 1]);
    GoodPart(c, Share(image, es), Last(image).bytes);
    CleanIsWhole(c, Share(image, es), Last(image).bytes);
  }

  lemma RewrittenHolds(c: Codec, image: Disk, es: seq<WireEvent>, n: nat)
    requires Splits(c, image, es) && Last(image).base - 1 <= n <= |es|
    ensures var f := Last(image);
      var r := WithLast(image, SegFile(f.base, Stream(c, Share(image, es)), |Stream(c, es[f.base - 1..n])|, true));
      SameBases(image, r) && Holds(c, r, es) && Durable(c, r, es, n)
  {
    hide Stream, Sealed;
  }

  /** With all bytes synced before, everything held is durable. */
  lemma RepairSynced(c: Codec, image: Disk, es: seq<WireEvent>)
    requires Sound(c) && AllEncodable(c, es) && Shows(c, image, es) && AllSynced(image)
    ensures var r := Repair(c, image);
      && r.Some? && SameBases(image, r.value) && Last(r.value).linked
      && Holds(c, r.value, es) && Durable(c, r.value, es, |es|)
  {
    hide Stream, ScanAll, SealedClean, DecodeFrame, Repair;
    var share := es[Last(image).base - 1..];
    CleanIsWhole(c, share, Last(image).bytes);
    assert es[Last(image).base - 1..|es|] == share;
    RepairHolds(c, image, es, |es|);
  }

  ghost predicate SameBases(d: Disk, d': Disk) {
    |d| == |d'| && forall i :: 0 <= i < |d| ==> d[i].base == d'[i].base
  }

  lemma StreamLengthMonotone(c: Codec, es: seq<WireEvent>, a: nat, b: nat)
    requires a <= b <= |es|
    ensures |Stream(c, es[..a])| <= |Stream(c, es[..b])|
  {
    StreamSplit(c, es[..b], a);
    assert es[..b][..a] == es[..a];
  }

  lemma ContainedAtLeast(c: Codec, es: seq<WireEvent>, a: nat, k: nat)
    requires a <= |es| && |Stream(c, es[..a])| <= k
    ensures a <= Contained(c, es, k)
  {
    var n := Contained(c, es, k);
    if n < a {
      StreamLengthMonotone(c, es, n + 1, a);
    }
  }

  lemma {:induction false} SealedSurvives(c: Codec, d: Disk, es: seq<WireEvent>, image: Disk)
    requires Sealed(c, d, es) && |image| == |d|
    requires forall i :: 0 <= i < |d| ==> CutFile(d[i], image[i])
    ensures image == d
  {
    if d != [] {
      SealedSurvives(c, Front(d), es[..Last(d).base - 1], Front(image));
      assert CutFile(d[|d| - 1], image[|d| - 1]);
      assert Last(d) == Last(image);
      assert image == Front(image) + [Last(image)];
      assert d == Front(d) + [Last(d)];
    }
  }

  /** Cutting the active file at k bytes keeps a prefix of its share, and all of
      the durable part. */
  lemma CutActive(c: Codec, es: seq<WireEvent>, lo: nat, n: nat, k: nat) returns (m: nat)
    requires Sound(c) && AllEncodable(c, es) && lo <= n <= |es|
    requires |Stream(c, es[lo..n])| <= k <= |Stream(c, es[lo..])|
    ensures n <= m <= |es|
    ensures var whole := Stream(c, es[..m][lo..]);
      && whole <= Stream(c, es[lo..])[..k]
      && !DecodeFrame(c, Stream(c, es[lo..])[..k][|whole|..]).Got?
  {
    hide Stream, DecodeFrame;
    var share := es[lo..];
    assert share[..n - lo] == es[lo..n];
    ContainedAtLeast(c, share, n - lo, k);
    var tail := CutTail(c, share, k);
    m := lo + Contained(c, share, k);
    assert es[..m][lo..] == share[..m - lo];
  }

  lemma LostFileShows(c: Codec, d: Disk, es: seq<WireEvent>, image: Disk)
    requires Splits(c, d, es) && CrashImage(d, image) && |image| == |d| - 1 > 0 && Last(d).base == |es| + 1
    ensures Shows(c, image, es)
  {
    hide Stream, DecodeFrame;
    assert es[..|es|] == es;
    SealedSurvives(c, Front(d), es, image);
    HoldsShows(c, image, es);
  }

  lemma CutFileShows(c: Codec, d: Disk, es: seq<WireEvent>, n: nat, image: Disk) returns (m: nat)
    requires Sound(c) && AllEncodable(c, es)
    requires Holds(c, d, es) && Durable(c, d, es, n) && CrashImage(d, image) && |image| == |d|
    ensures n <= m <= |es| && Last(d).base - 1 <= m && Shows(c, image, es[..m])
  {
    hide Stream, DecodeFrame, Sealed;
    var lo := Last(d).base - 1;
    SealedSurvives(c, Front(d), es[..lo], Front(image));
    assert CutFile(d[|d| - 1], image[|d| - 1]);
    m := CutActive(c, es, lo, n, |Last(image).bytes|);
    assert Last(image).bytes == Stream(c, es[lo..])[..|Last(image).bytes|];
    assert es[..m][..lo] == es[..lo];
  }

  /** After a crash a reader finds the durable events and then some prefix of
      the unsynced ones. */
  lemma CrashShows(c: Codec, d: Disk, es: seq<WireEvent>, n: nat, image: Disk) returns (m: nat)
    requires Sound(c) && AllEncodable(c, es)
    requires Holds(c, d, es) && Durable(c, d, es, n) && CrashImage(d, image)
    ensures n <= m <= |es| && Shows(c, image, es[..m])
    ensures if |image| == |d| then Last(d).base - 1 <= m else m == |es| == Last(d).base - 1
    ensures AllSynced(image)
  {
    assert CutFile(d[|image| - 1], image[|image| - 1]);
    if |image| < |d| {
      m := |es|;
      assert es[..m] == es;
      LostFileShows(c, d, es, image);
    } else {
      m := CutFileShows(c, d, es, n, image);
    }
  }

  /** Crash safety of the log: whatever a power loss leaves, reopening succeeds
      and holds, durably, exactly the fsynced events followed by some prefix of
      the unsynced ones. */
  lemma CrashRecovery(c: Codec, d: Disk, es: seq<WireEvent>, n: nat, image: Disk)
    requires Sound(c) && AllEncodable(c, es)
    requires Holds(c, d, es) && Durable(c, d, es, n) && CrashImage(d, image)
    ensures Repair(c, image).Some?
    ensures exists m :: n <= m <= |es| && Holds(c, Repair(c, image).value, es[..m])
                     && Durable(c, Repair(c, image).value, es[..m], m)
  {
    var m := CrashShows(c, d, es, n, image);
    RepairSynced(c, image, es[..m]);
  }

  // ------------------------------------------------------------------
  // A killed process
  // ------------------------------------------------------------------

  /** What a kill in the middle of an append leaves of the frame: part of it, or
      nothing. */
  ghost predicate TornFrame(c: Codec, torn: seq<byte>) {
    torn == [] || exists e :: Encodable(c, e) && torn <= Frame(c, e) && |torn| < |Frame(c, e)|
  }

  lemma TornDecodes(c: Codec, torn: seq<byte>)
    requires Sound(c) && TornFrame(c, torn)
    ensures !DecodeFrame(c, torn).Got?
  {
    if torn != [] {
      var e :| Encodable(c, e) && torn <= Frame(c, e) && |torn| < |Frame(c, e)|;
      hide Frame, Encodable, DecodeFrame;
      DecodeCutFrame(c, e, [], |torn|);
      assert (Frame(c, e) + [])[..|torn|] == torn;
    }
  }

  /** After a kill a reader finds every event, synced or not; the active file is
      clean exactly when the kill fell between two frames. */
  lemma KillShows(c: Codec, d: Disk, es: seq<WireEvent>, torn: seq<byte>)
    requires Sound(c) && AllEncodable(c, es) && Holds(c, d, es) && TornFrame(c, torn)
    ensures Shows(c, AppendBytes(d, torn), es)
    ensures Clean(c, AppendBytes(d, torn)) <==> torn == []
  {
    hide Stream, Sealed, Frame, Encodable, ScanAll;
    TornDecodes(c, torn);
    hide DecodeFrame;
    var whole, image := Stream(c, Share(d, es)), AppendBytes(d, torn);
    assert Last(image).bytes[|whole|..] == torn;
    CleanIsWhole(c, Share(d, es), Last(image).bytes);
  }

  /** Reopening after a kill holds every event. All of them are durable if a frame
      was torn; otherwise only those synced before the kill. */
  lemma KillHolds(c: Codec, d: Disk, es: seq<WireEvent>, n: nat, torn: seq<byte>)
    requires Sound(c) && AllEncodable(c, es) && Holds(c, d, es) && Durable(c, d, es, n) && TornFrame(c, torn)
    ensures var r := Repair(c, AppendBytes(d, torn));
      && r.Some? && SameBases(d, r.value) && Last(r.value).linked
      && Holds(c, r.value, es) && Durable(c, r.value, es, if torn == [] then n else |es|)
  {
    hide Stream, Sealed, Repair, TornFrame, Clean;
    KillShows(c, d, es, torn);
    RepairHolds(c, AppendBytes(d, torn), es, n);
  }
}
