/**
 Reading segments: scans that page through the log with frame positions, and
 single-frame reads at a recorded position.
 */
module SegmentReads {
  import opened LedgerTypes
  import opened Frames
  import opened Segments

  // ------------------------------------------------------------------
  // Where the frames of the log sit
  // ------------------------------------------------------------------

  /** The events of one file with their positions, the first at `off`. */
  ghost function PlacedFrom(c: Codec, es: seq<WireEvent>, base: nat, off: nat): (r: seq<Placed>)
    ensures |r| == |es|
  {
    if es == [] then []
    else [Placed(es[0], (base, off))] + PlacedFrom(c, es[1..], base, off + FrameLen(c, es[0]))
  }

  /** The whole log with its positions. */
  ghost function PlacedLog(c: Codec, d: Disk, es: seq<WireEvent>): (r: seq<Placed>) {
    if d == [] || !(1 <= Last(d).base <= |es| + 1) then []
    else PlacedLog(c, Front(d), es[..Last(d).base - 1]) + PlacedFrom(c, es[Last(d).base - 1..], Last(d).base, 0)
  }

  ghost function Events(pl: seq<Placed>): (es: seq<WireEvent>)
    ensures |es| == |pl| && forall i :: 0 <= i < |pl| ==> es[i] == pl[i].ev
  {
    seq(|pl|, i requires 0 <= i < |pl| => pl[i].ev)
  }

  lemma {:induction false} PlacedFromSnoc(c: Codec, es: seq<WireEvent>, e: WireEvent, base: nat, off: nat)
    ensures PlacedFrom(c, es + [e], base, off)
         == PlacedFrom(c, es, base, off) + [Placed(e, (base, off + |Stream(c, es)|))]
  {
    if es == [] {
      assert es + [e] == [e];
    } else {
      assert (es + [e])[1..] == es[1..] + [e];
      PlacedFromSnoc(c, es[1..], e, base, off + FrameLen(c, es[0]));
    }
  }

  lemma {:induction false} PlacedFromTake(c: Codec, es: seq<WireEvent>, m: nat, base: nat, off: nat)
    requires m <= |es|
    ensures PlacedFrom(c, es[..m], base, off) == PlacedFrom(c, es, base, off)[..m]
  {
    if m > 0 {
      assert es[..m][1..] == es[1..][..m - 1];
      PlacedFromTake(c, es[1..], m - 1, base, off + FrameLen(c, es[0]));
    }
  }

  lemma {:induction false} PlacedFromEvents(c: Codec, es: seq<WireEvent>, base: nat, off: nat)
    ensures Events(PlacedFrom(c, es, base, off)) == es
  {
    if es != [] {
      PlacedFromEvents(c, es[1..], base, off + FrameLen(c, es[0]));
      assert es == [es[0]] + es[1..];
    }
  }

  lemma {:induction false} EventsConcat(a: seq<Placed>, b: seq<Placed>)
    ensures Events(a + b) == Events(a) + Events(b)
  {
  }

  lemma {:induction false} SealedEvents(c: Codec, d: Disk, es: seq<WireEvent>)
    requires Sealed(c, d, es)
    ensures Events(PlacedLog(c, d, es)) == es
  {
    if d != [] {
      var lo := Last(d).base - 1;
      SealedEvents(c, Front(d), es[..lo]);
      PlacedFromEvents(c, es[lo..], Last(d).base, 0);
      var front, rest := PlacedLog(c, Front(d), es[..lo]), PlacedFrom(c, es[lo..], Last(d).base, 0);
      assert PlacedLog(c, d, es) == front + rest;
      hide PlacedLog, PlacedFrom, Sealed;
      EventsConcat(front, rest);
      assert es == es[..lo] + es[lo..];
    } else {
      assert es == [];
    }
  }

  lemma PlacedEvents(c: Codec, d: Disk, es: seq<WireEvent>)
    requires Splits(c, d, es)
    ensures Events(PlacedLog(c, d, es)) == es
  {
    var lo := Last(d).base - 1;
    SealedEvents(c, Front(d), es[..lo]);
    PlacedFromEvents(c, es[lo..], Last(d).base, 0);
    var front, rest := PlacedLog(c, Front(d), es[..lo]), PlacedFrom(c, es[lo..], Last(d).base, 0);
    assert PlacedLog(c, d, es) == front + rest;
    hide PlacedLog, PlacedFrom, Sealed;
    EventsConcat(front, rest);
    assert es == es[..lo] + es[lo..];
  }

  /** `next_pos`: where the next frame will start. */
  function NextPos(d: Disk): FramePos
    requires d != []
  {
    (Last(d).base, |Last(d).bytes|)
  }

  /** Appending puts the event where `next_pos` said, and moves no other. */
  lemma AppendPlaces(c: Codec, d: Disk, es: seq<WireEvent>, e: WireEvent)
    requires Holds(c, d, es)
    ensures PlacedLog(c, AppendBytes(d, Frame(c, e)), es + [e]) == PlacedLog(c, d, es) + [Placed(e, NextPos(d))]
  {
    var lo := Last(d).base - 1;
    assert (es + [e])[lo..] == es[lo..] + [e];
    assert (es + [e])[..lo] == es[..lo];
    PlacedFromSnoc(c, es[lo..], e, Last(d).base, 0);
  }

  /** Rotation moves no event. */
  lemma CreateKeepsPlaces(c: Codec, d: Disk, es: seq<WireEvent>)
    requires Holds(c, d, es)
    ensures PlacedLog(c, CreateSegment(d, |es| + 1), es) == PlacedLog(c, d, es)
  {
    if Last(d).base <= |es| {
      assert Front(CreateSegment(d, |es| + 1)) == d;
      assert es[..|es|] == es;
    }
  }

  lemma {:induction false} PlacesFollowBases(c: Codec, d: Disk, d': Disk, es: seq<WireEvent>)
    requires SameBases(d, d')
    ensures PlacedLog(c, d, es) == PlacedLog(c, d', es)
  {
    if d != [] && 1 <= Last(d).base <= |es| + 1 {
      PlacesFollowBases(c, Front(d), Front(d'), es[..Last(d).base - 1]);
    }
  }

  lemma {:induction false} PlacesTake(c: Codec, d: Disk, es: seq<WireEvent>, m: nat)
    requires Splits(c, d, es) && Last(d).base - 1 <= m <= |es|
    ensures PlacedLog(c, d, es[..m]) == Take(m, PlacedLog(c, d, es))
  {
    var lo := Last(d).base - 1;
    assert es[..m][..lo] == es[..lo];
    assert es[..m][lo..] == es[lo..][..m - lo];
    PlacedFromTake(c, es[lo..], m - lo, Last(d).base, 0);
    SealedEvents(c, Front(d), es[..lo]);
  }

  /** A crash that cuts the active file moves no surviving event. */
  lemma CutKeepsPlaces(c: Codec, d: Disk, es: seq<WireEvent>, image: Disk, m: nat)
    requires Splits(c, d, es) && SameBases(d, image) && Last(d).base - 1 <= m <= |es|
    ensures PlacedLog(c, image, es[..m]) == Take(m, PlacedLog(c, d, es))
  {
    PlacesTake(c, d, es, m);
    PlacesFollowBases(c, d, image, es[..m]);
  }

  /** Nor does one that loses a new, still empty file. */
  lemma LostFileKeepsPlaces(c: Codec, d: Disk, es: seq<WireEvent>, image: Disk)
    requires Splits(c, d, es) && SameBases(Front(d), image) && Last(d).base == |es| + 1
    ensures PlacedLog(c, image, es) == PlacedLog(c, d, es)
  {
    PlacesFollowBases(c, Front(d), image, es);
    assert es[..|es|] == es;
  }

  // ------------------------------------------------------------------
  // Scans
  // ------------------------------------------------------------------

  /** The events with `seqno >= from`. */
  function From(pl: seq<Placed>, from: int): seq<Placed> {
    if pl == [] then [] else (if pl[0].ev.seqno >= from then [pl[0]] else []) + From(pl[1..], from)
  }

  function Take(n: nat, pl: seq<Placed>): seq<Placed> {
    if |pl| <= n then pl else pl[..n]
  }

  lemma {:induction false} ConcatHead(a: seq<Placed>, b: seq<Placed>)
    ensures a == [] ==> a + b == b
    ensures a != [] ==> (a + b)[0] == a[0] && (a + b)[1..] == a[1..] + b && a + b == [a[0]] + (a[1..] + b)
  {
  }

  lemma {:induction false} FromConcat(a: seq<Placed>, b: seq<Placed>, from: int)
    ensures From(a + b, from) == From(a, from) + From(b, from)
  {
    ConcatHead(a, b);
    if a == [] {
      assert From(a, from) == [];
    } else {
      FromHead(a, from);
      FromHead(a + b, from);
      hide From;
      FromConcat(a[1..], b, from);
      ConcatHead([a[0]] + From(a[1..], from), From(b, from));
    }
  }

  lemma {:induction false} FromHead(pl: seq<Placed>, from: int)
    requires pl != []
    ensures From(pl, from) == if pl[0].ev.seqno >= from then [pl[0]] + From(pl[1..], from) else From(pl[1..], from)
  {
    assert [] + From(pl[1..], from) == From(pl[1..], from);
  }

  /** In a dense log the filter is a suffix. */
  lemma {:induction false} FromDense(pl: seq<Placed>, from: int)
    requires Dense(Events(pl))
    ensures From(pl, from) == if from <= 1 then pl else if from > |pl| then [] else pl[from - 1..]
    decreases |pl|
  {
    if pl != [] {
      var n := |pl| - 1;
      assert pl == pl[..n] + [pl[n]];
      assert Dense(Events(pl[..n])) by {
        assert forall j :: 0 <= j < n ==> Events(pl[..n])[j] == Events(pl)[j];
      }
      FromDense(pl[..n], from);
      FromConcat(pl[..n], [pl[n]], from);
      assert Events(pl)[n].seqno == n + 1;
      assert From([pl[n]], from) == if n + 1 >= from then [pl[n]] else [];
    }
  }

  datatype Page = Page(found: seq<Placed>, ok: bool)

  /** One file's contribution: at most `room` events from the front of `buf`;
      not ok when a frame failed to decode. */
  function FilePage(c: Codec, buf: seq<byte>, base: nat, off: nat, from: int, room: nat): Page
    decreases |buf|
  {
    if room == 0 then Page([], true)
    else match DecodeFrame(c, buf)
      case CleanEnd => Page([], true)
      case Got(ev, n) =>
        if ev.seqno >= from then
          var p := FilePage(c, buf[n..], base, off + n, from, room - 1);
          Page([Placed(ev, (base, off))] + p.found, p.ok)
        else FilePage(c, buf[n..], base, off + n, from, room)
      case _ => Page([], false)
  }

  /** Adds what file `f` contributes to the events found so far; a decode failure
      stops the scan cleanly in the last file and is an error in any other. */
  function ScanFile(c: Codec, f: SegFile, isLast: bool, acc: seq<Placed>, from: int, limit: nat): Option<seq<Placed>> {
    if |acc| >= limit then Some(acc)
    else
      var p := FilePage(c, f.bytes, f.base, 0, from, limit - |acc|);
      if p.ok || isLast then Some(acc + p.found) else None
  }

  function ScanFiles(c: Codec, d: Disk, isLast: bool, from: int, limit: nat): Option<seq<Placed>> {
    if d == [] then Some([])
    else match ScanFiles(c, Front(d), false, from, limit)
      case None => None
      case Some(acc) => ScanFile(c, Last(d), isLast, acc, from, limit)
  }

  lemma FromCons(p: Placed, pl: seq<Placed>, from: int)
    ensures From([p] + pl, from) == (if p.ev.seqno >= from then [p] else []) + From(pl, from)
  {
    assert ([p] + pl)[1..] == pl;
  }

  lemma TakeCons(n: nat, p: Placed, pl: seq<Placed>)
    requires n > 0
    ensures Take(n, [p] + pl) == [p] + Take(n - 1, pl)
  {
  }

  /** Decoding `buf` frame by frame gives `es`, and then stops. */
  ghost predicate Decodes(c: Codec, buf: seq<byte>, es: seq<WireEvent>)
    decreases |es|
  {
    if es == [] then !DecodeFrame(c, buf).Got?
    else
      && DecodeFrame(c, buf) == Got(es[0], FrameLen(c, es[0]))
      && Decodes(c, buf[FrameLen(c, es[0])..], es[1..])
  }

  lemma {:induction false} StreamDecodes(c: Codec, es: seq<WireEvent>, tail: seq<byte>)
    requires Sound(c) && AllEncodable(c, es) && !DecodeFrame(c, tail).Got?
    ensures Decodes(c, Stream(c, es) + tail, es)
  {
    hide DecodeFrame, FrameLen;
    if es == [] {
      assert Stream(c, es) + tail == tail;
    } else {
      StreamFront(c, es, tail);
      StreamDecodes(c, es[1..], tail);
    }
  }

  lemma {:induction false} PageNext(c: Codec, buf: seq<byte>, es: seq<WireEvent>, base: nat, off: nat, from: int,
                                    room: nat)
    requires Decodes(c, buf, es) && es != [] && room > 0
    ensures FrameLen(c, es[0]) <= |buf| && Decodes(c, buf[FrameLen(c, es[0])..], es[1..])
    ensures var rest, next := buf[FrameLen(c, es[0])..], off + FrameLen(c, es[0]);
      && ScanAll(c, buf).end == ScanAll(c, rest).end
      && var p := FilePage(c, rest, base, next, from, if es[0].seqno >= from then room - 1 else room);
         FilePage(c, buf, base, off, from, room) ==
         if es[0].seqno >= from then Page([Placed(es[0], (base, off))] + p.found, p.ok) else p
  {
    hide DecodeFrame, FrameLen;
  }

  lemma {:induction false} PageFinds(c: Codec, buf: seq<byte>, es: seq<WireEvent>, base: nat, off: nat, from: int,
                                     room: nat)
    requires Decodes(c, buf, es)
    ensures var p := FilePage(c, buf, base, off, from, room);
      && p.found == Take(room, From(PlacedFrom(c, es, base, off), from))
      && (ScanAll(c, buf).end.AtEnd? ==> p.ok)
    decreases |es|
  {
    hide DecodeFrame, FrameLen;
    if es != [] && room > 0 {
      var next := off + FrameLen(c, es[0]);
      var first, others := Placed(es[0], (base, off)), PlacedFrom(c, es[1..], base, next);
      assert PlacedFrom(c, es, base, off) == [first] + others;
      hide From, Take, FilePage, ScanAll, Decodes, PlacedFrom;
      PageNext(c, buf, es, base, off, from, room);
      FromCons(first, others, from);
      TakeCons(room, first, From(others, from));
      PageFinds(c, buf[FrameLen(c, es[0])..], es[1..], base, next, from, if es[0].seqno >= from then room - 1 else room);
    }
  }

  lemma TakeConcat(n: nat, a: seq<Placed>, b: seq<Placed>)
    ensures Take(n, a + b) == if |Take(n, a)| >= n then Take(n, a) else Take(n, a) + Take(n - |Take(n, a)|, b)
  {
  }

  lemma FileFinds(c: Codec, d: Disk, es: seq<WireEvent>, isLast: bool, acc: seq<Placed>, from: int, limit: nat)
    requires Sound(c) && AllEncodable(c, es) && Shows(c, d, es)
    requires isLast || Holds(c, d, es)
    requires acc == Take(limit, From(PlacedLog(c, Front(d), es[..Last(d).base - 1]), from))
    ensures ScanFile(c, Last(d), isLast, acc, from, limit) == Some(Take(limit, From(PlacedLog(c, d, es), from)))
  {
    hide From, FilePage, Stream, PlacedFrom, DecodeFrame, Sealed, ScanAll, Decodes;
    var lo := Last(d).base - 1;
    var a, b := PlacedLog(c, Front(d), es[..lo]), PlacedFrom(c, es[lo..], Last(d).base, 0);
    FromConcat(a, b, from);
    TakeConcat(limit, From(a, from), From(b, from));
    if |acc| < limit {
      var whole := Stream(c, es[lo..]);
      var tail := Last(d).bytes[|whole|..];
      assert Last(d).bytes == whole + tail;
      StreamDecodes(c, es[lo..], tail);
      if Holds(c, d, es) {
        WholeStream(c, es[lo..]);
      }
      PageFinds(c, Last(d).bytes, es[lo..], Last(d).base, 0, from, limit - |acc|);
    }
  }

  /** Skipping the files before `start` loses nothing when they end below `from`. */
  lemma {:induction false} SealedScan(c: Codec, d: Disk, es: seq<WireEvent>, start: nat, before: nat, from: int,
                                      limit: nat)
    requires Sound(c) && AllEncodable(c, es) && Dense(es) && Sealed(c, d, es) && start <= |d|
    requires start == 0 || before < from
    requires if |d| == start then before == |es| else before == d[start].base - 1
    ensures ScanFiles(c, d[start..], false, from, limit) == Some(Take(limit, From(PlacedLog(c, d, es), from)))
    decreases |d|
  {
    hide From, FilePage, Stream, DecodeFrame;
    if |d| == start {
      SealedEvents(c, d, es);
      FromDense(PlacedLog(c, d, es), from);
    } else {
      var lo := Last(d).base - 1;
      SealedScan(c, Front(d), es[..lo], start, before, from, limit);
      assert Front(d[start..]) == Front(d)[start..];
      assert Holds(c, d, es);
      HoldsShows(c, d, es);
      FileFinds(c, d, es, false, Take(limit, From(PlacedLog(c, Front(d), es[..lo]), from)), from, limit);
    }
  }

  /** The index of the last file whose base is at most `from`, or the first. */
  function StartIndex(d: Disk, from: int): (i: nat)
    requires d != []
    ensures i < |d|
    ensures i > 0 ==> d[i].base <= from
  {
    if |d| == 1 || Last(d).base <= from then |d| - 1 else StartIndex(Front(d), from)
  }

  lemma {:induction false} SealedBase(c: Codec, d: Disk, es: seq<WireEvent>, i: nat)
    requires Sealed(c, d, es) && i < |d|
    ensures 1 <= d[i].base <= |es|
  {
    if i < |d| - 1 {
      SealedBase(c, Front(d), es[..Last(d).base - 1], i);
    }
  }

  /** Segment scans refine the flat log: whatever undecodable tail the active
      file shows, a scan is the first `limit` events with `seqno >= from`, each
      at its own position. */
  lemma ScanRefinesLog(c: Codec, d: Disk, es: seq<WireEvent>, from: int, limit: nat)
    requires Sound(c) && AllEncodable(c, es) && Dense(es) && Shows(c, d, es)
    ensures ScanFiles(c, d[StartIndex(d, from)..], true, from, limit)
         == Some(Take(limit, From(PlacedLog(c, d, es), from)))
  {
    var start := StartIndex(d, from);
    var lo := Last(d).base - 1;
    assert d[start..] != [] && Last(d[start..]) == Last(d) && Front(d[start..]) == Front(d)[start..];
    if start < |d| - 1 {
      SealedBase(c, Front(d), es[..lo], start);
    }
    SealedScan(c, Front(d), es[..lo], start, d[start].base - 1, from, limit);
    FileFinds(c, d, es, true, Take(limit, From(PlacedLog(c, Front(d), es[..lo]), from)), from, limit);
  }
}
