/** The segment set a book's writer owns, and the catalog its readers share. */
module SegmentSets {
  import opened LedgerTypes
  import opened Frames
  import opened Segments
  import opened SegmentReads

  // ------------------------------------------------------------------
  // The catalog: reads over a snapshot of the files
  // ------------------------------------------------------------------

  function After(found: seq<Placed>, p: Page): Page {
    Page(found + p.found, p.ok)
  }

  lemma AfterNext(c: Codec, f: SegFile, pos: nat, from: int, room: nat, found: seq<Placed>)
    requires pos <= |f.bytes| && room > 0 && DecodeFrame(c, f.bytes[pos..]).Got?
    ensures var d := DecodeFrame(c, f.bytes[pos..]);
      var p := Placed(d.ev, (f.base, pos));
      && pos + d.consumed <= |f.bytes|
      && After(found, FilePage(c, f.bytes[pos..], f.base, pos, from, room)) ==
         (if d.ev.seqno >= from then
            After(found + [p], FilePage(c, f.bytes[pos + d.consumed..], f.base, pos + d.consumed, from, room - 1))
          else After(found, FilePage(c, f.bytes[pos + d.consumed..], f.base, pos + d.consumed, from, room)))
  {
    hide DecodeFrame;
    var d := DecodeFrame(c, f.bytes[pos..]);
    assert f.bytes[pos..][d.consumed..] == f.bytes[pos + d.consumed..];
    var p := Placed(d.ev, (f.base, pos));
    var rest := FilePage(c, f.bytes[pos + d.consumed..], f.base, pos + d.consumed, from, room - 1);
    assert found + ([p] + rest.found) == (found + [p]) + rest.found;
  }

  method ScanPage(c: Codec, f: SegFile, from: int, room: nat) returns (page: Page)
    ensures page == FilePage(c, f.bytes, f.base, 0, from, room)
  {
    hide DecodeFrame;
    var found: seq<Placed> := [];
    var pos := 0;
    assert f.bytes[0..] == f.bytes;
    ghost var whole := FilePage(c, f.bytes, f.base, 0, from, room);
    while |found| < room
      invariant pos <= |f.bytes| && |found| <= room
      invariant whole == After(found, FilePage(c, f.bytes[pos..], f.base, pos, from, room - |found|))
      decreases |f.bytes| - pos
    {
      match DecodeFrame(c, f.bytes[pos..]) {
        case CleanEnd => return Page(found, true);
        case Got(ev, consumed) =>
          AfterNext(c, f, pos, from, room - |found|, found);
          if ev.seqno >= from {
            found := found + [Placed(ev, (f.base, pos))];
          }
          pos := pos + consumed;
        case _ => return Page(found, false);
      }
    }
    return Page(found, true);
  }

  /** `scan_with_pos`; `scan_from` is the same walk without the positions. */
  method ScanWithPos(c: Codec, d: Disk, from: int, limit: nat) returns (r: Option<seq<Placed>>)
    requires d != []
    ensures r == ScanFiles(c, d[StartIndex(d, from)..], true, from, limit)
  {
    hide FilePage;
    var files := d[StartIndex(d, from)..];
    var found: seq<Placed> := [];
    for i := 0 to |files|
      invariant 0 < i ==> ScanFiles(c, files[..i], i == |files|, from, limit) == Some(found)
      invariant i == 0 ==> found == []
    {
      assert Front(files[..i + 1]) == files[..i] && Last(files[..i + 1]) == files[i];
      if |found| < limit {
        var page := ScanPage(c, files[i], from, limit - |found|);
        if !page.ok && i < |files| - 1 {
          ScanStuck(c, files, i, from, limit);
          return None;
        }
        found := found + page.found;
      }
    }
    assert files[..|files|] == files;
    return Some(found);
  }

  /** An error in a sealed file is the answer, whatever follows it. */
  lemma {:induction false} ScanStuck(c: Codec, d: Disk, i: nat, from: int, limit: nat)
    requires i < |d| - 1 && ScanFiles(c, d[..i + 1], false, from, limit) == None
    ensures ScanFiles(c, d, true, from, limit) == None
    ensures ScanFiles(c, d, false, from, limit) == None
    decreases |d|
  {
    if i == |d| - 2 {
      assert d[..i + 1] == Front(d);
    } else {
      assert Front(d)[..i + 1] == d[..i + 1];
      ScanStuck(c, Front(d), i, from, limit);
    }
  }

  function FindFile(d: Disk, base: nat): Option<SegFile> {
    if d == [] then None
    else if Last(d).base == base then Some(Last(d))
    else FindFile(Front(d), base)
  }

  /** `read_at`: one frame at a recorded position, checked against the sequence
      number recorded with it. */
  method ReadAt(c: Codec, d: Disk, pos: FramePos, expected: nat) returns (r: Option<WireEvent>)
    ensures r == ReadFrame(FindFile(d, pos.0), c, pos.1, expected)
  {
    var f := FindFile(d, pos.0);
    if f == None {
      return None;
    }
    var bytes, off := f.value.bytes, pos.1;
    if |bytes| < off + HEADER_LEN {
      return None;
    }
    var len := FromLe32(bytes[off..off + 4]);
    if |bytes| < off + HEADER_LEN + len {
      return None;
    }
    var frame := bytes[off..off + HEADER_LEN + len];
    match DecodeFrame(c, frame) {
      case Got(ev, _) => return if ev.seqno == expected then Some(ev) else None;
      case _ => return None;
    }
  }

  function ReadFrame(f: Option<SegFile>, c: Codec, off: nat, expected: nat): (r: Option<WireEvent>)
    ensures r.Some? ==> r.value.seqno == expected
  {
    if f == None || |f.value.bytes| < off + HEADER_LEN then None
    else
      var bytes := f.value.bytes;
      var end := off + HEADER_LEN + FromLe32(bytes[off..off + 4]);
      if |bytes| < end then None
      else match DecodeFrame(c, bytes[off..end])
        case Got(ev, _) => if ev.seqno == expected then Some(ev) else None
        case _ => None
  }

  lemma ReadDecodes(f: SegFile, c: Codec, off: nat, e: WireEvent)
    requires off <= |f.bytes| && DecodeFrame(c, f.bytes[off..]) == Got(e, FrameLen(c, e))
    ensures ReadFrame(Some(f), c, off, e.seqno) == Some(e)
  {
    var rest := f.bytes[off..];
    var n := FrameLen(c, e);
    assert |rest| >= n >= HEADER_LEN;
    assert rest[..4] == f.bytes[off..off + 4];
    assert n == HEADER_LEN + FromLe32(rest[..4]);
    DecodeLocal(c, rest, n);
    assert rest[..n] == f.bytes[off..off + n];
  }

  lemma DropDrop(buf: seq<byte>, a: nat, b: nat)
    requires a <= b <= |buf|
    ensures buf[a..][b - a..] == buf[b..]
  {
  }

  lemma {:induction false} DecodesAt(c: Codec, buf: seq<byte>, es: seq<WireEvent>, base: nat, off: nat, k: nat)
    requires Decodes(c, buf, es) && k < |es|
    ensures var p := PlacedFrom(c, es, base, off)[k];
      && p.ev == es[k] && p.pos.0 == base && off <= p.pos.1 <= off + |buf|
      && DecodeFrame(c, buf[p.pos.1 - off..]) == Got(es[k], FrameLen(c, es[k]))
    decreases |es|
  {
    hide DecodeFrame, FrameLen;
    if k == 0 {
      assert buf[0..] == buf;
    } else {
      var n := FrameLen(c, es[0]);
      DecodesAt(c, buf[n..], es[1..], base, off + n, k - 1);
      var p := PlacedFrom(c, es[1..], base, off + n)[k - 1];
      assert PlacedFrom(c, es, base, off)[k] == p;
      DropDrop(buf, n, p.pos.1 - off);
    }
  }

  lemma ActiveReads(c: Codec, d: Disk, es: seq<WireEvent>, k: nat)
    requires Sound(c) && AllEncodable(c, es) && Shows(c, d, es)
    requires k < |Share(d, es)|
    ensures var p := PlacedFrom(c, Share(d, es), Last(d).base, 0)[k];
      p.ev == Share(d, es)[k] && ReadFrame(FindFile(d, p.pos.0), c, p.pos.1, p.ev.seqno) == Some(p.ev)
  {
    hide DecodeFrame, Stream, Sealed, ReadFrame;
    var whole := Stream(c, Share(d, es));
    var tail := Last(d).bytes[|whole|..];
    assert Last(d).bytes == whole + tail;
    StreamDecodes(c, Share(d, es), tail);
    DecodesAt(c, Last(d).bytes, Share(d, es), Last(d).base, 0, k);
    var p := PlacedFrom(c, Share(d, es), Last(d).base, 0)[k];
    ReadDecodes(Last(d), c, p.pos.1, p.ev);
  }

  /** Every position recorded for the log reads back its own event. */
  lemma {:induction false} RecordedPositionsRead(c: Codec, d: Disk, es: seq<WireEvent>, j: nat)
    requires Sound(c) && AllEncodable(c, es) && Shows(c, d, es) && j < |es|
    ensures var pl := PlacedLog(c, d, es);
      && j < |pl| && pl[j].ev == es[j] && pl[j].pos.0 <= j + 1
      && ReadFrame(FindFile(d, pl[j].pos.0), c, pl[j].pos.1, es[j].seqno) == Some(es[j])
    decreases |d|
  {
    hide DecodeFrame, Stream, ReadFrame, PlacedFrom;
    var lo := Last(d).base - 1;
    PlacedEvents(c, d, es);
    SealedEvents(c, Front(d), es[..lo]);
    if j < lo {
      assert Front(d) != [];
      SealedShows(c, Front(d), es[..lo]);
      RecordedPositionsRead(c, Front(d), es[..lo], j);
    } else {
      DecodesBase(c, Share(d, es), Last(d).base, 0, j - lo);
      ActiveReads(c, d, es, j - lo);
    }
  }

  lemma {:induction false} DecodesBase(c: Codec, es: seq<WireEvent>, base: nat, off: nat, k: nat)
    requires k < |es|
    ensures PlacedFrom(c, es, base, off)[k].pos.0 == base
  {
    if k > 0 {
      DecodesBase(c, es[1..], base, off + FrameLen(c, es[0]), k - 1);
    }
  }

  lemma SealedShows(c: Codec, d: Disk, es: seq<WireEvent>)
    requires Sealed(c, d, es) && d != []
    ensures Shows(c, d, es)
  {
    HoldsShows(c, d, es);
  }

  // ------------------------------------------------------------------
  // The writer's segment set
  // ------------------------------------------------------------------

  class SegmentSet {
    const codec: Codec
    const segmentMax: nat
    var files: Disk
    var activeLen: nat

    ghost predicate Valid()
      reads this
    {
      files != [] && activeLen == |Last(files).bytes|
    }

    constructor (c: Codec, segmentMax: nat, d: Disk)
      requires d != []
      ensures Valid() && codec == c && files == d && this.segmentMax == segmentMax
    {
      codec := c;
      this.segmentMax := segmentMax;
      files := d;
      activeLen := |Last(d).bytes|;
    }

    /** `open_with_max`: null when a sealed segment is corrupt. A clean final
        segment is not synced, a truncated one is. */
    static method Open(c: Codec, image: Disk, segmentMax: nat) returns (s: SegmentSet?)
      ensures Repair(c, image).None? <==> s == null
      ensures s != null ==> fresh(s) && s.Valid() && s.codec == c && s.segmentMax == segmentMax
      ensures s != null ==> s.files == Repair(c, image).value
    {
      if image == [] {
        s := new SegmentSet(c, segmentMax, FreshDisk);
        return;
      }
      var d := image;
      for i := 0 to |image|
        invariant i < |image| ==> d == image && SealedClean(c, image[..i])
        invariant i == |image| ==> Repair(c, image) == Some(d)
        invariant d != []
      {
        var f := image[i];
        var v := Validate(c, f.bytes, i == |image| - 1);
        if i < |image| - 1 {
          assert Front(image[..i + 1]) == image[..i] && Last(image[..i + 1]) == f;
          if v.CorruptAt? {
            DirtyStays(c, Front(image), i);
            return null;
          }
        } else {
          assert image[..i] == Front(image);
          d := WithLast(image,
            if v.Truncate? then SegFile(f.base, f.bytes[..v.goodLen], v.goodLen, true) else f.(linked := true));
        }
      }
      s := new SegmentSet(c, segmentMax, d);
    }

    /** Writes as much of the frame as `written` says got out before an error. */
    method Append(frame: seq<byte>, written: nat) returns (ok: bool)
      requires Valid() && written <= |frame|
      modifies this
      ensures ok == (written == |frame|)
      ensures files == AppendBytes(old(files), frame[..written])
      ensures ok ==> Valid()
    {
      files := AppendBytes(files, frame[..written]);
      if written < |frame| {
        return false;
      }
      activeLen := activeLen + |frame|;
      return true;
    }

    method Sync(ioOk: bool) returns (ok: bool)
      requires Valid()
      modifies this
      ensures Valid() && ok == ioOk
      ensures files == if ok then SyncActive(old(files)) else old(files)
    {
      if !ioOk {
        return false;
      }
      files := SyncActive(files);
      return true;
    }

    /** Seals the active segment once it has reached the threshold: sync it,
        create the next, sync the directory. `steps` says how many of the three
        succeeded. */
    method MaybeRotate(nextSeq: nat, steps: nat) returns (ok: bool)
      requires Valid() && (Last(files).base == nextSeq ==> Last(files).bytes == [])
      modifies this
      ensures ok == (old(activeLen) < segmentMax || steps >= 3)
      ensures files == if old(activeLen) < segmentMax then old(files) else RotatedBy(old(files), nextSeq, steps)
      ensures ok ==> Valid()
    {
      if activeLen >= segmentMax {
        if steps == 0 {
          return false;
        }
        files := SyncActive(files);
        if steps == 1 {
          return false;
        }
        files := CreateSegment(files, nextSeq);
        if steps == 2 {
          return false;
        }
        files := SyncDir(files);
        activeLen := 0;
      }
      return true;
    }

    method NextPos() returns (pos: FramePos)
      requires Valid()
      ensures pos == SegmentReads.NextPos(files)
    {
      return (Last(files).base, activeLen);
    }
  }

  function RotatedBy(d: Disk, nextSeq: nat, steps: nat): Disk
    requires d != []
  {
    if steps == 0 then d
    else if steps == 1 then SyncActive(d)
    else if steps == 2 then CreateSegment(SyncActive(d), nextSeq)
    else SyncDir(CreateSegment(SyncActive(d), nextSeq))
  }

  lemma {:induction false} DirtyStays(c: Codec, d: Disk, i: nat)
    requires i < |d| && !ScanAll(c, d[i].bytes).end.AtEnd?
    ensures !SealedClean(c, d)
  {
    if i < |d| - 1 {
      DirtyStays(c, Front(d), i);
    }
  }
}
