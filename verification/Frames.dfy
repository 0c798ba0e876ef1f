/**
 The wire format of one event: u32-LE payload length, u32-LE checksum, payload;
 and what a reader makes of a byte string that holds such frames back to back.
 */
module Frames {
  import opened LedgerTypes

  type byte = x: int | 0 <= x < 256

  const U32: int := 0x1_0000_0000
  type u32 = x: int | 0 <= x < 0x1_0000_0000
  const HEADER_LEN: nat := 8

  /** The payload text and its checksum are taken as given: a serializer, a
      parser and a checksum. */
  datatype Codec = Codec(
    ser: WireEvent -> seq<byte>,
    parse: seq<byte> -> Option<WireEvent>,
    crc: seq<byte> -> u32)

  /** Parsing undoes serializing. */
  ghost predicate Sound(c: Codec) {
    forall e :: c.parse(c.ser(e)) == Some(e)
  }

  /** The length field can hold the payload length; otherwise the encoder
      answers `TooLarge`. */
  predicate Encodable(c: Codec, e: WireEvent) {
    |c.ser(e)| < U32
  }

  ghost predicate AllEncodable(c: Codec, es: seq<WireEvent>) {
    forall i :: 0 <= i < |es| ==> Encodable(c, es[i])
  }

  function Le32(n: nat): seq<byte> {
    [n % 256, n / 256 % 256, n / 65536 % 256, n / 16777216 % 256]
  }

  function FromLe32(b: seq<byte>): nat
    requires |b| == 4
  {
    var b0: int, b1: int, b2: int, b3: int := b[0], b[1], b[2], b[3];
    b0 + 256 * b1 + 65536 * b2 + 16777216 * b3
  }

  lemma Le32RoundTrip(n: nat)
    requires n < U32
    ensures FromLe32(Le32(n)) == n
  {
    assert n / 256 == n / 65536 * 256 + n / 256 % 256;
    assert n / 65536 == n / 16777216 * 256 + n / 65536 % 256;
  }

  function FrameLen(c: Codec, e: WireEvent): nat {
    HEADER_LEN + |c.ser(e)|
  }

  function Frame(c: Codec, e: WireEvent): (f: seq<byte>)
    ensures |f| == FrameLen(c, e)
  {
    Le32(|c.ser(e)|) + Le32(c.crc(c.ser(e))) + c.ser(e)
  }

  method EncodeFrame(c: Codec, e: WireEvent) returns (frame: Option<seq<byte>>)
    ensures frame == if Encodable(c, e) then Some(Frame(c, e)) else None
  {
    var payload := c.ser(e);
    if |payload| >= U32 {
      return None;
    }
    var buf := Le32(|payload|);
    buf := buf + Le32(c.crc(payload));
    buf := buf + payload;
    return Some(buf);
  }

  datatype Decoded = CleanEnd | Got(ev: WireEvent, consumed: nat) | Torn | Corrupt

  function DecodeFrame(c: Codec, buf: seq<byte>): (d: Decoded)
    ensures d.Got? ==> 0 < d.consumed <= |buf|
  {
    if |buf| == 0 then CleanEnd
    else if |buf| < HEADER_LEN then Torn
    else
      var len := FromLe32(buf[..4]);
      var crc := FromLe32(buf[4..8]);
      if |buf| < HEADER_LEN + len then Torn
      else
        var payload := buf[HEADER_LEN..HEADER_LEN + len];
        if c.crc(payload) != crc then Corrupt
        else match c.parse(payload)
          case None => Corrupt
          case Some(ev) => Got(ev, HEADER_LEN + len)
  }

  /** A number as four bytes spell it, the lowest first. */
  function Spelled(b: seq<byte>, i: nat): int
    requires i + 4 <= |b|
  {
    var b0: int, b1: int, b2: int, b3: int := b[i], b[i + 1], b[i + 2], b[i + 3];
    b0 + 0x100 * b1 + 0x1_0000 * b2 + 0x100_0000 * b3
  }

  /** Any bytes at all: too few for a header or for the length it spells are torn; a
      whole frame is corrupt exactly when its checksum is not the payload's or its
      payload does not parse, and otherwise is its event. */
  lemma {:induction false} DecodeExactly(c: Codec, buf: seq<byte>)
    ensures buf == [] ==> DecodeFrame(c, buf) == CleanEnd
    ensures 0 < |buf| < 8 ==> DecodeFrame(c, buf) == Torn
    ensures |buf| >= 8 ==> 0 <= Spelled(buf, 0)
    ensures |buf| >= 8 && |buf| < 8 + Spelled(buf, 0) ==> DecodeFrame(c, buf) == Torn
    ensures |buf| >= 8 && |buf| >= 8 + Spelled(buf, 0) ==>
      var payload := buf[8..8 + Spelled(buf, 0)];
      DecodeFrame(c, buf) ==
      if c.crc(payload) != Spelled(buf, 4) || c.parse(payload).None? then Corrupt
      else Got(c.parse(payload).value, 8 + |payload|)
  {
    if |buf| >= 8 {
      assert FromLe32(buf[..4]) == Spelled(buf, 0);
      assert FromLe32(buf[4..8]) == Spelled(buf, 4);
    }
  }

  /** A whole frame at the front decodes to its event; a strict prefix of it is
      the clean end or torn, never corrupt. */
  lemma DecodeCutFrame(c: Codec, e: WireEvent, rest: seq<byte>, k: nat)
    requires Sound(c) && Encodable(c, e)
    requires k <= |Frame(c, e) + rest|
    ensures DecodeFrame(c, (Frame(c, e) + rest)[..k]) ==
            if |Frame(c, e)| <= k then Got(e, |Frame(c, e)|)
            else if k == 0 then CleanEnd else Torn
  {
    var payload := c.ser(e);
    var whole := Frame(c, e) + rest;
    var buf := whole[..k];
    if HEADER_LEN <= k {
      assert buf[..4] == Le32(|payload|);
      assert Frame(c, e)[4..8] == Le32(c.crc(payload));
      assert buf[4..8] == Frame(c, e)[4..8];
      Le32RoundTrip(|payload|);
      Le32RoundTrip(c.crc(payload));
      if |Frame(c, e)| <= k {
        assert buf[HEADER_LEN..HEADER_LEN + |payload|] == payload;
      }
    }
  }

  lemma DecodeFront(c: Codec, e: WireEvent, rest: seq<byte>)
    requires Sound(c) && Encodable(c, e)
    ensures DecodeFrame(c, Frame(c, e) + rest) == Got(e, |Frame(c, e)|)
    ensures (Frame(c, e) + rest)[|Frame(c, e)|..] == rest
  {
    var buf := Frame(c, e) + rest;
    DecodeCutFrame(c, e, rest, |buf|);
    assert buf[..|buf|] == buf;
  }

  /** What decoding reads lies within the frame it consumes. */
  lemma DecodeLocal(c: Codec, buf: seq<byte>, k: nat)
    requires DecodeFrame(c, buf).Got?
    requires DecodeFrame(c, buf).consumed <= k <= |buf|
    ensures DecodeFrame(c, buf[..k]) == DecodeFrame(c, buf)
  {
    var n := DecodeFrame(c, buf).consumed;
    assert n == HEADER_LEN + FromLe32(buf[..4]);
    assert buf[..k][..4] == buf[..4];
    assert buf[..k][4..8] == buf[4..8];
    assert buf[..k][8..n] == buf[8..n];
  }

  // ------------------------------------------------------------------
  // Streams of frames
  // ------------------------------------------------------------------

  function Stream(c: Codec, es: seq<WireEvent>): seq<byte> {
    if es == [] then [] else Frame(c, es[0]) + Stream(c, es[1..])
  }

  lemma {:induction false} StreamConcat(c: Codec, es: seq<WireEvent>, fs: seq<WireEvent>)
    ensures Stream(c, es + fs) == Stream(c, es) + Stream(c, fs)
  {
    if es == [] {
      assert es + fs == fs;
    } else {
      assert (es + fs)[1..] == es[1..] + fs;
      StreamConcat(c, es[1..], fs);
    }
  }

  lemma StreamSplit(c: Codec, es: seq<WireEvent>, n: nat)
    requires n <= |es|
    ensures Stream(c, es) == Stream(c, es[..n]) + Stream(c, es[n..])
  {
    assert es == es[..n] + es[n..];
    StreamConcat(c, es[..n], es[n..]);
  }

  lemma StreamSnoc(c: Codec, es: seq<WireEvent>, e: WireEvent)
    ensures Stream(c, es + [e]) == Stream(c, es) + Frame(c, e)
  {
    StreamConcat(c, es, [e]);
    assert Stream(c, [e]) == Frame(c, e) + Stream(c, []);
  }

  datatype Ending = AtEnd | TornTail | BadFrame

  /** Every event a reader gets from the front of `buf`, where its last good
      frame ends, and why it stopped. */
  datatype Scanned = Scanned(events: seq<WireEvent>, good: nat, end: Ending)

  function ScanAll(c: Codec, buf: seq<byte>): (s: Scanned)
    ensures s.good <= |buf|
    decreases |buf|
  {
    match DecodeFrame(c, buf)
    case CleanEnd => Scanned([], 0, AtEnd)
    case Torn => Scanned([], 0, TornTail)
    case Corrupt => Scanned([], 0, BadFrame)
    case Got(ev, n) =>
      var s := ScanAll(c, buf[n..]);
      Scanned([ev] + s.events, n + s.good, s.end)
  }

  /** How many frames of the stream lie entirely within its first k bytes. */
  function Contained(c: Codec, es: seq<WireEvent>, k: nat): (n: nat)
    ensures n <= |es|
    ensures |Stream(c, es[..n])| <= k
    ensures n < |es| ==> k < |Stream(c, es[..n + 1])|
  {
    if es == [] then 0
    else if k < |Frame(c, es[0])| then
      assert Stream(c, es[..1]) == Frame(c, es[0]) + Stream(c, []);
      0
    else
      var m := Contained(c, es[1..], k - |Frame(c, es[0])|);
      assert es[..m + 1][1..] == es[1..][..m];
      assert m + 1 < |es| ==> es[..m + 2][1..] == es[1..][..m + 1];
      m + 1
  }

  lemma StreamFront(c: Codec, es: seq<WireEvent>, tail: seq<byte>)
    requires Sound(c) && AllEncodable(c, es) && es != []
    ensures var buf := Stream(c, es) + tail;
      && DecodeFrame(c, buf) == Got(es[0], FrameLen(c, es[0]))
      && buf[FrameLen(c, es[0])..] == Stream(c, es[1..]) + tail
  {
    var rest := Stream(c, es[1..]) + tail;
    assert Stream(c, es) + tail == Frame(c, es[0]) + rest;
    DecodeFront(c, es[0], rest);
  }

  /** Frames at the front of a buffer are found before whatever follows. */
  lemma {:induction false} ScanPrefix(c: Codec, es: seq<WireEvent>, tail: seq<byte>)
    requires Sound(c) && AllEncodable(c, es) && !DecodeFrame(c, tail).Got?
    ensures ScanAll(c, Stream(c, es) + tail) == Scanned(es, |Stream(c, es)|, ScanAll(c, tail).end)
  {
    hide DecodeFrame, FrameLen;
    if es == [] {
      assert Stream(c, es) + tail == tail;
    } else {
      StreamFront(c, es, tail);
      ScanPrefix(c, es[1..], tail);
    }
  }

  /** What is left of a cut stream after its contained frames. */
  lemma CutTail(c: Codec, es: seq<WireEvent>, k: nat) returns (tail: seq<byte>)
    requires Sound(c) && AllEncodable(c, es) && k <= |Stream(c, es)|
    ensures Stream(c, es)[..k] == Stream(c, es[..Contained(c, es, k)]) + tail
    ensures DecodeFrame(c, tail) == if tail == [] then CleanEnd else Torn
  {
    assert DecodeFrame(c, []) == CleanEnd;
    hide Frame, DecodeFrame, Contained;
    var n := Contained(c, es, k);
    var got := |Stream(c, es[..n])|;
    StreamSplit(c, es, n);
    tail := Stream(c, es[n..])[..k - got];
    if n < |es| {
      StreamSnoc(c, es[..n], es[n]);
      assert es[..n + 1] == es[..n] + [es[n]];
      var rest := Stream(c, es[n..][1..]);
      assert k - got < |Frame(c, es[n])|;
      DecodeCutFrame(c, es[n], rest, k - got);
    }
  }

  /** Cutting a stream anywhere yields exactly the frames before the cut, and
      then the clean end or a torn frame: never corruption. */
  lemma CutStream(c: Codec, es: seq<WireEvent>, k: nat)
    requires Sound(c) && AllEncodable(c, es)
    requires k <= |Stream(c, es)|
    ensures var n := Contained(c, es, k);
      ScanAll(c, Stream(c, es)[..k]) ==
      Scanned(es[..n], |Stream(c, es[..n])|, if |Stream(c, es[..n])| == k then AtEnd else TornTail)
  {
    var tail := CutTail(c, es, k);
    ScanPrefix(c, es[..Contained(c, es, k)], tail);
  }

  lemma WholeStream(c: Codec, es: seq<WireEvent>)
    requires Sound(c) && AllEncodable(c, es)
    ensures ScanAll(c, Stream(c, es)) == Scanned(es, |Stream(c, es)|, AtEnd)
  {
    assert Stream(c, es) + [] == Stream(c, es);
    ScanPrefix(c, es, []);
  }

  /** Repair is idempotent on any bytes at all: after cutting back to the last
      good frame the same events remain and nothing is left to cut. */
  lemma {:induction false} RepairIdempotent(c: Codec, buf: seq<byte>)
    ensures var s := ScanAll(c, buf);
      ScanAll(c, buf[..s.good]) == Scanned(s.events, s.good, AtEnd)
    decreases |buf|
  {
    var d := DecodeFrame(c, buf);
    if d.Got? {
      var s := ScanAll(c, buf);
      RepairIdempotent(c, buf[d.consumed..]);
      DecodeLocal(c, buf, s.good);
      assert buf[..s.good][d.consumed..] == buf[d.consumed..][..s.good - d.consumed];
    }
  }

  datatype Validation = Clean | Truncate(goodLen: nat) | CorruptAt(offset: nat)

  lemma {:induction false} ScanNext(c: Codec, bytes: seq<byte>, pos: nat)
    requires pos <= |bytes|
    ensures match DecodeFrame(c, bytes[pos..])
      case Got(_, n) =>
        && pos + n <= |bytes|
        && ScanAll(c, bytes[pos..]).end == ScanAll(c, bytes[pos + n..]).end
        && ScanAll(c, bytes[pos..]).good == n + ScanAll(c, bytes[pos + n..]).good
      case CleanEnd => ScanAll(c, bytes[pos..]).end.AtEnd? && ScanAll(c, bytes[pos..]).good == 0
      case _ => !ScanAll(c, bytes[pos..]).end.AtEnd? && ScanAll(c, bytes[pos..]).good == 0
  {
    hide DecodeFrame;
    match DecodeFrame(c, bytes[pos..]) {
      case Got(_, n) => assert bytes[pos..][n..] == bytes[pos + n..];
      case _ =>
    }
  }

  /** `validate`: only the final segment may be repaired; any decode failure in
      a sealed one is corruption. */
  method Validate(c: Codec, bytes: seq<byte>, isFinal: bool) returns (v: Validation)
    ensures var s := ScanAll(c, bytes);
      v == if s.end.AtEnd? then Clean else if isFinal then Truncate(s.good) else CorruptAt(s.good)
  {
    hide DecodeFrame, ScanAll;
    var pos := 0;
    var lastGood := 0;
    assert bytes[0..] == bytes;
    while true
      invariant pos == lastGood <= |bytes|
      invariant ScanAll(c, bytes).end == ScanAll(c, bytes[pos..]).end
      invariant ScanAll(c, bytes).good == pos + ScanAll(c, bytes[pos..]).good
      decreases |bytes| - pos
    {
      ScanNext(c, bytes, pos);
      match DecodeFrame(c, bytes[pos..]) {
        case CleanEnd => return Clean;
        case Got(_, consumed) =>
          pos := pos + consumed;
          lastGood := pos;
        case _ =>
          return if isFinal then Truncate(lastGood) else CorruptAt(pos);
      }
    }
  }
}
