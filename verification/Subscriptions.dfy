/**
 One subscriber against one writer, interleaved at every await point: pages of
 history up to the applied watermark, then the broadcast ring, and pages again
 whenever the ring has moved on without it.
 */
module Subscriptions {
  import opened LedgerTypes
  import opened Segments
  import opened SegmentReads

  const PAGE: nat := 512
  const RING: nat := 1024

  /** What a subscriber can see of the writer: the frames in the files, how many
      are durable, how many are applied, how many were broadcast. */
  datatype Writer = Writer(log: seq<Placed>, durable: nat, applied: nat, sent: nat, stopped: bool)

  /** Catching up yields every event it pages; after a lag only those past
      `last`. */
  datatype Mode = CatchUp | AfterLag(last: nat)

  datatype Phase =
    | NeedCeiling(mode: Mode, cursor: nat)
    | NeedPage(mode: Mode, cursor: nat, ceiling: nat)
    | InPage(mode: Mode, cursor: nat, ceiling: nat, page: seq<Placed>, isShort: bool)
    | Live(last: nat)

  /** `pos` counts the broadcasts received or skipped, from the start of the log;
      `out` is what was yielded. */
  datatype Subscriber = Subscriber(first: nat, phase: Phase, pos: nat, out: seq<Placed>)

  datatype World = World(w: Writer, s: Subscriber)

  datatype Label =
    | Append(p: Placed)
    | Sync
    | Apply
    | Broadcast
    | Stop
    | ReadCeiling
    | ScanPage
    | NextInPage
    | Receive

  // ------------------------------------------------------------------
  // Steps
  // ------------------------------------------------------------------

  /** A batch is appended, synced, applied as one, then broadcast in order
      before the next one is applied. */
  function WriterNext(w: Writer, l: Label): Option<Writer> {
    if w.stopped then None
    else match l
      case Append(p) => if p.ev.seqno == |w.log| + 1 then Some(w.(log := w.log + [p])) else None
      case Sync => Some(w.(durable := |w.log|))
      case Apply => if w.durable == |w.log| && w.sent == w.applied then Some(w.(applied := |w.log|)) else None
      case Broadcast => if w.sent < w.applied then Some(w.(sent := w.sent + 1)) else None
      case Stop => Some(w.(stopped := true))
      case _ => None
  }

  /** `scan_from` over whatever is in the files at that moment. */
  function Scan(w: Writer, from: nat, limit: nat): seq<Placed> {
    Take(limit, From(w.log, from))
  }

  function Paged(s: Subscriber, mode: Mode, cursor: nat): Subscriber {
    s.(phase := Live(if mode.CatchUp? then (if cursor == 0 then 0 else cursor - 1) else mode.last))
  }

  function SubscriberNext(w: Writer, s: Subscriber, l: Label): Option<Subscriber> {
    match s.phase
    case NeedCeiling(mode, cursor) =>
      if !l.ReadCeiling? then None
      else if cursor > w.applied then Some(Paged(s, mode, cursor))
      else Some(s.(phase := NeedPage(mode, cursor, w.applied)))
    case NeedPage(mode, cursor, ceiling) =>
      if !l.ScanPage? || cursor > ceiling then None
      else
        var limit := Min(PAGE, ceiling - cursor + 1);
        var page := Scan(w, cursor, limit);
        Some(s.(phase := InPage(mode, cursor, ceiling, page, |page| < limit)))
    case InPage(mode, cursor, ceiling, page, isShort) =>
      if !l.NextInPage? then None
      else if page == [] || page[0].ev.seqno > ceiling then
        if isShort then Some(Paged(s, mode, cursor)) else Some(s.(phase := NeedCeiling(mode, cursor)))
      else
        var p, n := page[0], page[0].ev.seqno;
        if mode.AfterLag? && n <= mode.last then
          Some(s.(phase := InPage(mode, n + 1, ceiling, page[1..], isShort)))
        else
          Some(s.(phase := InPage(if mode.CatchUp? then CatchUp else AfterLag(n), n + 1, ceiling, page[1..], isShort),
                  out := s.out + [p]))
    case Live(last) =>
      if !l.Receive? || s.pos >= w.sent || s.pos >= |w.log| then None
      else if s.pos + RING < w.sent then
        Some(s.(pos := w.sent - RING, phase := NeedCeiling(AfterLag(last), last + 1)))
      else
        var p := w.log[s.pos];
        if p.ev.seqno <= last then Some(s.(pos := s.pos + 1))
        else Some(s.(pos := s.pos + 1, phase := Live(p.ev.seqno), out := s.out + [p]))
  }

  function Next(x: World, l: Label): Option<World> {
    if l.ReadCeiling? || l.ScanPage? || l.NextInPage? || l.Receive? then
      match SubscriberNext(x.w, x.s, l) case None => None case Some(s) => Some(World(x.w, s))
    else
      match WriterNext(x.w, l) case None => None case Some(w) => Some(World(w, x.s))
  }

  /** Subscribing to the ring comes before the first page. */
  function Subscribe(w: Writer, from: nat): World {
    World(w, Subscriber(from, NeedCeiling(CatchUp, from), w.sent, []))
  }

  function Run(x: World, ls: seq<Label>): Option<World> {
    if ls == [] then Some(x)
    else match Run(x, ls[..|ls| - 1])
      case None => None
      case Some(y) => Next(y, ls[|ls| - 1])
  }

  // ------------------------------------------------------------------
  // The invariant
  // ------------------------------------------------------------------

  ghost predicate Numbered(log: seq<Placed>) {
    forall i :: 0 <= i < |log| ==> log[i].ev.seqno == i + 1
  }

  ghost predicate WriterInv(w: Writer) {
    Numbered(w.log) && w.sent <= w.applied <= w.durable <= |w.log|
  }

  /** The sequence number up to which the subscriber is done. */
  function Reached(s: Subscriber): int {
    s.first - 1 + |s.out|
  }

  /** What was yielded is a stretch of the applied log, starting at `first`. */
  ghost predicate Yielded(w: Writer, s: Subscriber)
    requires WriterInv(w)
  {
    s.first >= 1 && (s.out != [] ==> Reached(s) <= w.applied && s.out == w.log[s.first - 1..Reached(s)])
  }

  ghost predicate AtCursor(s: Subscriber, mode: Mode, cursor: nat) {
    cursor == Reached(s) + 1 && (mode.AfterLag? ==> mode.last == Reached(s))
  }

  /** Pages are full and stay below the watermark read; the ring's position never
      runs past it; live, it never runs past what was yielded. */
  ghost predicate PhaseInv(w: Writer, s: Subscriber)
    requires WriterInv(w) && s.first >= 1
  {
    match s.phase
    case NeedCeiling(mode, cursor) => AtCursor(s, mode, cursor)
    case NeedPage(mode, cursor, ceiling) => AtCursor(s, mode, cursor) && s.pos <= ceiling <= w.applied && cursor <= ceiling
    case InPage(mode, cursor, ceiling, page, isShort) =>
      && AtCursor(s, mode, cursor) && s.pos <= ceiling <= w.applied && !isShort
      && cursor + |page| <= ceiling + 1 && page == w.log[cursor - 1..cursor - 1 + |page|]
    case Live(last) => last == Reached(s) && s.pos <= last
  }

  ghost predicate Inv(x: World) {
    WriterInv(x.w) && x.s.pos <= x.w.sent && Yielded(x.w, x.s) && PhaseInv(x.w, x.s)
  }

  lemma WriterStep(x: World, l: Label)
    requires Inv(x) && WriterNext(x.w, l).Some?
    ensures Inv(World(WriterNext(x.w, l).value, x.s))
  {
    var w, w' := x.w, WriterNext(x.w, l).value;
    assert w.log <= w'.log && w.applied <= w'.applied;
    assert forall a, b :: 0 <= a <= b <= |w.log| ==> w'.log[a..b] == w.log[a..b];
  }

  lemma FullPage(w: Writer, from: nat, limit: nat)
    requires WriterInv(w) && 1 <= from && from - 1 + limit <= w.applied
    ensures Scan(w, from, limit) == w.log[from - 1..from - 1 + limit]
  {
    FromDense(w.log, from);
  }

  /** Yielding the event the cursor stands at. */
  lemma YieldNext(w: Writer, s: Subscriber, p: Placed, s': Subscriber)
    requires WriterInv(w) && Yielded(w, s) && Reached(s) < w.applied && p == w.log[Reached(s)]
    requires s' == s.(phase := s'.phase, pos := s'.pos, out := s.out + [p])
    ensures Yielded(w, s') && Reached(s') == Reached(s) + 1 == p.ev.seqno
  {
    if s.out == [] {
      assert w.log[s.first - 1..s.first] == [p];
    }
  }

  lemma PageStep(x: World)
    requires Inv(x) && x.s.phase.InPage? && SubscriberNext(x.w, x.s, NextInPage).Some?
    ensures Inv(World(x.w, SubscriberNext(x.w, x.s, NextInPage).value))
  {
    var w, s, s' := x.w, x.s, SubscriberNext(x.w, x.s, NextInPage).value;
    var page, cursor := s.phase.page, s.phase.cursor;
    if page != [] {
      assert page[0] == w.log[cursor - 1] && page[0].ev.seqno == cursor;
      assert page[1..] == w.log[cursor..cursor - 1 + |page|];
      YieldNext(w, s, page[0], s');
    }
  }

  lemma ScanStep(x: World)
    requires Inv(x) && x.s.phase.NeedPage? && SubscriberNext(x.w, x.s, ScanPage).Some?
    ensures Inv(World(x.w, SubscriberNext(x.w, x.s, ScanPage).value))
  {
    hide Take, From, Numbered;
    FullPage(x.w, x.s.phase.cursor, Min(PAGE, x.s.phase.ceiling - x.s.phase.cursor + 1));
  }

  lemma ReceiveStep(x: World)
    requires Inv(x) && x.s.phase.Live? && SubscriberNext(x.w, x.s, Receive).Some?
    ensures Inv(World(x.w, SubscriberNext(x.w, x.s, Receive).value))
  {
    if x.s.pos + RING >= x.w.sent && x.w.log[x.s.pos].ev.seqno > x.s.phase.last {
      YieldNext(x.w, x.s, x.w.log[x.s.pos], SubscriberNext(x.w, x.s, Receive).value);
    }
  }

  lemma SubscriberStep(x: World, l: Label)
    requires Inv(x) && SubscriberNext(x.w, x.s, l).Some?
    ensures Inv(World(x.w, SubscriberNext(x.w, x.s, l).value))
  {
    hide Numbered;
    match x.s.phase {
      case NeedCeiling(mode, cursor) =>
      case NeedPage(_, _, _) => ScanStep(x);
      case InPage(_, _, _, _, _) => PageStep(x);
      case Live(_) => ReceiveStep(x);
    }
  }

  lemma {:induction false} RunKeeps(w: Writer, from: nat, ls: seq<Label>)
    requires WriterInv(w) && from >= 1 && Run(Subscribe(w, from), ls).Some?
    ensures Inv(Run(Subscribe(w, from), ls).value)
    ensures Run(Subscribe(w, from), ls).value.s.first == from
  {
    assert Inv(Subscribe(w, from));
    hide Inv, Run;
    KeepsOn(Subscribe(w, from), ls);
  }

  lemma KeepsFirst(w: Writer, s: Subscriber, l: Label)
    requires SubscriberNext(w, s, l).Some?
    ensures SubscriberNext(w, s, l).value.first == s.first
  {
  }

  // ------------------------------------------------------------------
  // What subscribers get
  // ------------------------------------------------------------------

  /** Subscriber safety: whatever the interleaving of appends, syncs, applies,
      broadcasts, pages and ring overruns, a subscriber from f >= 1 is given
      exactly f, f + 1, f + 2, ..., each the log's own event and durable. */
  lemma {:induction false} YieldsInOrder(w: Writer, from: nat, ls: seq<Label>)
    requires WriterInv(w) && from >= 1 && Run(Subscribe(w, from), ls).Some?
    ensures var x := Run(Subscribe(w, from), ls).value;
      forall i :: 0 <= i < |x.s.out| ==>
        && x.s.out[i].ev.seqno == from + i
        && from - 1 + i < x.w.durable <= |x.w.log| && x.s.out[i] == x.w.log[from - 1 + i]
  {
    RunKeeps(w, from, ls);
  }

  lemma {:induction false} SliceFront(s: seq<Placed>, a: nat, b: nat, c: nat)
    requires a <= b <= c <= |s|
    ensures s[a..b] <= s[a..c]
  {
    assert s[a..b] == s[a..c][..b - a];
  }

  /** Nothing is left behind: a live subscriber that has received all that was
      broadcast has yielded every broadcast event from f on. */
  lemma NothingMissed(w: Writer, from: nat, ls: seq<Label>)
    requires WriterInv(w) && from >= 1 && Run(Subscribe(w, from), ls).Some?
    ensures var x := Run(Subscribe(w, from), ls).value;
      x.s.phase.Live? && x.s.pos == x.w.sent && from <= x.w.sent ==>
        x.w.sent <= |x.w.log| && x.w.log[from - 1..x.w.sent] <= x.s.out
  {
    RunKeeps(w, from, ls);
    var x := Run(Subscribe(w, from), ls).value;
    if x.s.phase.Live? && x.s.pos == x.w.sent && from <= x.w.sent {
      assert x.s.out != [];
      hide Run, WriterInv;
      SliceFront(x.w.log, from - 1, x.w.sent, Reached(x.s));
    }
  }

  /** A subscriber is never stuck while there is something for it: unless it is
      live with an empty ring, its next step is enabled. */
  lemma NeverStuck(w: Writer, from: nat, ls: seq<Label>) returns (l: Label)
    requires WriterInv(w) && from >= 1 && Run(Subscribe(w, from), ls).Some?
    ensures var x := Run(Subscribe(w, from), ls).value;
      SubscriberNext(x.w, x.s, l).Some? || (x.s.phase.Live? && x.s.pos == x.w.sent)
  {
    RunKeeps(w, from, ls);
    l := match Run(Subscribe(w, from), ls).value.s.phase
      case NeedCeiling(_, _) => ReadCeiling
      case NeedPage(_, _, _) => ScanPage
      case InPage(_, _, _, _, _) => NextInPage
      case Live(_) => Receive;
  }

  // ------------------------------------------------------------------
  // Catching up
  // ------------------------------------------------------------------

  predicate BySubscriber(l: Label) {
    l.ReadCeiling? || l.ScanPage? || l.NextInPage? || l.Receive?
  }

  /** How many applied events are still to be paged. */
  function Left(x: World): nat {
    if Reached(x.s) < x.w.applied then x.w.applied - Reached(x.s) else 0
  }

  /** Steps until the phase is live again, at most. */
  function PhaseWork(x: World): nat {
    match x.s.phase
    case Live(_) => 0
    case NeedCeiling(_, _) => 4 * Left(x) + 1
    case NeedPage(_, _, _) => 4 * Left(x)
    case InPage(_, _, _, page, _) => if page == [] then 4 * Left(x) + 2 else if Left(x) == 0 then 0 else 4 * Left(x) - 1
  }

  /** Steps until everything applied and broadcast has been yielded, at most. */
  function Work(x: World): nat
    requires x.s.pos <= x.w.sent
  {
    (x.w.sent - x.s.pos) * (4 * x.w.applied + 8) + PhaseWork(x)
  }

  lemma {:induction false} Fewer(a: nat, b: nat, unit: nat, p: nat, q: nat)
    requires a < b && p < unit
    ensures a * unit + p < b * unit + q
  {
    assert b * unit == (b - 1) * unit + unit;
    if a < b - 1 {
      Fewer(a, b - 1, unit, p, 0);
    }
  }

  lemma {:induction false} PhaseWorkBound(x: World)
    requires Inv(x)
    ensures PhaseWork(x) < 4 * x.w.applied + 8
  {
    hide Numbered;
  }

  lemma {:induction false} PagingWorks(x: World, l: Label)
    requires Inv(x) && !x.s.phase.Live? && SubscriberNext(x.w, x.s, l).Some?
    ensures var y := World(x.w, SubscriberNext(x.w, x.s, l).value);
      y.s.pos == x.s.pos && PhaseWork(y) < PhaseWork(x)
  {
    if x.s.phase.NeedPage? {
      var limit := Min(PAGE, x.s.phase.ceiling - x.s.phase.cursor + 1);
      hide Take, From, Numbered;
      FullPage(x.w, x.s.phase.cursor, limit);
    } else if x.s.phase.InPage? && x.s.phase.page != [] {
      assert x.s.phase.page[0] == x.w.log[x.s.phase.cursor - 1];
    }
  }

  /** Every step of a subscriber brings it closer. */
  lemma {:induction false} StepWorks(x: World, l: Label)
    requires Inv(x) && SubscriberNext(x.w, x.s, l).Some?
    ensures var y := World(x.w, SubscriberNext(x.w, x.s, l).value);
      Inv(y) && Work(y) < Work(x)
  {
    SubscriberStep(x, l);
    var y := World(x.w, SubscriberNext(x.w, x.s, l).value);
    PhaseWorkBound(y);
    if x.s.phase.Live? {
      assert y.s.pos > x.s.pos;
      hide Inv, PhaseWork, SubscriberNext;
      Fewer(x.w.sent - y.s.pos, x.w.sent - x.s.pos, 4 * x.w.applied + 8, PhaseWork(y), PhaseWork(x));
    } else {
      PagingWorks(x, l);
    }
  }

  lemma {:induction false} RunCons(x: World, l: Label, ls: seq<Label>)
    requires Next(x, l).Some?
    ensures Run(x, [l] + ls) == Run(Next(x, l).value, ls)
  {
    hide Next;
    if ls == [] {
      assert [l] + ls == [l] && [l][..0] == [];
      assert Run(x, [l][..0]) == Some(x);
    } else {
      var n := |ls| - 1;
      assert ([l] + ls)[..|[l] + ls| - 1] == [l] + ls[..n];
      RunCons(x, l, ls[..n]);
    }
  }

  /** While the writer pauses, a subscriber that keeps going is live with an empty
      ring after at most `Work` steps, wherever it is, lag included; paging ends. */
  lemma {:induction false} CatchesUp(x: World) returns (ls: seq<Label>)
    requires Inv(x)
    ensures |ls| <= Work(x) && (forall l :: l in ls ==> BySubscriber(l))
    ensures Run(x, ls).Some?
    ensures var y := Run(x, ls).value; y.w == x.w && y.s.phase.Live? && y.s.pos == y.w.sent
    decreases Work(x)
  {
    if x.s.phase.Live? && x.s.pos == x.w.sent {
      ls := [];
    } else {
      var l := match x.s.phase
        case NeedCeiling(_, _) => ReadCeiling
        case NeedPage(_, _, _) => ScanPage
        case InPage(_, _, _, _, _) => NextInPage
        case Live(_) => Receive;
      assert SubscriberNext(x.w, x.s, l).Some?;
      hide SubscriberNext, Inv, Work;
      StepWorks(x, l);
      var y := World(x.w, SubscriberNext(x.w, x.s, l).value);
      var rest := CatchesUp(y);
      RunCons(x, l, rest);
      ls := [l] + rest;
    }
  }

  /** From any point of any run. */
  lemma {:induction false} CatchesUpFrom(w: Writer, from: nat, ls: seq<Label>) returns (more: seq<Label>)
    requires WriterInv(w) && from >= 1 && Run(Subscribe(w, from), ls).Some?
    ensures var x := Run(Subscribe(w, from), ls).value;
      && x.s.pos <= x.w.sent && |more| <= Work(x) && (forall l :: l in more ==> BySubscriber(l))
      && Run(x, more).Some? && Run(x, more).value.w == x.w
      && Run(x, more).value.s.phase.Live? && Run(x, more).value.s.pos == x.w.sent
  {
    RunKeeps(w, from, ls);
    more := CatchesUp(Run(Subscribe(w, from), ls).value);
  }

  // ------------------------------------------------------------------
  // Everything arrives
  // ------------------------------------------------------------------

  lemma {:induction false} RunJoin(x: World, a: seq<Label>, b: seq<Label>)
    requires Run(x, a).Some?
    ensures Run(x, a + b) == Run(Run(x, a).value, b)
  {
    hide Next;
    if b == [] {
      assert a + b == a;
    } else {
      var n := |b| - 1;
      assert (a + b)[..|a + b| - 1] == a + b[..n];
      RunJoin(x, a, b[..n]);
    }
  }

  /** The writer broadcasts what is applied, event after event. */
  lemma {:induction false} Broadcasts(x: World) returns (ls: seq<Label>)
    requires WriterInv(x.w) && !x.w.stopped
    ensures Run(x, ls) == Some(World(x.w.(sent := x.w.applied), x.s)) && forall l :: l in ls ==> l == Broadcast
    decreases x.w.applied - x.w.sent
  {
    if x.w.sent == x.w.applied {
      ls := [];
    } else {
      var y := World(x.w.(sent := x.w.sent + 1), x.s);
      assert Next(x, Broadcast) == Some(y);
      var rest := Broadcasts(y);
      hide Next;
      RunCons(x, Broadcast, rest);
      ls := [Broadcast] + rest;
    }
  }

  /** A writer that goes on makes everything written durable, applied and broadcast. */
  lemma {:induction false} Delivers(x: World) returns (ls: seq<Label>)
    requires WriterInv(x.w) && !x.w.stopped
    ensures var n := |x.w.log|; Run(x, ls) == Some(World(x.w.(durable := n, applied := n, sent := n), x.s))
    ensures forall l :: l in ls ==> l == Broadcast || l == Sync || l == Apply
  {
    var n := |x.w.log|;
    var before := Broadcasts(x);
    var y := World(x.w.(sent := x.w.applied), x.s);
    var z := World(y.w.(durable := n), y.s);
    var u := World(z.w.(applied := n), z.s);
    assert Next(y, Sync) == Some(z) && Next(z, Apply) == Some(u);
    var rest := Broadcasts(u);
    hide Next;
    RunCons(z, Apply, rest);
    RunCons(y, Sync, [Apply] + rest);
    RunJoin(x, before, [Sync] + ([Apply] + rest));
    ls := before + ([Sync] + ([Apply] + rest));
  }

  lemma {:induction false} ArrivedAll(x: World)
    requires Inv(x) && x.s.phase.Live? && x.s.pos == x.w.sent == x.w.applied == |x.w.log| && x.s.first <= |x.w.log|
    ensures x.s.out == x.w.log[x.s.first - 1..]
  {
    assert x.s.out != [];
    assert x.w.log[x.s.first - 1..|x.w.log|] == x.w.log[x.s.first - 1..];
  }

  lemma {:induction false} KeepsOn(x: World, ls: seq<Label>)
    requires Inv(x) && Run(x, ls).Some?
    ensures Inv(Run(x, ls).value) && Run(x, ls).value.s.first == x.s.first
  {
    if ls != [] {
      hide Inv, SubscriberNext, WriterNext;
      var y, l := Run(x, ls[..|ls| - 1]).value, ls[|ls| - 1];
      KeepsOn(x, ls[..|ls| - 1]);
      if l.ReadCeiling? || l.ScanPage? || l.NextInPage? || l.Receive? {
        SubscriberStep(y, l);
        KeepsFirst(y.w, y.s, l);
      } else {
        WriterStep(y, l);
      }
    }
  }

  lemma {:induction false} ArrivesFrom(x: World) returns (more: seq<Label>)
    requires Inv(x) && !x.w.stopped && x.s.first <= |x.w.log|
    ensures Run(x, more).Some? && Run(x, more).value.s.out == x.w.log[x.s.first - 1..]
  {
    assert WriterInv(x.w) && x.s.first >= 1;
    hide Inv, WriterInv, Run, Work;
    var a := Delivers(x);
    KeepsOn(x, a);
    var y := Run(x, a).value;
    var b := CatchesUp(y);
    KeepsOn(y, b);
    RunJoin(x, a, b);
    ArrivedAll(Run(y, b).value);
    more := a + b;
  }

  /** From any point of any run of a writer that has not stopped, some continuation
      gives the subscriber every event written so far, from `from` on. */
  lemma {:induction false} EverythingArrives(w: Writer, from: nat, ls: seq<Label>) returns (more: seq<Label>)
    requires WriterInv(w) && from >= 1 && Run(Subscribe(w, from), ls).Some?
    requires var x := Run(Subscribe(w, from), ls).value; !x.w.stopped && from <= |x.w.log|
    ensures var x := Run(Subscribe(w, from), ls).value;
      Run(Subscribe(w, from), ls + more).Some? && Run(Subscribe(w, from), ls + more).value.s.out == x.w.log[from - 1..]
  {
    hide Inv, WriterInv, Run, Subscribe;
    RunKeeps(w, from, ls);
    more := ArrivesFrom(Run(Subscribe(w, from), ls).value);
    RunJoin(Subscribe(w, from), ls, more);
  }
}
