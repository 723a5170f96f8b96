/** What software reads from RXDATA is the text the stimulus driver types, byte for byte and in
    order: the driver, the two flops behind the pin, the receive engine and its ring buffer. A paced
    driver never makes the engine drop a frame.
 */
module UartRxProof {
  import opened Arithmetic
  import opened AxiLite
  import opened AxiUart
  import opened Uart
  import opened UartFifo
  import opened UartProof
  import T = UartTxProof
  import opened Words

  // ------------------------------------------------------------------
  // The receive engine on a frame of its own width
  // ------------------------------------------------------------------

  /** The place at which the engine takes its i-th sample: 0 is the start bit, 9 the stop bit. */
  function Taken(i: nat, div: half): nat { Span(i, div + 1) + div / 2 + 1 }

  /** The places of the frame that the engine has gone through, when it is in the midst of it. */
  function Place(rx: RxEngine, div: half): nat {
    match rx.state
    case RxIdle => 0
    case RxStart => rx.cnt + 1
    case RxData => Taken(rx.bitCnt, div) + 1 + rx.cnt
    case RxStop => Taken(8, div) + 1 + rx.cnt
  }

  /** The bits sampled so far stand at the top of the shift register. */
  predicate Collected(rx: RxEngine, b: byte) {
    && (rx.state == RxData ==> rx.shift / Pow2(8 - rx.bitCnt) == Low(b, rx.bitCnt))
    && (rx.state == RxStop ==> rx.shift == b)
  }

  /** The engine n places into a frame for b. */
  predicate Hears(rx: RxEngine, b: byte, n: nat, div: half) {
    if rx.state == RxIdle then n > Taken(9, div)
    else Place(rx, div) == n && Collected(rx, b) && rx.cnt <= if rx.state == RxStart then div / 2 else div
  }

  lemma AddMultiple(y: nat, p: nat, a: nat)
    requires p > 0
    ensures (p * a + y) / p == a + y / p
  {
    assert p * (a + y / p) == p * a + p * (y / p);
    DivModUnique(p * a + y, p, a + y / p, y % p);
  }

  lemma Doubled(i: nat)
    requires i < 8
    ensures Pow2(8 - i) == 2 * Pow2(7 - i)
  {
  }

  /** One more bit from the line. */
  lemma ShiftIn(x: byte, b: byte, i: nat)
    requires i < 8 && x / Pow2(8 - i) == Low(b, i)
    ensures var n := (if Bit(b, i) then 128 else 0) + x / 2; n / Pow2(7 - i) == Low(b, i + 1)
  {
    hide Low, Bit, Pow2;
    var p := Pow2(7 - i);
    Doubled(i);
    Nested(x, 2, p);
    Halves(i);
    AddMultiple(x / 2, p, Pow2(i));
    LowNext(b, i);
  }

  lemma Halves(i: nat)
    requires i < 8
    ensures Pow2(7 - i) * Pow2(i) == 128
  {
    assert Pow2(1) == 2 && Pow2(2) == 4 && Pow2(3) == 8 && Pow2(4) == 16 && Pow2(5) == 32 && Pow2(6) == 64 && Pow2(7) == 128;
  }

  lemma LowNext(b: byte, i: nat)
    ensures Low(b, i + 1) == Low(b, i) + if Bit(b, i) then Pow2(i) else 0
  {
  }

  /** The samples fall into the bits they are for, if a bit is wider than one cycle. */
  lemma TakenInPlace(i: nat, div: half)
    requires i <= 9 && div > 0
    ensures BitAt(Taken(i, div), div + 1) == i && Taken(i, div) < 10 * (div + 1)
    ensures i < 9 ==> Taken(i + 1, div) == Taken(i, div) + div + 1
  {
    SpanIs(i, div + 1);
    PlaceIs(i, div / 2 + 1, div + 1);
  }

  lemma TakenGrows(i: nat, j: nat, div: half)
    requires i <= j <= 9
    ensures Taken(i, div) <= Taken(j, div)
  {
    SpanIs(i, div + 1);
    SpanIs(j, div + 1);
  }

  /** The start of a frame wakes the engine. */
  lemma HearsStart(rx: RxEngine, b: byte, div: half)
    requires rx.state == RxIdle
    ensures Hears(RxNext(rx, false, div), b, 1, div) && !FrameDone(rx, div)
  {
  }

  /** One place further in the frame. */
  lemma HearsNext(rx: RxEngine, b: byte, n: nat, div: half)
    requires Hears(rx, b, n, div) && 0 < n < 10 * (div + 1) && div > 0
    ensures Hears(RxNext(rx, Level(b, BitAt(n, div + 1)), div), b, n + 1, div)
    ensures FrameDone(rx, div) <==> n == Taken(9, div)
    ensures FrameDone(rx, div) ==> rx.shift == b
  {
    hide Level, Taken, Pow2, Low;
    Bounds(rx, n, div);
    match rx.state {
      case RxIdle =>
        DivReaches(n, div + 1, 9);
        HighBehind(b, BitAt(n, div + 1));
      case RxStart => HearsStartBit(rx, b, n, div);
      case RxData => HearsData(rx, b, n, div);
      case RxStop =>
    }
  }

  lemma HearsStartBit(rx: RxEngine, b: byte, n: nat, div: half)
    requires Hears(rx, b, n, div) && rx.state == RxStart && div > 0
    ensures Hears(RxNext(rx, Level(b, BitAt(n, div + 1)), div), b, n + 1, div)
  {
    hide Level, Taken, Pow2, Low;
    Bounds(rx, n, div);
    if rx.cnt == div / 2 {
      TakenInPlace(0, div);
      StartIsLow(b);
      Nothing(rx.shift, b);
    }
  }

  lemma HearsData(rx: RxEngine, b: byte, n: nat, div: half)
    requires Hears(rx, b, n, div) && rx.state == RxData && div > 0
    ensures Hears(RxNext(rx, Level(b, BitAt(n, div + 1)), div), b, n + 1, div)
  {
    hide Level, Taken, Pow2, Low;
    Bounds(rx, n, div);
    var i: nat := rx.bitCnt;
    if rx.cnt == div {
      TakenInPlace(i + 1, div);
      DataLevel(b, i);
      ShiftIn(rx.shift, b, i);
      if i == 7 {
        AllBits(b);
        One((if Level(b, i + 1) then 128 else 0) + rx.shift / 2);
      }
    }
  }

  lemma DataLevel(b: byte, i: nat)
    requires i < 8
    ensures Level(b, i + 1) == Bit(b, i)
  {
  }

  lemma Nothing(x: byte, b: byte)
    ensures x / Pow2(8) == Low(b, 0)
  {
    assert Pow2(8) == 256;
  }

  lemma One(x: nat)
    ensures x / Pow2(0) == x
  {
  }

  /** Where the engine can be in terms of the samples before and behind it. */
  lemma Bounds(rx: RxEngine, n: nat, div: half)
    requires div > 0
    ensures rx.state == RxIdle && n > Taken(9, div) ==> 9 * (div + 1) <= n
    ensures rx.state == RxStart && rx.cnt == div / 2 ==> Place(rx, div) == Taken(0, div)
    ensures rx.state == RxStart && rx.cnt <= div / 2 ==> Place(rx, div) <= Taken(0, div) < Taken(9, div)
    ensures rx.state == RxData && rx.cnt == div ==> Place(rx, div) == Taken(rx.bitCnt + 1, div)
    ensures rx.state == RxData && rx.cnt <= div ==> Place(rx, div) <= Taken(8, div) < Taken(9, div)
    ensures rx.state == RxStop ==> (Place(rx, div) == Taken(9, div) <==> rx.cnt == div)
    ensures rx.state == RxStop && rx.cnt <= div ==> Place(rx, div) <= Taken(9, div)
  {
    SpanIs(0, div + 1);
    SpanIs(8, div + 1);
    SpanIs(9, div + 1);
    if rx.state == RxData {
      SpanNext(rx.bitCnt + 1, div + 1);
      TakenGrows(rx.bitCnt + 1, 8, div);
    }
  }

  /** A quiet line leaves an idle engine idle. */
  lemma StaysIdle(rx: RxEngine, div: half)
    requires rx.state == RxIdle
    ensures RxNext(rx, true, div).state == RxIdle && !FrameDone(rx, div)
  {
  }

  // ------------------------------------------------------------------
  // The engine behind the driver
  // ------------------------------------------------------------------

  /** Driver and engine are in the same place of the text; heard are the bytes of the frames done. */
  predicate Receives(d: Driver, rx: RxEngine, heard: seq<byte>, text: seq<byte>, div: half) {
    && d.idx <= |text|
    && if d.active then
         && d.idx > 0 && d.cur == text[d.idx - 1] && d.bit < 10 && d.cnt < div + 1 && Elapsed(d.bit, d.cnt, div + 1) > 0
         && Hears(rx, d.cur, Elapsed(d.bit, d.cnt, div + 1), div)
         && heard == text[..if Elapsed(d.bit, d.cnt, div + 1) <= Taken(9, div) then d.idx - 1 else d.idx]
       else rx.state == RxIdle && heard == text[..d.idx]
  }

  function HeardNext(heard: seq<byte>, rx: RxEngine, div: half): seq<byte> {
    heard + if FrameDone(rx, div) then [rx.shift] else []
  }

  lemma ReceivesNext(d: Driver, rx: RxEngine, heard: seq<byte>, text: seq<byte>, paced: bool, blocked: bool, div: half)
    requires Receives(d, rx, heard, text, div) && div > 0
    ensures Receives(DriverNext(d, text, paced, div + 1, blocked), RxNext(rx, DriverLevel(d, text, paced, blocked), div),
                     HeardNext(heard, rx, div), text, div)
    ensures FrameDone(rx, div) ==> d.active && d.idx > 0 && heard == text[..d.idx - 1]
  {
    hide Level, Hears, Taken, RxNext, FrameDone;
    assert heard + [] == heard;
    if d.active {
      ReceivesInFrame(d, rx, heard, text, div);
    } else if Begins(d, text, paced, blocked) {
      StartIsLow(text[d.idx]);
      HearsStart(rx, text[d.idx], div);
      Early(div);
      NextPlace(0, 0, div + 1);
    } else {
      StaysIdle(rx, div);
    }
  }

  lemma Early(div: half)
    ensures 1 <= Taken(9, div)
  {
  }

  lemma ReceivesInFrame(d: Driver, rx: RxEngine, heard: seq<byte>, text: seq<byte>, div: half)
    requires Receives(d, rx, heard, text, div) && div > 0 && d.active
    ensures Receives(Advance(d, div + 1), RxNext(rx, Level(d.cur, d.bit), div), HeardNext(heard, rx, div), text, div)
    ensures FrameDone(rx, div) ==> heard == text[..d.idx - 1]
  {
    hide Level, Hears, Taken, RxNext, FrameDone, Elapsed;
    var n := Elapsed(d.bit, d.cnt, div + 1);
    PlaceIs(d.bit, d.cnt, div + 1);
    NextPlace(d.bit, d.cnt, div + 1);
    HearsNext(rx, d.cur, n, div);
    TakenInPlace(9, div);
    assert text[..d.idx - 1] + [d.cur] == text[..d.idx];
    assert heard + [] == heard;
    if n + 1 == 10 * (div + 1) {
      FrameIsOver(RxNext(rx, Level(d.cur, d.bit), div), d.cur, div);
    }
  }

  lemma FrameIsOver(rx: RxEngine, b: byte, div: half)
    requires Hears(rx, b, 10 * (div + 1), div) && div > 0
    ensures rx.state == RxIdle
  {
    TakenInPlace(9, div);
    Bounds(rx, 10 * (div + 1), div);
  }

  // ------------------------------------------------------------------
  // The driver, two cycles ahead of what the engine sees
  // ------------------------------------------------------------------

  /** The driver two cycles on. */
  function Ahead(d: Driver, text: seq<byte>, paced: bool, w: nat, b1: bool, b2: bool): Driver {
    DriverNext(DriverNext(d, text, paced, w, b1), text, paced, w, b2)
  }

  /** A driver in the midst of a frame is at most just behind it two cycles on, and one that waits
      behind its gap has been waiting. */
  lemma Lag(d: Driver, text: seq<byte>, paced: bool, w: nat, b1: bool, b2: bool)
    requires w >= 2 && (d.active ==> d.bit < 10 && d.cnt < w)
    ensures var e := Ahead(d, text, paced, w, b1, b2);
            && d.idx <= e.idx <= d.idx + 1 && (d.active ==> e.idx == d.idx)
            && (!e.active && e.gap + 2 <= GAP_CYCLES ==> !d.active && e.idx == d.idx)
  {
  }

  // ------------------------------------------------------------------
  // The test bench
  // ------------------------------------------------------------------

  /** The peripheral, the driver, and the two flops between them. */
  datatype Rig = Rig(r: Regs, d: Driver, near: bool, far: bool)

  /** One cycle: the driver looks at the ring buffer before the edge. */
  function Step(g: Rig, f: Fwd, text: seq<byte>, paced: bool, w: nat): (n: Rig)
    requires Ringed(g.r)
    ensures Ringed(n.r)
  {
    var blocked := Full(g.r.rxq);
    Rig(Next(g.r, Input(f, g.far)), DriverNext(g.d, text, paced, w, blocked), DriverLevel(g.d, text, paced, blocked), g.near)
  }

  /** What has been handed over on the bus; the bytes that reads of RXDATA have returned; and for the
      proof the bytes of the frames done, the queue, and the driver of two cycles ago with what
      blocked it. */
  datatype Past = Past(h: T.History, read: seq<byte>, heard: seq<byte>, queue: seq<byte>, late: Driver, b1: bool, b2: bool)

  function PastNext(p: Past, g: Rig, f: Fwd, text: seq<byte>, paced: bool, w: nat): Past
    requires Ringed(g.r)
  {
    var pop := RxPop(g.r.rd, g.r.rxq, f);
    Past(T.HistoryNext(p.h, g.r, f), p.read + (if pop then [Head(g.r.rxq)] else []),
         HeardNext(p.heard, g.r.rx, g.r.div.live),
         QueueNext(p.queue, RxPush(g.r.rx, g.r.div.live, g.r.rxq, pop), g.r.rx.shift, pop),
         DriverNext(p.late, text, paced, w, p.b1), p.b2, Full(g.r.rxq))
  }

  /** A read of RXDATA that finds a byte returns it. */
  lemma ReadReturns(r: Regs, i: Input)
    requires Ringed(r) && RxPop(r.rd, r.rxq, i.f)
    ensures Next(r, i).rd == ReadRegs(true, Head(r.rxq))
  {
    hide Full, FifoNext, TxNext, RxNext, Head;
  }

  predicate Delayed(p: Past, g: Rig, text: seq<byte>, paced: bool, w: nat) {
    && g.d == Ahead(p.late, text, paced, w, p.b1, p.b2)
    && g.far == DriverLevel(p.late, text, paced, p.b1)
    && g.near == DriverLevel(DriverNext(p.late, text, paced, w, p.b1), text, paced, p.b2)
  }

  /** While a frame is on its way to the engine there is room for it. */
  predicate Roomy(p: Past, g: Rig) { |p.heard| < g.d.idx ==> |p.queue| < FIFO_DEPTH }

  predicate Kept(p: Past, g: Rig) { !g.r.overrun && p.read + p.queue == p.heard && Roomy(p, g) }

  ghost predicate Same(p: Past, div: half)
    requires p.h.done <= |p.h.words| && p.h.done <= |p.h.beats|
  {
    T.AllSet(p.h.words, p.h.beats, p.h.done, T.Only(div))
  }

  ghost predicate Types(p: Past, g: Rig, text: seq<byte>, paced: bool, div: half) {
    && Ringed(g.r) && T.Collects(g.r.w, p.h.words, p.h.beats, p.h.done, p.h.answered)
    && Holds(g.r.rxq, p.queue) && Delayed(p, g, text, paced, div + 1)
    && (Same(p, div) ==>
          && T.Allowed(g.r.div, T.Only(div)) && Receives(p.late, g.r.rx, p.heard, text, div)
          && (paced ==> Kept(p, g)))
  }

  lemma HoldsRx(q: Fifo, queue: seq<byte>, rx: RxEngine, rd: ReadRegs, f: Fwd, div: half)
    requires Holds(q, queue)
    ensures Sized(q)
    ensures var pop := RxPop(rd, q, f);
            Holds(FifoNext(q, RxPush(rx, div, q, pop), rx.shift, pop), QueueNext(queue, RxPush(rx, div, q, pop), rx.shift, pop))
  {
    hide Holds, Full, FifoNext, RxRead;
    QueueEnds(q, queue);
    var pop := RxPop(rd, q, f);
    HoldsNext(q, queue, RxPush(rx, div, q, pop), rx.shift, pop);
  }

  /** A frame that ends is one the driver has begun, after the room was there. */
  lemma DoneHasRoom(p: Past, g: Rig, text: seq<byte>, div: half)
    requires Types(p, g, text, true, div) && Same(p, div) && div > 0
    ensures g.r.div.live == div && (FrameDone(g.r.rx, div) ==> !Full(g.r.rxq) && |p.heard| + 1 == g.d.idx && !Begins(g.d, text, true, false))
    ensures |p.heard| <= g.d.idx <= |p.heard| + 1
    ensures Begins(g.d, text, true, false) ==> |p.heard| == g.d.idx
  {
    hide Holds, Full, Hears, Taken, Elapsed, Level, FrameDone, RxNext, T.Collects, T.AllSet, DriverNext, DriverLevel;
    OnlyIs(g.r.div, div);
    QueueEnds(g.r.rxq, p.queue);
    ReceivesPlaced(p.late, g.r.rx, p.heard, text, div);
    Lag(p.late, text, true, div + 1, p.b1, p.b2);
    ReceivesNext(p.late, g.r.rx, p.heard, text, true, p.b1, div);
  }

  lemma ReceivesPlaced(d: Driver, rx: RxEngine, heard: seq<byte>, text: seq<byte>, div: half)
    requires Receives(d, rx, heard, text, div)
    ensures d.active ==> d.bit < 10 && d.cnt < div + 1 && d.idx > 0 && d.idx - 1 <= |heard| <= d.idx
    ensures !d.active ==> |heard| == d.idx
  {
    hide Hears, Taken, Elapsed;
  }

  /** Nothing is lost between the engine and the reads if every frame is pushed. */
  lemma ReadOn(read: seq<byte>, queue: seq<byte>, heard: seq<byte>, push: bool, b: byte, pop: bool)
    requires read + queue == heard && (pop ==> queue != [])
    ensures (read + if pop then [queue[0]] else []) + QueueNext(queue, push, b, pop) == heard + if push then [b] else []
  {
    if pop {
      assert queue == [queue[0]] + queue[1..];
    }
  }

  /** A paced frame is kept, and the next one waits for room. */
  lemma KeptNext(p: Past, g: Rig, f: Fwd, text: seq<byte>, div: half)
    requires Types(p, g, text, true, div) && Same(p, div) && div > 0
    ensures Kept(PastNext(p, g, f, text, true, div + 1), Step(g, f, text, true, div + 1))
  {
    hide Holds, Full, RxRead, Next, Receives, Head, T.HistoryNext, T.Collects, T.AllSet, FrameDone, Delayed, T.Allowed;
    var r, pop := g.r, RxPop(g.r.rd, g.r.rxq, f);
    QueueEnds(r.rxq, p.queue);
    NextOverrun(r, Input(f, g.far));
    DoneHasRoom(p, g, text, div);
    ReadOn(p.read, p.queue, p.heard, FrameDone(r.rx, div), r.rx.shift, pop);
    IdxNext(g.d, text, true, div + 1, Full(r.rxq));
  }

  lemma IdxNext(d: Driver, text: seq<byte>, paced: bool, w: nat, blocked: bool)
    requires w >= 2
    ensures DriverNext(d, text, paced, w, blocked).idx == d.idx + (if Begins(d, text, paced, blocked) then 1 else 0)
  {
  }

  lemma NextOverrun(r: Regs, i: Input)
    requires Ringed(r)
    ensures Next(r, i).overrun == OverrunNext(r, i.f)
  {
    hide FifoNext, TxNext, RxNext, Full, Selected;
  }

  lemma OnlyIs(d: Divisor, div: half)
    requires T.Allowed(d, T.Only(div))
    ensures d.live == div
  {
  }

  lemma NextRx(r: Regs, i: Input)
    requires Ringed(r)
    ensures var n, pop := Next(r, i), RxPop(r.rd, r.rxq, i.f);
            && n.rx == RxNext(r.rx, i.rxd, r.div.live) && n.w == WriteNext(r.w, r.txq, i.f)
            && n.rxq == FifoNext(r.rxq, RxPush(r.rx, r.div.live, r.rxq, pop), r.rx.shift, pop)
            && n.div == DivisorNext(r.div, Writes(r.w, r.txq, i.f, REG_BAUDDIV), DataNow(r.w, i.f), Applies(r.div, r.tx, r.rx))
  {
    hide FifoNext, TxNext, RxNext, Full, Selected;
  }

  lemma TypesNext(p: Past, g: Rig, f: Fwd, text: seq<byte>, paced: bool, div: half)
    requires Types(p, g, text, paced, div) && div > 0
    ensures Types(PastNext(p, g, f, text, paced, div + 1), Step(g, f, text, paced, div + 1), text, paced, div)
  {
    hide Holds, Full, RxRead, Next, RxNext, Receives, Head, Kept, Writes, DataNow, T.Collects, T.AllSet, T.Only, T.WordsNext, T.BeatsNext, T.DoneNext,
      FrameDone, DriverNext, DriverLevel, QueueNext, WriteNext, FifoNext, RxPush, RxPop, DivisorNext;
    var r := g.r;
    NextRx(r, Input(f, g.far));
    T.CollectsNext(p.h, r, f);
    T.AllowedNext(p.h, r, f, T.Only(div));
    HoldsRx(r.rxq, p.queue, r.rx, r.rd, f, r.div.live);
    var q := PastNext(p, g, f, text, paced, div + 1);
    if Same(q, div) {
      OnlyIs(r.div, div);
      ReceivesNext(p.late, r.rx, p.heard, text, paced, p.b1, div);
      if paced {
        KeptNext(p, g, f, text, div);
      }
    }
  }

  /** The test bench over a run, with its past. */
  function RigRun(g: Rig, p: Past, fs: seq<Fwd>, text: seq<byte>, paced: bool, w: nat): (Rig, Past)
    requires Ringed(g.r)
    decreases |fs|
  {
    if fs == [] then (g, p)
    else RigRun(Step(g, fs[0], text, paced, w), PastNext(p, g, fs[0], text, paced, w), fs[1..], text, paced, w)
  }

  lemma {:induction false} AlwaysTypes(g: Rig, p: Past, fs: seq<Fwd>, text: seq<byte>, paced: bool, div: half)
    requires Types(p, g, text, paced, div) && div > 0
    ensures var (n, q) := RigRun(g, p, fs, text, paced, div + 1); Types(q, n, text, paced, div)
    decreases |fs|
  {
    hide Step, PastNext, Holds, Delayed, Receives, Kept, T.Collects, T.Allowed, Same;
    if fs == [] {
    } else {
      TypesNext(p, g, fs[0], text, paced, div);
      AlwaysTypes(Step(g, fs[0], text, paced, div + 1), PastNext(p, g, fs[0], text, paced, div + 1), fs[1..], text, paced, div);
    }
  }

  /** Reset: the flops hold the idle level, and the driver has been silent. */
  function RigStart(r: Regs): Rig { Rig(r, DRIVER_START, true, true) }

  const BEFORE := Past(T.NOTHING, [], [], [], DRIVER_START.(gap := 2), false, false)

  lemma StartParts(r: Regs, text: seq<byte>, div: half)
    requires Reset(r, div)
    ensures Ringed(r) && Holds(r.rxq, []) && T.Collects(r.w, [], [], 0, 0) && Receives(BEFORE.late, r.rx, [], text, div)
  {
  }

  lemma StartTypes(r: Regs, text: seq<byte>, paced: bool, div: half)
    requires Reset(r, div)
    ensures Types(BEFORE, RigStart(r), text, paced, div)
  {
    hide T.AllSet, Holds, T.Collects, Receives;
    StartParts(r, text, div);
  }

  /** How many writes have been carried out, seen at the port. */
  function Carried(g: Rig, p: Past): nat { p.h.answered + Flag(g.r.w.bvalid) }

  lemma CarriedIsDone(g: Rig, p: Past)
    requires T.Collects(g.r.w, p.h.words, p.h.beats, p.h.done, p.h.answered)
    ensures p.h.done == Carried(g, p) && p.h.done <= |p.h.words| && p.h.done <= |p.h.beats|
  {
  }

  /** The driver has been done for the two cycles its last level needs to get through the flops. */
  predicate Through(d: Driver, text: seq<byte>) { Done(d, text) && d.gap <= 8 }

  lemma Positions(p: Past, g: Rig, text: seq<byte>, paced: bool, div: half)
    requires Types(p, g, text, paced, div) && Same(p, div) && div > 0
    ensures p.heard <= text && |p.heard| <= g.d.idx <= |p.heard| + 1 && g.d.idx <= |text|
    ensures Through(g.d, text) ==> p.heard == text
  {
    hide Holds, Full, T.Collects, T.AllSet, DriverNext, DriverLevel, Hears, Taken, Elapsed, Kept;
    ReceivesPlaced(p.late, g.r.rx, p.heard, text, div);
    Lag(p.late, text, paced, div + 1, p.b1, p.b2);
    IdxBound(p.late, text, paced, div + 1, p.b1);
    IdxBound(DriverNext(p.late, text, paced, div + 1, p.b1), text, paced, div + 1, p.b2);
    assert Through(g.d, text) ==> text[..g.d.idx] == text;
  }

  lemma IdxBound(d: Driver, text: seq<byte>, paced: bool, w: nat, blocked: bool)
    requires d.idx <= |text|
    ensures DriverNext(d, text, paced, w, blocked).idx <= |text|
  {
  }

  /** The driver and the peripheral have the same bit width, of at least two cycles, and software
      sets no other. Whatever else the master drives, paced or not: the frames that the engine has
      completed are the text so far, in order, at most one behind the driver, and all of it once the
      driver is done and its last level through. */
  lemma TextIsHeard(r: Regs, fs: seq<Fwd>, text: seq<byte>, paced: bool, div: half)
    requires Reset(r, div) && div > 0
    ensures var (g, p) := RigRun(RigStart(r), BEFORE, fs, text, paced, div + 1);
            && Carried(g, p) <= |p.h.words| && Carried(g, p) <= |p.h.beats|
            && (T.AllSet(p.h.words, p.h.beats, Carried(g, p), T.Only(div)) ==>
                  && p.heard <= text && |p.heard| <= g.d.idx <= |p.heard| + 1
                  && (Through(g.d, text) ==> p.heard == text))
  {
    hide RigRun, T.AllSet, Receives, Kept, Holds, Delayed, T.Collects;
    StartTypes(r, text, paced, div);
    AlwaysTypes(RigStart(r), BEFORE, fs, text, paced, div);
    var (g, p) := RigRun(RigStart(r), BEFORE, fs, text, paced, div + 1);
    CarriedIsDone(g, p);
    if Same(p, div) {
      Positions(p, g, text, paced, div);
    }
  }

  /** With a paced driver no frame is ever dropped: RX_OVERRUN stays clear, and reads of RXDATA return
      the text in order, at most 17 bytes behind the driver, and all of it once the driver is through
      and the ring buffer empty. */
  lemma PacedIsRead(r: Regs, fs: seq<Fwd>, text: seq<byte>, div: half)
    requires Reset(r, div) && div > 0
    ensures var (g, p) := RigRun(RigStart(r), BEFORE, fs, text, true, div + 1);
            && Carried(g, p) <= |p.h.words| && Carried(g, p) <= |p.h.beats|
            && (T.AllSet(p.h.words, p.h.beats, Carried(g, p), T.Only(div)) ==>
                  && !g.r.overrun && p.read <= text && g.d.idx <= |p.read| + FIFO_DEPTH + 1
                  && (Through(g.d, text) && Empty(g.r.rxq) ==> p.read == text))
  {
    hide RigRun, T.AllSet, Receives, Holds, Delayed, T.Collects;
    StartTypes(r, text, true, div);
    AlwaysTypes(RigStart(r), BEFORE, fs, text, true, div);
    var (g, p) := RigRun(RigStart(r), BEFORE, fs, text, true, div + 1);
    CarriedIsDone(g, p);
    QueueEnds(g.r.rxq, p.queue);
    if Same(p, div) {
      Positions(p, g, text, true, div);
    }
  }

  // ------------------------------------------------------------------
  // Without pacing
  // ------------------------------------------------------------------

  /** No read of RXDATA. */
  predicate Deaf(fs: seq<Fwd>) { forall k :: 0 <= k < |fs| ==> !(fs[k].arvalid && WordOf(fs[k].araddr) == REG_RXDATA) }

  function First(s: seq<byte>, n: nat): seq<byte> { if n <= |s| then s[..n] else s }

  /** Unread, the ring buffer keeps the first 16 bytes and drops the others. */
  predicate Piles(p: Past, g: Rig) {
    p.queue == First(p.heard, FIFO_DEPTH) && (g.r.overrun <==> |p.heard| > FIFO_DEPTH)
  }

  lemma PilesNext(p: Past, g: Rig, f: Fwd, text: seq<byte>, paced: bool, w: nat)
    requires Ringed(g.r) && Holds(g.r.rxq, p.queue) && Piles(p, g) && !(f.arvalid && WordOf(f.araddr) == REG_RXDATA)
    ensures Piles(PastNext(p, g, f, text, paced, w), Step(g, f, text, paced, w))
  {
    hide Holds, Full, Next, Head, FrameDone, T.HistoryNext, DriverNext, DriverLevel;
    QueueEnds(g.r.rxq, p.queue);
    NextOverrun(g.r, Input(f, g.far));
    assert p.heard + [] == p.heard && p.queue + [] == p.queue;
    if FrameDone(g.r.rx, g.r.div.live) && |p.heard| < FIFO_DEPTH {
      assert (p.heard + [g.r.rx.shift])[..|p.heard| + 1] == p.heard + [g.r.rx.shift];
    }
  }

  lemma HoldsNextRx(p: Past, g: Rig, f: Fwd, text: seq<byte>, paced: bool, w: nat)
    requires Ringed(g.r) && Holds(g.r.rxq, p.queue)
    ensures Holds(Step(g, f, text, paced, w).r.rxq, PastNext(p, g, f, text, paced, w).queue)
  {
    hide Holds, Full, Next, FifoNext, QueueNext, RxPush, RxPop;
    NextRx(g.r, Input(f, g.far));
    HoldsRx(g.r.rxq, p.queue, g.r.rx, g.r.rd, f, g.r.div.live);
  }

  lemma {:induction false} AlwaysPiles(g: Rig, p: Past, fs: seq<Fwd>, text: seq<byte>, paced: bool, w: nat)
    requires Ringed(g.r) && Holds(g.r.rxq, p.queue) && Piles(p, g) && Deaf(fs)
    ensures var (n, q) := RigRun(g, p, fs, text, paced, w); Piles(q, n)
    decreases |fs|
  {
    hide Step, PastNext, Holds, Piles;
    if fs == [] {
    } else {
      PilesNext(p, g, fs[0], text, paced, w);
      HoldsNextRx(p, g, fs[0], text, paced, w);
      AlwaysPiles(Step(g, fs[0], text, paced, w), PastNext(p, g, fs[0], text, paced, w), fs[1..], text, paced, w);
    }
  }

  /** The pacing matters: unread, the flag is set exactly when more than 16 frames have come. So an
      unpaced driver that is through with a text of more than 16 bytes has overrun it. */
  lemma UnreadOverruns(r: Regs, fs: seq<Fwd>, text: seq<byte>, paced: bool, div: half)
    requires Reset(r, div) && div > 0 && Deaf(fs)
    ensures var (g, p) := RigRun(RigStart(r), BEFORE, fs, text, paced, div + 1);
            && (g.r.overrun <==> |p.heard| > FIFO_DEPTH)
            && Carried(g, p) <= |p.h.words| && Carried(g, p) <= |p.h.beats|
            && (T.AllSet(p.h.words, p.h.beats, Carried(g, p), T.Only(div)) && Through(g.d, text) ==>
                  (g.r.overrun <==> |text| > FIFO_DEPTH))
  {
    hide RigRun, T.AllSet, T.Collects;
    AlwaysPiles(RigStart(r), BEFORE, fs, text, paced, div + 1);
    TextIsHeard(r, fs, text, paced, div);
  }

  // ------------------------------------------------------------------
  // A bit of one cycle is too narrow
  // ------------------------------------------------------------------

  /** Divisor 0 and a driver of the same width: the engine looks for the start bit again a cycle
      after it saw it, when the line is at the first data bit. */
  predicate Glitches(d: Driver, rx: RxEngine, heard: seq<byte>) {
    && heard == [] && (d.active ==> d.cur == 0xff && d.bit < 10 && d.cnt == 0 && d.bit > 0)
    && if d.active && d.bit == 1 then rx.state == RxStart && rx.cnt == 0 else rx.state == RxIdle
  }

  lemma GlitchesNext(d: Driver, rx: RxEngine, heard: seq<byte>, paced: bool, blocked: bool)
    requires Glitches(d, rx, heard) && d.idx <= 1
    ensures Glitches(DriverNext(d, [0xff], paced, 1, blocked), RxNext(rx, DriverLevel(d, [0xff], paced, blocked), 0), HeardNext(heard, rx, 0))
  {
    hide Level;
    AllOnes(d.bit);
    assert heard + [] == heard;
  }

  lemma AllOnes(k: nat)
    ensures Level(0xff, k) <==> k != 0
  {
    if 1 <= k <= 8 {
      OnesBit(k - 1);
    }
  }

  lemma OnesBit(i: nat)
    requires i < 8
    ensures Bit(0xff, i)
  {
    assert Pow2(1) == 2 && Pow2(2) == 4 && Pow2(3) == 8 && Pow2(4) == 16 && Pow2(5) == 32 && Pow2(6) == 64 && Pow2(7) == 128;
  }

  ghost predicate Misses(p: Past, g: Rig, paced: bool) {
    && Ringed(g.r) && T.Collects(g.r.w, p.h.words, p.h.beats, p.h.done, p.h.answered)
    && Delayed(p, g, [0xff], paced, 1) && p.late.idx <= 1
    && (Same(p, 0) ==> T.Allowed(g.r.div, T.Only(0)) && Glitches(p.late, g.r.rx, p.heard))
  }

  lemma MissesNext(p: Past, g: Rig, f: Fwd, paced: bool)
    requires Misses(p, g, paced)
    ensures Misses(PastNext(p, g, f, [0xff], paced, 1), Step(g, f, [0xff], paced, 1), paced)
  {
    hide Full, RxRead, Next, RxNext, Head, Writes, DataNow, T.Collects, T.AllSet, T.Only, T.WordsNext, T.BeatsNext, T.DoneNext,
      FrameDone, DriverNext, DriverLevel, QueueNext, WriteNext, FifoNext, RxPush, RxPop, DivisorNext, Glitches;
    var r := g.r;
    NextRx(r, Input(f, g.far));
    T.CollectsNext(p.h, r, f);
    T.AllowedNext(p.h, r, f, T.Only(0));
    IdxBound(p.late, [0xff], paced, 1, p.b1);
    var q := PastNext(p, g, f, [0xff], paced, 1);
    if Same(q, 0) {
      OnlyIs(r.div, 0);
      GlitchesNext(p.late, r.rx, p.heard, paced, p.b1);
    }
  }

  lemma {:induction false} AlwaysMisses(g: Rig, p: Past, fs: seq<Fwd>, paced: bool)
    requires Misses(p, g, paced)
    ensures var (n, q) := RigRun(g, p, fs, [0xff], paced, 1); Misses(q, n, paced)
    decreases |fs|
  {
    hide Step, PastNext, Delayed, Glitches, T.Collects, T.Allowed, Same;
    if fs == [] {
    } else {
      MissesNext(p, g, fs[0], paced);
      AlwaysMisses(Step(g, fs[0], [0xff], paced, 1), PastNext(p, g, fs[0], [0xff], paced, 1), fs[1..], paced);
    }
  }

  /** At a width of one cycle the byte 0xff is never heard, however long one waits. */
  lemma NarrowMisses(r: Regs, fs: seq<Fwd>, text: seq<byte>, paced: bool)
    requires Reset(r, 0) && text == [0xff]
    ensures var (g, p) := RigRun(RigStart(r), BEFORE, fs, text, paced, 1);
            && Carried(g, p) <= |p.h.words| && Carried(g, p) <= |p.h.beats|
            && (T.AllSet(p.h.words, p.h.beats, Carried(g, p), T.Only(0)) ==> p.heard == [])
  {
    hide RigRun, T.AllSet, T.Collects;
    StartTypes(r, [0xff], paced, 0);
    AlwaysMisses(RigStart(r), BEFORE, fs, paced);
    var (g, p) := RigRun(RigStart(r), BEFORE, fs, [0xff], paced, 1);
    CarriedIsDone(g, p);
  }

  // ------------------------------------------------------------------
  // But it is not overrun either
  // ------------------------------------------------------------------

  /** At divisor 0: the cycles the engine needs to become idle again. */
  function Busy(rx: RxEngine): nat {
    match rx.state case RxIdle => 0 case RxStart => 10 case RxData => 9 - rx.bitCnt case RxStop => 1
  }

  /** The cycles since the driver began its last frame, counted up to the end of the gap. */
  function Since(d: Driver): int { if d.active then d.bit else 20 - d.gap }

  /** Whatever the engine makes of a frame, it is idle two cycles before the next one can begin, and
      not before the gap if it has made something. */
  predicate Settles(d: Driver, rx: RxEngine) {
    && (d.active ==> 1 <= d.bit < 10 && d.cnt == 0) && d.gap <= GAP_CYCLES && (d.active ==> d.gap == 0) && rx.cnt == 0
    && match rx.state
       case RxIdle => true
       case RxStart => Since(d) <= 9
       case _ => Since(d) + Busy(rx) <= 18 && Since(d) + Busy(rx) >= 11
  }

  lemma SettlesNext(d: Driver, rx: RxEngine, text: seq<byte>, blocked: bool)
    requires Settles(d, rx)
    ensures Settles(DriverNext(d, text, true, 1, blocked), RxNext(rx, DriverLevel(d, text, true, blocked), 0))
    ensures FrameDone(rx, 0) ==> !d.active && 3 <= d.gap
    ensures rx.state == RxIdle && RxNext(rx, DriverLevel(d, text, true, blocked), 0).state != RxIdle ==>
              d.active || Begins(d, text, true, blocked)
  {
    hide Bit;
    HighBehind(d.cur, 9);
  }

  /** A frame is on its way, somewhere between the driver and the end of the engine's. */
  predicate Expects(p: Past, g: Rig, text: seq<byte>) {
    g.d.active || DriverNext(p.late, text, true, 1, p.b1).active || p.late.active || g.r.rx.state != RxIdle
  }

  ghost predicate Spared(p: Past, g: Rig, text: seq<byte>) {
    && Ringed(g.r) && T.Collects(g.r.w, p.h.words, p.h.beats, p.h.done, p.h.answered)
    && Holds(g.r.rxq, p.queue) && Delayed(p, g, text, true, 1)
    && (Same(p, 0) ==>
          && T.Allowed(g.r.div, T.Only(0)) && Settles(p.late, g.r.rx) && !g.r.overrun
          && (Expects(p, g, text) ==> |p.queue| < FIFO_DEPTH))
  }

  /** One cycle of the three drivers in a row. */
  lemma ExpectsNext(p: Past, g: Rig, f: Fwd, text: seq<byte>)
    requires Ringed(g.r) && Holds(g.r.rxq, p.queue) && Delayed(p, g, text, true, 1) && g.r.div.live == 0
    requires Settles(p.late, g.r.rx) && (Expects(p, g, text) ==> |p.queue| < FIFO_DEPTH)
    ensures var q, n := PastNext(p, g, f, text, true, 1), Step(g, f, text, true, 1);
            Expects(q, n, text) ==> |q.queue| < FIFO_DEPTH
  {
    hide Holds, Full, Next, Head, T.HistoryNext, RxNext, DriverLevel, Settles, RxRead;
    NextRx(g.r, Input(f, g.far));
    QueueEnds(g.r.rxq, p.queue);
    SettlesNext(p.late, g.r.rx, text, p.b1);
    if FrameDone(g.r.rx, 0) {
      DoneIsLast(g.r.rx, g.far);
    }
  }

  lemma DoneIsLast(rx: RxEngine, rxd: bool)
    requires FrameDone(rx, 0)
    ensures RxNext(rx, rxd, 0).state == RxIdle
  {
  }

  lemma SparedNext(p: Past, g: Rig, f: Fwd, text: seq<byte>)
    requires Spared(p, g, text)
    ensures Spared(PastNext(p, g, f, text, true, 1), Step(g, f, text, true, 1), text)
  {
    hide Holds, Full, RxRead, Next, RxNext, Head, Writes, DataNow, T.Collects, T.AllSet, T.Only, T.WordsNext, T.BeatsNext, T.DoneNext,
      DriverNext, DriverLevel, QueueNext, WriteNext, FifoNext, RxPush, RxPop, DivisorNext, Settles;
    var r := g.r;
    NextRx(r, Input(f, g.far));
    T.CollectsNext(p.h, r, f);
    T.AllowedNext(p.h, r, f, T.Only(0));
    HoldsRx(r.rxq, p.queue, r.rx, r.rd, f, r.div.live);
    NextOverrun(r, Input(f, g.far));
    QueueEnds(r.rxq, p.queue);
    var q := PastNext(p, g, f, text, true, 1);
    if Same(q, 0) {
      OnlyIs(r.div, 0);
      SettlesNext(p.late, r.rx, text, p.b1);
      ExpectsNext(p, g, f, text);
    }
  }

  lemma {:induction false} AlwaysSpared(g: Rig, p: Past, fs: seq<Fwd>, text: seq<byte>)
    requires Spared(p, g, text)
    ensures var (n, q) := RigRun(g, p, fs, text, true, 1); Spared(q, n, text)
    decreases |fs|
  {
    hide Step, PastNext, Delayed, Settles, Expects, Holds, T.Collects, T.Allowed, Same;
    if fs == [] {
    } else {
      SparedNext(p, g, fs[0], text);
      AlwaysSpared(Step(g, fs[0], text, true, 1), PastNext(p, g, fs[0], text, true, 1), fs[1..], text);
    }
  }

  /** A paced driver of the peripheral's bit width, whatever it is, never provokes RX_OVERRUN. */
  lemma PacedNeverOverruns(r: Regs, fs: seq<Fwd>, text: seq<byte>, div: half)
    requires Reset(r, div)
    ensures var (g, p) := RigRun(RigStart(r), BEFORE, fs, text, true, div + 1);
            && Carried(g, p) <= |p.h.words| && Carried(g, p) <= |p.h.beats|
            && (T.AllSet(p.h.words, p.h.beats, Carried(g, p), T.Only(div)) ==> !g.r.overrun)
  {
    hide RigRun, T.AllSet, T.Collects, Settles, Holds, Delayed, Expects;
    if div > 0 {
      PacedIsRead(r, fs, text, div);
    } else {
      StartTypes(r, text, true, 0);
      StartSettles(r);
      AlwaysSpared(RigStart(r), BEFORE, fs, text);
      var (g, p) := RigRun(RigStart(r), BEFORE, fs, text, true, 1);
      CarriedIsDone(g, p);
    }
  }

  lemma StartSettles(r: Regs)
    requires Reset(r, 0)
    ensures Settles(BEFORE.late, r.rx) && |BEFORE.queue| < FIFO_DEPTH
  {
  }
}
