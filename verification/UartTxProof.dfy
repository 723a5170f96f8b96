/** What the sampling monitor decodes off the transmit line is what was written to TXDATA on the
    bus, byte for byte and in order, as long as it tolerates the divisors that software sets.
 */
module UartTxProof {
  import opened Arithmetic
  import opened AxiLite
  import opened AxiUart
  import opened Uart
  import opened UartFifo
  import opened UartProof
  import opened Words

  // ------------------------------------------------------------------
  // Writes on the bus
  // ------------------------------------------------------------------

  datatype Beat = Beat(data: word, strb: u4)

  /** The k-th address goes with the k-th beat; a write does something only if it strobes byte 0. */
  predicate Sets(words: seq<register>, beats: seq<Beat>, k: nat, reg: register)
    requires k < |words| && k < |beats|
  {
    words[k] == reg && beats[k].strb % 2 == 1
  }

  /** The bytes that the first n writes send. */
  function Written(words: seq<register>, beats: seq<Beat>, n: nat): seq<byte>
    requires n <= |words| && n <= |beats|
  {
    if n == 0 then []
    else Written(words, beats, n - 1) + if Sets(words, beats, n - 1, REG_TXDATA) then [beats[n - 1].data % 256] else []
  }

  /** The divisors that the first n writes set are all among those allowed. */
  ghost predicate AllSet(words: seq<register>, beats: seq<Beat>, n: nat, allowed: half -> bool)
    requires n <= |words| && n <= |beats|
  {
    forall k :: 0 <= k < n && Sets(words, beats, k, REG_BAUDDIV) ==> allowed(beats[k].data % 0x1_0000)
  }

  lemma {:induction false} WrittenPrefix(words: seq<register>, beats: seq<Beat>, more: seq<register>, rest: seq<Beat>, n: nat)
    requires n <= |words| && n <= |beats|
    ensures Written(words + more, beats + rest, n) == Written(words, beats, n)
    decreases n
  {
    if n > 0 {
      WrittenPrefix(words, beats, more, rest, n - 1);
      assert (words + more)[n - 1] == words[n - 1] && (beats + rest)[n - 1] == beats[n - 1];
    }
  }

  /** What has been handed over at the port, how many writes were carried out and answered, and
      where their bytes are. */
  datatype History = History(words: seq<register>, beats: seq<Beat>, done: nat, answered: nat,
                             sent: seq<byte>, current: byte, queue: seq<byte>)

  const NOTHING := History([], [], 0, 0, [], 0, [])

  function WordsNext(h: History, r: Regs, f: Fwd): seq<register> {
    h.words + if AwTaken(r.w, r.txq, f) then [WordOf(f.awaddr)] else []
  }

  function BeatsNext(h: History, r: Regs, f: Fwd): seq<Beat> {
    h.beats + if WTaken(r.w, f) then [Beat(f.wdata, f.wstrb)] else []
  }

  function DoneNext(h: History, r: Regs, f: Fwd): nat { h.done + Flag(Commits(r.w, r.txq, f)) }

  function HistoryNext(h: History, r: Regs, f: Fwd): History {
    var push, pop := Writes(r.w, r.txq, f, REG_TXDATA), TxPop(r.txq, r.tx);
    History(WordsNext(h, r, f), BeatsNext(h, r, f), DoneNext(h, r, f), h.answered + Flag(r.w.bvalid && f.bready),
            if r.tx.state == TxStop && r.tx.baud == r.div.live then h.sent + [h.current] else h.sent,
            if pop && h.queue != [] then h.queue[0] else h.current,
            QueueNext(h.queue, push, DataNow(r.w, f) % 256, pop))
  }

  // ------------------------------------------------------------------
  // The write path
  // ------------------------------------------------------------------

  /** Addresses and beats are taken one ahead of the writes carried out, at most. */
  predicate Collects(w: WriteRegs, words: seq<register>, beats: seq<Beat>, done: nat, answered: nat) {
    && |words| == done + Flag(w.awSeen) && (w.awSeen ==> w.reg == words[done])
    && |beats| == done + Flag(w.wSeen) && (w.wSeen ==> Beat(w.wdata, w.wstrb) == beats[done])
    && done == answered + Flag(w.bvalid) && (w.bvalid ==> !w.awSeen && !w.wSeen)
  }

  lemma CollectsNext(h: History, r: Regs, f: Fwd)
    requires Collects(r.w, h.words, h.beats, h.done, h.answered)
    ensures Collects(WriteNext(r.w, r.txq, f), WordsNext(h, r, f), BeatsNext(h, r, f), DoneNext(h, r, f),
                     h.answered + Flag(r.w.bvalid && f.bready))
  {
    hide Full;
  }

  /** A write carried out does to its register what the lists of addresses and beats say. */
  lemma CommittedIs(h: History, r: Regs, f: Fwd, reg: register)
    requires Collects(r.w, h.words, h.beats, h.done, h.answered) && Commits(r.w, r.txq, f)
    ensures var words, beats := WordsNext(h, r, f), BeatsNext(h, r, f);
            && h.done < |words| && h.done < |beats|
            && (Sets(words, beats, h.done, reg) <==> Writes(r.w, r.txq, f, reg)) && beats[h.done].data == DataNow(r.w, f)
  {
    hide Full;
    var words, beats := WordsNext(h, r, f), BeatsNext(h, r, f);
    assert words[h.done] == AddressNow(r.w, r.txq, f);
    assert beats[h.done] == Beat(DataNow(r.w, f), StrobesNow(r.w, f));
  }

  /** It sends its byte exactly if it pushes one. */
  lemma WrittenNext(h: History, r: Regs, f: Fwd)
    requires Collects(r.w, h.words, h.beats, h.done, h.answered)
    ensures var words, beats, n := WordsNext(h, r, f), BeatsNext(h, r, f), DoneNext(h, r, f);
            && n <= |words| && n <= |beats|
            && Written(words, beats, n)
               == Written(h.words, h.beats, h.done) + (if Writes(r.w, r.txq, f, REG_TXDATA) then [DataNow(r.w, f) % 256] else [])
  {
    hide Full, Sets;
    CollectsNext(h, r, f);
    var words, beats := WordsNext(h, r, f), BeatsNext(h, r, f);
    WrittenPrefix(h.words, h.beats, words[|h.words|..], beats[|h.beats|..], h.done);
    assert h.words + words[|h.words|..] == words && h.beats + beats[|h.beats|..] == beats;
    if Commits(r.w, r.txq, f) {
      CommittedIs(h, r, f, REG_TXDATA);
    }
  }

  // ------------------------------------------------------------------
  // The divisor
  // ------------------------------------------------------------------

  ghost predicate Allowed(d: Divisor, allowed: half -> bool) { allowed(d.live) && (d.valid ==> allowed(d.pending)) }

  /** The divisor in use is one that was there at reset or that a write has set. */
  lemma AllowedNext(h: History, r: Regs, f: Fwd, allowed: half -> bool)
    requires Collects(r.w, h.words, h.beats, h.done, h.answered)
    requires AllSet(h.words, h.beats, h.done, allowed) ==> Allowed(r.div, allowed)
    ensures var words, beats, n := WordsNext(h, r, f), BeatsNext(h, r, f), DoneNext(h, r, f);
            var applies := Applies(r.div, r.tx, r.rx);
            && n <= |words| && n <= |beats|
            && (AllSet(words, beats, n, allowed) ==>
                  && AllSet(h.words, h.beats, h.done, allowed)
                  && Allowed(DivisorNext(r.div, Writes(r.w, r.txq, f, REG_BAUDDIV), DataNow(r.w, f), applies), allowed))
  {
    hide Full, AwTaken, WTaken;
    CollectsNext(h, r, f);
    var words, beats, n := WordsNext(h, r, f), BeatsNext(h, r, f), DoneNext(h, r, f);
    if AllSet(words, beats, n, allowed) {
      forall k | 0 <= k < h.done && Sets(h.words, h.beats, k, REG_BAUDDIV)
        ensures allowed(h.beats[k].data % 0x1_0000)
      {
        assert Sets(words, beats, k, REG_BAUDDIV);
      }
      if Commits(r.w, r.txq, f) {
        CommittedIs(h, r, f, REG_BAUDDIV);
      }
    }
  }

  // ------------------------------------------------------------------
  // The engine sends frames
  // ------------------------------------------------------------------

  /** The bit of a frame on the line. */
  function Place(tx: TxEngine): (k: nat)
    ensures k <= 10
  {
    match tx.state
    case TxIdle => 10
    case TxStart => 0
    case TxData => 1 + tx.bitCnt
    case TxStop => 9
  }

  /** The engine is in the midst of sending b: what it drives, and what is left in its register. */
  predicate Shifts(tx: TxEngine, b: byte, div: half) {
    && tx.state != TxIdle && tx.baud <= div && tx.txd == Level(b, Place(tx))
    && (tx.state == TxStart ==> tx.shift == b) && (tx.state == TxData ==> tx.shift == b / Pow2(tx.bitCnt))
  }

  /** The levels of the frame that are out, the one on the line included. */
  function Out(tx: TxEngine, div: half): nat { Elapsed(Place(tx), tx.baud, div + 1) + 1 }

  lemma NextLevel(tx: TxEngine, b: byte)
    requires tx.state == TxStart ==> tx.shift == b
    requires tx.state == TxData ==> tx.shift == b / Pow2(tx.bitCnt)
    ensures tx.state == TxStart ==> Level(b, 1) == (tx.shift % 2 == 1)
    ensures tx.state == TxData && tx.bitCnt < 7 ==> Level(b, tx.bitCnt + 2) == ((tx.shift / 2) % 2 == 1)
    ensures tx.state == TxData ==> tx.shift / 2 == b / Pow2(tx.bitCnt + 1)
    ensures !Level(b, 0) && Level(b, 9) && b / Pow2(0) == b
  {
    Nested(b, Pow2(tx.bitCnt), 2);
  }

  /** One cycle on: one level more, or the frame is over and the line high. */
  lemma ShiftsNext(tx: TxEngine, b: byte, head: byte, div: half)
    requires Shifts(tx, b, div)
    ensures var n := TxNext(tx, false, head, div);
            if Out(tx, div) < 10 * (div + 1) then Shifts(n, b, div) && Out(n, div) == Out(tx, div) + 1
            else Out(tx, div) == 10 * (div + 1) && n.state == TxIdle && n.txd
    ensures Out(tx, div) == 10 * (div + 1) <==> tx.state == TxStop && tx.baud == div
  {
    hide Level, Pow2, Elapsed;
    NextLevel(tx, b);
    NextPlace(Place(tx), tx.baud, div + 1);
  }

  lemma ShiftsStart(tx: TxEngine, head: byte, div: half, next: half)
    requires tx.state == TxIdle
    ensures var n := TxNext(tx, true, head, div); Shifts(n, head, next) && Out(n, next) == 1
  {
    NextLevel(tx.(state := TxStart, shift := head), head);
  }

  /** Line, shift register and monitor are in the same place of the frame for b. */
  predicate Sends(tx: TxEngine, m: Monitor, sent: seq<byte>, b: byte, div: half, w: nat) {
    if tx.state == TxIdle then tx.txd && m.mode == Armed && m.bytes == sent
    else Shifts(tx, b, div) && InFrame(m, sent, b, Out(tx, div), div + 1, w)
  }

  /** A cycle of the engine, in which only an idle one may find its divisor changed. */
  lemma SendsNext(tx: TxEngine, m: Monitor, sent: seq<byte>, b: byte, pop: bool, head: byte, div: half, next: half, w: nat)
    requires Sends(tx, m, sent, b, div, w) && (pop ==> tx.state == TxIdle) && (next != div ==> tx.state == TxIdle)
    requires Tolerates(div + 1, w) && Tolerates(next + 1, w)
    ensures var n := TxNext(tx, pop, head, div);
            Sends(n, Sample(m, n.txd, w), if tx.state == TxStop && tx.baud == div then sent + [b] else sent,
                  if pop then head else b, next, w)
  {
    hide InFrame, Level, Tolerates, Shifts, Out;
    var n := TxNext(tx, pop, head, div);
    if pop {
      ShiftsStart(tx, head, div, next);
      AtStart(m, sent, head, next + 1, w);
      LineStep(n, m, sent, head, 0, next, w);
    } else if tx.state != TxIdle {
      ShiftsNext(tx, b, head, div);
      if n.state != TxIdle {
        LineStep(n, m, sent, b, Out(tx, div), div, w);
      } else {
        FrameEnds(m, sent, b, div + 1, w);
      }
    }
    assert tx.state != TxIdle ==> (n.state == TxIdle <==> tx.state == TxStop && tx.baud == div);
  }

  lemma AtStart(m: Monitor, bytes: seq<nat>, b: byte, v: nat, w: nat)
    requires v > 0 && m.mode == Armed && m.bytes == bytes
    ensures InFrame(m, bytes, b, 0, v, w)
  {
  }

  /** The monitor samples the level that is now out. */
  lemma LineStep(tx: TxEngine, m: Monitor, bytes: seq<nat>, b: byte, n: nat, div: half, w: nat)
    requires Shifts(tx, b, div) && Out(tx, div) == n + 1 && Tolerates(div + 1, w) && InFrame(m, bytes, b, n, div + 1, w)
    ensures InFrame(Sample(m, tx.txd, w), bytes, b, n + 1, div + 1, w)
  {
    hide InFrame, Level, Tolerates;
    FrameStep(m, bytes, b, Place(tx), tx.baud, div + 1, w);
  }

  // ------------------------------------------------------------------
  // Over a run
  // ------------------------------------------------------------------

  /** The bytes that have left the write path, in order: sent, in the shift register, queued. */
  function Accepted(h: History, tx: TxEngine): seq<byte> {
    h.sent + (if tx.state == TxIdle then [] else [h.current]) + h.queue
  }

  /** The peripheral, the monitor on its line, and what has been handed over. */
  datatype Scene = Scene(r: Regs, m: Monitor, h: History)

  ghost function TolerableTo(w: nat): half -> bool { (d: half) => Tolerates(d + 1, w) }

  ghost predicate Tolerable(h: History, w: nat)
    requires h.done <= |h.words| && h.done <= |h.beats|
  {
    AllSet(h.words, h.beats, h.done, TolerableTo(w))
  }

  ghost predicate Coherent(s: Scene, w: nat) {
    && Collects(s.r.w, s.h.words, s.h.beats, s.h.done, s.h.answered)
    && Ringed(s.r) && Holds(s.r.txq, s.h.queue)
    && Written(s.h.words, s.h.beats, s.h.done) == Accepted(s.h, s.r.tx)
    && (Tolerable(s.h, w) ==> Allowed(s.r.div, TolerableTo(w)) && Sends(s.r.tx, s.m, s.h.sent, s.h.current, s.r.div.live, w))
  }

  /** One clock cycle; the monitor samples behind the edge. */
  function Tick(s: Scene, i: Input, w: nat): (t: Scene)
    requires Ringed(s.r)
    ensures Ringed(t.r)
  {
    var n := Next(s.r, i);
    Scene(n, Sample(s.m, n.tx.txd, w), HistoryNext(s.h, s.r, i.f))
  }

  lemma AcceptedNext(h: History, r: Regs, f: Fwd)
    requires Holds(r.txq, h.queue)
    ensures Sized(r.txq) && Accepted(HistoryNext(h, r, f), TxNext(r.tx, TxPop(r.txq, r.tx), Head(r.txq), r.div.live))
            == Accepted(h, r.tx) + (if Writes(r.w, r.txq, f, REG_TXDATA) then [DataNow(r.w, f) % 256] else [])
  {
    hide Writes, Empty, Holds, Head, DataNow, WordsNext, BeatsNext, Commits;
    QueueEnds(r.txq, h.queue);
    if TxPop(r.txq, r.tx) {
      assert [h.queue[0]] + h.queue[1..] == h.queue;
    }
  }

  lemma HoldsTx(h: History, r: Regs, f: Fwd)
    requires Holds(r.txq, h.queue)
    ensures Sized(r.txq)
    ensures Holds(FifoNext(r.txq, Writes(r.w, r.txq, f, REG_TXDATA), DataNow(r.w, f) % 256, TxPop(r.txq, r.tx)),
                  HistoryNext(h, r, f).queue)
    ensures h.queue != [] ==> Head(r.txq) == h.queue[0]
    ensures TxPop(r.txq, r.tx) ==> h.queue != [] && r.tx.state == TxIdle
  {
    hide Holds, Full, FifoNext, AwTaken, WTaken, Head;
    QueueEnds(r.txq, h.queue);
    HoldsNext(r.txq, h.queue, Writes(r.w, r.txq, f, REG_TXDATA), DataNow(r.w, f) % 256, TxPop(r.txq, r.tx));
  }

  lemma CoherentNext(s: Scene, i: Input, w: nat)
    requires Coherent(s, w)
    ensures Coherent(Tick(s, i, w), w)
  {
    hide Collects, Holds, Sends, Written, Accepted, Sample, TxNext, RxNext, FifoNext, WriteNext, QueueNext, WordsNext,
      BeatsNext, DataNow, Head, Selected, AllSet, DoneNext, TxPop, Writes, TolerableTo, ReadNext, ControlNext;
    var h, r, f := s.h, s.r, i.f;
    CollectsNext(h, r, f);
    WrittenNext(h, r, f);
    AcceptedNext(h, r, f);
    HoldsTx(h, r, f);
    AllowedNext(h, r, f, TolerableTo(w));
    var n := Tick(s, i, w);
    if Tolerable(n.h, w) {
      assert Tolerates(r.div.live + 1, w) && Tolerates(n.r.div.live + 1, w) by {
        TolerableIs(r.div.live, w);
        TolerableIs(n.r.div.live, w);
      }
      SendsNext(r.tx, s.m, h.sent, h.current, TxPop(r.txq, r.tx), Head(r.txq), r.div.live, n.r.div.live, w);
    }
  }

  lemma TolerableIs(d: half, w: nat)
    ensures TolerableTo(w)(d) <==> Tolerates(d + 1, w)
  {
  }

  function Run(s: Scene, ins: seq<Input>, w: nat): Scene
    requires Ringed(s.r)
    decreases |ins|
  {
    if ins == [] then s else Run(Tick(s, ins[0], w), ins[1..], w)
  }

  lemma {:induction false} AlwaysCoherent(s: Scene, ins: seq<Input>, w: nat)
    requires Coherent(s, w)
    ensures Coherent(Run(s, ins, w), w)
    decreases |ins|
  {
    hide Collects, Sends, Written, Accepted, Tick, Tolerable, Holds, Allowed;
    if ins == [] {
    } else {
      CoherentNext(s, ins[0], w);
      AlwaysCoherent(Tick(s, ins[0], w), ins[1..], w);
    }
  }

  /** How many writes have been carried out, seen at the port. */
  function Carried(s: Scene): nat { s.h.answered + Flag(s.r.w.bvalid) }

  ghost predicate Starts(r: Regs, m: Monitor, div: half) { Reset(r, div) && m.mode == Armed && m.bytes == [] }

  lemma StartCoherent(r: Regs, m: Monitor, div: half, w: nat)
    requires Starts(r, m, div) && Tolerates(div + 1, w)
    ensures Coherent(Scene(r, m, NOTHING), w)
  {
  }

  /** Whatever the master drives and the receive pin does: if the monitor tolerates the divisor of
      the reset and every one that a write has set, the bytes decoded off the line are the bytes of
      the writes carried out so far, in order, without those still on their way; at most 17 are, and
      none once the engine is idle and the ring buffer empty. */
  lemma LineIsWritten(r: Regs, m: Monitor, div: half, ins: seq<Input>, w: nat)
    requires Starts(r, m, div) && Tolerates(div + 1, w)
    ensures var s := Run(Scene(r, m, NOTHING), ins, w);
            var n := Carried(s);
            && n <= |s.h.words| && n <= |s.h.beats|
            && (AllSet(s.h.words, s.h.beats, n, TolerableTo(w)) ==>
                  var bytes := Written(s.h.words, s.h.beats, n);
                  && s.m.bytes <= bytes && |bytes| <= |s.m.bytes| + FIFO_DEPTH + 1
                  && (s.r.tx.state == TxIdle && Empty(s.r.txq) ==> s.m.bytes == bytes))
  {
    hide Written, Sample, Run, Sends, AllSet, Starts, Allowed, Holds;
    StartCoherent(r, m, div, w);
    AlwaysCoherent(Scene(r, m, NOTHING), ins, w);
    var s := Run(Scene(r, m, NOTHING), ins, w);
    QueueEnds(s.r.txq, s.h.queue);
    if Tolerable(s.h, w) {
      DecodedSoFar(s.r.tx, s.m, s.h.sent, s.h.current, s.r.div.live, w);
    }
  }

  lemma DecodedSoFar(tx: TxEngine, m: Monitor, sent: seq<byte>, b: byte, div: half, w: nat)
    requires Sends(tx, m, sent, b, div, w)
    ensures m.bytes == sent || (tx.state != TxIdle && m.bytes == sent + [b])
  {
    hide Level, Pow2, Heard;
  }

  // ------------------------------------------------------------------
  // A divisor the monitor does not tolerate
  // ------------------------------------------------------------------

  const SILENT := Input(QUIET, true)

  function WriteOf(addr: word, data: word): Input {
    Input(QUIET.(awaddr := addr, awvalid := true, wdata := data, wstrb := 15, wvalid := true), true)
  }

  /** Nothing is on its way, and nothing has been decoded. */
  ghost predicate Waits(s: Scene, div: half) {
    && Ringed(s.r) && Holds(s.r.txq, []) && !s.r.w.awSeen && !s.r.w.wSeen && !s.r.w.bvalid
    && s.r.div.live == div && !s.r.div.valid && s.r.rx.state == RxIdle
    && s.r.tx.state == TxIdle && s.r.tx.txd && s.m.mode == Armed && s.m.bytes == []
  }

  /** n cycles ago the engine was about to take b out of the ring buffer. */
  ghost predicate Ships(s: Scene, b: byte, n: nat, div: half, w: nat) {
    && Ringed(s.r) && !s.r.w.awSeen && !s.r.w.wSeen && s.r.div.live == div && !s.r.div.valid
    && Holds(s.r.txq, if n == 0 then [b] else []) && Follows(s.m, [], b, n, div + 1, w)
    && if 0 < n <= 10 * (div + 1) then Shifts(s.r.tx, b, div) && Out(s.r.tx, div) == n
       else s.r.tx.state == TxIdle && s.r.tx.txd
  }

  lemma QuietNext(r: Regs)
    requires Ringed(r) && !r.w.awSeen && !r.w.wSeen && !r.div.valid
    ensures var n := Next(r, SILENT);
            && !n.w.awSeen && !n.w.wSeen && n.div == r.div && !n.w.bvalid
            && n.txq == FifoNext(r.txq, false, DataNow(r.w, QUIET) % 256, TxPop(r.txq, r.tx))
    ensures forall reg :: !Writes(r.w, r.txq, QUIET, reg)
  {
    hide FifoNext, TxNext, RxNext, Full, Selected;
  }

  /** In a silent cycle the lists and the count of writes stay. */
  lemma QuietHistory(s: Scene, w: nat)
    requires Ringed(s.r) && !s.r.w.awSeen && !s.r.w.wSeen && !s.r.div.valid
    ensures var n := Tick(s, SILENT, w);
            n.h.words == s.h.words && n.h.beats == s.h.beats && n.h.done == s.h.done && Carried(n) == Carried(s)
  {
    hide FifoNext, TxNext, RxNext, Full, Selected, Sample;
    assert s.h.words + [] == s.h.words && s.h.beats + [] == s.h.beats;
  }

  lemma ShipsNext(s: Scene, b: byte, n: nat, div: half, w: nat)
    requires Ships(s, b, n, div, w) && w > 0
    ensures Ships(Tick(s, SILENT, w), b, n + 1, div, w)
  {
    hide Holds, FifoNext, Follows, Sample, Level, Shifts, Out, Head, Empty, Next;
    var r, v, queue := s.r, div + 1, if n == 0 then [b] else [];
    var t, pop := Tick(s, SILENT, w).r, TxPop(r.txq, r.tx);
    QuietNext(r);
    QueueEnds(r.txq, queue);
    HoldsNext(r.txq, queue, false, DataNow(r.w, QUIET) % 256, pop);
    if 0 < n <= 10 * v {
      ShiftsBusy(r.tx, b, div);
    }
    assert QueueNext(queue, false, DataNow(r.w, QUIET) % 256, pop) == [];
    QuietTx(r);
    FollowsStep(s.m, [], b, n, v, w);
    if n == 0 {
      ShiftsStart(r.tx, b, div, div);
      FirstPlace(t.tx, div);
      LevelOut(t.tx, b, n, div);
    } else if n <= 10 * v {
      ShiftsNext(r.tx, b, Head(r.txq), div);
      if n < 10 * v {
        LevelOut(t.tx, b, n, div);
      } else {
        DivReaches(n, v, 10);
        HighBehind(b, BitAt(n, v));
      }
    } else {
      DivReaches(n, v, 10);
      HighBehind(b, BitAt(n, v));
    }
  }

  lemma QuietTx(r: Regs)
    requires Ringed(r)
    ensures Next(r, SILENT).tx == TxNext(r.tx, TxPop(r.txq, r.tx), Head(r.txq), r.div.live)
    ensures r.tx.state == TxIdle && r.tx.txd && !TxPop(r.txq, r.tx) ==> Next(r, SILENT).tx.state == TxIdle && Next(r, SILENT).tx.txd
  {
    hide FifoNext, RxNext, Full, Selected;
  }

  lemma ShiftsBusy(tx: TxEngine, b: byte, div: half)
    requires Shifts(tx, b, div)
    ensures tx.state != TxIdle
  {
  }

  lemma FirstPlace(tx: TxEngine, div: half)
    requires Out(tx, div) == 1
    ensures 1 <= 10 * (div + 1)
  {
  }

  /** The level on the line is that of the place it is in. */
  lemma LevelOut(tx: TxEngine, b: byte, n: nat, div: half)
    requires Shifts(tx, b, div) && Out(tx, div) == n + 1
    ensures tx.txd == Level(b, BitAt(n, div + 1))
  {
    hide Level;
    PlaceIs(Place(tx), tx.baud, div + 1);
  }

  function Quiet(n: nat): seq<Input> { if n == 0 then [] else [SILENT] + Quiet(n - 1) }

  lemma {:induction false} ShipsRun(s: Scene, b: byte, n: nat, more: nat, div: half, w: nat)
    requires Ships(s, b, n, div, w) && w > 0
    ensures var t := Run(s, Quiet(more), w);
            && Ships(t, b, n + more, div, w)
            && t.h.words == s.h.words && t.h.beats == s.h.beats && t.h.done == s.h.done && Carried(t) == Carried(s)
    decreases more
  {
    hide Ships, Tick, Carried;
    if more > 0 {
      assert Quiet(more)[0] == SILENT && Quiet(more)[1..] == Quiet(more - 1);
      ShipsNext(s, b, n, div, w);
      ShipsRinged(s, b, n, div, w);
      QuietHistory(s, w);
      ShipsRun(Tick(s, SILENT, w), b, n + 1, more - 1, div, w);
    }
  }

  lemma ShipsRinged(s: Scene, b: byte, n: nat, div: half, w: nat)
    requires Ships(s, b, n, div, w)
    ensures Ringed(s.r) && !s.r.w.awSeen && !s.r.w.wSeen && !s.r.div.valid
  {
  }

  /** A byte is written to the waiting peripheral. */
  lemma WaitsWrite(s: Scene, b: byte, div: half, w: nat)
    requires Waits(s, div) && Collects(s.r.w, s.h.words, s.h.beats, s.h.done, s.h.answered)
    ensures var t := Tick(s, WriteOf(0, b), w);
            && Ships(t, b, 0, div, w) && Carried(t) == Carried(s) + 1 && t.h.done == s.h.done + 1
            && t.h.words == s.h.words + [REG_TXDATA] && t.h.beats == s.h.beats + [Beat(b, 15)]
  {
    hide Holds, Full, FifoNext, RxNext, Selected, Empty, Head;
    QueueEnds(s.r.txq, []);
    HoldsNext(s.r.txq, [], true, b, false);
    assert QueueNext([], true, b, false) == [b];
  }

  /** A divisor is written to it, and taken in the cycle behind. */
  lemma WaitsDivisor(s: Scene, data: word, div: half, w: nat)
    requires Waits(s, div) && Collects(s.r.w, s.h.words, s.h.beats, s.h.done, s.h.answered)
    ensures var t := Tick(Tick(s, WriteOf(16, data), w), SILENT, w);
            && Waits(t, data % 0x1_0000) && Collects(t.r.w, t.h.words, t.h.beats, t.h.done, t.h.answered)
            && Carried(t) == Carried(s) + 1 && t.h.done == s.h.done + 1
            && t.h.words == s.h.words + [REG_BAUDDIV] && t.h.beats == s.h.beats + [Beat(data, 15)]
  {
    hide Holds, Full, FifoNext, Selected, Empty, Head, Collects;
    var u := Tick(s, WriteOf(16, data), w);
    QueueEnds(s.r.txq, []);
    HoldsNext(s.r.txq, [], false, DataNow(s.r.w, WriteOf(16, data).f) % 256, false);
    assert forall b :: QueueNext([], false, b, false) == [];
    CollectsNext(s.h, s.r, WriteOf(16, data).f);
    QueueEnds(u.r.txq, []);
    HoldsNext(u.r.txq, [], false, DataNow(u.r.w, QUIET) % 256, false);
    CollectsNext(u.h, u.r, QUIET);
    assert u.h.words + [] == u.h.words && u.h.beats + [] == u.h.beats;
  }

  lemma StartWaits(r: Regs, m: Monitor, div: half)
    requires Starts(r, m, div)
    ensures var s := Scene(r, m, NOTHING);
            Waits(s, div) && Collects(s.r.w, s.h.words, s.h.beats, s.h.done, s.h.answered) && Carried(s) == 0
  {
  }

  ghost function Only(div: half): half -> bool { (d: half) => d == div }

  /** In this run, if writes set no divisor but the one of the reset, the text is decoded by the time
      the engine is idle and the ring buffer empty. */
  ghost predicate Faithful(r: Regs, m: Monitor, ins: seq<Input>, w: nat)
    requires Ringed(r)
  {
    var s := Run(Scene(r, m, NOTHING), ins, w);
    var n := Carried(s);
    && n <= |s.h.words| && n <= |s.h.beats|
    && (AllSet(s.h.words, s.h.beats, n, Only(r.div.live)) && s.r.tx.state == TxIdle && Empty(s.r.txq) ==>
          s.m.bytes == Written(s.h.words, s.h.beats, n))
  }

  /** The exact condition: a monitor of width w decodes what is written in every run if and only if
      it tolerates the divisor's bit width. */
  lemma LineDecodesExactly(r: Regs, m: Monitor, div: half, w: nat)
    requires Starts(r, m, div) && w > 0
    ensures Ringed(r) && ((forall ins: seq<Input> :: Faithful(r, m, ins, w)) <==> Tolerates(div + 1, w))
  {
    hide Run, Written, Sample, AllSet, Waits, Ships;
    if Tolerates(div + 1, w) {
      forall ins: seq<Input>
        ensures Faithful(r, m, ins, w)
      {
        LineIsWritten(r, m, div, ins, w);
        OnlyTolerable(Run(Scene(r, m, NOTHING), ins, w), div, w);
      }
    } else {
      WitnessUnfaithful(r, m, div, w);
    }
  }

  lemma OnlyTolerable(s: Scene, div: half, w: nat)
    requires Tolerates(div + 1, w) && Carried(s) <= |s.h.words| && Carried(s) <= |s.h.beats|
    ensures AllSet(s.h.words, s.h.beats, Carried(s), Only(div)) ==> AllSet(s.h.words, s.h.beats, Carried(s), TolerableTo(w))
  {
  }

  /** One byte written, and silence until its frame is over. */
  function OneByte(b: byte, silence: nat): seq<Input> { [WriteOf(0, b)] + Quiet(silence) }

  lemma OneByteRun(s: Scene, b: byte, silence: nat, div: half, w: nat)
    requires Waits(s, div) && Collects(s.r.w, s.h.words, s.h.beats, s.h.done, s.h.answered) && w > 0
    ensures var t := Run(s, OneByte(b, silence), w);
            && Ships(t, b, silence, div, w) && Carried(t) == Carried(s) + 1 && t.h.done == s.h.done + 1
            && t.h.words == s.h.words + [REG_TXDATA] && t.h.beats == s.h.beats + [Beat(b, 15)]
  {
    hide Waits, Ships, Collects, Tick, Carried;
    WaitsRinged(s, div);
    WaitsWrite(s, b, div, w);
    assert OneByte(b, silence)[0] == WriteOf(0, b) && OneByte(b, silence)[1..] == Quiet(silence);
    ShipsRun(Tick(s, WriteOf(0, b), w), b, 0, silence, div, w);
  }

  lemma WaitsRinged(s: Scene, div: half)
    requires Waits(s, div)
    ensures Ringed(s.r)
  {
  }

  lemma WitnessUnfaithful(r: Regs, m: Monitor, div: half, w: nat)
    requires Starts(r, m, div) && w > 0 && !Tolerates(div + 1, w)
    ensures Ringed(r) && !Faithful(r, m, OneByte(Witness(div + 1, w), 10 * (div + 1) + 1), w)
  {
    hide Run, Waits, Ships, Collects, Carried, Starts;
    var s, b, v := Scene(r, m, NOTHING), Witness(div + 1, w), div + 1;
    StartWaits(r, m, div);
    WaitsRinged(s, div);
    StartLive(r, m, div);
    OneByteRun(s, b, 10 * v + 1, div, w);
    var t := Run(s, OneByte(b, 10 * v + 1), w);
    Shipped(t, b, div, w);
    OneWritten(b);
    OneSets(b, Only(div));
    assert [] + [REG_TXDATA] == [REG_TXDATA] && [] + [Beat(b, 15)] == [Beat(b, 15)];
  }

  lemma StartLive(r: Regs, m: Monitor, div: half)
    requires Starts(r, m, div)
    ensures r.div.live == div
  {
  }

  /** The frame is over, and the witness has been misheard. */
  lemma Shipped(t: Scene, b: byte, div: half, w: nat)
    requires Ships(t, b, 10 * (div + 1) + 1, div, w) && w > 0 && !Tolerates(div + 1, w) && b == Witness(div + 1, w)
    ensures t.r.tx.state == TxIdle && Empty(t.r.txq) && t.m.bytes != [b]
  {
    hide Heard, Tolerates, Holds, Due, Empty;
    QueueEnds(t.r.txq, []);
    Misheard(div + 1, w);
    OtherByte([], Heard(b, 8, div + 1, w), b, t.m.bytes);
    assert [] + [b] == [b];
  }

  lemma OneWritten(b: byte)
    ensures Written([REG_TXDATA], [Beat(b, 15)], 1) == [b]
  {
    assert Written([REG_TXDATA], [Beat(b, 15)], 0) == [];
  }

  lemma OneSets(b: byte, allowed: half -> bool)
    ensures AllSet([REG_TXDATA], [Beat(b, 15)], 1, allowed)
  {
  }

  /** Divisor 4 and a monitor of width 5, as the harness has them: software sets divisor 0 and sends
      0x41, and the monitor decodes 0xff. */
  lemma DivisorMisheard(r: Regs, m: Monitor)
    requires Starts(r, m, 4)
    ensures Ringed(r)
    ensures var s := Run(Scene(r, m, NOTHING), [WriteOf(16, 0), SILENT] + OneByte(0x41, 43), 5);
            && Carried(s) == 2 && s.h.words == [REG_BAUDDIV, REG_TXDATA] && s.h.beats == [Beat(0, 15), Beat(0x41, 15)]
            && Written(s.h.words, s.h.beats, 2) == [0x41] && [0xff] <= s.m.bytes
  {
    hide Waits, Ships, Collects, Carried, Starts, Tick, Quiet;
    var s := Scene(r, m, NOTHING);
    StartWaits(r, m, 4);
    WaitsRinged(s, 4);
    WaitsDivisor(s, 0, 4, 5);
    var u := Tick(s, WriteOf(16, 0), 5);
    var t := Tick(u, SILENT, 5);
    OneByteRun(t, 0x41, 43, 0, 5);
    TwoThen(s, WriteOf(16, 0), SILENT, OneByte(0x41, 43), 5);
    SlowEar(Run(t, OneByte(0x41, 43), 5));
    assert [] + [REG_BAUDDIV] + [REG_TXDATA] == [REG_BAUDDIV, REG_TXDATA];
    assert [] + [Beat(0, 15)] + [Beat(0x41, 15)] == [Beat(0, 15), Beat(0x41, 15)];
    TwoWritten();
  }

  lemma TwoThen(s: Scene, i: Input, j: Input, ins: seq<Input>, w: nat)
    requires Ringed(s.r)
    ensures Run(s, [i, j] + ins, w) == Run(Tick(Tick(s, i, w), j, w), ins, w)
  {
    hide Tick;
    assert ([i, j] + ins)[1..] == [j] + ins && ([j] + ins)[1..] == ins;
    assert Run(s, [i, j] + ins, w) == Run(Tick(s, i, w), [j] + ins, w);
  }

  lemma TwoWritten()
    ensures Written([REG_BAUDDIV, REG_TXDATA], [Beat(0, 15), Beat(0x41, 15)], 2) == [0x41]
  {
    var words: seq<register>, beats := [REG_BAUDDIV, REG_TXDATA], [Beat(0, 15), Beat(0x41, 15)];
    assert Written(words, beats, 0) == [];
    assert Written(words, beats, 1) == [];
  }

  lemma SlowEar(t: Scene)
    requires Ships(t, 0x41, 43, 0, 5)
    ensures [0xff] <= t.m.bytes
  {
    hide Holds, Empty;
    SpanIs(1, 5);
    SpanIs(2, 5);
    SpanIs(3, 5);
    SpanIs(4, 5);
    SpanIs(5, 5);
    SpanIs(6, 5);
    SpanIs(7, 5);
    SpanIs(8, 5);
    BitSix();
    HighBehind(0x41, 12);
    HighBehind(0x41, 17);
    HighBehind(0x41, 22);
    HighBehind(0x41, 27);
    HighBehind(0x41, 32);
    HighBehind(0x41, 37);
    HighBehind(0x41, 42);
    hide Level, Span;
    assert Pow2(1) == 2 && Pow2(2) == 4 && Pow2(3) == 8 && Pow2(4) == 16 && Pow2(5) == 32 && Pow2(6) == 64 && Pow2(7) == 128;
    assert Heard(0x41, 1, 1, 5) == 1;
    assert Heard(0x41, 2, 1, 5) == 3;
    assert Heard(0x41, 3, 1, 5) == 7;
    assert Heard(0x41, 4, 1, 5) == 15;
    assert Heard(0x41, 5, 1, 5) == 31;
    assert Heard(0x41, 6, 1, 5) == 63;
    assert Heard(0x41, 7, 1, 5) == 127;
    assert Heard(0x41, 8, 1, 5) == 255;
    assert [] + [255] == [0xff];
  }

  lemma BitSix()
    ensures Level(0x41, 7)
  {
    assert Pow2(1) == 2 && Pow2(2) == 4 && Pow2(3) == 8 && Pow2(4) == 16 && Pow2(5) == 32 && Pow2(6) == 64;
  }

  /** A divisor written in the very cycle in which an earlier one is applied is never applied, though
      the write is answered: here the receiver has just come back from a glitch. */
  lemma DivisorLost(r: Regs, first: word, second: word)
    requires Reset(r, 0)
    ensures var ins := [WriteOf(16, first).(rxd := false), SILENT, WriteOf(16, second)];
            var n := Next(Next(Next(r, ins[0]), ins[1]), ins[2]);
            && Commits(Next(Next(r, ins[0]), ins[1]).w, Next(Next(r, ins[0]), ins[1]).txq, ins[2].f)
            && n.w.bvalid && n.div == Divisor(first % 0x1_0000, second % 0x1_0000, false)
  {
    hide Head, Selected, ReadNext, ControlNext;
  }

  // ------------------------------------------------------------------
  // A full ring buffer gets room
  // ------------------------------------------------------------------

  /** Cycles until the engine is idle. */
  function Left(tx: TxEngine, div: half): int {
    if tx.state == TxIdle then 0 else 10 * (div + 1) + 1 - Out(tx, div)
  }

  predicate InTime(tx: TxEngine, div: half) { tx.state != TxIdle ==> tx.baud <= div }

  lemma LeftNext(tx: TxEngine, head: byte, div: half)
    requires tx.state != TxIdle && InTime(tx, div)
    ensures var n := TxNext(tx, false, head, div); Left(n, div) == Left(tx, div) - 1 && InTime(n, div)
    ensures Left(tx, div) > 0
  {
    hide Elapsed;
    NextPlace(Place(tx), tx.baud, div + 1);
  }

  function Clocked(r: Regs, ins: seq<Input>): (n: Regs)
    requires Ringed(r)
    decreases |ins|
  {
    if ins == [] then r else Clocked(Next(r, ins[0]), ins[1..])
  }

  /** A full ring buffer holds back a write for one frame at most: within ten bit widths and a
      cycle there is a moment with room, whatever the master drives. */
  lemma RoomWithin(r: Regs, queue: seq<byte>, ins: seq<Input>) returns (j: nat)
    requires Ringed(r) && Holds(r.txq, queue) && InTime(r.tx, r.div.live)
    requires |ins| > 10 * (r.div.live + 1)
    ensures j <= 10 * (r.div.live + 1) + 1 && j <= |ins| && !Full(Clocked(r, ins[..j]).txq)
  {
    hide Full, Holds;
    LeftBound(r.tx, r.div.live);
    j := RoomAfter(r, queue, ins);
  }

  lemma LeftBound(tx: TxEngine, div: half)
    requires InTime(tx, div)
    ensures 0 <= Left(tx, div) <= 10 * (div + 1)
  {
    SpanIs(Place(tx), div + 1);
  }

  lemma {:induction false} RoomAfter(r: Regs, queue: seq<byte>, ins: seq<Input>) returns (j: nat)
    requires Ringed(r) && Holds(r.txq, queue) && InTime(r.tx, r.div.live)
    requires |ins| > Left(r.tx, r.div.live) >= 0
    ensures j <= Left(r.tx, r.div.live) + 1 && j <= |ins| && !Full(Clocked(r, ins[..j]).txq)
    decreases |ins|
  {
    hide Full, Holds, WriteNext, Left, AwTaken, WTaken, Empty, RxNext, FifoNext, Selected, ReadNext, ControlNext, Head;
    QueueEnds(r.txq, queue);
    if !Full(r.txq) {
      return 0;
    }
    var i := ins[0];
    var n, b, pop := Next(r, i), DataNow(r.w, i.f) % 256, TxPop(r.txq, r.tx);
    assert !Writes(r.w, r.txq, i.f, REG_TXDATA);
    HoldsNext(r.txq, queue, false, b, pop);
    var more := QueueNext(queue, false, b, pop);
    if r.tx.state == TxIdle {
      QueueEnds(n.txq, more);
      j := 1;
      assert Clocked(r, ins[..1]) == n;
      LeftBound(r.tx, r.div.live);
    } else {
      LeftNext(r.tx, Head(r.txq), r.div.live);
      var k := RoomAfter(n, more, ins[1..]);
      j := k + 1;
      assert ins[..j][0] == i && ins[..j][1..] == ins[1..][..k];
    }
  }
}
