/** The UART's registers as software sees them: where they are, what their bits say about the two
    queues, what reads back, and how an overrun is acknowledged.
 */
module UartRegisters {
  import opened AxiLite
  import opened AxiUart
  import opened UartFifo
  import opened Words

  // ------------------------------------------------------------------
  // Addresses and handshakes
  // ------------------------------------------------------------------

  /** The byte offsets of the registers; the two lowest address bits and those above bit 4 do not
      count. */
  lemma RegisterMap(addr: word)
    ensures WordOf(addr) == REG_TXDATA <==> addr % 0x20 / 4 * 4 == 0x00
    ensures WordOf(addr) == REG_RXDATA <==> addr % 0x20 / 4 * 4 == 0x04
    ensures WordOf(addr) == REG_STATUS <==> addr % 0x20 / 4 * 4 == 0x08
    ensures WordOf(addr) == REG_CTRL <==> addr % 0x20 / 4 * 4 == 0x0c
    ensures WordOf(addr) == REG_BAUDDIV <==> addr % 0x20 / 4 * 4 == 0x10
  {
    assert addr % 0x20 / 4 == (addr / 4) % 8;
  }

  /** What the peripheral takes is what valid and ready on its pins say; an address is refused while
      one is held or answered, or if it is TXDATA's and the transmit queue has no room. */
  lemma HandshakesAre(r: Regs, f: Fwd, queue: seq<byte>)
    requires Holds(r.txq, queue)
    ensures AwTaken(r.w, r.txq, f) <==> f.awvalid && Drives(r, f).awready
    ensures WTaken(r.w, f) <==> f.wvalid && Drives(r, f).wready
    ensures ArTaken(r.rd, f) <==> f.arvalid && Drives(r, f).arready
    ensures Drives(r, f).awready
            <==> !r.w.awSeen && !r.w.bvalid && !(f.awaddr % 0x20 / 4 == 0 && |queue| == 16)
    ensures Drives(r, f).bvalid == r.w.bvalid && Drives(r, f).bresp == 0 && Drives(r, f).rresp == 0
    ensures Drives(r, f).rvalid == r.rd.rvalid && Drives(r, f).rdata == r.rd.rdata
  {
    hide Holds, Full;
    QueueEnds(r.txq, queue);
    RegisterMap(f.awaddr);
  }

  // ------------------------------------------------------------------
  // What reads return
  // ------------------------------------------------------------------

  /** STATUS: bit 0, the transmit queue has room; bit 1, a received byte waits; bit 2, the overrun
      flag. No other bit is set. */
  lemma StatusReads(r: Regs, addr: word, sending: seq<byte>, received: seq<byte>)
    requires addr % 0x20 / 4 * 4 == 0x08 && Holds(r.txq, sending) && Holds(r.rxq, received)
    ensures Ringed(r)
    ensures var s := Selected(r, WordOf(addr));
            && (s % 2 == 1 <==> |sending| < 16) && ((s / 2) % 2 == 1 <==> received != [])
            && ((s / 4) % 2 == 1 <==> r.overrun) && s < 8
  {
    hide Holds, Full, Empty, WordOf, Head;
    QueueEnds(r.txq, sending);
    QueueEnds(r.rxq, received);
    RegisterMap(addr);
  }

  /** RXDATA: the oldest byte received; TXDATA and the rest of the map read 0. */
  lemma DataReads(r: Regs, addr: word, received: seq<byte>)
    requires Ringed(r) && Holds(r.rxq, received)
    ensures addr % 0x20 / 4 * 4 == 0x04 && received != [] ==> Selected(r, WordOf(addr)) == received[0]
    ensures addr % 0x20 / 4 * 4 == 0x00 || addr % 0x20 >= 0x14 ==> Selected(r, WordOf(addr)) == 0
  {
    hide Holds, Full, Empty, WordOf, Head;
    QueueEnds(r.rxq, received);
    RegisterMap(addr);
  }

  /** CTRL: the two enables that the last write with byte 0 strobed has set. */
  lemma ControlReads(r: Regs, data: word, addr: word)
    requires Ringed(r) && addr % 0x20 / 4 * 4 == 0x0c
    ensures Selected(r.(ctl := ControlNext(r.ctl, true, data)), WordOf(addr)) == data % 4
  {
    hide Full, Empty, WordOf, Head;
    RegisterMap(addr);
  }

  /** A write that is carried out in this cycle does this to the control bits and to the divisor that
      waits. */
  lemma WriteReaches(r: Regs, i: Input)
    requires Ringed(r)
    ensures Next(r, i).ctl == if Writes(r.w, r.txq, i.f, REG_CTRL) then ControlNext(r.ctl, true, DataNow(r.w, i.f)) else r.ctl
    ensures Writes(r.w, r.txq, i.f, REG_BAUDDIV) && !Applies(r.div, r.tx, r.rx) ==>
              Next(r, i).div == Divisor(r.div.live, DataNow(r.w, i.f) % 0x1_0000, true)
  {
    hide Full, Selected, TxNext, RxNext, FifoNext;
  }

  /** BAUDDIV: the lower half of what was written to it, from the cycle after the first in which both
      engines are idle on. */
  lemma DivisorReads(r: Regs, i: Input, j: Input, addr: word)
    requires Ringed(r) && addr % 0x20 / 4 * 4 == 0x10
    requires Writes(r.w, r.txq, i.f, REG_BAUDDIV) && !Applies(r.div, r.tx, r.rx)
    ensures var waiting := Next(r, i);
            Selected(Next(waiting, j), WordOf(addr))
            == if waiting.tx.state == TxIdle && waiting.rx.state == RxIdle then DataNow(r.w, i.f) % 0x1_0000 else r.div.live
  {
    hide Full, Empty, WordOf, Head, TxNext, RxNext, FifoNext, DataNow, Writes;
    RegisterMap(addr);
    WriteReaches(r, i);
  }

  // ------------------------------------------------------------------
  // Overrun
  // ------------------------------------------------------------------

  function Run(r: Regs, ins: seq<Input>): (n: Regs)
    requires Ringed(r)
    ensures Ringed(n)
    decreases |ins|
  {
    if ins == [] then r else Next(Run(r, ins[..|ins| - 1]), ins[|ins| - 1])
  }

  /** RXDATA is read: its address is taken. */
  predicate Reads(r: Regs, i: Input) { i.f.arvalid && Drives(r, i.f).arready && i.f.araddr % 0x20 / 4 * 4 == 0x04 }

  /** A frame ends with the receive queue full and no read to make room. */
  predicate Drops(r: Regs, i: Input)
    requires Ringed(r)
  {
    r.rx.state == RxStop && r.rx.cnt == r.div.live && Full(r.rxq) && !Reads(r, i)
  }

  lemma OverrunStep(r: Regs, i: Input)
    requires Ringed(r)
    ensures Next(r, i).overrun <==> Drops(r, i) || (r.overrun && !Reads(r, i))
  {
    hide Selected, TxNext, RxNext, FifoNext, WordOf;
    RegisterMap(i.f.araddr);
  }

  /** In cycle c a frame is dropped, and RXDATA is not read in any later one. */
  ghost predicate DroppedSince(r: Regs, ins: seq<Input>, c: nat)
    requires Ringed(r)
  {
    c < |ins| && Drops(Run(r, ins[..c]), ins[c]) && forall d :: c < d < |ins| ==> !Reads(Run(r, ins[..d]), ins[d])
  }

  lemma SinceStep(r: Regs, ins: seq<Input>, c: nat)
    requires Ringed(r) && ins != []
    ensures var before := ins[..|ins| - 1];
            DroppedSince(r, ins, c)
            <==> if c == |ins| - 1 then Drops(Run(r, before), ins[c])
                 else DroppedSince(r, before, c) && !Reads(Run(r, before), ins[|ins| - 1])
  {
    hide Run, Drops, Reads;
    var before := ins[..|ins| - 1];
    forall d | 0 <= d < |ins| ensures ins[..d] == if d < |ins| - 1 then before[..d] else before {
    }
    if c < |ins| - 1 && DroppedSince(r, ins, c) {
      assert !Reads(Run(r, ins[..|ins| - 1]), ins[|ins| - 1]);
      forall d | c < d < |before| ensures !Reads(Run(r, before[..d]), before[d]) {
        assert !Reads(Run(r, ins[..d]), ins[d]);
      }
    }
    if c < |ins| - 1 && DroppedSince(r, before, c) && !Reads(Run(r, before), ins[|ins| - 1]) {
      forall d | c < d < |ins| ensures !Reads(Run(r, ins[..d]), ins[d]) {
        assert d < |before| ==> !Reads(Run(r, before[..d]), before[d]);
      }
    }
  }

  ghost predicate Dropped(r: Regs, ins: seq<Input>)
    requires Ringed(r)
  {
    exists c :: DroppedSince(r, ins, c)
  }

  /** One cycle more: a frame is dropped in it, or one was before and it does not read. */
  lemma DroppedStep(r: Regs, ins: seq<Input>)
    requires Ringed(r) && ins != []
    ensures var before := ins[..|ins| - 1];
            Dropped(r, ins) <==> Drops(Run(r, before), ins[|ins| - 1])
                                 || (Dropped(r, before) && !Reads(Run(r, before), ins[|ins| - 1]))
  {
    hide Run, Drops, Reads, DroppedSince;
    var before, last := ins[..|ins| - 1], |ins| - 1;
    SinceStep(r, ins, last);
    if Dropped(r, ins) {
      var c :| DroppedSince(r, ins, c);
      SinceStep(r, ins, c);
    }
    if Dropped(r, before) && !Reads(Run(r, before), ins[last]) {
      var c :| DroppedSince(r, before, c);
      NotLater(r, before, c);
      SinceStep(r, ins, c);
    }
  }

  /** Over every run: RX_OVERRUN is set exactly if a frame has been dropped since the last read of
      RXDATA. */
  lemma {:induction false} OverrunSince(r: Regs, ins: seq<Input>)
    requires Ringed(r) && !r.overrun
    ensures Run(r, ins).overrun <==> exists c :: DroppedSince(r, ins, c)
    decreases |ins|
  {
    hide Next, Drops, Reads, DroppedSince;
    if ins == [] {
      NothingDropped(r);
    } else {
      var before := ins[..|ins| - 1];
      OverrunSince(r, before);
      OverrunStep(Run(r, before), ins[|ins| - 1]);
      DroppedStep(r, ins);
      assert Dropped(r, before) <==> exists c :: DroppedSince(r, before, c);
    }
  }

  lemma NothingDropped(r: Regs)
    requires Ringed(r)
    ensures !Dropped(r, [])
  {
  }

  lemma NotLater(r: Regs, ins: seq<Input>, c: nat)
    requires Ringed(r) && DroppedSince(r, ins, c)
    ensures c < |ins|
  {
  }
}
