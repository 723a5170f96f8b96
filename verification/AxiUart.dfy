/** The UART peripheral: the AXI4-Lite register interface, the divisor, both ring buffers, and the
    engines that shift bytes out and in.
 */
module AxiUart {
  import opened AxiLite
  import opened UartFifo
  import opened Words

  type register = x: int | 0 <= x < 8
  type index = x: int | 0 <= x < 8

  const REG_TXDATA: register := 0
  const REG_RXDATA: register := 1
  const REG_STATUS: register := 2
  const REG_CTRL: register := 3
  const REG_BAUDDIV: register := 4

  // ------------------------------------------------------------------
  // Registers
  // ------------------------------------------------------------------

  datatype WriteRegs = WriteRegs(awSeen: bool, wSeen: bool, wdata: word, wstrb: u4, reg: register, bvalid: bool)

  datatype Control = Control(txIe: bool, rxIe: bool)

  /** The divisor in use, and one that waits for both engines to be idle. */
  datatype Divisor = Divisor(live: half, pending: half, valid: bool)

  datatype ReadRegs = ReadRegs(rvalid: bool, rdata: word)

  datatype TxState = TxIdle | TxStart | TxData | TxStop

  datatype TxEngine = TxEngine(state: TxState, shift: byte, bitCnt: index, txd: bool, baud: half)

  datatype RxState = RxIdle | RxStart | RxData | RxStop

  datatype RxEngine = RxEngine(state: RxState, shift: byte, bitCnt: index, cnt: half)

  datatype Regs = Regs(w: WriteRegs, ctl: Control, div: Divisor, rd: ReadRegs, txq: Fifo, rxq: Fifo,
                       tx: TxEngine, rx: RxEngine, overrun: bool)

  predicate Ringed(r: Regs) { Sized(r.txq) && Sized(r.rxq) }

  predicate Reset(r: Regs, div: half) {
    && Ringed(r) && r.w == WriteRegs(false, false, 0, 0, 0, false) && r.ctl == Control(false, false)
    && r.div == Divisor(div, 0, false) && r.rd == ReadRegs(false, 0)
    && r.txq.wptr == 0 && r.txq.rptr == 0 && r.rxq.wptr == 0 && r.rxq.rptr == 0
    && r.tx == TxEngine(TxIdle, 0, 0, true, 0) && r.rx == RxEngine(RxIdle, 0, 0, 0) && !r.overrun
  }

  /** A cycle's inputs: what the master drives, and the receive pin. */
  datatype Input = Input(f: Fwd, rxd: bool)

  // ------------------------------------------------------------------
  // Combinational signals
  // ------------------------------------------------------------------

  function WordOf(addr: word): register { (addr / 4) % 8 }

  /** What the peripheral drives on the bus: lines 250-254, 274-275 and 372-377. */
  function Drives(r: Regs, f: Fwd): Bwd {
    Bwd(!r.w.awSeen && !r.w.bvalid && !(WordOf(f.awaddr) == REG_TXDATA && Full(r.txq)), !r.w.wSeen && !r.w.bvalid,
        r.w.bvalid, 0, !r.rd.rvalid || f.rready, r.rd.rvalid, r.rd.rdata, 0)
  }

  predicate AwTaken(w: WriteRegs, q: Fifo, f: Fwd) {
    f.awvalid && !w.awSeen && !w.bvalid && !(WordOf(f.awaddr) == REG_TXDATA && Full(q))
  }

  predicate WTaken(w: WriteRegs, f: Fwd) { f.wvalid && !w.wSeen && !w.bvalid }

  function AddressNow(w: WriteRegs, q: Fifo, f: Fwd): register { if AwTaken(w, q, f) then WordOf(f.awaddr) else w.reg }

  function DataNow(w: WriteRegs, f: Fwd): word { if WTaken(w, f) then f.wdata else w.wdata }

  function StrobesNow(w: WriteRegs, f: Fwd): u4 { if WTaken(w, f) then f.wstrb else w.wstrb }

  /** The write commits: both halves are there, no response is pending, and a byte for the ring
      buffer has room. */
  predicate Commits(w: WriteRegs, q: Fifo, f: Fwd) {
    && (w.awSeen || AwTaken(w, q, f)) && (w.wSeen || WTaken(w, f)) && !w.bvalid
    && !(AddressNow(w, q, f) == REG_TXDATA && Full(q))
  }

  /** It commits to this register and strobes its low byte. */
  predicate Writes(w: WriteRegs, q: Fifo, f: Fwd, reg: register) {
    Commits(w, q, f) && AddressNow(w, q, f) == reg && StrobesNow(w, f) % 2 == 1
  }

  predicate TxPop(q: Fifo, tx: TxEngine) { tx.state == TxIdle && !Empty(q) }

  /** Both engines are idle, so that a pending divisor takes effect. */
  predicate Applies(d: Divisor, tx: TxEngine, rx: RxEngine) { d.valid && tx.state == TxIdle && rx.state == RxIdle }

  predicate ArTaken(rd: ReadRegs, f: Fwd) { f.arvalid && (!rd.rvalid || f.rready) }

  predicate RxRead(rd: ReadRegs, f: Fwd) { ArTaken(rd, f) && WordOf(f.araddr) == REG_RXDATA }

  predicate RxPop(rd: ReadRegs, q: Fifo, f: Fwd) { RxRead(rd, f) && !Empty(q) }

  /** The end of a received frame, in the middle of its stop bit. */
  predicate FrameDone(rx: RxEngine, div: half) { rx.state == RxStop && rx.cnt == div }

  /** The frame is kept if there is room, or a read makes some in the same cycle. */
  predicate RxPush(rx: RxEngine, div: half, q: Fifo, pop: bool) { FrameDone(rx, div) && (!Full(q) || pop) }

  function Flag(b: bool): nat { if b then 1 else 0 }

  function Selected(r: Regs, reg: register): word
    requires Ringed(r)
  {
    if reg == REG_RXDATA then Head(r.rxq)
    else if reg == REG_STATUS then 4 * Flag(r.overrun) + 2 * Flag(!Empty(r.rxq)) + Flag(!Full(r.txq))
    else if reg == REG_CTRL then 2 * Flag(r.ctl.rxIe) + Flag(r.ctl.txIe)
    else if reg == REG_BAUDDIV then r.div.live
    else 0
  }

  // ------------------------------------------------------------------
  // The clock edge
  // ------------------------------------------------------------------

  function WriteNext(w: WriteRegs, q: Fifo, f: Fwd): WriteRegs {
    var commits := Commits(w, q, f);
    WriteRegs(!commits && (w.awSeen || AwTaken(w, q, f)), !commits && (w.wSeen || WTaken(w, f)),
              DataNow(w, f), StrobesNow(w, f), AddressNow(w, q, f),
              !(w.bvalid && f.bready) && (commits || w.bvalid))
  }

  function ControlNext(c: Control, write: bool, data: word): Control {
    if write then Control(data % 2 == 1, (data / 2) % 2 == 1) else c
  }

  /** A write that comes while a pending divisor is applied is not kept: the later assignment to
      the valid flag wins. */
  function DivisorNext(d: Divisor, write: bool, data: word, applies: bool): Divisor {
    Divisor(if applies then d.pending else d.live, if write then data % 0x1_0000 else d.pending,
            !applies && (write || d.valid))
  }

  function ReadNext(rd: ReadRegs, f: Fwd, selected: word): ReadRegs {
    if ArTaken(rd, f) then ReadRegs(true, selected) else rd.(rvalid := rd.rvalid && !f.rready)
  }

  function Count(c: half): half { (c + 1) % 0x1_0000 }

  function TxNext(tx: TxEngine, pop: bool, head: byte, div: half): TxEngine {
    match tx.state
    case TxIdle => if pop then tx.(baud := 0, shift := head, state := TxStart, txd := false) else tx.(baud := 0)
    case TxStart =>
      if tx.baud == div then tx.(baud := 0, state := TxData, bitCnt := 0, txd := tx.shift % 2 == 1)
      else tx.(baud := Count(tx.baud))
    case TxData =>
      if tx.baud != div then tx.(baud := Count(tx.baud))
      else if tx.bitCnt == 7 then tx.(baud := 0, state := TxStop, txd := true)
      else tx.(baud := 0, bitCnt := tx.bitCnt + 1, shift := tx.shift / 2, txd := (tx.shift / 2) % 2 == 1)
    case TxStop => if tx.baud == div then tx.(baud := 0, state := TxIdle) else tx.(baud := Count(tx.baud))
  }

  function RxNext(rx: RxEngine, rxd: bool, div: half): RxEngine {
    match rx.state
    case RxIdle => if rxd then rx.(cnt := 0) else rx.(cnt := 0, state := RxStart)
    case RxStart =>
      if rx.cnt != div / 2 then rx.(cnt := Count(rx.cnt))
      else if rxd then rx.(cnt := 0, state := RxIdle)
      else rx.(cnt := 0, state := RxData, bitCnt := 0)
    case RxData =>
      if rx.cnt != div then rx.(cnt := Count(rx.cnt))
      else
        var n := rx.(cnt := 0, shift := (if rxd then 128 else 0) + rx.shift / 2);
        if rx.bitCnt == 7 then n.(state := RxStop) else n.(bitCnt := rx.bitCnt + 1)
    case RxStop => if rx.cnt == div then rx.(cnt := 0, state := RxIdle) else rx.(cnt := Count(rx.cnt))
  }

  function OverrunNext(r: Regs, f: Fwd): bool {
    if FrameDone(r.rx, r.div.live) && Full(r.rxq) && !RxPop(r.rd, r.rxq, f) then true
    else if RxRead(r.rd, f) then false
    else r.overrun
  }

  function Next(r: Regs, i: Input): (n: Regs)
    requires Ringed(r)
    ensures Ringed(n)
  {
    var f, pop := i.f, RxPop(r.rd, r.rxq, i.f);
    Regs(WriteNext(r.w, r.txq, f),
         ControlNext(r.ctl, Writes(r.w, r.txq, f, REG_CTRL), DataNow(r.w, f)),
         DivisorNext(r.div, Writes(r.w, r.txq, f, REG_BAUDDIV), DataNow(r.w, f), Applies(r.div, r.tx, r.rx)),
         ReadNext(r.rd, f, Selected(r, WordOf(f.araddr))),
         FifoNext(r.txq, Writes(r.w, r.txq, f, REG_TXDATA), DataNow(r.w, f) % 256, TxPop(r.txq, r.tx)),
         FifoNext(r.rxq, RxPush(r.rx, r.div.live, r.rxq, pop), r.rx.shift, pop),
         TxNext(r.tx, TxPop(r.txq, r.tx), Head(r.txq), r.div.live),
         RxNext(r.rx, i.rxd, r.div.live),
         OverrunNext(r, f))
  }

  // ------------------------------------------------------------------
  // The peripheral
  // ------------------------------------------------------------------

  class UartPeripheral {
    const tx_fifo_q: array<byte>
    const rx_fifo_q: array<byte>
    var aw_seen_q: bool
    var w_seen_q: bool
    var wdata_q: word
    var wstrb_q: u4
    var awaddr_word_q: register
    var bvalid_q: bool
    var tx_ie_q: bool
    var rx_ie_q: bool
    var div_q: half
    var div_pending_q: half
    var div_pending_valid_q: bool
    var rvalid_q: bool
    var rdata_q: word
    var tx_wptr_q: pointer
    var tx_rptr_q: pointer
    var rx_wptr_q: pointer
    var rx_rptr_q: pointer
    var tx_state_q: TxState
    var tx_shift_q: byte
    var tx_bit_cnt_q: index
    var txd_q: bool
    var tx_baud_cnt_q: half
    var rx_state_q: RxState
    var rx_shift_q: byte
    var rx_bit_cnt_q: index
    var rx_cnt_q: half
    var rx_overrun_q: bool

    ghost predicate Valid()
    {
      tx_fifo_q != rx_fifo_q && tx_fifo_q.Length == FIFO_DEPTH && rx_fifo_q.Length == FIFO_DEPTH
    }

    ghost function WritePath(): WriteRegs
      reads `aw_seen_q, `w_seen_q, `wdata_q, `wstrb_q, `awaddr_word_q, `bvalid_q
    {
      WriteRegs(aw_seen_q, w_seen_q, wdata_q, wstrb_q, awaddr_word_q, bvalid_q)
    }

    ghost function Ctl(): Control
      reads `tx_ie_q, `rx_ie_q
    {
      Control(tx_ie_q, rx_ie_q)
    }

    ghost function Div(): Divisor
      reads `div_q, `div_pending_q, `div_pending_valid_q
    {
      Divisor(div_q, div_pending_q, div_pending_valid_q)
    }

    ghost function ReadPath(): ReadRegs
      reads `rvalid_q, `rdata_q
    {
      ReadRegs(rvalid_q, rdata_q)
    }

    ghost function TxRing(): (q: Fifo)
      requires Valid()
      reads `tx_wptr_q, `tx_rptr_q, tx_fifo_q
      ensures Sized(q)
    {
      Fifo(tx_fifo_q[..], tx_wptr_q, tx_rptr_q)
    }

    ghost function RxRing(): (q: Fifo)
      requires Valid()
      reads `rx_wptr_q, `rx_rptr_q, rx_fifo_q
      ensures Sized(q)
    {
      Fifo(rx_fifo_q[..], rx_wptr_q, rx_rptr_q)
    }

    ghost function Sender(): TxEngine
      reads `tx_state_q, `tx_shift_q, `tx_bit_cnt_q, `txd_q, `tx_baud_cnt_q
    {
      TxEngine(tx_state_q, tx_shift_q, tx_bit_cnt_q, txd_q, tx_baud_cnt_q)
    }

    ghost function Receiver(): RxEngine
      reads `rx_state_q, `rx_shift_q, `rx_bit_cnt_q, `rx_cnt_q
    {
      RxEngine(rx_state_q, rx_shift_q, rx_bit_cnt_q, rx_cnt_q)
    }

    ghost function State(): (r: Regs)
      requires Valid()
      reads this, tx_fifo_q, rx_fifo_q
      ensures Ringed(r)
    {
      Regs(WritePath(), Ctl(), Div(), ReadPath(), TxRing(), RxRing(), Sender(), Receiver(), rx_overrun_q)
    }

    constructor (div: half)
      ensures Valid() && fresh(tx_fifo_q) && fresh(rx_fifo_q) && Reset(State(), div)
    {
      tx_fifo_q, rx_fifo_q := new byte[FIFO_DEPTH](_ => 0), new byte[FIFO_DEPTH](_ => 0);
      aw_seen_q, w_seen_q, wdata_q, wstrb_q, awaddr_word_q, bvalid_q := false, false, 0, 0, 0, false;
      tx_ie_q, rx_ie_q, div_q, div_pending_q, div_pending_valid_q := false, false, div, 0, false;
      rvalid_q, rdata_q := false, 0;
      tx_wptr_q, tx_rptr_q, rx_wptr_q, rx_rptr_q := 0, 0, 0, 0;
      tx_state_q, tx_shift_q, tx_bit_cnt_q, txd_q, tx_baud_cnt_q := TxIdle, 0, 0, true, 0;
      rx_state_q, rx_shift_q, rx_bit_cnt_q, rx_cnt_q, rx_overrun_q := RxIdle, 0, 0, 0, false;
    }

    /** Lines 246-299: the write path's signals in a cycle. */
    method Signals(f: Fwd) returns (aw_hs: bool, w_hs: bool, do_write: bool, waddr_eff: register, wdata_eff: word, wr_low_byte: bool)
      requires Valid()
      ensures aw_hs == AwTaken(WritePath(), TxRing(), f) && w_hs == WTaken(WritePath(), f)
      ensures do_write == Commits(WritePath(), TxRing(), f)
      ensures waddr_eff == AddressNow(WritePath(), TxRing(), f) && wdata_eff == DataNow(WritePath(), f)
      ensures wr_low_byte == (StrobesNow(WritePath(), f) % 2 == 1)
    {
      hide Full;
      var full := IsFull(tx_wptr_q, tx_rptr_q);
      assert full == Full(TxRing()) by {
        FullIs(TxRing());
      }
      aw_hs := f.awvalid && !aw_seen_q && !bvalid_q && !(WordOf(f.awaddr) == REG_TXDATA && full);
      w_hs := f.wvalid && !w_seen_q && !bvalid_q;
      waddr_eff := if aw_hs then WordOf(f.awaddr) else awaddr_word_q;
      wdata_eff := if w_hs then f.wdata else wdata_q;
      wr_low_byte := (if w_hs then f.wstrb else wstrb_q) % 2 == 1;
      do_write := (aw_seen_q || aw_hs) && (w_seen_q || w_hs) && !bvalid_q && !(waddr_eff == REG_TXDATA && full);
    }

    /** Lines 250-254, 274-275 and 372-377: what the peripheral drives. */
    method Outputs(f: Fwd) returns (s: Bwd, txd_o: bool)
      requires Valid()
      ensures s == Drives(State(), f) && txd_o == State().tx.txd
    {
      hide Full;
      var full := IsFull(tx_wptr_q, tx_rptr_q);
      assert full == Full(TxRing()) by {
        FullIs(TxRing());
      }
      s := Bwd(!aw_seen_q && !bvalid_q && !(WordOf(f.awaddr) == REG_TXDATA && full), !w_seen_q && !bvalid_q,
               bvalid_q, 0, !rvalid_q || (rvalid_q && f.rready), rvalid_q, rdata_q, 0);
      txd_o := txd_q;
    }

    /** Lines 301-349: the registers of the write handshakes, a later assignment winning. */
    method ClockWrite(f: Fwd, aw_hs: bool, w_hs: bool, do_write: bool)
      requires Valid() && aw_hs == AwTaken(WritePath(), TxRing(), f) && w_hs == WTaken(WritePath(), f)
      requires do_write == Commits(WritePath(), TxRing(), f)
      modifies `aw_seen_q, `w_seen_q, `wdata_q, `wstrb_q, `awaddr_word_q, `bvalid_q
      ensures WritePath() == WriteNext(old(WritePath()), old(TxRing()), f)
    {
      var b_hs := bvalid_q && f.bready;
      if aw_hs {
        aw_seen_q := true;
        awaddr_word_q := WordOf(f.awaddr);
      }
      if w_hs {
        w_seen_q := true;
        wdata_q := f.wdata;
        wstrb_q := f.wstrb;
      }
      if do_write {
        aw_seen_q := false;
        w_seen_q := false;
        bvalid_q := true;
      }
      if b_hs {
        bvalid_q := false;
      }
    }

    /** Lines 325-364: what a committed write does to CTRL and BAUDDIV, and the divisor's update if
        both engines were idle. */
    method ClockControl(do_write: bool, waddr_eff: register, wdata_eff: word, wr_low_byte: bool, idle: bool)
      modifies `tx_ie_q, `rx_ie_q, `div_q, `div_pending_q, `div_pending_valid_q
      ensures Ctl() == ControlNext(old(Ctl()), do_write && waddr_eff == REG_CTRL && wr_low_byte, wdata_eff)
      ensures Div() == DivisorNext(old(Div()), do_write && waddr_eff == REG_BAUDDIV && wr_low_byte, wdata_eff,
                                   idle && old(div_pending_valid_q))
    {
      var apply := div_pending_valid_q && idle;
      if apply {
        div_q := div_pending_q;
      }
      if do_write && wr_low_byte {
        if waddr_eff == REG_CTRL {
          tx_ie_q := wdata_eff % 2 == 1;
          rx_ie_q := (wdata_eff / 2) % 2 == 1;
        } else if waddr_eff == REG_BAUDDIV {
          div_pending_q := wdata_eff % 0x1_0000;
          div_pending_valid_q := true;
        }
      }
      if apply {
        div_pending_valid_q := false;
      }
    }

    /** Lines 372-389: the word a read returns. */
    method ReadMux(araddr: word) returns (rdata: word)
      requires Valid()
      ensures rdata == Selected(State(), WordOf(araddr))
    {
      var reg := WordOf(araddr);
      if reg == REG_RXDATA {
        rdata := rx_fifo_q[rx_rptr_q % 16];
      } else if reg == REG_STATUS {
        hide Full;
        FullIs(TxRing());
        var full := IsFull(tx_wptr_q, tx_rptr_q);
        rdata := 4 * Flag(rx_overrun_q) + 2 * Flag(rx_wptr_q != rx_rptr_q) + Flag(!full);
      } else if reg == REG_CTRL {
        rdata := 2 * Flag(rx_ie_q) + Flag(tx_ie_q);
      } else if reg == REG_BAUDDIV {
        rdata := div_q;
      } else {
        rdata := 0;
      }
    }

    /** Lines 400-412: the read response. */
    method ClockRead(f: Fwd, ar_hs: bool, rdata: word)
      requires ar_hs == ArTaken(ReadPath(), f)
      modifies `rvalid_q, `rdata_q
      ensures ReadPath() == ReadNext(old(ReadPath()), f, rdata)
    {
      if ar_hs {
        rvalid_q := true;
        rdata_q := rdata;
      } else if rvalid_q && f.rready {
        rvalid_q := false;
      }
    }

    /** Lines 492-505, for the transmit side. */
    method ClockTxFifo(push: bool, b: byte, pop: bool)
      requires Valid()
      modifies `tx_wptr_q, `tx_rptr_q, tx_fifo_q
      ensures TxRing() == FifoNext(old(TxRing()), push, b, pop)
    {
      if push {
        tx_fifo_q[tx_wptr_q % 16] := b;
        tx_wptr_q := (tx_wptr_q + 1) % 32;
      }
      if pop {
        tx_rptr_q := (tx_rptr_q + 1) % 32;
      }
    }

    /** Lines 492-507, for the receive side. */
    method ClockRxFifo(push: bool, pop: bool)
      requires Valid()
      modifies `rx_wptr_q, `rx_rptr_q, rx_fifo_q
      ensures RxRing() == FifoNext(old(RxRing()), push, rx_shift_q, pop)
    {
      if push {
        rx_fifo_q[rx_wptr_q % 16] := rx_shift_q;
        rx_wptr_q := (rx_wptr_q + 1) % 32;
      }
      if pop {
        rx_rptr_q := (rx_rptr_q + 1) % 32;
      }
    }

    /** Lines 417-478: the transmit engine. */
    method ClockTx(pop: bool, head: byte, div: half)
      modifies `tx_state_q, `tx_shift_q, `tx_bit_cnt_q, `txd_q, `tx_baud_cnt_q
      ensures Sender() == TxNext(old(Sender()), pop, head, div)
    {
      var tick := tx_baud_cnt_q == div;
      match tx_state_q {
        case TxIdle =>
          tx_baud_cnt_q := 0;
          if pop {
            tx_shift_q := head;
            tx_state_q := TxStart;
            txd_q := false;
          }
        case TxStart =>
          if tick {
            tx_baud_cnt_q := 0;
            tx_state_q := TxData;
            tx_bit_cnt_q := 0;
            txd_q := tx_shift_q % 2 == 1;
          } else {
            tx_baud_cnt_q := Count(tx_baud_cnt_q);
          }
        case TxData =>
          if tick {
            tx_baud_cnt_q := 0;
            if tx_bit_cnt_q == 7 {
              tx_state_q := TxStop;
              txd_q := true;
            } else {
              txd_q := (tx_shift_q / 2) % 2 == 1;
              tx_bit_cnt_q := tx_bit_cnt_q + 1;
              tx_shift_q := tx_shift_q / 2;
            }
          } else {
            tx_baud_cnt_q := Count(tx_baud_cnt_q);
          }
        case TxStop =>
          if tick {
            tx_baud_cnt_q := 0;
            tx_state_q := TxIdle;
          } else {
            tx_baud_cnt_q := Count(tx_baud_cnt_q);
          }
      }
    }

    /** Lines 536-594: the receive engine. */
    method ClockRx(rxd: bool, div: half)
      modifies `rx_state_q, `rx_shift_q, `rx_bit_cnt_q, `rx_cnt_q
      ensures Receiver() == RxNext(old(Receiver()), rxd, div)
    {
      var half_div := div / 2;
      match rx_state_q {
        case RxIdle =>
          rx_cnt_q := 0;
          if !rxd {
            rx_state_q := RxStart;
          }
        case RxStart =>
          if rx_cnt_q == half_div {
            rx_cnt_q := 0;
            if !rxd {
              rx_state_q := RxData;
              rx_bit_cnt_q := 0;
            } else {
              rx_state_q := RxIdle;
            }
          } else {
            rx_cnt_q := Count(rx_cnt_q);
          }
        case RxData =>
          if rx_cnt_q == div {
            rx_cnt_q := 0;
            rx_shift_q := (if rxd then 128 else 0) + rx_shift_q / 2;
            if rx_bit_cnt_q == 7 {
              rx_state_q := RxStop;
            } else {
              rx_bit_cnt_q := rx_bit_cnt_q + 1;
            }
          } else {
            rx_cnt_q := Count(rx_cnt_q);
          }
        case RxStop =>
          if rx_cnt_q == div {
            rx_cnt_q := 0;
            rx_state_q := RxIdle;
          } else {
            rx_cnt_q := Count(rx_cnt_q);
          }
      }
    }

    /** Lines 489-490 and 524-534: the end of a received frame. */
    method ClockOverrun(rx_read: bool, rx_pop: bool, full: bool, div: half) returns (push: bool)
      modifies `rx_overrun_q
      ensures push == (FrameDone(Receiver(), div) && (!full || rx_pop))
      ensures rx_overrun_q == if FrameDone(Receiver(), div) && full && !rx_pop then true else !rx_read && old(rx_overrun_q)
    {
      var rx_frame_done := rx_state_q == RxStop && rx_cnt_q == div;
      push := rx_frame_done && (!full || rx_pop);
      if rx_read {
        rx_overrun_q := false;
      }
      if rx_frame_done && full && !rx_pop {
        rx_overrun_q := true;
      }
    }

    /** The transmit side of an edge. */
    method ClockSend(push: bool, b: byte, pop: bool, head: byte, div: half)
      requires Valid()
      modifies `tx_wptr_q, `tx_rptr_q, tx_fifo_q, `tx_state_q, `tx_shift_q, `tx_bit_cnt_q, `txd_q, `tx_baud_cnt_q
      ensures TxRing() == FifoNext(old(TxRing()), push, b, pop) && Sender() == TxNext(old(Sender()), pop, head, div)
    {
      hide TxNext, FifoNext;
      ClockTxFifo(push, b, pop);
      ClockTx(pop, head, div);
    }

    /** The receive side of an edge. */
    method ClockReceive(rxd: bool, rx_read: bool, rx_pop: bool, div: half)
      requires Valid()
      modifies `rx_wptr_q, `rx_rptr_q, rx_fifo_q, `rx_overrun_q, `rx_state_q, `rx_shift_q, `rx_bit_cnt_q, `rx_cnt_q
      ensures RxRing() == FifoNext(old(RxRing()), RxPush(old(Receiver()), div, old(RxRing()), rx_pop), old(Receiver()).shift, rx_pop)
      ensures Receiver() == RxNext(old(Receiver()), rxd, div)
      ensures rx_overrun_q == if FrameDone(old(Receiver()), div) && Full(old(RxRing())) && !rx_pop then true
                              else !rx_read && old(rx_overrun_q)
    {
      hide RxNext, FifoNext, Full;
      var full := IsFull(rx_wptr_q, rx_rptr_q);
      assert full == Full(RxRing()) by {
        FullIs(RxRing());
      }
      var push := ClockOverrun(rx_read, rx_pop, full, div);
      ClockRxFifo(push, rx_pop);
      ClockRx(rxd, div);
    }

    lemma PartsOfState()
      requires Valid()
      ensures var r := State();
              && WritePath() == r.w && TxRing() == r.txq && ReadPath() == r.rd && RxRing() == r.rxq
              && Sender() == r.tx && Receiver() == r.rx && Ctl() == r.ctl && Div() == r.div && rx_overrun_q == r.overrun
    {
    }

    /** The write handshakes, among all. */
    method WriteEdge(f: Fwd, aw_hs: bool, w_hs: bool, do_write: bool)
      requires Valid() && aw_hs == AwTaken(WritePath(), TxRing(), f) && w_hs == WTaken(WritePath(), f)
      requires do_write == Commits(WritePath(), TxRing(), f)
      modifies `aw_seen_q, `w_seen_q, `wdata_q, `wstrb_q, `awaddr_word_q, `bvalid_q
      ensures State() == old(State()).(w := WriteNext(old(State()).w, old(State()).txq, f))
    {
      hide WriteNext, AwTaken, WTaken, Commits;
      ghost var r := State();
      ClockWrite(f, aw_hs, w_hs, do_write);
      assert tx_fifo_q[..] == r.txq.mem && rx_fifo_q[..] == r.rxq.mem;
      ghost var n := State();
      assert n.tx == r.tx && n.rx == r.rx && n.overrun == r.overrun && n.txq == r.txq && n.rxq == r.rxq;
      assert n.w == WritePath();
    }

    /** Control and divisor, among all. */
    method ControlEdge(do_write: bool, waddr_eff: register, wdata_eff: word, wr_low_byte: bool, idle: bool)
      requires Valid()
      modifies `tx_ie_q, `rx_ie_q, `div_q, `div_pending_q, `div_pending_valid_q
      ensures var r := old(State());
              State() == r.(ctl := ControlNext(r.ctl, do_write && waddr_eff == REG_CTRL && wr_low_byte, wdata_eff),
                            div := DivisorNext(r.div, do_write && waddr_eff == REG_BAUDDIV && wr_low_byte, wdata_eff,
                                               idle && r.div.valid))
    {
      hide ControlNext, DivisorNext;
      ghost var r := State();
      ClockControl(do_write, waddr_eff, wdata_eff, wr_low_byte, idle);
      assert tx_fifo_q[..] == r.txq.mem && rx_fifo_q[..] == r.rxq.mem;
      ghost var n := State();
      assert n.tx == r.tx && n.rx == r.rx && n.overrun == r.overrun && n.txq == r.txq && n.rxq == r.rxq;
      assert n.ctl == Ctl() && n.div == Div();
    }

    /** The read response, among all. */
    method ReadEdge(f: Fwd, ar_hs: bool, rdata: word)
      requires Valid() && ar_hs == ArTaken(ReadPath(), f)
      modifies `rvalid_q, `rdata_q
      ensures State() == old(State()).(rd := ReadNext(old(State()).rd, f, rdata))
    {
      hide ReadNext, ArTaken;
      ghost var r := State();
      ClockRead(f, ar_hs, rdata);
      assert tx_fifo_q[..] == r.txq.mem && rx_fifo_q[..] == r.rxq.mem;
      ghost var n := State();
      assert n.tx == r.tx && n.rx == r.rx && n.overrun == r.overrun && n.txq == r.txq && n.rxq == r.rxq;
      assert n.rd == ReadPath();
    }

    /** The transmit side, among all. */
    method SendEdge(push: bool, b: byte, pop: bool, head: byte, div: half)
      requires Valid()
      modifies `tx_wptr_q, `tx_rptr_q, tx_fifo_q, `tx_state_q, `tx_shift_q, `tx_bit_cnt_q, `txd_q, `tx_baud_cnt_q
      ensures var r := old(State());
              State() == r.(txq := FifoNext(r.txq, push, b, pop), tx := TxNext(r.tx, pop, head, div))
    {
      hide TxNext, FifoNext;
      ghost var r := State();
      ClockSend(push, b, pop, head, div);
      assert rx_fifo_q[..] == r.rxq.mem;
      ghost var n := State();
      assert n.w == r.w && n.ctl == r.ctl && n.div == r.div && n.rd == r.rd && n.rxq == r.rxq && n.rx == r.rx && n.overrun == r.overrun;
      assert n.txq == TxRing() && n.tx == Sender();
    }

    /** The receive side, among all. */
    method ReceiveEdge(rxd: bool, rx_read: bool, rx_pop: bool, div: half)
      requires Valid()
      modifies `rx_wptr_q, `rx_rptr_q, rx_fifo_q, `rx_overrun_q, `rx_state_q, `rx_shift_q, `rx_bit_cnt_q, `rx_cnt_q
      ensures var r := old(State());
              State() == r.(rxq := FifoNext(r.rxq, RxPush(r.rx, div, r.rxq, rx_pop), r.rx.shift, rx_pop),
                            rx := RxNext(r.rx, rxd, div),
                            overrun := if FrameDone(r.rx, div) && Full(r.rxq) && !rx_pop then true else !rx_read && r.overrun)
    {
      hide RxNext, FifoNext, RxPush, FrameDone, Full;
      ghost var r := State();
      ClockReceive(rxd, rx_read, rx_pop, div);
      assert tx_fifo_q[..] == r.txq.mem;
      ghost var n := State();
      assert n.w == r.w && n.ctl == r.ctl && n.div == r.div && n.rd == r.rd && n.txq == r.txq && n.tx == r.tx;
      assert n.rxq == RxRing() && n.rx == Receiver();
    }

    /** The handshakes and pops of the other side: lines 218, 366-369 and 397-398. */
    method ReadSignals(f: Fwd) returns (ar_hs: bool, rx_read: bool, rx_pop: bool, tx_pop: bool, idle: bool, head: byte)
      requires Valid()
      ensures ar_hs == ArTaken(ReadPath(), f) && rx_read == RxRead(ReadPath(), f) && rx_pop == RxPop(ReadPath(), RxRing(), f)
      ensures tx_pop == TxPop(TxRing(), Sender()) && head == Head(TxRing())
      ensures idle == (Sender().state == TxIdle && Receiver().state == RxIdle)
    {
      ar_hs := f.arvalid && (!rvalid_q || f.rready);
      rx_read := ar_hs && WordOf(f.araddr) == REG_RXDATA;
      rx_pop := rx_read && rx_wptr_q != rx_rptr_q;
      tx_pop := tx_state_q == TxIdle && tx_wptr_q != tx_rptr_q;
      idle := tx_state_q == TxIdle && rx_state_q == RxIdle;
      head := tx_fifo_q[tx_rptr_q % 16];
    }

    /** One rising clock edge: every block reads the registers of before it. */
    method Clock(i: Input)
      requires Valid()
      modifies this, tx_fifo_q, rx_fifo_q
      ensures Valid() && State() == Next(old(State()), i)
    {
      hide AwTaken, WTaken, Commits, DataNow, StrobesNow, AddressNow, WriteNext, FifoNext, TxNext, RxNext, Full, Selected,
        DivisorNext, ControlNext, ReadNext, FrameDone, WordOf, ArTaken, RxRead, RxPop, RxPush, TxPop, Head;
      PartsOfState();
      var aw_hs, w_hs, do_write, waddr_eff, wdata_eff, wr_low_byte := Signals(i.f);
      var ar_hs, rx_read, rx_pop, tx_pop, idle, head := ReadSignals(i.f);
      var rdata := ReadMux(i.f.araddr);
      var div := div_q;
      hide UartPeripheral.State;
      assert div == Div().live;
      ReadEdge(i.f, ar_hs, rdata);
      WriteEdge(i.f, aw_hs, w_hs, do_write);
      ControlEdge(do_write, waddr_eff, wdata_eff, wr_low_byte, idle);
      SendEdge(do_write && waddr_eff == REG_TXDATA && wr_low_byte, wdata_eff % 256, tx_pop, head, div);
      ReceiveEdge(i.rxd, rx_read, rx_pop, div);
    }
  }

  predicate IsFull(wptr: pointer, rptr: pointer) { wptr / 16 != rptr / 16 && wptr % 16 == rptr % 16 }

  lemma FullIs(q: Fifo)
    ensures Full(q) == IsFull(q.wptr, q.rptr)
  {
  }
}
