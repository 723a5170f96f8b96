/** 8N1 framing in the simulation harness: two printers of frames and the parser that samples
    them, one line level per clock cycle. A level is true for a high line.
 */
module Uart {
  import opened Arithmetic
  import opened Words

  predicate Bit(b: byte, i: nat) { (b / Pow2(i)) % 2 == 1 }

  /** The level of a frame's k-th bit: start, eight data bits with the lowest first, stop. */
  predicate Level(b: byte, k: nat) { k != 0 && (k > 8 || Bit(b, k - 1)) }

  function Hold(level: bool, cycles: nat): (s: seq<bool>)
    ensures |s| == cycles
  {
    seq(cycles, _ => level)
  }

  /** A frame's first k bits, each held for w cycles. */
  function FirstBits(b: byte, k: nat, w: nat): seq<bool> {
    if k == 0 then [] else FirstBits(b, k - 1, w) + Hold(Level(b, k - 1), w)
  }

  function Frame(b: byte, w: nat): (f: seq<bool>) { FirstBits(b, 10, w) }

  // ------------------------------------------------------------------
  // The parser: lines 84-112 of uart_tb.cpp
  // ------------------------------------------------------------------

  datatype Mode = Armed | Sampling | AwaitingIdle

  datatype Monitor = Monitor(mode: Mode, cnt: int, bit: nat, acc: nat, target: int, bytes: seq<nat>)

  /** w is BIT_CYCLES. A set bit is above every bit collected so far, so adding it is or-ing it. */
  function Sample(m: Monitor, level: bool, w: nat): Monitor {
    match m.mode
    case Armed => if !level then m.(mode := Sampling, cnt := 0, bit := 0, acc := 0, target := w + w / 2) else m
    case Sampling =>
      if m.cnt + 1 != m.target then m.(cnt := m.cnt + 1)
      else
        var acc := if level then m.acc + Pow2(m.bit) else m.acc;
        var n := m.(cnt := m.cnt + 1, bit := m.bit + 1, acc := acc, target := m.target + w);
        if m.bit + 1 == 8 then n.(mode := AwaitingIdle, bytes := m.bytes + [acc]) else n
    case AwaitingIdle => if level then m.(mode := Armed) else m
  }

  function Listen(m: Monitor, line: seq<bool>, w: nat): Monitor
    decreases |line|
  {
    if line == [] then m else Sample(Listen(m, line[..|line| - 1], w), line[|line| - 1], w)
  }

  class TxMonitor {
    const w: nat
    var mon_state: int
    var mon_cnt: int
    var mon_bit: nat
    var mon_byte: nat
    var mon_target: int
    var tx_bytes: seq<nat>

    ghost function State(): Monitor
      reads this
    {
      Monitor(if mon_state == 0 then Armed else if mon_state == 1 then Sampling else AwaitingIdle,
              mon_cnt, mon_bit, mon_byte, mon_target, tx_bytes)
    }

    constructor (bit_cycles: nat)
      ensures w == bit_cycles && State() == Monitor(Armed, 0, 0, 0, 0, [])
    {
      w := bit_cycles;
      mon_state, mon_cnt, mon_bit, mon_byte, mon_target, tx_bytes := 0, 0, 0, 0, 0, [];
    }

    method Tick(txd: bool)
      modifies this
      ensures State() == Sample(old(State()), txd, w)
    {
      if mon_state == 0 {
        if !txd {
          mon_state, mon_cnt, mon_bit, mon_byte := 1, 0, 0, 0;
          mon_target := w + w / 2;
        }
      } else if mon_state == 1 {
        mon_cnt := mon_cnt + 1;
        if mon_cnt == mon_target {
          if txd {
            mon_byte := mon_byte + Pow2(mon_bit);
          }
          mon_bit := mon_bit + 1;
          mon_target := mon_target + w;
          if mon_bit == 8 {
            tx_bytes := tx_bytes + [mon_byte];
            mon_state := 2;
          }
        }
      } else if txd {
        mon_state := 0;
      }
    }
  }

  // ------------------------------------------------------------------
  // The unpaced printer: lines 186-194 of uart_tb.cpp
  // ------------------------------------------------------------------

  class Line {
    /** Every level driven so far, one per tick. */
    var levels: seq<bool>

    constructor ()
      ensures levels == []
    {
      levels := [];
    }

    method Drive(level: bool, cycles: nat)
      modifies this
      ensures levels == old(levels) + Hold(level, cycles)
    {
      for i := 0 to cycles
        invariant levels == old(levels) + Hold(level, i)
      {
        levels := levels + [level];
      }
    }

    method RxFrame(b: byte, w: nat)
      modifies this
      ensures levels == old(levels) + Frame(b, w)
    {
      hide Hold, Bit;
      Drive(false, w);
      assert FirstBits(b, 1, w) == [] + Hold(false, w);
      for i := 0 to 8
        invariant levels == old(levels) + FirstBits(b, i + 1, w)
      {
        Drive(Bit(b, i), w);
        assert FirstBits(b, i + 2, w) == FirstBits(b, i + 1, w) + Hold(Level(b, i + 1), w);
      }
      Drive(true, w);
      assert FirstBits(b, 10, w) == FirstBits(b, 9, w) + Hold(true, w);
    }
  }

  // ------------------------------------------------------------------
  // The paced printer: class UartRxDriver, lines 105-165 of sim_main.cpp
  // ------------------------------------------------------------------

  const GAP_CYCLES := 10

  datatype Driver = Driver(idx: nat, active: bool, cur: byte, bit: nat, cnt: nat, gap: nat)

  const DRIVER_START := Driver(0, false, 0, 0, 0, 0)

  /** Whether this step begins a frame. */
  predicate Begins(d: Driver, text: seq<byte>, paced: bool, blocked: bool) {
    !d.active && d.gap == 0 && d.idx < |text| && !(paced && blocked)
  }

  /** One cycle of a frame in progress. */
  function Advance(d: Driver, w: nat): Driver {
    if d.cnt + 1 != w then d.(cnt := d.cnt + 1)
    else if d.bit + 1 > 9 then d.(cnt := 0, bit := d.bit + 1, active := false, gap := GAP_CYCLES)
    else d.(cnt := 0, bit := d.bit + 1)
  }

  function Begun(d: Driver, text: seq<byte>): Driver
    requires d.idx < |text|
  {
    d.(idx := d.idx + 1, active := true, cur := text[d.idx], bit := 0, cnt := 0)
  }

  function DriverNext(d: Driver, text: seq<byte>, paced: bool, w: nat, blocked: bool): Driver {
    if d.active then Advance(d, w)
    else if d.gap > 0 then d.(gap := d.gap - 1)
    else if Begins(d, text, paced, blocked) then Advance(Begun(d, text), w)
    else d
  }

  predicate DriverLevel(d: Driver, text: seq<byte>, paced: bool, blocked: bool) {
    if d.active then Level(d.cur, d.bit)
    else !Begins(d, text, paced, blocked)
  }

  predicate Done(d: Driver, text: seq<byte>) { d.idx >= |text| && !d.active }

  class UartRxDriver {
    const bytes_: seq<byte>
    const bit_cycles_: nat
    const paced_: bool
    var idx_: nat
    var active_: bool
    var cur_: byte
    var bit_: nat
    var cnt_: nat
    var gap_: nat

    ghost function State(): Driver
      reads this
    {
      Driver(idx_, active_, cur_, bit_, cnt_, gap_)
    }

    constructor (bytes: seq<byte>, bit_cycles: nat, paced: bool)
      ensures bytes_ == bytes && bit_cycles_ == bit_cycles && paced_ == paced && State() == DRIVER_START
    {
      bytes_, bit_cycles_, paced_ := bytes, bit_cycles, paced;
      idx_, active_, cur_, bit_, cnt_, gap_ := 0, false, 0, 0, 0, 0;
    }

    method Step(blocked: bool) returns (level: bool)
      modifies this
      ensures State() == DriverNext(old(State()), bytes_, paced_, bit_cycles_, blocked)
      ensures level == DriverLevel(old(State()), bytes_, paced_, blocked)
    {
      if !active_ {
        if gap_ > 0 {
          gap_ := gap_ - 1;
          return true;
        }
        if idx_ >= |bytes_| || (paced_ && blocked) {
          return true;
        }
        cur_ := bytes_[idx_];
        idx_ := idx_ + 1;
        active_ := true;
        bit_ := 0;
        cnt_ := 0;
      }
      level := if bit_ == 0 then false else if bit_ <= 8 then (cur_ / Pow2(bit_ - 1)) % 2 == 1 else true;
      cnt_ := cnt_ + 1;
      if cnt_ == bit_cycles_ {
        cnt_ := 0;
        bit_ := bit_ + 1;
        if bit_ > 9 {
          active_ := false;
          gap_ := GAP_CYCLES;
        }
      }
    }
  }
}
