/** The AXI4-Lite master bridge and the 1-to-3 crossbar, one clock cycle at a time.

    Each module is given twice: as functions from registers and inputs to outputs and
    next registers, and as a class whose clock method updates the registers the way the
    always_ff blocks do.
 */
module AxiLite {
  import opened Words

  type u4 = x: int | 0 <= x < 16
  type u2 = x: int | 0 <= x < 4

  /** mem_req_t: what the native master drives. */
  datatype Req = Req(wvalid: bool, we: bool, addr: word, wdata: word, wstrb: u4, rready: bool)

  /** mem_rsp_t: what the bridge answers. */
  datatype Rsp = Rsp(wready: bool, rvalid: bool, rdata: word, bvalid: bool)

  /** The signals an AXI4-Lite master drives. */
  datatype Fwd = Fwd(awaddr: word, awvalid: bool, wdata: word, wstrb: u4, wvalid: bool, bready: bool,
                     araddr: word, arvalid: bool, rready: bool)

  /** The signals an AXI4-Lite slave drives. */
  datatype Bwd = Bwd(awready: bool, wready: bool, bvalid: bool, bresp: u2,
                     arready: bool, rvalid: bool, rdata: word, rresp: u2)

  // ------------------------------------------------------------------
  // The bridge
  // ------------------------------------------------------------------

  datatype BridgeState = Idle | RdAddr | RdWait | WrBoth | WrAddr | WrData | WrWait

  datatype BridgeRegs = BridgeRegs(state: BridgeState, addr: word, wdata: word, wstrb: u4)

  const QUIET: Fwd := Fwd(0, false, 0, 0, false, true, 0, false, false)

  /** What the bridge drives; none of it depends on the slave side of the cycle. */
  function BridgeDrive(b: BridgeRegs, req: Req): Fwd {
    match b.state
    case Idle =>
      if !req.wvalid then QUIET
      else if req.we then QUIET.(awaddr := req.addr, awvalid := true, wdata := req.wdata, wstrb := req.wstrb, wvalid := true)
      else QUIET.(araddr := req.addr, arvalid := true)
    case RdAddr => QUIET.(araddr := b.addr, arvalid := true)
    case RdWait => QUIET.(rready := req.rready)
    case WrBoth => QUIET.(awaddr := b.addr, awvalid := true, wdata := b.wdata, wstrb := b.wstrb, wvalid := true)
    case WrAddr => QUIET.(wdata := b.wdata, wstrb := b.wstrb, wvalid := true)
    case WrData => QUIET.(awaddr := b.addr, awvalid := true)
    case WrWait => QUIET
  }

  predicate AwHs(f: Fwd, s: Bwd) { f.awvalid && s.awready }
  predicate WHs(f: Fwd, s: Bwd) { f.wvalid && s.wready }
  predicate BHs(f: Fwd, s: Bwd) { s.bvalid && f.bready }
  predicate ArHs(f: Fwd, s: Bwd) { f.arvalid && s.arready }
  predicate RHs(f: Fwd, s: Bwd) { s.rvalid && f.rready }

  function BridgeRespond(b: BridgeRegs, req: Req, s: Bwd): Rsp {
    var f := BridgeDrive(b, req);
    Rsp(b.state == Idle, b.state == RdWait && RHs(f, s), if b.state == RdWait then s.rdata else 0, b.state == WrWait && BHs(f, s))
  }

  function AfterWrite(f: Fwd, s: Bwd): BridgeState {
    if AwHs(f, s) && WHs(f, s) then WrWait else if AwHs(f, s) then WrAddr else if WHs(f, s) then WrData else WrBoth
  }

  function BridgeNext(b: BridgeRegs, req: Req, s: Bwd): BridgeRegs {
    var f := BridgeDrive(b, req);
    var state := match b.state
      case Idle =>
        if !req.wvalid then Idle else if req.we then AfterWrite(f, s) else if ArHs(f, s) then RdWait else RdAddr
      case RdAddr => if ArHs(f, s) then RdWait else RdAddr
      case RdWait => if RHs(f, s) then Idle else RdWait
      case WrBoth => AfterWrite(f, s)
      case WrAddr => if WHs(f, s) then WrWait else WrAddr
      case WrData => if AwHs(f, s) then WrWait else WrData
      case WrWait => if BHs(f, s) then Idle else WrWait;
    if b.state == Idle && req.wvalid then BridgeRegs(state, req.addr, req.wdata, req.wstrb) else b.(state := state)
  }

  class MasterBridge {
    var state_q: BridgeState
    var addr_q: word
    var wdata_q: word
    var wstrb_q: u4

    ghost function Regs(): BridgeRegs
      reads this
    {
      BridgeRegs(state_q, addr_q, wdata_q, wstrb_q)
    }

    /** Reset leaves the request latch undefined. */
    constructor ()
      ensures state_q == Idle
    {
      state_q := Idle;
    }

    /** The always_comb block, lines 116-252 of axi4_lite_master_bridge.sv. */
    method Comb(req: Req, s: Bwd) returns (axi: Fwd, rsp: Rsp, state_d: BridgeState)
      ensures axi == BridgeDrive(Regs(), req) && rsp == BridgeRespond(Regs(), req, s)
      ensures state_d == BridgeNext(Regs(), req, s).state
    {
      axi := QUIET;
      rsp := Rsp(state_q == Idle, false, 0, false);
      state_d := state_q;
      match state_q {
        case Idle =>
          if req.wvalid {
            if req.we {
              axi := axi.(awaddr := req.addr, awvalid := true, wdata := req.wdata, wstrb := req.wstrb, wvalid := true);
              if AwHs(axi, s) && WHs(axi, s) {
                state_d := WrWait;
              } else if AwHs(axi, s) {
                state_d := WrAddr;
              } else if WHs(axi, s) {
                state_d := WrData;
              } else {
                state_d := WrBoth;
              }
            } else {
              axi := axi.(araddr := req.addr, arvalid := true);
              state_d := if ArHs(axi, s) then RdWait else RdAddr;
            }
          }
        case RdAddr =>
          axi := axi.(araddr := addr_q, arvalid := true);
          if ArHs(axi, s) {
            state_d := RdWait;
          }
        case RdWait =>
          axi := axi.(rready := req.rready);
          rsp := rsp.(rvalid := RHs(axi, s), rdata := s.rdata);
          if RHs(axi, s) {
            state_d := Idle;
          }
        case WrBoth =>
          axi := axi.(awaddr := addr_q, awvalid := true, wdata := wdata_q, wstrb := wstrb_q, wvalid := true);
          if AwHs(axi, s) && WHs(axi, s) {
            state_d := WrWait;
          } else if AwHs(axi, s) {
            state_d := WrAddr;
          } else if WHs(axi, s) {
            state_d := WrData;
          }
        case WrAddr =>
          axi := axi.(wdata := wdata_q, wstrb := wstrb_q, wvalid := true);
          if WHs(axi, s) {
            state_d := WrWait;
          }
        case WrData =>
          axi := axi.(awaddr := addr_q, awvalid := true);
          if AwHs(axi, s) {
            state_d := WrWait;
          }
        case WrWait =>
          rsp := rsp.(bvalid := BHs(axi, s));
          if BHs(axi, s) {
            state_d := Idle;
          }
      }
    }

    /** One rising clock edge: the request latch and the state register. */
    method Clock(req: Req, s: Bwd)
      modifies this
      ensures Regs() == BridgeNext(old(Regs()), req, s)
    {
      var axi, rsp, state_d := Comb(req, s);
      var accept := state_q == Idle && req.wvalid;
      if accept {
        addr_q := req.addr;
        wdata_q := req.wdata;
        wstrb_q := req.wstrb;
      }
      state_q := state_d;
    }
  }

  // ------------------------------------------------------------------
  // The crossbar
  // ------------------------------------------------------------------

  const BASE0: word := 0x1000_0000
  const SIZE0: word := 0x0000_1000
  const BASE1: word := 0x1000_1000
  const SIZE1: word := 0x0000_2000
  const BASE2: word := 0x1000_3000
  const SIZE2: word := 0x0000_1000
  const NO_MATCH: u2 := 3
  const DECERR: u2 := 3

  function Decode(addr: word): u2 {
    if BASE0 <= addr < BASE0 + SIZE0 then 0
    else if BASE1 <= addr < BASE1 + SIZE1 then 1
    else if BASE2 <= addr < BASE2 + SIZE2 then 2
    else NO_MATCH
  }

  datatype XbarRegs = XbarRegs(wrBusy: bool, wrSel: u2, rdBusy: bool, rdSel: u2,
                               errAwSeen: bool, errWSeen: bool, errBvalid: bool, errRvalid: bool) {
    /** err_do_write: the terminator now has both halves of a write. */
    predicate DoWrite(aw: bool, w: bool) { (errAwSeen || aw) && (errWSeen || w) && !errBvalid }

    predicate AwSeenNext(aw: bool, w: bool) { !DoWrite(aw, w) && (errAwSeen || aw) }

    predicate WSeenNext(aw: bool, w: bool) { !DoWrite(aw, w) && (errWSeen || w) }

    predicate BvalidNext(aw: bool, w: bool, b: bool) { !b && (DoWrite(aw, w) || errBvalid) }
  }

  const XBAR_RESET := XbarRegs(false, 0, false, 0, false, false, false, false)

  /** The three targets' outputs in one cycle. */
  datatype Targets = Targets(t0: Bwd, t1: Bwd, t2: Bwd) {
    function Of(k: u2): Bwd
      requires k != NO_MATCH
    {
      if k == 0 then t0 else if k == 1 then t1 else t2
    }
  }

  function WrSelEff(x: XbarRegs, f: Fwd): u2 { if x.wrBusy then x.wrSel else Decode(f.awaddr) }

  /** What the crossbar drives towards target k; for k == NO_MATCH, what the terminator sees. */
  function XbarForward(x: XbarRegs, f: Fwd, k: u2): Fwd {
    Fwd(f.awaddr, !x.wrBusy && f.awvalid && Decode(f.awaddr) == k,
        f.wdata, f.wstrb, f.wvalid && WrSelEff(x, f) == k,
        x.wrBusy && x.wrSel == k && f.bready,
        f.araddr, !x.rdBusy && f.arvalid && Decode(f.araddr) == k,
        x.rdBusy && x.rdSel == k && f.rready)
  }

  /** The decode-error terminator, seen as a fourth slave. */
  function Terminator(x: XbarRegs): Bwd {
    Bwd(!x.errAwSeen && !x.errBvalid, !x.errWSeen && !x.errBvalid, x.errBvalid, DECERR,
        !x.errRvalid, x.errRvalid, 0, DECERR)
  }

  function SlaveOf(x: XbarRegs, t: Targets, k: u2): Bwd {
    if k == NO_MATCH then Terminator(x) else t.Of(k)
  }

  /** What the crossbar answers to its master. */
  function XbarBack(x: XbarRegs, f: Fwd, t: Targets): Bwd {
    var aw, w := SlaveOf(x, t, Decode(f.awaddr)), SlaveOf(x, t, WrSelEff(x, f));
    var b, ar, r := SlaveOf(x, t, x.wrSel), SlaveOf(x, t, Decode(f.araddr)), SlaveOf(x, t, x.rdSel);
    Bwd(!x.wrBusy && f.awvalid && aw.awready,
        f.wvalid && w.wready,
        x.wrBusy && b.bvalid, if x.wrBusy then b.bresp else 0,
        !x.rdBusy && f.arvalid && ar.arready,
        x.rdBusy && r.rvalid, if x.rdBusy then r.rdata else 0, if x.rdBusy then r.rresp else 0)
  }

  /** The terminator's registers after one clock edge. */
  function ErrorsNext(x: XbarRegs, f: Fwd, s: Bwd): XbarRegs {
    var errAw, errW := AwHs(f, s) && Decode(f.awaddr) == NO_MATCH, WHs(f, s) && WrSelEff(x, f) == NO_MATCH;
    var errB := BHs(f, s) && x.wrSel == NO_MATCH;
    var errAr, errR := ArHs(f, s) && Decode(f.araddr) == NO_MATCH, RHs(f, s) && x.rdSel == NO_MATCH;
    x.(errAwSeen := x.AwSeenNext(errAw, errW), errWSeen := x.WSeenNext(errAw, errW),
       errBvalid := x.BvalidNext(errAw, errW, errB), errRvalid := errAr || (!errR && x.errRvalid))
  }

  /** The busy flags and select latches after one clock edge. */
  function SelectsNext(x: XbarRegs, f: Fwd, s: Bwd): XbarRegs {
    x.(wrBusy := if AwHs(f, s) then true else if BHs(f, s) then false else x.wrBusy,
       wrSel := if AwHs(f, s) then Decode(f.awaddr) else x.wrSel,
       rdBusy := if ArHs(f, s) then true else if RHs(f, s) then false else x.rdBusy,
       rdSel := if ArHs(f, s) then Decode(f.araddr) else x.rdSel)
  }

  function XbarNext(x: XbarRegs, f: Fwd, s: Bwd): XbarRegs {
    SelectsNext(ErrorsNext(x, f, s), f, s)
  }

  class Crossbar {
    var wr_busy_q: bool
    var wr_sel_q: u2
    var rd_busy_q: bool
    var rd_sel_q: u2
    var err_aw_seen_q: bool
    var err_w_seen_q: bool
    var err_bvalid_q: bool
    var err_rvalid_q: bool

    ghost function Regs(): XbarRegs
      reads this
    {
      XbarRegs(wr_busy_q, wr_sel_q, rd_busy_q, rd_sel_q, err_aw_seen_q, err_w_seen_q, err_bvalid_q, err_rvalid_q)
    }

    constructor ()
      ensures Regs() == XBAR_RESET
    {
      wr_busy_q, wr_sel_q, rd_busy_q, rd_sel_q := false, 0, false, 0;
      err_aw_seen_q, err_w_seen_q, err_bvalid_q, err_rvalid_q := false, false, false, false;
    }

    /** AW: lines 124-141 of axi4_lite_xbar_3.sv. */
    method RouteAw(f: Fwd, t: Targets) returns (v0: bool, v1: bool, v2: bool, awready: bool)
      ensures v0 == XbarForward(Regs(), f, 0).awvalid
      ensures v1 == XbarForward(Regs(), f, 1).awvalid
      ensures v2 == XbarForward(Regs(), f, 2).awvalid
      ensures awready == XbarBack(Regs(), f, t).awready
    {
      hide Decode;
      v0, v1, v2, awready := false, false, false, false;
      if !wr_busy_q && f.awvalid {
        match Decode(f.awaddr) {
          case 0 => v0, awready := true, t.t0.awready;
          case 1 => v1, awready := true, t.t1.awready;
          case 2 => v2, awready := true, t.t2.awready;
          case _ => awready := !err_aw_seen_q && !err_bvalid_q;
        }
      }
    }

    /** W: lines 143-160. */
    method RouteW(f: Fwd, t: Targets) returns (v0: bool, v1: bool, v2: bool, wready: bool)
      ensures v0 == XbarForward(Regs(), f, 0).wvalid
      ensures v1 == XbarForward(Regs(), f, 1).wvalid
      ensures v2 == XbarForward(Regs(), f, 2).wvalid
      ensures wready == XbarBack(Regs(), f, t).wready
    {
      hide Decode;
      v0, v1, v2, wready := false, false, false, false;
      if f.wvalid {
        match if wr_busy_q then wr_sel_q else Decode(f.awaddr) {
          case 0 => v0, wready := true, t.t0.wready;
          case 1 => v1, wready := true, t.t1.wready;
          case 2 => v2, wready := true, t.t2.wready;
          case _ => wready := !err_w_seen_q && !err_bvalid_q;
        }
      }
    }

    /** B: lines 162-185. */
    method RouteB(f: Fwd, t: Targets) returns (r0: bool, r1: bool, r2: bool, bvalid: bool, bresp: u2)
      ensures r0 == XbarForward(Regs(), f, 0).bready
      ensures r1 == XbarForward(Regs(), f, 1).bready
      ensures r2 == XbarForward(Regs(), f, 2).bready
      ensures bvalid == XbarBack(Regs(), f, t).bvalid && bresp == XbarBack(Regs(), f, t).bresp
    {
      hide Decode;
      r0, r1, r2, bvalid, bresp := false, false, false, false, 0;
      if wr_busy_q {
        match wr_sel_q {
          case 0 => r0, bvalid, bresp := f.bready, t.t0.bvalid, t.t0.bresp;
          case 1 => r1, bvalid, bresp := f.bready, t.t1.bvalid, t.t1.bresp;
          case 2 => r2, bvalid, bresp := f.bready, t.t2.bvalid, t.t2.bresp;
          case _ => bvalid, bresp := err_bvalid_q, DECERR;
        }
      }
    }

    /** AR: lines 187-204. */
    method RouteAr(f: Fwd, t: Targets) returns (v0: bool, v1: bool, v2: bool, arready: bool)
      ensures v0 == XbarForward(Regs(), f, 0).arvalid
      ensures v1 == XbarForward(Regs(), f, 1).arvalid
      ensures v2 == XbarForward(Regs(), f, 2).arvalid
      ensures arready == XbarBack(Regs(), f, t).arready
    {
      hide Decode;
      v0, v1, v2, arready := false, false, false, false;
      if !rd_busy_q && f.arvalid {
        match Decode(f.araddr) {
          case 0 => v0, arready := true, t.t0.arready;
          case 1 => v1, arready := true, t.t1.arready;
          case 2 => v2, arready := true, t.t2.arready;
          case _ => arready := !err_rvalid_q;
        }
      }
    }

    /** R: lines 206-233. */
    method RouteR(f: Fwd, t: Targets) returns (r0: bool, r1: bool, r2: bool, rvalid: bool, rdata: word, rresp: u2)
      ensures r0 == XbarForward(Regs(), f, 0).rready
      ensures r1 == XbarForward(Regs(), f, 1).rready
      ensures r2 == XbarForward(Regs(), f, 2).rready
      ensures rvalid == XbarBack(Regs(), f, t).rvalid && rdata == XbarBack(Regs(), f, t).rdata
      ensures rresp == XbarBack(Regs(), f, t).rresp
    {
      hide Decode;
      r0, r1, r2, rvalid, rdata, rresp := false, false, false, false, 0, 0;
      if rd_busy_q {
        match rd_sel_q {
          case 0 => r0, rvalid, rdata, rresp := f.rready, t.t0.rvalid, t.t0.rdata, t.t0.rresp;
          case 1 => r1, rvalid, rdata, rresp := f.rready, t.t1.rvalid, t.t1.rdata, t.t1.rresp;
          case 2 => r2, rvalid, rdata, rresp := f.rready, t.t2.rvalid, t.t2.rdata, t.t2.rresp;
          case _ => rvalid, rdata, rresp := err_rvalid_q, 0, DECERR;
        }
      }
    }

    /** The routing block, lines 83-234 of axi4_lite_xbar_3.sv, channel by channel. */
    method Comb(f: Fwd, t: Targets) returns (m0: Fwd, m1: Fwd, m2: Fwd, s: Bwd)
      ensures m0 == XbarForward(Regs(), f, 0) && m1 == XbarForward(Regs(), f, 1) && m2 == XbarForward(Regs(), f, 2)
      ensures s == XbarBack(Regs(), f, t)
    {
      hide Decode, Terminator, SlaveOf, WrSelEff;
      var aw0, aw1, aw2, awready := RouteAw(f, t);
      var w0, w1, w2, wready := RouteW(f, t);
      var b0, b1, b2, bvalid, bresp := RouteB(f, t);
      var ar0, ar1, ar2, arready := RouteAr(f, t);
      var r0, r1, r2, rvalid, rdata, rresp := RouteR(f, t);
      m0 := Fwd(f.awaddr, aw0, f.wdata, f.wstrb, w0, b0, f.araddr, ar0, r0);
      m1 := Fwd(f.awaddr, aw1, f.wdata, f.wstrb, w1, b1, f.araddr, ar1, r1);
      m2 := Fwd(f.awaddr, aw2, f.wdata, f.wstrb, w2, b2, f.araddr, ar2, r2);
      s := Bwd(awready, wready, bvalid, bresp, arready, rvalid, rdata, rresp);
    }

    /** The terminator's write half of a rising clock edge, lines 256-263. A later assignment to
        the same register wins. */
    method ClockErrorWrite(err_aw_hs: bool, err_w_hs: bool, err_b_hs: bool)
      modifies `err_aw_seen_q, `err_w_seen_q, `err_bvalid_q
      ensures err_aw_seen_q == old(Regs()).AwSeenNext(err_aw_hs, err_w_hs)
      ensures err_w_seen_q == old(Regs()).WSeenNext(err_aw_hs, err_w_hs)
      ensures err_bvalid_q == old(Regs()).BvalidNext(err_aw_hs, err_w_hs, err_b_hs)
    {
      var err_do_write := (err_aw_seen_q || err_aw_hs) && (err_w_seen_q || err_w_hs) && !err_bvalid_q;
      if err_aw_hs {
        err_aw_seen_q := true;
      }
      if err_w_hs {
        err_w_seen_q := true;
      }
      if err_do_write {
        err_aw_seen_q := false;
        err_w_seen_q := false;
        err_bvalid_q := true;
      }
      if err_b_hs {
        err_bvalid_q := false;
      }
    }

    /** The terminator's read half, lines 265-266. */
    method ClockErrorRead(err_ar_hs: bool, err_r_hs: bool)
      modifies `err_rvalid_q
      ensures err_rvalid_q == (err_ar_hs || (!err_r_hs && old(err_rvalid_q)))
    {
      if err_ar_hs {
        err_rvalid_q := true;
      } else if err_r_hs {
        err_rvalid_q := false;
      }
    }

    /** The terminator's half of a rising clock edge, lines 238-243 and 256-266. */
    method ClockTerminator(f: Fwd, s: Bwd)
      modifies `err_aw_seen_q, `err_w_seen_q, `err_bvalid_q, `err_rvalid_q
      ensures Regs() == ErrorsNext(old(Regs()), f, s)
    {
      hide Decode, AwHs, WHs, BHs, ArHs, RHs;
      var wr_sel_live, rd_sel_live := Decode(f.awaddr), Decode(f.araddr);
      var wr_sel_eff := if wr_busy_q then wr_sel_q else wr_sel_live;
      var err_ar_hs := ArHs(f, s) && rd_sel_live == NO_MATCH;
      var err_r_hs := RHs(f, s) && rd_sel_q == NO_MATCH;
      ClockErrorWrite(AwHs(f, s) && wr_sel_live == NO_MATCH, WHs(f, s) && wr_sel_eff == NO_MATCH,
                      BHs(f, s) && wr_sel_q == NO_MATCH);
      ClockErrorRead(err_ar_hs, err_r_hs);
    }

    /** The select latches' half, lines 268-280. */
    method ClockSelects(f: Fwd, s: Bwd)
      modifies `wr_busy_q, `wr_sel_q, `rd_busy_q, `rd_sel_q
      ensures Regs() == SelectsNext(old(Regs()), f, s)
    {
      hide Decode;
      if AwHs(f, s) {
        wr_busy_q := true;
        wr_sel_q := Decode(f.awaddr);
      } else if BHs(f, s) {
        wr_busy_q := false;
      }
      if ArHs(f, s) {
        rd_busy_q := true;
        rd_sel_q := Decode(f.araddr);
      } else if RHs(f, s) {
        rd_busy_q := false;
      }
    }

    /** One rising clock edge, lines 245-282: the terminator reads the selects of before the edge. */
    method Clock(f: Fwd, s: Bwd)
      modifies this
      ensures Regs() == XbarNext(old(Regs()), f, s)
    {
      hide Decode, WrSelEff;
      ClockTerminator(f, s);
      ClockSelects(f, s);
    }
  }
}
