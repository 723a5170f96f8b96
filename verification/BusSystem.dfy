/** The master bridge in front of the crossbar, over whole runs: three targets that choose
    their READY and VALID timing freely, and a native master that drives anything at all.
 */
module BusSystem {
  import opened AxiLite
  import opened Words

  /** What a target still owes an answer for: the handshakes it has taken so far. */
  datatype Port = Port(aw: bool, w: bool, ar: bool)

  const CLEAR := Port(false, false, false)

  datatype Sys = Sys(b: BridgeRegs, x: XbarRegs, p0: Port, p1: Port, p2: Port) {
    function Of(k: u2): Port {
      if k == 0 then p0 else if k == 1 then p1 else p2
    }
  }

  /** Everything the surroundings choose in one cycle. */
  datatype Inputs = Inputs(req: Req, t: Targets)

  /** Sections A3.2.1 and A3.3.1 of ARM IHI 0022E, the slave's side: no B before both write
      handshakes, no R before the AR handshake. Nothing else is asked of a target. */
  predicate PortLegal(p: Port, s: Bwd) { (s.bvalid ==> p.aw && p.w) && (s.rvalid ==> p.ar) }

  predicate Legal(y: Sys, i: Inputs) { PortLegal(y.p0, i.t.t0) && PortLegal(y.p1, i.t.t1) && PortLegal(y.p2, i.t.t2) }

  function PortNext(p: Port, f: Fwd, s: Bwd): Port {
    var b, r := s.bvalid && f.bready, s.rvalid && f.rready;
    Port(!b && (p.aw || (f.awvalid && s.awready)), !b && (p.w || (f.wvalid && s.wready)), !r && (p.ar || (f.arvalid && s.arready)))
  }

  function Drive(y: Sys, i: Inputs): Fwd { BridgeDrive(y.b, i.req) }

  function Back(y: Sys, i: Inputs): Bwd { XbarBack(y.x, Drive(y, i), i.t) }

  /** What target k sees. */
  function Pins(y: Sys, i: Inputs, k: u2): Fwd { XbarForward(y.x, Drive(y, i), k) }

  function Step(y: Sys, i: Inputs): Sys {
    Sys(BridgeNext(y.b, i.req, Back(y, i)), XbarNext(y.x, Drive(y, i), Back(y, i)),
        PortNext(y.p0, Pins(y, i, 0), i.t.t0), PortNext(y.p1, Pins(y, i, 1), i.t.t1),
        PortNext(y.p2, Pins(y, i, 2), i.t.t2))
  }

  // ------------------------------------------------------------------
  // What an observer sees: native handshakes, and handshakes at each target's pins
  // ------------------------------------------------------------------

  datatype Event =
    | AcceptWrite(addr: word, data: word, strb: u4)
    | AcceptRead(addr: word)
    | Aw(k: u2, addr: word)
    | W(k: u2, data: word, strb: u4)
    | B(k: u2, resp: u2)
    | Ar(k: u2, addr: word)
    | R(k: u2, data: word, resp: u2)
    | NativeDone
    | NativeData(data: word)

  /** The handshakes at the pins of target k (or of the terminator): valid, ready and payload are
      all the ones on those pins, not the ones at the master's port. */
  function AwAt(x: XbarRegs, f: Fwd, t: Targets, k: u2): seq<Event> {
    var pins, s := XbarForward(x, f, k), SlaveOf(x, t, k);
    if pins.awvalid && s.awready then [Aw(k, pins.awaddr)] else []
  }

  function WAt(x: XbarRegs, f: Fwd, t: Targets, k: u2): seq<Event> {
    var pins, s := XbarForward(x, f, k), SlaveOf(x, t, k);
    if pins.wvalid && s.wready then [W(k, pins.wdata, pins.wstrb)] else []
  }

  function BAt(x: XbarRegs, f: Fwd, t: Targets, k: u2): seq<Event> {
    var pins, s := XbarForward(x, f, k), SlaveOf(x, t, k);
    if pins.bready && s.bvalid then [B(k, s.bresp)] else []
  }

  function ArAt(x: XbarRegs, f: Fwd, t: Targets, k: u2): seq<Event> {
    var pins, s := XbarForward(x, f, k), SlaveOf(x, t, k);
    if pins.arvalid && s.arready then [Ar(k, pins.araddr)] else []
  }

  function RAt(x: XbarRegs, f: Fwd, t: Targets, k: u2): seq<Event> {
    var pins, s := XbarForward(x, f, k), SlaveOf(x, t, k);
    if pins.rready && s.rvalid then [R(k, s.rdata, s.rresp)] else []
  }

  function AwPins(x: XbarRegs, f: Fwd, t: Targets): seq<Event> {
    AwAt(x, f, t, 0) + AwAt(x, f, t, 1) + AwAt(x, f, t, 2) + AwAt(x, f, t, 3)
  }

  function WPins(x: XbarRegs, f: Fwd, t: Targets): seq<Event> {
    WAt(x, f, t, 0) + WAt(x, f, t, 1) + WAt(x, f, t, 2) + WAt(x, f, t, 3)
  }

  function BPins(x: XbarRegs, f: Fwd, t: Targets): seq<Event> {
    BAt(x, f, t, 0) + BAt(x, f, t, 1) + BAt(x, f, t, 2) + BAt(x, f, t, 3)
  }

  function ArPins(x: XbarRegs, f: Fwd, t: Targets): seq<Event> {
    ArAt(x, f, t, 0) + ArAt(x, f, t, 1) + ArAt(x, f, t, 2) + ArAt(x, f, t, 3)
  }

  function RPins(x: XbarRegs, f: Fwd, t: Targets): seq<Event> {
    RAt(x, f, t, 0) + RAt(x, f, t, 1) + RAt(x, f, t, 2) + RAt(x, f, t, 3)
  }

  /** The native request handshake of a cycle. */
  function NativeIn(req: Req, rsp: Rsp): seq<Event> {
    if !(req.wvalid && rsp.wready) then []
    else if req.we then [AcceptWrite(req.addr, req.wdata, req.wstrb)]
    else [AcceptRead(req.addr)]
  }

  /** The native response of a cycle. */
  function NativeOut(rsp: Rsp): seq<Event> {
    (if rsp.bvalid then [NativeDone] else []) + (if rsp.rvalid then [NativeData(rsp.rdata)] else [])
  }

  function Response(y: Sys, i: Inputs): Rsp { BridgeRespond(y.b, i.req, Back(y, i)) }

  function Events(y: Sys, i: Inputs): seq<Event> {
    var f, rsp := Drive(y, i), Response(y, i);
    NativeIn(i.req, rsp) + AwPins(y.x, f, i.t) + WPins(y.x, f, i.t) + ArPins(y.x, f, i.t)
    + BPins(y.x, f, i.t) + RPins(y.x, f, i.t) + NativeOut(rsp)
  }

  /** The four pages of 4 KiB from 0x1000_0000 on belong to targets 0, 1, 1 and 2; no other address
      is mapped. */
  lemma WindowsAre(addr: word)
    ensures Decode(addr) == match addr / 0x1000
                            case 0x1_0000 => 0
                            case 0x1_0001 => 1
                            case 0x1_0002 => 1
                            case 0x1_0003 => 2
                            case _ => 3
  {
  }

  // ------------------------------------------------------------------
  // Routing: a handshake on the master side is one handshake at one target
  // ------------------------------------------------------------------

  lemma AwRouted(x: XbarRegs, f: Fwd, t: Targets)
    ensures AwPins(x, f, t) == if AwHs(f, XbarBack(x, f, t)) then [Aw(Decode(f.awaddr), f.awaddr)] else []
  {
    hide Decode, Terminator, WrSelEff;
  }

  lemma WRouted(x: XbarRegs, f: Fwd, t: Targets)
    ensures WPins(x, f, t) == if WHs(f, XbarBack(x, f, t)) 
                              then [W(if x.wrBusy then x.wrSel else Decode(f.awaddr), f.wdata, f.wstrb)] else []
  {
    hide Decode, Terminator;
  }

  lemma BRouted(x: XbarRegs, f: Fwd, t: Targets)
    ensures BPins(x, f, t) == if BHs(f, XbarBack(x, f, t)) then [B(x.wrSel, XbarBack(x, f, t).bresp)] else []
  {
    hide Decode, Terminator, WrSelEff;
  }

  lemma ArRouted(x: XbarRegs, f: Fwd, t: Targets)
    ensures ArPins(x, f, t) == if ArHs(f, XbarBack(x, f, t)) then [Ar(Decode(f.araddr), f.araddr)] else []
  {
    hide Decode, Terminator, WrSelEff;
  }

  lemma RRouted(x: XbarRegs, f: Fwd, t: Targets)
    ensures RPins(x, f, t) == if RHs(f, XbarBack(x, f, t))
                              then [R(x.rdSel, XbarBack(x, f, t).rdata, XbarBack(x, f, t).rresp)] else []
  {
    hide Decode, Terminator, WrSelEff;
  }

  // ------------------------------------------------------------------
  // The protocol the pair promises, as a monitor of events
  // ------------------------------------------------------------------

  datatype Monitor =
    | NoTxn
    | Write(addr: word, data: word, strb: u4, aw: bool, w: bool)
    | Acked
    | Read(addr: word, sent: bool)
    | Returned(data: word)
    | Broken

  /** One event: a transaction opens only when none is open, and every later event must be the
      next one due, at the window Decode names and with the payload that was accepted. An
      unmapped address is answered with 0b11, DECERR. */
  function Observe(m: Monitor, e: Event): Monitor {
    match e
    case AcceptWrite(a, d, s) => if m.NoTxn? then Write(a, d, s, false, false) else Broken
    case AcceptRead(a) => if m.NoTxn? then Read(a, false) else Broken
    case Aw(k, a) => if m.Write? && !m.aw && k == Decode(m.addr) && a == m.addr then m.(aw := true) else Broken
    case W(k, d, s) =>
      if m.Write? && !m.w && k == Decode(m.addr) && d == m.data && s == m.strb then m.(w := true) else Broken
    case B(k, r) =>
      if m.Write? && m.aw && m.w && k == Decode(m.addr) && (k == NO_MATCH ==> r == 3) then Acked else Broken
    case Ar(k, a) => if m.Read? && !m.sent && k == Decode(m.addr) && a == m.addr then m.(sent := true) else Broken
    case R(k, d, r) =>
      if m.Read? && m.sent && k == Decode(m.addr) && (k == NO_MATCH ==> d == 0 && r == 3) then Returned(d)
      else Broken
    case NativeDone => if m.Acked? then NoTxn else Broken
    case NativeData(d) => if m == Returned(d) then NoTxn else Broken
  }

  function Watch(m: Monitor, log: seq<Event>): Monitor {
    if log == [] then m else Observe(Watch(m, log[..|log| - 1]), log[|log| - 1])
  }

  lemma {:induction false} WatchConcat(m: Monitor, p: seq<Event>, q: seq<Event>)
    ensures Watch(m, p + q) == Watch(Watch(m, p), q)
    decreases |q|
  {
    hide Observe;
    if q == [] {
      assert p + q == p;
    } else {
      WatchConcat(m, p, q[..|q| - 1]);
      assert (p + q)[..|p + q| - 1] == p + q[..|q| - 1];
    }
  }

  lemma WatchOne(m: Monitor, e: Event)
    ensures Watch(m, [e]) == Observe(m, e)
  {
    hide Observe;
    assert [e][..0] == [];
    assert Watch(m, []) == m;
  }

  // ------------------------------------------------------------------
  // The invariant of the pair
  // ------------------------------------------------------------------

  /** Which point of the protocol each bridge state stands for. */
  function Point(b: BridgeRegs): Monitor {
    match b.state
    case Idle => NoTxn
    case RdAddr => Read(b.addr, false)
    case RdWait => Read(b.addr, true)
    case WrBoth => Write(b.addr, b.wdata, b.wstrb, false, false)
    case WrAddr => Write(b.addr, b.wdata, b.wstrb, true, false)
    case WrData => Write(b.addr, b.wdata, b.wstrb, false, true)
    case WrWait => Write(b.addr, b.wdata, b.wstrb, true, true)
  }

  /** The transaction that is open during the cycle: one accepted in it counts. */
  function Current(b: BridgeRegs, req: Req): Monitor {
    if b.state == Idle && req.wvalid then
      if req.we then Write(req.addr, req.wdata, req.wstrb, false, false) else Read(req.addr, false)
    else Point(b)
  }

  predicate Open(m: Monitor) { m.NoTxn? || m.Write? || m.Read? }

  /** The crossbar's registers while m is open; a select latch matters only while its side is
      busy. The terminator takes both halves of a write at once, so it never holds just one. */
  predicate XbarAt(m: Monitor, x: XbarRegs)
    requires Open(m)
  {
    && !x.errAwSeen && !x.errWSeen
    && (x.wrBusy == (m.Write? && m.aw)) && (x.wrBusy ==> x.wrSel == Decode(m.addr))
    && (x.rdBusy == (m.Read? && m.sent)) && (x.rdBusy ==> x.rdSel == Decode(m.addr))
    && (x.errBvalid == (m.Write? && m.aw && m.w && Decode(m.addr) == NO_MATCH))
    && (x.errRvalid == (m.Read? && m.sent && Decode(m.addr) == NO_MATCH))
  }

  /** Nothing stays half done at an unmapped address over a clock edge. */
  predicate NotStuck(m: Monitor) {
    (m.Write? && !(m.aw && m.w)) || (m.Read? && !m.sent) ==> Decode(m.addr) != NO_MATCH
  }

  /** The same within a cycle, where the open transaction may be one just accepted. */
  predicate NotSplit(m: Monitor) { m.Write? && m.aw != m.w ==> Decode(m.addr) != NO_MATCH }

  /** What target k owes while m is open. */
  function PortAt(m: Monitor, k: u2): Port {
    if m.Write? && Decode(m.addr) == k then Port(m.aw, m.w, false)
    else if m.Read? && Decode(m.addr) == k then Port(false, false, m.sent)
    else CLEAR
  }

  predicate PortsAt(m: Monitor, y: Sys) { y.p0 == PortAt(m, 0) && y.p1 == PortAt(m, 1) && y.p2 == PortAt(m, 2) }

  predicate Inv(y: Sys) { XbarAt(Point(y.b), y.x) && NotStuck(Point(y.b)) && PortsAt(Point(y.b), y) }

  // ------------------------------------------------------------------
  // One cycle, seen from the open transaction
  // ------------------------------------------------------------------

  /** What the bridge drives for the open transaction m. */
  predicate Drives(m: Monitor, f: Fwd, rready: bool) {
    && f.bready
    && (f.awvalid == (m.Write? && !m.aw)) && (f.awvalid ==> f.awaddr == m.addr)
    && (f.wvalid == (m.Write? && !m.w)) && (f.wvalid ==> f.wdata == m.data && f.wstrb == m.strb)
    && (f.arvalid == (m.Read? && !m.sent)) && (f.arvalid ==> f.araddr == m.addr)
    && (f.rready == (m.Read? && m.sent && rready))
  }

  /** Responses come only where the transaction is complete on the request side. */
  predicate Answers(m: Monitor, s: Bwd) { (s.bvalid ==> m.Write? && m.aw && m.w) && (s.rvalid ==> m.Read? && m.sent) }

  /** The open transaction after the cycle's handshakes. */
  function After(m: Monitor, f: Fwd, s: Bwd): Monitor {
    match m
    case Write(_, _, _, aw, w) => if BHs(f, s) then NoTxn else m.(aw := aw || AwHs(f, s), w := w || WHs(f, s))
    case Read(_, sent) => if RHs(f, s) then NoTxn else m.(sent := sent || ArHs(f, s))
    case _ => m
  }

  lemma CurrentInv(y: Sys, i: Inputs)
    requires Inv(y)
    ensures Open(Current(y.b, i.req)) && XbarAt(Current(y.b, i.req), y.x) && PortsAt(Current(y.b, i.req), y)
    ensures NotSplit(Current(y.b, i.req))
    ensures Drives(Current(y.b, i.req), Drive(y, i), i.req.rready)
  {
    hide Decode;
  }

  lemma PointNext(y: Sys, i: Inputs)
    requires Answers(Current(y.b, i.req), Back(y, i))
    ensures Point(BridgeNext(y.b, i.req, Back(y, i))) == After(Current(y.b, i.req), Drive(y, i), Back(y, i))
  {
    hide XbarBack;
  }

  lemma AnswersDue(m: Monitor, y: Sys, i: Inputs)
    requires Open(m) && XbarAt(m, y.x) && PortsAt(m, y) && Legal(y, i)
    ensures Answers(m, Back(y, i))
  {
    hide Decode, BridgeDrive, WrSelEff;
  }

  lemma XbarNextAt(m: Monitor, x: XbarRegs, f: Fwd, t: Targets, rready: bool)
    requires Open(m) && XbarAt(m, x) && Drives(m, f, rready) && Answers(m, XbarBack(x, f, t))
    requires NotSplit(m)
    ensures Open(After(m, f, XbarBack(x, f, t))) && NotStuck(After(m, f, XbarBack(x, f, t)))
    ensures XbarAt(After(m, f, XbarBack(x, f, t)), XbarNext(x, f, XbarBack(x, f, t)))
  {
    hide Decode;
  }

  lemma PortNextAt(m: Monitor, x: XbarRegs, f: Fwd, t: Targets, rready: bool, k: u2)
    requires Open(m) && XbarAt(m, x) && Drives(m, f, rready) && Answers(m, XbarBack(x, f, t)) && k != NO_MATCH
    ensures PortNext(PortAt(m, k), XbarForward(x, f, k), t.Of(k)) == PortAt(After(m, f, XbarBack(x, f, t)), k)
  {
    hide Decode, Terminator;
  }

  lemma InvStep(y: Sys, i: Inputs)
    requires Inv(y) && Legal(y, i)
    ensures Inv(Step(y, i)) && Point(Step(y, i).b) == After(Current(y.b, i.req), Drive(y, i), Back(y, i))
    ensures Answers(Current(y.b, i.req), Back(y, i))
  {
    hide Decode, BridgeDrive, BridgeNext, XbarBack, XbarNext, XbarForward, XbarAt, Drives, Point, Current, After, Answers;
    var m, f := Current(y.b, i.req), Drive(y, i);
    CurrentInv(y, i);
    AnswersDue(m, y, i);
    PointNext(y, i);
    XbarNextAt(m, y.x, f, i.t, i.req.rready);
    PortNextAt(m, y.x, f, i.t, i.req.rready, 0);
    PortNextAt(m, y.x, f, i.t, i.req.rready, 1);
    PortNextAt(m, y.x, f, i.t, i.req.rready, 2);
  }

  // ------------------------------------------------------------------
  // The cycle's events are the monitor's
  // ------------------------------------------------------------------

  lemma WatchMaybe(m: Monitor, c: bool, e: Event)
    ensures Watch(m, if c then [e] else []) == if c then Observe(m, e) else m
  {
    hide Observe;
    if c {
      WatchOne(m, e);
    }
  }

  lemma WatchIn(y: Sys, i: Inputs)
    ensures Watch(Point(y.b), NativeIn(i.req, Response(y, i))) == Current(y.b, i.req)
  {
    hide XbarBack, BridgeDrive;
    var m, req := Point(y.b), i.req;
    WatchOne(m, AcceptWrite(req.addr, req.wdata, req.wstrb));
    WatchOne(m, AcceptRead(req.addr));
  }

  /** The open transaction after the request handshakes of a cycle. */
  function Sent(m: Monitor, f: Fwd, s: Bwd): Monitor {
    match m
    case Write(_, _, _, aw, w) => m.(aw := aw || AwHs(f, s), w := w || WHs(f, s))
    case Read(_, sent) => m.(sent := sent || ArHs(f, s))
    case _ => m
  }

  lemma WatchRequests(m: Monitor, x: XbarRegs, f: Fwd, t: Targets, rready: bool)
    requires Open(m) && XbarAt(m, x) && Drives(m, f, rready)
    ensures Watch(Watch(Watch(m, AwPins(x, f, t)), WPins(x, f, t)), ArPins(x, f, t)) == Sent(m, f, XbarBack(x, f, t))
  {
    hide Decode, XbarBack, AwPins, WPins, ArPins;
    var s := XbarBack(x, f, t);
    AwRouted(x, f, t);
    WRouted(x, f, t);
    ArRouted(x, f, t);
    WatchMaybe(m, AwHs(f, s), Aw(Decode(f.awaddr), f.awaddr));
    var m2 := Watch(m, AwPins(x, f, t));
    WatchMaybe(m2, WHs(f, s), W(WrSelEff(x, f), f.wdata, f.wstrb));
    var m3 := Watch(m2, WPins(x, f, t));
    WatchMaybe(m3, ArHs(f, s), Ar(Decode(f.araddr), f.araddr));
  }

  lemma WatchResponses(m: Monitor, x: XbarRegs, f: Fwd, t: Targets, rready: bool)
    requires Open(m) && XbarAt(m, x) && Drives(m, f, rready) && Answers(m, XbarBack(x, f, t))
    ensures var s := XbarBack(x, f, t);
            Watch(Watch(Sent(m, f, s), BPins(x, f, t)), RPins(x, f, t))
            == if BHs(f, s) then Acked else if RHs(f, s) then Returned(s.rdata) else Sent(m, f, s)
  {
    hide Decode, BPins, RPins, WrSelEff;
    var s := XbarBack(x, f, t);
    BRouted(x, f, t);
    RRouted(x, f, t);
    WatchMaybe(Sent(m, f, s), BHs(f, s), B(x.wrSel, s.bresp));
    var m2 := Watch(Sent(m, f, s), BPins(x, f, t));
    WatchMaybe(m2, RHs(f, s), R(x.rdSel, s.rdata, s.rresp));
  }

  lemma WatchOut(y: Sys, i: Inputs, m: Monitor)
    requires Answers(Current(y.b, i.req), Back(y, i)) && Drives(Current(y.b, i.req), Drive(y, i), i.req.rready)
    requires var f, s := Drive(y, i), Back(y, i);
             m == if BHs(f, s) then Acked else if RHs(f, s) then Returned(s.rdata) else Sent(Current(y.b, i.req), f, s)
    ensures Watch(m, NativeOut(Response(y, i))) == After(Current(y.b, i.req), Drive(y, i), Back(y, i))
  {
    hide XbarBack, BridgeDrive;
    var rsp := Response(y, i);
    WatchMaybe(m, rsp.bvalid, NativeDone);
    WatchMaybe(Watch(m, if rsp.bvalid then [NativeDone] else []), rsp.rvalid, NativeData(rsp.rdata));
    WatchConcat(m, if rsp.bvalid then [NativeDone] else [], if rsp.rvalid then [NativeData(rsp.rdata)] else []);
  }

  lemma WatchParts(m: Monitor, a: seq<Event>, b: seq<Event>, c: seq<Event>, d: seq<Event>, e: seq<Event>, f: seq<Event>,
                   g: seq<Event>)
    ensures Watch(m, a + b + c + d + e + f + g)
            == Watch(Watch(Watch(Watch(Watch(Watch(Watch(m, a), b), c), d), e), f), g)
  {
    hide *;
    WatchConcat(m, a + b + c + d + e + f, g);
    WatchConcat(m, a + b + c + d + e, f);
    WatchConcat(m, a + b + c + d, e);
    WatchConcat(m, a + b + c, d);
    WatchConcat(m, a + b, c);
    WatchConcat(m, a, b);
  }

  lemma EventsFollow(y: Sys, i: Inputs)
    requires Inv(y) && Legal(y, i)
    ensures Watch(Point(y.b), Events(y, i)) == Point(Step(y, i).b)
  {
    hide Watch, Observe, Point, Current, After, Sent, BridgeDrive, BridgeNext, BridgeRespond, XbarBack, XbarNext, XbarAt,
         Drives, Answers, NativeIn, NativeOut, AwPins, WPins, ArPins, BPins, RPins, PortNext, XbarForward, PortAt;
    var x, m, f, s, rsp := y.x, Current(y.b, i.req), Drive(y, i), Back(y, i), Response(y, i);
    CurrentInv(y, i);
    InvStep(y, i);
    WatchIn(y, i);
    WatchRequests(m, x, f, i.t, i.req.rready);
    WatchResponses(m, x, f, i.t, i.req.rready);
    WatchOut(y, i, if BHs(f, s) then Acked else if RHs(f, s) then Returned(s.rdata) else Sent(m, f, s));
    WatchParts(Point(y.b), NativeIn(i.req, rsp), AwPins(x, f, i.t), WPins(x, f, i.t), ArPins(x, f, i.t),
               BPins(x, f, i.t), RPins(x, f, i.t), NativeOut(rsp));
  }

  // ------------------------------------------------------------------
  // Whole runs
  // ------------------------------------------------------------------

  /** Reset: the request latch holds anything, everything else is clear. */
  predicate Initial(y: Sys) { y.b.state == Idle && y.x == XBAR_RESET && y.p0 == CLEAR && y.p1 == CLEAR && y.p2 == CLEAR }

  function Run(y: Sys, ins: seq<Inputs>): Sys {
    if ins == [] then y else Step(Run(y, ins[..|ins| - 1]), ins[|ins| - 1])
  }

  predicate LegalRun(y: Sys, ins: seq<Inputs>) {
    ins == [] || (LegalRun(y, ins[..|ins| - 1]) && Legal(Run(y, ins[..|ins| - 1]), ins[|ins| - 1]))
  }

  function Log(y: Sys, ins: seq<Inputs>): seq<Event> {
    if ins == [] then [] else Log(y, ins[..|ins| - 1]) + Events(Run(y, ins[..|ins| - 1]), ins[|ins| - 1])
  }

  lemma {:induction false} RunFollows(y: Sys, ins: seq<Inputs>)
    requires Initial(y) && LegalRun(y, ins)
    ensures Inv(Run(y, ins)) && Watch(NoTxn, Log(y, ins)) == Point(Run(y, ins).b)
    decreases |ins|
  {
    hide Observe, Step, Events, Legal, Decode;
    if ins == [] {
    } else {
      hide XbarAt, PortAt, PortsAt, Point, Inv, Initial, NotStuck;
      var before := ins[..|ins| - 1];
      RunFollows(y, before);
      InvStep(Run(y, before), ins[|ins| - 1]);
      EventsFollow(Run(y, before), ins[|ins| - 1]);
      WatchConcat(NoTxn, Log(y, before), Events(Run(y, before), ins[|ins| - 1]));
    }
  }

  /** A complete transaction as an observer sees it. */
  datatype Transaction =
    | WriteTxn(addr: word, data: word, strb: u4, wFirst: bool, resp: u2)
    | ReadTxn(addr: word, data: word, resp: u2)

  function Script(t: Transaction): seq<Event> {
    var k := Decode(t.addr);
    match t
    case WriteTxn(a, d, s, wFirst, resp) =>
      if wFirst then [AcceptWrite(a, d, s), W(k, d, s), Aw(k, a), B(k, resp), NativeDone]
      else [AcceptWrite(a, d, s), Aw(k, a), W(k, d, s), B(k, resp), NativeDone]
    case ReadTxn(a, d, resp) => [AcceptRead(a), Ar(k, a), R(k, d, resp), NativeData(d)]
  }

  /** An unmapped address is answered with DECERR, and a read of it with data 0. */
  predicate Answered(t: Transaction) {
    Decode(t.addr) == NO_MATCH ==> t.resp == 3 && (t.ReadTxn? ==> t.data == 0)
  }

  function Scripts(ts: seq<Transaction>): seq<Event> {
    if ts == [] then [] else Scripts(ts[..|ts| - 1]) + Script(ts[|ts| - 1])
  }

  /** log is the complete transactions ts, then the first n events of t. */
  predicate Explained(log: seq<Event>, ts: seq<Transaction>, t: Transaction, n: nat) {
    && (forall u :: u in ts ==> Answered(u)) && Answered(t)
    && n < |Script(t)| && log == Scripts(ts) + Script(t)[..n]
  }

  /** How far transaction t has come when the monitor stands at m. */
  predicate Fits(m: Monitor, t: Transaction, n: nat) {
    match m
    case NoTxn => n == 0
    case Write(a, d, s, aw, w) =>
      && t.WriteTxn? && t.addr == a && t.data == d && t.strb == s
      && n == 1 + (if aw then 1 else 0) + (if w then 1 else 0) && (aw != w ==> t.wFirst == w)
    case Acked => t.WriteTxn? && n == 4
    case Read(a, sent) => t.ReadTxn? && t.addr == a && n == 1 + (if sent then 1 else 0)
    case Returned(d) => t.ReadTxn? && t.data == d && n == 3
    case Broken => false
  }

  /** The transaction in progress once e has been seen. */
  function Grown(t: Transaction, n: nat, e: Event): Transaction {
    match e
    case AcceptWrite(a, d, s) => WriteTxn(a, d, s, false, DECERR)
    case AcceptRead(a) => ReadTxn(a, 0, DECERR)
    case Aw(_, _) => if n == 1 && t.WriteTxn? then t.(wFirst := false) else t
    case W(_, _, _) => if n == 1 && t.WriteTxn? then t.(wFirst := true) else t
    case B(_, r) => t.(resp := r)
    case R(_, d, r) => if t.ReadTxn? then t.(data := d, resp := r) else t
    case _ => t
  }

  lemma GrownFits(m: Monitor, t: Transaction, n: nat, e: Event)
    requires Fits(m, t, n) && n < |Script(t)| && Answered(t) && Observe(m, e) != Broken
    requires e != NativeDone && !e.NativeData?
    ensures var u := Grown(t, n, e);
            && Fits(Observe(m, e), u, n + 1) && Answered(u) && n + 1 < |Script(u)|
            && Script(u)[..n + 1] == Script(t)[..n] + [e]
  {
    hide Decode;
  }

  lemma CompleteFits(m: Monitor, t: Transaction, n: nat, e: Event)
    requires Fits(m, t, n) && n < |Script(t)| && Observe(m, e) != Broken && (e == NativeDone || e.NativeData?)
    ensures Observe(m, e) == NoTxn && Script(t)[..n] + [e] == Script(t)
  {
    hide Decode;
  }

  /** A completed transaction joins the list of complete ones. */
  lemma ExplainedDone(log: seq<Event>, e: Event, ts: seq<Transaction>, t: Transaction, n: nat)
    requires Explained(log, ts, t, n) && Script(t)[..n] + [e] == Script(t)
    ensures Explained(log + [e], ts + [t], t, 0)
  {
    hide Script, Answered;
    assert (ts + [t])[..|ts|] == ts;
    assert log + [e] == Scripts(ts) + (Script(t)[..n] + [e]);
    assert log + [e] == Scripts(ts + [t]) + Script(t)[..0];
  }

  /** One more event of the transaction in progress. */
  lemma ExplainedMore(log: seq<Event>, e: Event, ts: seq<Transaction>, t: Transaction, n: nat, u: Transaction)
    requires Explained(log, ts, t, n) && Answered(u) && n + 1 < |Script(u)| && Script(u)[..n + 1] == Script(t)[..n] + [e]
    ensures Explained(log + [e], ts, u, n + 1)
  {
    hide Script, Answered;
    assert log + [e] == Scripts(ts) + (Script(t)[..n] + [e]);
  }

  lemma ExplainedNothing(t: Transaction)
    requires Answered(t)
    ensures Explained([], [], t, 0)
  {
    hide Answered;
    assert Scripts([]) + Script(t)[..0] == [];
  }

  lemma {:induction false} Explain(log: seq<Event>) returns (ts: seq<Transaction>, t: Transaction, n: nat)
    requires Watch(NoTxn, log) != Broken
    ensures Explained(log, ts, t, n) && Fits(Watch(NoTxn, log), t, n)
    decreases |log|
  {
    hide Observe, Script, Grown, Fits, Answered, Scripts, Decode;
    if log == [] {
      ts, t, n := [], WriteTxn(0, 0, 0, false, DECERR), 0;
      FitsAtRest(t);
      ExplainedNothing(t);
    } else {
      hide Explained;
      var before, e := log[..|log| - 1], log[|log| - 1];
      var m := Watch(NoTxn, before);
      BrokenStays(m, e);
      ts, t, n := Explain(before);
      ExplainedParts(before, ts, t, n);
      assert log == before + [e];
      if e == NativeDone || e.NativeData? {
        CompleteFits(m, t, n, e);
        ExplainedDone(before, e, ts, t, n);
        FitsAtRest(t);
        ts, n := ts + [t], 0;
      } else {
        GrownFits(m, t, n, e);
        ExplainedMore(before, e, ts, t, n, Grown(t, n, e));
        t, n := Grown(t, n, e), n + 1;
      }
    }
  }

  lemma ExplainedParts(log: seq<Event>, ts: seq<Transaction>, t: Transaction, n: nat)
    requires Explained(log, ts, t, n)
    ensures Answered(t) && n < |Script(t)|
  {
  }

  lemma FitsAtRest(t: Transaction)
    ensures Fits(NoTxn, t, 0) && 0 < |Script(t)|
    ensures t == WriteTxn(0, 0, 0, false, DECERR) ==> Answered(t)
  {
  }

  lemma BrokenStays(m: Monitor, e: Event)
    ensures m == Broken ==> Observe(m, e) == Broken
  {
  }

  /** The main result: whatever the targets and the native master do, the events of a run are
      complete transactions one after another, then the beginning of at most one more. Each
      write has one AW and one W handshake, in either order, both at the window Decode names
      and with the accepted payload, before its one response; each read one AR, and the data
      of that window. The bridge is idle exactly between transactions. */
  lemma RunIsTransactions(y: Sys, ins: seq<Inputs>) returns (ts: seq<Transaction>, t: Transaction, n: nat)
    requires Initial(y) && LegalRun(y, ins)
    ensures Explained(Log(y, ins), ts, t, n)
    ensures n == 0 <==> Run(y, ins).b.state == Idle
  {
    hide Inv, Observe, Explained, Script, Watch, Log, Run, Initial, LegalRun;
    RunFollows(y, ins);
    ts, t, n := Explain(Log(y, ins));
  }

  // ------------------------------------------------------------------
  // Consequences in every reachable state
  // ------------------------------------------------------------------

  /** Whenever the bridge is idle nothing is left over: no busy flag, no terminator flag, and
      no target owes an answer. */
  lemma IdleIsClear(y: Sys, ins: seq<Inputs>)
    requires Initial(y) && LegalRun(y, ins) && Run(y, ins).b.state == Idle
    ensures var z := Run(y, ins);
            && !z.x.wrBusy && !z.x.rdBusy && !z.x.errAwSeen && !z.x.errWSeen && !z.x.errBvalid && !z.x.errRvalid
            && z.p0 == CLEAR && z.p1 == CLEAR && z.p2 == CLEAR
  {
    hide Step, LegalRun, Run, Log, Watch;
    RunFollows(y, ins);
  }

  /** Section A3.2.1 of ARM IHI 0022E at every target's pins: VALID stays up, with the same
      payload, until READY. */
  predicate Held(f1: Fwd, s1: Bwd, f2: Fwd) {
    && (f1.awvalid && !s1.awready ==> f2.awvalid && f2.awaddr == f1.awaddr)
    && (f1.wvalid && !s1.wready ==> f2.wvalid && f2.wdata == f1.wdata && f2.wstrb == f1.wstrb)
    && (f1.arvalid && !s1.arready ==> f2.arvalid && f2.araddr == f1.araddr)
  }

  lemma HeldStep(m1: Monitor, m2: Monitor, x1: XbarRegs, x2: XbarRegs, f1: Fwd, f2: Fwd, t: Targets, k: u2, q: bool, r: bool)
    requires k != NO_MATCH && Open(m1) && XbarAt(m1, x1) && Drives(m1, f1, q) && Answers(m1, XbarBack(x1, f1, t))
    requires Open(m2) && XbarAt(m2, x2) && Drives(m2, f2, r)
    requires m2 == After(m1, f1, XbarBack(x1, f1, t)) || After(m1, f1, XbarBack(x1, f1, t)).NoTxn?
    ensures Held(XbarForward(x1, f1, k), t.Of(k), XbarForward(x2, f2, k))
  {
    hide Decode, Terminator;
  }

  lemma HeldUntilReady(y: Sys, ins: seq<Inputs>, i1: Inputs, i2: Inputs, k: u2)
    requires Initial(y) && LegalRun(y, ins) && Legal(Run(y, ins), i1) && k != NO_MATCH
    ensures Held(Pins(Run(y, ins), i1, k), i1.t.Of(k), Pins(Step(Run(y, ins), i1), i2, k))
  {
    hide Initial, LegalRun, Run, Log, Watch, Held, XbarForward, XbarBack, XbarNext, BridgeDrive, BridgeNext, XbarAt, PortsAt,
         NotStuck, Drives, Answers, After, Decode;
    var z := Run(y, ins);
    RunFollows(y, ins);
    CurrentInv(z, i1);
    InvStep(z, i1);
    CurrentInv(Step(z, i1), i2);
    CurrentOfPoint(Step(z, i1).b, i2.req);
    HeldStep(Current(z.b, i1.req), Current(Step(z, i1).b, i2.req), z.x, Step(z, i1).x, Drive(z, i1), Drive(Step(z, i1), i2),
             i1.t, k, i1.req.rready, i2.req.rready);
  }

  lemma CurrentOfPoint(b: BridgeRegs, req: Req)
    ensures Current(b, req) == Point(b) || Point(b).NoTxn?
  {
  }

  /** Whether the slave at the open transaction's window offers what is due next. */
  predicate Offers(m: Monitor, s: Bwd, rready: bool) {
    match m
    case Write(_, _, _, aw, w) => (!aw && s.awready) || (!w && s.wready) || (aw && w && s.bvalid)
    case Read(_, sent) => (!sent && s.arready) || (sent && s.rvalid && rready)
    case _ => false
  }

  lemma OfferTaken(m: Monitor, x: XbarRegs, f: Fwd, t: Targets, rready: bool)
    requires Open(m) && XbarAt(m, x) && Drives(m, f, rready) && Answers(m, XbarBack(x, f, t))
    ensures After(m, f, XbarBack(x, f, t)) != m
            <==> !m.NoTxn? && Offers(m, SlaveOf(x, t, Decode(m.addr)), rready)
  {
    hide Decode, Terminator;
  }

  /** No deadlock: in every reachable state, a cycle moves the open transaction on if and only if
      the one slave it is addressed to offers what is due. */
  lemma ProgressExactly(y: Sys, ins: seq<Inputs>, i: Inputs)
    requires Initial(y) && LegalRun(y, ins) && Legal(Run(y, ins), i) && !Current(Run(y, ins).b, i.req).NoTxn?
    ensures var z := Run(y, ins);
            var m := Current(z.b, i.req);
            Open(m) && (Point(Step(z, i).b) != m <==> Offers(m, SlaveOf(z.x, i.t, Decode(m.addr)), i.req.rready))
  {
    hide Initial, LegalRun, Run, Log, Watch, XbarForward, XbarBack, XbarNext, BridgeDrive, BridgeNext, XbarAt, PortsAt,
         NotStuck, Drives, Answers, After, Decode, SlaveOf, Offers;
    var z := Run(y, ins);
    RunFollows(y, ins);
    CurrentInv(z, i);
    InvStep(z, i);
    OfferTaken(Current(z.b, i.req), z.x, Drive(z, i), i.t, i.req.rready);
  }

  // ------------------------------------------------------------------
  // Unmapped addresses never hang
  // ------------------------------------------------------------------

  /** A write to an unmapped address is taken at once and answered with DECERR in the next cycle,
      whatever the targets and the native master do. */
  lemma UnmappedWrite(y: Sys, ins: seq<Inputs>, i1: Inputs, i2: Inputs)
    requires Initial(y) && LegalRun(y, ins) && Run(y, ins).b.state == Idle
    requires i1.req.wvalid && i1.req.we && Decode(i1.req.addr) == NO_MATCH
    ensures var z := Run(y, ins);
            var z1 := Step(z, i1);
            && Response(z, i1).wready
            && Back(z1, i2).bvalid && Back(z1, i2).bresp == 3 && Response(z1, i2).bvalid
            && Step(z1, i2).b.state == Idle
  {
    hide LegalRun, Run, Log, Watch, Initial, Decode;
    RunFollows(y, ins);
  }

  lemma UnmappedReadShown(z: Sys, i: Inputs)
    requires z.b.state == RdWait && z.x.rdBusy && z.x.rdSel == NO_MATCH && z.x.errRvalid
    ensures Back(z, i).rvalid && Back(z, i).rresp == 3 && Response(z, i).rdata == 0
    ensures Response(z, i).rvalid == i.req.rready
    ensures if i.req.rready then Step(z, i).b.state == Idle
            else (Step(z, i).b == z.b && Step(z, i).x.rdBusy && Step(z, i).x.rdSel == NO_MATCH && Step(z, i).x.errRvalid)
  {
    hide Decode;
  }

  lemma {:induction false} UnmappedReadWaits(z: Sys, waits: seq<Inputs>)
    requires z.b.state == RdWait && z.x.rdBusy && z.x.rdSel == NO_MATCH && z.x.errRvalid
    requires forall i :: i in waits ==> !i.req.rready
    ensures var w := Run(z, waits); w.b.state == RdWait && w.x.rdBusy && w.x.rdSel == NO_MATCH && w.x.errRvalid
    decreases |waits|
  {
    hide Step;
    if waits == [] {
    } else {
      UnmappedReadWaits(z, waits[..|waits| - 1]);
      UnmappedReadShown(Run(z, waits[..|waits| - 1]), waits[|waits| - 1]);
    }
  }

  /** A read of an unmapped address shows DECERR with data 0 from the cycle after acceptance
      (waits may be empty) and completes in the first cycle the native master is ready. */
  lemma UnmappedRead(y: Sys, ins: seq<Inputs>, i1: Inputs, waits: seq<Inputs>, i2: Inputs)
    requires Initial(y) && LegalRun(y, ins) && Run(y, ins).b.state == Idle
    requires i1.req.wvalid && !i1.req.we && Decode(i1.req.addr) == NO_MATCH
    requires forall i :: i in waits ==> !i.req.rready
    ensures var w := Run(Step(Run(y, ins), i1), waits);
            && Response(Run(y, ins), i1).wready
            && Back(w, i2).rvalid && Back(w, i2).rresp == 3 && Response(w, i2).rdata == 0
            && Response(w, i2).rvalid == i2.req.rready
            && (Step(w, i2).b.state == if i2.req.rready then Idle else RdWait)
  {
    hide LegalRun, Run, Log, Watch, Initial, Decode;
    RunFollows(y, ins);
    UnmappedReadWaits(Step(Run(y, ins), i1), waits);
    UnmappedReadShown(Run(Step(Run(y, ins), i1), waits), i2);
  }

  // ------------------------------------------------------------------
  // The two modules wired together
  // ------------------------------------------------------------------

  class Bus {
    const bridge: MasterBridge
    const xbar: Crossbar

    constructor ()
      ensures fresh(bridge) && fresh(xbar) && bridge.state_q == Idle && xbar.Regs() == XBAR_RESET
    {
      bridge := new MasterBridge();
      xbar := new Crossbar();
    }

    /** One clock cycle. What the bridge drives does not depend on what it is answered, so the
        combinational loop through the crossbar settles in two evaluations. What the targets owe
        (CLEAR here) is no part of the hardware. */
    method Cycle(i: Inputs) returns (m0: Fwd, m1: Fwd, m2: Fwd, rsp: Rsp)
      modifies bridge, xbar
      ensures var y := Sys(old(bridge.Regs()), old(xbar.Regs()), CLEAR, CLEAR, CLEAR);
              && m0 == Pins(y, i, 0) && m1 == Pins(y, i, 1) && m2 == Pins(y, i, 2) && rsp == Response(y, i)
              && bridge.Regs() == Step(y, i).b && xbar.Regs() == Step(y, i).x
    {
      hide BridgeDrive, BridgeNext, BridgeRespond, XbarForward, XbarBack, XbarNext;
      var axi, _, _ := bridge.Comb(i.req, i.t.t0);
      var s;
      m0, m1, m2, s := xbar.Comb(axi, i.t);
      var _, r, _ := bridge.Comb(i.req, s);
      rsp := r;
      bridge.Clock(i.req, s);
      xbar.Clock(axi, s);
    }
  }
}
