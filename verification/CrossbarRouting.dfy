/** The crossbar on its own, under a master that drives anything: exactly when the k-th W beat
    arrives at the target that the k-th AW address names.
 */
module CrossbarRouting {
  import opened AxiLite
  import opened BusSystem
  import opened Words

  /** What the master drives and what the targets answer in one cycle. */
  datatype Cycle = Cycle(f: Fwd, t: Targets)

  function Xbar(ins: seq<Cycle>): XbarRegs {
    if ins == [] then XBAR_RESET
    else
      var i, x := ins[|ins| - 1], Xbar(ins[..|ins| - 1]);
      XbarNext(x, i.f, XbarBack(x, i.f, i.t))
  }

  // ------------------------------------------------------------------
  // What arrives at the targets
  // ------------------------------------------------------------------

  /** The AW handshakes at the targets' pins, in order. */
  function AwArrivals(ins: seq<Cycle>): seq<Event> {
    if ins == [] then []
    else
      var i, x := ins[|ins| - 1], Xbar(ins[..|ins| - 1]);
      AwArrivals(ins[..|ins| - 1]) + AwPins(x, i.f, i.t)
  }

  /** The W handshakes at the targets' pins, in order. */
  function WArrivals(ins: seq<Cycle>): seq<Event> {
    if ins == [] then []
    else
      var i, x := ins[|ins| - 1], Xbar(ins[..|ins| - 1]);
      WArrivals(ins[..|ins| - 1]) + WPins(x, i.f, i.t)
  }

  /** The target of an arrival. */
  function Where(e: Event): u2 { if e.Aw? || e.W? then e.k else NO_MATCH }

  /** Each W beat arrives where its own address did: the k-th where the k-th did. */
  predicate WellRouted(ins: seq<Cycle>) {
    forall k :: 0 <= k < |AwArrivals(ins)| && k < |WArrivals(ins)| ==> Where(WArrivals(ins)[k]) == Where(AwArrivals(ins)[k])
  }

  // ------------------------------------------------------------------
  // What the master sees
  // ------------------------------------------------------------------

  /** A cycle at the master's port. */
  datatype Beat = Beat(f: Fwd, s: Bwd)

  function Trace(ins: seq<Cycle>): (tr: seq<Beat>)
    ensures |tr| == |ins|
  {
    if ins == [] then []
    else
      var i, x := ins[|ins| - 1], Xbar(ins[..|ins| - 1]);
      Trace(ins[..|ins| - 1]) + [Beat(i.f, XbarBack(x, i.f, i.t))]
  }

  /** The addresses the master has handed over. */
  function Aws(tr: seq<Beat>): seq<word> {
    if tr == [] then []
    else
      var b := tr[|tr| - 1];
      Aws(tr[..|tr| - 1]) + if AwHs(b.f, b.s) then [b.f.awaddr] else []
  }

  /** How many W beats, and how many responses, it has handed over or taken. */
  function Ws(tr: seq<Beat>): nat {
    if tr == [] then 0
    else
      var b := tr[|tr| - 1];
      Ws(tr[..|tr| - 1]) + if WHs(b.f, b.s) then 1 else 0
  }

  function Bs(tr: seq<Beat>): nat {
    if tr == [] then 0
    else
      var b := tr[|tr| - 1];
      Bs(tr[..|tr| - 1]) + if BHs(b.f, b.s) then 1 else 0
  }

  predicate SameWindow(a: word, b: word) { Decode(a) == Decode(b) }

  /** In cycle c the master hands over a W beat whose own address it hands over at some time. */
  predicate Paired(tr: seq<Beat>, c: nat) {
    c < |tr| && WHs(tr[c].f, tr[c].s) && Ws(tr[..c]) < |Aws(tr)|
  }

  /** The W beat of cycle c is in time for its own address: that address is the one of the open
      write, or no write is open and it is on the pins. An address of the same window will do. */
  predicate InTime(tr: seq<Beat>, c: nat)
    requires Paired(tr, c)
  {
    var own, before := Aws(tr)[Ws(tr[..c])], Aws(tr[..c]);
    if |before| > Bs(tr[..c]) then SameWindow(own, before[|before| - 1]) else SameWindow(own, tr[c].f.awaddr)
  }

  // ------------------------------------------------------------------
  // The crossbar's registers in terms of what the master sees
  // ------------------------------------------------------------------

  /** The write side is busy while one write is open, and latches that write's window. */
  predicate Tracks(x: XbarRegs, tr: seq<Beat>) {
    var aws := Aws(tr);
    && |aws| == Bs(tr) + (if x.wrBusy then 1 else 0)
    && (x.wrBusy ==> x.wrSel == Decode(aws[|aws| - 1]))
  }

  lemma TracksStep(x: XbarRegs, tr: seq<Beat>, f: Fwd, t: Targets)
    requires Tracks(x, tr)
    ensures Tracks(XbarNext(x, f, XbarBack(x, f, t)), tr + [Beat(f, XbarBack(x, f, t))])
  {
    hide Decode, SlaveOf, Terminator;
    var s := XbarBack(x, f, t);
    assert (tr + [Beat(f, s)])[..|tr|] == tr;
    assert !(AwHs(f, s) && BHs(f, s));
  }

  lemma {:induction false} AlwaysTracks(ins: seq<Cycle>)
    ensures Tracks(Xbar(ins), Trace(ins))
    decreases |ins|
  {
    hide XbarNext, XbarBack;
    if ins == [] {
    } else {
      hide Tracks;
      var i := ins[|ins| - 1];
      AlwaysTracks(ins[..|ins| - 1]);
      TracksStep(Xbar(ins[..|ins| - 1]), Trace(ins[..|ins| - 1]), i.f, i.t);
    }
  }

  // ------------------------------------------------------------------
  // Prefixes
  // ------------------------------------------------------------------

  lemma {:induction false} PrefixRun(ins: seq<Cycle>, c: nat)
    requires c <= |ins|
    ensures Trace(ins)[..c] == Trace(ins[..c])
    ensures AwArrivals(ins[..c]) <= AwArrivals(ins) && WArrivals(ins[..c]) <= WArrivals(ins)
    decreases |ins|
  {
    hide AwPins, WPins, Xbar, XbarBack;
    if c < |ins| {
      PrefixRun(ins[..|ins| - 1], c);
      assert ins[..|ins| - 1][..c] == ins[..c];
    } else {
      assert ins[..c] == ins;
    }
  }

  lemma {:induction false} PrefixTrace(tr: seq<Beat>, c: nat)
    requires c <= |tr|
    ensures Aws(tr[..c]) <= Aws(tr) && Ws(tr[..c]) <= Ws(tr)
    decreases |tr|
  {
    if c < |tr| {
      PrefixTrace(tr[..|tr| - 1], c);
      assert tr[..|tr| - 1][..c] == tr[..c];
    } else {
      assert tr[..c] == tr;
    }
  }

  // ------------------------------------------------------------------
  // Where everything lands
  // ------------------------------------------------------------------

  /** Every arrival is the address handed over at that place, at the window it decodes to. */
  predicate Lands(arrivals: seq<Event>, aws: seq<word>) {
    |arrivals| == |aws| && forall k :: 0 <= k < |aws| ==> arrivals[k] == Aw(Decode(aws[k]), aws[k])
  }

  lemma LandsMore(arrivals: seq<Event>, aws: seq<word>, a: word)
    requires Lands(arrivals, aws)
    ensures Lands(arrivals + [Aw(Decode(a), a)], aws + [a])
  {
    hide Decode;
  }

  /** The addresses land, in the order handed over, each at the window it decodes to. */
  lemma {:induction false} AddressesLand(ins: seq<Cycle>)
    ensures Lands(AwArrivals(ins), Aws(Trace(ins)))
    decreases |ins|
  {
    hide AwPins, Xbar, XbarBack, Decode;
    if ins == [] {
    } else {
      hide Lands;
      var i, before := ins[|ins| - 1], ins[..|ins| - 1];
      var b := Trace(ins)[|ins| - 1];
      AddressesLand(before);
      AwRouted(Xbar(before), i.f, i.t);
      assert Trace(ins)[..|ins| - 1] == Trace(before);
      if AwHs(b.f, b.s) {
        LandsMore(AwArrivals(before), Aws(Trace(before)), i.f.awaddr);
      } else {
        assert AwArrivals(ins) == AwArrivals(before) && Aws(Trace(ins)) == Aws(Trace(before));
      }
    }
  }

  lemma {:induction false} BeatsCounted(ins: seq<Cycle>)
    ensures |WArrivals(ins)| == Ws(Trace(ins))
    decreases |ins|
  {
    hide WPins, Xbar, XbarBack, WrSelEff;
    if ins == [] {
    } else {
      var i, before := ins[|ins| - 1], ins[..|ins| - 1];
      BeatsCounted(before);
      WRouted(Xbar(before), i.f, i.t);
      assert Trace(ins)[..|ins| - 1] == Trace(before);
    }
  }

  /** The W beat handed over in the last cycle. */
  lemma LastBeatLands(ins: seq<Cycle>)
    requires ins != []
    requires var b := Trace(ins)[|ins| - 1]; WHs(b.f, b.s)
    ensures var x, f := Xbar(ins[..|ins| - 1]), ins[|ins| - 1].f;
            && |WArrivals(ins)| > 0 && Ws(Trace(ins)[..|ins| - 1]) == |WArrivals(ins)| - 1
            && WArrivals(ins)[|WArrivals(ins)| - 1] == W(WrSelEff(x, f), f.wdata, f.wstrb)
  {
    hide WPins, Xbar, XbarBack;
    var i, before := ins[|ins| - 1], ins[..|ins| - 1];
    BeatsCounted(before);
    WRouted(Xbar(before), i.f, i.t);
    assert Trace(ins)[..|ins| - 1] == Trace(before);
  }

  /** The W beat of cycle c, in terms of the crossbar's select of that cycle. */
  lemma BeatLands(ins: seq<Cycle>, c: nat)
    requires c < |ins| && WHs(Trace(ins)[c].f, Trace(ins)[c].s)
    ensures var tr, x := Trace(ins), Xbar(ins[..c]);
            && Trace(ins)[c].f == ins[c].f && Ws(tr[..c]) < |WArrivals(ins)|
            && WArrivals(ins)[Ws(tr[..c])] == W(WrSelEff(x, ins[c].f), ins[c].f.wdata, ins[c].f.wstrb)
  {
    hide WPins, Xbar, XbarBack, WrSelEff, AwArrivals;
    var now := ins[..c + 1];
    PrefixRun(ins, c + 1);
    assert Trace(now)[c] == Trace(ins)[c];
    assert now[..c] == ins[..c];
    assert Trace(now)[..c] == Trace(ins)[..c];
    LastBeatLands(now);
  }

  /** One beat: it lands with its own address exactly when it is in time for it. */
  lemma BeatInTime(ins: seq<Cycle>, c: nat)
    requires Paired(Trace(ins), c)
    ensures var k := Ws(Trace(ins)[..c]);
            && k < |WArrivals(ins)| && k < |AwArrivals(ins)|
            && (Where(WArrivals(ins)[k]) == Where(AwArrivals(ins)[k]) <==> InTime(Trace(ins), c))
  {
    hide Decode, Xbar, WArrivals, AwArrivals, XbarBack;
    BeatLands(ins, c);
    AddressesLand(ins);
    AlwaysTracks(ins[..c]);
    PrefixRun(ins, c);
    PrefixTrace(Trace(ins), c);
  }

  /** The cycle in which the k-th beat was handed over. */
  lemma {:induction false} CycleOfBeat(tr: seq<Beat>, k: nat) returns (c: nat)
    requires k < Ws(tr)
    ensures c < |tr| && WHs(tr[c].f, tr[c].s) && Ws(tr[..c]) == k
    decreases |tr|
  {
    var before := tr[..|tr| - 1];
    if k < Ws(before) {
      c := CycleOfBeat(before, k);
      assert before[..c] == tr[..c];
    } else {
      c := |tr| - 1;
    }
  }

  predicate AllInTime(tr: seq<Beat>) { forall c :: 0 <= c < |tr| && Paired(tr, c) ==> InTime(tr, c) }

  /** For every master and all targets: the crossbar routes every beat with its own address if
      and only if the master hands over every beat in time for it. */
  lemma RoutedExactly(ins: seq<Cycle>)
    ensures WellRouted(ins) <==> AllInTime(Trace(ins))
  {
    if WellRouted(ins) {
      RoutedInTime(ins);
    }
    if AllInTime(Trace(ins)) {
      InTimeRouted(ins);
    }
  }

  lemma RoutedInTime(ins: seq<Cycle>)
    requires WellRouted(ins)
    ensures AllInTime(Trace(ins))
  {
    hide Trace, Paired, InTime, WArrivals, AwArrivals, Where;
    forall c | 0 <= c < |Trace(ins)| && Paired(Trace(ins), c)
      ensures InTime(Trace(ins), c)
    {
      BeatInTime(ins, c);
    }
  }

  lemma InTimeRouted(ins: seq<Cycle>)
    requires AllInTime(Trace(ins))
    ensures WellRouted(ins)
  {
    hide Trace, Paired, InTime, WArrivals, AwArrivals, Where;
    forall k | 0 <= k < |AwArrivals(ins)| && k < |WArrivals(ins)|
      ensures Where(WArrivals(ins)[k]) == Where(AwArrivals(ins)[k])
    {
      BeatsCounted(ins);
      AddressesLand(ins);
      var c := CycleOfBeat(Trace(ins), k);
      PairedAt(Trace(ins), c);
      BeatInTime(ins, c);
    }
  }

  lemma PairedAt(tr: seq<Beat>, c: nat)
    requires c < |tr| && WHs(tr[c].f, tr[c].s) && Ws(tr[..c]) < |Aws(tr)|
    ensures Paired(tr, c)
  {
  }

  // ------------------------------------------------------------------
  // A discipline a master can keep
  // ------------------------------------------------------------------

  /** In cycle c the beat's own address is the one of the open write, or no write is open and the
      master is driving it. */
  predicate OwnOpen(tr: seq<Beat>, c: nat)
    requires c < |tr|
  {
    var aws, bs, ws := |Aws(tr[..c])|, Bs(tr[..c]), Ws(tr[..c]);
    if aws > bs then ws == aws - 1 else ws == aws && tr[c].f.awvalid
  }

  /** Section A3.2.1 of ARM IHI 0022E: AWVALID and the address stay until AWREADY. */
  predicate AddressHeld(tr: seq<Beat>) {
    forall c :: 0 <= c < |tr| - 1 && tr[c].f.awvalid && !tr[c].s.awready ==>
                  (tr[c + 1].f.awvalid && tr[c + 1].f.awaddr == tr[c].f.awaddr)
  }

  predicate BeatsOwnOpen(tr: seq<Beat>) { forall c :: 0 <= c < |tr| && WHs(tr[c].f, tr[c].s) ==> OwnOpen(tr, c) }

  predicate Disciplined(tr: seq<Beat>) {
    AddressHeld(tr) && BeatsOwnOpen(tr)
  }

  lemma NotAll(tr: seq<Beat>, c: nat)
    requires c <= |tr| && |Aws(tr[..c])| < |Aws(tr)|
    ensures c < |tr|
  {
    assert tr[..|tr|] == tr;
  }

  /** An address on the pins is the next one to be handed over, if any is. */
  lemma {:induction false} HeldIsNext(tr: seq<Beat>, c: nat)
    requires AddressHeld(tr) && c < |tr| && tr[c].f.awvalid && |Aws(tr[..c])| < |Aws(tr)|
    ensures Aws(tr)[|Aws(tr[..c])|] == tr[c].f.awaddr
    decreases |tr| - c
  {
    var n := |Aws(tr[..c])|;
    assert tr[..c + 1][..c] == tr[..c];
    PrefixTrace(tr, c + 1);
    if tr[c].s.awready {
      assert Aws(tr[..c + 1])[n] == tr[c].f.awaddr;
    } else {
      assert |Aws(tr[..c + 1])| == n;
      NotAll(tr, c + 1);
      HeldIsNext(tr, c + 1);
    }
  }

  lemma OwnOpenInTime(tr: seq<Beat>, c: nat)
    requires AddressHeld(tr) && Paired(tr, c) && OwnOpen(tr, c)
    ensures InTime(tr, c)
  {
    hide Decode, AddressHeld;
    var before := tr[..c];
    PrefixTrace(tr, c);
    if |Aws(before)| > Bs(before) {
      assert Aws(tr)[|Aws(before)| - 1] == Aws(before)[|Aws(before)| - 1];
    } else {
      HeldIsNext(tr, c);
    }
  }

  /** A disciplined master's beats all arrive with their addresses. */
  lemma DisciplineSuffices(ins: seq<Cycle>)
    requires Disciplined(Trace(ins))
    ensures WellRouted(ins)
  {
    hide InTime, OwnOpen, WellRouted, AddressHeld;
    var tr := Trace(ins);
    forall c | 0 <= c < |tr| && Paired(tr, c)
      ensures InTime(tr, c)
    {
      OwnOpenInTime(tr, c);
    }
    RoutedExactly(ins);
  }

  // ------------------------------------------------------------------
  // The bridge keeps the discipline
  // ------------------------------------------------------------------

  /** What the bridge drives over a run, as the crossbar sees it. */
  function FromBridge(y: Sys, ins: seq<Inputs>): (cs: seq<Cycle>)
    ensures |cs| == |ins|
  {
    if ins == [] then []
    else
      FromBridge(y, ins[..|ins| - 1])
      + [Cycle(Drive(Run(y, ins[..|ins| - 1]), ins[|ins| - 1]), ins[|ins| - 1].t)]
  }

  lemma {:induction false} SameXbar(y: Sys, ins: seq<Inputs>)
    requires Initial(y)
    ensures Xbar(FromBridge(y, ins)) == Run(y, ins).x
    decreases |ins|
  {
    hide XbarNext, XbarBack, BridgeDrive, BridgeNext, PortNext, XbarForward;
    if ins == [] {
    } else {
      SameXbar(y, ins[..|ins| - 1]);
      assert FromBridge(y, ins)[..|ins| - 1] == FromBridge(y, ins[..|ins| - 1]);
    }
  }

  /** One more cycle at the master's port of the system. */
  lemma TraceOfBridge(y: Sys, ins: seq<Inputs>)
    requires Initial(y) && ins != []
    ensures var before, i := ins[..|ins| - 1], ins[|ins| - 1];
            Trace(FromBridge(y, ins))
            == Trace(FromBridge(y, before)) + [Beat(Drive(Run(y, before), i), Back(Run(y, before), i))]
  {
    hide XbarBack, BridgeDrive, Run, Xbar;
    SameXbar(y, ins[..|ins| - 1]);
    assert FromBridge(y, ins)[..|ins| - 1] == FromBridge(y, ins[..|ins| - 1]);
  }

  /** The handshakes counted so far belong to complete writes and to what is done of m. */
  predicate Counted(m: Monitor, tr: seq<Beat>) {
    && |Aws(tr)| == Bs(tr) + (if m.Write? && m.aw then 1 else 0)
    && Ws(tr) == Bs(tr) + (if m.Write? && m.w then 1 else 0)
  }

  lemma CountedStep(m: Monitor, tr: seq<Beat>, f: Fwd, s: Bwd, rready: bool)
    requires Open(m) && Drives(m, f, rready) && Answers(m, s) && Counted(m, tr)
    ensures Counted(After(m, f, s), tr + [Beat(f, s)])
    ensures WHs(f, s) ==> OwnOpen(tr + [Beat(f, s)], |tr|)
  {
    assert (tr + [Beat(f, s)])[..|tr|] == tr;
  }

  lemma CountedFresh(b: BridgeRegs, req: Req, tr: seq<Beat>)
    requires Counted(Point(b), tr)
    ensures Counted(Current(b, req), tr)
  {
  }

  lemma BridgeCountsStep(z: Sys, i: Inputs, tr: seq<Beat>)
    requires Inv(z) && Legal(z, i) && Counted(Point(z.b), tr)
    ensures var b := Beat(Drive(z, i), Back(z, i));
            Counted(Point(Step(z, i).b), tr + [b]) && (WHs(b.f, b.s) ==> OwnOpen(tr + [b], |tr|))
  {
    hide Counted, OwnOpen, Point, Current, After, Drives, Answers, BridgeDrive, BridgeNext, XbarBack, XbarNext, XbarForward, Inv,
         Legal, XbarAt, PortsAt, NotSplit;
    CurrentInv(z, i);
    InvStep(z, i);
    CountedFresh(z.b, i.req, tr);
    CountedStep(Current(z.b, i.req), tr, Drive(z, i), Back(z, i), i.req.rready);
  }

  lemma {:induction false} BridgeCounts(y: Sys, ins: seq<Inputs>)
    requires Initial(y) && LegalRun(y, ins)
    ensures Counted(Point(Run(y, ins).b), Trace(FromBridge(y, ins)))
    ensures ins != [] && WHs(Trace(FromBridge(y, ins))[|ins| - 1].f, Trace(FromBridge(y, ins))[|ins| - 1].s) ==>
              OwnOpen(Trace(FromBridge(y, ins)), |ins| - 1)
    decreases |ins|
  {
    if ins == [] {
    } else {
      hide Counted, OwnOpen, Point, BridgeDrive, XbarBack, Inv, Step, Legal, FromBridge, Trace, Initial;
      var before, i := ins[..|ins| - 1], ins[|ins| - 1];
      BridgeCounts(y, before);
      RunFollows(y, before);
      TraceOfBridge(y, ins);
      BridgeCountsStep(Run(y, before), i, Trace(FromBridge(y, before)));
    }
  }

  /** An address the bridge is not rid of stays on its pins. */
  lemma BridgeHolds(z: Sys, i: Inputs, j: Inputs)
    requires Inv(z) && Legal(z, i) && Drive(z, i).awvalid && !Back(z, i).awready
    ensures Drive(Step(z, i), j).awvalid && Drive(Step(z, i), j).awaddr == Drive(z, i).awaddr
  {
    hide BridgeDrive, XbarBack, XbarAt, Decode, BridgeNext, XbarNext, XbarForward;
    CurrentInv(z, i);
    InvStep(z, i);
    CurrentInv(Step(z, i), j);
    CurrentOfPoint(Step(z, i).b, j.req);
  }

  lemma BeatsOwnOpenStep(tr: seq<Beat>, b: Beat)
    requires BeatsOwnOpen(tr) && (WHs(b.f, b.s) ==> OwnOpen(tr + [b], |tr|))
    ensures BeatsOwnOpen(tr + [b])
  {
    hide OwnOpen;
    var more := tr + [b];
    forall c | 0 <= c < |more| && WHs(more[c].f, more[c].s)
      ensures OwnOpen(more, c)
    {
      if c < |tr| {
        OwnOpenPrefix(tr, b, c);
      }
    }
  }

  lemma {:induction false} BridgeBeats(y: Sys, ins: seq<Inputs>)
    requires Initial(y) && LegalRun(y, ins)
    ensures BeatsOwnOpen(Trace(FromBridge(y, ins)))
    decreases |ins|
  {
    if ins == [] {
    } else {
      hide BeatsOwnOpen, OwnOpen, BridgeDrive, XbarBack, Step, Legal, Initial, FromBridge, Trace, Counted, Point, Run;
      TraceOfBridge(y, ins);
      BridgeBeats(y, ins[..|ins| - 1]);
      BridgeCounts(y, ins);
      var tr, i := Trace(FromBridge(y, ins)), ins[|ins| - 1];
      BeatsOwnOpenStep(Trace(FromBridge(y, ins[..|ins| - 1])), tr[|ins| - 1]);
    }
  }

  lemma AddressHeldStep(tr: seq<Beat>, a: Beat, b: Beat)
    requires AddressHeld(tr + [a])
    requires a.f.awvalid && !a.s.awready ==> b.f.awvalid && b.f.awaddr == a.f.awaddr
    ensures AddressHeld(tr + [a] + [b])
  {
    var now, more := tr + [a], tr + [a] + [b];
    forall c | 0 <= c < |more| - 1 && more[c].f.awvalid && !more[c].s.awready
      ensures more[c + 1].f.awvalid && more[c + 1].f.awaddr == more[c].f.awaddr
    {
      assert more[c] == now[c] && (c + 1 < |now| ==> more[c + 1] == now[c + 1]);
    }
  }

  lemma {:induction false} BridgeAddresses(y: Sys, ins: seq<Inputs>)
    requires Initial(y) && LegalRun(y, ins)
    ensures AddressHeld(Trace(FromBridge(y, ins)))
    decreases |ins|
  {
    if ins == [] {
    } else if |ins| == 1 {
      assert |Trace(FromBridge(y, ins))| == 1;
    } else {
      hide AddressHeld, BridgeDrive, XbarBack, Step, Legal, Initial, FromBridge, Trace, Inv;
      var before, i := ins[..|ins| - 1], ins[|ins| - 1];
      var first, j := before[..|before| - 1], before[|before| - 1];
      BridgeAddresses(y, before);
      TraceOfBridge(y, ins);
      TraceOfBridge(y, before);
      RunFollows(y, first);
      if Drive(Run(y, first), j).awvalid && !Back(Run(y, first), j).awready {
        BridgeHolds(Run(y, first), j, i);
      }
      AddressHeldStep(Trace(FromBridge(y, first)), Beat(Drive(Run(y, first), j), Back(Run(y, first), j)),
                      Beat(Drive(Run(y, before), i), Back(Run(y, before), i)));
    }
  }

  /** Over every run with legal targets the bridge holds its addresses, and hands over each beat
      while its own address is open or on the pins. */
  lemma BridgeKeepsDiscipline(y: Sys, ins: seq<Inputs>)
    requires Initial(y) && LegalRun(y, ins)
    ensures Disciplined(Trace(FromBridge(y, ins)))
  {
    hide Initial, LegalRun, FromBridge, Trace, OwnOpen, AddressHeld;
    BridgeBeats(y, ins);
    BridgeAddresses(y, ins);
  }

  lemma OwnOpenPrefix(tr: seq<Beat>, b: Beat, c: nat)
    requires c < |tr| && OwnOpen(tr, c)
    ensures OwnOpen(tr + [b], c)
  {
    assert (tr + [b])[..c] == tr[..c];
  }

  /** Behind the bridge the crossbar routes every beat with its own address. */
  lemma BridgeIsRouted(y: Sys, ins: seq<Inputs>)
    requires Initial(y) && LegalRun(y, ins)
    ensures WellRouted(FromBridge(y, ins)) && Xbar(FromBridge(y, ins)) == Run(y, ins).x
  {
    hide Initial, LegalRun, Disciplined, WellRouted;
    BridgeKeepsDiscipline(y, ins);
    DisciplineSuffices(FromBridge(y, ins));
    SameXbar(y, ins);
  }

  // ------------------------------------------------------------------
  // Masters that AXI allows and the crossbar misroutes
  // ------------------------------------------------------------------

  lemma MisroutedByOne(ins: seq<Cycle>, c: nat)
    requires c < |ins| && Paired(Trace(ins), c) && !InTime(Trace(ins), c)
    ensures !WellRouted(ins)
  {
    hide Paired, InTime, WellRouted;
    RoutedExactly(ins);
  }

  lemma OneMore(ins: seq<Cycle>, i: Cycle)
    ensures Xbar(ins + [i]) == XbarNext(Xbar(ins), i.f, XbarBack(Xbar(ins), i.f, i.t))
    ensures Trace(ins + [i]) == Trace(ins) + [Beat(i.f, XbarBack(Xbar(ins), i.f, i.t))]
  {
    assert (ins + [i])[..|ins|] == ins;
  }

  lemma ArrivalsOneMore(ins: seq<Cycle>, i: Cycle)
    ensures AwArrivals(ins + [i]) == AwArrivals(ins) + AwPins(Xbar(ins), i.f, i.t)
    ensures WArrivals(ins + [i]) == WArrivals(ins) + WPins(Xbar(ins), i.f, i.t)
  {
    assert (ins + [i])[..|ins|] == ins;
  }

  lemma CountsOneMore(tr: seq<Beat>, b: Beat)
    ensures Aws(tr + [b]) == Aws(tr) + if AwHs(b.f, b.s) then [b.f.awaddr] else []
    ensures Ws(tr + [b]) == Ws(tr) + if WHs(b.f, b.s) then 1 else 0
    ensures Bs(tr + [b]) == Bs(tr) + if BHs(b.f, b.s) then 1 else 0
  {
    assert (tr + [b])[..|tr|] == tr;
  }

  const EARLY := QUIET.(wdata := 7, wstrb := 15, wvalid := true)
  const ADDRESS := QUIET.(awaddr := 0x1000_0000, awvalid := true)

  /** A master that sends W a cycle before AW: only the idle value of AWADDR is there to route it,
      so target 0 gets the address and the terminator keeps the data. */
  lemma EarlyDataMisroutes(t: Targets)
    requires t.t0.awready
    ensures var run := [Cycle(EARLY, t), Cycle(ADDRESS, t)];
            && !WellRouted(run) && Xbar(run).errWSeen
            && WArrivals(run) == [W(NO_MATCH, 7, 15)] && AwArrivals(run) == [Aw(0, 0x1000_0000)]
  {
    hide Xbar, Trace, Aws, Ws, Bs, WArrivals, AwArrivals, WellRouted, Paired, InTime;
    var early, address := Cycle(EARLY, t), Cycle(ADDRESS, t);
    var none: seq<Cycle> := [];
    NothingYet();
    OneMore(none, early);
    OneMore([early], address);
    ArrivalsOneMore(none, early);
    ArrivalsOneMore([early], address);
    assert none + [early] == [early] && [early] + [address] == [early, address];
    EarlyArrives(t, Xbar([early]));
    var tr := Trace([early, address]);
    assert tr == [tr[0], tr[1]];
    TwoBeats(tr[0], tr[1]);
    MisroutedByOne([early, address], 0);
  }

  lemma EarlyArrives(t: Targets, x: XbarRegs)
    requires t.t0.awready && x == XbarNext(XBAR_RESET, EARLY, XbarBack(XBAR_RESET, EARLY, t))
    ensures WHs(EARLY, XbarBack(XBAR_RESET, EARLY, t)) && !AwHs(EARLY, XbarBack(XBAR_RESET, EARLY, t))
    ensures AwHs(ADDRESS, XbarBack(x, ADDRESS, t)) && XbarNext(x, ADDRESS, XbarBack(x, ADDRESS, t)).errWSeen
    ensures WPins(XBAR_RESET, EARLY, t) == [W(NO_MATCH, 7, 15)] && AwPins(XBAR_RESET, EARLY, t) == []
    ensures WPins(x, ADDRESS, t) == [] && AwPins(x, ADDRESS, t) == [Aw(0, 0x1000_0000)]
  {
    WRouted(XBAR_RESET, EARLY, t);
    AwRouted(XBAR_RESET, EARLY, t);
    WRouted(x, ADDRESS, t);
    AwRouted(x, ADDRESS, t);
  }

  lemma TwoBeats(b0: Beat, b1: Beat)
    requires WHs(b0.f, b0.s) && !AwHs(b0.f, b0.s) && AwHs(b1.f, b1.s)
    requires b0.f.awaddr == 0 && b1.f.awaddr == 0x1000_0000
    ensures Paired([b0, b1], 0) && !InTime([b0, b1], 0)
  {
    hide Aws, Ws, Bs;
    NothingCounted();
    CountsOneMore([], b0);
    CountsOneMore([b0], b1);
    assert [] + [b0] == [b0] && [b0] + [b1] == [b0, b1] && [b0, b1][..0] == [];
  }

  lemma NothingYet()
    ensures Xbar([]) == XBAR_RESET && Trace([]) == [] && AwArrivals([]) == [] && WArrivals([]) == []
  {
  }

  lemma NothingCounted()
    ensures Aws([]) == [] && Ws([]) == 0 && Bs([]) == 0
  {
  }

  const FIRST := QUIET.(awaddr := 0x1000_0000, awvalid := true, wdata := 1, wstrb := 15, wvalid := true)
  const SECOND := QUIET.(awaddr := 0x1000_1000, awvalid := true, wdata := 2, wstrb := 15, wvalid := true)
  const WAITING := QUIET.(awaddr := 0x1000_1000, awvalid := true)

  lemma FourBeats(b0: Beat, b1: Beat, b2: Beat, b3: Beat)
    requires AwHs(b0.f, b0.s) && WHs(b0.f, b0.s) && !BHs(b0.f, b0.s) && b0.f.awaddr == 0x1000_0000
    requires !AwHs(b1.f, b1.s) && WHs(b1.f, b1.s) && !AwHs(b2.f, b2.s) && AwHs(b3.f, b3.s) && b3.f.awaddr == 0x1000_1000
    ensures Paired([b0, b1, b2, b3], 1) && !InTime([b0, b1, b2, b3], 1)
  {
    hide Aws, Ws, Bs;
    var tr := [b0, b1, b2, b3];
    NothingCounted();
    CountsOneMore([], b0);
    CountsOneMore([b0], b1);
    CountsOneMore([b0, b1], b2);
    CountsOneMore([b0, b1, b2], b3);
    assert [] + [b0] == [b0] && [b0] + [b1] == [b0, b1] && [b0, b1] + [b2] == [b0, b1, b2];
    assert [b0, b1, b2] + [b3] == tr && tr[..1] == [b0];
  }

  /** A master that sends AW and W in lock-step but does not wait for the response: the second
      address is refused while the first write is open, and the second beat follows the first. */
  lemma LockStepMisroutes(t: Targets, t': Targets)
    requires t.t0.awready && t.t0.wready && !t.t0.bvalid && t'.t0.bvalid && t.t1.awready
    ensures !WellRouted([Cycle(FIRST, t), Cycle(SECOND, t), Cycle(WAITING, t'), Cycle(WAITING, t)])
  {
    hide Xbar, Trace, Aws, Ws, Bs, WellRouted, Paired, InTime;
    var c0, c1, c2, c3 := Cycle(FIRST, t), Cycle(SECOND, t), Cycle(WAITING, t'), Cycle(WAITING, t);
    var none: seq<Cycle> := [];
    NothingYet();
    OneMore(none, c0);
    OneMore([c0], c1);
    OneMore([c0, c1], c2);
    OneMore([c0, c1, c2], c3);
    assert none + [c0] == [c0] && [c0] + [c1] == [c0, c1] && [c0, c1] + [c2] == [c0, c1, c2];
    assert [c0, c1, c2] + [c3] == [c0, c1, c2, c3];
    var tr := Trace([c0, c1, c2, c3]);
    assert tr == [tr[0], tr[1], tr[2], tr[3]];
    FourBeats(tr[0], tr[1], tr[2], tr[3]);
    MisroutedByOne([c0, c1, c2, c3], 1);
  }
}
