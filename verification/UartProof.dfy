/** Sampling a printed line gives back the bytes, for every bit width and every pacing. */
module UartProof {
  import opened Arithmetic
  import opened Uart
  import opened Words

  lemma FrameLength(b: byte, w: nat)
    ensures |Frame(b, w)| == 10 * w
  {
    hide Level, Hold;
    assert |FirstBits(b, 1, w)| == w && |FirstBits(b, 2, w)| == 2 * w && |FirstBits(b, 3, w)| == 3 * w;
    assert |FirstBits(b, 4, w)| == 4 * w && |FirstBits(b, 5, w)| == 5 * w && |FirstBits(b, 6, w)| == 6 * w;
    assert |FirstBits(b, 7, w)| == 7 * w && |FirstBits(b, 8, w)| == 8 * w && |FirstBits(b, 9, w)| == 9 * w;
  }

  // ------------------------------------------------------------------
  // Bits of a byte
  // ------------------------------------------------------------------

  /** The value of the s lowest bits. */
  function Low(b: byte, s: nat): nat { if s == 0 then 0 else Low(b, s - 1) + (if Bit(b, s - 1) then Pow2(s - 1) else 0) }

  lemma {:induction false} LowIsRemainder(b: byte, s: nat)
    ensures Low(b, s) == b % Pow2(s)
  {
    if s == 0 {
    } else {
      LowIsRemainder(b, s - 1);
      NextBit(b, Pow2(s - 1));
    }
  }

  lemma NextBit(b: nat, p: nat)
    requires p > 0
    ensures b % (2 * p) == b % p + (if (b / p) % 2 == 1 then p else 0)
  {
    var q, r := b / p, b % p;
    assert b == p * q + r;
    var h := q / 2;
    assert q == 2 * h + q % 2;
    assert p * q == (2 * p) * h + p * (q % 2);
    var t := p * (q % 2) + r;
    assert t < 2 * p;
    DivModUnique(b, 2 * p, h, t);
  }

  lemma AllBits(b: byte)
    ensures Low(b, 8) == b
  {
    hide Low, Bit;
    LowIsRemainder(b, 8);
    assert Pow2(8) == 256;
  }

  // ------------------------------------------------------------------
  // Places in a frame
  // ------------------------------------------------------------------

  /** n periods of w cycles. */
  function Span(n: nat, w: nat): nat { if n == 0 then 0 else Span(n - 1, w) + w }

  /** Cycles of a frame that have been sent before cycle c of bit k. */
  function Elapsed(k: nat, c: nat, w: nat): nat { Span(k, w) + c }

  lemma SpanNext(n: nat, w: nat)
    requires n > 0
    ensures Span(n, w) == Span(n - 1, w) + w
  {
  }

  lemma {:induction false} SpanIsProduct(n: nat, w: nat)
    ensures Span(n, w) == w * n
  {
    if n == 0 {
    } else {
      SpanIsProduct(n - 1, w);
      assert w * n == w * (n - 1) + w;
    }
  }

  /** The bit of a frame that place n is in, with bits of w cycles. */
  function BitAt(n: nat, w: nat): (k: nat)
    requires w > 0
  {
    n / w
  }

  /** Every place below the end of a frame is a cycle of the bit it is in. */
  lemma PlaceIs(k: nat, c: nat, w: nat)
    requires c < w
    ensures BitAt(Elapsed(k, c, w), w) == k
  {
    SpanIsProduct(k, w);
    DivModUnique(Elapsed(k, c, w), w, k, c);
  }

  lemma {:induction false} SpanBound(k: nat, w: nat)
    requires k <= 10
    ensures Span(k, w) + Span(10 - k, w) == 10 * w
    decreases k
  {
    if k == 0 {
      assert Span(1, w) == w && Span(2, w) == 2 * w && Span(3, w) == 3 * w && Span(4, w) == 4 * w && Span(5, w) == 5 * w;
      assert Span(6, w) == 6 * w && Span(7, w) == 7 * w && Span(8, w) == 8 * w && Span(9, w) == 9 * w;
    } else {
      SpanBound(k - 1, w);
      assert Span(10 - (k - 1), w) == Span(10 - k, w) + w;
    }
  }

  lemma SpanGrows(n: nat, w: nat)
    requires n > 0
    ensures Span(n, w) >= w
  {
  }

  /** The ten bits begin where they do. */
  lemma SpanIs(k: nat, w: nat)
    requires k <= 10
    ensures Span(k, w) == if k == 0 then 0 else if k == 1 then w else if k == 2 then 2 * w else if k == 3 then 3 * w
                          else if k == 4 then 4 * w else if k == 5 then 5 * w else if k == 6 then 6 * w
                          else if k == 7 then 7 * w else if k == 8 then 8 * w else if k == 9 then 9 * w else 10 * w
  {
    assert Span(1, w) == w && Span(2, w) == 2 * w && Span(3, w) == 3 * w && Span(4, w) == 4 * w && Span(5, w) == 5 * w;
    assert Span(6, w) == 6 * w && Span(7, w) == 7 * w && Span(8, w) == 8 * w && Span(9, w) == 9 * w;
  }

  /** The next cycle of a frame, or its end. */
  lemma NextPlace(k: nat, c: nat, v: nat)
    requires k < 10 && c < v
    ensures c + 1 < v ==> Elapsed(k, c + 1, v) == Elapsed(k, c, v) + 1 && Elapsed(k, c, v) + 1 < 10 * v
    ensures c + 1 == v ==> Elapsed(k + 1, 0, v) == Elapsed(k, c, v) + 1
    ensures c + 1 == v && k < 9 ==> Elapsed(k, c, v) + 1 < 10 * v
    ensures c + 1 == v && k == 9 ==> Elapsed(k, c, v) + 1 == 10 * v
  {
    SpanIs(k, v);
    SpanNext(k + 1, v);
  }

  // ------------------------------------------------------------------
  // What the monitor samples of a frame of any width
  // ------------------------------------------------------------------

  /** The place at which a monitor of width w takes its i-th sample. */
  function Due(i: nat, w: nat): nat { Span(i, w) + w / 2 }

  /** The value of the first i samples of a frame whose bits are v cycles wide. Behind its stop bit
      the line stays high. */
  function Heard(b: byte, i: nat, v: nat, w: nat): nat
    requires v > 0
  {
    if i == 0 then 0 else Heard(b, i - 1, v, w) + if Level(b, BitAt(Due(i, w), v)) then Pow2(i - 1) else 0
  }

  /** The monitor in the midst of sampling, n levels into the frame. */
  predicate Midway(m: Monitor, bytes: seq<nat>, b: byte, n: nat, v: nat, w: nat)
    requires v > 0
  {
    && m.mode == Sampling && m.bit < 8 && m.cnt == n - 1 && n <= m.target && m.target == Due(m.bit + 1, w)
    && m.acc == Heard(b, m.bit, v, w) && m.bytes == bytes
  }

  lemma Awakes(m: Monitor, b: byte, v: nat, w: nat)
    requires m.mode == Armed && v > 0 && w > 0
    ensures Midway(Sample(m, false, w), m.bytes, b, 1, v, w)
  {
    SpanNext(1, w);
  }

  lemma MidStep(m: Monitor, bytes: seq<nat>, b: byte, n: nat, v: nat, w: nat)
    requires v > 0 && w > 0 && Midway(m, bytes, b, n, v, w)
    ensures var o := Sample(m, Level(b, BitAt(n, v)), w);
            if n == Due(8, w) then o.mode == AwaitingIdle && o.bytes == bytes + [Heard(b, 8, v, w)]
            else Midway(o, bytes, b, n + 1, v, w)
    ensures n <= Due(8, w)
  {
    hide Level, Pow2;
    var i := m.bit;
    assert Due(i + 2, w) == Due(i + 1, w) + w;
    DueGrows(i + 1, 8, w);
    if i < 7 {
      DueGrows(i + 2, 8, w);
    }
  }

  lemma {:induction false} DueGrows(i: nat, j: nat, w: nat)
    requires i <= j
    ensures Due(i, w) <= Due(j, w)
    decreases j
  {
    if i < j {
      DueGrows(i, j - 1, w);
    }
  }

  lemma OnlyAppends(m: Monitor, level: bool, w: nat)
    ensures m.bytes <= Sample(m, level, w).bytes
  {
  }

  /** The monitor once it has sampled n levels of the frame and of the idle line behind it: what it
      decodes first, whatever it hears after that. */
  predicate Follows(m: Monitor, bytes: seq<nat>, b: byte, n: nat, v: nat, w: nat)
    requires v > 0
  {
    if n == 0 then m.mode == Armed && m.bytes == bytes
    else if n <= Due(8, w) then Midway(m, bytes, b, n, v, w)
    else bytes + [Heard(b, 8, v, w)] <= m.bytes
  }

  lemma FollowsStep(m: Monitor, bytes: seq<nat>, b: byte, n: nat, v: nat, w: nat)
    requires v > 0 && w > 0 && Follows(m, bytes, b, n, v, w)
    ensures Follows(Sample(m, Level(b, BitAt(n, v)), w), bytes, b, n + 1, v, w)
  {
    hide Midway, Sample, Level;
    if n == 0 {
      StartIsLow(b);
      assert BitAt(0, v) == 0;
      Awakes(m, b, v, w);
      DueGrows(1, 8, w);
      SpanNext(1, w);
    } else if n <= Due(8, w) {
      MidStep(m, bytes, b, n, v, w);
    } else {
      OnlyAppends(m, Level(b, BitAt(n, v)), w);
    }
  }

  lemma StartIsLow(b: byte)
    ensures !Level(b, 0)
  {
  }

  // ------------------------------------------------------------------
  // Widths the monitor tolerates
  // ------------------------------------------------------------------

  /** The last data bit, of v cycles a bit, is still on the line when a monitor of width w samples it. */
  predicate Tolerates(v: nat, w: nat) { 8 * v <= 8 * w + w / 2 < 9 * v }

  /** Then so is every other. */
  lemma SamplesInPlace(i: nat, v: nat, w: nat)
    requires Tolerates(v, w) && 1 <= i <= 8
    ensures v > 0 && w > 0 && BitAt(Due(i, w), v) == i
  {
    SpanIs(i, v);
    SpanIs(i, w);
    assert Span(i, v) <= Due(i, w) < Span(i, v) + v;
    PlaceIs(i, Due(i, w) - Span(i, v), v);
  }

  lemma {:induction false} HeardIsLow(b: byte, i: nat, v: nat, w: nat)
    requires Tolerates(v, w) && i <= 8
    ensures v > 0 && Heard(b, i, v, w) == Low(b, i)
    decreases i
  {
    hide Bit, Pow2, Due;
    if i > 0 {
      HeardIsLow(b, i - 1, v, w);
      SamplesInPlace(i, v, w);
    }
  }

  /** The monitor inside a frame of a width it tolerates, n levels into it. */
  predicate InFrame(m: Monitor, bytes: seq<nat>, b: byte, n: nat, v: nat, w: nat)
    requires v > 0
  {
    if n == 0 then m.mode == Armed && m.bytes == bytes
    else if n <= Due(8, w) then Midway(m, bytes, b, n, v, w)
    else
      && m.bytes == bytes + [b]
      && (m.mode == Armed || m.mode == AwaitingIdle)
      && (m.mode == Armed && n <= 9 * v ==> Bit(b, 7)) && (n > 9 * v ==> m.mode == Armed)
  }

  lemma FrameStep(m: Monitor, bytes: seq<nat>, b: byte, k: nat, c: nat, v: nat, w: nat)
    requires Tolerates(v, w) && k < 10 && c < v && InFrame(m, bytes, b, Elapsed(k, c, v), v, w)
    ensures InFrame(Sample(m, Level(b, k), w), bytes, b, Elapsed(k, c, v) + 1, v, w)
  {
    hide Midway, Bit;
    var n := Elapsed(k, c, v);
    PlaceIs(k, c, v);
    SpanIs(k, v);
    SpanIs(8, w);
    if n == 0 {
      Awakes(m, b, v, w);
    } else if n <= Due(8, w) {
      MidStep(m, bytes, b, n, v, w);
      HeardIsLow(b, 8, v, w);
      AllBits(b);
    }
  }

  lemma FrameEnds(m: Monitor, bytes: seq<nat>, b: byte, v: nat, w: nat)
    requires Tolerates(v, w) && InFrame(m, bytes, b, 10 * v, v, w)
    ensures m.mode == Armed && m.bytes == bytes + [b]
  {
    SpanIs(8, w);
  }

  // ------------------------------------------------------------------
  // Lines
  // ------------------------------------------------------------------

  lemma {:induction false} ListenConcat(m: Monitor, p: seq<bool>, q: seq<bool>, w: nat)
    ensures Listen(m, p + q, w) == Listen(Listen(m, p, w), q, w)
    decreases |q|
  {
    hide Sample;
    if q == [] {
      assert p + q == p;
    } else {
      ListenConcat(m, p, q[..|q| - 1], w);
      assert (p + q)[..|p + q| - 1] == p + q[..|q| - 1];
    }
  }

  lemma {:induction false} HoldParses(m: Monitor, bytes: seq<nat>, b: byte, k: nat, c: nat, v: nat, w: nat)
    requires v > 0 && w > 0 && k < 10 && c <= v
    ensures var n := Listen(m, Hold(Level(b, k), c), w);
            && (Follows(m, bytes, b, Span(k, v), v, w) ==> Follows(n, bytes, b, Elapsed(k, c, v), v, w))
            && (Tolerates(v, w) && InFrame(m, bytes, b, Span(k, v), v, w) ==> InFrame(n, bytes, b, Elapsed(k, c, v), v, w))
    decreases c
  {
    hide Sample, Follows, InFrame, Level, Tolerates, Span;
    if c == 0 {
    } else {
      HoldParses(m, bytes, b, k, c - 1, v, w);
      var line := Hold(Level(b, k), c);
      assert line[..c - 1] == Hold(Level(b, k), c - 1);
      var n := Listen(m, line[..c - 1], w);
      PlaceIs(k, c - 1, v);
      if Follows(m, bytes, b, Span(k, v), v, w) {
        FollowsStep(n, bytes, b, Elapsed(k, c - 1, v), v, w);
      }
      if Tolerates(v, w) && InFrame(m, bytes, b, Span(k, v), v, w) {
        FrameStep(n, bytes, b, k, c - 1, v, w);
      }
    }
  }

  lemma {:induction false} BitsParse(m: Monitor, bytes: seq<nat>, b: byte, k: nat, v: nat, w: nat)
    requires k <= 10 && v > 0 && w > 0 && m.mode == Armed && m.bytes == bytes
    ensures var n := Listen(m, FirstBits(b, k, v), w);
            Follows(n, bytes, b, Span(k, v), v, w) && (Tolerates(v, w) ==> InFrame(n, bytes, b, Span(k, v), v, w))
    decreases k
  {
    hide Sample, Level, Hold, Tolerates, Midway;
    if k == 0 {
    } else {
      hide Follows, InFrame;
      BitsParse(m, bytes, b, k - 1, v, w);
      HoldParses(Listen(m, FirstBits(b, k - 1, v), w), bytes, b, k - 1, v, v, w);
      ListenConcat(m, FirstBits(b, k - 1, v), Hold(Level(b, k - 1), v), w);
    }
  }

  function Frames(text: seq<byte>, v: nat): seq<bool> {
    if text == [] then [] else Frames(text[..|text| - 1], v) + Frame(text[|text| - 1], v)
  }

  /** Back-to-back frames of a width the monitor tolerates: it decodes exactly the bytes, and is
      armed again. */
  lemma {:induction false} FramesRoundTrip(m: Monitor, text: seq<byte>, v: nat, w: nat)
    requires Tolerates(v, w) && m.mode == Armed
    ensures var n := Listen(m, Frames(text, v), w); n.mode == Armed && n.bytes == m.bytes + text
    decreases |text|
  {
    hide Sample, FirstBits, InFrame, Follows;
    if text == [] {
    } else {
      var before, b := text[..|text| - 1], text[|text| - 1];
      FramesRoundTrip(m, before, v, w);
      var n := Listen(m, Frames(before, v), w);
      BitsParse(n, n.bytes, b, 10, v, w);
      SpanIs(10, v);
      FrameEnds(Listen(n, Frame(b, v), w), n.bytes, b, v, w);
      ListenConcat(m, Frames(before, v), Frame(b, v), w);
      assert text == before + [b];
      assert m.bytes + before + [b] == m.bytes + text;
    }
  }

  /** A width it does not tolerate makes it mishear a byte: 0x80 if the sample of the last bit comes
      too early, 0 if it comes too late. */
  function Witness(v: nat, w: nat): byte { if 8 * v > 8 * w + w / 2 then 0x80 else 0 }

  lemma Misheard(v: nat, w: nat)
    requires v > 0 && w > 0 && !Tolerates(v, w)
    ensures Heard(Witness(v, w), 8, v, w) != Witness(v, w)
  {
    hide Level, Heard, Due;
    SpanIs(8, w);
    DueIs(8, w);
    LastSample(Witness(v, w), v, w);
    if 8 * v > 8 * w + w / 2 {
      DivBound(Due(8, w), v, 8);
      OnlyTopBit(BitAt(Due(8, w), v));
    } else {
      DivReaches(Due(8, w), v, 9);
      HighBehind(0, BitAt(Due(8, w), v));
    }
  }

  lemma DueIs(i: nat, w: nat)
    ensures Due(i, w) == Span(i, w) + w / 2
  {
  }

  /** The last sample decides the top bit. */
  lemma LastSample(b: byte, v: nat, w: nat)
    requires v > 0
    ensures Heard(b, 8, v, w) >= 128 <==> Level(b, BitAt(Due(8, w), v))
  {
    hide Level, Due;
    HeardBound(b, 7, v, w);
    assert Pow2(7) == 128;
    assert Heard(b, 8, v, w) == Heard(b, 7, v, w) + (if Level(b, BitAt(Due(8, w), v)) then Pow2(7) else 0);
  }

  lemma {:induction false} HeardBound(b: byte, i: nat, v: nat, w: nat)
    requires v > 0
    ensures Heard(b, i, v, w) < Pow2(i)
  {
    hide Level;
    if i > 0 {
      HeardBound(b, i - 1, v, w);
    }
  }

  lemma DivBound(x: nat, v: nat, k: nat)
    requires v > 0 && x < k * v
    ensures BitAt(x, v) < k
  {
    if x / v >= k {
      ProductMonotone(v, k, x / v);
    }
  }

  lemma DivReaches(x: nat, v: nat, k: nat)
    requires v > 0 && k * v <= x
    ensures BitAt(x, v) >= k
  {
    if x / v < k {
      MultipleGap(v, x / v, k);
    }
  }

  lemma OnlyTopBit(k: nat)
    requires k < 8
    ensures !Level(0x80, k)
  {
    if k > 0 {
      SmallPow2(k - 1);
    }
  }

  lemma SmallPow2(i: nat)
    requires i < 7
    ensures (0x80 / Pow2(i)) % 2 == 0
  {
    assert Pow2(0) == 1 && Pow2(1) == 2 && Pow2(2) == 4 && Pow2(3) == 8 && Pow2(4) == 16 && Pow2(5) == 32 && Pow2(6) == 64;
  }

  lemma HighBehind(b: byte, k: nat)
    requires k >= 9
    ensures Level(b, k)
  {
  }

  predicate Decodes(m: Monitor, text: seq<byte>, v: nat, w: nat) { Listen(m, Frames(text, v), w).bytes == m.bytes + text }

  /** The exact condition: every text decodes if and only if the monitor tolerates the width. */
  lemma FramesDecodeExactly(m: Monitor, v: nat, w: nat)
    requires v > 0 && w > 0 && m.mode == Armed
    ensures (forall text: seq<byte> :: Decodes(m, text, v, w)) <==> Tolerates(v, w)
  {
    if Tolerates(v, w) {
      forall text: seq<byte>
        ensures Decodes(m, text, v, w)
      {
        FramesRoundTrip(m, text, v, w);
      }
    } else {
      WitnessMisheard(m, v, w);
    }
  }

  lemma WitnessMisheard(m: Monitor, v: nat, w: nat)
    requires v > 0 && w > 0 && m.mode == Armed && !Tolerates(v, w)
    ensures !Decodes(m, [Witness(v, w)], v, w)
  {
    hide Sample, FirstBits, Heard, Tolerates, Due;
    var b := Witness(v, w);
    var text := [b];
    assert text[..0] == [] && Frames([], v) == [] && Frames(text, v) == [] + Frame(b, v);
    BitsParse(m, m.bytes, b, 10, v, w);
    Misheard(v, w);
    var n := Listen(m, Frame(b, v), w);
    SpanIs(10, v);
    OtherByte(m.bytes, Heard(b, 8, v, w), b, n.bytes);
    assert [] + Frame(b, v) == Frame(b, v);
  }

  /** Nothing has been decoded, or something else. */
  lemma OtherByte(bytes: seq<nat>, heard: nat, b: nat, decoded: seq<nat>)
    requires decoded == bytes || bytes + [heard] <= decoded
    requires heard != b
    ensures decoded != bytes + [b]
  {
    assert bytes + [heard] <= decoded ==> decoded[|bytes|] == heard;
    assert (bytes + [b])[|bytes|] == b;
  }

  // ------------------------------------------------------------------
  // The paced printer
  // ------------------------------------------------------------------

  /** The driver after a schedule of blocked flags, one per cycle. */
  function DriverRun(d: Driver, text: seq<byte>, paced: bool, w: nat, schedule: seq<bool>): Driver {
    if schedule == [] then d
    else DriverNext(DriverRun(d, text, paced, w, schedule[..|schedule| - 1]), text, paced, w, schedule[|schedule| - 1])
  }

  function DriverLine(d: Driver, text: seq<byte>, paced: bool, w: nat, schedule: seq<bool>): (line: seq<bool>)
    ensures |line| == |schedule|
  {
    if schedule == [] then []
    else
      DriverLine(d, text, paced, w, schedule[..|schedule| - 1])
      + [DriverLevel(DriverRun(d, text, paced, w, schedule[..|schedule| - 1]), text, paced, schedule[|schedule| - 1])]
  }

  /** Driver and monitor agree on where in which frame they are. */
  predicate InStep(d: Driver, m: Monitor, text: seq<byte>, w: nat) {
    && d.idx <= |text|
    && if d.active then
         && w > 0 && d.idx > 0 && d.cur == text[d.idx - 1] && d.bit < 10 && d.cnt < w && (d.bit > 0 || d.cnt > 0)
         && InFrame(m, text[..d.idx - 1], d.cur, Elapsed(d.bit, d.cnt, w), w, w)
       else m.mode == Armed && m.bytes == text[..d.idx]
  }

  /** A cycle of a frame, also its first. */
  lemma AdvanceInStep(d: Driver, m: Monitor, text: seq<byte>, w: nat)
    requires d.active && 0 < d.idx <= |text| && d.cur == text[d.idx - 1] && d.bit < 10 && d.cnt < w
    requires InFrame(m, text[..d.idx - 1], d.cur, Elapsed(d.bit, d.cnt, w), w, w)
    ensures InStep(Advance(d, w), Sample(m, Level(d.cur, d.bit), w), text, w)
  {
    hide Sample, Level, InFrame;
    FrameStep(m, text[..d.idx - 1], d.cur, d.bit, d.cnt, w, w);
    var n := Sample(m, Level(d.cur, d.bit), w);
    if d.cnt + 1 == w {
      SpanNext(d.bit + 1, w);
      if d.bit == 9 {
        SpanIs(10, w);
        FrameEnds(n, text[..d.idx - 1], d.cur, w, w);
      }
    }
    assert text[..d.idx - 1] + [d.cur] == text[..d.idx];
  }

  lemma DriverInStep(d: Driver, m: Monitor, text: seq<byte>, paced: bool, w: nat, blocked: bool)
    requires w >= 1 && InStep(d, m, text, w)
    ensures InStep(DriverNext(d, text, paced, w, blocked), Sample(m, DriverLevel(d, text, paced, blocked), w), text, w)
  {
    hide Level, Advance;
    if d.active {
      AdvanceInStep(d, m, text, w);
    } else if Begins(d, text, paced, blocked) {
      StartIsLow(text[d.idx]);
      AdvanceInStep(Begun(d, text), m, text, w);
    }
  }

  lemma {:induction false} AlwaysInStep(text: seq<byte>, paced: bool, w: nat, m: Monitor, schedule: seq<bool>)
    requires w >= 1 && m.mode == Armed && m.bytes == []
    ensures InStep(DriverRun(DRIVER_START, text, paced, w, schedule),
                   Listen(m, DriverLine(DRIVER_START, text, paced, w, schedule), w), text, w)
    decreases |schedule|
  {
    hide Sample, DriverNext, DriverLevel, InFrame;
    if schedule == [] {
    } else {
      hide InStep;
      var before, blocked := schedule[..|schedule| - 1], schedule[|schedule| - 1];
      var line := DriverLine(DRIVER_START, text, paced, w, schedule);
      AlwaysInStep(text, paced, w, m, before);
      assert line[..|line| - 1] == DriverLine(DRIVER_START, text, paced, w, before);
      DriverInStep(DriverRun(DRIVER_START, text, paced, w, before),
                   Listen(m, DriverLine(DRIVER_START, text, paced, w, before), w), text, paced, w, blocked);
    }
  }

  /** Under any schedule of blocked cycles, paced or not: what the monitor has decoded is the text
      up to the driver's place in it, and all of it once the driver is done. */
  lemma DriverRoundTrip(text: seq<byte>, paced: bool, w: nat, m: Monitor, schedule: seq<bool>)
    requires w >= 1 && m.mode == Armed && m.bytes == []
    ensures var d := DriverRun(DRIVER_START, text, paced, w, schedule);
            var n := Listen(m, DriverLine(DRIVER_START, text, paced, w, schedule), w);
            && d.idx <= |text|
            && (n.bytes == text[..d.idx] || (d.active && d.idx > 0 && n.bytes == text[..d.idx - 1]))
            && (Done(d, text) ==> n.bytes == text && n.mode == Armed)
  {
    hide Sample, DriverRun, DriverLine, Listen;
    var d := DriverRun(DRIVER_START, text, paced, w, schedule);
    var n := Listen(m, DriverLine(DRIVER_START, text, paced, w, schedule), w);
    AlwaysInStep(text, paced, w, m, schedule);
    if d.active {
      assert text[..d.idx - 1] + [d.cur] == text[..d.idx];
      assert n.bytes == text[..d.idx - 1] || n.bytes == text[..d.idx];
    } else {
      assert n.bytes == text[..d.idx];
      assert d.idx == |text| ==> text[..d.idx] == text;
    }
  }

  // ------------------------------------------------------------------
  // A frame takes ten bit times
  // ------------------------------------------------------------------

  lemma {:induction false} BitsLeft(b: byte, k: nat, w: nat)
    requires k <= 10
    ensures |FirstBits(b, k, w)| <= 10 * w && (k < 10 ==> |FirstBits(b, k, w)| + w <= 10 * w)
    decreases 10 - k
  {
    hide Level, Hold;
    if k == 10 {
      FrameLength(b, w);
    } else {
      BitsLeft(b, k + 1, w);
    }
  }

  /** The driver part of the way through the frame that began at d; line is what it has sent. */
  predicate Emitting(e: Driver, b: byte, line: seq<bool>, w: nat) {
    && e.active && e.cur == b && e.bit < 10 && e.cnt < w
    && line == FirstBits(b, e.bit, w) + Hold(Level(b, e.bit), e.cnt)
  }

  lemma EmitOne(e: Driver, b: byte, line: seq<bool>, w: nat)
    requires Emitting(e, b, line, w)
    ensures var n, more := Advance(e, w), line + [Level(b, e.bit)];
            && n.idx == e.idx
            && if |line| + 1 < 10 * w then Emitting(n, b, more, w)
               else !n.active && n.gap == 10 && more == Frame(b, w) && |more| == 10 * w
  {
    var n, more := Advance(e, w), line + [Level(b, e.bit)];
    assert Hold(Level(b, e.bit), e.cnt) + [Level(b, e.bit)] == Hold(Level(b, e.bit), e.cnt + 1);
    hide Level;
    assert more == FirstBits(b, e.bit, w) + Hold(Level(b, e.bit), e.cnt + 1);
    BitsLeft(b, e.bit, w);
    FrameLength(b, w);
    if e.cnt + 1 == w {
      assert more == FirstBits(b, e.bit + 1, w);
      BitsLeft(b, e.bit + 1, w);
      assert more == FirstBits(b, e.bit + 1, w) + Hold(Level(b, e.bit + 1), 0);
    }
  }

  /** Once begun, a frame is sent in exactly 10 * w consecutive cycles, whatever is blocked. */
  lemma {:induction false} FrameLasts(d: Driver, text: seq<byte>, paced: bool, w: nat, schedule: seq<bool>)
    requires w >= 1 && 0 < |schedule| <= 10 * w && Begins(d, text, paced, schedule[0])
    ensures var e, line := DriverRun(d, text, paced, w, schedule), DriverLine(d, text, paced, w, schedule);
            && e.idx == d.idx + 1
            && if |schedule| < 10 * w then Emitting(e, text[d.idx], line, w)
               else !e.active && e.gap == 10 && line == Frame(text[d.idx], w)
    decreases |schedule|
  {
    hide FirstBits, Level, Advance;
    var b := text[d.idx];
    var before := schedule[..|schedule| - 1];
    StartIsLow(b);
    if |schedule| == 1 {
      assert before == [];
      FirstBitsEmpty(b, w);
      EmitOne(Begun(d, text), b, [], w);
    } else {
      FrameLasts(d, text, paced, w, before);
      EmitOne(DriverRun(d, text, paced, w, before), b, DriverLine(d, text, paced, w, before), w);
    }
  }

  lemma FirstBitsEmpty(b: byte, w: nat)
    ensures FirstBits(b, 0, w) + Hold(Level(b, 0), 0) == []
  {
  }

  /** A paced driver never begins a frame in a blocked cycle: it stays put with the line high.
      In a cycle that is not blocked an idle driver past its gap begins the next byte. */
  lemma PacedStart(d: Driver, text: seq<byte>, w: nat, blocked: bool)
    requires !d.active && w >= 1
    ensures var n := DriverNext(d, text, true, w, blocked);
            && (n.idx == d.idx + 1 <==> !blocked && d.gap == 0 && d.idx < |text|)
            && (blocked ==> DriverLevel(d, text, true, blocked) && !n.active && n.idx == d.idx)
  {
  }

  // ------------------------------------------------------------------
  // The driver gets done
  // ------------------------------------------------------------------

  /** Cycles that are still needed, not counting those in which a paced driver waits: what is left
      of the frame in progress or of the gap, and ten bits and a gap for each byte. The gap behind
      the last byte is not waited for. */
  function Needed(d: Driver, text: seq<byte>, w: nat): int {
    if d.idx > |text| then 0
    else
      var rest := Span(|text| - d.idx, 10 * w + GAP_CYCLES);
      if d.active then 10 * w - Elapsed(d.bit, d.cnt, w) + rest
      else if d.idx < |text| then d.gap + rest - GAP_CYCLES
      else 0
  }

  /** The driver is idle, or inside a frame. */
  predicate Placed(d: Driver, text: seq<byte>, w: nat) {
    d.idx <= |text| && (d.active ==> d.bit < 10 && d.cnt < w)
  }

  /** A frame in progress always has a cycle left. */
  lemma FrameLeft(k: nat, c: nat, w: nat)
    requires k < 10 && c < w
    ensures Elapsed(k, c, w) < 10 * w
    ensures k < 9 || c + 1 < w ==> Elapsed(k, c, w) + 1 < 10 * w
    ensures k == 9 && c + 1 == w ==> Elapsed(k, c, w) + 1 == 10 * w
  {
    SpanBound(k, w);
    SpanGrows(10 - k, w);
    assert Span(1, w) == w;
    if k < 9 {
      SpanGrows(9 - k, w);
    }
  }

  /** Needed says when the driver is done. */
  lemma NeededDone(d: Driver, text: seq<byte>, w: nat)
    requires Placed(d, text, w)
    ensures Needed(d, text, w) >= 0
    ensures w >= 1 ==> (Done(d, text) <==> Needed(d, text, w) == 0)
  {
    if d.active {
      FrameLeft(d.bit, d.cnt, w);
    } else if d.idx < |text| {
      SpanGrows(|text| - d.idx, 10 * w + GAP_CYCLES);
    }
  }

  /** A cycle inside a frame. */
  lemma AdvanceNeeded(d: Driver, text: seq<byte>, w: nat)
    requires d.active && Placed(d, text, w)
    ensures Placed(Advance(d, w), text, w) && Needed(Advance(d, w), text, w) == Needed(d, text, w) - 1
  {
    FrameLeft(d.bit, d.cnt, w);
    var rest := |text| - d.idx;
    if d.cnt + 1 == w && d.bit < 9 {
      assert Span(d.bit + 1, w) == Span(d.bit, w) + w;
    }
    assert rest > 0 || Span(rest, 10 * w + GAP_CYCLES) == 0;
  }

  /** In every cycle one less is needed, unless the driver is done or waits because it is blocked. */
  lemma NeededStep(d: Driver, text: seq<byte>, paced: bool, w: nat, blocked: bool)
    requires w >= 1 && Placed(d, text, w)
    ensures var n := DriverNext(d, text, paced, w, blocked);
            && Placed(n, text, w)
            && Needed(n, text, w) <= Needed(d, text, w)
            && (!(paced && blocked) && Needed(d, text, w) > 0 ==> Needed(n, text, w) == Needed(d, text, w) - 1)
  {
    if d.active {
      AdvanceNeeded(d, text, w);
    } else if d.gap == 0 && Begins(d, text, paced, blocked) {
      AdvanceNeeded(Begun(d, text), text, w);
      SpanNext(|text| - d.idx, 10 * w + GAP_CYCLES);
    }
  }

  /** The cycles of a schedule in which a driver is free to begin. */
  function Free(paced: bool, schedule: seq<bool>): nat {
    if schedule == [] then 0
    else Free(paced, schedule[..|schedule| - 1]) + if paced && schedule[|schedule| - 1] then 0 else 1
  }

  lemma {:induction false} FreeCycles(d: Driver, text: seq<byte>, paced: bool, w: nat, schedule: seq<bool>)
    requires w >= 1 && Placed(d, text, w)
    ensures var e := DriverRun(d, text, paced, w, schedule);
            Placed(e, text, w) && 0 <= Needed(e, text, w) && Needed(e, text, w) + Free(paced, schedule) >= 0
            && (Needed(e, text, w) == 0 || Needed(e, text, w) <= Needed(d, text, w) - Free(paced, schedule))
            && (Free(paced, schedule) == |schedule| ==>
                  Needed(e, text, w) == if |schedule| >= Needed(d, text, w) then 0 else Needed(d, text, w) - |schedule|)
    decreases |schedule|
  {
    hide DriverNext, Needed, Placed;
    if schedule == [] {
      NeededDone(d, text, w);
    } else {
      var before, blocked := schedule[..|schedule| - 1], schedule[|schedule| - 1];
      var e := DriverRun(d, text, paced, w, before);
      FreeCycles(d, text, paced, w, before);
      FreeBound(paced, before);
      NeededStep(e, text, paced, w, blocked);
      NeededDone(DriverNext(e, text, paced, w, blocked), text, w);
    }
  }

  lemma {:induction false} FreeBound(paced: bool, schedule: seq<bool>)
    ensures Free(paced, schedule) <= |schedule|
    decreases |schedule|
  {
    if schedule != [] {
      FreeBound(paced, schedule[..|schedule| - 1]);
    }
  }

  /** How long a text takes: ten bits for each byte and a gap between two of them. */
  function Duration(text: seq<byte>, w: nat): nat {
    if text == [] then 0 else Span(|text| - 1, 10 * w + 10) + 10 * w
  }

  /** The driver is done once there have been enough cycles in which it was not blocked, whatever
      the others were; when it is never blocked it is done exactly from the last cycle of the last
      frame on. */
  lemma DriverDone(text: seq<byte>, paced: bool, w: nat, schedule: seq<bool>)
    requires w >= 1
    ensures var d := DriverRun(DRIVER_START, text, paced, w, schedule);
            && (Free(paced, schedule) >= Duration(text, w) ==> Done(d, text))
            && (Free(paced, schedule) == |schedule| ==> (Done(d, text) <==> |schedule| >= Duration(text, w)))
  {
    var d := DriverRun(DRIVER_START, text, paced, w, schedule);
    hide DriverRun, Free;
    if text != [] {
      SpanNext(|text|, 10 * w + GAP_CYCLES);
    }
    assert Needed(DRIVER_START, text, w) == Duration(text, w);
    FreeCycles(DRIVER_START, text, paced, w, schedule);
    NeededDone(d, text, w);
  }
}
