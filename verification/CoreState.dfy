/** The number-scanning state machine and its benchmark, core_state.c. */
module CoreState {
  import opened Arithmetic
  import opened CoreUtil

  datatype CoreState = Start | Invalid | S1 | S2 | Int | Float | Exponent | Scientific

  const NUM_CORE_STATES: nat := 8

  /** The enumeration order of coremark.h, which fixes the order of the counts in the CRC. */
  function Ordinal(st: CoreState): (i: nat)
    ensures i < NUM_CORE_STATES
  {
    match st
    case Start => 0 case Invalid => 1 case S1 => 2 case S2 => 3
    case Int => 4 case Float => 5 case Exponent => 6 case Scientific => 7
  }

  type Counts = c: seq<nat> | |c| == NUM_CORE_STATES witness [0, 0, 0, 0, 0, 0, 0, 0]

  const COMMA: bv8 := 0x2c
  const DOT: bv8 := 0x2e

  predicate IsDigit(c: bv8) { 0x30 <= c <= 0x39 }
  predicate IsSign(c: bv8) { c == 0x2b || c == 0x2d }
  predicate IsExponentMark(c: bv8) { c == 0x45 || c == 0x65 }

  function Bump(counts: Counts, st: CoreState): Counts {
    counts[Ordinal(st) := counts[Ordinal(st)] + 1]
  }

  /** The state after one symbol. */
  function Next(st: CoreState, c: bv8): CoreState {
    match st
    case Start => if IsDigit(c) then Int else if IsSign(c) then S1 else if c == DOT then Float else Invalid
    case S1 => if IsDigit(c) then Int else if c == DOT then Float else Invalid
    case Int => if c == DOT then Float else if IsDigit(c) then Int else Invalid
    case Float => if IsExponentMark(c) then S2 else if IsDigit(c) then Float else Invalid
    case S2 => if IsSign(c) then Exponent else Invalid
    case Exponent => if IsDigit(c) then Scientific else Invalid
    case Scientific => if IsDigit(c) then Scientific else Invalid
    case Invalid => Invalid
  }

  /** The transition counters. A state counts when it is left, except that an invalid
      first symbol counts twice and an invalid exponent digit counts as Invalid. */
  function Track(counts: Counts, st: CoreState, c: bv8): Counts {
    var next := Next(st, c);
    match st
    case Start => Bump(if next == Invalid then Bump(counts, Invalid) else counts, Start)
    case Scientific => if next == Invalid then Bump(counts, Invalid) else counts
    case Invalid => counts
    case _ => if next == st then counts else Bump(counts, st)
  }

  datatype Token = Token(end: nat, state: CoreState, counts: Counts)

  predicate AtEnd(block: seq<bv8>, p: nat) {
    p >= |block| || block[p] == 0
  }

  /** core_state_transition from position p in state st. */
  function Scan(block: seq<bv8>, p: nat, st: CoreState, counts: Counts): (t: Token)
    ensures t.end >= p
    ensures !AtEnd(block, p) && st != Invalid ==> t.end > p
    decreases |block| - p
  {
    if AtEnd(block, p) || st == Invalid then Token(p, st, counts)
    else if block[p] == COMMA then Token(p + 1, st, counts)
    else Scan(block, p + 1, Next(st, block[p]), Track(counts, st, block[p]))
  }

  datatype Tally = Tally(finals: Counts, tracks: Counts)

  /** The outer loop of core_bench_state: tokens are classified until a NUL. */
  function ScanAll(block: seq<bv8>, p: nat, t: Tally): Tally
    decreases |block| - p
  {
    if AtEnd(block, p) then t
    else
      var token := Scan(block, p, Start, t.tracks);
      ScanAll(block, token.end, Tally(Bump(t.finals, token.state), token.counts))
  }

  /** The number of tokens the outer loop classifies. */
  function TokenCount(block: seq<bv8>, p: nat, tracks: Counts): nat
    decreases |block| - p
  {
    if AtEnd(block, p) then 0
    else
      var token := Scan(block, p, Start, tracks);
      1 + TokenCount(block, token.end, token.counts)
  }

  predicate Visited(size: nat, step: nat, i: nat)
    requires step > 0
  {
    i < size && i % step == 0
  }

  function Xor8(b: bv8, seed: bv8): bv8 { b ^ seed }

  function Flip(b: bv8, seed: bv8): bv8 { if b != COMMA then Xor8(b, seed) else b }

  /** Every step-th byte below size is xored with the seed, unless it is a comma. */
  function Corrupt(block: seq<bv8>, size: nat, seed: bv8, step: nat): (r: seq<bv8>)
    requires step > 0
    ensures |r| == |block|
  {
    seq(|block|, (i: nat) requires i < |block| => if Visited(size, step, i) then Flip(block[i], seed) else block[i])
  }

  function CrcCounts(t: Tally, i: nat, crc: bv16): bv16
    requires i <= NUM_CORE_STATES
    decreases NUM_CORE_STATES - i, t
  {
    if i == NUM_CORE_STATES then crc
    else CrcCounts(t, i + 1, CrcU32(t.tracks[i], CrcU32(t.finals[i], crc)))
  }

  const NO_COUNTS: Counts := [0, 0, 0, 0, 0, 0, 0, 0]

  function StateTally(size: nat, block: seq<bv8>, seed1: bv8, step: nat): Tally
    requires step > 0
  {
    ScanAll(Corrupt(block, size, seed1, step), 0, ScanAll(block, 0, Tally(NO_COUNTS, NO_COUNTS)))
  }

  /** What core_bench_state returns, and the block it leaves behind. */
  function BenchState(size: nat, block: seq<bv8>, seed1: bv8, seed2: bv8, step: nat, crc: bv16): (bv16, seq<bv8>)
    requires step > 0
  {
    (CrcCounts(StateTally(size, block, seed1, step), 0, crc),
     Corrupt(Corrupt(block, size, seed1, step), size, seed2, step))
  }

  // ------------------------------------------------------------------
  // The code
  // ------------------------------------------------------------------

  /** The switch of core_state_transition, lines 230-326 of core_state.c. */
  method Switch(state0: CoreState, symbol: bv8, counts: array<nat>) returns (state: CoreState)
    requires counts.Length == NUM_CORE_STATES
    modifies counts
    ensures state == Next(state0, symbol)
    ensures counts[..] == Track(old(counts[..]), state0, symbol)
  {
    state := state0;
    match state {
      case Start =>
        if IsDigit(symbol) {
          state := Int;
        } else if IsSign(symbol) {
          state := S1;
        } else if symbol == DOT {
          state := Float;
        } else {
          state := Invalid;
          counts[1] := counts[1] + 1;
        }
        counts[0] := counts[0] + 1;
      case S1 =>
        if IsDigit(symbol) {
          state := Int;
          counts[2] := counts[2] + 1;
        } else if symbol == DOT {
          state := Float;
          counts[2] := counts[2] + 1;
        } else {
          state := Invalid;
          counts[2] := counts[2] + 1;
        }
      case Int =>
        if symbol == DOT {
          state := Float;
          counts[4] := counts[4] + 1;
        } else if !IsDigit(symbol) {
          state := Invalid;
          counts[4] := counts[4] + 1;
        }
      case Float =>
        if IsExponentMark(symbol) {
          state := S2;
          counts[5] := counts[5] + 1;
        } else if !IsDigit(symbol) {
          state := Invalid;
          counts[5] := counts[5] + 1;
        }
      case S2 =>
        if IsSign(symbol) {
          state := Exponent;
          counts[3] := counts[3] + 1;
        } else {
          state := Invalid;
          counts[3] := counts[3] + 1;
        }
      case Exponent =>
        if IsDigit(symbol) {
          state := Scientific;
          counts[6] := counts[6] + 1;
        } else {
          state := Invalid;
          counts[6] := counts[6] + 1;
        }
      case Scientific =>
        if !IsDigit(symbol) {
          state := Invalid;
          counts[1] := counts[1] + 1;
        }
      case Invalid =>
    }
  }

  method CoreStateTransition(block: array<bv8>, p0: nat, counts: array<nat>, ghost nul: nat)
    returns (p: nat, state: CoreState)
    requires p0 <= nul < block.Length && block[nul] == 0
    requires counts.Length == NUM_CORE_STATES && counts as object != block
    modifies counts
    ensures Token(p, state, counts[..]) == Scan(block[..], p0, Start, old(counts[..]))
    ensures p <= nul && (block[p0] != 0 ==> p0 < p)
  {
    p, state := p0, Start;
    ghost var goal := Scan(block[..], p0, Start, counts[..]);
    ghost var text := block[..];
    while block[p] != 0 && state != Invalid
      invariant p0 <= p <= nul
      invariant text == block[..] && Scan(text, p, state, counts[..]) == goal
      invariant p == p0 ==> state == Start
      decreases nul - p
    {
      if block[p] == COMMA {
        return p + 1, state;
      }
      state := Switch(state, block[p], counts);
      p := p + 1;
    }
  }

  predicate HasNul(block: seq<bv8>) {
    exists k :: 0 <= k < |block| && block[k] == 0
  }

  /** (ee_u8)seed. */
  function SeedByte(seed: int): bv8 { (seed % 0x100) as bv8 }

  method ScanBlock(block: array<bv8>, finals: array<nat>, tracks: array<nat>)
    requires HasNul(block[..])
    requires finals.Length == tracks.Length == NUM_CORE_STATES && finals != tracks
    requires finals as object != block && tracks as object != block
    modifies finals, tracks
    ensures block[..] == old(block[..])
    ensures Tally(finals[..], tracks[..]) == ScanAll(block[..], 0, old(Tally(finals[..], tracks[..])))
  {
    ghost var nul :| 0 <= nul < |block[..]| && block[..][nul] == 0;
    ghost var text, goal := block[..], ScanAll(block[..], 0, Tally(finals[..], tracks[..]));
    var p := 0;
    while block[p] != 0
      invariant 0 <= p <= nul
      invariant text == block[..] && ScanAll(text, p, Tally(finals[..], tracks[..])) == goal
      decreases nul - p
    {
      ghost var f := finals[..];
      var end, state := CoreStateTransition(block, p, tracks, nul);
      var i := Ordinal(state);
      finals[i] := finals[i] + 1;
      assert finals[..] == Bump(f, state);
      p := end;
    }
  }

  lemma BetweenVisits(p: nat, i: nat, step: nat)
    requires step > 0 && p % step == 0 && p < i < p + step
    ensures i % step != 0
  {
    var k := p / step;
    assert p == step * k;
    assert i == step * k + (i - p);
    DivModUnique(i, step, k, i - p);
  }

  /** The block when the loop has reached position p. */
  ghost function CorruptTo(block: seq<bv8>, size: nat, seed: bv8, step: nat, p: nat): (r: seq<bv8>)
    requires step > 0
    ensures |r| == |block|
  {
    seq(|block|, (i: nat) requires i < |block| =>
      if i < p && Visited(size, step, i) then Flip(block[i], seed) else block[i])
  }

  lemma CorruptStep(block: seq<bv8>, size: nat, seed: bv8, step: nat, p: nat)
    requires 0 < step && p < size <= |block| && p % step == 0
    ensures CorruptTo(block, size, seed, step, p + step) == CorruptTo(block, size, seed, step, p)[p := Flip(block[p], seed)]
    ensures (p + step) % step == 0
  {
    var k := p / step;
    assert p + step == step * (k + 1) + 0;
    DivModUnique(p + step, step, k + 1, 0);
    var r := CorruptTo(block, size, seed, step, p + step);
    forall i | 0 <= i < |block| ensures r[i] == CorruptTo(block, size, seed, step, p)[p := Flip(block[p], seed)][i] {
      if p < i < p + step {
        BetweenVisits(p, i, step);
      }
    }
  }

  method CorruptBlock(block: array<bv8>, blksize: nat, seed: bv8, step: nat)
    requires 0 < step && blksize <= block.Length
    modifies block
    ensures block[..] == Corrupt(old(block[..]), blksize, seed, step)
  {
    ghost var block0 := block[..];
    var p := 0;
    while p < blksize
      invariant p % step == 0
      invariant block[..] == CorruptTo(block0, blksize, seed, step, p)
    {
      CorruptStep(block0, blksize, seed, step, p);
      assert block[p] == block[..][p] == block0[p];
      if block[p] != COMMA {
        block[p] := block[p] ^ seed;
      }
      p := p + step;
    }
  }

  method CrcTally(finals: array<nat>, tracks: array<nat>, crc0: bv16) returns (crc: bv16)
    requires finals.Length == tracks.Length == NUM_CORE_STATES
    ensures crc == CrcCounts(Tally(finals[..], tracks[..]), 0, crc0)
  {
    crc := crc0;
    ghost var t, goal := Tally(finals[..], tracks[..]), CrcCounts(Tally(finals[..], tracks[..]), 0, crc0);
    for i := 0 to NUM_CORE_STATES
      invariant CrcCounts(t, i, crc) == goal
    {
      crc := CrcU32(finals[i], crc);
      crc := CrcU32(tracks[i], crc);
    }
  }

  /** core_bench_state, lines 45-111 of core_state.c. Both scans need a NUL to stop at. */
  method CoreBenchState(blksize: nat, block: array<bv8>, seed1: int, seed2: int, step: nat, crc0: bv16) returns (crc: bv16)
    requires 0 < step && blksize <= block.Length
    requires HasNul(block[..]) && HasNul(Corrupt(block[..], blksize, SeedByte(seed1), step))
    modifies block
    ensures (crc, block[..]) == BenchState(blksize, old(block[..]), SeedByte(seed1), SeedByte(seed2), step, crc0)
  {
    hide Corrupt, ScanAll, HasNul, CrcCounts;
    var finals, tracks := new nat[NUM_CORE_STATES], new nat[NUM_CORE_STATES];
    for i := 0 to NUM_CORE_STATES
      invariant block[..] == old(block[..])
      invariant forall k | 0 <= k < i :: finals[k] == 0 && tracks[k] == 0
    {
      tracks[i] := 0;
      finals[i] := 0;
    }
    assert finals[..] == NO_COUNTS && tracks[..] == NO_COUNTS;
    ScanBlock(block, finals, tracks);
    CorruptBlock(block, blksize, SeedByte(seed1), step);
    ScanBlock(block, finals, tracks);
    ghost var t := StateTally(blksize, old(block[..]), SeedByte(seed1), step);
    assert Tally(finals[..], tracks[..]) == t;
    assert block[..] == Corrupt(old(block[..]), blksize, SeedByte(seed1), step);
    CorruptBlock(block, blksize, SeedByte(seed2), step);
    assert Tally(finals[..], tracks[..]) == t;
    crc := CrcTally(finals, tracks, crc0);
  }
}
