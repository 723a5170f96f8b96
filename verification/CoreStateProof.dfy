/** What the state benchmark computes: the language its machine decides, the tokens
    it counts, and exactly when its two corruptions cancel. */
module CoreStateProof {
  import opened CoreState
  import opened CoreUtil

  // ------------------------------------------------------------------
  // The language of the machine
  // ------------------------------------------------------------------

  function RunFrom(st: CoreState, t: seq<bv8>): CoreState
    decreases |t|
  {
    if t == [] then st else RunFrom(Next(st, t[0]), t[1..])
  }

  predicate AllDigits(t: seq<bv8>) { forall i | 0 <= i < |t| :: IsDigit(t[i]) }

  /** The token without its optional sign. */
  function Unsigned(t: seq<bv8>): seq<bv8> {
    if t != [] && IsSign(t[0]) then t[1..] else t
  }

  /** [+-]?[0-9]+ */
  predicate IsInt(t: seq<bv8>) { Unsigned(t) != [] && AllDigits(Unsigned(t)) }

  predicate DotAt(u: seq<bv8>, i: int) {
    0 <= i < |u| && u[i] == DOT && AllDigits(u[..i]) && AllDigits(u[i + 1..])
  }

  /** [+-]?[0-9]*\.[0-9]* */
  predicate IsFloat(t: seq<bv8>) {
    exists i | 0 <= i < |Unsigned(t)| :: DotAt(Unsigned(t), i)
  }

  predicate ExponentAt(t: seq<bv8>, m: int) {
    0 <= m && m + 2 < |t| && IsFloat(t[..m]) && IsExponentMark(t[m]) && IsSign(t[m + 1]) && AllDigits(t[m + 2..])
  }

  /** A float, then [eE][+-][0-9]+ */
  predicate IsScientific(t: seq<bv8>) {
    exists m | 0 <= m < |t| :: ExponentAt(t, m)
  }

  predicate IsMarked(t: seq<bv8>) {
    t != [] && IsExponentMark(t[|t| - 1]) && IsFloat(t[..|t| - 1])
  }

  predicate IsMarkedSigned(t: seq<bv8>) {
    t != [] && IsSign(t[|t| - 1]) && IsMarked(t[..|t| - 1])
  }

  predicate IsBareSign(t: seq<bv8>) { |t| == 1 && IsSign(t[0]) }

  lemma DigitsSnoc(t: seq<bv8>, c: bv8)
    ensures AllDigits(t + [c]) <==> AllDigits(t) && IsDigit(c)
  {
    assert (t + [c])[|t|] == c;
    assert forall i | 0 <= i < |t| :: (t + [c])[i] == t[i];
  }

  lemma UnsignedSnoc(t: seq<bv8>, c: bv8)
    ensures t != [] ==> Unsigned(t + [c]) == Unsigned(t) + [c]
    ensures Unsigned([c]) == if IsSign(c) then [] else [c]
  {
  }

  lemma IntSnoc(t: seq<bv8>, c: bv8)
    ensures IsInt(t + [c]) <==> IsDigit(c) && (t == [] || IsBareSign(t) || IsInt(t))
  {
    UnsignedSnoc(t, c);
    DigitsSnoc(Unsigned(t), c);
    DigitsSnoc([], c);
    assert [] + [c] == [c];
  }

  /** The dot positions of u + [c]. */
  lemma DotSnoc(u: seq<bv8>, c: bv8, i: nat)
    ensures i < |u| ==> (DotAt(u + [c], i) <==> DotAt(u, i) && IsDigit(c))
    ensures DotAt(u + [c], |u|) <==> c == DOT && AllDigits(u)
  {
    var v := u + [c];
    assert v[..|u|] == u && v[|u| + 1..] == [];
    if i < |u| {
      assert v[..i] == u[..i] && v[i + 1..] == u[i + 1..] + [c];
      DigitsSnoc(u[i + 1..], c);
    }
  }

  lemma UnsignedFloatSnoc(u: seq<bv8>, c: bv8)
    ensures (exists i | 0 <= i < |u + [c]| :: DotAt(u + [c], i)) <==>
            (c == DOT && AllDigits(u)) || (IsDigit(c) && exists i | 0 <= i < |u| :: DotAt(u, i))
  {
    var v := u + [c];
    forall i: nat ensures i < |u| ==> (DotAt(v, i) <==> DotAt(u, i) && IsDigit(c)) {
      DotSnoc(u, c, i);
    }
    DotSnoc(u, c, 0);
    if i :| 0 <= i < |v| && DotAt(v, i) {
      assert i == |u| || DotAt(u, i);
    }
    if i :| 0 <= i < |u| && DotAt(u, i) && IsDigit(c) {
      assert DotAt(v, i);
    }
  }

  lemma FloatSnoc(t: seq<bv8>, c: bv8)
    ensures IsFloat(t + [c]) <==>
            (c == DOT && (t == [] || IsBareSign(t) || IsInt(t))) || (IsDigit(c) && IsFloat(t))
  {
    UnsignedSnoc(t, c);
    UnsignedFloatSnoc(Unsigned(t), c);
    if t == [] {
      assert t + [c] == [c];
      assert IsSign(c) ==> !IsFloat([c]);
      UnsignedFloatSnoc([], c);
      assert [] + [c] == [c];
    }
  }

  /** The exponent positions of t + [c]. */
  lemma ExponentSnoc(t: seq<bv8>, c: bv8, m: nat)
    ensures m + 2 < |t| ==> (ExponentAt(t + [c], m) <==> ExponentAt(t, m) && IsDigit(c))
    ensures m + 2 == |t| ==> (ExponentAt(t + [c], m) <==> IsMarkedSigned(t) && IsDigit(c))
  {
    var v := t + [c];
    if m + 2 <= |t| {
      assert v[..m] == t[..m] && v[m + 2..] == t[m + 2..] + [c];
      DigitsSnoc(t[m + 2..], c);
      if m + 2 == |t| {
        assert t[..|t| - 1][..m] == t[..m];
      }
    }
  }

  lemma ScientificSnoc(t: seq<bv8>, c: bv8)
    ensures IsScientific(t + [c]) <==> IsDigit(c) && (IsMarkedSigned(t) || IsScientific(t))
  {
    var v := t + [c];
    if m :| 0 <= m < |v| && ExponentAt(v, m) {
      ExponentSnoc(t, c, m);
    }
    if m :| 0 <= m < |t| && ExponentAt(t, m) && IsDigit(c) {
      ExponentSnoc(t, c, m);
      assert ExponentAt(v, m);
    }
    if IsDigit(c) && IsMarkedSigned(t) {
      ExponentSnoc(t, c, |t| - 2);
      assert ExponentAt(v, |t| - 2);
    }
  }

  lemma {:induction false} RunSnoc(st: CoreState, t: seq<bv8>, c: bv8)
    ensures RunFrom(st, t + [c]) == Next(RunFrom(st, t), c)
    decreases |t|
  {
    if t == [] {
      assert [] + [c] == [c];
      assert [c][1..] == [];
    } else {
      assert (t + [c])[1..] == t[1..] + [c];
      RunSnoc(Next(st, t[0]), t[1..], c);
    }
  }

  /** The final state names the language of the token. */
  ghost predicate Classified(st: CoreState, t: seq<bv8>) {
    && (st == Start <==> t == [])
    && (st == S1 <==> IsBareSign(t))
    && (st == Int <==> IsInt(t))
    && (st == Float <==> IsFloat(t))
    && (st == S2 <==> IsMarked(t))
    && (st == Exponent <==> IsMarkedSigned(t))
    && (st == Scientific <==> IsScientific(t))
  }

  lemma SnocClassified(st: CoreState, t: seq<bv8>, c: bv8)
    requires Classified(st, t)
    ensures Classified(Next(st, c), t + [c])
  {
    IntSnoc(t, c);
    FloatSnoc(t, c);
    ScientificSnoc(t, c);
    assert (t + [c])[..|t|] == t;
  }

  lemma {:induction false} MachineDecides(t: seq<bv8>)
    ensures Classified(RunFrom(Start, t), t)
  {
    if t != [] {
      var u, c := t[..|t| - 1], t[|t| - 1];
      assert t == u + [c];
      MachineDecides(u);
      RunSnoc(Start, u, c);
      SnocClassified(RunFrom(Start, u), u, c);
    }
  }

  /** Where the token starting at p ends: at a comma, a NUL or the end of the block. */
  function TokenEnd(block: seq<bv8>, p: nat): (e: nat)
    ensures e >= p && (p <= |block| ==> e <= |block|)
    decreases |block| - p
  {
    if AtEnd(block, p) || block[p] == COMMA then p else TokenEnd(block, p + 1)
  }

  lemma {:induction false} RunInvalid(t: seq<bv8>)
    ensures RunFrom(Invalid, t) == Invalid
  {
    if t != [] {
      RunInvalid(t[1..]);
    }
  }

  lemma {:induction false} ScanRuns(block: seq<bv8>, p: nat, st: CoreState, counts: Counts)
    requires p <= |block|
    ensures var s, e := Scan(block, p, st, counts), TokenEnd(block, p);
            && s.state == RunFrom(st, block[p..e])
            && (s.state != Invalid ==> s.end == if AtEnd(block, e) then e else e + 1)
            && s.end <= if AtEnd(block, e) then e else e + 1
    decreases |block| - p
  {
    var e := TokenEnd(block, p);
    if st == Invalid {
      RunInvalid(block[p..e]);
    } else if !AtEnd(block, p) && block[p] != COMMA {
      ScanRuns(block, p + 1, Next(st, block[p]), Track(counts, st, block[p]));
      assert block[p..e][1..] == block[p + 1..e];
    }
  }

  /** core_state_transition classifies t, the token at p; unless it is invalid, the
      pointer moves to the end of the token and past its comma. */
  lemma TransitionDecides(block: seq<bv8>, p: nat, counts: Counts, t: seq<bv8>)
    requires p <= |block| && t == block[p..TokenEnd(block, p)]
    ensures var s, e := Scan(block, p, Start, counts), TokenEnd(block, p);
            && Classified(s.state, t)
            && (s.state != Invalid ==> s.end == if AtEnd(block, e) then e else e + 1)
            && s.end <= if AtEnd(block, e) then e else e + 1
  {
    ScanRuns(block, p, Start, counts);
    MachineDecides(t);
  }

  /** An exponent needs a dot before it: -87e+832, one of the benchmark's own
      scientific patterns, is classified as invalid. */
  lemma ScientificWithoutDot()
    ensures var t := [0x2d, 0x38, 0x37, 0x65, 0x2b, 0x38, 0x33, 0x32];
            RunFrom(Start, t) == Invalid && !IsScientific(t)
  {
    var t: seq<bv8> := [0x2d, 0x38, 0x37, 0x65, 0x2b, 0x38, 0x33, 0x32];
    assert RunFrom(Start, t) == RunFrom(S1, t[1..]);
    assert RunFrom(S1, t[1..]) == RunFrom(Int, t[2..]);
    assert RunFrom(Int, t[2..]) == RunFrom(Int, t[3..]);
    assert RunFrom(Int, t[3..]) == RunFrom(Invalid, t[4..]);
    RunInvalid(t[4..]);
    MachineDecides(t);
  }

  // ------------------------------------------------------------------
  // Counting tokens
  // ------------------------------------------------------------------

  function Sum(c: seq<nat>): nat {
    if c == [] then 0 else c[0] + Sum(c[1..])
  }

  lemma {:induction false} SumBump(c: seq<nat>, i: nat)
    requires i < |c|
    ensures Sum(c[i := c[i] + 1]) == Sum(c) + 1
  {
    if i == 0 {
      assert c[0 := c[0] + 1][1..] == c[1..];
    } else {
      assert c[i := c[i] + 1][1..] == c[1..][i - 1 := c[i] + 1];
      SumBump(c[1..], i - 1);
    }
  }

  /** Every token scanned adds one to the final counts. */
  lemma {:induction false} FinalCountsSum(block: seq<bv8>, p: nat, t: Tally)
    ensures Sum(ScanAll(block, p, t).finals) == Sum(t.finals) + TokenCount(block, p, t.tracks)
    decreases |block| - p
  {
    if !AtEnd(block, p) {
      var token := Scan(block, p, Start, t.tracks);
      SumBump(t.finals, Ordinal(token.state));
      FinalCountsSum(block, token.end, Tally(Bump(t.finals, token.state), token.counts));
    }
  }

  /** The language each final state stands for; Invalid, the tokens in none of the others. */
  ghost predicate Language(st: CoreState, t: seq<bv8>) {
    match st
    case Start => t == []
    case S1 => IsBareSign(t)
    case Int => IsInt(t)
    case Float => IsFloat(t)
    case S2 => IsMarked(t)
    case Exponent => IsMarkedSigned(t)
    case Scientific => IsScientific(t)
    case Invalid => Classified(Invalid, t)
  }

  lemma RunIsLanguage(st: CoreState, t: seq<bv8>)
    ensures RunFrom(Start, t) == st <==> Language(st, t)
  {
    MachineDecides(t);
  }

  /** From q on, the first place where the piece that begins at p ends: at a comma, at the NUL, or
      behind a symbol that makes it fit no language. */
  ghost function PieceEnd(block: seq<bv8>, p: nat, q: nat): (e: nat)
    requires p <= q <= |block|
    ensures q <= e <= |block|
    decreases |block| - q
  {
    if AtEnd(block, q) || block[q] == COMMA || Language(Invalid, block[p..q]) then q else PieceEnd(block, p, q + 1)
  }

  /** The next piece begins behind the comma, if that is what ended this one. */
  ghost function After(block: seq<bv8>, p: nat, e: nat): nat
    requires p <= e <= |block|
  {
    if AtEnd(block, e) || Language(Invalid, block[p..e]) then e else e + 1
  }

  /** The text up to the NUL in pieces. */
  ghost function Pieces(block: seq<bv8>, p: nat): seq<seq<bv8>>
    requires p <= |block|
    decreases |block| - p
  {
    if AtEnd(block, p) then []
    else
      var e := PieceEnd(block, p, p);
      PieceMoves(block, p);
      [block[p..e]] + Pieces(block, After(block, p, e))
  }

  ghost function Count(st: CoreState, pieces: seq<seq<bv8>>): nat {
    if pieces == [] then 0 else (if Language(st, pieces[0]) then 1 else 0) + Count(st, pieces[1..])
  }

  lemma PieceMoves(block: seq<bv8>, p: nat)
    requires p <= |block| && !AtEnd(block, p)
    ensures p < After(block, p, PieceEnd(block, p, p)) <= |block|
  {
    assert block[p..p] == [];
  }

  lemma {:induction false} ScanPiece(block: seq<bv8>, p: nat, q: nat, counts: Counts)
    requires p <= q <= |block|
    ensures var s, e := Scan(block, q, RunFrom(Start, block[p..q]), counts), PieceEnd(block, p, q);
            s.state == RunFrom(Start, block[p..e]) && s.end == After(block, p, e)
    decreases |block| - q
  {
    hide Language, RunFrom, Next, Track;
    RunIsLanguage(Invalid, block[p..q]);
    if !AtEnd(block, q) && block[q] != COMMA && !Language(Invalid, block[p..q]) {
      assert block[p..q + 1] == block[p..q] + [block[q]];
      RunSnoc(Start, block[p..q], block[q]);
      ScanPiece(block, p, q + 1, Track(counts, RunFrom(Start, block[p..q]), block[q]));
    }
  }

  /** For every block, the final count of a state is the number of pieces of the text in that
      state's language. */
  lemma {:induction false} FinalsCountPieces(block: seq<bv8>, p: nat, t: Tally, st: CoreState)
    requires p <= |block|
    ensures ScanAll(block, p, t).finals[Ordinal(st)] == t.finals[Ordinal(st)] + Count(st, Pieces(block, p))
    decreases |block| - p
  {
    hide Language, RunFrom, Scan, After;
    if !AtEnd(block, p) {
      var token, e := Scan(block, p, Start, t.tracks), PieceEnd(block, p, p);
      assert block[p..p] == [] && RunFrom(Start, []) == Start by {
        EmptyRun();
      }
      ScanPiece(block, p, p, t.tracks);
      RunIsLanguage(st, block[p..e]);
      OrdinalInjective(st, token.state);
      PieceMoves(block, p);
      FinalsCountPieces(block, token.end, Tally(Bump(t.finals, token.state), token.counts), st);
      assert Pieces(block, p) == [block[p..e]] + Pieces(block, token.end);
      assert Pieces(block, p)[1..] == Pieces(block, token.end);
    }
  }

  lemma EmptyRun()
    ensures RunFrom(Start, []) == Start
  {
  }

  lemma OrdinalInjective(a: CoreState, b: CoreState)
    ensures Ordinal(a) == Ordinal(b) <==> a == b
  {
  }

  // ------------------------------------------------------------------
  // Counting transitions
  // ------------------------------------------------------------------

  /** The symbol that makes after out of before counts for st. A state counts where its language is
      left; Invalid where a first symbol fits nothing, or where a scientific number ends in a symbol
      that does not fit. */
  ghost predicate Departs(st: CoreState, before: seq<bv8>, after: seq<bv8>) {
    match st
    case Invalid => Language(Invalid, after) && (before == [] || IsScientific(before))
    case Scientific => false
    case _ => Language(st, before) && !Language(st, after)
  }

  /** The places of a piece that count for st. */
  ghost function Departures(st: CoreState, t: seq<bv8>): nat
    decreases |t|
  {
    if t == [] then 0
    else Departures(st, t[..|t| - 1]) + if Departs(st, t[..|t| - 1], t) then 1 else 0
  }

  ghost function AllDepartures(st: CoreState, pieces: seq<seq<bv8>>): nat {
    if pieces == [] then 0 else Departures(st, pieces[0]) + AllDepartures(st, pieces[1..])
  }

  /** Departs in terms of the states before and after. */
  predicate Leaves(st: CoreState, from: CoreState, to: CoreState) {
    match st
    case Invalid => to == Invalid && (from == Start || from == Scientific)
    case Scientific => false
    case _ => from == st && to != st
  }

  lemma TrackLeaves(counts: Counts, from: CoreState, c: bv8, st: CoreState)
    requires from != Invalid
    ensures Track(counts, from, c)[Ordinal(st)] == counts[Ordinal(st)] + if Leaves(st, from, Next(from, c)) then 1 else 0
  {
    hide IsDigit, IsSign, IsExponentMark;
  }

  lemma LeavesDeparts(st: CoreState, t: seq<bv8>, c: bv8)
    ensures Leaves(st, RunFrom(Start, t), Next(RunFrom(Start, t), c)) <==> Departs(st, t, t + [c])
  {
    hide RunFrom, Next, IsScientific, IsInt, IsFloat, IsMarked, IsMarkedSigned, IsBareSign;
    RunSnoc(Start, t, c);
    MachineDecides(t);
    RunIsLanguage(st, t);
    RunIsLanguage(st, t + [c]);
  }

  lemma DeparturesSnoc(st: CoreState, t: seq<bv8>, c: bv8)
    ensures Departures(st, t + [c]) == Departures(st, t) + if Departs(st, t, t + [c]) then 1 else 0
  {
    hide Departs;
    assert (t + [c])[..|t|] == t;
  }

  /** From q on, the scan of a piece counts the departures that are still to come. */
  lemma {:induction false} ScanDeparts(block: seq<bv8>, p: nat, q: nat, counts: Counts, st: CoreState)
    requires p <= q <= |block|
    ensures var s, e := Scan(block, q, RunFrom(Start, block[p..q]), counts), PieceEnd(block, p, q);
            s.counts[Ordinal(st)] + Departures(st, block[p..q]) == counts[Ordinal(st)] + Departures(st, block[p..e])
    decreases |block| - q
  {
    hide Language, RunFrom, Next, Track, Departures, Departs, Leaves;
    var t := block[p..q];
    RunIsLanguage(Invalid, t);
    if !AtEnd(block, q) && block[q] != COMMA && !Language(Invalid, t) {
      assert block[p..q + 1] == t + [block[q]];
      RunSnoc(Start, t, block[q]);
      TrackLeaves(counts, RunFrom(Start, t), block[q], st);
      LeavesDeparts(st, t, block[q]);
      DeparturesSnoc(st, t, block[q]);
      ScanDeparts(block, p, q + 1, Track(counts, RunFrom(Start, t), block[q]), st);
    }
  }

  /** For every block, the transition count of a state is the number of places in the pieces of the
      text that count for it. */
  lemma {:induction false} TracksCountPieces(block: seq<bv8>, p: nat, t: Tally, st: CoreState)
    requires p <= |block|
    ensures ScanAll(block, p, t).tracks[Ordinal(st)] == t.tracks[Ordinal(st)] + AllDepartures(st, Pieces(block, p))
    decreases |block| - p
  {
    hide Language, RunFrom, Scan, After, Departures;
    if !AtEnd(block, p) {
      var token, e := Scan(block, p, Start, t.tracks), PieceEnd(block, p, p);
      assert block[p..p] == [];
      EmptyRun();
      NoDepartures(st);
      ScanPiece(block, p, p, t.tracks);
      ScanDeparts(block, p, p, t.tracks, st);
      PieceMoves(block, p);
      TracksCountPieces(block, token.end, Tally(Bump(t.finals, token.state), token.counts), st);
      assert Pieces(block, p) == [block[p..e]] + Pieces(block, token.end);
      assert Pieces(block, p)[1..] == Pieces(block, token.end);
    }
  }

  lemma NoDepartures(st: CoreState)
    ensures Departures(st, []) == 0
  {
  }

  // ------------------------------------------------------------------
  // What core_bench_state returns
  // ------------------------------------------------------------------

  /** The symbols of the language, by character. */
  lemma SymbolsAre(b: bv8)
    ensures var c := b as int as char;
            && (IsDigit(b) <==> c in "0123456789") && (IsSign(b) <==> c in "+-") && (IsExponentMark(b) <==> c in "eE")
            && (b == COMMA <==> c == ',') && (b == DOT <==> c == '.')
  {
  }

  /** Every step-th byte below size is xored with the seed unless it is a comma; no other changes. */
  lemma CorruptedAt(block: seq<bv8>, size: nat, seed: bv8, step: nat, i: nat)
    requires step > 0 && i < |block|
    ensures Corrupt(block, size, seed, step)[i]
            == if i < size && i % step == 0 && block[i] != 0x2c then block[i] ^ seed else block[i]
  {
  }

  /** (ee_u8)seed is the byte with the seed's residue. */
  lemma SeedByteIs(seed: int, b: bv8)
    requires b as int == seed % 0x100
    ensures SeedByte(seed) == b
  {
    assert (b as int) as bv8 == b;
  }

  /** crcu32 over a list of words. */
  function CrcList(words: seq<nat>, crc: bv16): bv16 {
    if words == [] then crc else CrcList(words[1..], CrcU32(words[0], crc))
  }

  lemma CrcPair(x: nat, y: nat, rest: seq<nat>, crc: bv16)
    ensures CrcList([x, y] + rest, crc) == CrcList(rest, CrcU32(y, CrcU32(x, crc)))
  {
    hide CrcU32;
    assert ([x, y] + rest)[1..] == [y] + rest && ([y] + rest)[1..] == rest;
  }

  /** The counts from state i on, final and transition count in turn. */
  function InTurn(t: Tally, i: nat): seq<nat>
    requires i <= NUM_CORE_STATES
    decreases NUM_CORE_STATES - i
  {
    if i == NUM_CORE_STATES then [] else [t.finals[i], t.tracks[i]] + InTurn(t, i + 1)
  }

  lemma {:induction false} CountsInTurn(t: Tally, i: nat, crc: bv16)
    requires i <= NUM_CORE_STATES
    ensures CrcCounts(t, i, crc) == CrcList(InTurn(t, i), crc)
    decreases NUM_CORE_STATES - i
  {
    hide CrcU32;
    if i < NUM_CORE_STATES {
      CrcPair(t.finals[i], t.tracks[i], InTurn(t, i + 1), crc);
      CountsInTurn(t, i + 1, CrcU32(t.tracks[i], CrcU32(t.finals[i], crc)));
    }
  }

  /** How many pieces of the two texts are in the language of st. */
  ghost function Finals(st: CoreState, text: seq<bv8>, text': seq<bv8>): nat {
    Count(st, Pieces(text, 0)) + Count(st, Pieces(text', 0))
  }

  /** How many places in the pieces of the two texts count for st. */
  ghost function Tracks(st: CoreState, text: seq<bv8>, text': seq<bv8>): nat {
    AllDepartures(st, Pieces(text, 0)) + AllDepartures(st, Pieces(text', 0))
  }

  /** The sixteen words that core_bench_state folds into its CRC, in order. */
  ghost function Folded(a: seq<bv8>, b: seq<bv8>): seq<nat> {
    [Finals(Start, a, b), Tracks(Start, a, b), Finals(Invalid, a, b), Tracks(Invalid, a, b),
     Finals(S1, a, b), Tracks(S1, a, b), Finals(S2, a, b), Tracks(S2, a, b),
     Finals(Int, a, b), Tracks(Int, a, b), Finals(Float, a, b), Tracks(Float, a, b),
     Finals(Exponent, a, b), Tracks(Exponent, a, b), Finals(Scientific, a, b), Tracks(Scientific, a, b)]
  }

  lemma TallyOf(a: seq<bv8>, b: seq<bv8>, st: CoreState)
    ensures var t := ScanAll(b, 0, ScanAll(a, 0, Tally(NO_COUNTS, NO_COUNTS)));
            t.finals[Ordinal(st)] == Finals(st, a, b) && t.tracks[Ordinal(st)] == Tracks(st, a, b)
  {
    hide ScanAll, Pieces, Count, AllDepartures;
    var s := ScanAll(a, 0, Tally(NO_COUNTS, NO_COUNTS));
    FinalsCountPieces(a, 0, Tally(NO_COUNTS, NO_COUNTS), st);
    FinalsCountPieces(b, 0, s, st);
    TracksCountPieces(a, 0, Tally(NO_COUNTS, NO_COUNTS), st);
    TracksCountPieces(b, 0, s, st);
  }

  /** The value of core_bench_state in terms of the text before and after the first corruption: the
      final and transition counts of the eight states, in the order of the enumeration. */
  lemma BenchStateIs(size: nat, block: seq<bv8>, seed1: bv8, seed2: bv8, step: nat, crc: bv16)
    requires step > 0
    ensures BenchState(size, block, seed1, seed2, step, crc).0
            == CrcList(Folded(block, Corrupt(block, size, seed1, step)), crc)
  {
    hide ScanAll, Finals, Tracks, CrcU32, CrcList, CrcCounts, Corrupt;
    var a, b := block, Corrupt(block, size, seed1, step);
    var t := StateTally(size, block, seed1, step);
    CountsInTurn(t, 0, crc);
    TallyOf(a, b, Start);
    TallyOf(a, b, Invalid);
    TallyOf(a, b, S1);
    TallyOf(a, b, S2);
    TallyOf(a, b, Int);
    TallyOf(a, b, Float);
    TallyOf(a, b, Exponent);
    TallyOf(a, b, Scientific);
    AllInTurn(t);
  }

  lemma AllInTurn(t: Tally)
    ensures InTurn(t, 0) == [t.finals[0], t.tracks[0], t.finals[1], t.tracks[1], t.finals[2], t.tracks[2], t.finals[3], t.tracks[3],
                             t.finals[4], t.tracks[4], t.finals[5], t.tracks[5], t.finals[6], t.tracks[6], t.finals[7], t.tracks[7]]
  {
    assert InTurn(t, 8) == [];
    assert InTurn(t, 7) == [t.finals[7], t.tracks[7]];
    assert InTurn(t, 6) == [t.finals[6], t.tracks[6]] + InTurn(t, 7);
    assert InTurn(t, 5) == [t.finals[5], t.tracks[5]] + InTurn(t, 6);
    assert InTurn(t, 4) == [t.finals[4], t.tracks[4]] + InTurn(t, 5);
    assert InTurn(t, 3) == [t.finals[3], t.tracks[3]] + InTurn(t, 4);
    assert InTurn(t, 2) == [t.finals[2], t.tracks[2]] + InTurn(t, 3);
    assert InTurn(t, 1) == [t.finals[1], t.tracks[1]] + InTurn(t, 2);
  }

  // ------------------------------------------------------------------
  // Undoing the corruption
  // ------------------------------------------------------------------

  /** The second corruption undoes the first at this byte. */
  predicate Undoes(b: bv8, seed1: bv8, seed2: bv8) {
    b == COMMA || (seed1 == seed2 && Xor8(b, seed1) != COMMA)
  }

  lemma XorTwice(b: bv8, seed: bv8)
    ensures Xor8(Xor8(b, seed), seed) == b
  {
  }

  lemma XorInjective(b: bv8, seed1: bv8, seed2: bv8)
    requires Xor8(b, seed1) == Xor8(b, seed2)
    ensures seed1 == seed2
  {
  }

  lemma FlipUndone(b: bv8, seed1: bv8, seed2: bv8)
    ensures Flip(Flip(b, seed1), seed2) == b <==> Undoes(b, seed1, seed2)
  {
    XorTwice(b, seed1);
    var f := Xor8(b, seed1);
    XorTwice(f, seed2);
    if Xor8(f, seed2) == b {
      assert Xor8(b, seed2) == f;
      XorInjective(b, seed1, seed2);
    }
  }

  /** The exact condition for core_bench_state to leave its block as it found it. */
  lemma RestoredExactly(size: nat, block: seq<bv8>, seed1: bv8, seed2: bv8, step: nat, crc: bv16)
    requires step > 0
    ensures BenchState(size, block, seed1, seed2, step, crc).1 == block <==>
            forall i | 0 <= i < |block| && i < size && i % step == 0 :: Undoes(block[i], seed1, seed2)
  {
    var r := BenchState(size, block, seed1, seed2, step, crc).1;
    forall i | 0 <= i < |block|
      ensures r[i] == block[i] <==> (Visited(size, step, i) ==> Undoes(block[i], seed1, seed2))
    {
      FlipUndone(block[i], seed1, seed2);
    }
  }
}
