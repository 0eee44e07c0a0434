/** BLAKE2b's round on bare 64-bit words: what two worked examples evaluate. */
module Blake2bRounds {
  import opened Blake2b

  datatype Bits = Bits(a: bv64, b: bv64, c: bv64, d: bv64)

  /** Four quads of the sixteen words: the columns, or the diagonals. */
  datatype Four = Four(q0: Bits, q1: Bits, q2: Bits, q3: Bits)

  /** The message words of one round, in the order of its schedule. */
  datatype Scheduled = Scheduled(x0: bv64, x1: bv64, x2: bv64, x3: bv64, x4: bv64, x5: bv64, x6: bv64, x7: bv64,
                                 x8: bv64, x9: bv64, x10: bv64, x11: bv64, x12: bv64, x13: bv64, x14: bv64, x15: bv64)

  function Add(x: bv64, y: bv64): bv64 { Plus(Word(x), Word(y)).bits }

  function Differ(x: bv64, y: bv64): bv64 { x ^ y }

  function R32(x: bv64): bv64 { x.RotateRight(32) }

  function R24(x: bv64): bv64 { x.RotateRight(24) }

  function R16(x: bv64): bv64 { x.RotateRight(16) }

  function R63(x: bv64): bv64 { x.RotateRight(63) }

  /** Section 3.1. */
  function MixBits(q: Bits, x: bv64, y: bv64): Bits
  {
    var a1 := Add(Add(q.a, q.b), x);
    var d1 := R32(Differ(q.d, a1));
    var c1 := Add(q.c, d1);
    var b1 := R24(Differ(q.b, c1));
    var a2 := Add(Add(a1, b1), y);
    var d2 := R16(Differ(d1, a2));
    var c2 := Add(c1, d2);
    Bits(a2, R63(Differ(b1, c2)), c2, d2)
  }

  /** From the diagonals of one round to the columns of the next, with the scheduled words `x`. */
  function Columns(d: Four, x: Scheduled): Four
  {
    Four(MixBits(Bits(d.q0.a, d.q3.b, d.q2.c, d.q1.d), x.x0, x.x1),
         MixBits(Bits(d.q1.a, d.q0.b, d.q3.c, d.q2.d), x.x2, x.x3),
         MixBits(Bits(d.q2.a, d.q1.b, d.q0.c, d.q3.d), x.x4, x.x5),
         MixBits(Bits(d.q3.a, d.q2.b, d.q1.c, d.q0.d), x.x6, x.x7))
  }

  function Diagonals(c: Four, x: Scheduled): Four
  {
    Four(MixBits(Bits(c.q0.a, c.q1.b, c.q2.c, c.q3.d), x.x8, x.x9),
         MixBits(Bits(c.q1.a, c.q2.b, c.q3.c, c.q0.d), x.x10, x.x11),
         MixBits(Bits(c.q2.a, c.q3.b, c.q0.c, c.q1.d), x.x12, x.x13),
         MixBits(Bits(c.q3.a, c.q0.b, c.q1.c, c.q2.d), x.x14, x.x15))
  }

  // ---------------------------------------------------------------------------
  // It is the definition's round
  // ---------------------------------------------------------------------------

  function AsQuad(q: Bits): Quad
  {
    Quad(Word(q.a), Word(q.b), Word(q.c), Word(q.d))
  }

  function MixQuad(q: Quad, x: Word, y: Word): Quad
  {
    HalfMix(HalfMix(q, x, 32, 24), y, 16, 63)
  }

  lemma Sum(x: bv64, y: bv64)
    ensures Plus(Word(x), Word(y)) == Word(Add(x, y))
  {
    hide Plus;
  }

  lemma Difference(x: bv64, y: bv64)
    ensures Xor(Word(x), Word(y)) == Word(Differ(x, y))
  {
  }

  lemma Rotated32(x: bv64)
    ensures Rotated(Word(x), 32) == Word(R32(x))
  {
  }

  lemma Rotated24(x: bv64)
    ensures Rotated(Word(x), 24) == Word(R24(x))
  {
  }

  lemma Rotated16(x: bv64)
    ensures Rotated(Word(x), 16) == Word(R16(x))
  {
  }

  lemma Rotated63(x: bv64)
    ensures Rotated(Word(x), 63) == Word(R63(x))
  {
  }

  lemma MixQuadIs(q: Bits, x: bv64, y: bv64)
    ensures MixQuad(AsQuad(q), Word(x), Word(y)) == AsQuad(MixBits(q, x, y))
  {
    hide Add, Differ, R32, R24, R16, R63, Plus, Xor, Rotated;
    Sum(q.a, q.b);
    var a1 := Add(Add(q.a, q.b), x);
    Sum(Add(q.a, q.b), x);
    Difference(q.d, a1);
    Rotated32(Differ(q.d, a1));
    var d1 := R32(Differ(q.d, a1));
    Sum(q.c, d1);
    var c1 := Add(q.c, d1);
    Difference(q.b, c1);
    Rotated24(Differ(q.b, c1));
    var b1 := R24(Differ(q.b, c1));
    Sum(a1, b1);
    Sum(Add(a1, b1), y);
    var a2 := Add(Add(a1, b1), y);
    Difference(d1, a2);
    Rotated16(Differ(d1, a2));
    var d2 := R16(Differ(d1, a2));
    Sum(c1, d2);
    var c2 := Add(c1, d2);
    Difference(b1, c2);
    Rotated63(Differ(b1, c2));
  }

  /** The sixteen words, from their columns. */
  function FromColumns(c: Four): seq<Word>
  {
    [Word(c.q0.a), Word(c.q1.a), Word(c.q2.a), Word(c.q3.a), Word(c.q0.b), Word(c.q1.b), Word(c.q2.b), Word(c.q3.b),
     Word(c.q0.c), Word(c.q1.c), Word(c.q2.c), Word(c.q3.c), Word(c.q0.d), Word(c.q1.d), Word(c.q2.d), Word(c.q3.d)]
  }

  /** The sixteen words, from their diagonals. */
  function FromDiagonals(d: Four): seq<Word>
  {
    [Word(d.q0.a), Word(d.q1.a), Word(d.q2.a), Word(d.q3.a), Word(d.q3.b), Word(d.q0.b), Word(d.q1.b), Word(d.q2.b),
     Word(d.q2.c), Word(d.q3.c), Word(d.q0.c), Word(d.q1.c), Word(d.q1.d), Word(d.q2.d), Word(d.q3.d), Word(d.q0.d)]
  }

  function MixColumns(v: seq<Word>, x: seq<Word>): (r: seq<Word>)
    requires |v| == 16 && |x| == 16
    ensures |r| == 16
  {
    var v := Mix(v, 0, 4, 8, 12, x[0], x[1]);
    var v := Mix(v, 1, 5, 9, 13, x[2], x[3]);
    var v := Mix(v, 2, 6, 10, 14, x[4], x[5]);
    Mix(v, 3, 7, 11, 15, x[6], x[7])
  }

  function MixDiagonals(v: seq<Word>, x: seq<Word>): (r: seq<Word>)
    requires |v| == 16 && |x| == 16
    ensures |r| == 16
  {
    var v := Mix(v, 0, 5, 10, 15, x[8], x[9]);
    var v := Mix(v, 1, 6, 11, 12, x[10], x[11]);
    var v := Mix(v, 2, 7, 8, 13, x[12], x[13]);
    Mix(v, 3, 4, 9, 14, x[14], x[15])
  }

  function AsWords(x: Scheduled): (r: seq<Word>)
    ensures |r| == 16
  {
    [Word(x.x0), Word(x.x1), Word(x.x2), Word(x.x3), Word(x.x4), Word(x.x5), Word(x.x6), Word(x.x7),
     Word(x.x8), Word(x.x9), Word(x.x10), Word(x.x11), Word(x.x12), Word(x.x13), Word(x.x14), Word(x.x15)]
  }

  /** The words `s` picks from the message are `x`. */
  ghost predicate Picks(m: seq<Word>, s: seq<nat>, x: Scheduled)
  {
    && |m| == 16 && IsSchedule(s)
    && m[s[0]] == Word(x.x0) && m[s[1]] == Word(x.x1) && m[s[2]] == Word(x.x2) && m[s[3]] == Word(x.x3)
    && m[s[4]] == Word(x.x4) && m[s[5]] == Word(x.x5) && m[s[6]] == Word(x.x6) && m[s[7]] == Word(x.x7)
    && m[s[8]] == Word(x.x8) && m[s[9]] == Word(x.x9) && m[s[10]] == Word(x.x10) && m[s[11]] == Word(x.x11)
    && m[s[12]] == Word(x.x12) && m[s[13]] == Word(x.x13) && m[s[14]] == Word(x.x14) && m[s[15]] == Word(x.x15)
  }

  lemma MixedColumns(v: seq<Word>, x: seq<Word>)
    requires |v| == 16 && |x| == 16
    ensures var c0 := MixQuad(Quad(v[0], v[4], v[8], v[12]), x[0], x[1]);
            var c1 := MixQuad(Quad(v[1], v[5], v[9], v[13]), x[2], x[3]);
            var c2 := MixQuad(Quad(v[2], v[6], v[10], v[14]), x[4], x[5]);
            var c3 := MixQuad(Quad(v[3], v[7], v[11], v[15]), x[6], x[7]);
            MixColumns(v, x) == [c0.a, c1.a, c2.a, c3.a, c0.b, c1.b, c2.b, c3.b,
                                 c0.c, c1.c, c2.c, c3.c, c0.d, c1.d, c2.d, c3.d]
  {
    hide HalfMix;
  }

  lemma MixedDiagonals(v: seq<Word>, x: seq<Word>)
    requires |v| == 16 && |x| == 16
    ensures var d0 := MixQuad(Quad(v[0], v[5], v[10], v[15]), x[8], x[9]);
            var d1 := MixQuad(Quad(v[1], v[6], v[11], v[12]), x[10], x[11]);
            var d2 := MixQuad(Quad(v[2], v[7], v[8], v[13]), x[12], x[13]);
            var d3 := MixQuad(Quad(v[3], v[4], v[9], v[14]), x[14], x[15]);
            MixDiagonals(v, x) == [d0.a, d1.a, d2.a, d3.a, d3.b, d0.b, d1.b, d2.b,
                                   d2.c, d3.c, d0.c, d1.c, d1.d, d2.d, d3.d, d0.d]
  {
    hide HalfMix;
  }

  lemma ColumnsAre(d: Four, x: Scheduled)
    ensures MixColumns(FromDiagonals(d), AsWords(x)) == FromColumns(Columns(d, x))
  {
    hide MixBits, MixQuad, MixColumns;
    MixedColumns(FromDiagonals(d), AsWords(x));
    MixQuadIs(Bits(d.q0.a, d.q3.b, d.q2.c, d.q1.d), x.x0, x.x1);
    MixQuadIs(Bits(d.q1.a, d.q0.b, d.q3.c, d.q2.d), x.x2, x.x3);
    MixQuadIs(Bits(d.q2.a, d.q1.b, d.q0.c, d.q3.d), x.x4, x.x5);
    MixQuadIs(Bits(d.q3.a, d.q2.b, d.q1.c, d.q0.d), x.x6, x.x7);
  }

  lemma DiagonalsAre(c: Four, x: Scheduled)
    ensures MixDiagonals(FromColumns(c), AsWords(x)) == FromDiagonals(Diagonals(c, x))
  {
    hide MixBits, MixQuad, MixDiagonals;
    MixedDiagonals(FromColumns(c), AsWords(x));
    MixQuadIs(Bits(c.q0.a, c.q1.b, c.q2.c, c.q3.d), x.x8, x.x9);
    MixQuadIs(Bits(c.q1.a, c.q2.b, c.q3.c, c.q0.d), x.x10, x.x11);
    MixQuadIs(Bits(c.q2.a, c.q3.b, c.q0.c, c.q1.d), x.x12, x.x13);
    MixQuadIs(Bits(c.q3.a, c.q0.b, c.q1.c, c.q2.d), x.x14, x.x15);
  }

  /** The words the schedule picks. */
  function Picked(m: seq<Word>, s: seq<nat>): (r: seq<Word>)
    requires |m| == 16 && IsSchedule(s)
    ensures |r| == 16
  {
    [Pick(m, s, 0), Pick(m, s, 1), Pick(m, s, 2), Pick(m, s, 3),
     Pick(m, s, 4), Pick(m, s, 5), Pick(m, s, 6), Pick(m, s, 7),
     Pick(m, s, 8), Pick(m, s, 9), Pick(m, s, 10), Pick(m, s, 11),
     Pick(m, s, 12), Pick(m, s, 13), Pick(m, s, 14), Pick(m, s, 15)]
  }

  lemma PicksAre(s: seq<nat>, x: Scheduled, m: seq<Word>)
    requires Picks(m, s, x)
    ensures Picked(m, s) == AsWords(x)
  {
    hide IsSchedule;
  }

  lemma RoundIs(d: Four, s: seq<nat>, x: Scheduled, m: seq<Word>)
    requires Picks(m, s, x)
    ensures Round(FromDiagonals(d), m, s) == FromDiagonals(Diagonals(Columns(d, x), x))
  {
    var v, y := FromDiagonals(d), AsWords(x);
    assert Round(v, m, s) == MixDiagonals(MixColumns(v, y), y) by {
      PicksAre(s, x, m);
      hide Mix, Pick, AsWords, FromDiagonals, Picks, IsSchedule;
    }
    ColumnsAre(d, x);
    DiagonalsAre(Columns(d, x), x);
    hide Round, MixColumns, MixDiagonals, FromColumns, FromDiagonals, Columns, Diagonals, AsWords;
  }

  /** Round `r` takes the state from `d` to `e`. */
  lemma RoundStep(r: nat, d: Four, x: Scheduled, e: Four, v: seq<Word>, m: seq<Word>)
    requires Picks(m, SIGMA[r % 10], x) && Diagonals(Columns(d, x), x) == e
    requires |v| == 16 && Rounds(v, m, r) == FromDiagonals(d)
    ensures Rounds(v, m, r + 1) == FromDiagonals(e)
  {
    RoundIs(d, SIGMA[r % 10], x, m);
    hide Round, FromDiagonals, Columns, Diagonals, Picks;
  }

  lemma NoRounds(v: seq<Word>, m: seq<Word>)
    requires |v| == 16 && |m| == 16
    ensures Rounds(v, m, 0) == v
  {
  }

  /** The final state of a message of one block. */
  lemma OneBlock(msg: seq<Octet>, n: nat)
    requires 1 <= |msg| <= 128 && BlockCount(|msg|) == 1 && n == 12
    ensures FinalState(msg, 64) ==
              Folded(InitialState(64),
                     Rounds(WorkVector(InitialState(64), |msg|, true), BlockWords(Padded(msg), 0), n))
  {
    hide Rounds, BlockWords, Padded, WorkVector, Folded, InitialState;
  }
}
