/** The 8-byte unkeyed BLAKE2b kernel against the definition in RFC 7693. The definition is
    functional: a padded message cut into blocks, ten message schedules reused modulo ten, a
    two-word byte counter, and a digest that is a string of bytes. The kernel works in place
    on word arrays with twelve schedule rows, one counter word and no padded copy. */
module Blake2b {

  /** A `uint64` word: addition wraps. */
  datatype Word = Word(bits: bv64)

  type Octet = bv8

  const TWO64: nat := 0x1_0000_0000_0000_0000
  const TWO128: nat := 0x1_0000_0000_0000_0000_0000_0000_0000_0000

  /** RFC 7693, section 2.6. */
  const IV: seq<Word> := [
    Word(0x6A09E667F3BCC908), Word(0xBB67AE8584CAA73B), Word(0x3C6EF372FE94F82B), Word(0xA54FF53A5F1D36F1),
    Word(0x510E527FADE682D1), Word(0x9B05688C2B3E6C1F), Word(0x1F83D9ABFB41BD6B), Word(0x5BE0CD19137E2179)]

  const ALL_ONES := Word(0xFFFFFFFFFFFFFFFF)

  // ---------------------------------------------------------------------------
  // Words and bytes
  // ---------------------------------------------------------------------------

  function Or(x: Word, y: Word): Word { Word(x.bits | y.bits) }

  function Plus(x: Word, y: Word): Word { Word(x.bits + y.bits) }

  function Xor(x: Word, y: Word): Word { Word(x.bits ^ y.bits) }

  function LowByte(w: Word): Octet { (w.bits & 0xFF) as bv8 }

  function Above(w: Word): Word { Word(w.bits >> 8) }

  function Join(low: Octet, above: Word): Word { Word((low as bv64) | (above.bits << 8)) }

  /** The little-endian value of at most eight bytes. */
  function LittleEndian(bs: seq<Octet>): Word
  {
    if bs == [] then Word(0) else Join(bs[0], LittleEndian(bs[1..]))
  }

  /** The low `count` bytes of a word, lowest first. */
  function BytesOf(w: Word, count: nat): (bs: seq<Octet>)
    ensures |bs| == count
    decreases count
  {
    if count == 0 then [] else [LowByte(w)] + BytesOf(Above(w), count - 1)
  }

  /** `b << (8 * at)`. */
  function Shifted(b: Octet, at: nat): Word
    requires at < 8
  {
    var x := b as bv64;
    Word(match at
         case 0 => x
         case 1 => x << 8
         case 2 => x << 16
         case 3 => x << 24
         case 4 => x << 32
         case 5 => x << 40
         case 6 => x << 48
         case _ => x << 56)
  }

  /** One byte place up. */
  function Up(x: Word): Word { Word(x.bits << 8) }

  lemma Up0(b: Octet)
    ensures Up(Shifted(b, 0)) == Shifted(b, 1)
  {
  }

  lemma Up1(b: Octet)
    ensures Up(Shifted(b, 1)) == Shifted(b, 2)
  {
  }

  lemma Up2(b: Octet)
    ensures Up(Shifted(b, 2)) == Shifted(b, 3)
  {
  }

  lemma Up3(b: Octet)
    ensures Up(Shifted(b, 3)) == Shifted(b, 4)
  {
  }

  lemma Up4(b: Octet)
    ensures Up(Shifted(b, 4)) == Shifted(b, 5)
  {
  }

  lemma Up5(b: Octet)
    ensures Up(Shifted(b, 5)) == Shifted(b, 6)
  {
  }

  lemma Up6(b: Octet)
    ensures Up(Shifted(b, 6)) == Shifted(b, 7)
  {
  }

  lemma ShiftOnce(b: Octet, at: nat)
    requires at < 7
    ensures Up(Shifted(b, at)) == Shifted(b, at + 1)
  {
    hide *;
    match at
    case 0 => Up0(b);
    case 1 => Up1(b);
    case 2 => Up2(b);
    case 3 => Up3(b);
    case 4 => Up4(b);
    case 5 => Up5(b);
    case _ => Up6(b);
  }

  lemma JoinOr(low: Octet, x: Word, y: Word)
    ensures Join(low, Or(x, y)) == Or(Join(low, x), Up(y))
  {
  }

  lemma JoinAppend(low: Octet, x: Word, b: Octet, at: nat)
    requires at < 7
    ensures Join(low, Or(x, Shifted(b, at))) == Or(Join(low, x), Shifted(b, at + 1))
  {
    hide Join, Shifted, Or, Up;
    JoinOr(low, x, Shifted(b, at));
    ShiftOnce(b, at);
  }

  lemma JoinNothing(b: Octet)
    ensures Join(b, Word(0)) == Or(Word(0), Shifted(b, 0))
  {
  }

  lemma ZeroShifted(at: nat)
    requires at < 8
    ensures Shifted(0, at) == Word(0)
  {
  }

  /** Appending a byte ORs it in above the bytes already there. */
  lemma {:induction false} LittleEndianAppend(bs: seq<Octet>, b: Octet)
    requires |bs| < 8
    ensures LittleEndian(bs + [b]) == Or(LittleEndian(bs), Shifted(b, |bs|))
  {
    hide Join, Shifted, Or;
    if bs == [] {
      assert [b][1..] == [];
      JoinNothing(b);
    } else {
      assert (bs + [b])[1..] == bs[1..] + [b];
      LittleEndianAppend(bs[1..], b);
      JoinAppend(bs[0], LittleEndian(bs[1..]), b, |bs| - 1);
    }
  }

  lemma LittleEndianCons(b: Octet, rest: seq<Octet>)
    ensures LittleEndian([b] + rest) == Join(b, LittleEndian(rest))
  {
    assert ([b] + rest)[1..] == rest;
  }

  predicate Fits(w: Word, count: nat)
    decreases count
  {
    if count == 0 then w == Word(0) else Fits(Above(w), count - 1)
  }

  lemma SplitLow(w: Word)
    ensures Join(LowByte(w), Above(w)) == w
  {
  }

  lemma NothingAboveEightBytes(w: Word)
    ensures Above(Above(Above(Above(Above(Above(Above(Above(w)))))))) == Word(0)
  {
  }

  lemma FitsDown(w: Word, count: nat)
    requires Fits(Above(w), count)
    ensures Fits(w, count + 1)
  {
  }

  lemma EightBytesFit(w: Word)
    ensures Fits(w, 8)
  {
    hide Above;
    NothingAboveEightBytes(w);
    var w4 := Above(Above(Above(Above(w))));
    assert Fits(w4, 4) by {
      FitsDown(Above(Above(Above(w4))), 0);
      FitsDown(Above(Above(w4)), 1);
      FitsDown(Above(w4), 2);
      FitsDown(w4, 3);
    }
    FitsDown(Above(Above(Above(w))), 4);
    FitsDown(Above(Above(w)), 5);
    FitsDown(Above(w), 6);
    FitsDown(w, 7);
  }

  lemma {:induction false} BytesOfThenLittleEndian(w: Word, count: nat)
    requires Fits(w, count)
    ensures LittleEndian(BytesOf(w, count)) == w
    decreases count
  {
    if count != 0 {
      hide Join, LowByte, Above;
      BytesOfThenLittleEndian(Above(w), count - 1);
      LittleEndianCons(LowByte(w), BytesOf(Above(w), count - 1));
      SplitLow(w);
    }
  }

  // ---------------------------------------------------------------------------
  // RFC 7693: mixing, compression, the message
  // ---------------------------------------------------------------------------

  /** Section 2.7: the ten message schedules. */
  const SIGMA: seq<seq<nat>> := [
    [0, 1, 2, 3, 4, 5, 6, 7, 8, 9, 10, 11, 12, 13, 14, 15],
    [14, 10, 4, 8, 9, 15, 13, 6, 1, 12, 0, 2, 11, 7, 5, 3],
    [11, 8, 12, 0, 5, 2, 15, 13, 10, 14, 3, 6, 7, 1, 9, 4],
    [7, 9, 3, 1, 13, 12, 11, 14, 2, 6, 5, 10, 4, 0, 15, 8],
    [9, 0, 5, 7, 2, 4, 10, 15, 14, 1, 11, 12, 6, 8, 3, 13],
    [2, 12, 6, 10, 0, 11, 8, 3, 4, 13, 7, 5, 15, 14, 1, 9],
    [12, 5, 1, 15, 14, 13, 4, 10, 0, 7, 6, 3, 9, 2, 8, 11],
    [13, 11, 7, 14, 12, 1, 3, 9, 5, 0, 15, 4, 8, 6, 2, 10],
    [6, 15, 14, 9, 11, 3, 0, 8, 12, 2, 13, 7, 1, 4, 10, 5],
    [10, 2, 8, 4, 7, 6, 1, 5, 15, 11, 9, 14, 3, 12, 13, 0]]

  predicate IsSchedule(s: seq<nat>)
  {
    |s| == 16 && forall i :: 0 <= i < 16 ==> s[i] < 16
  }

  lemma SchedulesAreSound(r: nat)
    requires r < 10
    ensures IsSchedule(SIGMA[r])
  {
  }

  function Pick(m: seq<Word>, s: seq<nat>, k: nat): Word
    requires |m| == 16 && IsSchedule(s) && k < 16
  {
    m[s[k]]
  }

  /** The rotations section 2.1 fixes for 64-bit words. */
  predicate IsRotation(n: nat)
  {
    n in {16, 24, 32, 63}
  }

  function Rotated(x: Word, n: nat): Word
    requires IsRotation(n)
  {
    Word(match n
         case 16 => x.bits.RotateRight(16)
         case 24 => x.bits.RotateRight(24)
         case 32 => x.bits.RotateRight(32)
         case _ => x.bits.RotateRight(63))
  }

  datatype Quad = Quad(a: Word, b: Word, c: Word, d: Word)

  /** Half of section 3.1's mixing, on the four words it touches. */
  function HalfMix(q: Quad, x: Word, r1: nat, r2: nat): Quad
    requires IsRotation(r1) && IsRotation(r2)
  {
    var a := Plus(Plus(q.a, q.b), x);
    var d := Rotated(Xor(q.d, a), r1);
    var c := Plus(q.c, d);
    var b := Rotated(Xor(q.b, c), r2);
    Quad(a, b, c, d)
  }

  function Words(v: seq<Word>, a: nat, b: nat, c: nat, d: nat): Quad
    requires |v| == 16 && Distinct(a, b, c, d)
  {
    Quad(v[a], v[b], v[c], v[d])
  }

  function Placed(v: seq<Word>, a: nat, b: nat, c: nat, d: nat, q: Quad): (r: seq<Word>)
    requires |v| == 16 && Distinct(a, b, c, d)
    ensures |r| == 16
  {
    v[a := q.a][b := q.b][c := q.c][d := q.d]
  }

  predicate Distinct(a: nat, b: nat, c: nat, d: nat)
  {
    a < 16 && b < 16 && c < 16 && d < 16 && a != b && a != c && a != d && b != c && b != d && c != d
  }

  function Mix(v: seq<Word>, a: nat, b: nat, c: nat, d: nat, x: Word, y: Word): (r: seq<Word>)
    requires |v| == 16 && Distinct(a, b, c, d)
    ensures |r| == 16
  {
    Placed(v, a, b, c, d, HalfMix(HalfMix(Words(v, a, b, c, d), x, 32, 24), y, 16, 63))
  }

  /** One round: the four columns, then the four diagonals. */
  function Round(v: seq<Word>, m: seq<Word>, s: seq<nat>): (r: seq<Word>)
    requires |v| == 16 && |m| == 16 && IsSchedule(s)
    ensures |r| == 16
  {
    var v := Mix(v, 0, 4, 8, 12, Pick(m, s, 0), Pick(m, s, 1));
    var v := Mix(v, 1, 5, 9, 13, Pick(m, s, 2), Pick(m, s, 3));
    var v := Mix(v, 2, 6, 10, 14, Pick(m, s, 4), Pick(m, s, 5));
    var v := Mix(v, 3, 7, 11, 15, Pick(m, s, 6), Pick(m, s, 7));
    var v := Mix(v, 0, 5, 10, 15, Pick(m, s, 8), Pick(m, s, 9));
    var v := Mix(v, 1, 6, 11, 12, Pick(m, s, 10), Pick(m, s, 11));
    var v := Mix(v, 2, 7, 8, 13, Pick(m, s, 12), Pick(m, s, 13));
    Mix(v, 3, 4, 9, 14, Pick(m, s, 14), Pick(m, s, 15))
  }

  function Rounds(v: seq<Word>, m: seq<Word>, count: nat): (r: seq<Word>)
    requires |v| == 16 && |m| == 16
    ensures |r| == 16
  {
    if count == 0 then v
    else
      SchedulesAreSound((count - 1) % 10);
      Round(Rounds(v, m, count - 1), m, SIGMA[(count - 1) % 10])
  }

  function AsWord(t: nat): Word
    requires t < TWO64
  {
    Word(t as bv64)
  }

  /** Section 3.2's local state, with a two-word counter. */
  function WorkVector(h: seq<Word>, t: nat, last: bool): (v: seq<Word>)
    requires |h| == 8 && t < TWO128
    ensures |v| == 16
  {
    h + IV[..4] + [Xor(IV[4], AsWord(t % TWO64)), Xor(IV[5], AsWord(t / TWO64)),
                   if last then Xor(IV[6], ALL_ONES) else IV[6], IV[7]]
  }

  function Folded(h: seq<Word>, v: seq<Word>): (r: seq<Word>)
    requires |h| == 8 && |v| == 16
    ensures |r| == 8
  {
    seq(8, i requires 0 <= i < 8 => Xor(Xor(h[i], v[i]), v[i + 8]))
  }

  function Compress(h: seq<Word>, m: seq<Word>, t: nat, last: bool): (r: seq<Word>)
    requires |h| == 8 && |m| == 16 && t < TWO128
    ensures |r| == 8
  {
    Folded(h, Rounds(WorkVector(h, t, last), m, 12))
  }

  /** Section 3.3: `dd`, one block even for the empty message. */
  function BlockCount(ll: nat): (dd: nat)
    ensures dd >= 1 && ll <= 128 * dd
  {
    if ll == 0 then 1 else (ll + 127) / 128
  }

  function Padded(msg: seq<Octet>): (p: seq<Octet>)
    ensures |p| == 128 * BlockCount(|msg|)
  {
    msg + seq(128 * BlockCount(|msg|) - |msg|, i => 0)
  }

  function BlockWords(p: seq<Octet>, at: nat): (m: seq<Word>)
    requires at + 128 <= |p|
    ensures |m| == 16
  {
    seq(16, w requires 0 <= w < 16 => LittleEndian(p[at + 8 * w..at + 8 * w + 8]))
  }

  function InitialState(nn: nat): (h: seq<Word>)
    requires 1 <= nn <= 64
    ensures |h| == 8
  {
    [Xor(Xor(IV[0], Word(0x01010000)), AsWord(nn))] + IV[1..]
  }

  /** The state after the first `count` blocks, none of them the last. */
  function Absorbed(msg: seq<Octet>, nn: nat, count: nat): (h: seq<Word>)
    requires 1 <= nn <= 64 && |msg| < TWO128 && count < BlockCount(|msg|)
    ensures |h| == 8
  {
    if count == 0 then InitialState(nn)
    else Compress(Absorbed(msg, nn, count - 1), BlockWords(Padded(msg), 128 * (count - 1)), 128 * count, false)
  }

  function FinalState(msg: seq<Octet>, nn: nat): (h: seq<Word>)
    requires 1 <= nn <= 64 && |msg| < TWO128
    ensures |h| == 8
  {
    var dd := BlockCount(|msg|);
    Compress(Absorbed(msg, nn, dd - 1), BlockWords(Padded(msg), 128 * (dd - 1)), |msg|, true)
  }

  function StateBytes(h: seq<Word>): (bs: seq<Octet>)
    ensures |bs| == 8 * |h|
  {
    if h == [] then [] else BytesOf(h[0], 8) + StateBytes(h[1..])
  }

  /** The unkeyed digest of `nn` bytes: the head of the final state's bytes. */
  function Digest(msg: seq<Octet>, nn: nat): (d: seq<Octet>)
    requires 1 <= nn <= 64 && |msg| < TWO128
    ensures |d| == nn
  {
    StateBytes(FinalState(msg, nn))[..nn]
  }

  /** An 8-byte digest read little-endian is the first word of the final state. */
  lemma DigestIsFirstWord(msg: seq<Octet>)
    requires |msg| < TWO128
    ensures LittleEndian(Digest(msg, 8)) == FinalState(msg, 8)[0]
  {
    var h := FinalState(msg, 8);
    assert StateBytes(h)[..8] == BytesOf(h[0], 8);
    EightBytesFit(h[0]);
    BytesOfThenLittleEndian(h[0], 8);
  }

  // ---------------------------------------------------------------------------
  // The kernel
  // ---------------------------------------------------------------------------

  const PARAM_XOR := Word(0x0000000001010008)

  /** The kernel's table: the ten schedules, then the first two again. */
  const KERNEL_SIGMA: seq<seq<nat>> := SIGMA + [
    [0, 1, 2, 3, 4, 5, 6, 7, 8, 9, 10, 11, 12, 13, 14, 15],
    [14, 10, 4, 8, 9, 15, 13, 6, 1, 12, 0, 2, 11, 7, 5, 3]]

  lemma KernelRows(r: nat)
    requires r < 12
    ensures KERNEL_SIGMA[r] == SIGMA[r % 10] && IsSchedule(KERNEL_SIGMA[r])
  {
    SchedulesAreSound(r % 10);
  }

  function Rotr64(x: Word, n: bv7): Word
    requires n <= 64
  {
    Word((x.bits >> n) | (x.bits << (64 - n)))
  }

  lemma Rotr32(x: Word)
    ensures Rotr64(x, 32) == Rotated(x, 32)
  {
  }

  lemma Rotr24(x: Word)
    ensures Rotr64(x, 24) == Rotated(x, 24)
  {
  }

  lemma Rotr16(x: Word)
    ensures Rotr64(x, 16) == Rotated(x, 16)
  {
  }

  lemma Rotr63(x: Word)
    ensures Rotr64(x, 63) == Rotated(x, 63)
  {
  }

  /** The shift-and-or form rotates, for the four amounts the mixing uses. */
  lemma Rotr64Rotates(x: Word)
    ensures Rotr64(x, 32) == Rotated(x, 32) && Rotr64(x, 24) == Rotated(x, 24)
    ensures Rotr64(x, 16) == Rotated(x, 16) && Rotr64(x, 63) == Rotated(x, 63)
  {
    hide *;
    Rotr32(x);
    Rotr24(x);
    Rotr16(x);
    Rotr63(x);
  }

  /** Four in-place updates, each reading what the ones before it wrote, are one half. */
  lemma HalfInPlace(v: seq<Word>, a: nat, b: nat, c: nat, d: nat, x: Word, r1: nat, r2: nat,
                    s1: seq<Word>, s2: seq<Word>, s3: seq<Word>, s4: seq<Word>)
    requires |v| == |s1| == |s2| == |s3| == 16 && Distinct(a, b, c, d) && IsRotation(r1) && IsRotation(r2)
    requires s1 == v[a := Plus(Plus(v[a], v[b]), x)]
    requires s2 == s1[d := Rotated(Xor(s1[d], s1[a]), r1)]
    requires s3 == s2[c := Plus(s2[c], s2[d])]
    requires s4 == s3[b := Rotated(Xor(s3[b], s3[c]), r2)]
    ensures s4 == Placed(v, a, b, c, d, HalfMix(Words(v, a, b, c, d), x, r1, r2))
  {
    hide Plus, Xor, Rotated;
  }

  lemma PlacedTwice(v: seq<Word>, a: nat, b: nat, c: nat, d: nat, q1: Quad, q2: Quad)
    requires |v| == 16 && Distinct(a, b, c, d)
    ensures Words(Placed(v, a, b, c, d, q1), a, b, c, d) == q1
    ensures Placed(Placed(v, a, b, c, d, q1), a, b, c, d, q2) == Placed(v, a, b, c, d, q2)
  {
  }

  method G(v: array<Word>, a: nat, b: nat, c: nat, d: nat, x: Word, y: Word)
    requires v.Length == 16 && Distinct(a, b, c, d)
    modifies v
    ensures v[..] == Mix(old(v[..]), a, b, c, d, x, y)
  {
    hide Rotr64, Rotated, Plus, Xor, HalfMix, Words, Placed;
    ghost var s0 := v[..];
    v[a] := Plus(Plus(v[a], v[b]), x);
    ghost var s1 := v[..];
    Rotr64Rotates(Xor(v[d], v[a]));
    v[d] := Rotr64(Xor(v[d], v[a]), 32);
    ghost var s2 := v[..];
    v[c] := Plus(v[c], v[d]);
    ghost var s3 := v[..];
    Rotr64Rotates(Xor(v[b], v[c]));
    v[b] := Rotr64(Xor(v[b], v[c]), 24);
    ghost var s4 := v[..];
    HalfInPlace(s0, a, b, c, d, x, 32, 24, s1, s2, s3, s4);
    v[a] := Plus(Plus(v[a], v[b]), y);
    ghost var s5 := v[..];
    Rotr64Rotates(Xor(v[d], v[a]));
    v[d] := Rotr64(Xor(v[d], v[a]), 16);
    ghost var s6 := v[..];
    v[c] := Plus(v[c], v[d]);
    ghost var s7 := v[..];
    Rotr64Rotates(Xor(v[b], v[c]));
    v[b] := Rotr64(Xor(v[b], v[c]), 63);
    ghost var q1 := HalfMix(Words(s0, a, b, c, d), x, 32, 24);
    HalfInPlace(s4, a, b, c, d, y, 16, 63, s5, s6, s7, v[..]);
    PlacedTwice(s0, a, b, c, d, q1, HalfMix(q1, y, 16, 63));
  }

  lemma SmallCounter(t: nat)
    requires t < TWO64
    ensures AsWord(t % TWO64) == AsWord(t) && Xor(IV[5], AsWord(t / TWO64)) == IV[5]
  {
    assert t % TWO64 == t && t / TWO64 == 0;
    ZeroCounter(IV[5]);
  }

  lemma ZeroCounter(x: Word)
    ensures Xor(x, AsWord(0)) == x
  {
  }

  method PrepareWorkVector(h: array<Word>, t: nat, finalize: bool) returns (v: array<Word>)
    requires h.Length == 8 && t < TWO64
    ensures fresh(v) && v.Length == 16 && v[..] == WorkVector(h[..], t, finalize)
  {
    hide Xor, AsWord;
    v := new Word[16];
    for i := 0 to 8
      invariant forall k :: 0 <= k < i ==> v[k] == h[k] && v[8 + k] == IV[k]
    {
      v[i] := h[i];
      v[8 + i] := IV[i];
    }
    SmallCounter(t);
    v[12] := Xor(v[12], AsWord(t));
    if finalize {
      v[14] := Xor(v[14], ALL_ONES);
    }
  }

  method RoundInPlace(v: array<Word>, m: array<Word>, s: seq<nat>)
    requires v.Length == 16 && m.Length == 16 && v != m && IsSchedule(s)
    modifies v
    ensures v[..] == Round(old(v[..]), m[..], s)
  {
    hide Mix;
    G(v, 0, 4, 8, 12, m[s[0]], m[s[1]]);
    G(v, 1, 5, 9, 13, m[s[2]], m[s[3]]);
    G(v, 2, 6, 10, 14, m[s[4]], m[s[5]]);
    G(v, 3, 7, 11, 15, m[s[6]], m[s[7]]);
    G(v, 0, 5, 10, 15, m[s[8]], m[s[9]]);
    G(v, 1, 6, 11, 12, m[s[10]], m[s[11]]);
    G(v, 2, 7, 8, 13, m[s[12]], m[s[13]]);
    G(v, 3, 4, 9, 14, m[s[14]], m[s[15]]);
  }

  method F(h: array<Word>, m: array<Word>, t: nat, finalize: bool)
    requires h.Length == 8 && m.Length == 16 && t < TWO64
    modifies h
    ensures h[..] == Compress(old(h[..]), m[..], t, finalize)
  {
    hide Round, WorkVector, Xor;
    ghost var h0 := h[..];
    var v := PrepareWorkVector(h, t, finalize);
    ghost var start := v[..];
    for r := 0 to 12
      invariant h[..] == h0 && v[..] == Rounds(start, m[..], r)
    {
      KernelRows(r);
      RoundInPlace(v, m, KERNEL_SIGMA[r]);
    }
    ghost var done := v[..];
    for i := 0 to 8
      invariant v[..] == done
      invariant forall k :: 0 <= k < i ==> h[k] == Folded(h0, done)[k]
      invariant forall k :: i <= k < 8 ==> h[k] == h0[k]
    {
      h[i] := Xor(Xor(h[i], v[i]), v[i + 8]);
    }
  }

  lemma ParameterWord()
    ensures Xor(IV[0], PARAM_XOR) == Xor(Xor(IV[0], Word(0x01010000)), AsWord(8))
  {
  }

  /** A block inside the message is not touched by the padding. */
  lemma FullBlockWords(msg: seq<Octet>, buf: seq<Octet>, at: nat)
    requires at + 128 <= |msg| <= |buf| && msg == buf[..|msg|]
    ensures BlockWords(buf, at) == BlockWords(Padded(msg), at)
  {
    forall w | 0 <= w < 16
      ensures buf[at + 8 * w..at + 8 * w + 8] == Padded(msg)[at + 8 * w..at + 8 * w + 8]
    {
    }
  }

  method LoadWord(input: array<Octet>, wo: nat) returns (word: Word)
    requires wo + 8 <= input.Length
    ensures word == LittleEndian(input[wo..wo + 8])
  {
    hide Shifted, Or, Join;
    word := Word(0);
    for j := 0 to 8
      invariant word == LittleEndian(input[wo..wo + j])
    {
      LittleEndianAppend(input[wo..wo + j], input[wo + j]);
      assert input[wo..wo + j + 1] == input[wo..wo + j] + [input[wo + j]];
      word := Or(word, Shifted(input[wo + j], j));
    }
  }

  method LoadBlock(input: array<Octet>, blockOffset: nat, m: array<Word>)
    requires blockOffset + 128 <= input.Length && m.Length == 16
    modifies m
    ensures m[..] == BlockWords(input[..], blockOffset)
  {
    hide LittleEndian;
    for w := 0 to 16
      invariant forall k :: 0 <= k < w ==> m[k] == BlockWords(input[..], blockOffset)[k]
    {
      var word := LoadWord(input, blockOffset + w * 8);
      assert input[blockOffset + w * 8..blockOffset + w * 8 + 8]
          == input[..][blockOffset + 8 * w..blockOffset + 8 * w + 8];
      m[w] := word;
    }
  }

  lemma OrNothing(x: Word, at: nat)
    requires at < 8
    ensures Or(x, Shifted(0, at)) == x
  {
    ZeroShifted(at);
  }

  /** The guarded load: a byte at or beyond `n` counts as zero and is not read. */
  method LoadPaddedWord(input: array<Octet>, n: nat, wo: nat) returns (word: Word)
    requires n <= input.Length && wo + 8 <= |Padded(input[..n])|
    ensures word == LittleEndian(Padded(input[..n])[wo..wo + 8])
  {
    ghost var p := Padded(input[..n]);
    assert forall k :: 0 <= k < |p| ==> p[k] == if k < n then input[k] else 0;
    hide Shifted, Or, Join, Padded;
    word := Word(0);
    for j := 0 to 8
      invariant word == LittleEndian(p[wo..wo + j])
    {
      LittleEndianAppend(p[wo..wo + j], p[wo + j]);
      assert p[wo..wo + j + 1] == p[wo..wo + j] + [p[wo + j]];
      OrNothing(word, j);
      if wo + j < n {
        word := Or(word, Shifted(input[wo + j], j));
      }
    }
  }

  method LoadFinalBlock(input: array<Octet>, n: nat, finalOffset: nat, m: array<Word>)
    requires n <= input.Length && finalOffset + 128 <= |Padded(input[..n])| && m.Length == 16
    requires input as object != m as object
    modifies m
    ensures m[..] == BlockWords(Padded(input[..n]), finalOffset)
  {
    ghost var msg := input[..n];
    ghost var p := Padded(msg);
    hide LittleEndian, Padded;
    for w := 0 to 16
      invariant input[..n] == msg
      invariant forall k :: 0 <= k < w ==> m[k] == BlockWords(p, finalOffset)[k]
    {
      var word := LoadPaddedWord(input, n, finalOffset + w * 8);
      assert word == BlockWords(p, finalOffset)[w];
      m[w] := word;
    }
  }

  /** The kernel returns the little-endian value of RFC 7693's 8-byte digest of the first
      `n` bytes, whatever the buffer holds beyond them. */
  method Blake2b8(input: array<Octet>, n: nat) returns (r: Word)
    requires n <= input.Length && n < TWO64
    ensures r == LittleEndian(Digest(input[..n], 8))
  {
    hide LittleEndian, Padded, BlockWords, Compress, Xor, Digest;
    ghost var msg := input[..n];
    var h := new Word[8];
    for i := 0 to 8
      invariant forall k :: 0 <= k < i ==> h[k] == IV[k]
    {
      h[i] := IV[i];
    }
    h[0] := Xor(h[0], PARAM_XOR);
    ParameterWord();
    assert h[..] == InitialState(8);
    var fullBlocks := if n == 0 then 0 else (n - 1) / 128;
    assert fullBlocks == BlockCount(n) - 1;
    var m := new Word[16];
    for b := 0 to fullBlocks
      invariant h[..] == Absorbed(msg, 8, b)
    {
      LoadBlock(input, b * 128, m);
      FullBlockWords(msg, input[..], 128 * b);
      F(h, m, b * 128 + 128, false);
    }
    LoadFinalBlock(input, n, fullBlocks * 128, m);
    F(h, m, n, true);
    DigestIsFirstWord(msg);
    r := h[0];
  }
}
