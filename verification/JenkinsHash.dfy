/** Bob Jenkins' hash as the key-value server uses it, on a little-endian machine.

    The key is read in 32-bit, 16-bit or 8-bit units depending on its alignment; the
    32-bit path reads whole words and masks off the bytes past the end of the key. */
module JenkinsHash {
  import opened Arithmetic

  const WORD := 0x1_0000_0000

  type Byte = x: int | 0 <= x < 0x100
  type Word = x: int | 0 <= x < WORD

  datatype Triple = Triple(a: Word, b: Word, c: Word)

  // ---------------------------------------------------------------------------
  // 32-bit arithmetic

  function Add(x: Word, y: Word): Word { (x + y) % WORD }

  function Sub(x: Word, y: Word): Word { (x - y) % WORD }

  /** Exclusive or of the k low bits. */
  function XorBits(x: nat, y: nat, k: nat): (r: nat)
    ensures r < Pow2(k)
  {
    if k == 0 then 0 else 2 * XorBits(x / 2, y / 2, k - 1) + (x + y) % 2
  }

  lemma WordIs32Bits()
    ensures Pow2(32) == WORD
  {
    assert Pow2(8) == 0x100;
    assert Pow2(16) == 0x10000;
    assert Pow2(24) == 0x1000000;
  }

  function Xor(x: Word, y: Word): Word {
    WordIs32Bits();
    XorBits(x, y, 32)
  }

  /** x << k in 32 bits. */
  function Left(x: Word, k: nat): Word { (x * Pow2(k)) % WORD }

  /** x >> k */
  function Right(x: Word, k: nat): Word {
    DivMod(x, Pow2(k));
    MulMonotone(x / Pow2(k), 1, Pow2(k));
    x / Pow2(k)
  }

  function Rot(x: Word, k: nat): Word
    requires 0 < k < 32
  {
    Xor(Left(x, k), Right(x, 32 - k))
  }

  lemma {:induction false} XorZero(x: nat, n: nat)
    requires x < Pow2(n)
    ensures XorBits(x, 0, n) == x
  {
    if n > 0 { XorZero(x / 2, n - 1); }
  }

  lemma Double(k: nat, r: nat)
    requires k > 0
    ensures Pow2(k) * r == 2 * (Pow2(k - 1) * r)
  {}

  lemma XorOneMore(a: nat, q: nat, n: nat)
    requires n > 0 && XorBits(a, q / 2, n - 1) == a + q / 2
    ensures XorBits(2 * a, q, n) == 2 * a + q
  {
    var b := 2 * a;
    Halves(a, q);
    assert XorBits(b, q, n) == 2 * XorBits(b / 2, q / 2, n - 1) + (b + q) % 2;
  }

  lemma Halves(a: nat, q: nat)
    ensures (2 * a) / 2 == a && (2 * a + q) % 2 == q % 2 && 2 * (q / 2) + q % 2 == q
  {}

  /** Numbers with no bit in common: their exclusive or is their sum. */
  lemma {:induction false} XorOfDisjoint(k: nat, r: nat, q: nat, n: nat)
    requires k <= n && q < Pow2(k) && r < Pow2(n - k)
    ensures XorBits(Pow2(k) * r, q, n) == Pow2(k) * r + q
  {
    if k == 0 {
      XorZero(r, n);
    } else {
      XorOfDisjoint(k - 1, r, q / 2, n - 1);
      XorShifted(k, r, q, n);
    }
  }

  lemma XorShifted(k: nat, r: nat, q: nat, n: nat)
    requires 0 < k <= n && XorBits(Pow2(k - 1) * r, q / 2, n - 1) == Pow2(k - 1) * r + q / 2
    ensures XorBits(Pow2(k) * r, q, n) == Pow2(k) * r + q
  {
    Double(k, r);
    XorOneMore(Pow2(k - 1) * r, q, n);
  }

  lemma {:induction false} Pow2Adds(a: nat, b: nat)
    ensures Pow2(a) * Pow2(b) == Pow2(a + b)
  {
    if a > 0 {
      Pow2Adds(a - 1, b);
      assert Pow2(a) * Pow2(b) == 2 * (Pow2(a - 1) * Pow2(b));
    }
  }

  /** x in two parts, and where shifting takes them. */
  lemma TwoParts(x: nat, p: nat, d: nat, q: nat, r: nat)
    requires d >= 1 && p >= 1 && x == d * q + r && r < d
    ensures x * p == (d * p) * q + p * r && p * r < d * p
  {
    assert x * p == (d * q) * p + r * p;
    assert (d * q) * p == (d * p) * q;
    MulMonotone(p, r, d - 1);
  }

  lemma ShiftedRemainder(x: nat, p: nat, d: nat, w: nat)
    requires d >= 1 && p >= 1 && w == d * p && w >= 1
    ensures (x * p) % w == p * (x % d)
  {
    var q, r := x / d, x % d;
    DivMod(x, d);
    TwoParts(x, p, d, q, r);
    QuotientIs(x * p, w, q, p * r);
  }

  lemma LeftIs(x: Word, k: nat)
    requires 0 < k < 32
    ensures Left(x, k) == Pow2(k) * (x % Pow2(32 - k))
  {
    WordIs32Bits();
    Pow2Adds(32 - k, k);
    ShiftedRemainder(x, Pow2(k), Pow2(32 - k), WORD);
  }

  lemma RightIsSmall(x: Word, k: nat)
    requires 0 < k < 32
    ensures x / Pow2(32 - k) < Pow2(k)
  {
    var d := Pow2(32 - k);
    DivMod(x, d);
    WordIs32Bits();
    Pow2Adds(32 - k, k);
    MulMonotone(d, Pow2(k), x / d);
  }

  /** The bits that leave on the left come back on the right. */
  lemma RotRotates(x: Word, k: nat)
    requires 0 < k < 32
    ensures Rot(x, k) == Pow2(k) * (x % Pow2(32 - k)) + x / Pow2(32 - k)
  {
    LeftIs(x, k);
    RightIsSmall(x, k);
    DivMod(x, Pow2(32 - k));
    XorOfDisjoint(k, x % Pow2(32 - k), x / Pow2(32 - k), 32);
  }

  lemma {:induction false} XorBitsTwice(x: nat, y: nat, k: nat)
    requires x < Pow2(k)
    ensures XorBits(XorBits(x, y, k), y, k) == x
  {
    if k > 0 {
      XorBitsTwice(x / 2, y / 2, k - 1);
      Bit(XorBits(x / 2, y / 2, k - 1), x, y);
    }
  }

  lemma Bit(q: nat, x: nat, y: nat)
    ensures var r := 2 * q + (x + y) % 2; r / 2 == q && (r + y) % 2 == x % 2
  {}

  lemma XorTwice(x: Word, y: Word)
    ensures Xor(Xor(x, y), y) == x
  {
    WordIs32Bits();
    XorBitsTwice(x, y, 32);
  }

  lemma Wrapped(s: int)
    requires -WORD <= s < 2 * WORD
    ensures s % WORD == if s < 0 then s + WORD else if s < WORD then s else s - WORD
  {}

  lemma AddSub(x: Word, y: Word)
    ensures Sub(Add(x, y), y) == x && Add(Sub(x, y), y) == x
  {
    Wrapped(x + y);
    Wrapped(x - y);
    Wrapped(Add(x, y) - y);
    Wrapped(Sub(x, y) + y);
  }

  type Rotation = k: int | 0 < k < 32 witness 1

  // ---------------------------------------------------------------------------
  // mix

  /** One line of `mix`: x -= z; x ^= rot(z, k); z += y, with (x, y, z) renamed to
      (y, z, x) so that the next line has the same shape. */
  function Round(t: Triple, k: Rotation): Triple {
    Triple(t.b, Add(t.c, t.b), Xor(Sub(t.a, t.c), Rot(t.c, k)))
  }

  function UndoRound(t: Triple, k: Rotation): Triple {
    var c := Sub(t.b, t.a);
    Triple(Add(Xor(t.c, Rot(c, k)), c), t.a, c)
  }

  function Rounds(t: Triple, ks: seq<Rotation>): Triple
    decreases |ks|
  {
    if ks == [] then t else Rounds(Round(t, ks[0]), ks[1..])
  }

  function UndoRounds(t: Triple, ks: seq<Rotation>): Triple {
    if ks == [] then t else UndoRound(UndoRounds(t, ks[1..]), ks[0])
  }

  const MIX: seq<Rotation> := [4, 6, 8, 16, 19, 4]

  function Mix(t: Triple): Triple { Rounds(t, MIX) }

  lemma OneRound(t: Triple, k: Rotation, ks: seq<Rotation>)
    ensures Rounds(t, [k] + ks) == Rounds(Round(t, k), ks)
  {
    assert ([k] + ks)[1..] == ks;
  }

  lemma ThreeRounds(t: Triple, k0: Rotation, k1: Rotation, k2: Rotation, ks: seq<Rotation>)
    ensures Rounds(t, [k0, k1, k2] + ks) == Rounds(Round(Round(Round(t, k0), k1), k2), ks)
  {
    assert [k0, k1, k2] + ks == [k0] + ([k1] + ([k2] + ks));
    OneRound(t, k0, [k1] + ([k2] + ks));
    OneRound(Round(t, k0), k1, [k2] + ks);
    OneRound(Round(Round(t, k0), k1), k2, ks);
  }

  /** The eighteen assignments of `mix`, three to a line. */
  function MixLines(a0: Word, b0: Word, c0: Word): Triple {
    var (a, c) := (Xor(Sub(a0, c0), Rot(c0, 4)), Add(c0, b0));
    var (b, a) := (Xor(Sub(b0, a), Rot(a, 6)), Add(a, c));
    var (c, b) := (Xor(Sub(c, b), Rot(b, 8)), Add(b, a));
    var (a, c) := (Xor(Sub(a, c), Rot(c, 16)), Add(c, b));
    var (b, a) := (Xor(Sub(b, a), Rot(a, 19)), Add(a, c));
    var (c, b) := (Xor(Sub(c, b), Rot(b, 4)), Add(b, a));
    Triple(a, b, c)
  }

  lemma MixAsWritten(a0: Word, b0: Word, c0: Word)
    ensures Mix(Triple(a0, b0, c0)) == MixLines(a0, b0, c0)
  {
    var t := Triple(a0, b0, c0);
    assert MIX == [4, 6, 8] + [16, 19, 4] && [16, 19, 4] + [] == [16, 19, 4];
    ThreeRounds(t, 4, 6, 8, [16, 19, 4]);
    ThreeRounds(Round(Round(Round(t, 4), 6), 8), 16, 19, 4, []);
  }

  lemma UndoAfterRound(t: Triple, k: Rotation)
    ensures UndoRound(Round(t, k), k) == t
  {
    AddSub(t.c, t.b);
    AddSub(t.a, t.c);
    XorTwice(Sub(t.a, t.c), Rot(t.c, k));
  }

  lemma RoundAfterUndo(t: Triple, k: Rotation)
    ensures Round(UndoRound(t, k), k) == t
  {
    var u := UndoRound(t, k);
    AddSub(t.b, t.a);
    AddSub(Xor(t.c, Rot(u.c, k)), u.c);
    XorTwice(t.c, Rot(u.c, k));
  }

  /** `mix` loses nothing: whatever the rotations, it is a bijection on three 32-bit words. */
  lemma {:induction false} RoundsAreBijective(t: Triple, ks: seq<Rotation>)
    ensures UndoRounds(Rounds(t, ks), ks) == t && Rounds(UndoRounds(t, ks), ks) == t
    decreases |ks|
  {
    if ks != [] {
      RoundsAreBijective(Round(t, ks[0]), ks[1..]);
      UndoAfterRound(t, ks[0]);
      RoundsAreBijective(t, ks[1..]);
      RoundAfterUndo(UndoRounds(t, ks[1..]), ks[0]);
    }
  }

  function Unmix(t: Triple): Triple { UndoRounds(t, MIX) }

  lemma MixIsBijective(t: Triple)
    ensures Unmix(Mix(t)) == t && Mix(Unmix(t)) == t
  {
    RoundsAreBijective(t, MIX);
  }

  // ---------------------------------------------------------------------------
  // final

  /** One step of `final`: z ^= y; z -= rot(y, k), with (x, y, z) renamed to (y, z, x). */
  function Step(t: Triple, k: Rotation): Triple {
    Triple(t.b, Sub(Xor(t.c, t.b), Rot(t.b, k)), t.a)
  }

  function UndoStep(t: Triple, k: Rotation): Triple {
    Triple(t.c, t.a, Xor(Add(t.b, Rot(t.a, k)), t.a))
  }

  function Steps(t: Triple, ks: seq<Rotation>): Triple
    decreases |ks|
  {
    if ks == [] then t else Steps(Step(t, ks[0]), ks[1..])
  }

  function UndoSteps(t: Triple, ks: seq<Rotation>): Triple {
    if ks == [] then t else UndoStep(UndoSteps(t, ks[1..]), ks[0])
  }

  const FINAL: seq<Rotation> := [14, 11, 25, 16, 4, 14, 24]

  /** The word that `final` leaves in c, the last one it changes. */
  function Final(t: Triple): Word { Steps(t, FINAL).b }

  lemma OneStep(t: Triple, k: Rotation, ks: seq<Rotation>)
    ensures Steps(t, [k] + ks) == Steps(Step(t, k), ks)
  {
    assert ([k] + ks)[1..] == ks;
  }

  lemma ThreeSteps(t: Triple, k0: Rotation, k1: Rotation, k2: Rotation, ks: seq<Rotation>)
    ensures Steps(t, [k0, k1, k2] + ks) == Steps(Step(Step(Step(t, k0), k1), k2), ks)
  {
    assert [k0, k1, k2] + ks == [k0] + ([k1] + ([k2] + ks));
    OneStep(t, k0, [k1] + ([k2] + ks));
    OneStep(Step(t, k0), k1, [k2] + ks);
    OneStep(Step(Step(t, k0), k1), k2, ks);
  }

  /** The seven lines of `final`. */
  function FinalLines(a0: Word, b0: Word, c0: Word): Word {
    var c := Sub(Xor(c0, b0), Rot(b0, 14));
    var a := Sub(Xor(a0, c), Rot(c, 11));
    var b := Sub(Xor(b0, a), Rot(a, 25));
    var c := Sub(Xor(c, b), Rot(b, 16));
    var a := Sub(Xor(a, c), Rot(c, 4));
    var b := Sub(Xor(b, a), Rot(a, 14));
    Sub(Xor(c, b), Rot(b, 24))
  }

  lemma FinalAsWritten(a0: Word, b0: Word, c0: Word)
    ensures Final(Triple(a0, b0, c0)) == FinalLines(a0, b0, c0)
  {
    var t := Triple(a0, b0, c0);
    assert FINAL == [14, 11, 25] + ([16, 4, 14] + [24]) && [24] + [] == [24];
    ThreeSteps(t, 14, 11, 25, [16, 4, 14] + [24]);
    var u := Step(Step(Step(t, 14), 11), 25);
    ThreeSteps(u, 16, 4, 14, [24]);
    OneStep(Step(Step(Step(u, 16), 4), 14), 24, []);
  }

  lemma UndoAfterStep(t: Triple, k: Rotation)
    ensures UndoStep(Step(t, k), k) == t
  {
    AddSub(Xor(t.c, t.b), Rot(t.b, k));
    XorTwice(t.c, t.b);
  }

  lemma StepAfterUndo(t: Triple, k: Rotation)
    ensures Step(UndoStep(t, k), k) == t
  {
    XorTwice(Add(t.b, Rot(t.a, k)), t.a);
    AddSub(t.b, Rot(t.a, k));
  }

  lemma {:induction false} StepsAreBijective(t: Triple, ks: seq<Rotation>)
    ensures UndoSteps(Steps(t, ks), ks) == t && Steps(UndoSteps(t, ks), ks) == t
    decreases |ks|
  {
    if ks != [] {
      StepsAreBijective(Step(t, ks[0]), ks[1..]);
      UndoAfterStep(t, ks[0]);
      StepsAreBijective(t, ks[1..]);
      StepAfterUndo(UndoSteps(t, ks[1..]), ks[0]);
    }
  }

  /** `final` as a whole loses nothing either: what it does to (a, b, c) can be undone. */
  lemma FinalIsBijective(t: Triple)
    ensures UndoSteps(Steps(t, FINAL), FINAL) == t && Steps(UndoSteps(t, FINAL), FINAL) == t
  {
    StepsAreBijective(t, FINAL);
  }

  // ---------------------------------------------------------------------------
  // The specification: the key in blocks of twelve, the last one padded with zeros

  function Pow256(k: nat): (p: int)
    ensures p > 0
  {
    if k == 0 then 1 else 0x100 * Pow256(k - 1)
  }

  /** The number the bytes stand for, lowest address lowest. */
  function Value(bytes: seq<Byte>): (r: nat)
    ensures r < Pow256(|bytes|)
  {
    if bytes == [] then 0 else bytes[0] as int + 0x100 * Value(bytes[1..])
  }

  function WordOf(bytes: seq<Byte>): Word
    requires |bytes| <= 4
  {
    PowersOf256(|bytes|);
    Value(bytes)
  }

  lemma PowersOf256(k: nat)
    requires k <= 4
    ensures Pow256(k) <= WORD
  {
    assert Pow256(1) == 0x100 && Pow256(2) == 0x10000 && Pow256(3) == 0x1000000 && Pow256(4) == WORD;
    assert k == 0 || k == 1 || k == 2 || k == 3 || k == 4;
  }

  /** At most m and at most four bytes from p on. */
  function Bytes(mem: seq<Byte>, p: nat, m: int): (r: seq<Byte>)
    requires 0 < m ==> p + Min(m, 4) <= |mem|
    ensures |r| <= 4
  {
    if m <= 0 then [] else mem[p..p + Min(m, 4)]
  }

  function Min(x: int, y: int): int { if x < y then x else y }

  /** The word at offset i of the key, as far as the key reaches. */
  function WordAt(key: seq<Byte>, i: nat): Word {
    WordOf(Bytes(key, i, |key| - i))
  }

  function Absorb(t: Triple, key: seq<Byte>): Triple {
    Triple(Add(t.a, WordAt(key, 0)), Add(t.b, WordAt(key, 4)), Add(t.c, WordAt(key, 8)))
  }

  /** How blocks are mixed and the last one is finished; nothing about reading the key
      depends on what they do. */
  datatype Mixer = Mixer(mix: Triple -> Triple, final: Triple -> Word)

  function HashFrom(m: Mixer, t: Triple, key: seq<Byte>): Word
    decreases |key|
  {
    if |key| == 0 then t.c
    else if |key| > 12 then HashFrom(m, m.mix(Absorb(t, key)), key[12..])
    else m.final(Absorb(t, key))
  }

  function Seed(length: nat): Triple {
    var w := Add(0xdeadbeef, length % WORD);
    Triple(w, w, w)
  }

  function Hash(m: Mixer, key: seq<Byte>): Word { HashFrom(m, Seed(|key|), key) }

  // ---------------------------------------------------------------------------
  // Words, halves and bytes of memory

  function Load16(mem: seq<Byte>, p: nat): Word
    requires p + 2 <= |mem|
  {
    WordOf(mem[p..p + 2])
  }

  function Load32(mem: seq<Byte>, p: nat): Word
    requires p + 4 <= |mem|
  {
    WordOf(mem[p..p + 4])
  }

  /** What the first m bytes at p contribute to the word there. */
  function Part(mem: seq<Byte>, p: nat, m: int): Word
    requires 0 < m ==> p + Min(m, 4) <= |mem|
  {
    WordOf(Bytes(mem, p, m))
  }

  lemma WordOfKey(mem: seq<Byte>, p: nat, n: nat, i: nat)
    requires p + n <= |mem|
    ensures WordAt(mem[p..p + n], i) == Part(mem, p + i, n - i)
  {
    if i < n {
      var e := i + Min(n - i, 4);
      var x, y := mem[p..p + n][i..e], mem[p + i..p + e];
      assert forall k | 0 <= k < e - i :: x[k] == y[k];
      assert x == y;
    }
  }

  /** The block at p of a key with n bytes left. */
  function AbsorbAt(t: Triple, mem: seq<Byte>, p: nat, n: nat): Triple
    requires p + n <= |mem|
  {
    Triple(Add(t.a, Part(mem, p, n)), Add(t.b, Part(mem, p + 4, n - 4)), Add(t.c, Part(mem, p + 8, n - 8)))
  }

  /** The hash of the n bytes at p. */
  function HashAt(m: Mixer, t: Triple, mem: seq<Byte>, p: nat, n: nat): Word
    requires p + n <= |mem|
    decreases n
  {
    if n == 0 then t.c
    else if n > 12 then HashAt(m, m.mix(AbsorbAt(t, mem, p, n)), mem, p + 12, n - 12)
    else m.final(AbsorbAt(t, mem, p, n))
  }

  lemma AbsorbAtIs(t: Triple, mem: seq<Byte>, p: nat, n: nat)
    requires p + n <= |mem|
    ensures AbsorbAt(t, mem, p, n) == Absorb(t, mem[p..p + n])
  {
    WordOfKey(mem, p, n, 0);
    WordOfKey(mem, p, n, 4);
    WordOfKey(mem, p, n, 8);
  }

  lemma {:induction false} HashAtIsHash(m: Mixer, t: Triple, mem: seq<Byte>, p: nat, n: nat)
    requires p + n <= |mem|
    ensures HashAt(m, t, mem, p, n) == HashFrom(m, t, mem[p..p + n])
    decreases n
  {
    AbsorbAtIs(t, mem, p, n);
    if n > 12 {
      HashAtIsHash(m, m.mix(AbsorbAt(t, mem, p, n)), mem, p + 12, n - 12);
      KeyRest(mem, p, n);
      HashFromStep(m, t, mem[p..p + n], mem[p + 12..p + n]);
    }
  }

  lemma KeyRest(mem: seq<Byte>, p: nat, n: nat)
    requires p + n <= |mem| && n > 12
    ensures mem[p..p + n][12..] == mem[p + 12..p + n]
  {}

  lemma HashFromStep(m: Mixer, t: Triple, key: seq<Byte>, rest: seq<Byte>)
    requires |key| > 12 && key[12..] == rest
    ensures HashFrom(m, t, key) == HashFrom(m, m.mix(Absorb(t, key)), rest)
  {}

  lemma AddZero(x: Word)
    ensures Add(x, 0) == x
  {}

  lemma AddTwo(x: Word, y: Word, z: Word, w: Word)
    requires y + z == w
    ensures Add(Add(x, y), z) == Add(x, w)
  {}

  // ---------------------------------------------------------------------------
  // The 32-bit path

  /** A mask that keeps m bytes keeps the value of the first m bytes. */
  lemma {:induction false} Masked(bytes: seq<Byte>, m: nat)
    requires m <= |bytes|
    ensures Value(bytes) % Pow256(m) == Value(bytes[..m])
  {
    if m > 0 {
      Masked(bytes[1..], m - 1);
      assert bytes[..m][1..] == bytes[1..][..m - 1];
      ModStep(bytes[0], Value(bytes[1..]), Pow256(m - 1));
    }
  }

  lemma ModStep(b: Byte, v: nat, p: nat)
    requires p > 0
    ensures (b + 0x100 * v) % (0x100 * p) == b + 0x100 * (v % p)
  {
    var q, r := v / p, v % p;
    assert v == q * p + r;
    assert b + 0x100 * v == (0x100 * p) * q + (b + 0x100 * r);
    QuotientIs(b + 0x100 * v, 0x100 * p, q, b + 0x100 * r);
  }

  /** What the switch on the length adds to one of a, b, c when the key has m bytes left
      for it: a whole word of memory, masked. */
  method TailWord32(x: Word, mem: seq<Byte>, p: nat, m: int) returns (r: Word)
    requires 0 < m ==> p + 4 <= |mem|
    ensures r == Add(x, Part(mem, p, m))
  {
    AddZero(x);
    if m <= 0 { return x; }
    var k := Load32(mem, p);
    if m < 4 {
      Masked(mem[p..p + 4], m);
      assert mem[p..p + 4][..m] == Bytes(mem, p, m);
    }
    match m {
      case 1 => r := Add(x, k % 0x100);
      case 2 => r := Add(x, k % 0x10000);
      case 3 => r := Add(x, k % 0x1000000);
      case _ => r := Add(x, k);
    }
  }

  /** n bytes from p on, in memory made of whole words and starting at one. */
  predicate Aligned(mem: seq<Byte>, p: nat, n: int) {
    n >= 0 && p % 4 == 0 && |mem| % 4 == 0 && p + n <= |mem|
  }

  /** Where an aligned key has a byte, memory has a word. */
  lemma WholeWords(mem: seq<Byte>, p: nat, n: int)
    requires Aligned(mem, p, n)
    ensures n > 0 ==> p + 4 <= |mem|
    ensures n > 4 ==> p + 8 <= |mem|
    ensures n > 8 ==> p + 12 <= |mem|
    ensures n > 12 ==> Aligned(mem, p + 12, n - 12)
  {}

  /** The loop over whole blocks of an aligned key. */
  method Blocks32(m: Mixer, mem: seq<Byte>, key: nat, length: nat) returns (t: Triple, p: nat, n: nat)
    requires Aligned(mem, key, length)
    ensures Aligned(mem, p, n) && n <= 12 && HashAt(m, t, mem, p, n) == HashAt(m, Seed(length), mem, key, length)
  {
    t, p, n := Seed(length), key, length;
    while n > 12
      invariant Aligned(mem, p, n)
      invariant HashAt(m, t, mem, p, n) == HashAt(m, Seed(length), mem, key, length)
    {
      WholeWords(mem, p, n);
      t := m.mix(Triple(Add(t.a, Load32(mem, p)), Add(t.b, Load32(mem, p + 4)), Add(t.c, Load32(mem, p + 8))));
      p, n := p + 12, n - 12;
    }
  }

  /** Reads past the end of the key, but never past the end of its last word. */
  method Hash32(m: Mixer, mem: seq<Byte>, key: nat, length: nat) returns (h: Word)
    requires Aligned(mem, key, length)
    ensures h == HashAt(m, Seed(length), mem, key, length)
  {
    var t, p, n := Blocks32(m, mem, key, length);
    if n == 0 { return t.c; }
    WholeWords(mem, p, n);
    var len: int := n;
    var c := TailWord32(t.c, mem, p + 8, len - 8);
    var b := TailWord32(t.b, mem, p + 4, len - 4);
    var a := TailWord32(t.a, mem, p, len);
    h := m.final(Triple(a, b, c));
  }

  // ---------------------------------------------------------------------------
  // The 16-bit path

  /** A byte moved up: b << 8 * i. */
  function Shifted(b: Byte, i: nat): Word
    requires i < 4
  {
    if i == 0 then b else if i == 1 then b * 0x100 else if i == 2 then b * 0x10000 else b * 0x1000000
  }

  lemma Value1(mem: seq<Byte>, p: nat)
    requires p < |mem|
    ensures Value(mem[p..p + 1]) == mem[p]
  {
    assert mem[p..p + 1][1..] == [];
  }

  lemma Value2(mem: seq<Byte>, p: nat)
    requires p + 2 <= |mem|
    ensures Value(mem[p..p + 2]) == mem[p] as int + 0x100 * mem[p + 1] as int
  {
    assert mem[p..p + 2][1..] == mem[p + 1..p + 2];
    Value1(mem, p + 1);
  }

  lemma Value3(mem: seq<Byte>, p: nat)
    requires p + 3 <= |mem|
    ensures Value(mem[p..p + 3]) == mem[p] as int + 0x100 * Value(mem[p + 1..p + 3])
  {
    assert mem[p..p + 3][1..] == mem[p + 1..p + 3];
  }

  lemma Value4(mem: seq<Byte>, p: nat)
    requires p + 4 <= |mem|
    ensures Value(mem[p..p + 4]) == mem[p] as int + 0x100 * Value(mem[p + 1..p + 4])
  {
    assert mem[p..p + 4][1..] == mem[p + 1..p + 4];
  }

  /** k[i] + (k[i + 1] << 16) on 16-bit units */
  function TwoHalves(mem: seq<Byte>, p: nat): (w: Word)
    requires p + 4 <= |mem|
    ensures w == Load32(mem, p)
  {
    Value2(mem, p);
    Value2(mem, p + 2);
    Value4(mem, p);
    Value3(mem, p + 1);
    Load16(mem, p) + 0x10000 * Load16(mem, p + 2)
  }

  method TailWord16(x: Word, mem: seq<Byte>, p: nat, m: int) returns (r: Word)
    requires 0 < m ==> p + Min(m, 4) <= |mem|
    ensures r == Add(x, Part(mem, p, m))
  {
    AddZero(x);
    if m >= 4 {
      r := Add(x, TwoHalves(mem, p));
    } else if m >= 2 {
      r := x;
      if m == 3 {
        Value2(mem, p);
        Value3(mem, p);
        Value2(mem, p + 1);
        AddTwo(x, Shifted(mem[p + 2], 2), Load16(mem, p), Part(mem, p, 3));
        r := Add(r, Shifted(mem[p + 2], 2));
      }
      r := Add(r, Load16(mem, p));
    } else if m == 1 {
      Value1(mem, p);
      r := Add(x, mem[p]);
    } else {
      r := x;
    }
  }

  method Blocks16(m: Mixer, mem: seq<Byte>, key: nat, length: nat) returns (t: Triple, p: nat, n: nat)
    requires key + length <= |mem|
    ensures p + n <= |mem| && n <= 12 && HashAt(m, t, mem, p, n) == HashAt(m, Seed(length), mem, key, length)
  {
    t, p, n := Seed(length), key, length;
    while n > 12
      invariant p + n == key + length
      invariant HashAt(m, t, mem, p, n) == HashAt(m, Seed(length), mem, key, length)
    {
      t := m.mix(Triple(Add(t.a, TwoHalves(mem, p)), Add(t.b, TwoHalves(mem, p + 4)), Add(t.c, TwoHalves(mem, p + 8))));
      p, n := p + 12, n - 12;
    }
  }

  method Hash16(m: Mixer, mem: seq<Byte>, key: nat, length: nat) returns (h: Word)
    requires key + length <= |mem|
    ensures h == HashAt(m, Seed(length), mem, key, length)
  {
    var t, p, n := Blocks16(m, mem, key, length);
    if n == 0 { return t.c; }
    var len: int := n;
    var c := TailWord16(t.c, mem, p + 8, len - 8);
    var b := TailWord16(t.b, mem, p + 4, len - 4);
    var a := TailWord16(t.a, mem, p, len);
    h := m.final(Triple(a, b, c));
  }

  // ---------------------------------------------------------------------------
  // The byte path

  /** x += k[0]; x += k[1] << 8; x += k[2] << 16; x += k[3] << 24 */
  method AddFourBytes(x: Word, mem: seq<Byte>, p: nat) returns (r: Word)
    requires p + 4 <= |mem|
    ensures r == Add(x, Load32(mem, p))
  {
    Value2(mem, p);
    Value2(mem, p + 2);
    Value3(mem, p + 1);
    Value4(mem, p);
    var b0, b1, b2, b3 := mem[p] as int, mem[p + 1] as int, mem[p + 2] as int, mem[p + 3] as int;
    r := Add(x, Shifted(mem[p], 0));
    AddTwo(x, b0, Shifted(mem[p + 1], 1), b0 + 0x100 * b1);
    r := Add(r, Shifted(mem[p + 1], 1));
    AddTwo(x, b0 + 0x100 * b1, Shifted(mem[p + 2], 2), b0 + 0x100 * b1 + 0x10000 * b2);
    r := Add(r, Shifted(mem[p + 2], 2));
    AddTwo(x, b0 + 0x100 * b1 + 0x10000 * b2, Shifted(mem[p + 3], 3), Load32(mem, p));
    r := Add(r, Shifted(mem[p + 3], 3));
  }

  /** The cases of the falling-through switch that fill one of a, b, c, highest byte first. */
  method TailWord8(x: Word, mem: seq<Byte>, p: nat, m: int) returns (r: Word)
    requires 0 < m ==> p + Min(m, 4) <= |mem|
    ensures r == Add(x, Part(mem, p, m))
  {
    r := x;
    ghost var rest: Word := 0;
    AddZero(x);
    if m >= 4 {
      rest := Shifted(mem[p + 3], 3);
      r := Add(r, Shifted(mem[p + 3], 3));
    }
    if m >= 3 {
      AddTwo(x, rest, Shifted(mem[p + 2], 2), rest + Shifted(mem[p + 2], 2));
      rest := rest + Shifted(mem[p + 2], 2);
      r := Add(r, Shifted(mem[p + 2], 2));
    }
    if m >= 2 {
      AddTwo(x, rest, Shifted(mem[p + 1], 1), rest + Shifted(mem[p + 1], 1));
      rest := rest + Shifted(mem[p + 1], 1);
      r := Add(r, Shifted(mem[p + 1], 1));
    }
    if m >= 1 {
      if m == 1 { Value1(mem, p); }
      if m == 2 { Value2(mem, p); }
      if m == 3 { Value2(mem, p + 1); Value3(mem, p); }
      if m >= 4 { Value2(mem, p + 2); Value3(mem, p + 1); Value4(mem, p); }
      AddTwo(x, rest, Shifted(mem[p], 0), Part(mem, p, m));
      r := Add(r, Shifted(mem[p], 0));
    }
  }

  method Blocks8(m: Mixer, mem: seq<Byte>, key: nat, length: nat) returns (t: Triple, p: nat, n: nat)
    requires key + length <= |mem|
    ensures p + n <= |mem| && n <= 12 && HashAt(m, t, mem, p, n) == HashAt(m, Seed(length), mem, key, length)
  {
    t, p, n := Seed(length), key, length;
    while n > 12
      invariant p + n == key + length
      invariant HashAt(m, t, mem, p, n) == HashAt(m, Seed(length), mem, key, length)
    {
      var a := AddFourBytes(t.a, mem, p);
      var b := AddFourBytes(t.b, mem, p + 4);
      var c := AddFourBytes(t.c, mem, p + 8);
      t := m.mix(Triple(a, b, c));
      p, n := p + 12, n - 12;
    }
  }

  method Hash8(m: Mixer, mem: seq<Byte>, key: nat, length: nat) returns (h: Word)
    requires key + length <= |mem|
    ensures h == HashAt(m, Seed(length), mem, key, length)
  {
    var t, p, n := Blocks8(m, mem, key, length);
    if n == 0 { return t.c; }
    var len: int := n;
    var c := TailWord8(t.c, mem, p + 8, len - 8);
    var b := TailWord8(t.b, mem, p + 4, len - 4);
    var a := TailWord8(t.a, mem, p, len);
    h := m.final(Triple(a, b, c));
  }

  // ---------------------------------------------------------------------------
  // The hash of a key, byte by byte

  /** Byte i of the key, and zero behind its end. */
  function Padded(key: seq<Byte>, i: nat): Byte { if i < |key| then key[i] else 0 }

  /** Four bytes, lowest first. */
  function Little(key: seq<Byte>, i: nat): Word {
    Padded(key, i) + 0x100 * Padded(key, i + 1) + 0x10000 * Padded(key, i + 2) + 0x1000000 * Padded(key, i + 3)
  }

  /** Where every key starts: a constant and the length. */
  function Start(key: seq<Byte>): Triple {
    var w := (0xdeadbeef + |key|) % 0x1_0000_0000;
    Triple(w, w, w)
  }

  /** Twelve bytes added to the three words. */
  function AddBlock(t: Triple, key: seq<Byte>, i: nat): Triple {
    Triple((t.a + Little(key, i)) % 0x1_0000_0000, (t.b + Little(key, i + 4)) % 0x1_0000_0000,
           (t.c + Little(key, i + 8)) % 0x1_0000_0000)
  }

  /** The three words after j blocks of twelve bytes, each added and mixed in. */
  function StateAfter(m: Mixer, key: seq<Byte>, j: nat): Triple {
    if j == 0 then Start(key) else m.mix(AddBlock(StateAfter(m, key, j - 1), key, 12 * (j - 1)))
  }

  /** All blocks but the last are mixed; the last, of one to twelve bytes, is finished. */
  function HashOf(m: Mixer, key: seq<Byte>): Word {
    if key == [] then 0xdeadbeef
    else
      var j := (|key| - 1) / 12;
      m.final(AddBlock(StateAfter(m, key, j), key, 12 * j))
  }

  /** The eighteen assignments and the seven lines. */
  const WRITTEN := Mixer((t: Triple) => MixLines(t.a, t.b, t.c), (t: Triple) => FinalLines(t.a, t.b, t.c))

  lemma ShortValue(bytes: seq<Byte>)
    requires |bytes| <= 4
    ensures Value(bytes) == Padded(bytes, 0) + 0x100 * Padded(bytes, 1) + 0x10000 * Padded(bytes, 2)
                            + 0x1000000 * Padded(bytes, 3)
  {
    if bytes != [] {
      var rest := bytes[1..];
      assert forall i: nat :: Padded(rest, i) == Padded(bytes, i + 1);
      if rest != [] {
        assert forall i: nat :: Padded(rest[1..], i) == Padded(rest, i + 1);
        if rest[1..] != [] {
          assert forall i: nat :: Padded(rest[1..][1..], i) == Padded(rest[1..], i + 1);
        }
      }
    }
  }

  lemma WordIsLittle(key: seq<Byte>, p: nat, i: nat)
    requires p <= |key|
    ensures WordAt(key[p..], i) == Little(key, p + i)
  {
    var rest := key[p..];
    var bytes := Bytes(rest, i, |rest| - i);
    ShortValue(bytes);
    assert forall k: nat | k < 4 :: Padded(bytes, k) == Padded(key, p + i + k);
  }

  lemma AbsorbIsBlock(t: Triple, key: seq<Byte>, p: nat)
    requires p <= |key|
    ensures Absorb(t, key[p..]) == AddBlock(t, key, p)
  {
    WordIsLittle(key, p, 0);
    WordIsLittle(key, p, 4);
    WordIsLittle(key, p, 8);
  }

  lemma SeedIsStart(key: seq<Byte>)
    ensures Seed(|key|) == Start(key)
  {}

  lemma BlockMixed(m: Mixer, t: Triple, key: seq<Byte>, p: nat)
    requires p + 12 < |key|
    ensures HashFrom(m, t, key[p..]) == HashFrom(m, m.mix(AddBlock(t, key, p)), key[p + 12..])
  {
    AbsorbIsBlock(t, key, p);
    assert key[p..][12..] == key[p + 12..];
    HashFromStep(m, t, key[p..], key[p + 12..]);
  }

  /** HashFrom comes to h, folded. */
  predicate ComesTo(m: Mixer, t: Triple, rest: seq<Byte>, h: Word, depth: nat := 3) {
    if depth == 0 then HashFrom(m, t, rest) == h else ComesTo(m, t, rest, h, depth - 1)
  }

  lemma UnfoldComesTo(m: Mixer, t: Triple, rest: seq<Byte>, h: Word)
    ensures ComesTo(m, t, rest, h) <==> HashFrom(m, t, rest) == h
  {
    assert ComesTo(m, t, rest, h, 3) == ComesTo(m, t, rest, h, 2);
    assert ComesTo(m, t, rest, h, 1) == ComesTo(m, t, rest, h, 0);
  }

  lemma NextBlockMixed(m: Mixer, t: Triple, key: seq<Byte>, p: nat, h: Word)
    requires p + 12 < |key| && ComesTo(m, t, key[p..], h)
    ensures ComesTo(m, m.mix(AddBlock(t, key, p)), key[p + 12..], h)
  {
    UnfoldComesTo(m, t, key[p..], h);
    BlockMixed(m, t, key, p);
    UnfoldComesTo(m, m.mix(AddBlock(t, key, p)), key[p + 12..], h);
  }

  lemma {:induction false} BlocksMixed(m: Mixer, key: seq<Byte>, j: nat, h: Word)
    requires 12 * j < |key| && ComesTo(m, Start(key), key, h)
    ensures ComesTo(m, StateAfter(m, key, j), key[12 * j..], h)
    decreases j
  {
    if j == 0 {
      assert key[0..] == key;
    } else {
      BlocksMixed(m, key, j - 1, h);
      NextBlockMixed(m, StateAfter(m, key, j - 1), key, 12 * (j - 1), h);
    }
  }

  lemma LastBlock(m: Mixer, t: Triple, key: seq<Byte>, p: nat)
    requires p < |key| <= p + 12
    ensures HashFrom(m, t, key[p..]) == m.final(AddBlock(t, key, p))
  {
    AbsorbIsBlock(t, key, p);
  }

  lemma HashIsHashOf(m: Mixer, key: seq<Byte>)
    ensures Hash(m, key) == HashOf(m, key)
  {
    SeedIsStart(key);
    if key != [] {
      var j := (|key| - 1) / 12;
      UnfoldComesTo(m, Start(key), key, Hash(m, key));
      BlocksMixed(m, key, j, Hash(m, key));
      UnfoldComesTo(m, StateAfter(m, key, j), key[12 * j..], Hash(m, key));
      LastBlock(m, StateAfter(m, key, j), key, 12 * j);
    }
  }

  lemma {:induction false} SameStates(m: Mixer, m': Mixer, key: seq<Byte>, j: nat)
    requires forall t :: m.mix(t) == m'.mix(t)
    ensures StateAfter(m, key, j) == StateAfter(m', key, j)
  {
    if j > 0 { SameStates(m, m', key, j - 1); }
  }

  lemma MixersAreWritten(t: Triple)
    ensures Mix(t) == WRITTEN.mix(t) && Final(t) == WRITTEN.final(t)
  {
    MixAsWritten(t.a, t.b, t.c);
    FinalAsWritten(t.a, t.b, t.c);
  }

  /** The hash that the paths compute, from the bytes of the key and the lines as written. */
  lemma HashAsWritten(key: seq<Byte>)
    ensures Hash(Mixer(Mix, Final), key) == HashOf(WRITTEN, key)
  {
    var m := Mixer(Mix, Final);
    HashIsHashOf(m, key);
    forall t ensures m.mix(t) == WRITTEN.mix(t) && m.final(t) == WRITTEN.final(t) { MixersAreWritten(t); }
    if key != [] { SameStates(m, WRITTEN, key, (|key| - 1) / 12); }
  }

  function Zeros(n: nat): seq<Byte> { if n == 0 then [] else [0] + Zeros(n - 1) }

  lemma {:induction false} ZerosAre(n: nat)
    ensures |Zeros(n)| == n && forall i | 0 <= i < n :: Zeros(n)[i] == 0
  {
    if n > 0 { ZerosAre(n - 1); }
  }

  /** A key of at most twelve bytes and the same key with zeros behind it are told apart: they
      reach `final` in different states. */
  lemma TrailingZerosTell(key: seq<Byte>, zeros: nat)
    requires 0 < zeros && |key| + zeros <= 12
    ensures AddBlock(Start(key + Zeros(zeros)), key + Zeros(zeros), 0) != AddBlock(Start(key), key, 0)
  {
    ZerosAre(zeros);
    SameWord(key, Zeros(zeros), 0);
    LengthTells(|key|, |key| + zeros, Little(key, 0));
  }

  lemma SameWord(key: seq<Byte>, zeros: seq<Byte>, i: nat)
    requires forall k | 0 <= k < |zeros| :: zeros[k] == 0
    ensures Little(key + zeros, i) == Little(key, i)
  {
    assert forall k: nat :: Padded(key + zeros, k) == Padded(key, k);
  }

  lemma LengthTells(n: nat, n': nat, w: Word)
    requires n < n' <= 12
    ensures ((0xdeadbeef + n) % 0x1_0000_0000 + w) % 0x1_0000_0000
         != ((0xdeadbeef + n') % 0x1_0000_0000 + w) % 0x1_0000_0000
  {}

  /** Whatever the address of the key, the result is the hash of its bytes alone: the three
      paths agree and nothing past the end of the key matters. */
  method JenkinsHash(mem: seq<Byte>, key: nat, length: nat) returns (h: Word)
    requires |mem| % 4 == 0 && key + length <= |mem|
    ensures h == HashOf(WRITTEN, mem[key..key + length])
  {
    var m := Mixer(Mix, Final);
    HashAsWritten(mem[key..key + length]);
    HashAtIsHash(m, Seed(length), mem, key, length);
    if key % 4 == 0 {
      h := Hash32(m, mem, key, length);
    } else if key % 2 == 0 {
      h := Hash16(m, mem, key, length);
    } else {
      h := Hash8(m, mem, key, length);
    }
  }
}
