// What sm_hash computes: FNV-1a, and what it tells apart.
module Hashes {
  import opened Words
  import opened Streams
  import opened Maps
  import opened Runs
  import opened Orders

  // ---- exclusive or on numbers --------------------------------------------------------------------

  /** The exclusive or of the k low bits of two numbers. */
  function XorLow(a: nat, b: nat, k: nat): nat {
    if k == 0 then 0 else (if a % 2 != b % 2 then 1 else 0) + 2 * XorLow(a / 2, b / 2, k - 1)
  }

  function XorBits(x: seq<bool>, y: seq<bool>): seq<bool>
    requires |x| == |y|
  {
    seq(|x|, i requires 0 <= i < |x| => x[i] != y[i])
  }

  lemma {:induction false} XorNumber(a: nat, b: nat, k: nat)
    ensures ToNat(XorBits(FromNat(a, k), FromNat(b, k))) == XorLow(a, b, k)
  {
    if k > 0 {
      XorNumber(a / 2, b / 2, k - 1);
      var x, y := FromNat(a, k), FromNat(b, k);
      assert x[1..] == FromNat(a / 2, k - 1) && y[1..] == FromNat(b / 2, k - 1);
      assert XorBits(x, y)[1..] == XorBits(x[1..], y[1..]);
    }
  }

  /** One step of FNV-1a in arithmetic. */
  lemma MixByteNumber(h: nat, byte: nat)
    ensures MixByte(h, byte) == XorLow(h, byte, 64) * FNV_PRIME % TWO64
  {
    hide ToNat, FromNat, XorLow;
    XorNumber(h, byte, 64);
    assert Xor(U64(h), U64(byte)) == XorBits(U64(h), U64(byte));
  }

  lemma {:induction false} XorZero(a: nat, k: nat)
    requires a < Pow2(k)
    ensures XorLow(a, 0, k) == a
  {
    if k > 0 {
      XorZero(a / 2, k - 1);
    }
  }

  lemma XorStep(a: nat, b: nat, k: nat)
    ensures XorLow(a, b, k + 1) == (if a % 2 != b % 2 then 1 else 0) + 2 * XorLow(a / 2, b / 2, k)
  {
  }

  /** The two low bits and the rest. */
  lemma XorPair(a: nat, b: nat, k: nat)
    ensures XorLow(a, b, k + 2) == XorLow(a, b, 2) + 4 * XorLow(a / 4, b / 4, k)
  {
    hide XorLow;
    XorStep(a, b, k + 1);
    XorStep(a / 2, b / 2, k);
    XorStep(a, b, 1);
    XorStep(a / 2, b / 2, 0);
    XorNone(a / 4, b / 4);
  }

  lemma XorNone(a: nat, b: nat)
    ensures XorLow(a, b, 0) == 0
  {
  }

  lemma Quarters(a: nat)
    ensures a / 4 / 4 / 4 / 4 == a / 256
  {
    assert a / 4 / 4 == a / 16;
    assert a / 16 / 4 == a / 64;
    assert a / 64 / 4 == a / 256;
  }

  /** The low byte and the rest. */
  lemma XorHalves(a: nat, b: nat, k: nat)
    ensures XorLow(a, b, k + 8) == XorLow(a, b, 8) + 256 * XorLow(a / 256, b / 256, k)
  {
    Quarters(a);
    Quarters(b);
    XorChain(a, b, a / 4, b / 4, a / 4 / 4, b / 4 / 4, a / 4 / 4 / 4, b / 4 / 4 / 4, k);
  }

  lemma XorChain(a: nat, b: nat, a1: nat, b1: nat, a2: nat, b2: nat, a3: nat, b3: nat, k: nat)
    requires a1 == a / 4 && b1 == b / 4 && a2 == a1 / 4 && b2 == b1 / 4 && a3 == a2 / 4 && b3 == b2 / 4
    ensures XorLow(a, b, k + 8) == XorLow(a, b, 8) + 256 * XorLow(a3 / 4, b3 / 4, k)
  {
    hide XorLow;
    XorPair(a, b, k + 6);
    XorPair(a1, b1, k + 4);
    XorPair(a2, b2, k + 2);
    XorPair(a3, b3, k);
    XorPair(a, b, 6);
    XorPair(a1, b1, 4);
    XorPair(a2, b2, 2);
    XorPair(a3, b3, 0);
    XorNone(a3 / 4, b3 / 4);
  }

  /** A byte changes the low byte only. */
  lemma XorByte(h: nat, byte: nat)
    requires h < TWO64 && byte < 256
    ensures XorLow(h, byte, 64) == XorLow(h, byte, 8) + 256 * (h / 256)
  {
    hide XorLow, Pow2;
    HighPower();
    XorHalves(h, byte, 56);
    XorZero(h / 256, 56);
  }

  lemma HighPower()
    ensures Pow2(56) == 0x100_0000_0000_0000
  {
    assert Pow2(8) == 0x100;
    assert Pow2(16) == 0x1_0000;
    assert Pow2(24) == 0x100_0000;
    assert Pow2(32) == TWO32;
    assert Pow2(40) == 0x100_0000_0000;
    assert Pow2(48) == 0x1_0000_0000_0000;
  }

  /** Higher bits do not matter. */
  lemma {:induction false} XorSame(a: nat, r: nat, q: nat, b: nat, k: nat)
    requires a == r + Pow2(k) * q
    ensures XorLow(a, b, k) == XorLow(r, b, k)
  {
    if k > 0 {
      var p := Pow2(k - 1);
      assert a == r + 2 * (p * q);
      XorSame(a / 2, r / 2, q, b / 2, k - 1);
    }
  }

  /** One step: r is the low byte of the state, low its exclusive or with the byte. */
  lemma MixStep(h: nat, q: nat, r: nat, byte: nat, low: nat)
    requires h < TWO64 && h == 256 * q + r && r < 256 && byte < 256 && XorLow(r, byte, 8) == low
    ensures MixByte(h, byte) == (256 * q + low) * FNV_PRIME % TWO64
  {
    hide XorLow, MixByte, Pow2;
    MixByteNumber(h, byte);
    XorByte(h, byte);
    DivModUnique(h, 256, q, r);
    BytePower();
    XorSame(h, r, q, byte, 8);
  }

  lemma LowXor0()
    ensures XorLow(0x25, 0x61, 8) == 0x44
  {
    hide XorLow;
    XorStep(0x25, 0x61, 7);
    XorStep(0x12, 0x30, 6);
    XorStep(0x9, 0x18, 5);
    XorStep(0x4, 0xc, 4);
    XorStep(0x2, 0x6, 3);
    XorStep(0x1, 0x3, 2);
    XorStep(0x0, 0x1, 1);
    XorStep(0x0, 0x0, 0);
    XorNone(0, 0);
  }

  lemma LowXor1()
    ensures XorLow(0x25, 0x1, 8) == 0x24
  {
    hide XorLow;
    XorStep(0x25, 0x1, 7);
    XorStep(0x12, 0x0, 6);
    XorStep(0x9, 0x0, 5);
    XorStep(0x4, 0x0, 4);
    XorStep(0x2, 0x0, 3);
    XorStep(0x1, 0x0, 2);
    XorStep(0x0, 0x0, 1);
    XorStep(0x0, 0x0, 0);
    XorNone(0, 0);
  }

  lemma LowXor2()
    ensures XorLow(0x2c, 0x2, 8) == 0x2e
  {
    hide XorLow;
    XorStep(0x2c, 0x2, 7);
    XorStep(0x16, 0x1, 6);
    XorStep(0xb, 0x0, 5);
    XorStep(0x5, 0x0, 4);
    XorStep(0x2, 0x0, 3);
    XorStep(0x1, 0x0, 2);
    XorStep(0x0, 0x0, 1);
    XorStep(0x0, 0x0, 0);
    XorNone(0, 0);
  }

  lemma LowXor3()
    ensures XorLow(0x5a, 0x2, 8) == 0x58
  {
    hide XorLow;
    XorStep(0x5a, 0x2, 7);
    XorStep(0x2d, 0x1, 6);
    XorStep(0x16, 0x0, 5);
    XorStep(0xb, 0x0, 4);
    XorStep(0x5, 0x0, 3);
    XorStep(0x2, 0x0, 2);
    XorStep(0x1, 0x0, 1);
    XorStep(0x0, 0x0, 0);
    XorNone(0, 0);
  }

  lemma LowXor4()
    ensures XorLow(0x88, 0x2, 8) == 0x8a
  {
    hide XorLow;
    XorStep(0x88, 0x2, 7);
    XorStep(0x44, 0x1, 6);
    XorStep(0x22, 0x0, 5);
    XorStep(0x11, 0x0, 4);
    XorStep(0x8, 0x0, 3);
    XorStep(0x4, 0x0, 2);
    XorStep(0x2, 0x0, 1);
    XorStep(0x1, 0x0, 0);
    XorNone(0, 0);
  }

  lemma LowXors()
    ensures XorLow(0x25, 0x61, 8) == 0x44 && XorLow(0x25, 0x01, 8) == 0x24
    ensures XorLow(0x2c, 0x02, 8) == 0x2e && XorLow(0x5a, 0x02, 8) == 0x58 && XorLow(0x88, 0x02, 8) == 0x8a
  {
    hide XorLow;
    LowXor0();
    LowXor1();
    LowXor2();
    LowXor3();
    LowXor4();
  }

  /** A published FNV-1a value: the hash of the single byte 0x61. */
  lemma PublishedValue()
    ensures MixByte(FNV_BASIS, 0x61) == 0xaf63_dc4c_8601_ec8c
  {
    hide MixByte, XorLow;
    LowXors();
    MixStep(FNV_BASIS, 0xcb_f29c_e484_2223, 0x25, 0x61, 0x44);
  }

  lemma MixZero(h: nat)
    requires h < TWO64
    ensures MixByte(h, 0) == h * FNV_PRIME % TWO64
  {
    hide MixByte, XorLow, Pow2;
    BytePower();
    XorZero(h % 256, 8);
    MixStep(h, h / 256, h % 256, 0, h % 256);
  }

  /** The bytes of a number below 2^16. */
  lemma TwoBytes(v: nat, n: nat)
    requires v < 0x1_0000
    ensures v / Pow2(0) % 256 == v % 256 && v / Pow2(8) % 256 == v / 256 && (n >= 16 ==> v / Pow2(n) % 256 == 0)
  {
    assert Pow2(0) == 1 && Pow2(8) == 256;
    if n >= 16 {
      LargePower(n);
      assert v / Pow2(n) == 0 by {
        DivModUnique(v, Pow2(n), 0, v);
      }
    }
  }

  lemma {:induction false} LargePower(n: nat)
    requires n >= 16
    ensures Pow2(n) >= 0x1_0000
  {
    if n == 16 {
      assert Pow2(8) == 256;
      assert Pow2(16) == 0x1_0000;
    } else {
      LargePower(n - 1);
    }
  }

  lemma MixNone(h: nat, v: nat)
    ensures MixBytes(h, v, 0) == h
  {
  }

  /** Byte n of a number below 2^16, given the state before it. */
  lemma NextByte(h0: nat, v: nat, n: nat, h: nat)
    requires v < 0x1_0000 && MixBytes(h0, v, n) == h
    ensures MixBytes(h0, v, n + 1) == MixByte(h, if n == 0 then v % 256 else if n == 1 then v / 256 else 0)
  {
    hide MixByte, Pow2;
    TwoBytes(v, 8 * n);
  }

  lemma MixedLow()
    ensures MixBytes(0xcbf2_9ce4_8422_2325, 0x201, 8) == 0x1472_283d_c0d2_955a
  {
    hide MixByte, MixBytes, XorLow;
    LowXors();
    MixNone(0xcbf2_9ce4_8422_2325, 0x201);
    NextByte(0xcbf2_9ce4_8422_2325, 0x201, 0, 0xcbf2_9ce4_8422_2325);
    MixStep(0xcbf2_9ce4_8422_2325, 0xcb_f29c_e484_2223, 0x25, 0x1, 0x24);
    NextByte(0xcbf2_9ce4_8422_2325, 0x201, 1, 0xaf63_bc4c_8601_b62c);
    MixStep(0xaf63_bc4c_8601_b62c, 0xaf_63bc_4c86_01b6, 0x2c, 0x2, 0x2e);
    NextByte(0xcbf2_9ce4_8422_2325, 0x201, 2, 0x82f_2407_b4e8_902a);
    MixZero(0x82f_2407_b4e8_902a);
    NextByte(0xcbf2_9ce4_8422_2325, 0x201, 3, 0xd0aa_6318_672c_f75e);
    MixZero(0xd0aa_6318_672c_f75e);
    NextByte(0xcbf2_9ce4_8422_2325, 0x201, 4, 0xbe7d_c077_5168_54ba);
    MixZero(0xbe7d_c077_5168_54ba);
    NextByte(0xcbf2_9ce4_8422_2325, 0x201, 5, 0x1802_c4bf_5447_f80e);
    MixZero(0x1802_c4bf_5447_f80e);
    NextByte(0xcbf2_9ce4_8422_2325, 0x201, 6, 0x14ac_5f1c_364a_7fca);
    MixZero(0x14ac_5f1c_364a_7fca);
    NextByte(0xcbf2_9ce4_8422_2325, 0x201, 7, 0x6b65_66f0_4097_243e);
    MixZero(0x6b65_66f0_4097_243e);
  }

  lemma MixedHigh()
    ensures MixBytes(0x1472_283d_c0d2_955a, 0x202, 8) == 0xc99b_e74e_3b20_560e
  {
    hide MixByte, MixBytes, XorLow;
    LowXors();
    MixNone(0x1472_283d_c0d2_955a, 0x202);
    NextByte(0x1472_283d_c0d2_955a, 0x202, 0, 0x1472_283d_c0d2_955a);
    MixStep(0x1472_283d_c0d2_955a, 0x14_7228_3dc0_d295, 0x5a, 0x2, 0x58);
    NextByte(0x1472_283d_c0d2_955a, 0x202, 1, 0x908f_b8ee_a5d3_c488);
    MixStep(0x908f_b8ee_a5d3_c488, 0x90_8fb8_eea5_d3c4, 0x88, 0x2, 0x8a);
    NextByte(0x1472_283d_c0d2_955a, 0x202, 2, 0x77fb_c783_c6d6_f67e);
    MixZero(0x77fb_c783_c6d6_f67e);
    NextByte(0x1472_283d_c0d2_955a, 0x202, 3, 0xb7ca_82ea_df44_d81a);
    MixZero(0xb7ca_82ea_df44_d81a);
    NextByte(0x1472_283d_c0d2_955a, 0x202, 4, 0x91f4_8f19_61fb_342e);
    MixZero(0x91f4_8f19_61fb_342e);
    NextByte(0x1472_283d_c0d2_955a, 0x202, 5, 0xfdc3_5621_7dd9_aa2a);
    MixZero(0xfdc3_5621_7dd9_aa2a);
    NextByte(0x1472_283d_c0d2_955a, 0x202, 6, 0xc95_84e8_d8dc_255e);
    MixZero(0xc95_84e8_d8dc_255e);
    NextByte(0x1472_283d_c0d2_955a, 0x202, 7, 0x3e36_35a8_7e13_7eba);
    MixZero(0x3e36_35a8_7e13_7eba);
  }

  /** A set that is one run. */
  lemma OneRun(lo: nat, hi: nat)
    requires lo < hi
    ensures Decomposes(Range(lo, hi), [Run(lo, hi)])
    ensures HashOf(Range(lo, hi)) == MixBytes(MixBytes(FNV_BASIS, lo, 8), hi, 8)
  {
    hide MixBytes, HashOf;
    var rs := [Run(lo, hi)];
    assert RunSet(rs) == Range(lo, hi) by {
      assert rs[0] == Run(lo, hi);
    }
    HashIs(Range(lo, hi), rs);
    assert rs[..0] == [];
  }

  /** The hash of the one-member set {0x0201}: the start of its run, then its end, low bytes first. */
  lemma HashExample()
    ensures HashOf(iset{0x201}) == 0xc99b_e74e_3b20_560e
  {
    hide MixBytes, HashOf;
    MixedLow();
    MixedHigh();
    OneRun(0x201, 0x202);
    assert Range(0x201, 0x202) == iset{0x201};
  }

  // ---- what a step tells apart -----------------------------------------------------------------------

  /** The factor that undoes the product: FNV_PRIME is odd. */
  const UNPRIME: nat := 0xce96_5057_aff6_957b
  const UNCARRY: nat := 0xce_9650_590f

  /** Equal products come from equal factors. */
  lemma ProductApart(a: nat, b: nat)
    requires a < TWO64 && b < TWO64 && a * FNV_PRIME % TWO64 == b * FNV_PRIME % TWO64
    ensures a == b
  {
    var p, q := a * FNV_PRIME / TWO64, b * FNV_PRIME / TWO64;
    assert a * FNV_PRIME == TWO64 * p + a * FNV_PRIME % TWO64;
    assert b * FNV_PRIME == TWO64 * q + b * FNV_PRIME % TWO64;
    assert (a - b) * FNV_PRIME == TWO64 * (p - q);
    assert FNV_PRIME * UNPRIME == 1 + UNCARRY * TWO64;
    var t := (p - q) * UNPRIME - (a - b) * UNCARRY;
    assert a - b == TWO64 * t;
  }

  lemma XorApart(a: Word, b: Word, x: Word, y: Word)
    requires Xor(a, x) == Xor(b, y)
    ensures a == b <==> x == y
  {
    forall i | 0 <= i < 64 ensures a[i] == b[i] <==> x[i] == y[i] {
      assert Xor(a, x)[i] == Xor(b, y)[i];
    }
    if a == b {
      WordExt(x, y);
    }
    if x == y {
      WordExt(a, b);
    }
  }

  /** One step never confuses two bytes, for one state, nor two states, for one byte. */
  lemma MixByteApart(g: nat, h: nat, x: nat, y: nat)
    requires g < TWO64 && h < TWO64 && x < TWO64 && y < TWO64 && MixByte(g, x) == MixByte(h, y)
    ensures g == h <==> x == y
  {
    hide ToNat, FromNat, Xor;
    var a, b := Xor(U64(g), U64(x)), Xor(U64(h), U64(y));
    U64OfWord(a);
    U64OfWord(b);
    ProductApart(ToNat(a), ToNat(b));
    XorApart(U64(g), U64(h), U64(x), U64(y));
    U64RoundTrip(g);
    U64RoundTrip(h);
    U64RoundTrip(x);
    U64RoundTrip(y);
  }

  function ByteAt(v: nat, j: nat): (b: nat)
    ensures b < 256
  {
    v / Pow2(8 * j) % 256
  }

  lemma MixBytesBound(h: nat, v: nat, n: nat)
    requires h < TWO64
    ensures MixBytes(h, v, n) < TWO64
  {
  }

  /** Mixing the same bytes keeps different states different. */
  lemma {:induction false} StatesApart(g: nat, h: nat, v: nat, n: nat)
    requires g < TWO64 && h < TWO64 && g != h
    ensures MixBytes(g, v, n) != MixBytes(h, v, n)
  {
    hide MixByte, Pow2;
    if n > 0 {
      StatesApart(g, h, v, n - 1);
      MixBytesBound(g, v, n - 1);
      MixBytesBound(h, v, n - 1);
      if MixBytes(g, v, n) == MixBytes(h, v, n) {
        MixByteApart(MixBytes(g, v, n - 1), MixBytes(h, v, n - 1), ByteAt(v, n - 1), ByteAt(v, n - 1));
      }
    }
  }

  /** The two numbers differ in byte j and in no other of their eight bytes. */
  ghost predicate OneByteApart(v: nat, w: nat, j: nat) {
    j < 8 && forall b: nat :: b < 8 ==> (ByteAt(v, b) == ByteAt(w, b) <==> b != j)
  }

  lemma {:induction false} ValuesApart(h: nat, v: nat, w: nat, j: nat, n: nat)
    requires h < TWO64 && OneByteApart(v, w, j) && n <= 8
    ensures MixBytes(h, v, n) == MixBytes(h, w, n) <==> n <= j
  {
    hide MixByte, ByteAt;
    if n > 0 {
      ValuesApart(h, v, w, j, n - 1);
      LastByte(h, v, n);
      LastByte(h, w, n);
      MixBytesBound(h, v, n - 1);
      MixBytesBound(h, w, n - 1);
      if MixBytes(h, v, n) == MixBytes(h, w, n) {
        MixByteApart(MixBytes(h, v, n - 1), MixBytes(h, w, n - 1), ByteAt(v, n - 1), ByteAt(w, n - 1));
      }
    }
  }

  lemma LastByte(h: nat, v: nat, n: nat)
    requires n > 0
    ensures MixBytes(h, v, n) == MixByte(MixBytes(h, v, n - 1), ByteAt(v, n - 1))
  {
  }

  /** Run r with its end at e, or its start when `low`, replaced by x. */
  function EndChanged(r: Run, low: bool, x: nat): Run {
    if low then Run(x, r.hi) else Run(r.lo, x)
  }

  lemma FnvBound(rs: seq<Run>)
    ensures Fnv(rs) < TWO64
  {
    hide MixBytes;
    if rs != [] {
      FnvBound(rs[..|rs| - 1]);
      MixBytesBound(Fnv(rs[..|rs| - 1]), rs[|rs| - 1].lo, 8);
      MixBytesBound(MixBytes(Fnv(rs[..|rs| - 1]), rs[|rs| - 1].lo, 8), rs[|rs| - 1].hi, 8);
    }
  }

  /** Two lists of runs that differ in exactly one byte of one end of one run. */
  ghost predicate RunsApart(a: seq<Run>, b: seq<Run>) {
    exists i: nat, low: bool, j: nat, x: nat :: ApartAt(a, b, i, low, j, x)
  }

  ghost predicate ApartAt(a: seq<Run>, b: seq<Run>, i: nat, low: bool, j: nat, x: nat) {
    && i < |a| && b == a[i := EndChanged(a[i], low, x)]
    && OneByteApart(if low then a[i].lo else a[i].hi, x, j)
  }

  lemma {:induction false} FnvApart(a: seq<Run>, b: seq<Run>, i: nat, low: bool, j: nat, x: nat)
    requires ApartAt(a, b, i, low, j, x)
    ensures Fnv(a) != Fnv(b)
    decreases |a|
  {
    hide MixBytes, OneByteApart;
    var n := |a| - 1;
    FnvBound(a[..n]);
    FnvBound(b[..n]);
    MixBytesBound(Fnv(a[..n]), a[n].lo, 8);
    MixBytesBound(Fnv(b[..n]), b[n].lo, 8);
    if i < n {
      assert b[..n] == a[..n][i := EndChanged(a[..n][i], low, x)];
      FnvApart(a[..n], b[..n], i, low, j, x);
      StatesApart(Fnv(a[..n]), Fnv(b[..n]), a[n].lo, 8);
      StatesApart(MixBytes(Fnv(a[..n]), a[n].lo, 8), MixBytes(Fnv(b[..n]), a[n].lo, 8), a[n].hi, 8);
    } else {
      assert b[..n] == a[..n];
      JBelow(if low then a[i].lo else a[i].hi, x, j);
      if low {
        ValuesApart(Fnv(a[..n]), a[n].lo, x, j, 8);
        StatesApart(MixBytes(Fnv(a[..n]), a[n].lo, 8), MixBytes(Fnv(a[..n]), x, 8), a[n].hi, 8);
      } else {
        ValuesApart(MixBytes(Fnv(a[..n]), a[n].lo, 8), a[n].hi, x, j, 8);
      }
    }
  }

  lemma JBelow(v: nat, w: nat, j: nat)
    requires OneByteApart(v, w, j)
    ensures j < 8
  {
  }

  /** Sets whose runs differ in exactly one byte of one end have different hashes. */
  lemma HashApart(s: iset<nat>, t: iset<nat>, a: seq<Run>, b: seq<Run>)
    requires Decomposes(s, a) && Decomposes(t, b) && RunsApart(a, b)
    ensures HashOf(s) != HashOf(t)
  {
    hide Fnv, HashOf, Decomposes;
    HashIs(s, a);
    HashIs(t, b);
    var i: nat, low: bool, j: nat, x: nat :| ApartAt(a, b, i, low, j, x);
    FnvApart(a, b, i, low, j, x);
  }

  /** In particular two sets of one run each. */
  lemma OneRunApart(lo: nat, hi: nat, lo': nat, hi': nat, j: nat)
    requires lo < hi && lo' < hi'
    requires (OneByteApart(lo, lo', j) && hi == hi') || (lo == lo' && OneByteApart(hi, hi', j))
    ensures HashOf(Range(lo, hi)) != HashOf(Range(lo', hi'))
  {
    hide HashOf, OneByteApart, Decomposes;
    var a, b := [Run(lo, hi)], [Run(lo', hi')];
    OneRun(lo, hi);
    OneRun(lo', hi');
    if OneByteApart(lo, lo', j) && hi == hi' {
      assert ApartAt(a, b, 0, true, j, lo');
    } else {
      assert ApartAt(a, b, 0, false, j, hi');
    }
    HashApart(Range(lo, hi), Range(lo', hi'), a, b);
  }
}
