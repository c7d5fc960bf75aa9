// 64-bit machine words as sequences of 64 bits, least significant bit first.
//
// The buffer of a map is an array of such words.  A word is read in three ways:
// as an unsigned number (the chunk count and the chunk starts), as packed
// fields (a chunk descriptor) and as 64 membership bits (a payload word).
module Words {

  type Word = w: seq<bool> | |w| == 64 witness seq(64, i => false)

  const TWO31: nat := 0x8000_0000
  const TWO32: nat := 0x1_0000_0000
  const TWO63: nat := 0x8000_0000_0000_0000
  const TWO64: nat := 0x1_0000_0000_0000_0000

  const ZERO: Word := LowMask(0)
  const ONES: Word := LowMask(64)

  // ---- numbers ---------------------------------------------------------

  function Pow2(k: nat): (p: nat)
    ensures p >= 1
  {
    if k == 0 then 1 else 2 * Pow2(k - 1)
  }

  /** The number a bit sequence spells. */
  function ToNat(bits: seq<bool>): nat {
    if bits == [] then 0 else (if bits[0] then 1 else 0) + 2 * ToNat(bits[1..])
  }

  /** The k low bits of n. */
  function FromNat(n: nat, k: nat): (bits: seq<bool>)
    ensures |bits| == k
  {
    if k == 0 then [] else [n % 2 == 1] + FromNat(n / 2, k - 1)
  }

  function U64(n: nat): Word {
    FromNat(n, 64)
  }

  /** Writing a number into a k-bit field and reading it back truncates modulo 2^k. */
  lemma {:induction false} ToNatFromNat(n: nat, k: nat)
    ensures ToNat(FromNat(n, k)) == n % Pow2(k)
  {
    if k == 0 {
    } else {
      ToNatFromNat(n / 2, k - 1);
      var p := Pow2(k - 1);
      assert FromNat(n, k)[1..] == FromNat(n / 2, k - 1);
      ModDouble(n, p);
    }
  }

  lemma ModDouble(n: nat, p: nat)
    requires p >= 1
    ensures n % (2 * p) == n % 2 + 2 * ((n / 2) % p)
  {
    var q, r := (n / 2) / p, (n / 2) % p;
    assert n / 2 == p * q + r;
    assert n == 2 * p * q + (2 * r + n % 2);
    assert 2 * r + n % 2 < 2 * p;
    DivModUnique(n, 2 * p, q, 2 * r + n % 2);
  }

  lemma DivModUnique(n: int, d: int, q: int, r: int)
    requires d > 0 && 0 <= r < d && n == d * q + r
    ensures n / d == q && n % d == r
  {
    var q', r' := n / d, n % d;
    assert n == d * q' + r';
    assert d * (q - q') == r' - r;
    assert q - q' >= 1 ==> d * (q - q') >= d;
    assert q - q' <= -1 ==> d * (q - q') <= -d;
  }

  lemma {:induction false} FromNatToNat(bits: seq<bool>)
    ensures FromNat(ToNat(bits), |bits|) == bits
    ensures ToNat(bits) < Pow2(|bits|)
  {
    if bits == [] {
    } else {
      FromNatToNat(bits[1..]);
      var n := ToNat(bits);
      assert n / 2 == ToNat(bits[1..]) && n % 2 == (if bits[0] then 1 else 0);
    }
  }

  lemma BytePower()
    ensures Pow2(8) == 256
  {
  }

  lemma FieldValues()
    ensures Pow2(31) == TWO31 && Pow2(32) == TWO32 && Pow2(63) == TWO63 && Pow2(64) == TWO64
  {
    assert Pow2(8) == 0x100;
    assert Pow2(16) == 0x1_0000;
    assert Pow2(24) == 0x100_0000;
    assert Pow2(31) == TWO31;
    assert Pow2(32) == TWO32;
    assert Pow2(40) == 0x100_0000_0000;
    assert Pow2(48) == 0x1_0000_0000_0000;
    assert Pow2(56) == 0x100_0000_0000_0000;
    assert Pow2(63) == TWO63;
  }

  lemma U64RoundTrip(n: nat)
    requires n < TWO64
    ensures ToNat(U64(n)) == n
  {
    hide ToNat, FromNat, Pow2;
    ToNatFromNat(n, 64);
    FieldValues();
  }

  lemma U64OfWord(w: Word)
    ensures ToNat(w) < TWO64 && U64(ToNat(w)) == w
  {
    FromNatToNat(w);
    FieldValues();
  }

  lemma Field31RoundTrip(n: nat)
    requires n < TWO31
    ensures ToNat(FromNat(n, 31)) == n
  {
    ToNatFromNat(n, 31);
    FieldValues();
  }

  // ---- bit operations --------------------------------------------------

  function SetBit(w: Word, b: nat): (r: Word)
    requires b < 64
  {
    w[b := true]
  }

  function ClearBit(w: Word, b: nat): (r: Word)
    requires b < 64
  {
    w[b := false]
  }

  function Or(a: Word, b: Word): (r: Word)
    ensures forall i :: 0 <= i < 64 ==> r[i] == (a[i] || b[i])
  {
    seq(64, i requires 0 <= i < 64 => a[i] || b[i])
  }

  function And(a: Word, b: Word): (r: Word)
    ensures forall i :: 0 <= i < 64 ==> r[i] == (a[i] && b[i])
  {
    seq(64, i requires 0 <= i < 64 => a[i] && b[i])
  }

  function AndNot(a: Word, b: Word): (r: Word)
    ensures forall i :: 0 <= i < 64 ==> r[i] == (a[i] && !b[i])
  {
    seq(64, i requires 0 <= i < 64 => a[i] && !b[i])
  }

  /** w << n */
  function Shl(w: Word, n: nat): (r: Word)
    ensures forall i :: 0 <= i < 64 ==> r[i] == (n <= i && w[i - n])
  {
    seq(64, i requires 0 <= i < 64 => n <= i && w[i - n])
  }

  /** w >> n */
  function Shr(w: Word, n: nat): (r: Word)
    ensures forall i :: 0 <= i < 64 ==> r[i] == (i + n < 64 && w[i + n])
  {
    seq(64, i requires 0 <= i < 64 => i + n < 64 && w[i + n])
  }

  /** (1 << n) - 1, and all ones for n >= 64. */
  function LowMask(n: nat): (r: Word)
    ensures forall i :: 0 <= i < 64 ==> r[i] == (i < n)
  {
    seq(64, i => i < n)
  }

  /** ~0 << n */
  function HighMask(n: nat): (r: Word)
    ensures forall i :: 0 <= i < 64 ==> r[i] == (n <= i)
  {
    seq(64, i => n <= i)
  }

  lemma WordExt(a: Word, b: Word)
    requires forall i :: 0 <= i < 64 ==> a[i] == b[i]
    ensures a == b
  {
  }
}
