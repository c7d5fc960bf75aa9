// Bytes in memory: how words are laid out in them on hosts of either byte order.
module Bytes {
  import opened Words

  type Byte = b: seq<bool> | |b| == 8 witness seq(8, i => false)

  /** Byte k of a bit string of n bytes, lowest byte first on a little-endian host. */
  function BytePlace(k: nat, n: nat, le: bool): nat
    requires k < n
    ensures BytePlace(k, n, le) < n
  {
    if le then k else n - 1 - k
  }

  function ToBytes(bits: seq<bool>, n: nat, le: bool): (r: seq<Byte>)
    requires |bits| == 8 * n
    ensures |r| == n
  {
    seq(n, k requires 0 <= k < n => bits[8 * BytePlace(k, n, le)..8 * BytePlace(k, n, le) + 8])
  }

  function FromBytes(bytes: seq<Byte>, le: bool): (bits: seq<bool>)
    ensures |bits| == 8 * |bytes|
  {
    seq(8 * |bytes|, i requires 0 <= i < 8 * |bytes| => bytes[BytePlace(i / 8, |bytes|, le)][i % 8])
  }

  lemma BytesRoundTrip(bits: seq<bool>, n: nat, le: bool)
    requires |bits| == 8 * n
    ensures FromBytes(ToBytes(bits, n, le), le) == bits
  {
    var bytes := ToBytes(bits, n, le);
    forall i | 0 <= i < 8 * n ensures FromBytes(bytes, le)[i] == bits[i] {
      var k := BytePlace(i / 8, n, le);
      assert BytePlace(k, n, le) == i / 8;
      assert bytes[k] == bits[8 * (i / 8)..8 * (i / 8) + 8];
    }
  }

  function WordBytes(w: Word, le: bool): (r: seq<Byte>)
    ensures |r| == 8
  {
    ToBytes(w, 8, le)
  }

  /** The bytes of a word sequence, as memory holds them. */
  function BytesOf(words: seq<Word>, le: bool): (r: seq<Byte>)
    ensures |r| == 8 * |words|
  {
    seq(8 * |words|, j requires 0 <= j < 8 * |words| => WordBytes(words[j / 8], le)[j % 8])
  }

  function ByteOr0(bytes: seq<Byte>, j: nat): Byte {
    if j < |bytes| then bytes[j] else seq(8, i => false)
  }

  function Padded(bytes: seq<Byte>, at: nat, n: nat): (r: seq<Byte>)
    ensures |r| == n && forall k :: 0 <= k < n ==> r[k] == ByteOr0(bytes, at + k)
  {
    if n == 0 then [] else Padded(bytes, at, n - 1) + [ByteOr0(bytes, at + n - 1)]
  }

  /** Word i of memory that holds the bytes, zero past their end. */
  function WordAt(bytes: seq<Byte>, i: nat, le: bool): Word {
    FromBytes(Padded(bytes, 8 * i, 8), le)
  }

  /** The whole words among the bytes. */
  function WordsOf(bytes: seq<Byte>, le: bool): (r: seq<Word>)
    ensures |r| == |bytes| / 8
  {
    seq(|bytes| / 8, i requires 0 <= i < |bytes| / 8 => WordAt(bytes, i, le))
  }

  lemma WordsRoundTrip(words: seq<Word>, le: bool)
    ensures WordsOf(BytesOf(words, le), le) == words
  {
    var bytes := BytesOf(words, le);
    forall i | 0 <= i < |words| ensures WordAt(bytes, i, le) == words[i] {
      assert Padded(bytes, 8 * i, 8) == WordBytes(words[i], le) by {
        forall k | 0 <= k < 8 ensures bytes[8 * i + k] == WordBytes(words[i], le)[k] {
          assert (8 * i + k) / 8 == i && (8 * i + k) % 8 == k;
        }
      }
      BytesRoundTrip(words[i], 8, le);
    }
  }

  // ---- bytes as numbers -----------------------------------------------------------------------------

  function Number(n: nat): Byte {
    FromNat(n, 8)
  }

  /** The number that bytes spell, the least significant one first. */
  function Spelled(bytes: seq<Byte>): nat {
    if bytes == [] then 0 else ToNat(bytes[0]) + 256 * Spelled(bytes[1..])
  }

  function Backwards(bytes: seq<Byte>): (r: seq<Byte>)
    ensures |r| == |bytes| && forall k :: 0 <= k < |bytes| ==> r[k] == bytes[|bytes| - 1 - k]
  {
    seq(|bytes|, k requires 0 <= k < |bytes| => bytes[|bytes| - 1 - k])
  }

  /** The number at these bytes on a host of the given order. */
  function NumberAt(bytes: seq<Byte>, le: bool): nat {
    Spelled(if le then bytes else Backwards(bytes))
  }

  lemma NumberValue(n: nat)
    requires n < 256
    ensures ToNat(Number(n)) == n
  {
    hide ToNat, FromNat, Pow2;
    BytePower();
    ToNatFromNat(n, 8);
  }

  lemma ByteExt(a: Byte, b: Byte)
    requires ToNat(a) == ToNat(b)
    ensures a == b
  {
    FromNatToNat(a);
    FromNatToNat(b);
  }

  lemma {:induction false} LowBits(bits: seq<bool>, k: nat)
    requires k <= |bits|
    ensures ToNat(bits) == ToNat(bits[..k]) + Pow2(k) * ToNat(bits[k..])
  {
    if k == 0 {
      assert bits[..0] == [] && bits[0..] == bits;
    } else {
      LowBits(bits[1..], k - 1);
      assert bits[1..][..k - 1] == bits[..k][1..] && bits[1..][k - 1..] == bits[k..];
      Doubled(Pow2(k - 1), ToNat(bits[k..]));
    }
  }

  lemma Doubled(p: nat, x: nat)
    ensures 2 * (p * x) == 2 * p * x
  {
  }

  /** The bytes of a bit string spell its number, read in the host's order. */
  lemma {:induction false} ByteString(bits: seq<bool>, n: nat)
    requires |bits| == 8 * n
    ensures Spelled(ToBytes(bits, n, true)) == ToNat(bits)
  {
    if n > 0 {
      var bytes := ToBytes(bits, n, true);
      assert bytes[0] == bits[..8];
      var rest := ToBytes(bits[8..], n - 1, true);
      forall k | 0 <= k < n - 1 ensures bytes[1..][k] == rest[k] {
        assert bits[8..][8 * k..8 * k + 8] == bits[8 * (k + 1)..8 * (k + 1) + 8];
      }
      assert bytes[1..] == rest;
      ByteString(bits[8..], n - 1);
      LowBits(bits, 8);
      BytePower();
    }
  }

  lemma ReadsNumber(bits: seq<bool>, n: nat, le: bool)
    requires |bits| == 8 * n
    ensures NumberAt(ToBytes(bits, n, le), le) == ToNat(bits)
  {
    ByteString(bits, n);
    if !le {
      assert Backwards(ToBytes(bits, n, false)) == ToBytes(bits, n, true);
    }
  }

  /** Word j of a word sequence, read from its bytes. */
  lemma ReadsWord(words: seq<Word>, j: nat, le: bool)
    requires j < |words|
    ensures NumberAt(BytesOf(words, le)[8 * j..8 * j + 8], le) == ToNat(words[j])
  {
    var bytes := BytesOf(words, le);
    forall k | 0 <= k < 8 ensures bytes[8 * j + k] == WordBytes(words[j], le)[k] {
      assert (8 * j + k) / 8 == j && (8 * j + k) % 8 == k;
    }
    assert bytes[8 * j..8 * j + 8] == WordBytes(words[j], le);
    ReadsNumber(words[j], 8, le);
  }

  lemma SpelledNone()
    ensures Spelled([]) == 0
  {
  }

  /** Four bytes determine the number they spell and are determined by it. */
  lemma FourBytes(bytes: seq<Byte>)
    requires |bytes| == 4
    ensures Spelled(bytes) == ToNat(bytes[0]) + 0x100 * ToNat(bytes[1]) + 0x1_0000 * ToNat(bytes[2]) + 0x100_0000 * ToNat(bytes[3])
    ensures forall k :: 0 <= k < 4 ==> ToNat(bytes[k]) < 256
  {
    hide ToNat, FromNat, Pow2, Spelled;
    SpelledNone();
    forall k | 0 <= k < 4 ensures ToNat(bytes[k]) < 256 {
      FromNatToNat(bytes[k]);
      BytePower();
    }
    SpelledStep(bytes, 0);
    SpelledStep(bytes, 1);
    SpelledStep(bytes, 2);
    SpelledStep(bytes, 3);
    assert bytes[0..] == bytes && bytes[4..] == [];
  }

  lemma SpelledStep(bytes: seq<Byte>, k: nat)
    requires k < |bytes|
    ensures Spelled(bytes[k..]) == ToNat(bytes[k]) + 256 * Spelled(bytes[k + 1..])
  {
    assert bytes[k..][1..] == bytes[k + 1..];
  }

  lemma BitBack(bytes: seq<Byte>, le: bool, q: nat, i: nat)
    requires q < |bytes| && i < 8
    ensures FromBytes(bytes, le)[8 * q + i] == bytes[BytePlace(q, |bytes|, le)][i]
  {
    assert (8 * q + i) / 8 == q && (8 * q + i) % 8 == i;
  }

  lemma BytesBack(bytes: seq<Byte>, le: bool)
    ensures ToBytes(FromBytes(bytes, le), |bytes|, le) == bytes
  {
    var n, bits := |bytes|, FromBytes(bytes, le);
    forall k | 0 <= k < n ensures ToBytes(bits, n, le)[k] == bytes[k] {
      var q := BytePlace(k, n, le);
      assert BytePlace(q, n, le) == k;
      forall i | 0 <= i < 8 ensures bits[8 * q..8 * q + 8][i] == bytes[k][i] {
        BitBack(bytes, le, q, i);
      }
    }
  }
}
