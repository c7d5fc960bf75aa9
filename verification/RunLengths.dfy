// The length of a chunk's leading run, as the merging code measures it.
module RunLengths {
  import opened Words
  import opened Chunks
  import opened Streams
  import opened Codec

  /** The members of a chunk are exactly its first n indices. */
  ghost predicate PrefixRun(c: Chunk, n: nat) {
    forall x: nat :: ChunkHas(c, x) <==> Between(c.start, x, c.start + n)
  }

  /**
   * What the measurement reports: the run of a run-length chunk; for a sparse chunk
   * whose members are a leading run of at least one whole word, that run's length;
   * otherwise zero.
   */
  ghost predicate IsRunLength(c: Chunk, n: nat) {
    if IsRle(c.desc) then n == RleLen(c.desc)
    else if n > 0 then 64 <= n <= WINDOW && PrefixRun(c, n)
    else forall m: nat :: m >= 64 ==> !PrefixRun(c, m)
  }

  lemma SlotBit(c: Chunk, v: nat, k: nat)
    requires !IsRle(c.desc) && v < SLOTS && k < 64
    ensures ChunkHas(c, c.start + 64 * v + k) == SlotWord(c, v)[k]
  {
    var x := c.start + 64 * v + k;
    assert (x - c.start) / 64 == v && (x - c.start) % 64 == k;
  }

  lemma PrefixFromSlots(c: Chunk, n: nat)
    requires !IsRle(c.desc) && n <= WINDOW
    requires forall v, k :: 0 <= v < SLOTS && 0 <= k < 64 ==> SlotWord(c, v)[k] == (64 * v + k < n)
    ensures PrefixRun(c, n)
  {
    forall x: nat ensures ChunkHas(c, x) <==> Between(c.start, x, c.start + n) {
      if c.start <= x < c.start + WINDOW {
        var v, k := (x - c.start) / 64, (x - c.start) % 64;
        assert SlotWord(c, v)[k] == (64 * v + k < n);
      }
    }
  }

  /** A clear bit below a set bit, or in the first word, rules out a leading run. */
  lemma NoPrefix(c: Chunk, v: nat, k: nat)
    requires !IsRle(c.desc) && v < SLOTS && k < 64 && !SlotWord(c, v)[k]
    requires v == 0 || exists u, b :: v < u < SLOTS && 0 <= b < 64 && SlotWord(c, u)[b]
    ensures forall m: nat :: m >= 64 ==> !PrefixRun(c, m)
  {
    hide ChunkHas, SlotWord;
    SlotBit(c, v, k);
    var p := c.start + 64 * v + k;
    if v != 0 {
      var u, b :| v < u < SLOTS && 0 <= b < 64 && SlotWord(c, u)[b];
      SlotBit(c, u, b);
      var q := c.start + 64 * u + b;
      assert p < q && ChunkHas(c, q);
    }
    forall m: nat | m >= 64 ensures !PrefixRun(c, m) {
      if v == 0 {
        assert Between(c.start, p, c.start + m);
      } else {
        var u, b :| v < u < SLOTS && 0 <= b < 64 && SlotWord(c, u)[b];
        SlotBit(c, u, b);
        var q := c.start + 64 * u + b;
        assert Between(c.start, q, c.start + m) ==> Between(c.start, p, c.start + m);
      }
    }
  }

  lemma ClearBitOf(w: Word) returns (k: nat)
    requires w != ONES
    ensures k < 64 && !w[k]
  {
    if forall i :: 0 <= i < 64 ==> w[i] {
      WordExt(w, ONES);
    }
    k :| 0 <= k < 64 && !w[k];
  }

  lemma SetBitOf(w: Word) returns (k: nat)
    requires w != ZERO
    ensures k < 64 && w[k]
  {
    NonzeroBit(w);
    k :| 0 <= k < 64 && w[k];
  }

  lemma NoMixedBelow(d: Word, n: nat)
    requires n <= SLOTS && forall v :: 0 <= v < n ==> FlagAt(d, v).Ones?
    ensures MixedIn(d, 0, n) == 0
  {
    if n > 0 {
      NoMixedBelow(d, n - 1);
    }
  }

  lemma AllOnesDesc(d: Word)
    ensures d == ONES <==> forall v :: 0 <= v < SLOTS ==> FlagAt(d, v).Ones?
  {
    if forall v :: 0 <= v < SLOTS ==> FlagAt(d, v).Ones? {
      assert forall v :: 0 <= v < SLOTS ==> FlagAt(d, v) == FlagAt(ONES, v);
      SameFlags(d, ONES);
    }
  }

  /** The number of leading all-ones slots. */
  method LeadingOnes(d: Word) returns (j: nat)
    ensures j <= SLOTS
    ensures forall v :: 0 <= v < j ==> FlagAt(d, v).Ones?
    ensures j < SLOTS ==> !FlagAt(d, j).Ones?
  {
    j := 0;
    while j < SLOTS && FlagAt(d, j).Ones?
      invariant j <= SLOTS
      invariant forall v :: 0 <= v < j ==> FlagAt(d, v).Ones?
    {
      j := j + 1;
    }
  }

  /** Whether a payload word is a run of ones from bit 0 and how long it is. */
  method LowRun(w: Word) returns (n: nat, pure: bool)
    ensures n <= 64
    ensures forall k :: 0 <= k < n ==> w[k]
    ensures n < 64 ==> !w[n]
    ensures pure <==> forall k :: n <= k < 64 ==> !w[k]
  {
    n := 0;
    while n < 64 && w[n]
      invariant n <= 64
      invariant forall k :: 0 <= k < n ==> w[k]
    {
      n := n + 1;
    }
    var b := n;
    while b < 64 && !w[b]
      invariant n <= b <= 64
      invariant forall k :: n <= k < b ==> !w[k]
    {
      b := b + 1;
    }
    pure := b == 64;
  }

  /** Whether every slot from j on is empty. */
  method RestEmpty(d: Word, j: nat) returns (empty: bool)
    requires j <= SLOTS
    ensures empty <==> forall v :: j <= v < SLOTS ==> !Carries(FlagAt(d, v))
  {
    var i := j;
    while i < SLOTS
      invariant j <= i <= SLOTS
      invariant forall v :: j <= v < i ==> !Carries(FlagAt(d, v))
    {
      if Carries(FlagAt(d, i)) {
        return false;
      }
      i := i + 1;
    }
    return true;
  }

  method GetRunLength(c: Chunk) returns (n: nat)
    requires WfRle(c) || WfSparse(c)
    ensures IsRunLength(c, n)
  {
    if IsRle(c.desc) {
      return RleLen(c.desc);
    }
    AllOnesDesc(c.desc);
    if c.desc == ZERO {
      assert !SlotWord(c, 0)[0];
      NoPrefix(c, 0, 0);
      return 0;
    }
    if c.desc == ONES {
      PrefixFromSlots(c, WINDOW);
      return WINDOW;
    }
    n := SparseRunLength(c);
  }

  method SparseRunLength(c: Chunk) returns (n: nat)
    requires WfSparse(c) && c.desc != ONES
    ensures IsRunLength(c, n)
  {
    AllOnesDesc(c.desc);
    var j := LeadingOnes(c.desc);
    assert SlotWord(c, j) != ONES;
    ghost var k := ClearBitOf(SlotWord(c, j));
    if j == 0 {
      NoPrefix(c, 0, k);
      return 0;
    }
    var count := 64 * j;
    if FlagAt(c.desc, j).Mixed? {
      NoMixedBelow(c.desc, j);
      MixedPosition(c.desc, j);
      var low, pure := LowRun(c.vecs[0]);
      assert c.vecs[0] == SlotWord(c, j);
      if !pure {
        NotPure(c, j, low);
        return 0;
      }
      count := count + low;
    }
    var empty := RestEmpty(c.desc, j + 1);
    if !empty {
      ghost var u :| j + 1 <= u < SLOTS && Carries(FlagAt(c.desc, u));
      assert SlotWord(c, u) != ZERO;
      ghost var b := SetBitOf(SlotWord(c, u));
      NoPrefix(c, j, k);
      return 0;
    }
    PrefixFromSlots(c, count);
    n := count;
  }

  /** A clear bit under a set bit inside one slot also rules out a leading run. */
  lemma NotPure(c: Chunk, v: nat, low: nat)
    requires !IsRle(c.desc) && v < SLOTS && low < 64 && !SlotWord(c, v)[low]
    requires exists k :: low <= k < 64 && SlotWord(c, v)[k]
    ensures forall m: nat :: m >= 64 ==> !PrefixRun(c, m)
  {
    var k :| low <= k < 64 && SlotWord(c, v)[k];
    SlotBit(c, v, low);
    SlotBit(c, v, k);
    var p, q := c.start + 64 * v + low, c.start + 64 * v + k;
    forall m: nat | m >= 64 ensures !PrefixRun(c, m) {
      assert Between(c.start, q, c.start + m) ==> Between(c.start, p, c.start + m);
    }
  }
}
