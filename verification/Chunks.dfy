// One chunk of the stream: a start index, a descriptor word and payload words.
//
// A sparse descriptor holds thirty-two 2-bit flags, one for each 64-bit slot of
// a 2048-bit window; every Mixed flag owns one payload word.  A run-length
// descriptor (bits 63:62 = 01) holds a 31-bit capacity and a 31-bit length.
module Chunks {
  import opened Words

  const SLOTS: nat := 32
  const WINDOW: nat := 2048

  // Largest value of a 31-bit field, and the largest multiple of WINDOW below it.
  const RLE_MAX: nat := 0x7FFF_FFFF
  const RLE_LIMIT: nat := 0x7FFF_F800

  // Where the highest span may end: the window that would wrap past 2^64 is not used.
  const TOP: nat := 0xFFFF_FFFF_FFFF_F800

  // Alignment is defined by recursion so that proofs use the lemmas below
  // rather than the arithmetic of remainders.

  /** x is a multiple of WINDOW. */
  predicate Aligned(x: nat) {
    x == 0 || (x >= WINDOW && Aligned(x - WINDOW))
  }

  /** The start of the window that holds index x. */
  function Floor(x: nat): (f: nat)
    ensures Aligned(f) && f <= x < f + WINDOW
  {
    if x < WINDOW then 0 else WINDOW + Floor(x - WINDOW)
  }

  lemma {:induction false} AlignedMod(x: nat)
    ensures Aligned(x) <==> x % WINDOW == 0
  {
    if x >= WINDOW {
      AlignedMod(x - WINDOW);
    }
  }

  lemma AlignedSum(x: nat, y: nat)
    requires Aligned(x) && Aligned(y)
    ensures Aligned(x + y)
  {
    AlignedMod(x);
    AlignedMod(y);
    AlignedMod(x + y);
  }

  lemma AlignedDiff(x: nat, y: nat)
    requires Aligned(x) && Aligned(y) && y <= x
    ensures Aligned(x - y)
  {
    AlignedMod(x);
    AlignedMod(y);
    AlignedMod(x - y);
  }

  lemma AlignedStep(x: nat, y: nat)
    requires Aligned(x) && Aligned(y) && x < y
    ensures x + WINDOW <= y
  {
    AlignedMod(x);
    AlignedMod(y);
  }

  lemma AlignedWhole(n: nat)
    ensures Aligned(n / WINDOW * WINDOW)
  {
    AlignedMod(n / WINDOW * WINDOW);
  }

  lemma AlignedConstants()
    ensures Aligned(0) && Aligned(WINDOW) && Aligned(RLE_LIMIT) && Aligned(TOP)
    ensures forall x: nat :: Aligned(x) && x <= RLE_MAX ==> x <= RLE_LIMIT
  {
    AlignedMod(RLE_LIMIT);
    AlignedMod(TOP);
    forall x: nat | Aligned(x) && x <= RLE_MAX ensures x <= RLE_LIMIT {
      AlignedMod(x);
    }
  }

  /** An index below TOP has its whole window below TOP. */
  lemma FloorTop(x: nat)
    requires x < TOP
    ensures Floor(x) + WINDOW <= TOP
  {
    AlignedConstants();
    AlignedStep(Floor(x), TOP);
  }

  lemma FloorUnique(x: nat, f: nat)
    requires Aligned(f) && f <= x < f + WINDOW
    ensures Floor(x) == f
  {
    AlignedMod(f);
    AlignedMod(Floor(x));
  }

  lemma FloorMonotone(x: nat, y: nat)
    requires x <= y
    ensures Floor(x) <= Floor(y)
    ensures Floor(x) < Floor(y) ==> Floor(x) + WINDOW <= Floor(y)
    ensures Aligned(y) && x < y ==> Floor(x) < Floor(y)
  {
    if Floor(x) + WINDOW <= y {
      AlignedStep(Floor(x), Floor(y));
    } else {
      FloorUnique(y, Floor(x));
      if Aligned(y) {
        FloorUnique(y, y);
      }
    }
  }

  datatype Chunk = Chunk(start: nat, desc: Word, vecs: seq<Word>)

  // ---- flags -----------------------------------------------------------

  datatype Flag = Zeros | Unused | Mixed | Ones

  function FlagAt(d: Word, v: nat): Flag
    requires v < SLOTS
  {
    if d[2 * v + 1] then (if d[2 * v] then Ones else Mixed)
    else (if d[2 * v] then Unused else Zeros)
  }

  function SetFlag(d: Word, v: nat, f: Flag): (r: Word)
    requires v < SLOTS
    ensures forall u :: 0 <= u < SLOTS ==> FlagAt(r, u) == if u == v then f else FlagAt(d, u)
  {
    d[2 * v := f.Ones? || f.Unused?][2 * v + 1 := f.Ones? || f.Mixed?]
  }

  lemma SameFlags(a: Word, b: Word)
    requires forall v :: 0 <= v < SLOTS ==> FlagAt(a, v) == FlagAt(b, v)
    ensures a == b
  {
    forall i | 0 <= i < 64 ensures a[i] == b[i] {
      assert FlagAt(a, i / 2) == FlagAt(b, i / 2);
      assert i == 2 * (i / 2) || i == 2 * (i / 2) + 1;
    }
  }

  predicate Carries(f: Flag) {
    f.Ones? || f.Mixed?
  }

  /** The number of payload words owned by the slots in [lo, hi). */
  function MixedIn(d: Word, lo: nat, hi: nat): (n: nat)
    requires lo <= hi <= SLOTS
    ensures n <= hi - lo
  {
    if lo == hi then 0
    else MixedIn(d, lo, hi - 1) + if FlagAt(d, hi - 1).Mixed? then 1 else 0
  }

  function VecCount(d: Word): nat {
    MixedIn(d, 0, SLOTS)
  }

  lemma {:induction false} MixedSplit(d: Word, lo: nat, mid: nat, hi: nat)
    requires lo <= mid <= hi <= SLOTS
    ensures MixedIn(d, lo, hi) == MixedIn(d, lo, mid) + MixedIn(d, mid, hi)
  {
    if mid < hi {
      MixedSplit(d, lo, mid, hi - 1);
    }
  }

  /** The payload of a Mixed slot is within the payload words. */
  lemma MixedPosition(d: Word, v: nat)
    requires v < SLOTS
    ensures MixedIn(d, 0, v) + (if FlagAt(d, v).Mixed? then 1 else 0) == MixedIn(d, 0, v + 1) <= VecCount(d)
  {
    MixedSplit(d, 0, v + 1, SLOTS);
  }

  function UnusedBelow(d: Word, n: nat): (k: nat)
    requires n <= SLOTS
    ensures k <= n
  {
    if n == 0 then 0
    else UnusedBelow(d, n - 1) + if FlagAt(d, n - 1).Unused? then 1 else 0
  }

  lemma {:induction false} NoUnused(d: Word, n: nat)
    requires n <= SLOTS
    ensures UnusedBelow(d, n) == 0 <==> forall v :: 0 <= v < n ==> !FlagAt(d, v).Unused?
  {
    if n > 0 {
      NoUnused(d, n - 1);
    }
  }

  // ---- run-length descriptors --------------------------------------------

  predicate IsRle(d: Word) {
    d[62] && !d[63]
  }

  function RleLen(d: Word): nat {
    ToNat(d[..31])
  }

  function RleCap(d: Word): nat {
    ToNat(d[31..62])
  }

  /** Marks a word as a run-length descriptor, clearing every other bit. */
  function SetRle(d: Word): Word {
    seq(64, i => i == 62)
  }

  function SetRleCap(d: Word, cap: nat): Word {
    d[..31] + FromNat(cap, 31) + d[62..]
  }

  function SetRleLen(d: Word, len: nat): Word {
    FromNat(len, 31) + d[31..]
  }

  function RleDesc(cap: nat, len: nat): Word {
    SetRleLen(SetRleCap(SetRle(ZERO), cap), len)
  }

  function RleChunk(start: nat, cap: nat, len: nat): Chunk {
    Chunk(start, RleDesc(cap, len), [])
  }

  lemma RleFields(d: Word, n: nat)
    requires n <= RLE_MAX
    ensures RleCap(SetRleCap(d, n)) == n && RleLen(SetRleCap(d, n)) == RleLen(d)
    ensures RleLen(SetRleLen(d, n)) == n && RleCap(SetRleLen(d, n)) == RleCap(d)
    ensures IsRle(SetRleCap(d, n)) == IsRle(SetRleLen(d, n)) == IsRle(d)
  {
    Field31RoundTrip(n);
    var c, l := SetRleCap(d, n), SetRleLen(d, n);
    assert c[31..62] == FromNat(n, 31) && c[..31] == d[..31];
    assert l[..31] == FromNat(n, 31) && l[31..62] == d[31..62];
  }

  lemma RleDescFields(cap: nat, len: nat)
    requires cap <= RLE_MAX && len <= RLE_MAX
    ensures IsRle(RleDesc(cap, len)) && RleCap(RleDesc(cap, len)) == cap && RleLen(RleDesc(cap, len)) == len
  {
    RleFields(SetRle(ZERO), cap);
    RleFields(SetRleCap(SetRle(ZERO), cap), len);
  }

  lemma RleDescParts(cap: nat, len: nat)
    ensures RleDesc(cap, len) == FromNat(len, 31) + FromNat(cap, 31) + [true, false]
  {
    var m := SetRle(ZERO);
    assert m[62..] == [true, false];
    var c := SetRleCap(m, cap);
    assert c[31..] == FromNat(cap, 31) + m[62..];
  }

  /** A run-length descriptor is determined by its two fields. */
  lemma RleCanonical(d: Word)
    requires IsRle(d)
    ensures RleCap(d) <= RLE_MAX && RleLen(d) <= RLE_MAX
    ensures d == RleDesc(RleCap(d), RleLen(d))
  {
    hide RleDesc, FromNat, ToNat, Pow2;
    FieldValues();
    FromNatToNat(d[..31]);
    FromNatToNat(d[31..62]);
    RleDescParts(RleCap(d), RleLen(d));
    assert d[62..] == [true, false];
    assert d == d[..31] + d[31..62] + d[62..];
  }

  /** Setting both fields of any run-length descriptor forgets the old ones. */
  lemma RleSetFields(d: Word, cap: nat, len: nat)
    requires IsRle(d) && cap <= RLE_MAX && len <= RLE_MAX
    ensures SetRleLen(SetRleCap(d, cap), len) == RleDesc(cap, len)
  {
    RleFields(d, cap);
    RleFields(SetRleCap(d, cap), len);
    RleCanonical(SetRleLen(SetRleCap(d, cap), len));
  }

  // ---- meaning -------------------------------------------------------------

  /** One past the highest index the chunk's readers take it to cover, relative to its start. */
  function Cap(c: Chunk): nat {
    if IsRle(c.desc) then RleCap(c.desc) else WINDOW - 64 * UnusedBelow(c.desc, SLOTS)
  }

  /** The number of words after the start: the descriptor and its payload. */
  function Size(d: Word): nat {
    if IsRle(d) then 1 else 1 + VecCount(d)
  }

  predicate Shaped(c: Chunk) {
    1 + |c.vecs| == Size(c.desc)
  }

  function SlotWord(c: Chunk, v: nat): Word
    requires v < SLOTS
  {
    if FlagAt(c.desc, v).Ones? then ONES
    else if FlagAt(c.desc, v).Mixed? && MixedIn(c.desc, 0, v) < |c.vecs| then c.vecs[MixedIn(c.desc, 0, v)]
    else ZERO
  }

  type Window = ws: seq<Word> | |ws| == 32 witness seq(32, i => ZERO)

  function NoWords(): Window {
    seq(SLOTS, i => ZERO)
  }

  function AllSlots(): seq<bool> {
    seq(SLOTS, i => true)
  }

  /** The thirty-two words of a sparse chunk's window. */
  function Expand(c: Chunk): Window {
    seq(SLOTS, v requires 0 <= v < SLOTS => SlotWord(c, v))
  }

  predicate WindowHas(start: nat, ws: Window, x: nat) {
    start <= x < start + WINDOW && ws[(x - start) / 64][(x - start) % 64]
  }

  /** Membership of index x in chunk c. */
  predicate ChunkHas(c: Chunk, x: nat) {
    if IsRle(c.desc) then c.start <= x < c.start + RleLen(c.desc)
    else WindowHas(c.start, Expand(c), x)
  }

  // ---- encoding a window -----------------------------------------------------

  function FlagOf(w: Word, used: bool): Flag {
    if !used then Unused else if w == ZERO then Zeros else if w == ONES then Ones else Mixed
  }

  function DescOf(ws: Window, caps: seq<bool>): (d: Word)
    requires |caps| == 32
    ensures forall v :: 0 <= v < SLOTS ==> FlagAt(d, v) == FlagOf(ws[v], caps[v])
  {
    DescBits(ws, caps, SLOTS)
  }

  /** The flag codes of the first n slots, two bits each. */
  function DescBits(ws: Window, caps: seq<bool>, n: nat): (d: seq<bool>)
    requires |caps| == 32 && n <= SLOTS
    ensures |d| == 2 * n
    ensures forall v :: 0 <= v < n ==>
      d[2 * v] == (FlagOf(ws[v], caps[v]).Ones? || FlagOf(ws[v], caps[v]).Unused?)
    ensures forall v :: 0 <= v < n ==>
      d[2 * v + 1] == (FlagOf(ws[v], caps[v]).Ones? || FlagOf(ws[v], caps[v]).Mixed?)
  {
    if n == 0 then []
    else
      DescBits(ws, caps, n - 1) +
      [FlagOf(ws[n - 1], caps[n - 1]).Ones? || FlagOf(ws[n - 1], caps[n - 1]).Unused?,
       FlagOf(ws[n - 1], caps[n - 1]).Ones? || FlagOf(ws[n - 1], caps[n - 1]).Mixed?]
  }

  /** The words of the Mixed slots in [lo, hi), in slot order. */
  function VecsIn(d: Word, ws: Window, lo: nat, hi: nat): (r: seq<Word>)
    requires lo <= hi <= SLOTS
    ensures |r| == MixedIn(d, lo, hi)
  {
    if lo == hi then []
    else VecsIn(d, ws, lo, hi - 1) + if FlagAt(d, hi - 1).Mixed? then [ws[hi - 1]] else []
  }

  lemma {:induction false} VecsSplit(d: Word, ws: Window, lo: nat, mid: nat, hi: nat)
    requires lo <= mid <= hi <= SLOTS
    ensures VecsIn(d, ws, lo, hi) == VecsIn(d, ws, lo, mid) + VecsIn(d, ws, mid, hi)
  {
    if mid < hi {
      VecsSplit(d, ws, lo, mid, hi - 1);
    }
  }

  lemma {:induction false} VecsSame(d: Word, ws: Window, d': Word, ws': Window, lo: nat, hi: nat)
    requires lo <= hi <= SLOTS
    requires forall v :: lo <= v < hi ==> FlagAt(d, v) == FlagAt(d', v) && ws[v] == ws'[v]
    ensures VecsIn(d, ws, lo, hi) == VecsIn(d', ws', lo, hi)
    ensures MixedIn(d, lo, hi) == MixedIn(d', lo, hi)
  {
    if lo < hi {
      VecsSame(d, ws, d', ws', lo, hi - 1);
    }
  }

  /** The sparse chunk for a window; slots outside caps are marked unused. */
  function SparseChunk(start: nat, ws: Window, caps: seq<bool>): Chunk
    requires |caps| == 32
  {
    Chunk(start, DescOf(ws, caps), VecsIn(DescOf(ws, caps), ws, 0, SLOTS))
  }

  /** The sparse chunk that claims its whole window. */
  function FullChunk(start: nat, ws: Window): Chunk {
    SparseChunk(start, ws, AllSlots())
  }

  lemma VecOfSlot(d: Word, ws: Window, v: nat)
    requires v < SLOTS && FlagAt(d, v).Mixed?
    ensures MixedIn(d, 0, v) < MixedIn(d, 0, SLOTS)
    ensures VecsIn(d, ws, 0, SLOTS)[MixedIn(d, 0, v)] == ws[v]
  {
    MixedPosition(d, v);
    VecsSplit(d, ws, 0, v + 1, SLOTS);
    assert VecsIn(d, ws, 0, v + 1) == VecsIn(d, ws, 0, v) + [ws[v]];
  }

  /** Decoding what was encoded gives the window back. */
  lemma ExpandSparse(start: nat, ws: Window, caps: seq<bool>)
    requires |caps| == 32 && caps[31]
    requires forall v :: 0 <= v < SLOTS && !caps[v] ==> ws[v] == ZERO
    ensures var c := SparseChunk(start, ws, caps);
      !IsRle(c.desc) && Shaped(c) && Expand(c) == ws && forall v :: 0 <= v < SLOTS ==> SlotWord(c, v) == ws[v]
  {
    var c := SparseChunk(start, ws, caps);
    forall v | 0 <= v < SLOTS ensures SlotWord(c, v) == ws[v] {
      if FlagAt(c.desc, v).Mixed? {
        VecOfSlot(c.desc, ws, v);
      }
    }
    assert FlagAt(c.desc, 31) != Unused;
    assert Expand(c) == ws;
  }

  // ---- well-formedness ---------------------------------------------------------

  /** One past the last index of the part of the index space the chunk occupies. */
  function Span(c: Chunk): nat {
    if IsRle(c.desc) then RleCap(c.desc) else WINDOW
  }

  ghost predicate WfRle(c: Chunk) {
    && IsRle(c.desc)
    && c.vecs == []
    && Aligned(RleCap(c.desc))
    && 1 <= RleLen(c.desc) <= RleCap(c.desc) <= RLE_LIMIT
  }

  /** A sparse chunk whose data-bearing slots all lie below its capacity. */
  ghost predicate WfSparse(c: Chunk) {
    && !IsRle(c.desc)
    && Shaped(c)
    && (exists v :: 0 <= v < SLOTS && Carries(FlagAt(c.desc, v)))
    && (forall v :: 0 <= v < SLOTS && FlagAt(c.desc, v).Mixed? ==> SlotWord(c, v) != ZERO && SlotWord(c, v) != ONES)
    && (forall v :: 0 <= v < SLOTS && Carries(FlagAt(c.desc, v)) ==> 64 * (v + 1) <= Cap(c))
  }

  /** No slot of a sparse chunk is marked unused. */
  ghost predicate Full(c: Chunk) {
    !IsRle(c.desc) ==> forall v :: 0 <= v < SLOTS ==> !FlagAt(c.desc, v).Unused?
  }

  ghost predicate WfChunk(c: Chunk) {
    && (WfRle(c) || WfSparse(c))
    && Aligned(c.start)
    && c.start + Span(c) <= TOP
  }

  function CapsOf(c: Chunk): seq<bool> {
    seq(SLOTS, v requires 0 <= v < SLOTS => !(c.desc[2 * v] && !c.desc[2 * v + 1]))
  }

  lemma {:induction false} VecsPrefix(c: Chunk, n: nat)
    requires n <= SLOTS && !IsRle(c.desc) && Shaped(c)
    ensures MixedIn(c.desc, 0, n) <= |c.vecs|
    ensures VecsIn(c.desc, Expand(c), 0, n) == c.vecs[..MixedIn(c.desc, 0, n)]
  {
    MixedSplit(c.desc, 0, n, SLOTS);
    if n > 0 {
      VecsPrefix(c, n - 1);
      MixedPosition(c.desc, n - 1);
    }
  }

  /** A well-formed sparse chunk is the encoding of its own window. */
  lemma SparseCanonical(c: Chunk)
    requires WfSparse(c)
    ensures c == SparseChunk(c.start, Expand(c), CapsOf(c))
    ensures CapsOf(c)[31]
    ensures exists v :: 0 <= v < SLOTS && Expand(c)[v] != ZERO
    ensures Full(c) ==> c == FullChunk(c.start, Expand(c)) && Cap(c) == WINDOW
  {
    hide DescOf, MixedIn, UnusedBelow;
    var ws, caps := Expand(c), CapsOf(c);
    SlotFlags(c);
    SameFlags(DescOf(ws, caps), c.desc);
    VecsPrefix(c, SLOTS);
    var v :| 0 <= v < SLOTS && Carries(FlagAt(c.desc, v));
    if Full(c) {
      assert caps == AllSlots();
      NoUnused(c.desc, SLOTS);
    }
  }

  /** The flags of a well-formed sparse chunk are those its words call for. */
  lemma SlotFlags(c: Chunk)
    requires WfSparse(c)
    ensures forall v :: 0 <= v < SLOTS ==> FlagOf(Expand(c)[v], CapsOf(c)[v]) == FlagAt(c.desc, v)
    ensures forall v :: 0 <= v < SLOTS && Carries(FlagAt(c.desc, v)) ==> Expand(c)[v] != ZERO
    ensures CapsOf(c)[31]
  {
    hide MixedIn, UnusedBelow;
    assert ZERO[0] != ONES[0];
    assert FlagAt(c.desc, 31) != Unused;
  }

  /** A sparse chunk with every slot in use and a slot that carries data is well formed when its mixed words are. */
  lemma FullSparse(c: Chunk, v: nat)
    requires !IsRle(c.desc) && Shaped(c) && Full(c) && v < SLOTS && Carries(FlagAt(c.desc, v))
    requires forall u :: 0 <= u < SLOTS && FlagAt(c.desc, u).Mixed? ==> SlotWord(c, u) != ZERO && SlotWord(c, u) != ONES
    ensures WfSparse(c) && Cap(c) == WINDOW
  {
    hide SlotWord, FlagAt, Shaped;
    NoUnused(c.desc, SLOTS);
  }

  /** Encoding a window that holds a bit gives a well-formed chunk with exactly the window's bits. */
  lemma FullChunkWf(start: nat, ws: Window)
    requires Aligned(start) && start + WINDOW <= TOP
    requires exists v :: 0 <= v < SLOTS && ws[v] != ZERO
    ensures var c := FullChunk(start, ws);
      WfChunk(c) && Full(c) && WfSparse(c) && Expand(c) == ws && Cap(c) == WINDOW && !IsRle(c.desc)
  {
    hide Expand, SlotWord, FlagAt, DescOf, Shaped, WfSparse, VecsIn;
    var c := FullChunk(start, ws);
    ExpandSparse(start, ws, AllSlots());
    var v :| 0 <= v < SLOTS && ws[v] != ZERO;
    assert FlagAt(c.desc, v) == FlagOf(ws[v], true);
    FullSparse(c, v);
  }

  lemma RleChunkWf(start: nat, cap: nat, len: nat)
    requires Aligned(start) && start + cap <= TOP
    requires Aligned(cap) && 1 <= len <= cap <= RLE_LIMIT
    ensures var c := RleChunk(start, cap, len);
      WfChunk(c) && Full(c) && IsRle(c.desc) && RleCap(c.desc) == cap && RleLen(c.desc) == len && Span(c) == cap
  {
    RleDescFields(cap, len);
  }

  /** The members of a chunk lie in its span, and below its capacity. */
  lemma ChunkHasBound(c: Chunk, x: nat)
    requires WfRle(c) || WfSparse(c)
    requires ChunkHas(c, x)
    ensures c.start <= x < c.start + Span(c)
    ensures x < c.start + Cap(c)
  {
    if !IsRle(c.desc) {
      var v := (x - c.start) / 64;
      assert Expand(c)[v][(x - c.start) % 64];
      assert Carries(FlagAt(c.desc, v));
    }
  }
}
