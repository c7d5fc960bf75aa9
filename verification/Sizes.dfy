// The words that sets take: one payload word for each word-sized slot that is neither full nor empty.
module Sizes {
  import opened Words
  import opened Chunks
  import opened Streams
  import opened RunLengths
  import opened Edits

  /** All of the 64 indices from lo on are in s. */
  ghost predicate AllOf(s: iset<nat>, lo: nat) {
    forall x: nat :: lo <= x < lo + 64 ==> x in s
  }

  /** None of the 64 indices from lo on is in s. */
  ghost predicate NoneOf(s: iset<nat>, lo: nat) {
    forall x: nat :: lo <= x < lo + 64 ==> x !in s
  }

  /** The first index of the slot that idx falls in. */
  function SlotBase(idx: nat): nat {
    idx / 64 * 64
  }

  lemma {:induction false} SlotBaseIn(start: nat, idx: nat)
    requires Aligned(start) && start <= idx
    ensures SlotBase(idx) == start + 64 * ((idx - start) / 64)
  {
    if start > 0 {
      SlotBaseIn(start - WINDOW, idx - WINDOW);
      assert (idx - WINDOW) / 64 == idx / 64 - 32;
    }
  }

  /** How many of the first n slots from start on are neither full nor empty. */
  ghost function PartialSlots(s: iset<nat>, start: nat, n: nat): nat {
    if n == 0 then 0
    else PartialSlots(s, start, n - 1) + if AllOf(s, start + 64 * (n - 1)) || NoneOf(s, start + 64 * (n - 1)) then 0 else 1
  }

  lemma {:induction false} PartialSame(s: iset<nat>, t: iset<nat>, start: nat, n: nat)
    requires forall x: nat :: start <= x < start + 64 * n ==> (x in s <==> x in t)
    ensures PartialSlots(s, start, n) == PartialSlots(t, start, n)
  {
    if n > 0 {
      PartialSame(s, t, start, n - 1);
    }
  }

  /** What the flag of a slot says about its members. */
  lemma SlotFlag(c: Chunk, v: nat)
    requires WfSparse(c) && v < SLOTS
    ensures AllOf(ChunkMembers(c), c.start + 64 * v) <==> FlagAt(c.desc, v) == Ones
    ensures NoneOf(ChunkMembers(c), c.start + 64 * v) <==> !Carries(FlagAt(c.desc, v))
    ensures Carries(FlagAt(c.desc, v)) <==> FlagAt(c.desc, v) == Ones || FlagAt(c.desc, v) == Mixed
  {
    hide FlagAt, SlotWord, ChunkHas;
    SlotMember(c, v);
    SolidWord(SlotWord(c, v));
    SlotPoints(c, v);
    WordOfFlag(c, v);
  }

  lemma SolidWord(w: Word)
    ensures w == ONES <==> forall k :: 0 <= k < 64 ==> w[k]
    ensures w == ZERO <==> forall k :: 0 <= k < 64 ==> !w[k]
  {
    if forall k :: 0 <= k < 64 ==> w[k] {
      WordExt(w, ONES);
    }
    if forall k :: 0 <= k < 64 ==> !w[k] {
      WordExt(w, ZERO);
    }
  }

  lemma SlotPoints(c: Chunk, v: nat)
    requires WfSparse(c) && v < SLOTS
    ensures AllOf(ChunkMembers(c), c.start + 64 * v) <==> forall k :: 0 <= k < 64 ==> SlotWord(c, v)[k]
    ensures NoneOf(ChunkMembers(c), c.start + 64 * v) <==> forall k :: 0 <= k < 64 ==> !SlotWord(c, v)[k]
  {
    hide WfSparse, SlotWord, ChunkHas, ChunkMembers;
    SlotMember(c, v);
  }

  lemma SlotMember(c: Chunk, v: nat)
    requires WfSparse(c) && v < SLOTS
    ensures forall k :: 0 <= k < 64 ==> (c.start + 64 * v + k in ChunkMembers(c) <==> SlotWord(c, v)[k])
    ensures forall x: nat :: c.start + 64 * v <= x < c.start + 64 * v + 64 ==> (x in ChunkMembers(c) <==> SlotWord(c, v)[x - c.start - 64 * v])
  {
    hide SlotWord, ChunkHas;
    forall k | 0 <= k < 64 ensures c.start + 64 * v + k in ChunkMembers(c) <==> SlotWord(c, v)[k] {
      SlotBit(c, v, k);
    }
    forall x: nat | c.start + 64 * v <= x < c.start + 64 * v + 64
      ensures x in ChunkMembers(c) <==> SlotWord(c, v)[x - c.start - 64 * v]
    {
      SlotBit(c, v, x - c.start - 64 * v);
    }
  }

  lemma WordOfFlag(c: Chunk, v: nat)
    requires WfSparse(c) && v < SLOTS
    ensures SlotWord(c, v) == ONES <==> FlagAt(c.desc, v) == Ones
    ensures SlotWord(c, v) == ZERO <==> !Carries(FlagAt(c.desc, v))
    ensures Carries(FlagAt(c.desc, v)) <==> FlagAt(c.desc, v) == Ones || FlagAt(c.desc, v) == Mixed
  {
    hide FlagAt, MixedIn;
    assert ZERO[0] != ONES[0];
  }

  lemma {:induction false} MixedIsPartial(c: Chunk, n: nat)
    requires WfSparse(c) && n <= SLOTS
    ensures MixedIn(c.desc, 0, n) == PartialSlots(ChunkMembers(c), c.start, n)
  {
    hide WfSparse, FlagAt, AllOf, NoneOf, ChunkMembers;
    if n > 0 {
      MixedIsPartial(c, n - 1);
      SlotFlag(c, n - 1);
    }
  }

  /** The words of a sparse chunk: start, descriptor and a payload word for each partial slot. */
  lemma SparseWords(c: Chunk)
    requires WfSparse(c)
    ensures |Enc(c)| == 2 + PartialSlots(ChunkMembers(c), c.start, SLOTS)
  {
    hide FlagAt, PartialSlots, ChunkMembers, MixedIn;
    MixedIsPartial(c, SLOTS);
  }

  /** The words of a chunk that stands for the run [lo, hi) alone. */
  ghost function PieceWords(lo: nat, hi: nat): nat {
    if hi > lo + WINDOW then 2 else 2 + PartialSlots(Range(lo, hi), lo, SLOTS)
  }

  /** The words of the pieces that the run [start, e) falls into around the window of idx. */
  ghost function SeparatedWords(start: nat, e: nat, idx: nat, change: Change): nat {
    var f := Floor(idx);
    (if f > start then PieceWords(start, if f < e then f else e) else 0)
    + (2 + PartialSlots(Changed(Range(start, e), idx, change), f, SLOTS))
    + (if f + WINDOW < e then PieceWords(f + WINDOW, e) else 0)
  }
}
