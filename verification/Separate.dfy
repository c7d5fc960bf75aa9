// Separation: a run-length chunk becomes one to three chunks around one window of its run.
module Separate {
  import opened Words
  import opened Chunks
  import opened Streams
  import opened Maps
  import opened RunLengths
  import opened Appends
  import opened Coalesce
  import opened Edits
  import opened Pivot
  import opened Sizes

  // ---- the sides of the pivot --------------------------------------------------

  /** A chunk that holds exactly the run [lo, hi) and claims no more than cap indices. */
  ghost predicate IsSide(c: Chunk, lo: nat, hi: nat, cap: int) {
    && WfChunk(c) && Full(c) && c.start == lo
    && (forall x: nat :: ChunkHas(c, x) <==> Between(lo, x, hi))
    && Span(c) <= cap
    && |c.vecs| <= 1
    && (IsRle(c.desc) <==> hi > lo + WINDOW)
  }

  lemma PivotChunk(c: Chunk, start: nat, e: nat, idx: nat, change: Change)
    requires IsPivot(c, start, e, idx, change) && Aligned(start) && start + WINDOW <= TOP
    ensures WfChunk(c) && Full(c) && c.start == start && Span(c) == WINDOW && !IsRle(c.desc)
    ensures forall x: nat :: ChunkHas(c, x) <==> Between(start, x, start + WINDOW) && After(x, e, idx, change)
  {
    hide WfSparse, Full;
    PivotSparse(c, start, e, idx, change);
    forall x: nat ensures ChunkHas(c, x) <==> Between(start, x, start + WINDOW) && After(x, e, idx, change) {
      if start <= x < start + WINDOW {
        var v, k := (x - start) / 64, (x - start) % 64;
        assert SlotWord(c, v)[k] == After(start + 64 * v + k, e, idx, change);
      }
    }
  }

  lemma PivotSparse(c: Chunk, start: nat, e: nat, idx: nat, change: Change)
    requires IsPivot(c, start, e, idx, change)
    ensures WfSparse(c) && !IsRle(c.desc)
  {
  }

  /** A sparse side is a pivot that keeps the run's bits. */
  lemma SparseSide(c: Chunk, lo: nat, hi: nat, cap: nat)
    requires IsPivot(c, lo, hi, lo, Keep) && lo < hi <= lo + WINDOW && |c.vecs| <= 1
    requires Aligned(lo) && Aligned(cap) && 0 < cap && lo + cap <= TOP
    ensures IsSide(c, lo, hi, cap)
  {
    hide IsPivot, Full, WfChunk, Aligned;
    AlignedConstants();
    AlignedStep(0, cap);
    PivotChunk(c, lo, hi, lo, Keep);
  }

  lemma RunSide(lo: nat, hi: nat, cap: nat)
    requires lo + WINDOW < hi <= lo + cap && Aligned(lo) && Aligned(cap) && lo + cap <= TOP && cap <= RLE_LIMIT
    ensures IsSide(RleChunk(lo, cap, hi - lo), lo, hi, cap)
  {
    RleChunkWf(lo, cap, hi - lo);
  }

  /** The flags of a run that starts its window: n whole words, then possibly a partial one. */
  lemma SideFlags(d: Word, n: nat)
    requires 0 < n <= WINDOW
    requires d == if n >= 64 then Shr(ONES, (SLOTS - n / 64) * 2) else ZERO
    ensures n % 64 == 0 ==> CutFlags(d, SLOTS, SLOTS, n / 64)
    ensures n % 64 != 0 ==> n / 64 < SLOTS && CutFlags(SetFlag(d, n / 64, Mixed), n / 64, n / 64, n / 64)
  {
    var q := n / 64;
    forall v | 0 <= v < SLOTS ensures FlagAt(d, v) == if v < q then Ones else Zeros {
      if n >= 64 {
        assert d[2 * v] == (2 * v + (SLOTS - q) * 2 < 64) && d[2 * v + 1] == (2 * v + 1 + (SLOTS - q) * 2 < 64);
      }
    }
  }

  lemma TailMask(r: nat)
    requires 0 < r < 64
    ensures Or(ZERO, Shr(ONES, (64 - r) % 64)) == LowMask(r)
  {
    WordExt(Or(ZERO, Shr(ONES, (64 - r) % 64)), LowMask(r));
  }

  function Min(a: nat, b: nat): nat {
    if a < b then a else b
  }

  /** Builds one side at position `at` of the scratch buffer. */
  method BuildSide(buf: array<Word>, at: nat, lo: nat, hi: nat, cap: nat) returns (size: nat, ghost c: Chunk)
    requires buf.Length == SCRATCH && at + 3 <= SCRATCH && buf[at + 1] == ZERO && buf[at + 2] == ZERO
    requires lo < hi <= lo + cap && Aligned(lo) && Aligned(cap) && lo + cap <= TOP && cap <= RLE_LIMIT
    modifies buf
    ensures IsSide(c, lo, hi, cap) && size == |Enc(c)| && size <= 3
    ensures HoldsChunk(buf[..], at, c)
    ensures forall i :: 0 <= i < SCRATCH && !(at <= i < at + size) ==> buf[i] == old(buf[i])
  {
    hide IsSide, HoldsChunk, IsPivot, CutFlags, U64, SetFlag, SetRle, SetRleCap, SetRleLen, Shr, Or, Aligned;
    buf[at] := U64(lo);
    var n := hi - lo;
    if n > WINDOW {
      buf[at + 1] := SetRle(buf[at + 1]);
      buf[at + 1] := SetRleCap(buf[at + 1], Min(cap, RLE_MAX));
      buf[at + 1] := SetRleLen(buf[at + 1], n);
      RunSide(lo, hi, cap);
      c := RleChunk(lo, cap, n);
      size := 2;
    } else {
      if n >= 64 {
        buf[at + 1] := Shr(ONES, (SLOTS - n / 64) * 2);
      }
      SideFlags(buf[at + 1], n);
      ghost var bv, r := n / 64, n % 64;
      assert hi == lo + 64 * bv + r;
      if n % 64 != 0 {
        buf[at + 1] := SetFlag(buf[at + 1], n / 64, Mixed);
        buf[at + 2] := Or(buf[at + 2], Shr(ONES, (64 - n % 64) % 64));
        TailMask(r);
        CutKeep(lo, buf[at + 1], hi, lo, bv, r);
        c := Chunk(lo, buf[at + 1], [LowMask(r)]);
        size := 3;
      } else {
        CutKeepWhole(lo, buf[at + 1], hi, lo, bv);
        c := Chunk(lo, buf[at + 1], []);
        size := 2;
      }
      SparseSide(c, lo, hi, cap);
    }
    HoldsWords(buf[..], at, c);
  }

  /** Moves the pivot down one word, when the left side has no payload. */
  method CloseGap(buf: array<Word>, psize: nat, ghost left: Chunk, ghost pivot: Chunk)
    requires buf.Length == SCRATCH && psize <= 4
    requires HoldsChunk(buf[..], 0, left) && |Enc(left)| == 2
    requires HoldsChunk(buf[..], 3, pivot) && |Enc(pivot)| == psize && ClearFrom(buf[..], 3 + psize)
    modifies buf
    ensures HoldsChunk(buf[..], 0, left) && HoldsChunk(buf[..], 2, pivot) && ClearFrom(buf[..], 2 + psize)
  {
    hide U64;
    ghost var was := buf[..];
    WordsHeld(was, 0, left);
    WordsHeld(was, 3, pivot);
    forall i | 0 <= i < psize {
      buf[2 + i] := buf[3 + i];
    }
    buf[2 + psize] := ZERO;
    assert buf[0] == was[0] && buf[1] == was[1];
    HoldsWords(buf[..], 0, left);
    forall i | 0 <= i < |pivot.vecs| ensures buf[4 + i] == pivot.vecs[i] {
      assert buf[2 + (2 + i)] == was[3 + (2 + i)];
    }
    HoldsWords(buf[..], 2, pivot);
  }

  // ---- placing the pivot -------------------------------------------------------

  /** What the three cases of the separation leave in the scratch buffer before the sides are built. */
  ghost predicate Placed(b: seq<Word>, start: nat, e: nat, idx: nat, change: Change, pivot: Chunk, psize: nat) {
    && |b| == SCRATCH
    && IsPivot(pivot, Floor(idx), e, idx, change)
    && psize == |Enc(pivot)| && 2 <= psize <= 4 && (Floor(idx) + WINDOW < e ==> psize <= 3)
    && HoldsChunk(b, if Floor(idx) > start then 3 else 0, pivot)
    && ClearFrom(b, if Floor(idx) > start then 3 + psize else psize)
    && (Floor(idx) > start ==> forall i :: 0 <= i < 3 ==> b[i] == ZERO)
  }

  /** Where the changed index may lie in the target [start, start + cap) with run end e. */
  ghost predicate ChangeOk(start: nat, e: nat, cap: nat, idx: nat, change: Change) {
    && start <= idx && start < e <= start + cap
    && match change
       case Clear => idx + 1 < e
       case Set => e < idx < start + cap
       case Keep => idx < e
  }

  /**
   * Builds the pivot for the window of idx and decides which sides remain: the run's part
   * below the window and, when the run goes on past it, the part above.
   */
  method PlacePivot(buf: array<Word>, start: nat, len: nat, cap: nat, idx: nat, change: Change)
    returns (psize: nat, hasLeft: bool, leftEnd: nat, hasRight: bool, ghost pivot: Chunk)
    requires buf.Length == SCRATCH && Aligned(start) && ChangeOk(start, start + len, cap, idx, change)
    modifies buf
    ensures Placed(buf[..], start, start + len, idx, change, pivot, psize)
    ensures hasLeft <==> Floor(idx) > start
    ensures hasLeft ==> leftEnd == if Floor(idx) < start + len then Floor(idx) else start + len
    ensures hasRight <==> Floor(idx) + WINDOW < start + len
    ensures start <= Floor(idx)
  {
    hide IsPivot, HoldsChunk, Aligned, U64, SetFlag, SetBit, ClearBit, Enc;
    var e := start + len;
    var aligned := Floor(idx);
    AboveStart(start, idx);
    psize := StartPivot(buf, aligned, idx, change);
    hasLeft, leftEnd, hasRight := false, start, false;
    if aligned == start && len > WINDOW {
      pivot := StartedPivot(buf[..], aligned, e, idx, change);
      StartedClear0(buf[..], psize, change);
      hasRight := true;
      return;
    }
    if aligned < e && aligned + WINDOW >= e {
      psize, pivot := StraddlePivot(buf, start, aligned, e, idx, change, psize);
      if aligned > start {
        hasLeft, leftEnd := true, aligned;
      }
      return;
    }
    if aligned >= e {
      psize, pivot := FarPivot(buf, aligned, e, idx, psize);
      hasLeft, leftEnd := true, e;
      return;
    }
    pivot := StartedPivot(buf[..], aligned, e, idx, change);
    StartedClear0(buf[..], psize, change);
    MovePivot(buf, psize, pivot);
    hasLeft, leftEnd, hasRight := true, aligned, true;
  }

  lemma AboveStart(start: nat, idx: nat)
    requires Aligned(start) && start <= idx
    ensures start <= Floor(idx)
  {
    FloorUnique(start, start);
    FloorMonotone(start, idx);
  }

  /** The words past the started pivot are clear. */
  lemma StartedClear0(b: seq<Word>, size: nat, change: Change)
    requires |b| == SCRATCH && size == (if change == Keep then 2 else 3)
    requires change == Keep ==> b[2] == ZERO
    requires forall i :: 3 <= i < SCRATCH ==> b[i] == ZERO
    ensures ClearFrom(b, size)
  {
  }

  /** The run ends in the pivot's window. */
  method StraddlePivot(buf: array<Word>, start: nat, aligned: nat, e: nat, idx: nat, change: Change, size0: nat) returns (size: nat, ghost c: Chunk)
    requires buf.Length == SCRATCH && aligned < e <= aligned + WINDOW && aligned <= idx < aligned + WINDOW && start <= aligned
    requires change == Clear ==> idx + 1 < e
    requires change == Keep ==> idx < e
    requires change == Set ==> e < idx
    requires buf[0] == U64(aligned) && forall i :: 3 <= i < SCRATCH ==> buf[i] == ZERO
    requires size0 == if change == Keep then 2 else 3
    requires change == Clear ==>
      buf[1] == SetFlag(ONES, (idx - aligned) / 64, Mixed) && buf[2] == ClearBit(ONES, (idx - aligned) % 64)
    requires change != Clear ==> buf[1] == ONES && buf[2] == ZERO
    modifies buf
    ensures IsPivot(c, aligned, e, idx, change) && size == |Enc(c)| && 2 <= size <= 4
    ensures HoldsChunk(buf[..], if aligned > start then 3 else 0, c)
    ensures ClearFrom(buf[..], if aligned > start then 3 + size else size)
    ensures aligned > start ==> forall i :: 0 <= i < 3 ==> buf[i] == ZERO
  {
    hide IsPivot, HoldsChunk, U64, SetFlag, SetBit, ClearBit;
    size, c := ShortenPivot(buf, aligned, e, idx, change, size0);
    PivotWords(c, aligned, e, idx, change);
    if aligned > start {
      MovePivot(buf, size, c);
    }
    if change == Set && idx > e {
      size, c := AddBit(buf, if aligned > start then 3 else 0, aligned, e, idx, c);
    }
  }

  lemma PivotWords(c: Chunk, start: nat, e: nat, idx: nat, change: Change)
    requires IsPivot(c, start, e, idx, if change == Set then Keep else change)
    ensures 2 <= |Enc(c)|
  {
  }

  // ---- the pieces together -------------------------------------------------------

  /** The chunks that replace the target, left to right. */
  function Pieces(left: Chunk, hasLeft: bool, pivot: Chunk, right: Chunk, hasRight: bool): (r: seq<Chunk>)
    ensures 1 <= |r| <= 3
  {
    (if hasLeft then [left] else []) + [pivot] + (if hasRight then [right] else [])
  }

  /** The three parts of the run [start, e) with the change, cut at the window of idx. */
  ghost predicate Parts(start: nat, e: nat, cap: nat, idx: nat, change: Change,
                        left: Chunk, hasLeft: bool, pivot: Chunk, right: Chunk, hasRight: bool)
  {
    var f := Floor(idx);
    && start <= f
    && (hasLeft <==> f > start)
    && (hasRight <==> f + WINDOW < e)
    && (hasLeft ==> IsSide(left, start, if f < e then f else e, f - start))
    && IsPivot(pivot, f, e, idx, change)
    && (hasRight ==> IsSide(right, f + WINDOW, e, start + cap - (f + WINDOW)))
  }

  /** The target's window positions. */
  lemma WindowInTarget(start: nat, e: nat, cap: nat, idx: nat, change: Change)
    requires Aligned(start) && Aligned(cap) && start + cap <= TOP && ChangeOk(start, e, cap, idx, change)
    ensures start <= Floor(idx) && Floor(idx) + WINDOW <= start + cap
    ensures Aligned(Floor(idx) - start) && Aligned(Floor(idx) + WINDOW) && Aligned(start + cap - (Floor(idx) + WINDOW))
  {
    AboveStart(start, idx);
    AlignedSum(start, cap);
    AlignedStep(Floor(idx), start + cap);
    AlignedDiff(Floor(idx), start);
    AlignedConstants();
    AlignedSum(Floor(idx), WINDOW);
    AlignedDiff(start + cap, Floor(idx) + WINDOW);
  }

  /** The pieces are in order, fill no more than the target's span and hold the changed run. */
  lemma PiecesWf(start: nat, e: nat, cap: nat, idx: nat, change: Change,
                 left: Chunk, hasLeft: bool, pivot: Chunk, right: Chunk, hasRight: bool)
    requires Aligned(start) && Aligned(cap) && start + cap <= TOP && ChangeOk(start, e, cap, idx, change)
    requires Parts(start, e, cap, idx, change, left, hasLeft, pivot, right, hasRight)
    ensures var r := Pieces(left, hasLeft, pivot, right, hasRight);
      && WfStream(r) && AllFull(r)
      && r[0].start == start && End(r) <= start + cap
  {
    hide IsPivot, Aligned, WfSparse, WfRle, After;
    WindowInTarget(start, e, cap, idx, change);
    PivotChunk(pivot, Floor(idx), e, idx, change);
  }

  lemma PiecesMembers(start: nat, e: nat, cap: nat, idx: nat, change: Change,
                      left: Chunk, hasLeft: bool, pivot: Chunk, right: Chunk, hasRight: bool)
    requires Aligned(start) && Aligned(cap) && start + cap <= TOP && ChangeOk(start, e, cap, idx, change)
    requires Parts(start, e, cap, idx, change, left, hasLeft, pivot, right, hasRight)
    ensures Members(Pieces(left, hasLeft, pivot, right, hasRight)) == Changed(Range(start, e), idx, change)
  {
    hide IsPivot, Aligned, WfSparse, WfRle, WfChunk, Full, ChunkHas;
    WindowInTarget(start, e, cap, idx, change);
    PivotChunk(pivot, Floor(idx), e, idx, change);
    var a, b := if hasLeft then [left] else [], if hasRight then [right] else [];
    HasConcat(a, [pivot]);
    HasConcat(a + [pivot], b);
    HasOne(left);
    HasOne(pivot);
    HasOne(right);
    var r := Pieces(left, hasLeft, pivot, right, hasRight);
    forall x: nat ensures x in Members(r) <==> x in Changed(Range(start, e), idx, change) {
    }
  }

  /** The scratch buffer spells the pieces. */
  lemma PiecesStream(b: seq<Word>, left: Chunk, hasLeft: bool, pivot: Chunk, right: Chunk, hasRight: bool, lsize: nat, psize: nat, rsize: nat)
    requires lsize == (if hasLeft then |Enc(left)| else 0) && psize == |Enc(pivot)| && rsize == (if hasRight then |Enc(right)| else 0)
    requires lsize + psize + rsize <= SCRATCH == |b|
    requires hasLeft ==> HoldsChunk(b, 0, left)
    requires HoldsChunk(b, lsize, pivot)
    requires hasRight ==> HoldsChunk(b, lsize + psize, right)
    ensures b[..lsize + psize + rsize] == Stream(Pieces(left, hasLeft, pivot, right, hasRight))
  {
    hide Enc, Stream;
    var l, r := if hasLeft then [left] else [], if hasRight then [right] else [];
    StreamConcat(l, [pivot]);
    StreamConcat(l + [pivot], r);
    StreamOne(left);
    StreamOne(pivot);
    StreamOne(right);
    EmptyStream();
    assert b[..lsize + psize] == b[..lsize] + b[lsize..lsize + psize];
    assert b[..lsize + psize + rsize] == b[..lsize + psize] + b[lsize + psize..lsize + psize + rsize];
    assert hasLeft ==> b[..lsize] == b[0..0 + lsize];
  }

  /** A side takes the words of its run. */
  lemma SideWords(c: Chunk, lo: nat, hi: nat, cap: int)
    requires IsSide(c, lo, hi, cap)
    ensures |Enc(c)| == PieceWords(lo, hi)
  {
    hide Full, WfRle, WfSparse, ChunkHas, PartialSlots;
    RunOfChunk(c, lo, hi);
    NoPayload(c);
    if !IsRle(c.desc) {
      SparseWords(c);
    }
  }

  lemma RunOfChunk(c: Chunk, lo: nat, hi: nat)
    requires forall x: nat :: ChunkHas(c, x) <==> Between(lo, x, hi)
    ensures ChunkMembers(c) == Range(lo, hi)
  {
  }

  lemma NoPayload(c: Chunk)
    requires WfChunk(c)
    ensures IsRle(c.desc) ==> |Enc(c)| == 2
    ensures !IsRle(c.desc) ==> WfSparse(c)
  {
  }

  /** The pivot takes a payload word for each slot that the changed run fills in part. */
  lemma PivotTakes(c: Chunk, start: nat, e: nat, idx: nat, change: Change)
    requires IsPivot(c, Floor(idx), e, idx, change) && Aligned(Floor(idx)) && Floor(idx) + WINDOW <= TOP && start <= Floor(idx)
    ensures |Enc(c)| == 2 + PartialSlots(Changed(Range(start, e), idx, change), Floor(idx), SLOTS)
  {
    hide IsPivot, WfChunk, Full, WfSparse, ChunkHas, Aligned, Floor;
    var f := Floor(idx);
    PivotChunk(c, f, e, idx, change);
    PivotSparse(c, f, e, idx, change);
    SparseWords(c);
    var s, t := ChunkMembers(c), Changed(Range(start, e), idx, change);
    forall x: nat | f <= x < f + 64 * SLOTS ensures x in s <==> x in t {
      assert ChunkHas(c, x) <==> After(x, e, idx, change);
    }
    PartialSame(s, t, f, SLOTS);
  }

  /** The pieces take the words that the changed run needs. */
  lemma PiecesTake(start: nat, e: nat, cap: nat, idx: nat, change: Change,
                   left: Chunk, hasLeft: bool, pivot: Chunk, right: Chunk, hasRight: bool)
    requires Aligned(start) && Aligned(cap) && start + cap <= TOP && ChangeOk(start, e, cap, idx, change)
    requires Parts(start, e, cap, idx, change, left, hasLeft, pivot, right, hasRight)
    ensures (if hasLeft then |Enc(left)| else 0) + |Enc(pivot)| + (if hasRight then |Enc(right)| else 0) == SeparatedWords(start, e, idx, change)
  {
    hide IsPivot, IsSide, Aligned, Enc, PieceWords, PartialSlots, Range, Floor;
    WindowInTarget(start, e, cap, idx, change);
    var f := Floor(idx);
    AlignedFloor(idx);
    if hasLeft {
      SideWords(left, start, if f < e then f else e, f - start);
    }
    if hasRight {
      SideWords(right, f + WINDOW, e, start + cap - (f + WINDOW));
    }
    PivotTakes(pivot, start, e, idx, change);
  }

  lemma AlignedFloor(idx: nat)
    ensures Aligned(Floor(idx))
  {
  }

  /** Builds the sides around the placed pivot. */
  method BuildSides(buf: array<Word>, start: nat, e: nat, cap: nat, idx: nat, change: Change, psize: nat,
                    hasLeft: bool, leftEnd: nat, hasRight: bool, ghost pivot: Chunk)
    returns (total: nat, ghost r: seq<Chunk>, ghost left: Chunk, ghost right: Chunk)
    requires buf.Length == SCRATCH && ChangeOk(start, e, cap, idx, change)
    requires Aligned(start) && Aligned(cap) && cap <= RLE_LIMIT && start + cap <= TOP
    requires Placed(buf[..], start, e, idx, change, pivot, psize)
    requires hasLeft <==> Floor(idx) > start
    requires hasLeft ==> leftEnd == if Floor(idx) < e then Floor(idx) else e
    requires hasRight <==> Floor(idx) + WINDOW < e
    modifies buf
    ensures 2 <= total <= SCRATCH && buf[..total] == Stream(r)
    ensures total == SeparatedWords(start, e, idx, change)
    ensures WfStream(r) && AllFull(r) && r[0].start == start && End(r) <= start + cap
    ensures Members(r) == Changed(Range(start, e), idx, change)
    ensures |r| == 1 + (if hasLeft then 1 else 0) + (if hasRight then 1 else 0)
    ensures |r| > 1 ==> r[1] == (if hasLeft then pivot else r[1]) && (!hasLeft ==> r[1].start > idx)
    ensures r == Pieces(left, hasLeft, pivot, right, hasRight) && Parts(start, e, cap, idx, change, left, hasLeft, pivot, right, hasRight)
  {
    hide IsPivot, HoldsChunk, IsSide, Aligned, WfStream, AllFull, Members, Range, Enc, Stream, ClearFrom, SeparatedWords;
    WindowInTarget(start, e, cap, idx, change);
    var aligned := Floor(idx);
    var lsize := 0;
    left, right := pivot, pivot;
    if hasLeft {
      lsize, left := BuildLeft(buf, start, leftEnd, aligned, psize, pivot);
    }
    var rsize := 0;
    if hasRight {
      rsize, right := BuildRight(buf, lsize + psize, aligned + WINDOW, e, start + cap - (aligned + WINDOW), lsize, hasLeft, left, pivot);
    }
    total := lsize + psize + rsize;
    r := Pieces(left, hasLeft, pivot, right, hasRight);
    PiecesWf(start, e, cap, idx, change, left, hasLeft, pivot, right, hasRight);
    PiecesMembers(start, e, cap, idx, change, left, hasLeft, pivot, right, hasRight);
    PiecesTake(start, e, cap, idx, change, left, hasLeft, pivot, right, hasRight);
    PiecesStream(buf[..], left, hasLeft, pivot, right, hasRight, lsize, psize, rsize);
    SideStart(right, aligned + WINDOW, e, start + cap - (aligned + WINDOW), hasRight);
  }

  lemma SideStart(c: Chunk, lo: nat, hi: nat, cap: int, has: bool)
    requires has ==> IsSide(c, lo, hi, cap)
    ensures has ==> c.start == lo
  {
  }

  /** The left side: its capacity reaches to the pivot, and the pivot moves down when it has no payload. */
  method BuildLeft(buf: array<Word>, start: nat, leftEnd: nat, aligned: nat, psize: nat, ghost pivot: Chunk) returns (size: nat, ghost left: Chunk)
    requires buf.Length == SCRATCH && start < leftEnd <= aligned && aligned - start <= RLE_LIMIT
    requires Aligned(start) && Aligned(aligned - start) && aligned <= TOP
    requires 2 <= psize <= 4 && psize == |Enc(pivot)|
    requires HoldsChunk(buf[..], 3, pivot) && ClearFrom(buf[..], 3 + psize) && forall i :: 0 <= i < 3 ==> buf[i] == ZERO
    modifies buf
    ensures IsSide(left, start, leftEnd, aligned - start) && size == |Enc(left)| && 2 <= size <= 3
    ensures HoldsChunk(buf[..], 0, left) && HoldsChunk(buf[..], size, pivot) && ClearFrom(buf[..], size + psize)
  {
    hide IsSide, Aligned, U64;
    ghost var was := buf[..];
    WordsHeld(was, 3, pivot);
    size, left := BuildSide(buf, 0, start, leftEnd, aligned - start);
    forall i | 0 <= i < |pivot.vecs| ensures buf[5 + i] == pivot.vecs[i] {
      assert was[3 + 2 + i] == pivot.vecs[i];
    }
    HoldsWords(buf[..], 3, pivot);
    if size == 2 {
      CloseGap(buf, psize, left, pivot);
    }
  }

  /** The right side: its capacity reaches to the end of the target's. */
  method BuildRight(buf: array<Word>, at: nat, lo: nat, hi: nat, cap: nat, ghost lsize: nat, ghost hasLeft: bool, ghost left: Chunk, ghost pivot: Chunk)
    returns (size: nat, ghost right: Chunk)
    requires buf.Length == SCRATCH && at + 3 <= SCRATCH && ClearFrom(buf[..], at)
    requires lo < hi <= lo + cap && Aligned(lo) && Aligned(cap) && lo + cap <= TOP && cap <= RLE_LIMIT
    requires lsize + |Enc(pivot)| == at && HoldsChunk(buf[..], lsize, pivot)
    requires hasLeft ==> lsize == |Enc(left)| && HoldsChunk(buf[..], 0, left)
    modifies buf
    ensures IsSide(right, lo, hi, cap) && size == |Enc(right)| && size <= 3
    ensures HoldsChunk(buf[..], lsize, pivot) && HoldsChunk(buf[..], at, right)
    ensures hasLeft ==> HoldsChunk(buf[..], 0, left)
  {
    hide IsSide, Aligned, Enc;
    ghost var was := buf[..];
    size, right := BuildSide(buf, at, lo, hi, cap);
    assert buf[..][lsize..lsize + |Enc(pivot)|] == was[lsize..lsize + |Enc(pivot)|];
    if hasLeft {
      assert buf[..][0..0 + |Enc(left)|] == was[0..0 + |Enc(left)|];
    }
  }

  // ---- knitting the pieces into the map --------------------------------------------

  /** The edits that replace a two-word chunk by longer words: insert the surplus after it, then overwrite. */
  function Knitted(w: seq<Word>, ws: seq<Word>, p: nat): seq<Word>
    requires |ws| >= 2 && p + 2 <= |w|
  {
    var w1 := w[..p + 2] + ws[2..] + w[p + 2..];
    w1[..p] + ws + w1[p + |ws|..]
  }

  lemma KnitWords(h: seq<Word>, e: seq<Word>, t: seq<Word>, ws: seq<Word>, p: nat)
    requires |e| == 2 && |ws| >= 2 && p == |h|
    ensures Knitted(h + e + t, ws, p) == h + ws + t
  {
    var w := h + e + t;
    var w1 := w[..p + 2] + ws[2..] + w[p + 2..];
    assert w[..p + 2] == h + e && w[p + 2..] == t;
    assert w1[p + |ws|..] == t;
  }

  lemma LayoutReplace(cs: seq<Chunk>, k: nat, r: seq<Chunk>, p: nat)
    requires k < |cs| && |Enc(cs[k])| == 2 && |Stream(r)| >= 2 && p == 1 + Off(cs, k)
    ensures p + 2 <= |Layout(Chunked(cs))|
    ensures Knitted(Layout(Chunked(cs)), Stream(r), p)[0 := CountHeader(|cs| + |r| - 1)] == Layout(Chunked(cs[..k] + r + cs[k + 1..]))
  {
    hide Stream, Enc, CountHeader, Layout, Knitted, Off;
    LayoutAround(cs, k);
    LayoutParts(cs[..k], r, cs[k + 1..]);
    KnitWords([CountHeader(|cs|)] + Stream(cs[..k]), Enc(cs[k]), Stream(cs[k + 1..]), Stream(r), p);
    HeadSwap(CountHeader(|cs|), CountHeader(|cs| + |r| - 1), Stream(cs[..k]), Stream(r), Stream(cs[k + 1..]));
  }

  /** Replaces chunk k, which has no payload, by the chunks whose words are ws. */
  method Knit(m: Map, p: nat, ws: seq<Word>, count: nat, ghost k: nat, ghost r: seq<Chunk>)
    requires m.Valid() && m.form.Chunked? && k < |m.Chunks()| && p == 1 + Off(m.Chunks(), k) && m.Chunks()[k].vecs == []
    requires ws == Stream(r) && |ws| >= 2 && count == |r| && count >= 1
    requires m.EnoughSpace(|ws| - 2)
    requires WfStream(m.Chunks()[..k] + r + m.Chunks()[k + 1..])
    modifies m, m.data
    ensures m.Valid() && m.data == old(m.data)
    ensures m.form == Chunked(old(m.Chunks())[..k] + r + old(m.Chunks())[k + 1..])
    ensures m.used == old(m.used) + |ws| - 2
  {
    hide Layout, WfStream, Stream, Off, CountHeader;
    ghost var cs := m.Chunks();
    assert m.form == Chunked(cs) && m.used == |Layout(Chunked(cs))|;
    LayoutReplace(cs, k, r, p);
    var n := m.Count();
    m.Insert(p + 2, ws[2..]);
    m.Write(p, ws);
    m.Put(0, CountHeader(n + count - 1));
    m.form := Chunked(cs[..k] + r + cs[k + 1..]);
  }

  /** The target's run replaced by the pieces. */
  lemma TargetReplaced(cs: seq<Chunk>, k: nat, r: seq<Chunk>, idx: nat, change: Change)
    requires WfStream(cs) && k < |cs| && IsRle(cs[k].desc)
    requires WfStream(r) && r != [] && r[0].start == cs[k].start && End(r) <= cs[k].start + RleCap(cs[k].desc)
    requires Members(r) == Changed(Range(cs[k].start, cs[k].start + RleLen(cs[k].desc)), idx, change)
    requires cs[k].start <= idx < cs[k].start + RleCap(cs[k].desc)
    ensures WfStream(cs[..k] + r + cs[k + 1..])
    ensures Members(cs[..k] + r + cs[k + 1..]) == Changed(Members(cs), idx, change)
    ensures AllFull(cs) && AllFull(r) ==> AllFull(cs[..k] + r + cs[k + 1..])
  {
    hide Members, AllFull, Range, WfStream, ChunkMembers;
    RleMembers(cs[k]);
    ChunkReplaced(cs, k, r, idx, change);
  }

  /** A pivot with a bit past the run has no leading run. */
  lemma BitBeyondNoRun(c: Chunk, f: nat, e: nat, idx: nat)
    requires IsPivot(c, f, e, idx, Set) && Aligned(f) && f + WINDOW <= TOP && f <= idx < f + WINDOW && e < idx
    ensures IsRunLength(c, 0)
  {
    hide IsPivot, WfChunk, Full, Aligned, ChunkHas;
    PivotChunk(c, f, e, idx, Set);
    var y := if idx == f then f + 1 else if e > f then e else f;
    assert !ChunkHas(c, y) && ChunkHas(c, idx);
    forall n: nat | n >= 64 ensures !PrefixRun(c, n) {
      assert Between(f, y, f + n) <==> y < f + n;
      assert Between(f, idx, f + n) <==> idx < f + n;
    }
  }

  /**
   * Replaces the run-length chunk at p by one to three chunks that stand for the run with
   * the bit at idx cleared, set or kept; refuses, changing nothing, when they do not fit.
   */
  method SeparateRle(m: Map, p: nat, c: Chunk, idx: nat, change: Change, ghost k: nat) returns (ok: bool)
    requires m.Valid() && m.form.Chunked? && k < |m.Chunks()| && p == 1 + Off(m.Chunks(), k) && c == m.Chunks()[k]
    requires IsRle(c.desc) && c.start <= idx < c.start + RleCap(c.desc)
    requires change == Clear ==> idx + 1 < c.start + RleLen(c.desc)
    requires change == Keep ==> idx < c.start + RleLen(c.desc)
    requires change == Set ==> idx != c.start + RleLen(c.desc)
    modifies m, m.data
    ensures m.Valid() && m.form.Chunked? && m.data == old(m.data)
    ensures !ok ==> m.form == old(m.form) && m.used == old(m.used)
    ensures old(m.used) + SCRATCH - 1 <= m.data.Length ==> ok
    ensures change == Set && idx < c.start + RleLen(c.desc) ==> ok
    ensures !(change == Set && idx < c.start + RleLen(c.desc)) ==>
      (ok <==> old(m.used) + (SeparatedWords(c.start, c.start + RleLen(c.desc), idx, change) - 2) + 1 <= m.data.Length)
    ensures ok ==> Members(m.Chunks()) == Changed(Members(old(m.Chunks())), idx, change)
    ensures AllFull(old(m.Chunks())) ==> AllFull(m.Chunks())
    ensures |old(m.Chunks())| <= |m.Chunks()| <= |old(m.Chunks())| + 2
    ensures m.used <= old(m.used) + SCRATCH - 2
    ensures k < |m.Chunks()| && p == 1 + Off(m.Chunks(), k) && m.Chunks()[k].start == c.start
    ensures ok && change == Set && NoneJoin(old(m.Chunks()), |old(m.Chunks())|) ==> JoinsOnlyAt(m.Chunks(), k)
    ensures ok && change == Clear && NoneJoin(old(m.Chunks()), |old(m.Chunks())|) ==>
      (NoneJoin(m.Chunks(), |m.Chunks()|) <==> !Seam(c.start, idx))
    ensures ok && change == Set ==> NeighbourSafe(m.Chunks(), k, idx, true)
  {
    hide NoneJoin, JoinsOnlyAt, Seam, Parts, Pieces, Layout, WfStream, AllFull, Members, Range, Aligned, IsPivot, HoldsChunk, Placed, ClearFrom, Off, Stream, NeighbourSafe, IsRunLength, U64, SeparatedWords;
    ghost var cs := m.Chunks();
    TargetFacts(cs, k);
    var len, cap := RleLen(c.desc), RleCap(c.desc);
    var buf := new Word[SCRATCH](i => ZERO);
    if change == Set && idx < c.start + len {
      AlreadySet(cs, k, idx);
      if NoneJoin(cs, |cs|) {
        SameJoins(cs, k);
      }
      return true;
    }
    var psize, hasLeft, leftEnd, hasRight, pivot := PlacePivot(buf, c.start, len, cap, idx, change);
    PlacedPivot(buf[..], c.start, c.start + len, idx, change, pivot, psize);
    var total, r, left, right := BuildSides(buf, c.start, c.start + len, cap, idx, change, psize, hasLeft, leftEnd, hasRight, pivot);
    TargetReplaced(cs, k, r, idx, change);
    if !m.EnoughSpace(total - 2) {
      return false;
    }
    var count := if hasLeft && hasRight then 3 else if hasLeft || hasRight then 2 else 1;
    Knit(m, p, buf[..total], count, k, r);
    PiecePlace(cs, k, r);
    if change == Set {
      PiecesSafe(cs, k, r, idx, hasLeft, pivot);
      if NoneJoin(cs, |cs|) {
        PiecesJoin(cs, k, r, idx, hasLeft, hasRight, pivot);
      }
    }
    if change == Clear && NoneJoin(cs, |cs|) {
      SeamOnly(cs, k, idx, left, hasLeft, pivot, right, hasRight);
    }
    return true;
  }

  lemma TargetFacts(cs: seq<Chunk>, k: nat)
    requires WfStream(cs) && k < |cs| && IsRle(cs[k].desc)
    ensures var c := cs[k];
      && Aligned(c.start) && Aligned(RleCap(c.desc)) && c.start + RleCap(c.desc) <= TOP && c.vecs == []
      && 1 <= RleLen(c.desc) <= RleCap(c.desc) <= RLE_LIMIT
  {
  }

  lemma AlreadySet(cs: seq<Chunk>, k: nat, idx: nat)
    requires WfStream(cs) && k < |cs| && IsRle(cs[k].desc)
    requires cs[k].start <= idx < cs[k].start + RleLen(cs[k].desc)
    ensures Members(cs) == Changed(Members(cs), idx, Set)
    ensures NeighbourSafe(cs, k, idx, true)
  {
    assert ChunkHas(cs[k], idx);
    assert idx in Members(cs);
    assert WfChunk(cs[k]);
  }

  lemma PiecePlace(cs: seq<Chunk>, k: nat, r: seq<Chunk>)
    requires k < |cs| && r != []
    ensures var cs' := cs[..k] + r + cs[k + 1..];
      && k < |cs'| && Off(cs', k) == Off(cs, k) && cs'[k] == r[0]
      && |cs'| == |cs| - 1 + |r|
      && (|r| > 1 ==> cs'[k + 1] == r[1])
      && (|r| == 1 && k + 1 < |cs'| ==> cs'[k + 1] == cs[k + 1])
  {
    var cs' := cs[..k] + r + cs[k + 1..];
    assert cs'[..k] == cs[..k];
  }

  /** After a bit is added past the run, the chunk after the first piece may be coalesced with it safely. */
  lemma PiecesSafe(cs: seq<Chunk>, k: nat, r: seq<Chunk>, idx: nat, hasLeft: bool, pivot: Chunk)
    requires WfStream(cs) && k < |cs| && IsRle(cs[k].desc) && r != []
    requires ChangeOk(cs[k].start, cs[k].start + RleLen(cs[k].desc), RleCap(cs[k].desc), idx, Set)
    requires IsPivot(pivot, Floor(idx), cs[k].start + RleLen(cs[k].desc), idx, Set)
    requires |r| > 1 ==> r[1] == (if hasLeft then pivot else r[1]) && (!hasLeft ==> r[1].start > idx)
    ensures NeighbourSafe(cs[..k] + r + cs[k + 1..], k, idx, true)
  {
    hide IsPivot, WfRle, WfSparse, IsRunLength, Aligned;
    TargetFacts(cs, k);
    var c := cs[k];
    WindowInTarget(c.start, c.start + RleLen(c.desc), RleCap(c.desc), idx, Set);
    AlignedConstants();
    FloorTop(idx);
    PiecePlace(cs, k, r);
    BitBeyondNoRun(pivot, Floor(idx), c.start + RleLen(c.desc), idx);
  }

  /** A bit added past the run leaves one piece or a left one and the pivot, which is not mergeable with what follows. */
  lemma PiecesJoin(cs: seq<Chunk>, k: nat, r: seq<Chunk>, idx: nat, hasLeft: bool, hasRight: bool, pivot: Chunk)
    requires WfStream(cs) && k < |cs| && IsRle(cs[k].desc) && NoneJoin(cs, |cs|)
    requires ChangeOk(cs[k].start, cs[k].start + RleLen(cs[k].desc), RleCap(cs[k].desc), idx, Set)
    requires IsPivot(pivot, Floor(idx), cs[k].start + RleLen(cs[k].desc), idx, Set)
    requires hasRight <==> Floor(idx) + WINDOW < cs[k].start + RleLen(cs[k].desc)
    requires |r| == 1 + (if hasLeft then 1 else 0) + (if hasRight then 1 else 0) && (hasLeft ==> r[1] == pivot)
    ensures JoinsOnlyAt(cs[..k] + r + cs[k + 1..], k)
  {
    hide IsPivot, WfRle, WfSparse, IsRunLength, Aligned, Joinable, NoneJoin;
    TargetFacts(cs, k);
    var c, now := cs[k], cs[..k] + r + cs[k + 1..];
    WindowInTarget(c.start, c.start + RleLen(c.desc), RleCap(c.desc), idx, Set);
    AlignedConstants();
    FloorTop(idx);
    BitBeyondNoRun(pivot, Floor(idx), c.start + RleLen(c.desc), idx);
    assert !hasRight;
    forall j: nat | Joinable(now, j) ensures j == k || j + 1 == k {
      JoinedPair(now, j);
      if j + 1 < k {
        SamePair(cs, j, now, j);
        NotJoined(cs, j);
      } else if j > k && !(hasLeft && j == k + 1) {
        var d := |r| - 1;
        SamePair(cs, j - d, now, j);
        NotJoined(cs, j - d);
      } else if j > k {
        assert now[j] == pivot;
        NoRunNoJoin(now, j);
      }
    }
  }

  /**
   * Clearing idx leaves a seam: idx is the last index of its window, so the window's other indices
   * are a run that the piece before it, when there is one, could be merged with.
   */
  predicate Seam(start: nat, idx: nat) {
    idx + 1 == Floor(idx) + WINDOW && Floor(idx) > start
  }

  /** The run of a side ends where the side does. */
  lemma SideReaches(c: Chunk, lo: nat, hi: nat, cap: int, e: nat)
    requires IsSide(c, lo, hi, cap) && lo < hi
    ensures RunReaches(c, e) ==> e == hi
    ensures hi >= lo + WINDOW ==> RunReaches(c, hi)
  {
    hide WfRle, WfSparse, Full;
    assert ChunkHas(c, hi - 1) && !ChunkHas(c, hi);
    if RunReaches(c, e) {
      PrefixOf(c, e - c.start);
    }
    if hi >= lo + WINDOW {
      if IsRle(c.desc) {
        PrefixOf(c, RleLen(c.desc));
      } else {
        assert PrefixRun(c, hi - lo);
      }
    }
  }

  lemma PrefixOf(c: Chunk, n: nat)
    requires IsRunLength(c, n) && n > 0
    ensures ChunkHas(c, c.start + n - 1) && !ChunkHas(c, c.start + n)
    ensures forall x: nat :: ChunkHas(c, x) <==> Between(c.start, x, c.start + n)
  {
    assert IsRle(c.desc) || PrefixRun(c, n);
  }

  /** A cleared pivot begins with a run exactly when the cleared index is the last of its window, and that run ends there. */
  lemma ClearedRun(c: Chunk, f: nat, e: nat, idx: nat, x: nat)
    requires IsPivot(c, f, e, idx, Clear) && Aligned(f) && f + WINDOW <= TOP && f <= idx < f + WINDOW && idx + 1 < e
    ensures !IsRunLength(c, 0) <==> idx + 1 == f + WINDOW
    ensures RunReaches(c, x) ==> x == idx
  {
    hide IsPivot, WfChunk, Full, Aligned, ChunkHas;
    PivotChunk(c, f, e, idx, Clear);
    if idx + 1 == f + WINDOW {
      assert PrefixRun(c, WINDOW - 1);
      assert WINDOW - 1 >= 64;
    } else {
      assert ChunkHas(c, idx + 1) && !ChunkHas(c, idx);
      forall n: nat | n >= 64 ensures !PrefixRun(c, n) {
        assert Between(f, idx + 1, f + n) ==> Between(f, idx, f + n) || idx < f;
      }
    }
    if RunReaches(c, x) {
      PrefixOf(c, x - c.start);
    }
  }

  /** Whether the pieces of a cleared run can be merged with each other or with what surrounds them. */
  lemma SeamOnly(cs: seq<Chunk>, k: nat, idx: nat, left: Chunk, hasLeft: bool, pivot: Chunk, right: Chunk, hasRight: bool)
    requires WfStream(cs) && k < |cs| && IsRle(cs[k].desc) && NoneJoin(cs, |cs|)
    requires ChangeOk(cs[k].start, cs[k].start + RleLen(cs[k].desc), RleCap(cs[k].desc), idx, Clear)
    requires Parts(cs[k].start, cs[k].start + RleLen(cs[k].desc), RleCap(cs[k].desc), idx, Clear, left, hasLeft, pivot, right, hasRight)
    ensures var now := cs[..k] + Pieces(left, hasLeft, pivot, right, hasRight) + cs[k + 1..];
      NoneJoin(now, |now|) <==> !Seam(cs[k].start, idx)
  {
    hide IsPivot, IsSide, WfRle, WfSparse, IsRunLength, Aligned, Joinable, NoneJoin, Pieces;
    var r := Pieces(left, hasLeft, pivot, right, hasRight);
    var now := cs[..k] + r + cs[k + 1..];
    forall j: nat ensures Joinable(now, j) <==> j == k && Seam(cs[k].start, idx) {
      SeamAt(cs, k, idx, left, hasLeft, pivot, right, hasRight, j);
    }
    if Seam(cs[k].start, idx) {
      JoinFound(now, k);
    } else {
      JoinsNone(now);
    }
  }

  lemma JoinFound(cs: seq<Chunk>, k: nat)
    requires Joinable(cs, k)
    ensures !NoneJoin(cs, |cs|)
  {
  }

  lemma JoinsNone(cs: seq<Chunk>)
    requires forall j: nat :: !Joinable(cs, j)
    ensures NoneJoin(cs, |cs|)
  {
  }

  lemma SeamAt(cs: seq<Chunk>, k: nat, idx: nat, left: Chunk, hasLeft: bool, pivot: Chunk, right: Chunk, hasRight: bool, j: nat)
    requires WfStream(cs) && k < |cs| && IsRle(cs[k].desc) && NoneJoin(cs, |cs|)
    requires ChangeOk(cs[k].start, cs[k].start + RleLen(cs[k].desc), RleCap(cs[k].desc), idx, Clear)
    requires Parts(cs[k].start, cs[k].start + RleLen(cs[k].desc), RleCap(cs[k].desc), idx, Clear, left, hasLeft, pivot, right, hasRight)
    ensures var now := cs[..k] + Pieces(left, hasLeft, pivot, right, hasRight) + cs[k + 1..];
      Joinable(now, j) <==> j == k && Seam(cs[k].start, idx)
  {
    hide IsPivot, IsSide, WfRle, WfSparse, IsRunLength, Aligned, Joinable, NoneJoin, RunReaches, WfChunk;
    var r := Pieces(left, hasLeft, pivot, right, hasRight);
    var now, n, c := cs[..k] + r + cs[k + 1..], |r|, cs[k];
    var e, f := c.start + RleLen(c.desc), Floor(idx);
    TargetFacts(cs, k);
    PiecesWf(c.start, e, RleCap(c.desc), idx, Clear, left, hasLeft, pivot, right, hasRight);
    PiecePlace(cs, k, r);
    WholeRunOf(cs, k);
    JoinedPair(now, j);
    if j + 1 < k {
      SamePair(cs, j, now, j);
      NotJoined(cs, j);
    } else if j + 1 == k {
      JoinedPair(cs, j);
      NotJoined(cs, j);
    } else if j >= k + n {
      AfterPieces(cs, k, r, j);
      NotJoined(cs, j - n + 1);
    } else if j < |now| {
      InPieces(cs, k, r, j);
      PieceJoins(cs, k, idx, left, hasLeft, pivot, right, hasRight, now, j);
    }
  }

  /** The run-length chunk reaches its end, and begins with a run. */
  lemma WholeRunOf(cs: seq<Chunk>, k: nat)
    requires WfStream(cs) && k < |cs| && IsRle(cs[k].desc)
    ensures RunReaches(cs[k], cs[k].start + RleLen(cs[k].desc)) && !IsRunLength(cs[k], 0)
  {
    TargetFacts(cs, k);
  }

  lemma AfterPieces(cs: seq<Chunk>, k: nat, r: seq<Chunk>, j: nat)
    requires k < |cs| && r != [] && j >= k + |r|
    ensures var now := cs[..k] + r + cs[k + 1..]; Joinable(now, j) <==> Joinable(cs, j - |r| + 1)
  {
    hide IsRunLength;
    var now := cs[..k] + r + cs[k + 1..];
    if j + 1 < |now| {
      SamePair(now, j, cs, j - |r| + 1);
    }
  }

  lemma InPieces(cs: seq<Chunk>, k: nat, r: seq<Chunk>, j: nat)
    requires k < |cs| && k <= j < k + |r|
    ensures var now := cs[..k] + r + cs[k + 1..];
      && now[j] == r[j - k] && (j + 1 < k + |r| ==> now[j + 1] == r[j + 1 - k])
      && (j + 1 == k + |r| && j + 1 < |now| ==> k + 1 < |cs| && now[j + 1] == cs[k + 1])
  {
  }

  /** A piece is mergeable with what follows it only at the seam. */
  lemma PieceJoins(cs: seq<Chunk>, k: nat, idx: nat, left: Chunk, hasLeft: bool, pivot: Chunk, right: Chunk, hasRight: bool, now: seq<Chunk>, j: nat)
    requires WfStream(cs) && k < |cs| && IsRle(cs[k].desc) && NoneJoin(cs, |cs|)
    requires ChangeOk(cs[k].start, cs[k].start + RleLen(cs[k].desc), RleCap(cs[k].desc), idx, Clear)
    requires Parts(cs[k].start, cs[k].start + RleLen(cs[k].desc), RleCap(cs[k].desc), idx, Clear, left, hasLeft, pivot, right, hasRight)
    requires var r := Pieces(left, hasLeft, pivot, right, hasRight);
      && now == cs[..k] + r + cs[k + 1..] && k <= j < k + |r|
      && now[j] == r[j - k] && (j + 1 < k + |r| ==> now[j + 1] == r[j + 1 - k])
      && (j + 1 == k + |r| && j + 1 < |now| ==> k + 1 < |cs| && now[j + 1] == cs[k + 1])
    ensures Joinable(now, j) <==> j == k && Seam(cs[k].start, idx)
  {
    hide IsPivot, IsSide, WfRle, WfSparse, IsRunLength, Aligned, Joinable, NoneJoin, RunReaches, WfChunk;
    var c := cs[k];
    var e, f := c.start + RleLen(c.desc), Floor(idx);
    TargetFacts(cs, k);
    WindowInTarget(c.start, e, RleCap(c.desc), idx, Clear);
    AlignedConstants();
    AlignedFloor(idx);
    FloorTop(idx);
    JoinedPair(now, j);
    var next := if j + 1 < |now| then now[j + 1].start else 0;
    ClearedRun(pivot, f, e, idx, next);
    NextStartsAfter(cs, k);
    PivotBegins(pivot, f, e, idx);
    if hasLeft && j == k {
      LeftLong(c.start, f);
      SideReaches(left, c.start, f, f - c.start, f);
    } else if hasRight && j + 1 == k + |Pieces(left, hasLeft, pivot, right, hasRight)| {
      SideReaches(right, f + WINDOW, e, c.start + RleCap(c.desc) - (f + WINDOW), next);
      LastPair(cs, k, e);
    } else {
      SideStart(right, f + WINDOW, e, c.start + RleCap(c.desc) - (f + WINDOW), hasRight);
    }
  }

  lemma LeftLong(start: nat, f: nat)
    requires Aligned(start) && Aligned(f) && start < f
    ensures start + WINDOW <= f
  {
    AlignedStep(start, f);
  }

  lemma PivotBegins(c: Chunk, f: nat, e: nat, idx: nat)
    requires IsPivot(c, f, e, idx, Clear)
    ensures c.start == f
  {
  }

  lemma NextStartsAfter(cs: seq<Chunk>, k: nat)
    requires WfStream(cs) && k < |cs| && IsRle(cs[k].desc)
    ensures k + 1 < |cs| ==> cs[k].start + RleCap(cs[k].desc) <= cs[k + 1].start
  {
  }

  lemma LastPair(cs: seq<Chunk>, k: nat, e: nat)
    requires WfStream(cs) && k < |cs| && IsRle(cs[k].desc) && e == cs[k].start + RleLen(cs[k].desc) && NoneJoin(cs, |cs|)
    ensures k + 1 < |cs| && cs[k + 1].start == e ==> IsRunLength(cs[k + 1], 0)
  {
    hide IsRunLength, NoneJoin, Joinable, RunReaches;
    WholeRunOf(cs, k);
    NotJoined(cs, k);
    JoinedPair(cs, k);
  }

  lemma PlacedPivot(b: seq<Word>, start: nat, e: nat, idx: nat, change: Change, pivot: Chunk, psize: nat)
    requires Placed(b, start, e, idx, change, pivot, psize)
    ensures IsPivot(pivot, Floor(idx), e, idx, change)
  {
  }
}
