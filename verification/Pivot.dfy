// The pivot of a separation: the one window of a run that must become sparse,
// built in place in a nine-word scratch buffer.
module Pivot {
  import opened Words
  import opened Chunks
  import opened Streams
  import opened Edits

  const SCRATCH: nat := 9

  /** Membership of x after the change, where the run ends at e. */
  predicate After(x: nat, e: nat, idx: nat, change: Change) {
    match change
    case Clear => x < e && x != idx
    case Set => x < e || x == idx
    case Keep => x < e
  }

  /** The scratch words hold a chunk at position p. */
  ghost predicate HoldsChunk(b: seq<Word>, p: nat, c: Chunk) {
    && |b| == SCRATCH
    && p + |Enc(c)| <= SCRATCH
    && b[p..p + |Enc(c)|] == Enc(c)
  }

  ghost predicate ClearFrom(b: seq<Word>, q: nat) {
    forall i :: q <= i < |b| ==> b[i] == ZERO
  }

  /** The chunk of the pivot window: well formed, with exactly the changed bits. */
  ghost predicate IsPivot(c: Chunk, start: nat, e: nat, idx: nat, change: Change) {
    && WfSparse(c) && Full(c) && c.start == start
    && forall v, k :: 0 <= v < SLOTS && 0 <= k < 64 ==> SlotWord(c, v)[k] == After(start + 64 * v + k, e, idx, change)
  }

  /** Only slots a and b (which may coincide) are Mixed. */
  lemma MixedTwo(d: Word, a: nat, b: nat, u: nat)
    requires a <= b < SLOTS && u <= SLOTS
    requires forall v :: 0 <= v < SLOTS ==> (FlagAt(d, v).Mixed? <==> v == a || v == b)
    ensures MixedIn(d, 0, u) == (if a < u then 1 else 0) + (if a < b && b < u then 1 else 0)
  {
    if u > 0 {
      MixedTwo(d, a, b, u - 1);
    }
  }

  lemma MixedNone(d: Word, u: nat)
    requires u <= SLOTS
    requires forall v :: 0 <= v < SLOTS ==> !FlagAt(d, v).Mixed?
    ensures MixedIn(d, 0, u) == 0
  {
    if u > 0 {
      MixedNone(d, u - 1);
    }
  }

  /** A descriptor without Mixed slots, all ones below `ones`. */
  lemma PivotPlain(start: nat, d: Word, ones: nat, e: nat, idx: nat, change: Change)
    requires 1 <= ones <= SLOTS
    requires forall v :: 0 <= v < SLOTS ==> FlagAt(d, v) == if v < ones then Ones else Zeros
    requires forall x: nat | start <= x < start + WINDOW :: After(x, e, idx, change) <==> x < start + 64 * ones
    ensures IsPivot(Chunk(start, d, []), start, e, idx, change)
  {
    var c := Chunk(start, d, []);
    MixedNone(d, SLOTS);
    NoUnused(d, SLOTS);
    assert FlagAt(d, 31) != Unused;
    assert Carries(FlagAt(d, 0));
    forall v, k | 0 <= v < SLOTS && 0 <= k < 64
      ensures SlotWord(c, v)[k] == After(start + 64 * v + k, e, idx, change)
    {
      var x := start + 64 * v + k;
      assert start <= x < start + WINDOW;
    }
  }

  /** A descriptor with one or two Mixed slots whose payloads are wa and wb. */
  lemma PivotMixed(start: nat, d: Word, a: nat, b: nat, wa: Word, wb: Word, ones: nat, e: nat, idx: nat, change: Change)
    requires a <= b < SLOTS && ones <= SLOTS
    requires forall v :: 0 <= v < SLOTS ==>
      FlagAt(d, v) == if v == a || v == b then Mixed else if v < ones then Ones else Zeros
    requires wa != ZERO && wa != ONES && wb != ZERO && wb != ONES && (a == b ==> wa == wb)
    requires forall k | 0 <= k < 64 :: wa[k] == After(start + 64 * a + k, e, idx, change)
    requires forall k | 0 <= k < 64 :: wb[k] == After(start + 64 * b + k, e, idx, change)
    requires forall x: nat | start <= x < start + WINDOW && !InSlot(x, start, a) && !InSlot(x, start, b) ::
      After(x, e, idx, change) <==> x < start + 64 * ones
    ensures IsPivot(Chunk(start, d, if a == b then [wa] else [wa, wb]), start, e, idx, change)
  {
    var c := Chunk(start, d, if a == b then [wa] else [wa, wb]);
    MixedTwo(d, a, b, SLOTS);
    MixedTwo(d, a, b, a);
    MixedTwo(d, a, b, b);
    NoUnused(d, SLOTS);
    assert FlagAt(d, 31) != Unused;
    assert Carries(FlagAt(d, a));
    assert SlotWord(c, a) == wa && SlotWord(c, b) == wb;
    forall v, k | 0 <= v < SLOTS && 0 <= k < 64
      ensures SlotWord(c, v)[k] == After(start + 64 * v + k, e, idx, change)
    {
      var x := start + 64 * v + k;
      if v != a && v != b {
        assert !InSlot(x, start, a) && !InSlot(x, start, b);
      }
    }
  }

  predicate InSlot(x: nat, start: nat, v: nat) {
    start + 64 * v <= x < start + 64 * v + 64
  }

  /** The bit of idx within the window at start, and its slot. */
  lemma SlotOf(idx: nat, start: nat)
    requires start <= idx < start + WINDOW
    ensures (idx - start) / 64 < SLOTS && InSlot(idx, start, (idx - start) / 64)
    ensures idx == start + 64 * ((idx - start) / 64) + (idx - start) % 64
  {
  }

  /** Begins the pivot at the front of the scratch buffer: all ones, less the bit to clear. */
  method StartPivot(buf: array<Word>, start: nat, idx: nat, change: Change) returns (size: nat)
    requires buf.Length == SCRATCH && start <= idx < start + WINDOW
    modifies buf
    ensures buf[0] == U64(start) && forall i :: 3 <= i < SCRATCH ==> buf[i] == ZERO
    ensures size == if change == Keep then 2 else 3
    ensures change == Clear ==>
      buf[1] == SetFlag(ONES, (idx - start) / 64, Mixed) && buf[2] == ClearBit(ONES, (idx - start) % 64)
    ensures change != Clear ==> buf[1] == ONES && buf[2] == ZERO
  {
    forall i | 0 <= i < SCRATCH {
      buf[i] := ZERO;
    }
    buf[0] := U64(start);
    buf[1] := ONES;
    if change == Clear {
      var vec, bit := (idx - start) / 64, (idx - start) % 64;
      buf[1] := SetFlag(buf[1], vec, Mixed);
      buf[2] := ClearBit(ONES, bit);
      size := 3;
    } else if change == Set {
      size := 3;
    } else {
      size := 2;
    }
  }

  lemma OnesFlags()
    ensures forall v :: 0 <= v < SLOTS ==> FlagAt(ONES, v) == Ones
    ensures forall v :: 0 <= v < SLOTS ==> FlagAt(ZERO, v) == Zeros
  {
  }

  /** Inside the run the started pivot is already complete. */
  lemma StartedPivot(b: seq<Word>, start: nat, e: nat, idx: nat, change: Change) returns (c: Chunk)
    requires |b| == SCRATCH && start <= idx < start + WINDOW <= e && change != Set
    requires b[0] == U64(start)
    requires change == Clear ==>
      b[1] == SetFlag(ONES, (idx - start) / 64, Mixed) && b[2] == ClearBit(ONES, (idx - start) % 64)
    requires change == Keep ==> b[1] == ONES
    ensures IsPivot(c, start, e, idx, change) && HoldsChunk(b, 0, c)
    ensures |Enc(c)| == if change == Keep then 2 else 3
  {
    hide FlagAt, IsPivot;
    OnesFlags();
    if change == Clear {
      StartedClear(b[1], b[2], start, e, idx);
      c := Chunk(start, b[1], [b[2]]);
      assert b[0..3] == Enc(c);
    } else {
      PivotPlain(start, b[1], SLOTS, e, idx, change);
      c := Chunk(start, b[1], []);
      assert b[0..2] == Enc(c);
    }
  }

  lemma StartedClear(d: Word, w: Word, start: nat, e: nat, idx: nat)
    requires start <= idx < start + WINDOW <= e
    requires d == SetFlag(ONES, (idx - start) / 64, Mixed) && w == ClearBit(ONES, (idx - start) % 64)
    ensures IsPivot(Chunk(start, d, [w]), start, e, idx, Clear)
  {
    hide FlagAt, IsPivot;
    OnesFlags();
    SlotOf(idx, start);
    var vec, bit := (idx - start) / 64, (idx - start) % 64;
    ClearedWord(start, e, idx, vec, bit);
    PivotMixed(start, d, vec, vec, w, w, SLOTS, e, idx, Clear);
  }

  /** The all-ones word less one bit, as the slot of a run that covers it. */
  lemma ClearedWord(start: nat, e: nat, idx: nat, vec: nat, bit: nat)
    requires bit < 64 && idx == start + 64 * vec + bit && start + 64 * vec + 64 <= e
    ensures var w := ClearBit(ONES, bit);
      w != ZERO && w != ONES && forall k | 0 <= k < 64 :: w[k] == After(start + 64 * vec + k, e, idx, Clear)
  {
    var w := ClearBit(ONES, bit);
    assert !w[bit] && ONES[bit];
    assert w[(bit + 1) % 64] && !ZERO[(bit + 1) % 64];
  }

  /** The flags left when the slots past the run's end are cleared. */
  lemma ShortFlags(d: Word, d': Word, over: nat, firstZero: nat)
    requires 0 < over < WINDOW && firstZero == WINDOW - over
    requires d' == if over >= 64 then And(d, Shr(ONES, over / 64 * 2)) else d
    ensures forall v :: 0 <= v < SLOTS ==> FlagAt(d', v) == if 64 * v < firstZero then FlagAt(d, v) else Zeros
  {
    var k := over / 64;
    if over >= 64 {
      var m := Shr(ONES, k * 2);
      forall v | 0 <= v < SLOTS ensures FlagAt(d', v) == if v < SLOTS - k then FlagAt(d, v) else Zeros {
        assert m[2 * v] == (2 * v + 2 * k < 64) && m[2 * v + 1] == (2 * v + 1 + 2 * k < 64);
      }
    }
  }

  /** The flags of a pivot cut at the run's end: Mixed at a and b, Ones below `ones`. */
  ghost predicate CutFlags(d: Word, a: nat, b: nat, ones: nat) {
    forall v :: 0 <= v < SLOTS ==> FlagAt(d, v) == if v == a || v == b then Mixed else if v < ones then Ones else Zeros
  }

  /** The run's last word: its low r bits. */
  lemma TailWord(start: nat, e: nat, bv: nat, r: nat, idx: nat)
    requires 0 < r < 64 && e == start + 64 * bv + r
    ensures var w := LowMask(r);
      w != ZERO && w != ONES && forall k | 0 <= k < 64 :: w[k] == After(start + 64 * bv + k, e, idx, Keep)
  {
    assert LowMask(r)[0] && !ZERO[0];
    assert !LowMask(r)[r] && ONES[r];
  }

  lemma CutKeep(start: nat, d: Word, e: nat, idx: nat, bv: nat, r: nat)
    requires 0 < r < 64 && bv < SLOTS && e == start + 64 * bv + r
    requires CutFlags(d, bv, bv, bv)
    ensures IsPivot(Chunk(start, d, [LowMask(r)]), start, e, idx, Keep)
  {
    TailWord(start, e, bv, r, idx);
    PivotMixed(start, d, bv, bv, LowMask(r), LowMask(r), bv, e, idx, Keep);
  }

  lemma CutClearSame(start: nat, d: Word, e: nat, idx: nat, bv: nat, r: nat, bit: nat)
    requires 0 < r < 64 && bv < SLOTS && e == start + 64 * bv + r
    requires idx == start + 64 * bv + bit && bit + 1 < r
    requires CutFlags(d, bv, bv, bv)
    ensures IsPivot(Chunk(start, d, [And(ClearBit(ONES, bit), LowMask(r))]), start, e, idx, Clear)
  {
    var w := And(ClearBit(ONES, bit), LowMask(r));
    assert w[bit + 1] && !ZERO[bit + 1];
    assert !w[bit] && ONES[bit];
    PivotMixed(start, d, bv, bv, w, w, bv, e, idx, Clear);
  }

  lemma CutClearTwo(start: nat, d: Word, e: nat, idx: nat, vec: nat, bit: nat, bv: nat, r: nat)
    requires 0 < r < 64 && vec < bv < SLOTS && e == start + 64 * bv + r
    requires idx == start + 64 * vec + bit && bit < 64
    requires CutFlags(d, vec, bv, bv)
    ensures IsPivot(Chunk(start, d, [ClearBit(ONES, bit), LowMask(r)]), start, e, idx, Clear)
  {
    TailWord(start, e, bv, r, idx);
    ClearedWord(start, e, idx, vec, bit);
    PivotMixed(start, d, vec, bv, ClearBit(ONES, bit), LowMask(r), bv, e, idx, Clear);
  }

  lemma CutClearWhole(start: nat, d: Word, e: nat, idx: nat, vec: nat, bit: nat, bv: nat)
    requires vec < bv <= SLOTS && e == start + 64 * bv
    requires idx == start + 64 * vec + bit && bit < 64
    requires CutFlags(d, vec, vec, bv)
    ensures IsPivot(Chunk(start, d, [ClearBit(ONES, bit)]), start, e, idx, Clear)
  {
    ClearedWord(start, e, idx, vec, bit);
    PivotMixed(start, d, vec, vec, ClearBit(ONES, bit), ClearBit(ONES, bit), bv, e, idx, Clear);
  }

  lemma CutKeepWhole(start: nat, d: Word, e: nat, idx: nat, bv: nat)
    requires 1 <= bv <= SLOTS && e == start + 64 * bv
    requires CutFlags(d, SLOTS, SLOTS, bv)
    ensures IsPivot(Chunk(start, d, []), start, e, idx, Keep)
  {
    PivotPlain(start, d, bv, e, idx, Keep);
  }

  lemma StartFlags(d: Word, start: nat, idx: nat, change: Change)
    requires start <= idx < start + WINDOW
    requires change == Clear ==> d == SetFlag(ONES, (idx - start) / 64, Mixed)
    requires change != Clear ==> d == ONES
    ensures forall v :: 0 <= v < SLOTS ==> FlagAt(d, v) == if change == Clear && v == (idx - start) / 64 then Mixed else Ones
  {
    hide FlagAt;
    OnesFlags();
  }

  /** Cuts the started pivot at the run's end, which lies in its window. */
  method ShortenPivot(buf: array<Word>, start: nat, e: nat, idx: nat, change: Change, size0: nat) returns (size: nat, ghost c: Chunk)
    requires buf.Length == SCRATCH && start < e <= start + WINDOW && start <= idx < start + WINDOW
    requires change == Clear ==> idx + 1 < e
    requires change == Keep ==> idx < e
    requires change == Set ==> e < idx
    requires buf[0] == U64(start) && forall i :: 3 <= i < SCRATCH ==> buf[i] == ZERO
    requires size0 == if change == Keep then 2 else 3
    requires change == Clear ==>
      buf[1] == SetFlag(ONES, (idx - start) / 64, Mixed) && buf[2] == ClearBit(ONES, (idx - start) % 64)
    requires change != Clear ==> buf[1] == ONES && buf[2] == ZERO
    modifies buf
    ensures IsPivot(c, start, e, idx, if change == Set then Keep else change)
    ensures HoldsChunk(buf[..], 0, c) && ClearFrom(buf[..], |Enc(c)|)
    ensures if change == Set then |Enc(c)| <= size == 3 else size == |Enc(c)| <= 4
  {
    hide FlagAt, IsPivot, CutFlags;
    size := size0;
    var over := start + WINDOW - e;
    var vec, bit := (idx - start) / 64, (idx - start) % 64;
    SlotOf(idx, start);
    ghost var d0 := buf[1];
    StartFlags(d0, start, idx, change);
    if over == 0 {
      c := StartedPivot(buf[..], start, e, idx, change);
      return;
    }
    var firstZero := WINDOW - over;
    var bv := firstZero / 64;
    if over >= 64 {
      buf[1] := And(buf[1], Shr(ONES, over / 64 * 2));
    }
    ShortFlags(d0, buf[1], over, firstZero);
    if over % 64 != 0 {
      size, c := CutTail(buf, start, e, idx, change, size, vec, bit, bv, firstZero % 64);
    } else {
      c := CutAtWord(buf[..], start, e, idx, change, vec, bit, bv);
    }
  }

  /** The run ends on a word boundary: the started payload, if any, stays. */
  lemma CutAtWord(b: seq<Word>, start: nat, e: nat, idx: nat, change: Change, vec: nat, bit: nat, bv: nat) returns (c: Chunk)
    requires |b| == SCRATCH && b[0] == U64(start) && forall i :: 3 <= i < SCRATCH ==> b[i] == ZERO
    requires 1 <= bv < SLOTS && e == start + 64 * bv
    requires idx == start + 64 * vec + bit && bit < 64 && vec < SLOTS
    requires change == Clear ==> vec < bv && b[2] == ClearBit(ONES, bit)
    requires change != Clear ==> b[2] == ZERO
    requires forall v :: 0 <= v < SLOTS ==>
      FlagAt(b[1], v) == if v < bv then (if change == Clear && v == vec then Mixed else Ones) else Zeros
    ensures IsPivot(c, start, e, idx, if change == Set then Keep else change)
    ensures HoldsChunk(b, 0, c) && ClearFrom(b, |Enc(c)|)
    ensures |Enc(c)| == if change == Clear then 3 else 2
  {
    hide FlagAt, IsPivot;
    if change == Clear {
      c := Chunk(start, b[1], [b[2]]);
      CutClearWhole(start, b[1], e, idx, vec, bit, bv);
      assert b[0..3] == Enc(c);
    } else {
      c := Chunk(start, b[1], []);
      CutKeepWhole(start, b[1], e, idx, bv);
      assert b[0..2] == Enc(c);
    }
  }

  /** The run ends inside word bv: that slot becomes Mixed, with its own payload word unless the cleared bit shares it. */
  method CutTail(buf: array<Word>, start: nat, e: nat, idx: nat, change: Change, size0: nat, vec: nat, bit: nat, bv: nat, r: nat) returns (size: nat, ghost c: Chunk)
    requires buf.Length == SCRATCH && buf[0] == U64(start) && forall i :: 3 <= i < SCRATCH ==> buf[i] == ZERO
    requires 0 < r < 64 && bv < SLOTS && e == start + 64 * bv + r
    requires idx == start + 64 * vec + bit && bit < 64 && vec < SLOTS
    requires change == Clear ==> idx + 1 < e && buf[2] == ClearBit(ONES, bit)
    requires size0 == if change == Keep then 2 else 3
    requires forall v :: 0 <= v < SLOTS ==>
      FlagAt(buf[1], v) == if v < bv + 1 then (if change == Clear && v == vec then Mixed else Ones) else Zeros
    modifies buf
    ensures IsPivot(c, start, e, idx, if change == Set then Keep else change)
    ensures HoldsChunk(buf[..], 0, c) && ClearFrom(buf[..], |Enc(c)|)
    ensures if change == Set then |Enc(c)| <= size == 3 else size == |Enc(c)| <= 4
  {
    hide FlagAt, IsPivot;
    size := size0;
    var tail := LowMask(r);
    buf[1] := SetFlag(buf[1], bv, Mixed);
    if change == Clear && bv == vec {
      buf[2] := And(buf[2], tail);
      CutClearSame(start, buf[1], e, idx, bv, r, bit);
      c := Chunk(start, buf[1], [buf[2]]);
      assert buf[..][0..3] == Enc(c);
    } else if change == Clear {
      buf[3] := tail;
      size := size + 1;
      CutClearTwo(start, buf[1], e, idx, vec, bit, bv, r);
      c := Chunk(start, buf[1], [buf[2], buf[3]]);
      assert buf[..][0..4] == Enc(c);
    } else {
      buf[2] := tail;
      if change == Keep {
        size := size + 1;
      }
      CutKeep(start, buf[1], e, idx, bv, r);
      c := Chunk(start, buf[1], [buf[2]]);
      assert buf[..][0..3] == Enc(c);
    }
  }

  /** Moves the pivot up by three words, to leave room for a left chunk. */
  method MovePivot(buf: array<Word>, size: nat, ghost c: Chunk)
    requires buf.Length == SCRATCH && |Enc(c)| <= size <= 4
    requires HoldsChunk(buf[..], 0, c) && ClearFrom(buf[..], |Enc(c)|)
    modifies buf
    ensures HoldsChunk(buf[..], 3, c) && ClearFrom(buf[..], 3 + |Enc(c)|)
    ensures forall i :: 0 <= i < 3 ==> buf[i] == ZERO
  {
    ghost var was := buf[..];
    forall i | 0 <= i < size {
      buf[3 + i] := buf[i];
    }
    forall i | 0 <= i < 3 {
      buf[i] := ZERO;
    }
    var n := |Enc(c)|;
    assert buf[..][3..3 + n] == was[0..n];
  }

  /** What a pivot that only keeps the run's bits looks like. */
  lemma KeepShape(c: Chunk, start: nat, e: nat, idx: nat)
    requires IsPivot(c, start, e, idx, Keep) && start < e < start + WINDOW
    ensures var bv, r := (e - start) / 64, (e - start) % 64;
      if r > 0 then CutFlags(c.desc, bv, bv, bv) && c.vecs == [LowMask(r)]
      else CutFlags(c.desc, SLOTS, SLOTS, bv) && c.vecs == []
  {
    var bv, r := (e - start) / 64, (e - start) % 64;
    assert e == start + 64 * bv + r;
    forall v | 0 <= v < SLOTS
      ensures FlagAt(c.desc, v) == if v == bv && r > 0 then Mixed else if v < bv then Ones else Zeros
      ensures v == bv && r > 0 ==> SlotWord(c, v) == LowMask(r)
    {
      KeepSlot(c, start, e, idx, v);
    }
    if r > 0 {
      MixedTwo(c.desc, bv, bv, SLOTS);
      MixedTwo(c.desc, bv, bv, bv);
      assert SlotWord(c, bv) == c.vecs[0];
    } else {
      MixedNone(c.desc, SLOTS);
    }
  }

  lemma KeepSlot(c: Chunk, start: nat, e: nat, idx: nat, v: nat)
    requires IsPivot(c, start, e, idx, Keep) && start < e < start + WINDOW && v < SLOTS
    ensures var bv, r := (e - start) / 64, (e - start) % 64;
      && FlagAt(c.desc, v) == (if v == bv && r > 0 then Mixed else if v < bv then Ones else Zeros)
      && (v == bv && r > 0 ==> SlotWord(c, v) == LowMask(r))
  {
    var bv, r := (e - start) / 64, (e - start) % 64;
    var w := SlotWord(c, v);
    var n := if v < bv then 64 else if v == bv then r else 0;
    forall k | 0 <= k < 64 ensures w[k] == LowMask(n)[k] {
      assert w[k] == After(start + 64 * v + k, e, idx, Keep);
    }
    WordExt(w, LowMask(n));
    assert ZERO[0] != ONES[0];
    if n == 64 {
      WordExt(w, ONES);
    } else if n == 0 {
      WordExt(w, ZERO);
    } else {
      assert w[0] && !w[n];
    }
  }

  /** The word with one bit. */
  lemma OneBit(start: nat, e: nat, idx: nat, vec: nat, bit: nat)
    requires bit < 64 && idx == start + 64 * vec + bit && e <= start + 64 * vec
    ensures var w := SetBit(ZERO, bit);
      w != ZERO && w != ONES && forall k | 0 <= k < 64 :: w[k] == After(start + 64 * vec + k, e, idx, Set)
  {
    var w := SetBit(ZERO, bit);
    assert w[bit] && !ZERO[bit];
    assert !w[(bit + 1) % 64] && ONES[(bit + 1) % 64];
  }

  lemma AddSame(start: nat, d: Word, e: nat, idx: nat, bv: nat, r: nat, bit: nat)
    requires 0 < r < bit < 64 && bv < SLOTS && e == start + 64 * bv + r && idx == start + 64 * bv + bit
    requires CutFlags(d, bv, bv, bv)
    ensures IsPivot(Chunk(start, d, [SetBit(LowMask(r), bit)]), start, e, idx, Set)
  {
    var w := SetBit(LowMask(r), bit);
    assert w[bit] && !ZERO[bit];
    assert !w[r] && ONES[r];
    PivotMixed(start, d, bv, bv, w, w, bv, e, idx, Set);
  }

  lemma AddAfterTail(start: nat, d: Word, e: nat, idx: nat, bv: nat, r: nat, vec: nat, bit: nat)
    requires 0 < r < 64 && bv < vec < SLOTS && e == start + 64 * bv + r && idx == start + 64 * vec + bit && bit < 64
    requires CutFlags(d, bv, vec, bv)
    ensures IsPivot(Chunk(start, d, [LowMask(r), SetBit(ZERO, bit)]), start, e, idx, Set)
  {
    TailWord(start, e, bv, r, idx);
    OneBit(start, e, idx, vec, bit);
    PivotMixed(start, d, bv, vec, LowMask(r), SetBit(ZERO, bit), bv, e, idx, Set);
  }

  lemma AddAlone(start: nat, d: Word, e: nat, idx: nat, ones: nat, vec: nat, bit: nat)
    requires vec < SLOTS && bit < 64 && idx == start + 64 * vec + bit && ones <= vec
    requires if ones == 0 then e <= start else e == start + 64 * ones
    requires CutFlags(d, vec, vec, ones)
    ensures IsPivot(Chunk(start, d, [SetBit(ZERO, bit)]), start, e, idx, Set)
  {
    OneBit(start, e, idx, vec, bit);
    PivotMixed(start, d, vec, vec, SetBit(ZERO, bit), SetBit(ZERO, bit), ones, e, idx, Set);
  }

  /** The words of a chunk, one by one. */
  lemma HoldsWords(b: seq<Word>, q: nat, c: Chunk)
    requires |b| == SCRATCH && q + 2 + |c.vecs| <= SCRATCH
    requires b[q] == U64(c.start) && b[q + 1] == c.desc
    requires forall i :: 0 <= i < |c.vecs| ==> b[q + 2 + i] == c.vecs[i]
    ensures HoldsChunk(b, q, c)
  {
    hide U64;
    var n := |Enc(c)|;
    forall i | 0 <= i < n ensures b[q..q + n][i] == Enc(c)[i] {
      assert i >= 2 ==> b[q + 2 + (i - 2)] == c.vecs[i - 2];
    }
    assert b[q..q + n] == Enc(c);
  }

  lemma WordsHeld(b: seq<Word>, q: nat, c: Chunk)
    requires HoldsChunk(b, q, c)
    ensures b[q] == U64(c.start) && b[q + 1] == c.desc
    ensures forall i :: 0 <= i < |c.vecs| ==> b[q + 2 + i] == c.vecs[i]
  {
    hide U64;
    var n := |Enc(c)|;
    assert b[q..q + n][0] == Enc(c)[0] && b[q..q + n][1] == Enc(c)[1];
    forall i | 0 <= i < |c.vecs| ensures b[q + 2 + i] == c.vecs[i] {
      assert b[q..q + n][i + 2] == Enc(c)[i + 2];
    }
  }

  /** Adds the bit past the run to a pivot that holds the run's last part. */
  method AddBit(buf: array<Word>, q: nat, start: nat, e: nat, idx: nat, ghost c: Chunk) returns (size: nat, ghost c': Chunk)
    requires buf.Length == SCRATCH && q <= 3
    requires IsPivot(c, start, e, idx, Keep) && start < e < idx < start + WINDOW
    requires HoldsChunk(buf[..], q, c) && ClearFrom(buf[..], q + |Enc(c)|)
    modifies buf
    ensures IsPivot(c', start, e, idx, Set) && size == |Enc(c')| && size <= 4
    ensures HoldsChunk(buf[..], q, c') && ClearFrom(buf[..], q + size)
    ensures forall i :: 0 <= i < q ==> buf[i] == old(buf[i])
  {
    hide FlagAt, IsPivot, CutFlags, HoldsChunk, U64, SetFlag, SetBit, LowMask;
    var vec, bit := (idx - start) / 64, (idx - start) % 64;
    SlotOf(idx, start);
    ghost var bv, r := (e - start) / 64, (e - start) % 64;
    ghost var was := buf[..];
    KeepShape(c, start, e, idx);
    PivotStart(c, start, e, idx);
    WordsHeld(buf[..], q, c);
    VecCountOf(c.desc, bv, r);
    var existing := Size(buf[q + 1]) - 1;
    BitFlags(c.desc, bv, r, vec, bit, start, e, idx);
    if FlagAt(buf[q + 1], vec).Mixed? {
      var pos := 1 + MixedIn(buf[q + 1], 0, vec);
      assert was[q + 2 + 0] == c.vecs[0];
      buf[q + 1 + pos] := SetBit(buf[q + 1 + pos], bit);
      AddSame(start, c.desc, e, idx, bv, r, bit);
      c' := Chunk(start, c.desc, [SetBit(LowMask(r), bit)]);
    } else {
      buf[q + 1] := SetFlag(buf[q + 1], vec, Mixed);
      var pos := 1 + MixedIn(buf[q + 1], 0, vec);
      // The new slot follows every other Mixed slot, so no payload word has to move up.
      if existing > pos - 1 {
        assert false;
      }
      buf[q + 1 + pos] := SetBit(ZERO, bit);
      c' := AddedChunk(c.desc, buf[q + 1], bv, r, vec, bit, start, e, idx);
      assert r > 0 ==> buf[q + 2] == was[q + 2 + 0];
    }
    PivotSize(c', start, e, idx);
    size := 1 + Size(buf[q + 1]);
    HoldsWords(buf[..], q, c');
  }

  lemma PivotStart(c: Chunk, start: nat, e: nat, idx: nat)
    requires IsPivot(c, start, e, idx, Keep)
    ensures c.start == start
  {
  }

  lemma PivotSize(c: Chunk, start: nat, e: nat, idx: nat)
    requires IsPivot(c, start, e, idx, Set)
    ensures |Enc(c)| == 1 + Size(c.desc)
  {
  }

  lemma VecCountOf(d: Word, bv: nat, r: nat)
    requires if r > 0 then bv < SLOTS && CutFlags(d, bv, bv, bv) else bv <= SLOTS && CutFlags(d, SLOTS, SLOTS, bv)
    ensures VecCount(d) == (if r > 0 then 1 else 0) && !IsRle(d)
    ensures Size(d) == if r > 0 then 2 else 1
  {
    if r > 0 {
      MixedTwo(d, bv, bv, SLOTS);
    } else {
      MixedNone(d, SLOTS);
    }
    assert FlagAt(d, 31) != Unused;
  }

  /** Where the new bit falls among the flags of the run's last window. */
  lemma BitFlags(d: Word, bv: nat, r: nat, vec: nat, bit: nat, start: nat, e: nat, idx: nat)
    requires vec < SLOTS && bit < 64 && idx == start + 64 * vec + bit && e == start + 64 * bv + r && r < 64 && e < idx
    requires if r > 0 then bv < SLOTS && CutFlags(d, bv, bv, bv) else bv < SLOTS && CutFlags(d, SLOTS, SLOTS, bv)
    ensures FlagAt(d, vec).Mixed? <==> r > 0 && vec == bv
    ensures FlagAt(d, vec).Mixed? ==> r < bit && MixedIn(d, 0, vec) == 0
    ensures !FlagAt(d, vec).Mixed? ==> MixedIn(SetFlag(d, vec, Mixed), 0, vec) == (if r > 0 then 1 else 0)
    ensures !FlagAt(d, vec).Mixed? ==> bv <= vec && (r > 0 ==> bv < vec)
  {
    hide FlagAt;
    if r > 0 && vec == bv {
      MixedTwo(d, bv, bv, vec);
    } else if r > 0 {
      MixedTwo(SetFlag(d, vec, Mixed), bv, vec, vec);
    } else {
      MixedTwo(SetFlag(d, vec, Mixed), vec, vec, vec);
    }
  }

  lemma AddedChunk(d: Word, d': Word, bv: nat, r: nat, vec: nat, bit: nat, start: nat, e: nat, idx: nat) returns (c: Chunk)
    requires vec < SLOTS && bit < 64 && idx == start + 64 * vec + bit && e == start + 64 * bv + r && r < 64 && start < e < idx
    requires bv <= vec && (r > 0 ==> bv < vec)
    requires if r > 0 then CutFlags(d, bv, bv, bv) else CutFlags(d, SLOTS, SLOTS, bv)
    requires d' == SetFlag(d, vec, Mixed)
    ensures IsPivot(c, start, e, idx, Set)
    ensures c == Chunk(start, d', if r > 0 then [LowMask(r), SetBit(ZERO, bit)] else [SetBit(ZERO, bit)])
  {
    hide FlagAt, IsPivot;
    if r > 0 {
      AddAfterTail(start, d', e, idx, bv, r, vec, bit);
      c := Chunk(start, d', [LowMask(r), SetBit(ZERO, bit)]);
    } else {
      AddAlone(start, d', e, idx, bv, vec, bit);
      c := Chunk(start, d', [SetBit(ZERO, bit)]);
    }
  }

  /** The pivot wholly past the run: only the new bit. */
  method FarPivot(buf: array<Word>, start: nat, e: nat, idx: nat, size0: nat) returns (size: nat, ghost c: Chunk)
    requires buf.Length == SCRATCH && e <= start <= idx < start + WINDOW && size0 == 3
    requires buf[0] == U64(start) && buf[2] == ZERO && forall i :: 3 <= i < SCRATCH ==> buf[i] == ZERO
    modifies buf
    ensures IsPivot(c, start, e, idx, Set) && size == |Enc(c)| == 3
    ensures HoldsChunk(buf[..], 3, c) && ClearFrom(buf[..], 6)
    ensures forall i :: 0 <= i < 3 ==> buf[i] == ZERO
  {
    hide FlagAt, IsPivot, CutFlags;
    size := size0;
    buf[1] := ZERO;
    // Move the pivot over to make room for the left chunk.
    forall i | 0 <= i < size {
      buf[3 + i] := buf[i];
    }
    forall i | 0 <= i < 3 {
      buf[i] := ZERO;
    }
    var vec, bit := (idx - start) / 64, (idx - start) % 64;
    SlotOf(idx, start);
    buf[4] := SetFlag(buf[4], vec, Mixed);
    buf[5] := SetBit(buf[5], bit);
    FarFlags(buf[4], vec);
    AddAlone(start, buf[4], e, idx, 0, vec, bit);
    c := Chunk(start, buf[4], [SetBit(ZERO, bit)]);
    assert buf[..][3..6] == Enc(c);
  }

  lemma FarFlags(d: Word, vec: nat)
    requires vec < SLOTS && d == SetFlag(ZERO, vec, Mixed)
    ensures CutFlags(d, vec, vec, 0)
  {
    OnesFlags();
  }
}
