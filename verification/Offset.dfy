// sm_offset: every member moves by the same signed distance, members that would fall
// below zero are dropped, and pieces that land in one window are merged by the emitter.
module Offset {
  import opened Words
  import opened Chunks
  import opened Streams
  import opened Codec
  import opened Maps
  import opened RunLengths
  import opened Appends
  import opened Emitter
  import opened Coalesce
  import opened Locate
  import opened Slots
  import opened Small
  import opened Adding
  import opened SetOps

  const IDX_MAX: nat := TWO64 - 1

  predicate Lands(x: nat, o: int) {
    x - o >= 0
  }

  /** The members moved by o; those that fall below zero are gone. */
  ghost function Shifted(s: iset<nat>, o: int): iset<nat> {
    iset x: nat | Lands(x, o) && (x - o) in s
  }

  // ---- one window --------------------------------------------------------------------------

  /** Bit i of a window, and no bit outside it. */
  predicate BitAt(ws: Window, i: int) {
    0 <= i < WINDOW && ws[i / 64][i % 64]
  }

  /** Bit i of the words from w on. */
  predicate BitFrom(ws: Window, i: int, w: nat) {
    64 * w <= i < WINDOW && ws[i / 64][i % 64]
  }

  lemma BitFromStep(ws: Window, i: int, w: nat)
    requires w < SLOTS
    ensures BitFrom(ws, i, w) <==> BitFrom(ws, i, w + 1) || (0 <= i - 64 * w < 64 && ws[w][i - 64 * w])
  {
    if 0 <= i - 64 * w < 64 {
      assert i / 64 == w && i % 64 == i - 64 * w;
    }
  }

  /** One bit of an output word, in the word that word w begins in, the one it ends in, or another. */
  lemma OrBit(x: Word, y: Word, words: Window, w: nat, d: nat, ws: nat, rem: nat, k: nat)
    requires w < SLOTS && rem < 64 && k < 64
    requires x[k] == BitFrom(words, 64 * d + k - 64 * ws - rem, w + 1)
    requires d == w + ws ==> y == Or(x, Shl(words[w], rem))
    requires d == w + ws + 1 ==> y == if rem == 0 then x else Or(x, Shr(words[w], 64 - rem))
    requires d != w + ws && d != w + ws + 1 ==> y == x
    ensures y[k] == BitFrom(words, 64 * d + k - 64 * ws - rem, w)
  {
    hide BitFrom;
    BitFromStep(words, 64 * d + k - 64 * ws - rem, w);
  }

  /** Oring word w, moved by 64 * ws + rem bits, into two neighbouring output words adds exactly its bits. */
  lemma OrStep(out: seq<Word>, next: seq<Word>, words: Window, w: nat, ws: nat, rem: nat)
    requires |out| == |next| == 64 && w < SLOTS && ws < SLOTS && rem < 64
    requires forall d, k :: 0 <= d < 64 && 0 <= k < 64 ==> out[d][k] == BitFrom(words, 64 * d + k - 64 * ws - rem, w + 1)
    requires next[w + ws] == Or(out[w + ws], Shl(words[w], rem))
    requires w + ws + 1 < 64 ==> next[w + ws + 1] == if rem == 0 then out[w + ws + 1] else Or(out[w + ws + 1], Shr(words[w], 64 - rem))
    requires forall d :: 0 <= d < 64 && d != w + ws && d != w + ws + 1 ==> next[d] == out[d]
    ensures forall d, k :: 0 <= d < 64 && 0 <= k < 64 ==> next[d][k] == BitFrom(words, 64 * d + k - 64 * ws - rem, w)
  {
    hide BitFrom, Or, Shl, Shr;
    forall d, k | 0 <= d < 64 && 0 <= k < 64 ensures next[d][k] == BitFrom(words, 64 * d + k - 64 * ws - rem, w) {
      OrBit(out[d], next[d], words, w, d, ws, rem, k);
    }
  }

  /** Moves a window up by intra bits, into itself and the window after it. */
  method ShiftUp(words: Window, intra: nat) returns (lo: Window, hi: Window, hiCaps: seq<bool>)
    requires intra < WINDOW
    ensures forall v, k :: 0 <= v < SLOTS && 0 <= k < 64 ==> lo[v][k] == BitAt(words, 64 * v + k - intra)
    ensures forall v, k :: 0 <= v < SLOTS && 0 <= k < 64 ==> hi[v][k] == BitAt(words, WINDOW + 64 * v + k - intra)
    ensures PrefixCaps(hi, hiCaps)
  {
    hide BitFrom, PrefixCaps;
    var ws, rem := intra / 64, intra % 64;
    var out: seq<Word> := seq(64, d => ZERO);
    forall d, k | 0 <= d < 64 && 0 <= k < 64 ensures out[d][k] == BitFrom(words, 64 * d + k - 64 * ws - rem, SLOTS) {
      NoBits(words, 64 * d + k - 64 * ws - rem);
    }
    var w: nat := SLOTS;
    while w > 0
      invariant w <= SLOTS && |out| == 64
      invariant forall d, k :: 0 <= d < 64 && 0 <= k < 64 ==> out[d][k] == BitFrom(words, 64 * d + k - 64 * ws - rem, w)
    {
      w := w - 1;
      ghost var was := out;
      var dst := w + ws;
      out := out[dst := Or(out[dst], Shl(words[w], rem))];
      if rem != 0 {
        out := out[dst + 1 := Or(out[dst + 1], Shr(words[w], 64 - rem))];
      }
      OrStep(was, out, words, w, ws, rem);
    }
    lo, hi := out[..32], out[32..];
    var high := ws + if rem > 0 then 1 else 0;
    hiCaps := seq(SLOTS, d => d < high);
    ShiftedBits(out, words, intra);
    HighCaps(words, intra, hi, hiCaps, high);
  }

  lemma NoBits(ws: Window, i: int)
    ensures !BitFrom(ws, i, SLOTS)
  {
  }

  lemma ShiftedBits(out: seq<Word>, words: Window, intra: nat)
    requires |out| == 64
    requires forall d, k :: 0 <= d < 64 && 0 <= k < 64 ==> out[d][k] == BitFrom(words, 64 * d + k - 64 * (intra / 64) - intra % 64, 0)
    ensures forall v, k :: 0 <= v < SLOTS && 0 <= k < 64 ==> out[..32][v][k] == BitAt(words, 64 * v + k - intra)
    ensures forall v, k :: 0 <= v < SLOTS && 0 <= k < 64 ==> out[32..][v][k] == BitAt(words, WINDOW + 64 * v + k - intra)
  {
    forall v, k | 0 <= v < SLOTS && 0 <= k < 64
      ensures out[..32][v][k] == BitAt(words, 64 * v + k - intra) && out[32..][v][k] == BitAt(words, WINDOW + 64 * v + k - intra)
    {
      assert 64 * v + k - 64 * (intra / 64) - intra % 64 == 64 * v + k - intra;
      assert out[32..][v] == out[32 + v];
    }
  }

  /** Nothing lands above the slots that received words. */
  lemma HighCaps(words: Window, intra: nat, hi: Window, caps: seq<bool>, high: nat)
    requires intra < WINDOW && high == intra / 64 + (if intra % 64 > 0 then 1 else 0)
    requires |caps| == SLOTS && forall d :: 0 <= d < SLOTS ==> caps[d] == (d < high)
    requires forall v, k :: 0 <= v < SLOTS && 0 <= k < 64 ==> hi[v][k] == BitAt(words, WINDOW + 64 * v + k - intra)
    ensures PrefixCaps(hi, caps)
  {
    forall v | 0 <= v < SLOTS && !caps[v] ensures hi[v] == ZERO {
      forall k | 0 <= k < 64 ensures hi[v][k] == ZERO[k] {
        assert 64 * v >= intra;
      }
      WordExt(hi[v], ZERO);
    }
  }

  /** Moves a window down by `drop` bits; the low bits are lost. */
  method ShiftDown(words: Window, drop: nat) returns (lo: Window, caps: seq<bool>)
    requires drop < WINDOW
    ensures forall v, k :: 0 <= v < SLOTS && 0 <= k < 64 ==> lo[v][k] == BitAt(words, 64 * v + k + drop)
    ensures PrefixCaps(lo, caps)
  {
    hide PrefixCaps;
    var wd, bd := drop / 64, drop % 64;
    var out: seq<Word> := [];
    for w := 0 to SLOTS
      invariant |out| == w
      invariant forall v :: 0 <= v < w ==> out[v] == DroppedWord(words, v, wd, bd)
    {
      out := out + [DroppedWord(words, w, wd, bd)];
    }
    lo := out;
    caps := seq(SLOTS, w => w + wd < SLOTS);
    forall v, k | 0 <= v < SLOTS && 0 <= k < 64 ensures lo[v][k] == BitAt(words, 64 * v + k + drop) {
      DroppedBit(words, v, wd, bd, k);
    }
    LowCaps(words, drop, lo, caps);
  }

  /** Output word w when wd words and bd bits are dropped. */
  function DroppedWord(words: Window, w: nat, wd: nat, bd: nat): Word
    requires bd < 64
  {
    if w + wd >= SLOTS then ZERO
    else if bd == 0 then words[w + wd]
    else if w + wd + 1 < SLOTS then Or(Shr(words[w + wd], bd), Shl(words[w + wd + 1], 64 - bd))
    else Shr(words[w + wd], bd)
  }

  lemma BitOf(words: Window, q: nat, r: nat)
    requires r < 64
    ensures BitAt(words, 64 * q + r) == (q < SLOTS && words[q][r])
  {
    SlotPlace(64 * q + r, q, r);
  }

  /** Bit k of two neighbouring words read bd bits further on. */
  lemma SplicedBit(a: Word, b: Word, bd: nat, k: nat)
    requires 0 < bd < 64 && k < 64
    ensures Or(Shr(a, bd), Shl(b, 64 - bd))[k] == if k + bd < 64 then a[k + bd] else b[k + bd - 64]
  {
    var x, y := Shr(a, bd), Shl(b, 64 - bd);
    assert x[k] == (k + bd < 64 && a[k + bd]);
    assert y[k] == (64 - bd <= k && b[k - (64 - bd)]);
  }

  /** A bit of a dropped word comes from the word it begins in or from the next one. */
  lemma DroppedFrom(words: Window, w: nat, wd: nat, bd: nat, k: nat)
    requires bd < 64 && k < 64
    ensures var q := w + wd + (k + bd) / 64;
      DroppedWord(words, w, wd, bd)[k] == (q < SLOTS && words[q][(k + bd) % 64])
  {
    hide Or, Shr, Shl;
    if bd > 0 && w + wd + 1 < SLOTS {
      SplicedBit(words[w + wd], words[w + wd + 1], bd, k);
    }
  }

  lemma DroppedBit(words: Window, w: nat, wd: nat, bd: nat, k: nat)
    requires bd < 64 && k < 64
    ensures DroppedWord(words, w, wd, bd)[k] == BitAt(words, 64 * w + k + 64 * wd + bd)
  {
    hide BitAt, DroppedWord;
    DroppedFrom(words, w, wd, bd, k);
    BitOf(words, w + wd + (k + bd) / 64, (k + bd) % 64);
    assert 64 * w + k + 64 * wd + bd == 64 * (w + wd + (k + bd) / 64) + (k + bd) % 64;
  }

  lemma LowCaps(words: Window, drop: nat, lo: Window, caps: seq<bool>)
    requires |caps| == SLOTS && forall v :: 0 <= v < SLOTS ==> caps[v] == (v + drop / 64 < SLOTS)
    requires forall v, k :: 0 <= v < SLOTS && 0 <= k < 64 ==> lo[v][k] == BitAt(words, 64 * v + k + drop)
    ensures PrefixCaps(lo, caps)
  {
    forall v | 0 <= v < SLOTS && !caps[v] ensures lo[v] == ZERO {
      WordExt(lo[v], ZERO);
    }
  }

  // ---- sets ---------------------------------------------------------------------------------------

  lemma WindowBit(start: nat, ws: Window, x: nat)
    ensures x in WindowMembers(start, ws) <==> start <= x && BitAt(ws, x - start)
  {
  }

  /** Bit i of a window filled from another one, `from` bits on and moved up by intra. */
  lemma MovedBit(words: Window, out: Window, from: nat, intra: nat, i: int)
    requires forall v, k :: 0 <= v < SLOTS && 0 <= k < 64 ==> out[v][k] == BitAt(words, from + 64 * v + k - intra)
    ensures BitAt(out, i) <==> 0 <= i < WINDOW && BitAt(words, from + i - intra)
  {
    if 0 <= i < WINDOW {
      assert out[i / 64][i % 64] == BitAt(words, from + 64 * (i / 64) + i % 64 - intra);
    }
  }

  lemma BitRange(words: Window, i: int)
    ensures BitAt(words, i) ==> 0 <= i < WINDOW
  {
  }

  /** The two output windows hold the moved window. */
  lemma UpMembers(src: nat, o: int, words: Window, oa: nat, intra: nat, lo: Window, hi: Window)
    requires oa + intra == src + o
    requires forall v, k :: 0 <= v < SLOTS && 0 <= k < 64 ==> lo[v][k] == BitAt(words, 64 * v + k - intra)
    requires forall v, k :: 0 <= v < SLOTS && 0 <= k < 64 ==> hi[v][k] == BitAt(words, WINDOW + 64 * v + k - intra)
    requires intra < WINDOW
    ensures WindowMembers(oa, lo) + WindowMembers(oa + WINDOW, hi) == Shifted(WindowMembers(src, words), o)
  {
    hide BitAt, WindowHas, WindowMembers;
    forall x: nat ensures x in WindowMembers(oa, lo) + WindowMembers(oa + WINDOW, hi) <==> x in Shifted(WindowMembers(src, words), o) {
      WindowBit(oa, lo, x);
      WindowBit(oa + WINDOW, hi, x);
      if x - o >= 0 {
        WindowBit(src, words, x - o);
      }
      MovedBit(words, lo, 0, intra, x - oa);
      MovedBit(words, hi, WINDOW, intra, x - oa - WINDOW);
      BitRange(words, x - oa - intra);
    }
  }

  lemma DownMembers(src: nat, o: int, words: Window, drop: nat, lo: Window)
    requires src + o + drop == 0 && drop < WINDOW
    requires forall v, k :: 0 <= v < SLOTS && 0 <= k < 64 ==> lo[v][k] == BitAt(words, 64 * v + k + drop)
    ensures WindowMembers(0, lo) == Shifted(WindowMembers(src, words), o)
  {
    forall x: nat ensures x in WindowMembers(0, lo) <==> x in Shifted(WindowMembers(src, words), o) {
      if x < WINDOW {
        var v, k := x / 64, x % 64;
        assert lo[v][k] == BitAt(words, x + drop);
      }
    }
  }

  lemma RangeShifted(lo: nat, hi: nat, o: int)
    ensures lo + o >= 0 && hi + o >= 0 ==> Shifted(Range(lo, hi), o) == Range(lo + o, hi + o)
    ensures lo + o < 0 <= hi + o ==> Shifted(Range(lo, hi), o) == Range(0, hi + o)
    ensures hi + o <= 0 ==> Shifted(Range(lo, hi), o) == iset{}
  {
  }

  lemma ShiftedSum(a: iset<nat>, b: iset<nat>, o: int)
    ensures Shifted(a + b, o) == Shifted(a, o) + Shifted(b, o)
    ensures Shifted(iset{}, o) == iset{}
  {
  }

  lemma ShortShifted(s: iset<nat>, o: int)
    requires ShortRuns(s)
    ensures ShortRuns(Shifted(s, o))
  {
    forall lo: nat, hi: nat | lo < hi && Range(lo, hi) <= Shifted(s, o) ensures hi - lo <= RLE_LIMIT {
      assert lo in Range(lo, hi);
      assert Lands(lo, o);
      assert Range(lo - o, hi - o) <= s by {
        forall x: nat | x in Range(lo - o, hi - o) ensures x in s {
          assert x + o in Range(lo, hi);
        }
      }
    }
  }

  // ---- emitting moved chunks --------------------------------------------------------------------

  /** Ready for an index stays ready for every later one. */
  lemma ReadyLater(e: Emitter, x: nat, y: nat)
    requires e.Ready(x) && x <= y
    ensures e.Ready(y)
  {
    FloorMonotone(x, y);
    if Floor(x) == Floor(y) && Aligned(y) {
      FloorUnique(y, y);
      FloorUnique(x, y);
      assert x == y;
    }
  }

  /** Between the source chunks: everything below `pos` has been emitted. */
  ghost predicate At(e: Emitter, pos: int)
    reads e, e.r
  {
    if pos > 0 then e.Ready(pos) else e.Frontier() == 0 && !e.pending
  }

  lemma AtReady(e: Emitter, pos: int, x: nat)
    requires At(e, pos) && pos <= x
    ensures e.Ready(x)
  {
    if pos > 0 {
      ReadyLater(e, pos, x);
    }
  }

  /** The distance is a whole number of windows. */
  predicate WholeWindows(o: int) {
    o % WINDOW == 0
  }

  /** Such a distance keeps starts on window boundaries. */
  lemma WholeMove(start: nat, o: int)
    requires Aligned(start) && WholeWindows(o)
    ensures start + o >= 0 ==> Aligned(start + o) && Floor(start + o) == start + o
    ensures start + o < 0 ==> start + o <= -2048
  {
    AlignedMod(start);
    if start + o >= 0 {
      AlignedMod(start + o);
      FloorUnique(start + o, start + o);
    }
  }

  /** A window that is not moved within its grid has no overflow. */
  lemma NoOverflow(words: Window, hi: Window)
    requires forall v, k :: 0 <= v < SLOTS && 0 <= k < 64 ==> hi[v][k] == BitAt(words, WINDOW + 64 * v + k)
    ensures forall v :: 0 <= v < SLOTS ==> hi[v] == ZERO
  {
    forall v | 0 <= v < SLOTS ensures hi[v] == ZERO {
      WordExt(hi[v], ZERO);
    }
  }

  /**
   * Emits the moved bits of a sparse chunk.  The low output window claims every slot, as the
   * chunk does; the overflow only claims slots that received words.
   */
  method EmitSparse(e: Emitter, c: Chunk, o: int, ghost full: bool, ghost pos: int)
    requires e.Valid(full) && At(e, pos) && pos <= c.start + o && (full ==> WholeWindows(o))
    requires WfChunk(c) && !IsRle(c.desc) && Full(c) && forall x: nat :: ChunkHas(c, x) ==> x + o < TOP
    modifies e, e.r, e.r.data
    ensures e.Valid(full) && At(e, c.start + WINDOW + o)
    ensures e.Emitted() == old(e.Emitted()) + Shifted(ChunkMembers(c), o)
    ensures e.r.data == old(e.r.data) || fresh(e.r.data)
  {
    hide Layout, WfStream, AllFull, Members, WindowMembers, End, Aligned, Floor, PrefixCaps, AllSlots, WfChunk, ChunkMembers, Shifted, ChunkHas, Full, WholeWindows, Expand, CapsOf;
    SparseOf(c);
    SparseMembers(c);
    var words, cf := ExpandChunk(c);
    var start := c.start + o;
    if full {
      WholeMove(c.start, o);
    }
    if start < 0 {
      EmitDown(e, c, words, -start, o, full, pos);
    } else {
      EmitUp(e, c, words, start, o, full, pos);
    }
  }

  /** A sparse chunk whose new start is not below zero: its bits go to that start's window and the one after it. */
  method EmitUp(e: Emitter, c: Chunk, words: Window, start: nat, o: int, ghost full: bool, ghost pos: int)
    requires e.Valid(full) && At(e, pos) && pos <= start == c.start + o && (full ==> Floor(start) == start)
    requires WfChunk(c) && ChunkMembers(c) == WindowMembers(c.start, words) && forall x: nat :: ChunkHas(c, x) ==> x + o < TOP
    modifies e, e.r, e.r.data
    ensures e.Valid(full) && At(e, start + WINDOW)
    ensures e.Emitted() == old(e.Emitted()) + Shifted(ChunkMembers(c), o)
    ensures e.r.data == old(e.r.data) || fresh(e.r.data)
  {
    hide Layout, WfStream, AllFull, Members, WindowMembers, End, Aligned, Floor, PrefixCaps, AllSlots, WfChunk, ChunkMembers, Shifted, BitAt, ChunkHas, Emitter.Valid, Emitter.Emitted, Emitter.Ready;
    var oa := Floor(start);
    var intra := start - oa;
    var lo, hi, hiCaps := ShiftUp(words, intra);
    UpMembers(c.start, o, words, oa, intra, lo, hi);
    AllSlotsPrefix(lo);
    AtReady(e, pos, start);
    RoomBelow(c, o, start);
    ReadyWindow(e, start);
    e.EmitWords(full, oa, lo, AllSlots());
    AlignedConstants();
    AlignedSum(oa, WINDOW);
    FloorOf(oa + WINDOW, intra);
    var some := AnyWord(hi);
    if intra == 0 {
      NoOverflow(words, hi);
    }
    WindowEmpty(oa + WINDOW, hi);
    if some {
      OverflowRoom(c, o, words, oa, intra, lo, hi);
      e.EmitWords(false, oa + WINDOW, hi, hiCaps);
    }
    EmittedBoth(old(e.Emitted()), WindowMembers(oa, lo), WindowMembers(oa + WINDOW, hi));
    AfterWindows(e, oa, intra, some);
  }

  lemma SparseOf(c: Chunk)
    requires WfChunk(c) && !IsRle(c.desc)
    ensures WfSparse(c) && Shaped(c) && Aligned(c.start)
  {
  }

  lemma EmittedBoth(was: iset<nat>, a: iset<nat>, b: iset<nat>)
    ensures was + a + b == was + (a + b)
    ensures b == iset{} ==> was + a == was + (a + b)
  {
  }

  method AnyWord(ws: Window) returns (some: bool)
    ensures !some <==> forall v :: 0 <= v < SLOTS ==> ws[v] == ZERO
  {
    some := false;
    for i := 0 to SLOTS
      invariant !some <==> forall v :: 0 <= v < i ==> ws[v] == ZERO
    {
      some := some || ws[i] != ZERO;
    }
  }

  /** The window of the chunk's new start lies below TOP, since a member lands at or past it. */
  lemma RoomBelow(c: Chunk, o: int, start: nat)
    requires WfChunk(c) && start == c.start + o && forall x: nat :: ChunkHas(c, x) ==> x + o < TOP
    ensures Floor(start) + WINDOW <= TOP
  {
    hide WfChunk, ChunkHas, Floor;
    var x := ChunkNotEmpty(c);
    FloorTop(start);
  }

  /** If anything overflows into the next window, that window lies below TOP, and the start was not aligned. */
  lemma OverflowRoom(c: Chunk, o: int, words: Window, oa: nat, intra: nat, lo: Window, hi: Window)
    requires ChunkMembers(c) == WindowMembers(c.start, words) && oa + intra == c.start + o
    requires Aligned(oa) && Aligned(oa + WINDOW)
    requires WindowMembers(oa, lo) + WindowMembers(oa + WINDOW, hi) == Shifted(WindowMembers(c.start, words), o)
    requires forall x: nat :: ChunkHas(c, x) ==> x + o < TOP
    requires WindowMembers(oa + WINDOW, hi) != iset{}
    ensures oa + 2 * WINDOW <= TOP && intra > 0
  {
    hide Aligned, ChunkHas;
    var x :| x in WindowMembers(oa + WINDOW, hi);
    assert x in Shifted(WindowMembers(c.start, words), o);
    assert x - o in ChunkMembers(c);
    FloorTop(x);
    FloorUnique(x, oa + WINDOW);
  }

  lemma ReadyWindow(e: Emitter, x: nat)
    requires e.Ready(x)
    ensures (e.pending && e.start == Floor(x)) || e.Frontier() <= Floor(x)
  {
  }

  lemma AfterWindows(e: Emitter, oa: nat, intra: nat, some: bool)
    requires e.pending && e.start == (if some then oa + WINDOW else oa) && intra < WINDOW && (some ==> intra > 0)
    requires Floor(oa + WINDOW + intra) == oa + WINDOW && (intra > 0 ==> !Aligned(oa + WINDOW + intra))
    ensures At(e, oa + intra + WINDOW)
  {
  }

  /** A sparse chunk whose start falls below zero: its low bits are dropped. */
  method EmitDown(e: Emitter, c: Chunk, words: Window, drop: nat, o: int, ghost full: bool, ghost pos: int)
    requires e.Valid(full) && (full ==> drop >= WINDOW) && At(e, pos) && pos <= 0 && drop > 0 && c.start + o + drop == 0
    requires WfChunk(c) && ChunkMembers(c) == WindowMembers(c.start, words)
    modifies e, e.r, e.r.data
    ensures e.Valid(full) && At(e, WINDOW - drop)
    ensures e.Emitted() == old(e.Emitted()) + Shifted(ChunkMembers(c), o)
    ensures e.r.data == old(e.r.data) || fresh(e.r.data)
  {
    hide Layout, WfStream, AllFull, Members, End, Aligned, Floor, PrefixCaps, AllSlots, WfChunk, BitAt, ChunkHas;
    if drop >= WINDOW {
      assert Shifted(ChunkMembers(c), o) == iset{};
      return;
    }
    var lo, caps := ShiftDown(words, drop);
    DownMembers(c.start, o, words, drop, lo);
    AlignedConstants();
    e.EmitWords(false, 0, lo, caps);
    FloorOf(0, WINDOW - drop);
  }

  /** Marks the slots that hold the first n bits. */
  function CapsFor(n: nat): (caps: seq<bool>)
    ensures |caps| == SLOTS
  {
    seq(SLOTS, s => 64 * s < n)
  }

  lemma RunCaps(ws: Window, lo: nat, hi: nat)
    requires HoldsRun(ws, lo, hi)
    ensures PrefixCaps(ws, CapsFor(hi))
  {
    forall v | 0 <= v < SLOTS && !CapsFor(hi)[v] ensures ws[v] == ZERO {
      WordExt(ws[v], ZERO);
    }
  }

  /** Emits a moved run: a partial first window, whole windows, a partial last window. */
  method EmitMovedRun(e: Emitter, lo: nat, len: nat, ghost full: bool)
    requires e.Valid(full) && (full ==> Floor(lo) == lo) && e.Ready(lo) && 1 <= len <= RLE_MAX && lo + len <= TOP
    modifies e, e.r, e.r.data
    ensures e.Valid(full) && e.Ready(lo + len)
    ensures e.Emitted() == old(e.Emitted()) + Range(lo, lo + len)
    ensures e.r.data == old(e.r.data) || fresh(e.r.data)
  {
    hide Layout, WfStream, AllFull, Members, WindowMembers, End, Aligned, Floor, PrefixCaps, AllSlots, Range, HoldsRun, CapsFor, Emitter.Valid, Emitter.Emitted;
    ghost var was := e.Emitted();
    var aligned := Floor(lo);
    var within := lo - aligned;
    ReadyWindow(e, lo);
    if within == 0 {
      ReadyAligned(e, lo);
      e.EmitRle(full, aligned, len);
      return;
    }
    var first := if WINDOW - within > len then len else WINDOW - within;
    var fw := RunWords(within, within + first);
    HoldsRunMembers(aligned, fw, lo, lo + first);
    RunCaps(fw, within, within + first);
    FloorTop(lo);
    e.EmitWords(false, aligned, fw, CapsFor(within + first));
    AlignedConstants();
    AlignedSum(aligned, WINDOW);
    FloorOf(aligned, within + first);
    EmitRest(e, aligned + WINDOW, lo + first, lo + len);
    RangeJoin(was, lo, lo + first, lo + len);
  }

  lemma ReadyAligned(e: Emitter, x: nat)
    requires e.Ready(x) && Floor(x) == x
    ensures e.Frontier() <= x && Aligned(x)
  {
  }

  /** Emits the part of a run from the window boundary `cur` on. */
  method EmitRest(e: Emitter, cur: nat, at: nat, hi: nat)
    requires e.Valid(false) && e.Ready(at) && at <= hi <= TOP && hi - at <= RLE_MAX
    requires at < hi ==> at == cur && Aligned(cur) && e.Frontier() <= cur
    modifies e, e.r, e.r.data
    ensures e.Valid(false) && e.Ready(hi)
    ensures e.Emitted() == old(e.Emitted()) + Range(at, hi)
    ensures e.r.data == old(e.r.data) || fresh(e.r.data)
  {
    hide Layout, WfStream, AllFull, Members, WindowMembers, End, Aligned, Floor, PrefixCaps, AllSlots, Range, HoldsRun, CapsFor;
    ghost var was := e.Emitted();
    if at == hi {
      RangeEmpty(was, at, hi);
      return;
    }
    var next: nat := cur;
    var remaining := hi - at;
    RangeEmpty(was, cur, cur);
    if remaining >= WINDOW {
      var mid := remaining / WINDOW * WINDOW;
      AlignedWhole(remaining);
      e.EmitRle(false, cur, mid);
      AlignedSum(cur, mid);
      next := cur + mid;
      remaining := remaining - mid;
      FloorUnique(next, next);
      ReadyAligned(e, next);
    }
    RangeJoin(was, at, next, hi);
    if remaining > 0 {
      var lw := TailWords(remaining);
      HoldsRunMembers(next, lw, next, hi);
      RunCaps(lw, 0, remaining);
      FloorTop(next);
      FloorUnique(next, next);
      e.EmitWords(false, next, lw, CapsFor(remaining));
      FloorOf(next, remaining);
    } else {
      RangeEmpty(was + Range(at, next), next, hi);
    }
  }

  /** Emits the moved run of a run-length chunk, clipped at zero. */
  method EmitRunChunk(e: Emitter, c: Chunk, o: int, ghost full: bool, ghost pos: int)
    requires e.Valid(full) && At(e, pos) && pos <= c.start + o && (full ==> WholeWindows(o))
    requires WfChunk(c) && IsRle(c.desc) && forall x: nat :: ChunkHas(c, x) ==> x + o < TOP
    modifies e, e.r, e.r.data
    ensures e.Valid(full) && At(e, c.start + Span(c) + o)
    ensures e.Emitted() == old(e.Emitted()) + Shifted(ChunkMembers(c), o)
    ensures e.r.data == old(e.r.data) || fresh(e.r.data)
  {
    hide Layout, WfStream, AllFull, Members, WindowMembers, End, Aligned, Floor, Range, WfChunk, Shifted, ChunkHas;
    RunChunkFacts(c, o);
    RleMembers(c);
    var len := RleLen(c.desc);
    RangeShifted(c.start, c.start + len, o);
    var start := c.start + o;
    var clipped, n := start, len;
    if start < 0 {
      if len <= -start {
        if c.start + Span(c) + o > 0 {
          AtReady(e, pos, c.start + Span(c) + o);
        }
        return;
      }
      clipped, n := 0, len + start;
    }
    AtReady(e, pos, clipped);
    if full {
      WholeMove(c.start, o);
      FloorUnique(0, 0);
    }
    EmitMovedRun(e, clipped, n, full);
    ReadyLater(e, clipped + n, c.start + Span(c) + o);
  }

  lemma RunChunkFacts(c: Chunk, o: int)
    requires WfChunk(c) && IsRle(c.desc) && forall x: nat :: ChunkHas(c, x) ==> x + o < TOP
    ensures 1 <= RleLen(c.desc) <= Span(c) && RleLen(c.desc) <= RLE_MAX
    ensures c.start + RleLen(c.desc) + o <= TOP && Aligned(c.start) && Aligned(0)
  {
    assert ChunkHas(c, c.start + RleLen(c.desc) - 1);
  }

  // ---- the whole map ------------------------------------------------------------------------------

  /** The highest bit of a word. */
  method HighestBit(w: Word) returns (b: nat)
    requires w != ZERO
    ensures b < 64 && w[b] && forall k :: b < k < 64 ==> !w[k]
  {
    ghost var some := SetBitOf(w);
    b := 0;
    for k := 0 to 64
      invariant b < 64 && (b < k || b == 0)
      invariant (exists j :: 0 <= j < k && w[j]) ==> w[b]
      invariant forall j :: b < j < k ==> !w[j]
    {
      if w[k] {
        b := k;
      }
    }
    assert w[some];
  }

  /** The greatest member of a sparse chunk. */
  method SparseMaximum(c: Chunk) returns (x: nat)
    requires WfSparse(c)
    ensures ChunkHas(c, x) && forall y: nat :: ChunkHas(c, y) ==> y <= x
  {
    hide ChunkHas, FlagAt, MixedIn;
    x := 0;
    ghost var some := false;
    BelowStart(c);
    for v := 0 to SLOTS
      invariant some <==> exists u :: 0 <= u < v && Carries(FlagAt(c.desc, u))
      invariant some ==> ChunkHas(c, x) && x < c.start + 64 * v
      invariant forall y: nat :: ChunkHas(c, y) && y < c.start + 64 * v ==> some && y <= x
    {
      ghost var was := x;
      var f := FlagAt(c.desc, v);
      SlotBits(c, v);
      MixedPosition(c.desc, v);
      if f == Ones {
        x := c.start + 64 * v + 63;
        some := true;
      } else if f == Mixed {
        var b := HighestBit(c.vecs[MixedIn(c.desc, 0, v)]);
        x := c.start + 64 * v + b;
        some := true;
      }
      forall y: nat | ChunkHas(c, y) && y < c.start + 64 * (v + 1) ensures some && y <= x {
        if y >= c.start + 64 * v {
          assert SlotWord(c, v)[y - c.start - 64 * v];
        }
      }
    }
    InWindow(c);
  }

  /** The bits of one slot, as members. */
  lemma SlotBits(c: Chunk, v: nat)
    requires WfSparse(c) && v < SLOTS
    ensures forall k :: 0 <= k < 64 ==> ChunkHas(c, c.start + 64 * v + k) == SlotWord(c, v)[k]
    ensures forall y: nat :: c.start + 64 * v <= y < c.start + 64 * v + 64 ==> ChunkHas(c, y) == SlotWord(c, v)[y - c.start - 64 * v]
    ensures FlagAt(c.desc, v) == Ones ==> SlotWord(c, v) == ONES
    ensures FlagAt(c.desc, v) == Mixed ==> MixedIn(c.desc, 0, v) < |c.vecs| && SlotWord(c, v) == c.vecs[MixedIn(c.desc, 0, v)] && SlotWord(c, v) != ZERO
    ensures !Carries(FlagAt(c.desc, v)) ==> SlotWord(c, v) == ZERO
  {
    hide ChunkHas;
    MixedPosition(c.desc, v);
    forall k | 0 <= k < 64 ensures ChunkHas(c, c.start + 64 * v + k) == SlotWord(c, v)[k] {
      SlotBit(c, v, k);
    }
    forall y: nat | c.start + 64 * v <= y < c.start + 64 * v + 64 ensures ChunkHas(c, y) == SlotWord(c, v)[y - c.start - 64 * v] {
      SlotBit(c, v, y - c.start - 64 * v);
    }
  }

  lemma BelowStart(c: Chunk)
    requires !IsRle(c.desc)
    ensures forall y: nat :: ChunkHas(c, y) ==> c.start <= y
  {
  }

  lemma InWindow(c: Chunk)
    requires WfSparse(c)
    ensures forall y: nat :: ChunkHas(c, y) ==> y < c.start + WINDOW
  {
  }

  /** sm_maximum on a chunk-mode map that is not empty. */
  method Maximum(m: Map) returns (x: nat)
    requires m.Valid() && m.form.Chunked? && m.Chunks() != []
    ensures x in Members(m.Chunks()) && forall y: nat :: y in Members(m.Chunks()) ==> y <= x
  {
    hide Layout, WfStream, Members, Off;
    ghost var cs := m.Chunks();
    var n := m.Count();
    var p := LastChunk(m);
    var c := m.Load(p, n - 1);
    OneOfThem(cs, n - 1);
    if IsRle(c.desc) {
      x := c.start + RleLen(c.desc) - 1;
    } else {
      x := SparseMaximum(c);
    }
    LastIsHighest(cs, c, x);
  }

  lemma LastIsHighest(cs: seq<Chunk>, c: Chunk, x: nat)
    requires WfStream(cs) && cs != [] && c == cs[|cs| - 1] && ChunkHas(c, x)
    requires IsRle(c.desc) ==> x == c.start + RleLen(c.desc) - 1
    requires !IsRle(c.desc) ==> forall y: nat :: ChunkHas(c, y) ==> y <= x
    ensures x in Members(cs) && forall y: nat :: y in Members(cs) ==> y <= x
  {
    var n := |cs| - 1;
    ChunkHasBound(cs[n], x);
    forall y: nat | y in Members(cs) ensures y <= x {
      var i :| 0 <= i < |cs| && ChunkHas(cs[i], y);
      ChunkHasBound(cs[i], y);
    }
  }

  /** Some member would move past the last index. */
  ghost predicate Overflows(s: iset<nat>, o: int) {
    o > 0 && exists x: nat :: x in s && x + o > IDX_MAX
  }

  /** No member moves into the last window of the index space. */
  ghost predicate StaysBelow(s: iset<nat>, o: int) {
    forall x: nat :: x in s ==> x + o < TOP
  }

  /** Emits one chunk, moved by o. */
  method MoveChunk(e: Emitter, c: Chunk, o: int, ghost full: bool, ghost pos: int)
    requires e.Valid(full) && At(e, pos) && pos <= c.start + o && (full ==> WholeWindows(o))
    requires WfChunk(c) && Full(c) && forall x: nat :: ChunkHas(c, x) ==> x + o < TOP
    modifies e, e.r, e.r.data
    ensures e.Valid(full) && At(e, c.start + Span(c) + o)
    ensures e.Emitted() == old(e.Emitted()) + Shifted(ChunkMembers(c), o)
    ensures e.r.data == old(e.r.data) || fresh(e.r.data)
  {
    hide Layout, WfStream, AllFull, Members, WindowMembers, End, Aligned, Floor, PrefixCaps, WfChunk, ChunkMembers, Shifted, ChunkHas;
    if IsRle(c.desc) {
      EmitRunChunk(e, c, o, full, pos);
    } else {
      EmitSparse(e, c, o, full, pos);
    }
  }

  /** The chunks of m one by one, moved into the emitter. */
  method MoveEach(m: Map, o: int, e: Emitter, ghost full: bool)
    requires Open(m, true) && StaysBelow(Members(m.Chunks()), o) && (full ==> WholeWindows(o))
    requires e.Valid(full) && At(e, if o < 0 then o else 0) && e.r != m && e.r.data != m.data
    modifies e, e.r, e.r.data
    ensures e.Valid(full) && (e.r.data == old(e.r.data) || fresh(e.r.data))
    ensures e.Emitted() == old(e.Emitted()) + Shifted(Members(m.Chunks()), o)
  {
    hide Layout, WfStream, AllFull, Members, WindowMembers, End, Aligned, Floor, PrefixCaps, Shifted, ChunkMembers, WfChunk, ChunkHas, Off, StaysBelow, Span, Size, WholeWindows, Full, At, Emitter.Valid, Emitter.Emitted, Emitter.Frontier, Emitter.Ready;
    ghost var cs := m.Chunks();
    var n := m.Count();
    var p := 1;
    ghost var pos := if o < 0 then o else 0;
    StreamEnds(cs);
    EmptyMap();
    ShiftedSum(iset{}, iset{}, o);
    assert cs[..0] == [];
    for i := 0 to n
      invariant e.Valid(full) && (e.r.data == old(e.r.data) || fresh(e.r.data))
      invariant p == 1 + Off(cs, i)
      invariant At(e, pos) && (i < n ==> pos <= cs[i].start + o)
      invariant e.Emitted() == old(e.Emitted()) + Shifted(Members(cs[..i]), o)
    {
      var c := m.Load(p, i);
      StepFacts(cs, i, o);
      MoveChunk(e, c, o, full, pos);
      pos := c.start + Span(c) + o;
      p := p + 1 + Size(c.desc);
    }
    assert cs[..n] == cs;
  }

  /** Emits every chunk, moved by o. */
  method MoveChunks(m: Map, o: int) returns (r: Map)
    requires Open(m, true) && StaysBelow(Members(m.Chunks()), o)
    ensures fresh(r) && fresh(r.data) && Open(r, WholeWindows(o))
    ensures Members(r.Chunks()) == Shifted(Members(m.Chunks()), o)
  {
    hide Layout, WfStream, AllFull, Members, WindowMembers, End, PrefixCaps, Shifted, ChunkMembers, Off, StaysBelow, WholeWindows;
    var cap := m.used * 2 + 34;
    r := new Map(if cap > 128 then cap else 128);
    EmptyMap();
    EmptyEnd();
    ghost var full := WholeWindows(o);
    var e := new Emitter(r, full);
    MoveEach(m, o, e, full);
    e.Flush(full);
  }

  lemma EmptyEnd()
    ensures End([]) == 0
  {
  }

  lemma StepFacts(cs: seq<Chunk>, i: nat, o: int)
    requires WfStream(cs) && AllFull(cs) && i < |cs| && StaysBelow(Members(cs), o)
    ensures WfChunk(cs[i]) && Full(cs[i]) && forall x: nat :: ChunkHas(cs[i], x) ==> x + o < TOP
    ensures i + 1 < |cs| ==> cs[i].start + Span(cs[i]) <= cs[i + 1].start
    ensures Shifted(Members(cs[..i + 1]), o) == Shifted(Members(cs[..i]), o) + Shifted(ChunkMembers(cs[i]), o)
    ensures Off(cs, i + 1) == Off(cs, i) + 1 + Size(cs[i].desc)
  {
    hide WfChunk, ChunkMembers, Off;
    assert cs[..i + 1] == cs[..i] + [cs[i]];
    HasConcat(cs[..i], [cs[i]]);
    HasOne(cs[i]);
    ShiftedSum(Members(cs[..i]), ChunkMembers(cs[i]), o);
    OffNext(cs, i);
    forall x: nat | ChunkHas(cs[i], x) ensures x + o < TOP {
      MemberOf(cs, i, x);
    }
  }

  /** sm_offset on a chunk-mode map. */
  method OffsetChunks(m: Map, o: int) returns (r: Map?)
    requires Open(m, true) && ShortRuns(Members(m.Chunks()))
    requires StaysBelow(Members(m.Chunks()), o) || Overflows(Members(m.Chunks()), o)
    ensures r != null ==> fresh(r) && fresh(r.data) && r.Valid() && r.Set() == Shifted(Members(m.Chunks()), o)
    ensures r != null && WholeWindows(o) ==> r.Strict()
    ensures r != null && o != 0 && r.form.Chunked? ==> NoneJoin(r.Chunks(), |r.Chunks()|)
    ensures o != 0 ==> (r == null <==> Shifted(Members(m.Chunks()), o) == iset{} || Overflows(Members(m.Chunks()), o))
    ensures o == 0 ==> r != null
  {
    hide NoneJoin, Layout, WfStream, AllFull, Members, Off, Shifted, ShortRuns, StaysBelow, Overflows;
    ghost var s := Members(m.Chunks());
    ChunkedForm(m.form);
    if o == 0 {
      ShiftedNone(s);
      var w := Copy(m);
      return w;
    }
    var n := m.Count();
    if n == 0 {
      EmptyMap();
      NothingShifted(s, o);
      return null;
    }
    var max := Maximum(m);
    MaximumDecides(s, max, o);
    if o > 0 && max > IDX_MAX - o {
      return null;
    }
    if o < 0 && max < -o {
      return null;
    }
    var w := MoveChunks(m, o);
    ghost var was := w.Chunks();
    EmptyIff(was);
    var k := w.Count();
    if k == 0 {
      return null;
    }
    ShortShifted(s, o);
    var _ := CoalesceMap(w);
    ChunkedForm(w.form);
    return w;
  }

  lemma ShiftedNone(s: iset<nat>)
    ensures Shifted(s, 0) == s
  {
  }

  lemma NothingShifted(s: iset<nat>, o: int)
    requires s == iset{}
    ensures Shifted(s, o) == iset{} && !Overflows(s, o)
  {
  }

  /** The greatest member decides both early exits. */
  lemma MaximumDecides(s: iset<nat>, max: nat, o: int)
    requires max in s && forall y: nat :: y in s ==> y <= max
    ensures Overflows(s, o) <==> o > 0 && max > IDX_MAX - o
    ensures Shifted(s, o) == iset{} <==> o < 0 && max < -o
  {
    if max + o >= 0 {
      assert Lands(max + o, o);
      assert max + o in Shifted(s, o);
    }
  }

  /**
   * sm_offset: a map that has x exactly when x - o is in the given one.  There is none when
   * nothing is left, or when a member would pass the last index.  Moved by whole windows it has
   * no unused slots, so every other operation takes it.
   */
  method Offset(m: Map?, o: int) returns (r: Map?)
    requires Usable(m) && ShortRuns(SetOf(m))
    requires StaysBelow(SetOf(m), o) || Overflows(SetOf(m), o)
    ensures r != null ==> fresh(r) && fresh(r.data) && r.Valid() && r.Set() == Shifted(SetOf(m), o)
    ensures r != null && WholeWindows(o) ==> r.Strict()
    ensures r != null && o != 0 && r.form.Chunked? ==> NoneJoin(r.Chunks(), |r.Chunks()|)
    ensures m != null && r != null && m.form.Small? ==> Lean(r.form)
    ensures o != 0 ==> (r == null <==> Shifted(SetOf(m), o) == iset{} || Overflows(SetOf(m), o))
    ensures o == 0 ==> (r == null <==> m == null)
  {
    hide Lean, NoneJoin, Layout, WfStream, AllFull, Members, SmallMembers, Off, Shifted, ShortRuns, StaysBelow, Overflows, WfForm, FormMembers;
    if m == null {
      NothingShifted(iset{}, o);
      return null;
    }
    if m.IsSmall() {
      SmallForm(m.form);
      var v := Materialize(m);
      var w := OffsetChunks(v, o);
      if w != null {
        TryDemote(w);
      }
      return w;
    }
    ChunkedForm(m.form);
    r := OffsetChunks(m, o);
  }
}
