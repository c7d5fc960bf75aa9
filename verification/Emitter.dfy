// The ordered emitter: output windows arrive in ascending order, pieces of the
// same window are merged, and every window is appended once.
module Emitter {
  import opened Words
  import opened Chunks
  import opened Streams
  import opened Codec
  import opened Maps
  import opened Appends

  /** The used slots come first, and unused slots carry nothing. */
  ghost predicate PrefixCaps(ws: Window, caps: seq<bool>) {
    && |caps| == SLOTS
    && (forall u, v :: 0 <= u < v < SLOTS && caps[v] ==> caps[u])
    && (forall v :: 0 <= v < SLOTS && !caps[v] ==> ws[v] == ZERO)
  }

  lemma {:induction false} UnusedAbove(d: Word, k: nat, n: nat)
    requires k <= n <= SLOTS
    requires forall v :: 0 <= v < k ==> !FlagAt(d, v).Unused?
    ensures UnusedBelow(d, n) <= n - k
  {
    if k < n {
      UnusedAbove(d, k, n - 1);
    } else {
      NoUnused(d, n);
    }
  }

  /** Encoding such a window keeps every data-bearing slot below the chunk's capacity. */
  lemma PrefixChunkWf(start: nat, ws: Window, caps: seq<bool>)
    requires PrefixCaps(ws, caps) && Aligned(start) && start + WINDOW <= TOP
    requires exists v :: 0 <= v < SLOTS && ws[v] != ZERO
    ensures var c := SparseChunk(start, ws, caps[31 := true]);
      && WfChunk(c) && WfSparse(c) && Span(c) == WINDOW
      && ChunkMembers(c) == WindowMembers(start, ws)
      && (caps == AllSlots() ==> Full(c))
  {
    hide Aligned;
    var caps' := caps[31 := true];
    var c := SparseChunk(start, ws, caps');
    ExpandSparse(start, ws, caps');
    var some :| 0 <= some < SLOTS && ws[some] != ZERO;
    assert Carries(FlagAt(c.desc, some));
    forall v | 0 <= v < SLOTS && Carries(FlagAt(c.desc, v)) ensures 64 * (v + 1) <= Cap(c) {
      PrefixCap(c.desc, ws, caps, v);
    }
    if caps == AllSlots() {
      assert caps' == AllSlots();
    }
  }

  lemma PrefixCap(d: Word, ws: Window, caps: seq<bool>, v: nat)
    requires PrefixCaps(ws, caps) && v < SLOTS
    requires d == DescOf(ws, caps[31 := true]) && Carries(FlagAt(d, v))
    ensures 64 * (v + 1) <= WINDOW - 64 * UnusedBelow(d, SLOTS)
  {
    assert caps[v];
    forall u | 0 <= u <= v ensures !FlagAt(d, u).Unused? {
    }
    if v < 31 {
      UnusedAbove(d, v + 1, 31);
      assert UnusedBelow(d, SLOTS) == UnusedBelow(d, 31);
    } else {
      NoUnused(d, SLOTS);
    }
  }

  lemma OrPrefixCaps(a: Window, ac: seq<bool>, b: Window, bc: seq<bool>, r: Window, rc: seq<bool>)
    requires PrefixCaps(a, ac) && PrefixCaps(b, bc) && |rc| == SLOTS
    requires forall v :: 0 <= v < SLOTS ==> rc[v] == (ac[v] || bc[v])
    requires forall v :: 0 <= v < SLOTS ==> r[v] == if bc[v] then Or(a[v], b[v]) else a[v]
    ensures PrefixCaps(r, rc)
    ensures forall start :: WindowMembers(start, r) == WindowMembers(start, a) + WindowMembers(start, b)
    ensures ac == AllSlots() && bc == AllSlots() ==> rc == AllSlots()
  {
    forall v, k | 0 <= v < SLOTS && 0 <= k < 64 ensures r[v][k] == (a[v][k] || b[v][k]) {
    }
    forall start ensures WindowMembers(start, r) == WindowMembers(start, a) + WindowMembers(start, b) {
      OrMembers(start, r, a, b);
    }
  }

  class Emitter {
    const r: Map
    var words: Window
    var caps: seq<bool>
    var start: nat
    var pending: bool

    ghost predicate Valid(full: bool)
      reads this, r, r.data
    {
      && Open(r, full)
      && (pending ==> PendingOk(full))
    }

    ghost predicate PendingOk(full: bool)
      reads this, r
    {
      && PrefixCaps(words, caps)
      && (full ==> caps == AllSlots())
      && Aligned(start) && start + WINDOW <= TOP
      && End(r.Chunks()) <= start
    }

    /** Everything emitted so far, flushed or pending. */
    ghost function Emitted(): iset<nat>
      reads this, r
    {
      if pending then Members(r.Chunks()) + WindowMembers(start, words) else Members(r.Chunks())
    }

    /** Later emits must begin at or past this index, or go to the pending window. */
    ghost function Frontier(): nat
      reads this, r
    {
      if pending then start + WINDOW else End(r.Chunks())
    }

    /** A run beginning at x can be emitted next. */
    ghost predicate Ready(x: nat)
      reads this, r
    {
      Frontier() <= Floor(x) || (pending && start == Floor(x) && !Aligned(x))
    }

    constructor (r: Map, ghost full: bool)
      requires Open(r, full)
      ensures this.r == r && Valid(full) && !pending
      ensures Emitted() == Members(r.Chunks()) && Frontier() == End(r.Chunks())
    {
      this.r := r;
      words, caps, start, pending := NoWords(), AllSlots(), 0, false;
    }

    /** Appends the pending window. */
    method Flush(ghost full: bool)
      requires Valid(full)
      modifies this, r, r.data
      ensures Valid(full) && !pending
      ensures Emitted() == old(Emitted()) && Frontier() <= old(Frontier())
      ensures r.data == old(r.data) || fresh(r.data)
    {
      hide Layout, WfStream, AllFull, Members, WindowMembers, End, Aligned, PrefixCaps, AllSlots, DescOf, VecsIn, FlagAt, WfChunk;
      if !pending {
        return;
      }
      pending := false;
      assert |caps| == 32 by {
        CapsLength(words, caps);
      }
      var some, d, vecs := EncodeSparse(words, caps);
      UnusedLast(words, caps);
      if !some {
        assert forall v :: 0 <= v < SLOTS ==> words[v] == ZERO;
        WindowEmpty(start, words);
        return;
      }
      PrefixChunkWf(start, words, caps);
      WfAppend(r.Chunks(), Chunk(start, d, vecs));
      AppendSparse(r, start, d, vecs);
    }

    /** Emits a window, merging it into the pending one when that is the same window. */
    method EmitWords(ghost full: bool, start: nat, ws: Window, cs: seq<bool>)
      requires Valid(full) && PrefixCaps(ws, cs) && (full ==> cs == AllSlots())
      requires Aligned(start) && start + WINDOW <= TOP
      requires (pending && this.start == start) || Frontier() <= start
      modifies this, r, r.data
      ensures Valid(full) && pending && this.start == start
      ensures Emitted() == old(Emitted()) + WindowMembers(start, ws)
      ensures r.data == old(r.data) || fresh(r.data)
    {
      hide Layout, WfStream, AllFull, Members, WindowMembers, End, Aligned, PrefixCaps, AllSlots;
      if pending && this.start == start {
        Merge(full, ws, cs);
        return;
      }
      Flush(full);
      words, caps := ws, cs;
      this.start := start;
      pending := true;
    }

    /** Ors a window into the pending one, slot by used slot. */
    method Merge(ghost full: bool, ws: Window, cs: seq<bool>)
      requires Valid(full) && pending && PrefixCaps(ws, cs) && (full ==> cs == AllSlots())
      modifies this
      ensures Valid(full) && pending && start == old(start)
      ensures Emitted() == old(Emitted()) + WindowMembers(start, ws)
    {
      hide Layout, WfStream, AllFull, Members, WindowMembers, End, Aligned, AllSlots;
      ghost var was, wasCaps := words, caps;
      var w, c := words, caps;
      for i := 0 to SLOTS
        invariant |w| == |c| == SLOTS
        invariant forall v :: 0 <= v < SLOTS ==> w[v] == if v < i && cs[v] then Or(was[v], ws[v]) else was[v]
        invariant forall v :: 0 <= v < SLOTS ==> c[v] == (wasCaps[v] || (v < i && cs[v]))
      {
        if cs[i] {
          w := w[i := Or(w[i], ws[i])];
          c := c[i := true];
        }
      }
      OrPrefixCaps(was, wasCaps, ws, cs, w, c);
      words, caps := w, c;
    }

    /** Emits a run that begins on a window boundary: whole windows as a run, the rest as words. */
    method EmitRle(ghost full: bool, start: nat, len: nat)
      requires Valid(full) && Aligned(start) && Frontier() <= start
      requires 1 <= len <= RLE_MAX && start + len <= TOP
      modifies this, r, r.data
      ensures Valid(full) && Ready(start + len)
      ensures Emitted() == old(Emitted()) + Range(start, start + len)
      ensures r.data == old(r.data) || fresh(r.data)
    {
      hide Layout, WfStream, AllFull, Members, WindowMembers, End, Aligned, Floor, PrefixCaps, AllSlots, Range, HoldsRun, Open;
      ghost var was := Emitted();
      var whole := len / WINDOW * WINDOW;
      var rem := len - whole;
      AlignedWhole(len);
      AlignedConstants();
      AlignedSum(start, whole);
      var tail := start + whole;
      if whole > 0 {
        Flush(full);
        AppendRleChunk(r, full, start, whole, whole);
      } else {
        RangeEmpty(was, start, tail);
      }
      FloorOf(tail, rem);
      RangeJoin(was, start, tail, start + len);
      if rem == 0 {
        RangeEmpty(was + Range(start, tail), tail, start + len);
        return;
      }
      var w := TailWords(rem);
      HoldsRunMembers(tail, w, tail, tail + rem);
      AllSlotsPrefix(w);
      FloorTop(tail);
      FloorUnique(tail, tail);
      EmitWords(full, tail, w, AllSlots());
    }

    /** Emits the run [lo, hi): the part before the first boundary as words, the rest from the boundary on. */
    method EmitRun(ghost full: bool, lo: nat, hi: nat)
      requires Valid(full) && (lo < hi ==> Ready(lo))
      requires hi - lo <= RLE_MAX && hi <= TOP
      modifies this, r, r.data
      ensures Valid(full) && (lo < hi ==> Ready(hi))
      ensures lo >= hi ==> unchanged(this) && unchanged(r) && unchanged(r.data)
      ensures Emitted() == old(Emitted()) + Range(lo, hi)
      ensures r.data == old(r.data) || fresh(r.data)
    {
      hide Layout, WfStream, AllFull, Members, WindowMembers, End, Aligned, Floor, PrefixCaps, AllSlots, Range, HoldsRun;
      ghost var was := Emitted();
      if lo >= hi {
        RangeEmpty(was, lo, hi);
        return;
      }
      var bodyLo := lo;
      var ws := Floor(lo);
      if ws < lo {
        bodyLo := EmitHead(full, lo, hi);
      } else {
        RangeEmpty(was, lo, bodyLo);
      }
      RangeJoin(was, lo, bodyLo, hi);
      if bodyLo < hi {
        EmitRle(full, bodyLo, hi - bodyLo);
      } else {
        RangeEmpty(was + Range(lo, bodyLo), bodyLo, hi);
      }
    }

    /** Emits the bits of [lo, hi) that lie in lo's window, where lo is not a window start. */
    method EmitHead(ghost full: bool, lo: nat, hi: nat) returns (stop: nat)
      requires Valid(full) && Ready(lo) && Floor(lo) < lo < hi
      requires hi <= TOP
      modifies this, r, r.data
      ensures Valid(full) && lo < stop <= hi && Ready(stop)
      ensures stop < hi ==> Aligned(stop) && Frontier() <= stop
      ensures Emitted() == old(Emitted()) + Range(lo, stop)
      ensures r.data == old(r.data) || fresh(r.data)
    {
      hide Layout, WfStream, AllFull, Members, WindowMembers, End, Aligned, Floor, PrefixCaps, AllSlots, Range, HoldsRun;
      var aligned := Floor(lo) + WINDOW;
      stop := if aligned < hi then aligned else hi;
      var w := HeadWords(lo - Floor(lo), stop - Floor(lo));
      HoldsRunMembers(Floor(lo), w, lo, stop);
      AllSlotsPrefix(w);
      AlignedConstants();
      AlignedSum(Floor(lo), WINDOW);
      FloorTop(lo);
      EmitWords(full, Floor(lo), w, AllSlots());
      FloorOf(Floor(lo), stop - Floor(lo));
    }
  }

  /** Windows of one and the same floor, and the boundary after it. */
  lemma FloorOf(f: nat, n: nat)
    requires Aligned(f) && n <= WINDOW
    ensures n < WINDOW ==> Floor(f + n) == f && (n > 0 ==> !Aligned(f + n))
    ensures n == WINDOW ==> Floor(f + n) == f + WINDOW && Aligned(f + n)
  {
    AlignedConstants();
    AlignedSum(f, WINDOW);
    if n < WINDOW {
      FloorUnique(f + n, f);
      AlignedMod(f);
      AlignedMod(f + n);
    } else {
      FloorUnique(f + n, f + WINDOW);
    }
  }

  lemma AllSlotsPrefix(ws: Window)
    ensures PrefixCaps(ws, AllSlots())
  {
  }

  method TailWords(rem: nat) returns (w: Window)
    requires rem < WINDOW
    ensures HoldsRun(w, 0, rem)
  {
    w := NoWords();
    var bit := 0;
    while bit < rem
      invariant bit % 64 == 0 && bit < rem + 64
      invariant HoldsRun(w, 0, if bit < rem then bit else rem)
    {
      var slot := bit / 64;
      var n := if rem - bit < 64 then rem - bit else 64;
      w := w[slot := LowMask(n)];
      bit := bit + 64;
    }
  }

  method HeadWords(lo: nat, hi: nat) returns (w: Window)
    requires lo <= hi <= WINDOW
    ensures HoldsRun(w, lo, hi)
  {
    w := NoWords();
    for bit := lo to hi
      invariant HoldsRun(w, lo, bit)
    {
      var slot := bit / 64;
      w := w[slot := SetBit(w[slot], bit % 64)];
    }
  }

  lemma CapsLength(ws: Window, caps: seq<bool>)
    requires PrefixCaps(ws, caps)
    ensures |caps| == 32
  {
  }

  lemma UnusedLast(ws: Window, caps: seq<bool>)
    requires PrefixCaps(ws, caps)
    ensures |caps| == 32 && Kept(ws, caps) == ws
    ensures forall v :: 0 <= v < SLOTS && ws[v] != ZERO ==> Claimed(caps)[v]
  {
    assert !caps[31] ==> ws[31 := ZERO] == ws;
  }
}
