// Adding one index to a chunk-mode map: every arm of the chunk setter.
module Setting {
  import opened Words
  import opened Chunks
  import opened Streams
  import opened Codec
  import opened Maps
  import opened RunLengths
  import opened Appends
  import opened Locate
  import opened Edits
  import opened Coalesce
  import opened Pivot
  import opened Separate
  import opened Slots
  import opened Sizes

  /** The stream after idx was added, with the touched chunk at k ready for coalescing. */
  ghost predicate Added(was: seq<Chunk>, now: seq<Chunk>, idx: nat, k: nat) {
    && AllFull(now)
    && Members(now) == Members(was) + iset{idx}
    && k < |now|
    && NeighbourSafe(now, k, idx, true)
  }

  lemma SpanSafe(cs: seq<Chunk>, k: nat, idx: nat)
    requires WfStream(cs) && k < |cs| && idx < cs[k].start + Span(cs[k])
    ensures NeighbourSafe(cs, k, idx, true)
  {
  }

  // ---- a new chunk ------------------------------------------------------------------

  /** The chunk of a single index. */
  function Lone(idx: nat): Chunk {
    FullChunk(Floor(idx), NoWords()[(idx - Floor(idx)) / 64 := SetBit(ZERO, (idx - Floor(idx)) % 64)])
  }

  lemma BlankDesc()
    ensures DescOf(NoWords(), AllSlots()) == ZERO
  {
    SameFlags(DescOf(NoWords(), AllSlots()), ZERO);
  }

  lemma LoneWords(idx: nat)
    ensures var v, b := (idx - Floor(idx)) / 64, (idx - Floor(idx)) % 64;
      Enc(Lone(idx)) == [U64(Floor(idx)), SetFlag(ZERO, v, Mixed), SetBit(ZERO, b)]
  {
    hide FlagAt, SetFlag, DescOf, SetBit, VecsIn, MixedIn, U64;
    var v, b := (idx - Floor(idx)) / 64, (idx - Floor(idx)) % 64;
    var w := SetBit(ZERO, b);
    SetNotZero(ZERO, b);
    LoneNotOnes(b);
    BlankDesc();
    SlotDesc(NoWords(), v, w);
    var d, ws := SetFlag(ZERO, v, Mixed), NoWords()[v := w];
    VecsAround(d, ws, v);
    BlankFlags();
    assert FlagAt(d, v) == Mixed;
    NoneMixed(d, 0, v);
    NoneMixed(d, v + 1, SLOTS);
    assert VecsIn(d, ws, 0, SLOTS) == [w];
  }

  lemma BlankFlags()
    ensures forall v :: 0 <= v < SLOTS ==> FlagAt(ZERO, v) == Zeros
  {
    OnesFlags();
  }

  lemma NoneMixed(d: Word, lo: nat, hi: nat)
    requires lo <= hi <= SLOTS
    requires forall v :: lo <= v < hi ==> !FlagAt(d, v).Mixed?
    ensures MixedIn(d, lo, hi) == 0
  {
    if lo < hi {
      NoneMixed(d, lo, hi - 1);
    }
  }

  lemma LoneNotOnes(b: nat)
    requires b < 64
    ensures SetBit(ZERO, b) != ONES
  {
    assert !SetBit(ZERO, b)[(b + 1) % 64] && ONES[(b + 1) % 64];
  }

  lemma LoneFacts(idx: nat)
    requires idx < TOP
    ensures var c := Lone(idx);
      && WfChunk(c) && Full(c) && c.start == Floor(idx) && Span(c) == WINDOW
      && ChunkMembers(c) == iset{idx} && IsRunLength(c, 0) && !IsRle(c.desc)
  {
    hide FullChunk, WfChunk, Full, ChunkHas, SetBit, Floor, IsRunLength, ChunkMembers, Aligned, WindowMembers;
    var f := Floor(idx);
    var v, b := (idx - f) / 64, (idx - f) % 64;
    var ws := NoWords()[v := SetBit(ZERO, b)];
    SetNotZero(ZERO, b);
    assert ws[v] != ZERO;
    FloorTop(idx);
    FullChunkWf(f, ws);
    FullChunkMembers(f, ws);
    BitMembers(f, NoWords(), v, b, Set);
    WindowEmpty(f, NoWords());
    LoneStart(f, ws);
    LoneNoRun(Lone(idx), idx);
  }

  lemma LoneStart(f: nat, ws: Window)
    ensures FullChunk(f, ws).start == f
  {
  }

  lemma LoneNoRun(c: Chunk, idx: nat)
    requires !IsRle(c.desc) && ChunkMembers(c) == iset{idx}
    ensures IsRunLength(c, 0)
  {
    forall n: nat | n >= 64 ensures !PrefixRun(c, n) {
      var x := if idx == c.start then c.start + 1 else c.start;
      assert x !in ChunkMembers(c);
      assert Between(c.start, x, c.start + n);
    }
  }

  /** The edits for a chunk of idx alone: its words go in at p and the chunk count, n before, goes up. */
  method WriteLone(m: Map, p: nat, idx: nat, n: nat)
    requires 0 < p <= m.used && m.used + 3 <= m.data.Length
    modifies m`used, m.data
    ensures m.used == old(m.used) + 3
    ensures m.data[..m.used] == (old(m.data[..m.used])[..p] + Enc(Lone(idx)) + old(m.data[..m.used])[p..])[0 := CountHeader(n + 1)]
  {
    hide SetFlag, SetBit, CountHeader, U64, Enc, Lone;
    LoneWords(idx);
    ghost var w := m.data[..m.used];
    m.Insert(p, [ZERO, ZERO, ZERO]);
    m.Put(0, CountHeader(n + 1));
    var start := Floor(idx);
    m.Put(p, U64(start));
    var v, b := (idx - start) / 64, (idx - start) % 64;
    m.Put(p + 1, SetFlag(ZERO, v, Mixed));
    m.Put(p + 2, SetBit(ZERO, b));
    OpenedWords(w, p, CountHeader(n + 1), U64(start), SetFlag(ZERO, v, Mixed), SetBit(ZERO, b));
  }

  /** Opens three words at p for a new chunk k and sets idx in it. */
  method InsertFresh(m: Map, p: nat, idx: nat, ghost k: nat)
    requires m.Valid() && m.form.Chunked? && m.Strict() && k <= |m.Chunks()| && p == 1 + Off(m.Chunks(), k)
    requires m.used + 3 <= m.data.Length && idx < TOP
    requires k > 0 ==> m.Chunks()[k - 1].start + Span(m.Chunks()[k - 1]) <= idx
    requires k < |m.Chunks()| ==> idx < m.Chunks()[k].start
    modifies m, m.data
    ensures m.Valid() && m.form.Chunked? && m.data == old(m.data)
    ensures Added(old(m.Chunks()), m.Chunks(), idx, k) && m.used == old(m.used) + 3
    ensures p == 1 + Off(m.Chunks(), k) && IsRunLength(m.Chunks()[k], 0)
    ensures m.Chunks()[k].start == Floor(idx) && !IsRle(m.Chunks()[k].desc) && |m.Chunks()| == |old(m.Chunks())| + 1
    ensures NoneJoin(old(m.Chunks()), |old(m.Chunks())|) ==> JoinsOnlyAt(m.Chunks(), k)
  {
    hide WfForm, Layout, WfStream, AllFull, Off, Members, IsRunLength, CountHeader, Enc, NeighbourSafe, Lone, WfChunk, NoneJoin, JoinsOnlyAt;
    ghost var cs := m.Chunks();
    ghost var cs' := cs[..k] + [Lone(idx)] + cs[k..];
    ChunkedWf(cs);
    ChunkedWf(cs');
    assert m.form == Chunked(cs) && m.used == |Layout(Chunked(cs))|;
    LoneFacts(idx);
    LoneRoom(cs, k, idx);
    ChunkInserted(cs, k, Lone(idx));
    LayoutInserted(cs, k, Lone(idx), p);
    var n := m.Count();
    WriteLone(m, p, idx, n);
    m.form := Chunked(cs');
    LonePlace(cs, k, Lone(idx));
    SpanSafe(m.Chunks(), k, idx);
    InsertedJoins(cs, k, Lone(idx));
  }

  lemma OpenedWords(w: seq<Word>, p: nat, h: Word, a: Word, b: Word, c: Word)
    requires 0 < p <= |w|
    ensures (w[..p] + [ZERO, ZERO, ZERO] + w[p..])[0 := h][p := a][p + 1 := b][p + 2 := c] == (w[..p] + [a, b, c] + w[p..])[0 := h]
  {
  }

  lemma LoneRoom(cs: seq<Chunk>, k: nat, idx: nat)
    requires WfStream(cs) && k <= |cs| && idx < TOP
    requires k > 0 ==> cs[k - 1].start + Span(cs[k - 1]) <= idx
    requires k < |cs| ==> idx < cs[k].start
    ensures k > 0 ==> cs[k - 1].start + Span(cs[k - 1]) <= Floor(idx)
    ensures k < |cs| ==> Floor(idx) + WINDOW <= cs[k].start
  {
    if k > 0 {
      SpanPositive(cs[k - 1]);
      AboveStart(cs[k - 1].start + Span(cs[k - 1]), idx);
    }
    if k < |cs| {
      AlignedStep(Floor(idx), cs[k].start);
    }
  }

  lemma LonePlace(cs: seq<Chunk>, k: nat, c: Chunk)
    requires k <= |cs|
    ensures var cs' := cs[..k] + [c] + cs[k..];
      k < |cs'| && cs'[k] == c && Off(cs', k) == Off(cs, k)
  {
    assert (cs[..k] + [c] + cs[k..])[..k] == cs[..k];
  }

  // ---- runs -----------------------------------------------------------------------------

  lemma UnionLast(a: iset<nat>, b: iset<nat>, c: iset<nat>, d: iset<nat>)
    ensures a + (b + c) + d == a + b + d + c
  {
  }

  /** The chunk at p, which has no payload, becomes the run [start, start + len + 1). */
  lemma RunExtended(cs: seq<Chunk>, k: nat, cap: nat, len: nat)
    requires WfStream(cs) && AllFull(cs) && k < |cs|
    requires ChunkMembers(cs[k]) == Range(cs[k].start, cs[k].start + len)
    requires ShortRuns(Members(cs) + iset{cs[k].start + len})
    requires Aligned(cap) && len + 1 <= cap && cs[k].start + cap <= TOP
    requires cap <= RLE_LIMIT
    requires k + 1 < |cs| ==> cs[k].start + cap <= cs[k + 1].start
    ensures var c' := RleChunk(cs[k].start, cap, len + 1);
      && WfStream(cs[k := c'])
      && Added(cs, cs[k := c'], cs[k].start + len, k)
  {
    hide WfStream, AllFull, Members, Range, Aligned, ShortRuns, WfChunk, NeighbourSafe, ChunkMembers, IsRle, Floor, Span;
    var idx := cs[k].start + len;
    var c' := RleChunk(cs[k].start, cap, len + 1);
    var pre, post := cs[..k], cs[k + 1..];
    assert cs == pre + [cs[k]] + post;
    assert cs[k := c'] == pre + [c'] + post;
    OneOfThem(cs, k);
    RleChunkWf(cs[k].start, cap, len + 1);
    RleChunkMembers(cs[k].start, cap, len + 1);
    WfOne(c');
    assert post != [] ==> post[0] == cs[k + 1];
    WfSplice(pre, [cs[k]], post, [c']);
    MembersSplit(pre, [cs[k]], post);
    HasOne(cs[k]);
    HasOne(c');
    RangePlusOne(cs[k].start, idx);
    UnionLast(Members(pre), Range(cs[k].start, idx), iset{idx}, Members(post));
    SpanSafe(cs[k := c'], k, idx);
  }

  lemma RangePlusOne(lo: nat, hi: nat)
    requires lo <= hi
    ensures Range(lo, hi + 1) == Range(lo, hi) + iset{hi}
  {
  }

  /** The extended run is a run of members, hence short. */
  lemma ExtendedShort(cs: seq<Chunk>, k: nat, len: nat)
    requires k < |cs| && ChunkMembers(cs[k]) == Range(cs[k].start, cs[k].start + len)
    requires ShortRuns(Members(cs) + iset{cs[k].start + len})
    ensures len + 1 <= RLE_LIMIT
  {
    var lo, hi := cs[k].start, cs[k].start + len + 1;
    var s := Members(cs) + iset{cs[k].start + len};
    assert Range(lo, hi) <= s by {
      forall x: nat | x in Range(lo, hi) ensures x in s {
        if x < lo + len {
          assert x in Range(lo, lo + len);
          assert ChunkHas(cs[k], x);
        }
      }
    }
  }

  /** How far a run of length len may claim: to its window's end, short of the next chunk. */
  method CapacityLimit(m: Map, p: nat, start: nat, len: nat, ghost k: nat) returns (cap: nat)
    requires m.Valid() && m.form.Chunked? && k < |m.Chunks()| && p == 1 + Off(m.Chunks(), k) && start == m.Chunks()[k].start
    requires m.Chunks()[k].vecs == []
    requires start + len <= TOP && 0 < len <= RLE_LIMIT
    requires k + 1 < |m.Chunks()| ==> start + len <= m.Chunks()[k + 1].start
    ensures Aligned(cap) && len <= cap <= RLE_LIMIT && start + cap <= TOP
    ensures k + 1 < |m.Chunks()| ==> start + cap <= m.Chunks()[k + 1].start
  {
    hide Layout, WfStream, Off, Aligned;
    ghost var cs := m.Chunks();
    assert m.form == Chunked(cs) && m.used == |Layout(Chunked(cs))|;
    LimitFacts(cs, k, len);
    NextWords(cs, k);
    MoreChunks(cs, k + 1);
    cap := RoundUp(start + len) - start;
    var next := p + 2;
    if next + 1 < m.used {
      var c := m.Load(next, k + 1);
      cap := Min(cap, c.start - start);
    }
    if cap < len {
      cap := len;
    }
    cap := Min(cap, RLE_MAX);
  }

  lemma NextWords(cs: seq<Chunk>, k: nat)
    requires k < |cs| && cs[k].vecs == []
    ensures Off(cs, k + 1) == Off(cs, k) + 2
  {
    StreamAt(cs, k);
  }

  lemma LimitFacts(cs: seq<Chunk>, k: nat, len: nat)
    requires WfStream(cs) && k < |cs| && cs[k].start + len <= TOP && 0 < len <= RLE_LIMIT
    requires k + 1 < |cs| ==> cs[k].start + len <= cs[k + 1].start
    ensures var cap := RoundUp(cs[k].start + len) - cs[k].start;
      Aligned(cap) && len <= cap <= RLE_LIMIT && cs[k].start + cap <= TOP
    ensures k + 1 < |cs| ==> RoundUp(cs[k].start + len) <= cs[k + 1].start
  {
    hide Aligned, RoundUp;
    var start := cs[k].start;
    OneOfThem(cs, k);
    AlignedConstants();
    RoundUpFacts(start + len, TOP);
    if k + 1 < |cs| {
      OneOfThem(cs, k + 1);
      RoundUpFacts(start + len, cs[k + 1].start);
    }
    AlignedDiff(RoundUp(start + len), start);
    RoundUpSmall(len, start, RoundUp(start + len) - start);
  }

  /** Rewrites the payload-free chunk at p as the run one longer than len. */
  method WriteRun(m: Map, p: nat, d: Word, cap: nat, len: nat, ghost k: nat)
    requires m.Valid() && m.form.Chunked? && m.Strict() && k < |m.Chunks()| && p == 1 + Off(m.Chunks(), k)
    requires m.Chunks()[k].vecs == [] && IsRle(d)
    requires ChunkMembers(m.Chunks()[k]) == Range(m.Chunks()[k].start, m.Chunks()[k].start + len)
    requires ShortRuns(Members(m.Chunks()) + iset{m.Chunks()[k].start + len})
    requires Aligned(cap) && len + 1 <= cap <= RLE_LIMIT && m.Chunks()[k].start + cap <= TOP
    requires k + 1 < |m.Chunks()| ==> m.Chunks()[k].start + cap <= m.Chunks()[k + 1].start
    modifies m, m.data
    ensures m.Valid() && m.form.Chunked? && m.data == old(m.data) && m.used == old(m.used)
    ensures Added(old(m.Chunks()), m.Chunks(), old(m.Chunks())[k].start + len, k)
    ensures NoneJoin(old(m.Chunks()), |old(m.Chunks())|) ==> JoinsOnlyAt(m.Chunks(), k)
    ensures p == 1 + Off(m.Chunks(), k) && m.Chunks()[k].start == old(m.Chunks())[k].start
  {
    hide NoneJoin, JoinsOnlyAt, Layout, WfStream, AllFull, Members, ChunkMembers, Range, Aligned, Off, Stream, ShortRuns, Added, RleDesc;
    ghost var cs := m.Chunks();
    ghost var c' := RleChunk(cs[k].start, cap, len + 1);
    RunExtended(cs, k, cap, len);
    RleSetFields(d, cap, len + 1);
    LayoutPutDesc(cs, k, RleDesc(cap, len + 1));
    OffKept(cs, k, c');
    m.Put(p + 1, SetRleLen(SetRleCap(d, cap), len + 1));
    m.form := Chunked(cs[k := c']);
    if NoneJoin(cs, |cs|) {
      UpdatedJoins(cs, k, c');
    }
  }

  /** Sets the bit at start + length of a run, widening the chunk when its capacity is used up. */
  method ExtendRun(m: Map, p: nat, c: Chunk, idx: nat, ghost k: nat)
    requires m.Valid() && m.form.Chunked? && m.Strict() && k < |m.Chunks()| && p == 1 + Off(m.Chunks(), k) && c == m.Chunks()[k]
    requires IsRle(c.desc) && idx == c.start + RleLen(c.desc) && idx < TOP
    requires ShortRuns(Members(m.Chunks()) + iset{idx})
    requires k + 1 < |m.Chunks()| ==> idx < m.Chunks()[k + 1].start
    modifies m, m.data
    ensures m.Valid() && m.form.Chunked? && m.data == old(m.data) && m.used == old(m.used)
    ensures Added(old(m.Chunks()), m.Chunks(), idx, k)
    ensures NoneJoin(old(m.Chunks()), |old(m.Chunks())|) ==> JoinsOnlyAt(m.Chunks(), k)
    ensures p == 1 + Off(m.Chunks(), k) && m.Chunks()[k].start == c.start
  {
    hide NoneJoin, JoinsOnlyAt, Layout, WfStream, AllFull, Members, ChunkMembers, Range, Aligned, Off, ShortRuns, Added;
    ghost var cs := m.Chunks();
    TargetFacts(cs, k);
    RleMembers(c);
    var len, cap := RleLen(c.desc), RleCap(c.desc);
    ExtendedShort(cs, k, len);
    if len == cap {
      cap := CapacityLimit(m, p, c.start, len + 1, k);
    } else {
      AlignedConstants();
      NextStart(cs, k);
    }
    WriteRun(m, p, c.desc, cap, len, k);
  }

  lemma NextStart(cs: seq<Chunk>, k: nat)
    requires WfStream(cs) && k < |cs|
    ensures k + 1 < |cs| ==> cs[k].start + Span(cs[k]) <= cs[k + 1].start
  {
  }

  /** The bit right after a full window: the window becomes a run. */
  method StartRun(m: Map, p: nat, c: Chunk, idx: nat, ghost k: nat)
    requires m.Valid() && m.form.Chunked? && m.Strict() && k < |m.Chunks()| && p == 1 + Off(m.Chunks(), k) && c == m.Chunks()[k]
    requires c.desc == ONES && idx == c.start + WINDOW && idx < TOP
    requires k + 1 < |m.Chunks()| ==> idx < m.Chunks()[k + 1].start
    requires ShortRuns(Members(m.Chunks()) + iset{idx})
    modifies m, m.data
    ensures m.Valid() && m.form.Chunked? && m.data == old(m.data) && m.used == old(m.used)
    ensures Added(old(m.Chunks()), m.Chunks(), idx, k)
    ensures NoneJoin(old(m.Chunks()), |old(m.Chunks())|) ==> JoinsOnlyAt(m.Chunks(), k)
    ensures p == 1 + Off(m.Chunks(), k) && m.Chunks()[k].start == c.start
  {
    hide NoneJoin, JoinsOnlyAt, Layout, WfStream, AllFull, Members, ChunkMembers, Range, Aligned, Off, ShortRuns, Added;
    ghost var cs := m.Chunks();
    AllOnesChunk(cs, k);
    ExtendedShort(cs, k, WINDOW);
    var cap := CapacityLimit(m, p, c.start, WINDOW + 1, k);
    WriteRun(m, p, SetRle(c.desc), cap, WINDOW, k);
  }

  lemma AllOnesChunk(cs: seq<Chunk>, k: nat)
    requires WfStream(cs) && k < |cs| && cs[k].desc == ONES
    ensures cs[k].vecs == [] && ChunkMembers(cs[k]) == Range(cs[k].start, cs[k].start + WINDOW) && Span(cs[k]) == WINDOW
    ensures IsRle(SetRle(cs[k].desc)) && !IsRle(cs[k].desc)
  {
    hide FlagAt, SlotWord;
    var c := cs[k];
    OneOfThem(cs, k);
    AllOnesSlots(c);
    PrefixFromSlots(c, WINDOW);
    FullRun(c);
  }

  lemma AllOnesSlots(c: Chunk)
    requires c.desc == ONES
    ensures !IsRle(c.desc)
    ensures forall v, k :: 0 <= v < SLOTS && 0 <= k < 64 ==> SlotWord(c, v)[k]
  {
    OnesFlags();
  }

  // ---- the setter -------------------------------------------------------------------------

  /** The most words one change of a map can add, the spare word included. */
  const ROOM: nat := 8

  lemma LocatedFacts(cs: seq<Chunk>, idx: nat, k: nat)
    requires WfStream(cs) && AllFull(cs) && Located(cs, idx, k)
    ensures k < |cs| && Cap(cs[k]) == Span(cs[k])
    ensures k > 0 ==> cs[k - 1].start + Span(cs[k - 1]) <= idx
    ensures k + 1 < |cs| ==> idx < cs[k].start + Span(cs[k]) <= cs[k + 1].start
  {
    FullCap(cs, k);
    if k > 0 {
      FullCap(cs, k - 1);
    }
  }

  lemma FullCap(cs: seq<Chunk>, k: nat)
    requires WfStream(cs) && AllFull(cs) && k < |cs|
    ensures Cap(cs[k]) == Span(cs[k])
  {
    if !IsRle(cs[k].desc) {
      SparseCanonical(cs[k]);
    }
  }

  /** Nothing changes when the index is already in the run. */
  lemma InRun(cs: seq<Chunk>, k: nat, idx: nat)
    requires WfStream(cs) && AllFull(cs) && k < |cs| && IsRle(cs[k].desc) && cs[k].start <= idx < cs[k].start + RleLen(cs[k].desc)
    ensures Added(cs, cs, idx, k)
  {
    hide AllFull, WfStream, Members, NeighbourSafe;
    OneOfThem(cs, k);
    SpanSafe(cs, k, idx);
    MemberOf(cs, k, idx);
  }

  /** The words by which setting idx lengthens the stream when c is the chunk that idx is looked up in. */
  ghost function SetSurplus(c: Chunk, idx: nat): nat {
    if idx < c.start then 3
    else if IsRle(c.desc) then
      var e := c.start + RleLen(c.desc);
      if idx <= e then 0
      else if idx < c.start + RleCap(c.desc) then SeparatedWords(c.start, e, idx, Set) - 2
      else 3
    else if idx < c.start + WINDOW then if NoneOf(ChunkMembers(c), SlotBase(idx)) then 1 else 0
    else if idx == c.start + WINDOW && ChunkMembers(c) == Range(c.start, c.start + WINDOW) then 0
    else 3
  }

  /**
   * The room that setting idx needs: two words and a spare one, which the first chunk of an empty
   * map takes whole, and the surplus and a spare one.
   */
  ghost predicate RoomToSet(cs: seq<Chunk>, idx: nat, free: int) {
    free >= 3 && forall k: nat :: Located(cs, idx, k) ==> SetSurplus(cs[k], idx) < free
  }

  lemma LocatedUnique(cs: seq<Chunk>, idx: nat, j: nat, k: nat)
    requires Located(cs, idx, j) && Located(cs, idx, k)
    ensures j == k
  {
  }

  lemma RoomAt(cs: seq<Chunk>, idx: nat, k: nat, free: int)
    requires Located(cs, idx, k) && free >= 3
    ensures RoomToSet(cs, idx, free) <==> SetSurplus(cs[k], idx) < free
  {
    hide Located, SetSurplus;
    LocatedHere(cs, idx, k);
    forall j: nat | Located(cs, idx, j) ensures j == k {
      LocatedUnique(cs, idx, j, k);
    }
  }

  lemma RoomNeeded(cs: seq<Chunk>, idx: nat, free: int)
    ensures RoomToSet(cs, idx, free) ==> free >= 3
  {
  }

  lemma NothingLocated(idx: nat, free: int)
    ensures RoomToSet([], idx, free) <==> free >= 3
  {
  }

  /** The chunk has the all-ones descriptor exactly when its whole window is in it. */
  lemma AllOnesIff(cs: seq<Chunk>, k: nat)
    requires WfStream(cs) && k < |cs| && !IsRle(cs[k].desc)
    ensures cs[k].desc == ONES <==> ChunkMembers(cs[k]) == Range(cs[k].start, cs[k].start + WINDOW)
  {
    hide WfSparse;
    var c := cs[k];
    OneOfThem(cs, k);
    if c.desc == ONES {
      AllOnesChunk(cs, k);
    } else if ChunkMembers(c) == Range(c.start, c.start + WINDOW) {
      WholeRun(c);
      FullRun(c);
    }
  }

  lemma WholeRun(c: Chunk)
    requires !IsRle(c.desc) && ChunkMembers(c) == Range(c.start, c.start + WINDOW)
    ensures IsRunLength(c, WINDOW)
  {
    forall x: nat ensures ChunkHas(c, x) <==> Between(c.start, x, c.start + WINDOW) {
      assert x in ChunkMembers(c) <==> x in Range(c.start, c.start + WINDOW);
    }
  }

  /** Sets idx in a run-length chunk; not done when idx lies past its capacity and its run. */
  method SetInRun(m: Map, p: nat, c: Chunk, idx: nat, ghost k: nat) returns (done: bool, ok: bool)
    requires m.Valid() && m.form.Chunked? && m.Strict() && Located(m.Chunks(), idx, k)
    requires p == 1 + Off(m.Chunks(), k) && c == m.Chunks()[k] && IsRle(c.desc) && c.start <= idx
    requires idx < TOP && ShortRuns(Members(m.Chunks()) + iset{idx}) && m.EnoughSpace(2)
    modifies m, m.data
    ensures m.Valid() && m.form.Chunked? && m.data == old(m.data)
    ensures done <==> idx <= c.start + RleLen(c.desc) || idx < c.start + RleCap(c.desc)
    ensures !done || !ok ==> m.form == old(m.form) && m.used == old(m.used)
    ensures done ==> (ok <==> old(m.used) + SetSurplus(c, idx) + 1 <= m.data.Length)
    ensures done && old(m.EnoughSpace(ROOM - 1)) ==> ok
    ensures done && ok ==> Added(old(m.Chunks()), m.Chunks(), idx, k) && p == 1 + Off(m.Chunks(), k) && c.start == m.Chunks()[k].start
    ensures done && ok && NoneJoin(old(m.Chunks()), |old(m.Chunks())|) ==> JoinsOnlyAt(m.Chunks(), k)
    ensures m.used <= old(m.used) + ROOM - 1
  {
    hide NoneJoin, JoinsOnlyAt, Layout, WfStream, AllFull, Members, Off, ShortRuns, Located, Cap, IsRunLength, Changed, NeighbourSafe, SeparatedWords, ChunkMembers, Range;
    ghost var cs := m.Chunks();
    LocatedFacts(cs, idx, k);
    TargetFacts(cs, k);
    var len, cap := RleLen(c.desc), RleCap(c.desc);
    done, ok := true, true;
    if idx - c.start <= cap {
      if idx - c.start < len {
        InRun(cs, k, idx);
        if NoneJoin(cs, |cs|) {
          SameJoins(cs, k);
        }
        return;
      }
      if idx - c.start == len {
        ExtendRun(m, p, c, idx, k);
        return;
      }
    }
    if idx - c.start < cap {
      ok := SeparateRle(m, p, c, idx, Set, k);
      SeparatedIsAdded(cs, m.Chunks(), idx, k, ok);
      return;
    }
    return false, false;
  }

  /** The surplus, by the arm that the setter takes. */
  lemma SurplusArms(cs: seq<Chunk>, k: nat, idx: nat)
    requires WfStream(cs) && AllFull(cs) && k < |cs|
    ensures var c := cs[k];
      && (idx < c.start ==> SetSurplus(c, idx) == 3)
      && (c.desc == ONES && idx == c.start + WINDOW ==> SetSurplus(c, idx) == 0)
      && (IsRle(c.desc) && idx > c.start + RleLen(c.desc) && idx >= c.start + RleCap(c.desc) ==> SetSurplus(c, idx) == 3)
      && (!IsRle(c.desc) && idx >= c.start + WINDOW && !(c.desc == ONES && idx == c.start + WINDOW) ==> SetSurplus(c, idx) == 3)
      && (!IsRle(c.desc) && c.start <= idx < c.start + WINDOW ==> SetSurplus(c, idx) == if NoneOf(ChunkMembers(c), SlotBase(idx)) then 1 else 0)
    ensures Cap(cs[k]) == if IsRle(cs[k].desc) then RleCap(cs[k].desc) else WINDOW
  {
    hide WfStream, AllFull, ChunkMembers, NoneOf, SlotBase, Range, SeparatedWords;
    OneOfThem(cs, k);
    FullCap(cs, k);
    if !IsRle(cs[k].desc) {
      AllOnesIff(cs, k);
    }
    OnesSparse();
  }

  lemma OnesSparse()
    ensures !IsRle(ONES)
  {
    OnesFlags();
  }

  /** Nothing, or a sparse chunk at 0 alone. */
  ghost predicate LowSparse(cs: seq<Chunk>) {
    |cs| <= 1 && (cs != [] ==> cs[0].start == 0 && !IsRle(cs[0].desc))
  }

  /** Sets idx given the chunk its lookup found, choosing the arm by that chunk's kind. */
  method SetAt(m: Map, p: nat, c: Chunk, idx: nat, ghost k: nat) returns (ok: bool, at: nat, start: nat, ghost k': nat)
    requires m.Valid() && m.form.Chunked? && m.Strict() && Located(m.Chunks(), idx, k)
    requires p == 1 + Off(m.Chunks(), k) && c == m.Chunks()[k]
    requires idx < TOP && ShortRuns(Members(m.Chunks()) + iset{idx}) && m.EnoughSpace(2)
    modifies m, m.data
    ensures m.Valid() && m.form.Chunked? && m.data == old(m.data)
    ensures !ok ==> m.form == old(m.form) && m.used == old(m.used)
    ensures ok <==> old(m.used) + SetSurplus(c, idx) + 1 <= m.data.Length
    ensures old(m.EnoughSpace(ROOM - 1)) ==> ok
    ensures ok ==> Added(old(m.Chunks()), m.Chunks(), idx, k') && at == 1 + Off(m.Chunks(), k')
    ensures ok ==> start == m.Chunks()[k'].start || IsRunLength(m.Chunks()[k'], 0)
    ensures ok && LowSparse(old(m.Chunks())) && idx < WINDOW ==> LowSparse(m.Chunks())
    ensures ok && NoneJoin(old(m.Chunks()), |old(m.Chunks())|) ==> JoinsOnlyAt(m.Chunks(), k')
    ensures m.used <= old(m.used) + ROOM - 1
  {
    hide NoneJoin, JoinsOnlyAt, Layout, WfStream, AllFull, Members, Off, ShortRuns, Located, Cap, IsRunLength, Changed, NeighbourSafe, SetSurplus, NoneOf, SlotBase, ChunkMembers, RleLen, RleCap, Size, Span, Full;
    ghost var cs := m.Chunks();
    assert m.form == Chunked(cs) && m.used == |Layout(Chunked(cs))|;
    LocatedFacts(cs, idx, k);
    SurplusArms(cs, k, idx);
    ok, at, start, k' := true, p, c.start, k;
    if idx < c.start {
      if !m.EnoughSpace(3) {
        return false, at, start, k';
      }
      InsertFresh(m, p, idx, k);
      // `start` still names the old chunk; the new one has no run, so it is not used.
      return;
    }
    var cap := Cap(c);
    if c.desc == ONES && idx - c.start == WINDOW {
      StartRun(m, p, c, idx, k);
      return;
    }
    if IsRle(c.desc) {
      var done;
      done, ok := SetInRun(m, p, c, idx, k);
      if done {
        return;
      }
      ok := true;
    }
    if idx - c.start >= cap {
      if !m.EnoughSpace(3) {
        return false, at, start, k';
      }
      OffNext(cs, k);
      at, k' := p + 1 + Size(c.desc), k + 1;
      InsertFresh(m, at, idx, k');
      start := Floor(idx);
      return;
    }
    ok := SetSparseBit(m, p, c, idx, k);
    SparseIsAdded(cs, m.Chunks(), idx, k, ok);
    if NoneJoin(cs, |cs|) {
      UpdatedJoins(cs, k, m.Chunks()[k]);
    }
  }

  lemma StillHeld(cs: seq<Chunk>, idx: nat)
    requires idx in Members(cs)
    ensures cs != []
  {
  }

  lemma SeparatedIsAdded(cs: seq<Chunk>, now: seq<Chunk>, idx: nat, k: nat, ok: bool)
    requires ok ==> Members(now) == Changed(Members(cs), idx, Set) && NeighbourSafe(now, k, idx, true) && k < |now| && AllFull(now)
    ensures ok ==> Added(cs, now, idx, k)
  {
  }

  lemma SparseIsAdded(cs: seq<Chunk>, now: seq<Chunk>, idx: nat, k: nat, ok: bool)
    requires WfStream(now) && AllFull(now) && k < |now| && now[k].start <= idx < now[k].start + WINDOW && !IsRle(now[k].desc)
    requires ok ==> Members(now) == Members(cs) + iset{idx}
    ensures ok ==> Added(cs, now, idx, k)
  {
    hide WfStream, AllFull, Members, NeighbourSafe;
    OneOfThem(now, k);
    SpanSafe(now, k, idx);
  }

  /** Adds idx to a chunk-mode map; refuses, changing nothing, when the buffer has no room. */
  method MapSet(m: Map, idx: nat, coalesce: bool) returns (ok: bool)
    requires m.Valid() && m.form.Chunked? && m.Strict()
    requires idx < TOP && ShortRuns(Members(m.Chunks()) + iset{idx})
    modifies m, m.data
    ensures m.Valid() && m.form.Chunked? && m.Strict() && m.data == old(m.data)
    ensures !ok ==> m.form == old(m.form) && m.used == old(m.used)
    ensures ok <==> RoomToSet(old(m.Chunks()), idx, m.data.Length - old(m.used))
    ensures old(m.EnoughSpace(ROOM - 1)) ==> ok
    ensures ok ==> Members(m.Chunks()) == Members(old(m.Chunks())) + iset{idx}
    ensures ok && LowSparse(old(m.Chunks())) && idx < WINDOW ==> LowSparse(m.Chunks())
    ensures ok && coalesce && NoneJoin(old(m.Chunks()), |old(m.Chunks())|) ==> NoneJoin(m.Chunks(), |m.Chunks()|)
    ensures m.used <= old(m.used) + ROOM - 1
  {
    hide NoneJoin, JoinsOnlyAt, Layout, WfStream, AllFull, Members, Off, ShortRuns, Located, IsRunLength, Harmless, Coalesced, StartFits, SmallEnough, SetSurplus, RoomToSet;
    ghost var cs := m.Chunks();
    RoomNeeded(cs, idx, m.data.Length - m.used);
    if !m.EnoughSpace(2) {
      return false;
    }
    var at, start := 1, Floor(idx);
    ghost var k := 0;
    var n := m.Count();
    if n == 0 {
      NothingLocated(idx, m.data.Length - m.used);
      MoreChunks(cs, 0);
      InsertFresh(m, 1, idx, 0);
    } else {
      var p, j := FindChunk(m, idx);
      LocatedHere(cs, idx, j);
      RoomAt(cs, idx, j, m.data.Length - m.used);
      var c := m.Load(p, j);
      ok, at, start, k := SetAt(m, p, c, idx, j);
      if !ok {
        return;
      }
    }
    ok := true;
    if coalesce {
      ghost var now := m.Chunks();
      ReadyToCoalesce(now, k, start);
      var _ := CoalesceChunk(m, at, start, idx, true, k);
      HarmlessKeeps(now, m.Chunks(), k, start);
      StillHeld(m.Chunks(), idx);
    }
  }
}
