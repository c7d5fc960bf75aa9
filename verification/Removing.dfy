// Removing one index: every arm of the chunk clearer, and sm_remove.
module Removing {
  import opened Words
  import opened Chunks
  import opened Streams
  import opened Codec
  import opened Maps
  import opened RunLengths
  import opened Appends
  import opened Locate
  import opened Edits
  import opened Coalesce
  import opened Pivot
  import opened Separate
  import opened Slots
  import opened Sizes
  import opened Setting
  import opened Small
  import opened Adding

  // ---- runs ---------------------------------------------------------------------------

  /** The chunk of a run that lost its last bit: one window of ones goes back to the sparse encoding. */
  function Shortened(c: Chunk): Chunk
    requires IsRle(c.desc) && RleLen(c.desc) >= 2
  {
    if RleLen(c.desc) - 1 == WINDOW then Chunk(c.start, ONES, [])
    else Chunk(c.start, SetRleLen(c.desc, RleLen(c.desc) - 1), [])
  }

  lemma FullWindow(start: nat)
    requires Aligned(start) && start + WINDOW <= TOP
    ensures var c := Chunk(start, ONES, []);
      WfChunk(c) && Full(c) && Span(c) == WINDOW && ChunkMembers(c) == Range(start, start + WINDOW)
  {
    var c := Chunk(start, ONES, []);
    OnesFlags();
    NoMixedBelow(ONES, SLOTS);
    NoUnused(ONES, SLOTS);
    AllOnesSlots(c);
    PrefixFromSlots(c, WINDOW);
    assert Carries(FlagAt(ONES, 0));
  }

  lemma LessLast(lo: nat, hi: nat)
    requires lo < hi
    ensures Range(lo, hi - 1) == Range(lo, hi) - iset{hi - 1}
  {
  }

  lemma RunShortened(cs: seq<Chunk>, k: nat)
    requires WfStream(cs) && AllFull(cs) && k < |cs| && IsRle(cs[k].desc) && RleLen(cs[k].desc) >= 2
    ensures var c' := Shortened(cs[k]);
      && WfStream(cs[k := c']) && AllFull(cs[k := c']) && c'.start == cs[k].start
      && Members(cs[k := c']) == Members(cs) - iset{cs[k].start + RleLen(cs[k].desc) - 1}
  {
    hide WfStream, AllFull, Members, WfChunk, Full, ChunkMembers, Shortened, Span, IsRle, RleLen;
    OneOfThem(cs, k);
    ShortenedChunk(cs[k]);
    ChunkUpdated(cs, k, Shortened(cs[k]), cs[k].start + RleLen(cs[k].desc) - 1, Clear);
  }

  /** The shortened chunk has the run's members less the last, within the same span. */
  lemma ShortenedChunk(c: Chunk)
    requires WfChunk(c) && IsRle(c.desc) && RleLen(c.desc) >= 2
    ensures var c' := Shortened(c);
      && WfChunk(c') && Full(c') && c'.start == c.start && Span(c') <= Span(c)
      && c.start + RleLen(c.desc) - 1 < c.start + Span(c)
      && ChunkMembers(c') == ChunkMembers(c) - iset{c.start + RleLen(c.desc) - 1}
  {
    hide Full, ChunkMembers, Range, Aligned, SetRleLen, SetRleCap, RleDesc;
    var len, cap := RleLen(c.desc), RleCap(c.desc);
    RleMembers(c);
    LessLast(c.start, c.start + len);
    AlignedConstants();
    AlignedStep(0, cap);
    RleSpan(c);
    if len - 1 == WINDOW {
      FullWindow(c.start);
    } else {
      RleFields(c.desc, len - 1);
      RleCanonical(SetRleLen(c.desc, len - 1));
      RleChunkWf(c.start, cap, len - 1);
      RleChunkMembers(c.start, cap, len - 1);
    }
  }

  lemma RleSpan(c: Chunk)
    requires IsRle(c.desc)
    ensures Span(c) == RleCap(c.desc)
  {
  }

  /** Clears the last bit of a run of at least two. */
  method ShortenRun(m: Map, p: nat, c: Chunk, ghost k: nat)
    requires m.Valid() && m.form.Chunked? && m.Strict() && k < |m.Chunks()| && p == 1 + Off(m.Chunks(), k) && c == m.Chunks()[k]
    requires IsRle(c.desc) && RleLen(c.desc) >= 2
    modifies m, m.data
    ensures m.Valid() && m.form.Chunked? && m.Strict() && m.data == old(m.data) && m.used == old(m.used)
    ensures Members(m.Chunks()) == Members(old(m.Chunks())) - iset{c.start + RleLen(c.desc) - 1}
    ensures NoneJoin(old(m.Chunks()), |old(m.Chunks())|) ==> JoinsOnlyAt(m.Chunks(), k)
    ensures |m.Chunks()| == |old(m.Chunks())| && m.Chunks()[k].start == c.start && p == 1 + Off(m.Chunks(), k)
  {
    hide NoneJoin, JoinsOnlyAt, Layout, WfStream, AllFull, Members, Off, SetRleLen;
    ghost var cs := m.Chunks();
    TargetFacts(cs, k);
    RunShortened(cs, k);
    LayoutPutDesc(cs, k, Shortened(c).desc);
    OffKept(cs, k, Shortened(c));
    var len := RleLen(c.desc);
    if len - 1 == WINDOW {
      m.Put(p + 1, ONES);
    } else {
      m.Put(p + 1, SetRleLen(c.desc, len - 1));
    }
    m.form := Chunked(cs[k := Shortened(c)]);
    if NoneJoin(cs, |cs|) {
      UpdatedJoins(cs, k, Shortened(c));
    }
  }

  // ---- the clearer -----------------------------------------------------------------------

  /** The stream after idx was removed, with `at` the position the coalescing tail looks at. */
  ghost predicate Cleared(was: seq<Chunk>, now: seq<Chunk>, idx: nat) {
    AllFull(now) && Members(now) == Members(was) - iset{idx}
  }

  lemma NotThere(cs: seq<Chunk>, idx: nat)
    requires AllFull(cs) && idx !in Members(cs)
    ensures Cleared(cs, cs, idx)
  {
  }

  lemma BelowFirst(cs: seq<Chunk>, idx: nat, k: nat)
    requires WfStream(cs) && AllFull(cs) && Located(cs, idx, k) && !(cs[k].start <= idx < cs[k].start + Cap(cs[k]))
    ensures idx !in Members(cs)
  {
    LocatedFacts(cs, idx, k);
    if idx < cs[k].start {
      FullCapBefore(cs, k);
      HasInGap(cs, k, idx);
    } else {
      HasInGap(cs, k + 1, idx);
    }
  }

  lemma FullCapBefore(cs: seq<Chunk>, k: nat)
    requires WfStream(cs) && AllFull(cs) && k < |cs|
    ensures k > 0 ==> Cap(cs[k - 1]) == Span(cs[k - 1])
  {
    if k > 0 {
      FullCap(cs, k - 1);
    }
  }

  lemma PastRun(cs: seq<Chunk>, k: nat, idx: nat)
    requires WfStream(cs) && k < |cs| && IsRle(cs[k].desc)
    requires cs[k].start + RleLen(cs[k].desc) <= idx < cs[k].start + RleCap(cs[k].desc)
    ensures idx !in Members(cs)
  {
    HasInSpan(cs, k, idx);
  }

  lemma LengthOne(cs: seq<Chunk>, k: nat)
    requires WfStream(cs) && k < |cs| && IsRle(cs[k].desc) && RleLen(cs[k].desc) == 1
    ensures ChunkMembers(cs[k]) == iset{cs[k].start} && |Enc(cs[k])| == 2
  {
    TargetFacts(cs, k);
    RleMembers(cs[k]);
  }

  /** What happened to the chunk that was looked at. */
  datatype Outcome = NoRoom | Untouched | Settled | Edited | Emptied

  /** The words by which clearing idx lengthens the stream when c is the chunk that idx is looked up in. */
  ghost function ClearSurplus(c: Chunk, idx: nat): nat {
    if idx < c.start then 0
    else if IsRle(c.desc) then
      var e := c.start + RleLen(c.desc);
      if idx + 1 < e then SeparatedWords(c.start, e, idx, Clear) - 2 else 0
    else if idx < c.start + WINDOW && AllOf(ChunkMembers(c), SlotBase(idx)) then 1
    else 0
  }

  /** The room that clearing idx needs: two words and a spare one, and the surplus and a spare one. */
  ghost predicate RoomToClear(cs: seq<Chunk>, idx: nat, free: int) {
    free >= 3 && forall k: nat :: Located(cs, idx, k) ==> ClearSurplus(cs[k], idx) < free
  }

  lemma ClearRoomAt(cs: seq<Chunk>, idx: nat, k: nat, free: int)
    requires Located(cs, idx, k) && free >= 3
    ensures RoomToClear(cs, idx, free) <==> ClearSurplus(cs[k], idx) < free
  {
    hide Located, ClearSurplus;
    LocatedHere(cs, idx, k);
    forall j: nat | Located(cs, idx, j) ensures j == k {
      LocatedUnique(cs, idx, j, k);
    }
  }

  lemma ClearRoomNeeded(cs: seq<Chunk>, idx: nat, free: int)
    ensures RoomToClear(cs, idx, free) ==> free >= 3
    ensures cs == [] ==> (RoomToClear(cs, idx, free) <==> free >= 3)
  {
  }

  /** The surplus, by the arm that the clearer takes. */
  lemma ClearArms(cs: seq<Chunk>, k: nat, idx: nat)
    requires WfStream(cs) && AllFull(cs) && k < |cs|
    ensures var c := cs[k];
      && (idx < c.start || idx >= c.start + Cap(c) ==> ClearSurplus(c, idx) == 0)
      && (!IsRle(c.desc) && c.start <= idx < c.start + Cap(c) ==> ClearSurplus(c, idx) == if AllOf(ChunkMembers(c), SlotBase(idx)) then 1 else 0)
  {
    hide WfStream, AllFull, ChunkMembers, AllOf, SlotBase, SeparatedWords;
    OneOfThem(cs, k);
    FullCap(cs, k);
    RleFits(cs[k]);
  }

  lemma RleFits(c: Chunk)
    requires WfChunk(c)
    ensures IsRle(c.desc) ==> RleLen(c.desc) <= RleCap(c.desc) == Cap(c)
  {
  }

  /** Clearing idx splits the run of c and leaves two pieces that could be merged. */
  ghost predicate SeamIn(c: Chunk, idx: nat) {
    IsRle(c.desc) && c.start <= idx && idx + 1 < c.start + RleLen(c.desc) && Seam(c.start, idx)
  }

  /** Some chunk of the stream is left in mergeable pieces when idx is cleared. */
  ghost predicate LeavesSeam(cs: seq<Chunk>, idx: nat) {
    exists k :: 0 <= k < |cs| && SeamIn(cs[k], idx)
  }

  /** Cutting a chunk out brings no mergeable neighbours together: its span stays between them. */
  lemma CutJoins(cs: seq<Chunk>, k: nat)
    requires WfStream(cs) && k < |cs| && NoneJoin(cs, |cs|)
    ensures var now := cs[..k] + cs[k + 1..]; NoneJoin(now, |now|)
  {
    hide IsRunLength, Joinable, NoneJoin, RunReaches, WfChunk;
    var now := cs[..k] + cs[k + 1..];
    forall j: nat ensures !Joinable(now, j) {
      JoinedPair(now, j);
      if j + 1 < |now| {
        if j + 1 < k {
          SamePair(now, j, cs, j);
          NotJoined(cs, j);
        } else if j >= k {
          SamePair(now, j, cs, j + 1);
          NotJoined(cs, j + 1);
        } else {
          GapBetween(cs, k);
        }
      }
    }
    JoinsNone(now);
  }

  lemma GapBetween(cs: seq<Chunk>, k: nat)
    requires WfStream(cs) && 0 < k && k + 1 < |cs|
    ensures !RunReaches(cs[k - 1], cs[k + 1].start)
  {
    SpanPositive(cs[k]);
    if RunReaches(cs[k - 1], cs[k + 1].start) {
      RunMembers(cs[k - 1], cs[k + 1].start - cs[k - 1].start);
    }
  }

  /** Clears idx in a run: nothing, the last bit, or one amid the run. */
  method ClearInRun(m: Map, p: nat, c: Chunk, idx: nat, ghost k: nat) returns (o: Outcome)
    requires m.Valid() && m.form.Chunked? && m.Strict() && k < |m.Chunks()| && p == 1 + Off(m.Chunks(), k) && c == m.Chunks()[k]
    requires IsRle(c.desc) && c.start <= idx < c.start + RleCap(c.desc) && m.EnoughSpace(2)
    modifies m, m.data
    ensures m.Valid() && m.form.Chunked? && m.data == old(m.data)
    ensures o == NoRoom ==> m.form == old(m.form) && m.used == old(m.used)
    ensures o != NoRoom <==> old(m.used) + ClearSurplus(c, idx) + 1 <= m.data.Length
    ensures old(m.EnoughSpace(ROOM - 1)) ==> o != NoRoom
    ensures o != NoRoom ==> Cleared(old(m.Chunks()), m.Chunks(), idx)
    ensures o == Edited ==> k < |m.Chunks()| && m.Chunks()[k].start == c.start && p == 1 + Off(m.Chunks(), k)
    ensures o != Emptied
    ensures o == Edited && NoneJoin(old(m.Chunks()), |old(m.Chunks())|) ==> JoinsOnlyAt(m.Chunks(), k) && !SeamIn(c, idx)
    ensures o == Settled && NoneJoin(old(m.Chunks()), |old(m.Chunks())|) ==> (NoneJoin(m.Chunks(), |m.Chunks()|) <==> !SeamIn(c, idx))
    ensures o != Untouched
    ensures m.used <= old(m.used) + ROOM - 1
  {
    hide NoneJoin, JoinsOnlyAt, Seam, Layout, WfStream, AllFull, Members, Off, NeighbourSafe, SeparatedWords;
    ghost var cs := m.Chunks();
    TargetFacts(cs, k);
    var len := RleLen(c.desc);
    if idx >= c.start + len {
      PastRun(cs, k, idx);
      NotThere(cs, idx);
      if NoneJoin(cs, |cs|) {
        SameJoins(cs, k);
      }
      return Edited;
    }
    if idx - c.start + 1 == len {
      if len == 1 {
        LengthOne(cs, k);
        SoleMember(cs, k, idx);
        CutChunk(m, p, 2, k);
        if NoneJoin(cs, |cs|) {
          CutJoins(cs, k);
        }
        return Settled;
      }
      ShortenRun(m, p, c, k);
      return Edited;
    }
    var ok := SeparateRle(m, p, c, idx, Clear, k);
    return if ok then Settled else NoRoom;
  }

  /** Clears idx given the chunk its lookup found, choosing the arm by that chunk's kind. */
  method ClearAt(m: Map, p: nat, c: Chunk, idx: nat, ghost k: nat) returns (o: Outcome)
    requires m.Valid() && m.form.Chunked? && m.Strict() && Located(m.Chunks(), idx, k)
    requires p == 1 + Off(m.Chunks(), k) && c == m.Chunks()[k] && m.EnoughSpace(2)
    modifies m, m.data
    ensures m.Valid() && m.form.Chunked? && m.data == old(m.data)
    ensures o == NoRoom ==> m.form == old(m.form) && m.used == old(m.used)
    ensures o != NoRoom <==> old(m.used) + ClearSurplus(c, idx) + 1 <= m.data.Length
    ensures old(m.EnoughSpace(ROOM - 1)) ==> o != NoRoom
    ensures o != NoRoom ==> Cleared(old(m.Chunks()), m.Chunks(), idx)
    ensures o == Edited ==> k < |m.Chunks()| && m.Chunks()[k].start == c.start && p == 1 + Off(m.Chunks(), k)
    ensures o == Emptied <==> o != NoRoom && !IsRle(c.desc) && ChunkMembers(c) == iset{idx}
    ensures o == Emptied ==> m.form == Chunked(old(m.Chunks())[..k] + old(m.Chunks())[k + 1..])
    ensures o == Edited && NoneJoin(old(m.Chunks()), |old(m.Chunks())|) ==> JoinsOnlyAt(m.Chunks(), k) && !SeamIn(c, idx)
    ensures o == Settled && NoneJoin(old(m.Chunks()), |old(m.Chunks())|) ==> (NoneJoin(m.Chunks(), |m.Chunks()|) <==> !SeamIn(c, idx))
    ensures o == Untouched ==> m.form == old(m.form) && !SeamIn(c, idx)
    ensures m.used <= old(m.used) + ROOM - 1
  {
    hide NoneJoin, JoinsOnlyAt, Seam, Layout, WfStream, AllFull, Members, Off, Located, Cap, Changed, ChunkMembers, NeighbourSafe, ClearSurplus, AllOf, SlotBase;
    ghost var cs := m.Chunks();
    LocatedFacts(cs, idx, k);
    ClearArms(cs, k, idx);
    OneOfThem(cs, k);
    if idx < c.start {
      BelowFirst(cs, idx, k);
      NotThere(cs, idx);
      OutsideSpan(c, idx);
      return Untouched;
    }
    var cap := Cap(c);
    if idx - c.start >= cap {
      BelowFirst(cs, idx, k);
      NotThere(cs, idx);
      OutsideSpan(c, idx);
      return Untouched;
    }
    if IsRle(c.desc) {
      o := ClearInRun(m, p, c, idx, k);
      return;
    }
    ghost var before := m.form;
    var ok, gone := ClearSparseBit(m, p, c, idx, k);
    if !ok {
      return NoRoom;
    }
    if gone {
      return Emptied;
    }
    StillThere(cs, m.Chunks(), k, idx);
    if NoneJoin(cs, |cs|) {
      UpdatedJoins(cs, k, m.Chunks()[k]);
    }
    return Edited;
  }

  lemma OutsideSpan(c: Chunk, idx: nat)
    requires WfChunk(c) && !(c.start <= idx < c.start + Span(c))
    ensures ChunkMembers(c) != iset{idx}
  {
    if ChunkMembers(c) == iset{idx} {
      assert idx in ChunkMembers(c);
      ChunkHasBound(c, idx);
    }
  }

  /** A chunk that survives the removal held more than the removed index. */
  lemma StillThere(cs: seq<Chunk>, now: seq<Chunk>, k: nat, idx: nat)
    requires WfStream(cs) && WfStream(now) && k < |cs| && k < |now| && now[k].start == cs[k].start
    requires !IsRle(cs[k].desc) && Members(now) == Members(cs) - iset{idx}
    requires now[k].start + Span(now[k]) <= cs[k].start + Span(cs[k])
    ensures ChunkMembers(cs[k]) != iset{idx}
  {
    hide WfChunk, Span, ChunkHas;
    OneOfThem(now, k);
    OneOfThem(cs, k);
    var x := ChunkNotEmpty(now[k]);
    ChunkHasBound(now[k], x);
    MemberOf(now, k, x);
    HasInSpan(cs, k, x);
  }

  // ---- the coalescing tail -----------------------------------------------------------------

  /**
   * The tail after a chunk was emptied looks at the chunk that moved into its place, but with the
   * removed chunk's start.  It merges that chunk into the left neighbour, as if it began there,
   * exactly when the left neighbour's run ends at the removed start and the moved chunk is a run.
   */
  ghost predicate Misfit(cs: seq<Chunk>, k: nat, idx: nat) {
    && k + 1 < |cs|
    && !IsRle(cs[k].desc) && ChunkMembers(cs[k]) == iset{idx}
    && LeftMeets(cs, k, cs[k].start)
    && !IsRunLength(cs[k + 1], 0)
  }

  /** Some removal of idx from the stream meets the misfit. */
  ghost predicate Misfits(cs: seq<Chunk>, idx: nat) {
    exists k :: 0 <= k < |cs| && Misfit(cs, k, idx)
  }

  ghost predicate JoinFits(cs: seq<Chunk>, k: nat, run: nat) {
    k + 1 < |cs| && LeftMeets(cs, k, cs[k].start) && IsRunLength(cs[k + 1], run) ==> cs[k].start - cs[k - 1].start + run <= RLE_LIMIT
  }

  /** The runs on both sides of any one chunk are together no longer than a descriptor can say. */
  ghost predicate ShortJoins(cs: seq<Chunk>) {
    forall k: nat, run: nat :: JoinFits(cs, k, run)
  }

  lemma AfterCut(cs: seq<Chunk>, k: nat, idx: nat)
    requires WfStream(cs) && k + 1 < |cs| && ShortJoins(cs)
    requires !IsRle(cs[k].desc) && ChunkMembers(cs[k]) == iset{idx}
    ensures var cs', start := cs[..k] + cs[k + 1..], cs[k].start;
      && k < |cs'| && Off(cs', k) == Off(cs, k)
      && StartFits(cs', k, start) && start < cs'[k].start
      && (forall run: nat :: run > 0 && IsRunLength(cs'[k], run) ==> SmallEnough(cs', k, start, run))
      && (Harmless(cs', k, start) <==> !Misfit(cs, k, idx))
      && NeighbourSafe(cs', k, idx, false)
  {
    hide IsRunLength, WfChunk, ChunkMembers;
    var cs', start := cs[..k] + cs[k + 1..], cs[k].start;
    assert cs'[..k] == cs[..k];
    assert cs'[k] == cs[k + 1] && (k > 0 ==> cs'[k - 1] == cs[k - 1]);
    SpanPositive(cs[k]);
    forall run: nat | run > 0 && IsRunLength(cs'[k], run) ensures SmallEnough(cs', k, start, run) {
      if LeftMeets(cs', k, start) {
        assert LeftMeets(cs, k, start);
        assert JoinFits(cs, k, run);
        LeftSpan(cs, k);
      }
    }
  }

  lemma LeftSpan(cs: seq<Chunk>, k: nat)
    requires WfStream(cs) && 0 < k < |cs|
    ensures cs[k - 1].start + WINDOW <= cs[k].start
  {
    SpanPositive(cs[k - 1]);
  }

  /** Merging the moved chunk as if it began at the removed start puts that start into the set. */
  lemma MisfitBreaks(cs: seq<Chunk>, now: seq<Chunk>, k: nat, idx: nat)
    requires WfStream(cs) && Misfit(cs, k, idx)
    requires Coalesced(cs[..k] + cs[k + 1..], now, k, cs[k].start) && !Harmless(cs[..k] + cs[k + 1..], k, cs[k].start)
    ensures Members(now) != Members(cs) - iset{idx}
  {
    hide WfChunk;
    var cs', start := cs[..k] + cs[k + 1..], cs[k].start;
    assert cs'[k] == cs[k + 1] && cs'[k - 1] == cs[k - 1];
    var run := RunOf(cs[k + 1]);
    LeftSpan(cs, k);
    assert start in Range(cs'[k - 1].start, start + run);
    assert start in Members(now);
    SpanPositive(cs[k]);
    HasInSpan(cs, k, start);
    assert start in ChunkMembers(cs[k]) <==> start == idx;
  }

  lemma RunOf(c: Chunk) returns (run: nat)
    requires !IsRunLength(c, 0)
    ensures run > 0 && IsRunLength(c, run)
  {
    if IsRle(c.desc) {
      run := RleLen(c.desc);
    } else {
      var n: nat :| n >= 64 && PrefixRun(c, n);
      assert ChunkHas(c, c.start + n - 1) <==> Between(c.start, c.start + n - 1, c.start + n);
      run := n;
    }
  }

  lemma ThreeChunks(a: Chunk, b: Chunk, c: Chunk)
    requires WfChunk(a) && WfChunk(b) && WfChunk(c) && Full(a) && Full(b) && Full(c)
    requires a.start + Span(a) <= b.start && b.start + Span(b) <= c.start
    ensures WfStream([a, b, c]) && AllFull([a, b, c])
    ensures Members([a, b, c]) == ChunkMembers(a) + ChunkMembers(b) + ChunkMembers(c)
  {
    hide WfChunk, Full, ChunkMembers, Members, Span;
    assert [a, b, c] == [a] + [b] + [c];
    HasOne(a);
    HasOne(b);
    HasOne(c);
    MembersSplit([a], [b], [c]);
  }

  lemma MisfitOf(a: Chunk, b: Chunk, c: Chunk, idx: nat)
    requires !IsRle(b.desc) && ChunkMembers(b) == iset{idx}
    requires a.start < b.start && IsRunLength(a, b.start - a.start) && !IsRunLength(c, 0)
    ensures Misfit([a, b, c], 1, idx)
  {
    hide IsRunLength, ChunkMembers;
  }

  lemma RunAt(start: nat, len: nat) returns (c: Chunk)
    requires Aligned(start) && Aligned(len) && 0 < len <= RLE_LIMIT && start + len <= TOP
    ensures WfChunk(c) && Full(c) && c.start == start && Span(c) == len
    ensures ChunkMembers(c) == Range(start, start + len) && IsRunLength(c, len)
  {
    RleChunkWf(start, len, len);
    RleChunkMembers(start, len, len);
    c := RleChunk(start, len, len);
  }

  lemma LoneAt(start: nat, idx: nat) returns (c: Chunk)
    requires Aligned(start) && start <= idx < start + WINDOW && idx < TOP
    ensures WfChunk(c) && Full(c) && c.start == start && Span(c) == WINDOW && !IsRle(c.desc)
    ensures ChunkMembers(c) == iset{idx}
  {
    FloorUnique(idx, start);
    LoneFacts(idx);
    LoneSparse(idx);
    c := Lone(idx);
  }

  /** The fault on three small chunks: after [0, 2048), {2050} and [4096, 4160), removing 2050 leaves [0, 2112). */
  lemma MisfitExample() returns (cs: seq<Chunk>)
    ensures WfStream(cs) && AllFull(cs) && ShortRuns(Members(cs)) && ShortJoins(cs)
    ensures Members(cs) == Range(0, 2048) + iset{2050} + Range(4096, 4160)
    ensures Misfit(cs, 1, 2050)
    ensures |cs| == 3 && IsRunLength(cs[2], 64) && Joined(cs[..1] + cs[2..], 0, cs[1].start, 64) == Range(0, 2112)
  {
    hide WfStream, AllFull, Members, Range, WfChunk, ChunkMembers, Aligned, IsRunLength, Full, Joined, Misfit, Span;
    AlignedConstants();
    AlignedSum(WINDOW, WINDOW);
    var a := RunAt(0, WINDOW);
    var b := LoneAt(WINDOW, 2050);
    var c := WordRun(4096);
    ThreeChunks(a, b, c);
    RunUnsame(c);
    MisfitOf(a, b, c, 2050);
    cs := [a, b, c];
    assert cs[..1] + cs[2..] == [a] + [c];
    ExampleJoined(a, c);
    ExampleShort(cs);
  }

  /** The example meets the sizes asked of a map before coalescing. */
  lemma ExampleShort(cs: seq<Chunk>)
    requires |cs| == 3 && cs[0].start == 0 && cs[1].start == 2048 && IsRunLength(cs[2], 64)
    requires Members(cs) == Range(0, 2048) + iset{2050} + Range(4096, 4160)
    ensures ShortRuns(Members(cs)) && ShortJoins(cs)
  {
    hide Members, IsRunLength, LeftMeets;
    forall lo: nat, hi: nat | lo < hi && Range(lo, hi) <= Members(cs) ensures hi - lo <= RLE_LIMIT {
      assert hi - 1 in Range(lo, hi);
    }
    forall k: nat, run: nat ensures JoinFits(cs, k, run) {
      OnlyJoin(cs, k);
      if k == 1 && IsRunLength(cs[2], run) {
        RunUnique(cs[2], 64, run);
      }
    }
  }

  lemma OnlyJoin(cs: seq<Chunk>, k: nat)
    ensures k + 1 < |cs| && LeftMeets(cs, k, cs[k].start) ==> k > 0
  {
  }

  lemma LoneSparse(idx: nat)
    requires idx < TOP
    ensures !IsRle(Lone(idx).desc)
  {
    var v, b := (idx - Floor(idx)) / 64, (idx - Floor(idx)) % 64;
    SetNotZero(ZERO, b);
    assert NoWords()[v := SetBit(ZERO, b)][v] != ZERO;
    FloorTop(idx);
    FullChunkWf(Floor(idx), NoWords()[v := SetBit(ZERO, b)]);
  }

  lemma ExampleJoined(a: Chunk, c: Chunk)
    requires a.start == 0
    ensures Joined([a] + [c], 0, 2048, 64) == Range(0, 2112)
  {
    HasOne(a);
    assert ([a] + [c])[..0] == [] && ([a] + [c])[2..] == [];
  }

  lemma RunUnsame(c: Chunk)
    requires IsRunLength(c, 64)
    ensures !IsRunLength(c, 0)
  {
    hide IsRunLength;
    if IsRunLength(c, 0) {
      RunUnique(c, 64, 0);
    }
  }

  /** A sparse chunk that is one whole word of ones. */
  lemma WordRun(start: nat) returns (c: Chunk)
    requires Aligned(start) && start + WINDOW <= TOP
    ensures WfChunk(c) && Full(c) && c.start == start && !IsRle(c.desc) && Span(c) == WINDOW
    ensures ChunkMembers(c) == Range(start, start + 64) && IsRunLength(c, 64)
  {
    hide FullChunk, WfChunk, Full, Aligned;
    var ws: Window := NoWords()[0 := ONES];
    assert ws[0][0] && !ZERO[0];
    FullChunkWf(start, ws);
    FullChunkMembers(start, ws);
    LoneStart(start, ws);
    c := FullChunk(start, ws);
    forall v, k | 0 <= v < SLOTS && 0 <= k < 64 ensures ws[v][k] == (0 <= 64 * v + k < 64) {
    }
    HoldsRunMembers(start, ws, start, start + 64);
    forall x: nat ensures ChunkHas(c, x) <==> Between(start, x, start + 64) {
      assert x in ChunkMembers(c) <==> x in Range(start, start + 64);
    }
  }

  // ---- sm_remove ---------------------------------------------------------------------------------

  /**
   * Removes idx from a chunk-mode map.  Without coalescing the result is always exact; with
   * it, the result is exact if and only if the removal does not meet the misfit.
   */
  method MapUnset(m: Map, idx: nat, coalesce: bool) returns (ok: bool)
    requires m.Valid() && m.form.Chunked? && m.Strict()
    requires coalesce ==> ShortRuns(Members(m.Chunks())) && ShortJoins(m.Chunks())
    modifies m, m.data
    ensures m.Valid() && m.form.Chunked? && m.Strict() && m.data == old(m.data)
    ensures !ok ==> m.form == old(m.form) && m.used == old(m.used)
    ensures ok <==> RoomToClear(old(m.Chunks()), idx, m.data.Length - old(m.used))
    ensures old(m.EnoughSpace(ROOM - 1)) ==> ok
    ensures ok ==> (Members(m.Chunks()) == Members(old(m.Chunks())) - iset{idx} <==> !(coalesce && Misfits(old(m.Chunks()), idx)))
    ensures ok && coalesce && NoneJoin(old(m.Chunks()), |old(m.Chunks())|) && !Misfits(old(m.Chunks()), idx) ==>
      (NoneJoin(m.Chunks(), |m.Chunks()|) <==> !LeavesSeam(old(m.Chunks()), idx))
    ensures m.used <= old(m.used) + ROOM - 1
  {
    hide NoneJoin, JoinsOnlyAt, SeamIn, LeavesSeam, Layout, WfStream, AllFull, Members, Off, ShortRuns, ShortJoins, Located, IsRunLength, Harmless, Coalesced, StartFits, SmallEnough, Misfits, Cleared, ChunkMembers, ClearSurplus, RoomToClear;
    ghost var cs := m.Chunks();
    ClearRoomNeeded(cs, idx, m.data.Length - m.used);
    if !m.EnoughSpace(2) {
      return false;
    }
    var n := m.Count();
    if n == 0 {
      NoMisfits(cs, idx);
      NoSeams(cs, idx);
      return true;
    }
    var p, k := FindChunk(m, idx);
    LocatedHere(cs, idx, k);
    ClearRoomAt(cs, idx, k, m.data.Length - m.used);
    var c := m.Load(p, k);
    var o := ClearAt(m, p, c, idx, k);
    if o == NoRoom {
      return false;
    }
    ClearedFacts(cs, m.Chunks(), idx);
    MisfitsAt(cs, idx, k);
    SeamsAt(cs, idx, k);
    if coalesce && (o == Edited || o == Emptied) {
      Tail(m, p, c, idx, o, cs, k);
    }
    return true;
  }

  lemma ClearedFacts(cs: seq<Chunk>, now: seq<Chunk>, idx: nat)
    requires Cleared(cs, now, idx)
    ensures AllFull(now) && Members(now) == Members(cs) - iset{idx}
  {
  }

  lemma NoMisfits(cs: seq<Chunk>, idx: nat)
    requires cs == []
    ensures !Misfits(cs, idx) && Members(cs) == Members(cs) - iset{idx}
  {
  }

  /** Only the chunk the lookup finds can meet the misfit. */
  lemma MisfitsAt(cs: seq<Chunk>, idx: nat, k: nat)
    requires WfStream(cs) && Located(cs, idx, k)
    ensures Misfits(cs, idx) <==> Misfit(cs, k, idx)
  {
    hide WfChunk, LeftMeets, IsRunLength, Cap;
    if Misfits(cs, idx) {
      var j :| 0 <= j < |cs| && Misfit(cs, j, idx);
      assert idx in ChunkMembers(cs[j]);
      OneOfThem(cs, j);
      ChunkHasBound(cs[j], idx);
      LocatedBefore(cs, idx, k, j);
    }
  }

  lemma NoSeams(cs: seq<Chunk>, idx: nat)
    requires cs == []
    ensures !LeavesSeam(cs, idx)
  {
  }

  /** Only the chunk the lookup finds can leave a seam, and only a run can. */
  lemma SeamsAt(cs: seq<Chunk>, idx: nat, k: nat)
    requires WfStream(cs) && Located(cs, idx, k)
    ensures k < |cs| && (LeavesSeam(cs, idx) <==> SeamIn(cs[k], idx)) && (SeamIn(cs[k], idx) ==> IsRle(cs[k].desc))
  {
    hide WfSparse, Cap, Seam, Located;
    LocatedHere(cs, idx, k);
    if LeavesSeam(cs, idx) {
      var j :| 0 <= j < |cs| && SeamIn(cs[j], idx);
      OneOfThem(cs, j);
      RleFits(cs[j]);
      LocatedBefore(cs, idx, k, j);
    }
  }

  lemma LocatedBefore(cs: seq<Chunk>, idx: nat, k: nat, j: nat)
    requires WfStream(cs) && Located(cs, idx, k) && j < |cs| && cs[j].start <= idx < cs[j].start + Cap(cs[j])
    ensures j == k
  {
    RunCapSpan(cs, k);
    InOrder(cs, k, j);
  }

  /** The coalescing tail, with the start of the chunk that was looked at. */
  method Tail(m: Map, p: nat, c: Chunk, idx: nat, o: Outcome, ghost cs: seq<Chunk>, ghost k: nat)
    requires m.Valid() && m.form.Chunked? && m.Strict()
    requires WfStream(cs) && k < |cs| && c == cs[k] && p == 1 + Off(cs, k) && (o == Edited || o == Emptied)
    requires o == Emptied <==> !IsRle(c.desc) && ChunkMembers(c) == iset{idx}
    requires o == Edited ==> k < |m.Chunks()| && m.Chunks()[k].start == c.start && p == 1 + Off(m.Chunks(), k)
    requires o == Emptied ==> m.Chunks() == cs[..k] + cs[k + 1..]
    requires Members(m.Chunks()) == Members(cs) - iset{idx}
    requires ShortRuns(Members(cs)) && ShortJoins(cs)
    modifies m, m.data
    ensures m.Valid() && m.form.Chunked? && m.Strict() && m.data == old(m.data)
    ensures Members(m.Chunks()) == Members(cs) - iset{idx} <==> !Misfit(cs, k, idx)
    ensures o == Edited && JoinsOnlyAt(old(m.Chunks()), k) ==> NoneJoin(m.Chunks(), |m.Chunks()|)
    ensures o == Emptied && NoneJoin(cs, |cs|) && !Misfit(cs, k, idx) ==> NoneJoin(m.Chunks(), |m.Chunks()|)
    ensures m.used <= old(m.used)
  {
    hide NoneJoin, JoinsOnlyAt, Layout, WfStream, AllFull, Members, Off, ShortRuns, ShortJoins, IsRunLength, Harmless, Coalesced, StartFits, SmallEnough, Misfit, ChunkMembers;
    ghost var now := m.Chunks();
    FewerShort(Members(cs), Members(now));
    assert m.form == Chunked(now) && m.used == |Layout(Chunked(now))|;
    if o == Edited {
      ReadyToCoalesce(now, k, c.start);
      IdleSafeAt(now, k, idx);
      NotEmptied(cs, k, idx);
      var _ := CoalesceChunk(m, p, c.start, idx, false, k);
      HarmlessKeeps(now, m.Chunks(), k, c.start);
    } else {
      CutPlace(cs, k);
      MoreChunks(now, k);
      if NoneJoin(cs, |cs|) {
        CutJoins(cs, k);
      }
      // Past the last chunk the view still reads the cleared descriptor, which has no run.
      if p < m.used {
        AfterCut(cs, k, idx);
        var _ := CoalesceChunk(m, p, c.start, idx, false, k);
        TailOutcome(cs, now, m.Chunks(), k, idx);
      } else {
        NoneAfter(cs, k, idx);
      }
    }
  }

  lemma FewerShort(a: iset<nat>, b: iset<nat>)
    requires ShortRuns(a) && b <= a
    ensures ShortRuns(b)
  {
  }

  lemma IdleSafeAt(cs: seq<Chunk>, k: nat, idx: nat)
    ensures NeighbourSafe(cs, k, idx, false)
  {
  }

  lemma NotEmptied(cs: seq<Chunk>, k: nat, idx: nat)
    requires k < |cs| && !(!IsRle(cs[k].desc) && ChunkMembers(cs[k]) == iset{idx})
    ensures !Misfit(cs, k, idx)
  {
  }

  lemma CutPlace(cs: seq<Chunk>, k: nat)
    requires k < |cs|
    ensures var now := cs[..k] + cs[k + 1..];
      |now| == |cs| - 1 && Off(now, k) == Off(cs, k)
  {
    assert (cs[..k] + cs[k + 1..])[..k] == cs[..k];
  }

  lemma NoneAfter(cs: seq<Chunk>, k: nat, idx: nat)
    requires k == |cs| - 1
    ensures !Misfit(cs, k, idx)
  {
  }

  lemma TailOutcome(cs: seq<Chunk>, mid: seq<Chunk>, now: seq<Chunk>, k: nat, idx: nat)
    requires WfStream(cs) && k + 1 < |cs| && mid == cs[..k] + cs[k + 1..]
    requires Members(mid) == Members(cs) - iset{idx}
    requires Coalesced(mid, now, k, cs[k].start) && (Harmless(mid, k, cs[k].start) <==> !Misfit(cs, k, idx))
    ensures Members(now) == Members(cs) - iset{idx} <==> !Misfit(cs, k, idx)
  {
    hide Members, Coalesced, Harmless, Misfit, WfStream;
    if Misfit(cs, k, idx) {
      MisfitBreaks(cs, now, k, idx);
    } else {
      HarmlessKeeps(mid, now, k, cs[k].start);
    }
  }

  /** sm_remove, whatever form the map is in. */
  method Remove(m: Map, idx: nat) returns (ok: bool)
    requires m.Valid() && m.Strict()
    requires m.form.Chunked? ==> ShortRuns(Members(m.Chunks())) && ShortJoins(m.Chunks())
    modifies m, m.data
    ensures m.Valid() && m.Strict() && m.data == old(m.data)
    ensures !ok ==> m.Set() == old(m.Set())
    ensures old(m.EnoughSpace(ROOM - 1)) ==> ok
    ensures ok <==> old(m.form).Small? || RoomToClear(old(m.Chunks()), idx, m.data.Length - old(m.used))
    ensures ok ==> (m.Set() == old(m.Set()) - iset{idx} <==> !(old(m.form).Chunked? && Misfits(old(m.Chunks()), idx)))
    ensures ok && old(m.form).Chunked? && m.form.Chunked? && NoneJoin(old(m.Chunks()), |old(m.Chunks())|) && !Misfits(old(m.Chunks()), idx) ==>
      (NoneJoin(m.Chunks(), |m.Chunks()|) <==> !LeavesSeam(old(m.Chunks()), idx))
    ensures Lean(m.form)
  {
    hide Lean, NoneJoin, LeavesSeam, WfStream, AllFull, SmallMembers, Members, Layout, Has, SmallHas, SmallHeader, ShortRuns, ShortJoins, Misfits, RoomToClear;
    if m.IsSmall() {
      SmallForm(m.form);
      SmallRemove(m, idx);
      SmallForm(m.form);
      SmallLean(m.form);
      return true;
    }
    ChunkedForm(m.form);
    ok := MapUnset(m, idx, true);
    ChunkedForm(m.form);
    TryDemote(m);
  }
}
