// The two-level directory of a map: every stride-th chunk with its start, its position and
// the exact number of members before it.  On an unchanged map its answers are the plain ones.
module Locators {
  import opened Words
  import opened Chunks
  import opened Streams
  import opened Maps
  import opened Locate
  import opened Slots
  import opened Small
  import opened Runs
  import opened Sweeps
  import opened Lookups
  import opened Counting
  import opened Offset
  import opened Ranks
  import opened Selects

  datatype Locator = Locator(count: nat, stride: nat, starts: seq<nat>, offsets: seq<nat>, prefixes: seq<nat>,
                             firstStart: nat, lastStart: nat, lastOffset: nat)

  /** Superblock j begins at chunk i. */
  ghost predicate BlockAt(loc: Locator, cs: seq<Chunk>, j: nat, i: nat) {
    && j < |loc.starts| == |loc.offsets| == |loc.prefixes| && i < |cs|
    && loc.starts[j] == cs[i].start
    && loc.offsets[j] == 1 + Off(cs, i)
    && loc.prefixes[j] == Count(Members(cs), 0, cs[i].start)
  }

  ghost predicate Block(loc: Locator, cs: seq<Chunk>, j: nat) {
    exists i: nat :: BlockAt(loc, cs, j, i)
  }

  /** Both tables ascend. */
  ghost predicate Tables(loc: Locator) {
    && (forall a, b :: 0 <= a < b < |loc.starts| ==> loc.starts[a] < loc.starts[b])
    && (forall a, b :: 0 <= a < b < |loc.prefixes| ==> loc.prefixes[a] <= loc.prefixes[b])
  }

  /** The directory describes the stream: real chunks, exact counts, and the first chunk first. */
  ghost predicate Good(loc: Locator, cs: seq<Chunk>) {
    && cs != [] && loc.count == |cs|
    && |loc.starts| == |loc.offsets| == |loc.prefixes| && loc.starts != []
    && (forall j :: 0 <= j < |loc.starts| ==> Block(loc, cs, j))
    && BlockAt(loc, cs, 0, 0)
    && Tables(loc)
    && loc.firstStart == cs[0].start
    && loc.lastStart == cs[|cs| - 1].start && loc.lastOffset == 1 + Off(cs, |cs| - 1)
  }

  /** The directory belongs to the map as it is now; that of a bare bitmap has no blocks. */
  ghost predicate Describes(loc: Locator, m: Map)
    reads m
  {
    if m.form.Small? then loc.starts == [] else Good(loc, m.form.chunks)
  }

  // ---- building ---------------------------------------------------------------------------------

  method IntegerSqrt(x: nat) returns (r: nat)
    ensures r * r <= x < (r + 1) * (r + 1)
  {
    r := 0;
    while (r + 1) * (r + 1) <= x
      invariant r * r <= x
      decreases x - r
    {
      SquareGrows(r, x);
      r := r + 1;
    }
  }

  lemma SquareGrows(r: nat, x: nat)
    requires (r + 1) * (r + 1) <= x
    ensures r < x
  {
    assert (r + 1) * (r + 1) >= r + 1;
  }

  /** Sampling every stride-th of n chunks takes one block more at each multiple of the stride. */
  lemma BlockCount(i: nat, stride: nat)
    requires stride >= 1
    ensures (i + 1 + stride - 1) / stride == (i + stride - 1) / stride + if i % stride == 0 then 1 else 0
  {
    var q, r := i / stride, i % stride;
    assert i == stride * q + r;
    DivModUnique(i + stride, stride, q + 1, r);
    if r == 0 {
      DivModUnique(i + stride - 1, stride, q, stride - 1);
    } else {
      DivModUnique(i + stride - 1, stride, q + 1, r - 1);
    }
  }

  /** What the walk has gathered before chunk i. */
  ghost predicate Gathered(loc: Locator, cs: seq<Chunk>, i: nat, running: nat) {
    && i <= |cs|
    && |loc.starts| == |loc.offsets| == |loc.prefixes|
    && (forall j :: 0 <= j < |loc.starts| ==> Block(loc, cs, j))
    && Tables(loc)
    && (i > 0 ==> BlockAt(loc, cs, 0, 0) && loc.starts != [])
    && (i == 0 ==> loc.starts == [])
    && running == Count(Members(cs[..i]), 0, TOP)
    && (forall j :: 0 <= j < |loc.starts| ==> loc.prefixes[j] <= running && (i < |cs| ==> loc.starts[j] < cs[i].start))
  }

  /** The members of the first i chunks are those below chunk i. */
  lemma PrefixWhole(cs: seq<Chunk>, i: nat, y: nat)
    requires WfStream(cs) && i < |cs| && cs[i].start <= y
    ensures Count(Members(cs), 0, cs[i].start) == Count(Members(cs[..i]), 0, y)
  {
    hide Count, WfChunk, Members;
    RestCount(cs, i, 0, cs[i].start);
    PrefixEnds(cs, i);
    CountSplit(Members(cs[..i]), 0, cs[i].start, y);
    CountNone(Members(cs[..i]), cs[i].start, y);
  }

  lemma BlockKept(loc: Locator, loc': Locator, cs: seq<Chunk>, j: nat)
    requires Block(loc, cs, j) && |loc'.starts| == |loc'.offsets| == |loc'.prefixes|
    requires loc.starts <= loc'.starts && loc.offsets <= loc'.offsets && loc.prefixes <= loc'.prefixes
    ensures Block(loc', cs, j)
  {
    var i: nat :| BlockAt(loc, cs, j, i);
    assert BlockAt(loc', cs, j, i);
  }

  /** The tables hold chunk i too when it begins a block; its members are still to be counted. */
  ghost predicate Sampled(loc: Locator, cs: seq<Chunk>, i: nat, running: nat) {
    && i < |cs| && running == Count(Members(cs[..i]), 0, TOP)
    && |loc.starts| == |loc.offsets| == |loc.prefixes| && loc.starts != [] && Tables(loc) && BlockAt(loc, cs, 0, 0)
    && (forall j :: 0 <= j < |loc.starts| ==> Block(loc, cs, j))
    && (forall j :: 0 <= j < |loc.starts| ==> loc.prefixes[j] <= running && loc.starts[j] <= cs[i].start)
  }

  /** Samples chunk i. */
  lemma GatherBlock(loc: Locator, cs: seq<Chunk>, i: nat, running: nat) returns (loc': Locator)
    requires WfStream(cs) && Gathered(loc, cs, i, running) && i < |cs|
    ensures loc' == loc.(starts := loc.starts + [cs[i].start], offsets := loc.offsets + [1 + Off(cs, i)], prefixes := loc.prefixes + [running])
    ensures Sampled(loc', cs, i, running)
  {
    hide Count, WfChunk, Members, Off;
    loc' := loc.(starts := loc.starts + [cs[i].start], offsets := loc.offsets + [1 + Off(cs, i)], prefixes := loc.prefixes + [running]);
    StartBelowTop(cs, i);
    PrefixWhole(cs, i, TOP);
    var n := |loc.starts|;
    assert BlockAt(loc', cs, n, i);
    forall j | 0 <= j < |loc'.starts| ensures Block(loc', cs, j) {
      if j < n {
        BlockKept(loc, loc', cs, j);
      }
    }
    if i > 0 {
      assert BlockAt(loc, cs, 0, 0);
    }
  }

  lemma StartBelowTop(cs: seq<Chunk>, i: nat)
    requires WfStream(cs) && i < |cs|
    ensures cs[i].start < TOP
  {
    SpanPositive(cs[i]);
  }

  /** Chunk i is counted. */
  lemma GatherCount(loc: Locator, cs: seq<Chunk>, i: nat, running: nat, amt: nat)
    requires WfStream(cs) && i < |cs| && Sampled(loc, cs, i, running)
    requires amt == Count(ChunkMembers(cs[i]), cs[i].start, cs[i].start + Span(cs[i]))
    ensures Gathered(loc, cs, i + 1, running + amt)
  {
    hide Count, WfRle, WfSparse, Members, ChunkHas, Block, BlockAt, Tables, Off;
    WholeChunk(cs, i);
    PrefixCount(cs, i, 0, TOP);
    if i + 1 < |cs| {
      SpanPositive(cs[i]);
    }
  }

  lemma WholeChunk(cs: seq<Chunk>, i: nat)
    requires WfStream(cs) && i < |cs|
    ensures Count(ChunkMembers(cs[i]), cs[i].start, cs[i].start + Span(cs[i])) == Count(ChunkMembers(cs[i]), 0, TOP)
  {
    hide Count, WfRle, WfSparse, ChunkHas, Cap, Span;
    OneOfThem(cs, i);
    EndsBelow(cs, i);
    ChunkRange(cs[i]);
    var s, a, b := ChunkMembers(cs[i]), cs[i].start, cs[i].start + Span(cs[i]);
    CountSplit(s, 0, a, TOP);
    CountSplit(s, a, b, TOP);
    CountNone(s, 0, a);
    CountNone(s, b, TOP);
  }

  /** Noting the last chunk seen does not touch the tables. */
  lemma GatheredSame(loc: Locator, cs: seq<Chunk>, i: nat, running: nat, at: nat, start: nat)
    requires Gathered(loc, cs, i, running)
    ensures Gathered(loc.(lastOffset := at, lastStart := start), cs, i, running)
    ensures 0 < i < |cs| ==> Sampled(loc.(lastOffset := at, lastStart := start), cs, i, running)
  {
    hide Count, Members;
    var next := loc.(lastOffset := at, lastStart := start);
    forall j | 0 <= j < |loc.starts| ensures Block(next, cs, j) {
      BlockKept(loc, next, cs, j);
    }
  }

  /** sm_locator_build on a chunk-mode map that is not empty: one walk over the chunks. */
  method BuildChunks(m: Map) returns (loc: Locator)
    requires m.Valid() && m.form.Chunked? && m.Strict() && m.Chunks() != []
    ensures Good(loc, m.Chunks())
    ensures loc.stride >= 1 && |loc.starts| == (|m.Chunks()| + loc.stride - 1) / loc.stride
  {
    hide Count, Layout, WfStream, AllFull, Members, ChunkMembers, Off, Cap, Span, WfChunk, Block, BlockAt, Tables, Gathered, Sampled;
    ghost var cs := m.Chunks();
    var count := m.Count();
    var root := IntegerSqrt(count);
    var stride := if root > 0 then root else 1;
    loc := Locator(count, stride, [], [], [], 0, 0, 0);
    var p, running := 1, 0;
    StreamEnds(cs);
    GatherStart(loc, cs);
    for i := 0 to count
      invariant p == 1 + Off(cs, i) && loc.count == count && loc.stride == stride
      invariant Gathered(loc, cs, i, running)
      invariant |loc.starts| == (i + stride - 1) / stride
      invariant i > 0 ==> loc.lastStart == cs[i - 1].start && loc.lastOffset == 1 + Off(cs, i - 1)
    {
      var c := m.Load(p, i);
      OneOfThem(cs, i);
      FullCapSpan(cs, i);
      OffNext(cs, i);
      BlockCount(i, stride);
      GatheredSame(loc, cs, i, running, p, c.start);
      loc := loc.(lastOffset := p, lastStart := c.start);
      if i % stride == 0 {
        ghost var next := GatherBlock(loc, cs, i, running);
        loc := loc.(starts := loc.starts + [c.start], offsets := loc.offsets + [p], prefixes := loc.prefixes + [running]);
      }
      var amt := ChunkRank(c, 0, Cap(c) - 1);
      GatherCount(loc, cs, i, running, amt);
      running := running + amt;
      p := p + 1 + Size(c.desc);
    }
    GatheredAll(loc, cs, running);
    loc := loc.(firstStart := loc.starts[0]);
    GoodNow(loc, cs, running);
  }

  lemma GatherStart(loc: Locator, cs: seq<Chunk>)
    requires loc.starts == loc.offsets == loc.prefixes == []
    ensures Gathered(loc, cs, 0, 0)
  {
    WholePrefix(cs);
    CountNone(Members(cs[..0]), 0, TOP);
  }

  lemma GatheredAll(loc: Locator, cs: seq<Chunk>, running: nat)
    requires Gathered(loc, cs, |cs|, running) && cs != []
    ensures loc.starts != [] && loc.starts[0] == cs[0].start
  {
  }

  lemma GoodNow(loc: Locator, cs: seq<Chunk>, running: nat)
    requires cs != [] && loc.count == |cs| && exists a :: Gathered(loc.(firstStart := a), cs, |cs|, running)
    requires loc.firstStart == cs[0].start
    requires loc.lastStart == cs[|cs| - 1].start && loc.lastOffset == 1 + Off(cs, |cs| - 1)
    ensures Good(loc, cs)
  {
    var a :| Gathered(loc.(firstStart := a), cs, |cs|, running);
    var was := loc.(firstStart := a);
    forall j | 0 <= j < |loc.starts| ensures Block(loc, cs, j) {
      BlockKept(was, loc, cs, j);
    }
  }

  datatype Built = NoLocator | Ready(loc: Locator)

  /** sm_locator_build: none for an empty chunk-mode map, one without blocks for a bare bitmap. */
  method Build(m: Map) returns (b: Built)
    requires m.Valid() && m.Strict()
    ensures b == NoLocator <==> m.form == Chunked([])
    ensures b.Ready? ==> Describes(b.loc, m)
  {
    hide Layout, WfForm, Good;
    if m.IsSmall() {
      return Ready(Locator(0, 0, [], [], [], 0, 0, 0));
    }
    var n := m.Count();
    if n == 0 {
      return NoLocator;
    }
    var loc := BuildChunks(m);
    return Ready(loc);
  }

  // ---- queries ----------------------------------------------------------------------------------------

  /** Whether the directory visibly belongs to another state of the map. */
  method IsStale(loc: Locator, m: Map) returns (stale: bool)
    requires m.Valid() && Describes(loc, m)
    ensures stale <==> m.form.Small?
  {
    hide Layout, Off, WfStream, Members, U64;
    if loc.starts == [] {
      return true;
    }
    ghost var cs := m.Chunks();
    var n := m.Count();
    if n != loc.count {
      return true;
    }
    StreamEnds(cs);
    StartWord(m, 1, 0);
    if ToNat(m.data[1]) != loc.firstStart {
      return true;
    }
    StartWord(m, loc.lastOffset, |cs| - 1);
    if loc.lastOffset >= m.used || ToNat(m.data[loc.lastOffset]) != loc.lastStart {
      return true;
    }
    return false;
  }

  /** The last of ascending values that is at most x, or the first. */
  method LastAtMost(values: seq<nat>, x: nat) returns (j: nat)
    requires values != [] && forall a, b :: 0 <= a < b < |values| ==> values[a] <= values[b]
    ensures j < |values| && (j == 0 || values[j] <= x)
    ensures forall b :: j < b < |values| ==> values[b] > x
  {
    var lo, hi := 0, |values|;
    while lo < hi
      invariant lo <= hi <= |values|
      invariant lo > 0 ==> values[lo - 1] <= x
      invariant forall b :: hi <= b < |values| ==> values[b] > x
    {
      var mid := lo + (hi - lo) / 2;
      if values[mid] <= x {
        lo := mid + 1;
      } else {
        hi := mid;
      }
    }
    return if lo == 0 then 0 else lo - 1;
  }

  /** The chunk a block begins at. */
  lemma BlockChunk(loc: Locator, cs: seq<Chunk>, j: nat) returns (i: nat)
    requires Good(loc, cs) && j < |loc.starts|
    ensures BlockAt(loc, cs, j, i) && (j == 0 ==> i == 0)
  {
    if j == 0 {
      i := 0;
    } else {
      assert Block(loc, cs, j);
      var k: nat :| BlockAt(loc, cs, j, k);
      i := k;
    }
  }

  lemma GoodShape(loc: Locator, cs: seq<Chunk>)
    requires Good(loc, cs)
    ensures |loc.starts| == |loc.offsets| == |loc.prefixes| && loc.starts != [] && cs != []
    ensures forall a, b :: 0 <= a < b < |loc.starts| ==> loc.starts[a] <= loc.starts[b]
    ensures forall a, b :: 0 <= a < b < |loc.prefixes| ==> loc.prefixes[a] <= loc.prefixes[b]
  {
  }

  lemma BlockFacts(loc: Locator, cs: seq<Chunk>, j: nat, i: nat)
    requires BlockAt(loc, cs, j, i)
    ensures j < |loc.offsets| && j < |loc.starts| && j < |loc.prefixes| && i < |cs|
    ensures loc.offsets[j] == 1 + Off(cs, i) && loc.starts[j] == cs[i].start && loc.prefixes[j] == Count(Members(cs), 0, cs[i].start)
  {
  }

  /** sm_locator_contains: the answer of sm_contains. */
  method LocatorContains(loc: Locator, m: Map, x: nat) returns (b: bool)
    requires m.Valid() && m.Strict() && Describes(loc, m)
    ensures b <==> x in m.Set()
  {
    hide Count, Layout, WfStream, AllFull, Members, Off, Cap, WfChunk, Good, BlockAt, WfForm, FormMembers;
    var stale := IsStale(loc, m);
    if stale {
      b := Contains(m, x, null);
      return;
    }
    ghost var cs := m.Chunks();
    ChunkedForm(m.form);
    WfOfForm(m.form);
    GoodShape(loc, cs);
    assert m.form == Chunked(cs) && m.used == |Layout(Chunked(cs))|;
    var j := LastAtMost(loc.starts, x);
    ghost var i := BlockChunk(loc, cs, j);
    BlockFacts(loc, cs, j, i);
    if i > 0 {
      StartsBefore(cs, i, x);
    }
    var p := loc.offsets[j];
    while true
      invariant i < |cs| && p == 1 + Off(cs, i)
      invariant forall t :: 0 <= t < i ==> cs[t].start + Cap(cs[t]) <= x
      decreases |cs| - i
    {
      var c := m.Load(p, i);
      OffNext(cs, i);
      MoreChunks(cs, i + 1);
      if x < c.start {
        GapBefore(cs, i, x);
        return false;
      }
      if x < c.start + Cap(c) {
        CoveredDecides(cs, x, i);
        b := IsSet(c, x - c.start);
        return;
      }
      var next := p + 1 + Size(c.desc);
      if next >= m.used {
        GapBefore(cs, i + 1, x);
        return false;
      }
      p := next;
      i := i + 1;
    }
  }

  /** The number of members at or below x, from the block's exact count on. */
  method RankUpto(loc: Locator, m: Map, x: nat) returns (total: nat)
    requires m.Valid() && m.form.Chunked? && m.Strict() && Good(loc, m.Chunks())
    ensures total == Count(Members(m.Chunks()), 0, x + 1)
  {
    hide Count, Layout, WfStream, AllFull, Members, ChunkMembers, Off, Cap, Span, WfChunk, Good, BlockAt;
    ghost var cs := m.Chunks();
    GoodShape(loc, cs);
    assert m.form == Chunked(cs) && m.used == |Layout(Chunked(cs))|;
    var j := LastAtMost(loc.starts, x);
    ghost var i := BlockChunk(loc, cs, j);
    BlockFacts(loc, cs, j, i);
    total := loc.prefixes[j];
    var p := loc.offsets[j];
    BlockSeed(cs, i, x);
    while true
      invariant i < |cs| && p == 1 + Off(cs, i)
      invariant total == Count(Members(cs[..i]), 0, x + 1)
      decreases |cs| - i
    {
      var c := m.Load(p, i);
      OneOfThem(cs, i);
      FullCapSpan(cs, i);
      OffNext(cs, i);
      MoreChunks(cs, i + 1);
      if c.start > x {
        RestCount(cs, i, 0, x + 1);
        return;
      }
      var top := c.start + Cap(c) - 1;
      var to := if x < top then x else top;
      OverlapCount(c, 0, x, c.start, to);
      PrefixCount(cs, i, 0, x + 1);
      var amt := ChunkRank(c, 0, to - c.start);
      total := total + amt;
      var next := p + 1 + Size(c.desc);
      if next >= m.used {
        RestCount(cs, i + 1, 0, x + 1);
        return;
      }
      p := next;
      i := i + 1;
    }
  }

  /** The block's count is that of the chunks before it. */
  lemma BlockSeed(cs: seq<Chunk>, i: nat, x: nat)
    requires WfStream(cs) && i < |cs| && (i == 0 || cs[i].start <= x)
    ensures Count(Members(cs), 0, cs[i].start) == Count(Members(cs[..i]), 0, x + 1)
  {
    hide Count, WfChunk, Members;
    if i == 0 {
      WholePrefix(cs);
      CountNone(Members(cs[..0]), 0, x + 1);
      RestCount(cs, 0, 0, cs[0].start);
      CountNone(Members(cs[..0]), 0, cs[0].start);
    } else {
      PrefixWhole(cs, i, x + 1);
    }
  }

  /** sm_locator_rank: the answer of sm_rank, which answers for other indices. */
  method LocatorRank(loc: Locator, m: Map, lo: nat, hi: nat, value: bool) returns (n: nat)
    requires m.Valid() && m.Strict() && Describes(loc, m) && lo < TWO64 && hi < TWO64
    ensures value ==> n == if lo > hi then 0 else Count(m.Set(), lo, hi + 1)
    ensures !value ==> n == if lo > hi then 0 else Count(Others(m.Set()), lo, hi + 1) - if WholeLine(lo, hi) then 1 else 0
  {
    hide Count, Layout, WfStream, AllFull, Members, Good, WfForm, FormMembers;
    var stale := !value;
    if value {
      stale := IsStale(loc, m);
    }
    if stale {
      n := Rank(m, lo, hi, value);
      return;
    }
    if lo > hi {
      return 0;
    }
    ChunkedForm(m.form);
    var upper := RankUpto(loc, m, hi);
    var lower := 0;
    CountNone(m.Set(), 0, 0);
    if lo > 0 {
      lower := RankUpto(loc, m, lo - 1);
    }
    CountSplit(m.Set(), 0, lo, hi + 1);
    return upper - lower;
  }

  /** The walk for rank n begins at chunk `from`: that of the last block with at most n members before it. */
  ghost predicate Seated(loc: Locator, cs: seq<Chunk>, n: nat, from: nat) {
    exists j: nat :: BlockAt(loc, cs, j, from) && loc.prefixes[j] <= n && forall b :: j < b < |loc.prefixes| ==> loc.prefixes[b] > n
  }

  /** The members before chunk `from`. */
  ghost function Skipped(f: Form, from: nat): nat {
    if f.Chunked? && from < |f.chunks| then Count(FormMembers(f), 0, f.chunks[from].start) else 0
  }

  /**
   * sm_locator_select for set bits: as for sm_select, of a walk that begins at the chunk `from`.
   * Below 2^63 both answers are the one promised.
   */
  method LocatorSelect(loc: Locator, m: Map, n: nat) returns (r: nat, ghost from: nat, ghost wrapped: bool)
    requires m.Valid() && m.Strict() && Describes(loc, m) && n < TWO64
    ensures n < TWO63 ==> Selected(m.Set(), n, r)
    ensures Chosen(m.form, from, n, r) && (Selected(m.Set(), n, r) <==> Answers(m.form, from, n))
    ensures if m.form.Chunked? then Seated(loc, m.form.chunks, n, from) else from == 0
    ensures wrapped <==> Overflows63(m.form, from, Skipped(m.form, from), n)
  {
    hide Sum64, Count, Layout, WfStream, AllFull, Members, ChunkMembers, Off, Cap, Span, WfChunk, Good, BlockAt, WfForm, FormMembers, Selected, Chosen, Answers, Snags, Seated, Walking;
    from := 0;
    var stale := IsStale(loc, m);
    if stale {
      r, wrapped := Select(m, n);
      return;
    }
    ghost var cs := m.Chunks();
    ChunkedForm(m.form);
    WfOfForm(m.form);
    GoodShape(loc, cs);
    assert m.form == Chunked(cs) && m.used == |Layout(Chunked(cs))|;
    var j := LastAtMost(loc.prefixes, n);
    from := BlockChunk(loc, cs, j);
    Sitting(loc, cs, n, j, from);
    ghost var i, first := from, n - loc.prefixes[j];
    var rem := Signed(n - loc.prefixes[j]);
    var p := loc.offsets[j];
    wrapped := false;
    while true
      invariant i < |cs| && p == 1 + Off(cs, i) && IsSigned(rem)
      invariant Walking(cs, from, i, n, Unsigned(rem)) && Unsigned(rem) <= first
      invariant wrapped <==> first >= TWO63 && Unsigned(rem) < TWO63
      decreases |cs| - i
    {
      var c := m.Load(p, i);
      OneOfThem(cs, i);
      OffNext(cs, i);
      MoreChunks(cs, i + 1);
      var index, offset, w := ChunkSelect(c, rem);
      WalkOn(cs, from, i, n, Unsigned(rem), index, offset);
      if offset == -1 {
        r := Sum64(c.start, index);
        Judged(cs, from, n, r);
        return;
      }
      wrapped := wrapped || w;
      rem := offset;
      var next := p + 1 + Size(c.desc);
      if next >= m.used {
        WalkEnds(cs, from, n, Unsigned(rem));
        Judged(cs, from, n, IDX_MAX);
        r := IDX_MAX;
        return;
      }
      p := next;
      i := i + 1;
    }
  }

  /** The walk from the block of rank n begins with the rank less the block's count. */
  lemma Sitting(loc: Locator, cs: seq<Chunk>, n: nat, j: nat, from: nat)
    requires WfStream(cs) && Good(loc, cs) && BlockAt(loc, cs, j, from) && (j == 0 ==> from == 0) && n < TWO64
    requires (j == 0 || loc.prefixes[j] <= n) && forall b :: j < b < |loc.prefixes| ==> loc.prefixes[b] > n
    ensures j < |loc.offsets| && j < |loc.prefixes| && loc.offsets[j] == 1 + Off(cs, from) && loc.prefixes[j] <= n
    ensures from < |cs| && Seated(loc, cs, n, from) && Skipped(Chunked(cs), from) == loc.prefixes[j]
    ensures Walking(cs, from, from, n, n - loc.prefixes[j])
  {
    hide Count, WfStream, Good, Members, ClearTo;
    ChunkedForm(Chunked(cs));
    StartBelowTop(cs, from);
    PrefixWhole(cs, from, TOP);
    SeedZero(cs, from, j, loc.prefixes[j]);
    ClearNone(cs, from, n);
  }

  lemma Judged(cs: seq<Chunk>, from: nat, n: nat, r: nat)
    requires WfStream(cs) && Chosen(Chunked(cs), from, n, r) && n < TWO64
    ensures Selected(FormMembers(Chunked(cs)), n, r) <==> Answers(Chunked(cs), from, n)
    ensures n < TWO63 ==> Selected(FormMembers(Chunked(cs)), n, r)
  {
    hide Selected, FormMembers, Answers, Snags, WfStream, FirstSnag;
    ChosenRight(Chunked(cs), from, n, r);
    if n < TWO63 {
      NoSnagBelow(Chunked(cs), from, n);
    }
  }

  lemma SeedZero(cs: seq<Chunk>, i: nat, j: nat, prefix: nat)
    requires i < |cs| && (j == 0 ==> i == 0) && prefix == Count(Members(cs), 0, cs[i].start) == Count(Members(cs[..i]), 0, TOP)
    ensures j == 0 ==> prefix == 0
  {
    if j == 0 {
      WholePrefix(cs);
      CountNone(Members(cs[..0]), 0, TOP);
    }
  }

  /** There is one right answer to a selection, so the directory's is the plain one where both are right. */
  lemma SelectedUnique(s: iset<nat>, n: nat, r: nat, q: nat)
    requires Selected(s, n, r) && Selected(s, n, q) && forall x: nat :: x in s ==> x < TOP
    ensures r == q
  {
    hide Count;
    SelectedCases(s, n, r);
    SelectedCases(s, n, q);
    if r != IDX_MAX && q != IDX_MAX {
      NthUnique(s, 0, n, r, q);
    }
  }
}
