// Merging a chunk with neighbours whose runs meet it, and the pass over a whole map.
module Coalesce {
  import opened Words
  import opened Chunks
  import opened Streams
  import opened Codec
  import opened Maps
  import opened RunLengths
  import opened Appends
  import opened Locate

  /** No run of consecutive members is longer than a descriptor can say. */
  ghost predicate ShortRuns(s: iset<nat>) {
    forall lo: nat, hi: nat :: lo < hi && Range(lo, hi) <= s ==> hi - lo <= RLE_LIMIT
  }

  lemma RemoveMiddle(a: seq<Word>, b: seq<Word>, c: seq<Word>)
    ensures (a + b + c)[..|a|] + (a + b + c)[|a| + |b|..] == a + c
  {
    assert (a + b + c)[..|a|] == a;
    assert (a + b + c)[|a| + |b|..] == c;
  }

  /** The stream after chunks k and k + 1 became one run-length chunk. */
  ghost function Merged(cs: seq<Chunk>, k: nat, cap: nat, len: nat): seq<Chunk>
    requires k + 1 < |cs|
  {
    cs[..k] + [RleChunk(cs[k].start, cap, len)] + cs[k + 2..]
  }

  /** The edits that merge two chunks: rewrite the first's descriptor, cut out the second, drop the count. */
  lemma LayoutMerge(cs: seq<Chunk>, k: nat, cap: nat, len: nat, p: nat, q: nat, e: nat)
    requires k + 1 < |cs| && cs[k].vecs == []
    requires p == 1 + Off(cs, k) && q == 1 + Off(cs, k + 1) && e == 1 + Off(cs, k + 2)
    ensures 0 < p && q == p + 2 <= e <= |Layout(Chunked(cs))|
    ensures var w := Layout(Chunked(cs))[p + 1 := RleDesc(cap, len)];
      Layout(Chunked(Merged(cs, k, cap, len))) == (w[..q] + w[e..])[0 := CountHeader(|cs| - 1)]
  {
    hide Stream, Layout, Off, CountHeader, RleDesc;
    var c', d := RleChunk(cs[k].start, cap, len), RleDesc(cap, len);
    var pre, post := cs[..k], cs[k + 2..];
    PairLayout(cs, k);
    MergeWords(CountHeader(|cs|), CountHeader(|cs| - 1), Stream(pre), Enc(cs[k]), Enc(cs[k + 1]), Stream(post), d, p, e);
    assert Enc(cs[k])[1 := d] == Enc(c');
    StreamOne(c');
    LayoutParts(pre, [c'], post);
  }

  lemma MergeWords(h: Word, h': Word, s: seq<Word>, e1: seq<Word>, e2: seq<Word>, t: seq<Word>, d: Word, p: nat, e: nat)
    requires |e1| == 2 && p == 1 + |s| && e == p + 2 + |e2|
    ensures var w := ([h] + s + e1 + e2 + t)[p + 1 := d];
      (w[..p + 2] + w[e..])[0 := h'] == [h'] + s + e1[1 := d] + t
  {
    UpdateMiddle([h] + s, e1, e2 + t, 1, d);
    assert [h] + s + e1 + e2 + t == [h] + s + e1 + (e2 + t);
    var w := [h] + s + e1[1 := d] + e2 + t;
    assert [h] + s + e1[1 := d] + (e2 + t) == w;
    RemoveMiddle([h] + s + e1[1 := d], e2, t);
  }

  lemma PairLayout(cs: seq<Chunk>, k: nat)
    requires k + 1 < |cs|
    ensures Layout(Chunked(cs)) == [CountHeader(|cs|)] + Stream(cs[..k]) + Enc(cs[k]) + Enc(cs[k + 1]) + Stream(cs[k + 2..])
    ensures Off(cs, k) == |Stream(cs[..k])|
    ensures Off(cs, k + 1) == Off(cs, k) + |Enc(cs[k])|
    ensures Off(cs, k + 2) == Off(cs, k + 1) + |Enc(cs[k + 1])|
  {
    hide Stream, Enc;
    StreamAt(cs, k);
    StreamAt(cs, k + 1);
    assert cs[k + 1..] == [cs[k + 1]] + cs[k + 2..];
    StreamOne(cs[k + 1]);
    StreamConcat([cs[k + 1]], cs[k + 2..]);
  }

  /** A chunk whose run ends at `start`, and after it a chunk that is a run. */
  ghost predicate Meet(cs: seq<Chunk>, k: nat, start: nat, run: nat) {
    && k + 1 < |cs|
    && cs[k].vecs == []
    && Aligned(start) && start <= cs[k + 1].start
    && cs[k].start + WINDOW <= start
    && ChunkMembers(cs[k]) == Range(cs[k].start, start)
    && ChunkMembers(cs[k + 1]) == Range(cs[k + 1].start, cs[k + 1].start + run)
    && 0 < run <= Span(cs[k + 1])
    && start + run - cs[k].start <= RLE_LIMIT
  }

  /** The members after chunk k + 1 was merged into chunk k as if its run began at `start`. */
  ghost function Joined(cs: seq<Chunk>, k: nat, start: nat, run: nat): iset<nat>
    requires k + 1 < |cs|
  {
    Members(cs[..k]) + Range(cs[k].start, start + run) + Members(cs[k + 2..])
  }

  /** The merged chunk is well formed and fits before what follows. */
  lemma MergeKeeps(cs: seq<Chunk>, k: nat, start: nat, run: nat, cap: nat)
    requires WfStream(cs) && Meet(cs, k, start, run)
    requires cap == RoundUp(start + run) - cs[k].start
    ensures var len := start + run - cs[k].start;
      && 0 < len <= cap <= RLE_LIMIT && Aligned(cap)
      && WfStream(Merged(cs, k, cap, len))
      && Members(Merged(cs, k, cap, len)) == Joined(cs, k, start, run)
      && (AllFull(cs) ==> AllFull(Merged(cs, k, cap, len)))
      && (k + 2 < |cs| ==> cap <= cs[k + 2].start - cs[k].start)
  {
    hide WfStream, Members, AllFull, Range, ChunkMembers, Aligned, Span, WfChunk, RleDesc, RoundUp, IsRle, Full, RleCap, RleLen;
    var len := start + run - cs[k].start;
    var pre, mid, post := cs[..k], [cs[k], cs[k + 1]], cs[k + 2..];
    assert cs == pre + mid + post;
    PairFacts(cs, k);
    RunEnds(cs, k, start, run);
    RoundUpFacts(start + run, cs[k + 1].start + Span(cs[k + 1]));
    AlignedDiff(RoundUp(start + run), cs[k].start);
    RoundUpSmall(len, cs[k].start, cap);
    var c' := RleChunk(cs[k].start, cap, len);
    RleChunkWf(cs[k].start, cap, len);
    WfOne(c');
    WfSplice(pre, mid, post, [c']);
    RleChunkMembers(cs[k].start, cap, len);
    HasOne(c');
  }

  lemma RunEnds(cs: seq<Chunk>, k: nat, start: nat, run: nat)
    requires WfStream(cs) && Meet(cs, k, start, run)
    ensures start + run <= cs[k + 1].start + Span(cs[k + 1])
    ensures cs[k].start < start && start + run - cs[k].start <= RLE_LIMIT
  {
  }

  /** Merged at its own start, the chunk's members stay. */
  lemma JoinedSame(cs: seq<Chunk>, k: nat, run: nat)
    requires WfStream(cs) && k + 1 < |cs| && Meet(cs, k, cs[k + 1].start, run)
    ensures Joined(cs, k, cs[k + 1].start, run) == Members(cs)
  {
    hide WfStream, Members, Range, ChunkMembers, Aligned, Span, WfChunk;
    var pre, mid, post := cs[..k], [cs[k], cs[k + 1]], cs[k + 2..];
    assert cs == pre + mid + post;
    HasOne(cs[k]);
    HasOne(cs[k + 1]);
    HasConcat([cs[k]], [cs[k + 1]]);
    assert mid == [cs[k]] + [cs[k + 1]];
    MembersSplit(pre, mid, post);
    RunEnds(cs, k, cs[k + 1].start, run);
    RangeJoin(iset{}, cs[k].start, cs[k + 1].start, cs[k + 1].start + run);
  }

  lemma PairFacts(cs: seq<Chunk>, k: nat)
    requires WfStream(cs) && k + 1 < |cs|
    ensures WfChunk(cs[k]) && WfChunk(cs[k + 1])
    ensures cs[k].start + WINDOW <= cs[k].start + Span(cs[k]) <= cs[k + 1].start
    ensures Aligned(cs[k].start) && Aligned(cs[k + 1].start + Span(cs[k + 1]))
    ensures cs[k + 1].start + Span(cs[k + 1]) <= TOP
    ensures k + 2 < |cs| ==> cs[k + 1].start + Span(cs[k + 1]) <= cs[k + 2].start
  {
    SpanPositive(cs[k]);
    SpanPositive(cs[k + 1]);
  }

  /** The joined run is a run of members, hence short. */
  lemma RunWithin(cs: seq<Chunk>, k: nat, run: nat)
    requires WfStream(cs) && k + 1 < |cs| && ShortRuns(Members(cs)) && run > 0
    requires ChunkMembers(cs[k]) == Range(cs[k].start, cs[k + 1].start)
    requires ChunkMembers(cs[k + 1]) == Range(cs[k + 1].start, cs[k + 1].start + run)
    ensures cs[k + 1].start + run - cs[k].start <= RLE_LIMIT
  {
    hide WfStream, ChunkHas, Aligned, WfChunk;
    var lo, hi := cs[k].start, cs[k + 1].start + run;
    PairFacts(cs, k);
    assert Range(lo, hi) <= Members(cs) by {
      forall x: nat | x in Range(lo, hi) ensures x in Members(cs) {
        if x < cs[k + 1].start {
          assert x in Range(lo, cs[k + 1].start);
          assert ChunkHas(cs[k], x);
        } else {
          assert x in Range(cs[k + 1].start, hi);
          assert ChunkHas(cs[k + 1], x);
        }
      }
    }
  }

  /** x rounded up to a window boundary. */
  function RoundUp(x: nat): nat {
    (x + WINDOW - 1) / WINDOW * WINDOW
  }

  lemma RoundUpFacts(x: nat, e: nat)
    requires Aligned(e) && x <= e
    ensures Aligned(RoundUp(x)) && x <= RoundUp(x) <= e && RoundUp(x) < x + WINDOW
  {
    AlignedWhole(x + WINDOW - 1);
    if e < RoundUp(x) {
      AlignedStep(e, RoundUp(x));
    }
  }

  lemma RoundUpSmall(len: nat, start: nat, cap: nat)
    requires len <= RLE_LIMIT && Aligned(cap) && cap < len + WINDOW
    ensures cap <= RLE_LIMIT
  {
    AlignedConstants();
    if RLE_LIMIT < cap {
      AlignedStep(RLE_LIMIT, cap);
    }
  }

  /**
   * Merges chunk k with chunk k + 1, whose run is taken to begin at `start`: the new capacity
   * is the window boundary past the joined run, held below the chunk that follows.
   */
  method MergePair(m: Map, p: nat, left: Chunk, q: nat, right: Chunk, start: nat, run: nat, ghost k: nat) returns (merged: bool)
    requires m.Valid() && k + 1 < |m.Chunks()|
    requires p == 1 + Off(m.Chunks(), k) && left == m.Chunks()[k]
    requires q == 1 + Off(m.Chunks(), k + 1) && right == m.Chunks()[k + 1]
    requires Meet(m.Chunks(), k, start, run)
    modifies m, m.data
    ensures m.Valid() && m.form.Chunked? && m.data == old(m.data)
    ensures merged
    ensures Members(m.Chunks()) == Joined(old(m.Chunks()), k, start, run)
    ensures AllFull(old(m.Chunks())) ==> AllFull(m.Chunks())
    ensures |m.Chunks()| == |old(m.Chunks())| - 1
    ensures m.Chunks()[..k] == old(m.Chunks())[..k] && m.Chunks()[k + 1..] == old(m.Chunks())[k + 2..]
    ensures m.Chunks()[k].start == left.start
    ensures Off(m.Chunks(), k) == Off(old(m.Chunks()), k) && Off(m.Chunks(), k + 1) == Off(old(m.Chunks()), k + 1)
    ensures IsRunLength(m.Chunks()[k], start + run - left.start)
    ensures m.used < old(m.used)
  {
    hide Layout, WfStream, Off, Members, AllFull, Meet, Joined, Merged, Aligned, RleDesc, Floor;
    ghost var cs := m.Chunks();
    assert m.form == Chunked(cs) && m.used == |Layout(Chunked(cs))|;
    MeetBasics(cs, k, start, run);
    var newLen := start + run - left.start;
    var newCap: int := RoundUp(left.start + newLen) - left.start;
    MergeKeeps(cs, k, start, run, newCap);
    merged := true;
    if IsRle(right.desc) && run > Cap(right) {
      merged := false;
    }
    var post := q + 1 + Size(right.desc);
    OffNext(cs, k + 1);
    MoreChunks(cs, k + 2);
    if post + 1 < m.used {
      var next := m.Load(post, k + 2);
      var avail := next.start - left.start;
      if avail < newCap {
        newCap := avail;
      }
    }
    if newCap < newLen {
      newCap := newLen;
    }
    if newCap > RLE_MAX {
      newCap := RLE_MAX;
    }
    if merged && newLen > newCap {
      merged := false;
    }
    if merged {
      CutSecond(m, p, left, q, 1 + Size(right.desc), newCap, newLen, k);
      MergedShape(cs, k, newCap, newLen);
    }
  }

  lemma MergedShape(cs: seq<Chunk>, k: nat, cap: nat, len: nat)
    requires k + 1 < |cs| && cs[k].vecs == [] && cap <= RLE_MAX && len <= RLE_MAX
    ensures var cs' := Merged(cs, k, cap, len);
      && |cs'| == |cs| - 1 && cs'[..k] == cs[..k] && cs'[k + 1..] == cs[k + 2..] && cs'[k].start == cs[k].start
      && Off(cs', k) == Off(cs, k) && Off(cs', k + 1) == Off(cs, k + 1)
      && IsRunLength(cs'[k], len)
  {
    var cs' := Merged(cs, k, cap, len);
    assert cs'[..k] == cs[..k];
    StreamAt(cs, k);
    StreamAt(cs', k);
    RleDescFields(cap, len);
  }

  lemma MeetBasics(cs: seq<Chunk>, k: nat, start: nat, run: nat)
    requires WfStream(cs) && Meet(cs, k, start, run)
    ensures cs[k].start < start && 0 < run
    ensures IsRle(cs[k + 1].desc) ==> run <= Cap(cs[k + 1])
    ensures Shaped(cs[k + 1]) && cs[k].vecs == []
  {
    PairFacts(cs, k);
  }

  /** Rewrites chunk k as a run-length chunk and cuts chunk k + 1 out of the buffer. */
  method CutSecond(m: Map, p: nat, left: Chunk, q: nat, width: nat, cap: nat, len: nat, ghost k: nat)
    requires m.Valid() && k + 1 < |m.Chunks()|
    requires p == 1 + Off(m.Chunks(), k) && left == m.Chunks()[k] && left.vecs == []
    requires q == 1 + Off(m.Chunks(), k + 1) && q + width == 1 + Off(m.Chunks(), k + 2)
    requires cap <= RLE_MAX && len <= RLE_MAX
    requires WfStream(Merged(m.Chunks(), k, cap, len))
    modifies m, m.data
    ensures m.Valid() && m.data == old(m.data)
    ensures m.form == Chunked(Merged(old(m.Chunks()), k, cap, len))
    ensures m.used == old(m.used) - width
  {
    hide WfForm, Layout, WfStream, Off, Merged, RleDesc, CountHeader, SetRleLen, SetRleCap, SetRle, U64, ToNat;
    ghost var cs, cs' := m.Chunks(), Merged(m.Chunks(), k, cap, len);
    ChunkedWf(cs);
    LayoutMerge(cs, k, cap, len, p, q, q + width);
    SetRleIs(left.desc);
    RleSetFields(SetRle(left.desc), cap, len);
    var n := m.Count();
    m.Put(p + 1, SetRleLen(SetRleCap(SetRle(left.desc), cap), len));
    m.Remove(q, width);
    m.Put(0, CountHeader(n - 1));
    ChunkedWf(cs');
    m.form := Chunked(cs');
  }

  lemma SetRleIs(d: Word)
    ensures IsRle(SetRle(d))
  {
  }

  /** Chunk k may be merged with its right neighbour without losing the neighbour's tail. */
  ghost predicate NeighbourSafe(cs: seq<Chunk>, k: nat, idx: nat, isSet: bool) {
    isSet && k + 1 < |cs| ==> idx < cs[k + 1].start || IsRunLength(cs[k + 1], 0)
  }

  /** The runs of two neighbours meet, so they can be merged. */
  lemma RunsMeet(cs: seq<Chunk>, k: nat, leftRun: nat, start: nat, run: nat)
    requires WfStream(cs) && k + 1 < |cs|
    requires IsRunLength(cs[k], leftRun) && leftRun > 0 && cs[k].start + leftRun == start
    requires IsRunLength(cs[k + 1], run) && run > 0
    requires Aligned(start) && start <= cs[k + 1].start
    requires (start == cs[k + 1].start && ShortRuns(Members(cs))) || leftRun + run <= RLE_LIMIT
    ensures Meet(cs, k, start, run)
  {
    hide Range, ShortRuns, Aligned, WfRle, WfSparse, ChunkHas;
    PairFacts(cs, k);
    AlignedDiff(start, cs[k].start);
    AlignedStep(cs[k].start, start);
    WholeRun(cs[k], leftRun);
    RunMembers(cs[k + 1], run);
    if start == cs[k + 1].start && ShortRuns(Members(cs)) {
      RunWithin(cs, k, run);
    }
  }

  lemma RunMembers(c: Chunk, run: nat)
    requires WfChunk(c) && IsRunLength(c, run) && run > 0
    ensures ChunkMembers(c) == Range(c.start, c.start + run) && run <= Span(c)
  {
    if IsRle(c.desc) {
      RleMembers(c);
    }
  }

  /** `start` lies between the end of the chunk before chunk i and the start of chunk i, as a removed chunk's start does. */
  ghost predicate StartFits(cs: seq<Chunk>, i: nat, start: nat) {
    && i < |cs|
    && Aligned(start) && start <= cs[i].start
    && (i > 0 ==> cs[i - 1].start + Span(cs[i - 1]) <= start)
  }

  /** The chunk before chunk i is a run that ends at `start`. */
  ghost predicate LeftMeets(cs: seq<Chunk>, i: nat, start: nat) {
    0 < i < |cs| && cs[i - 1].start < start && IsRunLength(cs[i - 1], start - cs[i - 1].start)
  }

  /** The run of chunk k ends where chunk k + 1 begins with a run: the two can be merged. */
  ghost predicate Joinable(cs: seq<Chunk>, k: nat) {
    k + 1 < |cs| && LeftMeets(cs, k + 1, cs[k + 1].start) && !IsRunLength(cs[k + 1], 0)
  }

  /** No chunk below chunk n can be merged with the one after it. */
  ghost predicate NoneJoin(cs: seq<Chunk>, n: nat) {
    forall j: nat :: j < n ==> !Joinable(cs, j)
  }

  /** Joined runs of members are short enough for both checks of their size. */
  lemma JoinedShort(cs: seq<Chunk>, k: nat, n: nat, run: nat)
    requires WfStream(cs) && ShortRuns(Members(cs)) && k + 1 < |cs|
    requires IsRunLength(cs[k], n) && n > 0 && cs[k].start + n == cs[k + 1].start && IsRunLength(cs[k + 1], run) && run > 0
    ensures WINDOW <= n && n + run <= RLE_LIMIT
  {
    hide ShortRuns, Aligned, IsRunLength, ChunkMembers, Range;
    StartsApart(cs, k);
    RunsMeet(cs, k, n, cs[k + 1].start, run);
  }

  /** A chunk without a run joins neither neighbour. */
  lemma NoRunNoJoin(cs: seq<Chunk>, i: nat)
    requires i < |cs| && IsRunLength(cs[i], 0)
    ensures !Joinable(cs, i) && (i > 0 ==> !Joinable(cs, i - 1))
  {
    hide IsRunLength;
    OnlyRun(cs[i], 0);
  }

  /** A sparse chunk that is not all ones does not reach its right neighbour. */
  lemma NotWholeNoJoin(cs: seq<Chunk>, i: nat)
    requires WfStream(cs) && i < |cs| && !IsRle(cs[i].desc) && cs[i].desc != ONES
    ensures !Joinable(cs, i)
  {
    if Joinable(cs, i) {
      PairFacts(cs, i);
      FullRun(cs[i]);
      assert false;
    }
  }

  /** A chunk before chunk i whose run ends at `start` is chunk i - 1. */
  lemma LeftIsNext(cs: seq<Chunk>, j: nat, i: nat, start: nat, run: nat)
    requires WfStream(cs) && j < i < |cs| && IsRunLength(cs[j], run) && run > 0
    requires StartFits(cs, i, start) && cs[j].start + run == start
    ensures j + 1 == i && LeftMeets(cs, i, start)
  {
    SpanPositive(cs[j + 1]);
    InOrder(cs, j + 1, i - 1);
    SpanPositive(cs[i - 1]);
    RunMembers(cs[j], run);
  }

  lemma InOrder(cs: seq<Chunk>, a: nat, b: int)
    requires WfStream(cs) && b < |cs|
    ensures a < b ==> cs[a].start + Span(cs[a]) <= cs[b].start
  {
  }

  /** The walk to the index before `start` finds the chunk whose run ends at `start`. */
  lemma LeftFound(cs: seq<Chunk>, i: nat, start: nat, j: nat)
    requires WfStream(cs) && StartFits(cs, i, start) && LeftMeets(cs, i, start) && start > 0 && Located(cs, start - 1, j)
    ensures j == i - 1
  {
    RunCap(cs[i - 1], start - cs[i - 1].start);
    assert start - 1 < cs[i - 1].start + Cap(cs[i - 1]);
    RunCapSpan(cs, j);
    InOrder(cs, j, i - 1);
  }

  lemma RunCap(c: Chunk, n: nat)
    requires WfChunk(c) && IsRunLength(c, n) && n > 0
    ensures n <= Cap(c)
  {
    if !IsRle(c.desc) {
      assert Between(c.start, c.start + n - 1, c.start + n);
      ChunkHasBound(c, c.start + n - 1);
    }
  }

  lemma RunCapSpan(cs: seq<Chunk>, j: nat)
    requires j < |cs|
    ensures Cap(cs[j]) <= Span(cs[j])
  {
  }

  lemma PrefixShorter(c: Chunk, a: nat, b: nat)
    requires PrefixRun(c, a) && a < b
    ensures !PrefixRun(c, b)
  {
    var x := c.start + a;
    assert ChunkHas(c, x) <==> Between(c.start, x, c.start + a);
    assert Between(c.start, x, c.start + b);
  }

  /** A chunk has at most one run length. */
  lemma RunUnique(c: Chunk, a: nat, b: nat)
    requires IsRunLength(c, a) && IsRunLength(c, b)
    ensures a == b
  {
    hide PrefixRun;
    if !IsRle(c.desc) {
      if a < b && a > 0 {
        PrefixShorter(c, a, b);
      }
      if b < a && b > 0 {
        PrefixShorter(c, b, a);
      }
    }
  }

  lemma OffStrict(cs: seq<Chunk>, j: nat, i: nat)
    requires j <= |cs| && i <= |cs|
    ensures Off(cs, j) < Off(cs, i) <==> j < i
    ensures Off(cs, 0) == 0
  {
    StreamEnds(cs);
    if j < i {
      OffMonotone(cs, j, i);
    } else {
      OffMonotone(cs, i, j);
    }
  }

  /** What the coalescing of chunk i with its left neighbour does to the set. */
  ghost predicate LeftMerged(cs: seq<Chunk>, now: seq<Chunk>, i: nat, start: nat, run: nat) {
    i < |cs| && if LeftMeets(cs, i, start) then Members(now) == Joined(cs, i - 1, start, run) else Members(now) == Members(cs)
  }

  /** The sizes at which every merge the code looks for is also made. */
  ghost predicate SmallEnough(cs: seq<Chunk>, i: nat, start: nat, run: nat) {
    i < |cs| && (start != cs[i].start && LeftMeets(cs, i, start) ==> start - cs[i - 1].start + run <= RLE_LIMIT && WINDOW + run < RLE_MAX)
  }

  /** The first phase: merges chunk i into the one before it, when that one's run ends at `start`. */
  method MergeLeft(m: Map, p: nat, c: Chunk, start: nat, run: nat, ghost i: nat) returns (at: nat, ghost k: nat, removed: nat)
    requires m.Valid() && i < |m.Chunks()| && p == 1 + Off(m.Chunks(), i) && p > 1
    requires c == m.Chunks()[i] && IsRunLength(c, run) && run > 0
    requires StartFits(m.Chunks(), i, start) && (start == c.start || SmallEnough(m.Chunks(), i, start, run))
    requires ShortRuns(Members(m.Chunks()))
    modifies m, m.data
    ensures m.Valid() && m.form.Chunked? && m.data == old(m.data)
    ensures start == c.start ==> Members(m.Chunks()) == Members(old(m.Chunks()))
    ensures start < c.start ==> LeftMerged(old(m.Chunks()), m.Chunks(), i, start, run)
    ensures start == c.start ==> (removed > 0 <==> LeftMeets(old(m.Chunks()), i, start))
    ensures AllFull(old(m.Chunks())) ==> AllFull(m.Chunks())
    ensures |m.Chunks()| == |old(m.Chunks())| - removed && k < |m.Chunks()| && at == 1 + Off(m.Chunks(), k)
    ensures removed == 0 ==> m.form == old(m.form) && k == i && at == p
    ensures removed > 0 ==> k + 1 == i && m.Chunks()[k + 1..] == old(m.Chunks())[i + 1..] && m.used < old(m.used)
    ensures removed > 0 ==> m.Chunks()[k].start < start && IsRunLength(m.Chunks()[k], start + run - m.Chunks()[k].start)
    ensures removed > 0 && start == c.start ==> PairMerged(old(m.Chunks()), m.Chunks(), k)
    ensures removed > 0 ==> LeftMeets(old(m.Chunks()), i, start)
    ensures i <= |m.Chunks()| && p == 1 + Off(m.Chunks(), i)
  {
    hide Layout, WfStream, Off, Members, AllFull, ShortRuns, IsRunLength, Aligned, Meet, Located, StartFits, LeftMeets, Joined;
    ghost var cs := m.Chunks();
    at, k, removed := p, i, 0;
    OffStrict(cs, 0, i);
    StartPositive(cs, i, start);
    var q, j := FindChunk(m, start - 1);
    LocatedHere(cs, start - 1, j);
    OffStrict(cs, j, i);
    if LeftMeets(cs, i, start) {
      LeftFound(cs, i, start, j);
      LeftRun(cs, i, start);
      LeftShort(cs, i, start, run);
    }
    if q < p {
      var adj := m.Load(q, j);
      ChunkShape(cs, j);
      var adjRun := GetRunLength(adj);
      if adjRun > 0 && adj.start + adjRun == start && WINDOW + run < RLE_MAX {
        LeftIsNext(cs, j, i, start, adjRun);
        StartOf(cs, i, start);
        RunsMeet(cs, j, adjRun, start, run);
        var merged := MergePair(m, q, adj, p, c, start, run, j);
        at, k, removed := q, j, 1;
        if start == c.start {
          JoinedSame(cs, j, run);
          PairIsMerged(cs, m.Chunks(), j, adjRun, run);
        }
      } else {
        NoLeftRun(cs, i, start, j, adjRun);
      }
    }
  }

  lemma LeftShort(cs: seq<Chunk>, i: nat, start: nat, run: nat)
    requires WfStream(cs) && ShortRuns(Members(cs)) && LeftMeets(cs, i, start) && IsRunLength(cs[i], run) && run > 0
    ensures start == cs[i].start ==> WINDOW + run < RLE_MAX
  {
    if start == cs[i].start {
      JoinedShort(cs, i - 1, start - cs[i - 1].start, run);
    }
  }

  lemma StartOf(cs: seq<Chunk>, i: nat, start: nat)
    requires StartFits(cs, i, start)
    ensures Aligned(start) && start <= cs[i].start
  {
  }

  lemma LeftRun(cs: seq<Chunk>, i: nat, start: nat)
    requires LeftMeets(cs, i, start)
    ensures 0 < i < |cs|
  {
  }

  /** A left neighbour whose measured run does not end at `start` does not meet it. */
  lemma NoLeftRun(cs: seq<Chunk>, i: nat, start: nat, j: nat, adjRun: nat)
    requires j < |cs| && IsRunLength(cs[j], adjRun)
    ensures LeftMeets(cs, i, start) && j == i - 1 ==> adjRun > 0 && cs[j].start + adjRun == start
  {
    if LeftMeets(cs, i, start) && j == i - 1 {
      RunUnique(cs[j], start - cs[j].start, adjRun);
    }
  }

  lemma StartPositive(cs: seq<Chunk>, i: nat, start: nat)
    requires WfStream(cs) && 0 < i < |cs| && StartFits(cs, i, start)
    ensures start > 0
  {
    SpanPositive(cs[i - 1]);
  }

  lemma ChunkShape(cs: seq<Chunk>, i: nat)
    requires WfStream(cs) && i < |cs|
    ensures WfRle(cs[i]) || WfSparse(cs[i])
  {
  }

  /** The run of chunk k, read from `start`, does not reach the chunk after it. */
  ghost predicate Apart(cs: seq<Chunk>, k: nat, start: nat) {
    k + 1 < |cs| ==> forall n: nat :: IsRunLength(cs[k], n) ==> start + n < cs[k + 1].start
  }

  /** The run that c begins with ends at e. */
  ghost predicate RunReaches(c: Chunk, e: nat) {
    c.start < e && IsRunLength(c, e - c.start)
  }

  /** Chunks k and k + 1, whose runs meet, became one chunk that ends where the second's run does; the others are as they were. */
  ghost predicate PairMerged(cs: seq<Chunk>, now: seq<Chunk>, k: nat) {
    && k + 1 < |cs| && |now| == |cs| - 1
    && now[..k] == cs[..k] && now[k + 1..] == cs[k + 2..] && now[k].start == cs[k].start
    && !IsRunLength(cs[k], 0)
    && forall e: nat :: RunReaches(now[k], e) ==> RunReaches(cs[k + 1], e)
  }

  lemma PairIsMerged(cs: seq<Chunk>, now: seq<Chunk>, k: nat, left: nat, run: nat)
    requires WfStream(cs) && k + 1 < |cs| && |now| == |cs| - 1
    requires now[..k] == cs[..k] && now[k + 1..] == cs[k + 2..] && now[k].start == cs[k].start
    requires IsRunLength(cs[k], left) && left > 0 && IsRunLength(cs[k + 1], run) && run > 0
    requires now[k].start < cs[k + 1].start && IsRunLength(now[k], cs[k + 1].start + run - now[k].start)
    ensures PairMerged(cs, now, k)
  {
    hide IsRunLength, WfStream;
    RunNotZeroAt(cs, k, left);
    OnlyRun(now[k], cs[k + 1].start + run - now[k].start);
  }

  /** No pair of neighbours can be merged except those that chunk k belongs to. */
  ghost predicate JoinsOnlyAt(cs: seq<Chunk>, k: nat) {
    forall j: nat :: Joinable(cs, j) ==> j == k || j + 1 == k
  }

  /** No pair of neighbours can be merged except chunk k and the one after it. */
  ghost predicate JoinsOnlyRight(cs: seq<Chunk>, k: nat) {
    forall j: nat :: Joinable(cs, j) ==> j == k
  }

  lemma JoinedPair(cs: seq<Chunk>, k: nat)
    ensures Joinable(cs, k) <==> k + 1 < |cs| && RunReaches(cs[k], cs[k + 1].start) && !IsRunLength(cs[k + 1], 0)
  {
  }

  lemma SamePair(a: seq<Chunk>, j: nat, b: seq<Chunk>, l: nat)
    requires j + 1 < |a| && l + 1 < |b| && a[j] == b[l] && a[j + 1] == b[l + 1]
    ensures Joinable(a, j) <==> Joinable(b, l)
  {
  }

  /** After a merge the pairs to the left, and those to the right, are as joinable as before; the merged chunk's own left pair is too. */
  lemma MergedPairs(cs: seq<Chunk>, now: seq<Chunk>, k: nat, j: nat)
    requires PairMerged(cs, now, k) && Joinable(now, j)
    ensures j < k ==> Joinable(cs, j)
    ensures j >= k ==> Joinable(cs, j + 1)
  {
    hide IsRunLength, Joinable, RunReaches;
    JoinedPair(now, j);
    if j < k {
      assert now[j] == now[..k][j] == cs[..k][j] == cs[j];
      if j + 1 < k {
        assert now[j + 1] == now[..k][j + 1] == cs[..k][j + 1] == cs[j + 1];
      }
      JoinedPair(cs, j);
    } else {
      assert now[j + 1] == now[k + 1..][j - k] == cs[k + 2..][j - k] == cs[j + 2];
      if j > k {
        assert now[j] == now[k + 1..][j - k - 1] == cs[k + 2..][j - k - 1] == cs[j + 1];
      }
      JoinedPair(cs, j + 1);
    }
  }

  lemma LeftSettled(cs: seq<Chunk>, now: seq<Chunk>, i: nat, k: nat, removed: nat)
    requires JoinsOnlyAt(cs, i)
    requires removed == 0 ==> now == cs && k == i && (i > 0 ==> !Joinable(cs, i - 1))
    requires removed > 0 ==> k + 1 == i && PairMerged(cs, now, k)
    ensures JoinsOnlyRight(now, k)
  {
    hide PairMerged, Joinable;
    forall j: nat | Joinable(now, j) ensures j == k {
      if removed > 0 {
        MergedPairs(cs, now, k, j);
      }
    }
  }

  lemma RightSettled(mid: seq<Chunk>, now: seq<Chunk>, k: nat, removed: nat)
    requires JoinsOnlyRight(mid, k)
    requires removed == 0 ==> now == mid && !Joinable(mid, k)
    requires removed > 0 ==> PairMerged(mid, now, k)
    ensures NoneJoin(now, |now|)
  {
    hide PairMerged, Joinable;
    forall j: nat ensures !Joinable(now, j) {
      if removed > 0 && Joinable(now, j) {
        MergedPairs(mid, now, k, j);
      }
    }
  }

  lemma SameJoins(cs: seq<Chunk>, k: nat)
    requires NoneJoin(cs, |cs|)
    ensures JoinsOnlyAt(cs, k)
  {
    hide IsRunLength;
  }

  /** Replacing chunk k leaves the pairs it does not belong to as they were. */
  lemma UpdatedJoins(cs: seq<Chunk>, k: nat, c: Chunk)
    requires k < |cs| && NoneJoin(cs, |cs|)
    ensures JoinsOnlyAt(cs[k := c], k)
  {
    hide IsRunLength, Joinable;
    var now := cs[k := c];
    forall j: nat | Joinable(now, j) ensures j == k || j + 1 == k {
      JoinedPair(now, j);
      if j != k && j + 1 != k {
        SamePair(cs, j, now, j);
        NotJoined(cs, j);
      }
    }
  }

  lemma NotJoined(cs: seq<Chunk>, j: nat)
    requires NoneJoin(cs, |cs|)
    ensures !Joinable(cs, j)
  {
  }

  lemma InsertedJoins(cs: seq<Chunk>, k: nat, c: Chunk)
    requires k <= |cs|
    ensures NoneJoin(cs, |cs|) ==> JoinsOnlyAt(cs[..k] + [c] + cs[k..], k)
  {
    hide IsRunLength, Joinable, NoneJoin;
    var now := cs[..k] + [c] + cs[k..];
    if NoneJoin(cs, |cs|) {
      forall j: nat | Joinable(now, j) ensures j == k || j + 1 == k {
        JoinedPair(now, j);
        if j + 1 < k {
          SamePair(cs, j, now, j);
          NotJoined(cs, j);
        } else if j > k {
          SamePair(cs, j - 1, now, j);
          NotJoined(cs, j - 1);
        }
      }
    }
  }

  lemma ApartFrom(cs: seq<Chunk>, k: nat, start: nat, n: nat)
    requires k + 1 < |cs| && IsRunLength(cs[k], n)
    ensures Apart(cs, k, start) ==> start + n < cs[k + 1].start
  {
  }

  /** Merges two neighbours whose measured runs meet. */
  method MergeMeeting(m: Map, p: nat, c: Chunk, q: nat, adj: Chunk, length: nat, run: nat, ghost k: nat)
    requires m.Valid() && m.form.Chunked? && k + 1 < |m.Chunks()| && p == 1 + Off(m.Chunks(), k) && c == m.Chunks()[k]
    requires q == 1 + Off(m.Chunks(), k + 1) && adj == m.Chunks()[k + 1] && ShortRuns(Members(m.Chunks()))
    requires IsRunLength(c, length) && IsRunLength(adj, run) && run > 0 && c.start < adj.start && c.start + length == adj.start
    modifies m, m.data
    ensures m.Valid() && m.form.Chunked? && m.data == old(m.data)
    ensures Members(m.Chunks()) == Members(old(m.Chunks()))
    ensures AllFull(old(m.Chunks())) ==> AllFull(m.Chunks())
    ensures |m.Chunks()| == |old(m.Chunks())| - 1 && m.used < old(m.used)
    ensures m.Chunks()[..k] == old(m.Chunks())[..k] && m.Chunks()[k].start == c.start
    ensures PairMerged(old(m.Chunks()), m.Chunks(), k)
    ensures Off(m.Chunks(), k) == Off(old(m.Chunks()), k)
    ensures Off(m.Chunks(), k + 1) == Off(old(m.Chunks()), k + 1)
  {
    hide Layout, WfStream, Off, Members, AllFull, ShortRuns, IsRunLength, Aligned, Meet, Joined, PairMerged, WfForm;
    ghost var cs := m.Chunks();
    ChunkedWf(cs);
    assert m.form == Chunked(cs);
    StartsApart(cs, k);
    RunsMeet(cs, k, length, adj.start, run);
    var merged := MergePair(m, p, c, q, adj, adj.start, run, k);
    JoinedSame(cs, k, run);
    PairIsMerged(cs, m.Chunks(), k, length, run);
  }

  /** The second phase: merges chunk k with the one after it, when their runs meet. */
  method MergeRight(m: Map, p: nat, c: Chunk, start: nat, idx: nat, isSet: bool, ghost k: nat) returns (removed: nat)
    requires m.Valid() && m.form.Chunked? && k < |m.Chunks()| && p == 1 + Off(m.Chunks(), k) && c == m.Chunks()[k]
    requires NeighbourSafe(m.Chunks(), k, idx, isSet)
    requires (start == c.start && ShortRuns(Members(m.Chunks()))) || Apart(m.Chunks(), k, start)
    modifies m, m.data
    ensures m.Valid() && m.form.Chunked? && m.data == old(m.data)
    ensures Members(m.Chunks()) == Members(old(m.Chunks()))
    ensures AllFull(old(m.Chunks())) ==> AllFull(m.Chunks())
    ensures |m.Chunks()| == |old(m.Chunks())| - removed && k < |m.Chunks()|
    ensures removed == 0 ==> m.form == old(m.form)
    ensures removed == 0 && start == c.start ==> !Joinable(old(m.Chunks()), k)
    ensures removed > 0 ==> m.used < old(m.used)
    ensures m.Chunks()[..k] == old(m.Chunks())[..k] && m.Chunks()[k].start == c.start
    ensures removed > 0 ==> PairMerged(old(m.Chunks()), m.Chunks(), k)
    ensures Apart(old(m.Chunks()), k, start) ==> removed == 0
    ensures Off(m.Chunks(), k) == Off(old(m.Chunks()), k)
    ensures Off(m.Chunks(), k + 1) == Off(old(m.Chunks()), k + 1)
  {
    hide Layout, WfStream, Off, Members, AllFull, ShortRuns, IsRunLength, Aligned, NeighbourSafe, Apart, PairMerged, Joinable, RunReaches;
    ghost var cs := m.Chunks();
    JoinedPair(cs, k);
    removed := 0;
    assert m.form == Chunked(cs) && m.used == |Layout(Chunked(cs))|;
    OffNext(cs, k);
    MoreChunks(cs, k + 1);
    var q := p + 1 + Size(c.desc);
    if q + 1 < m.used {
      var adj := m.Load(q, k + 1);
      ChunkShape(cs, k);
      ChunkShape(cs, k + 1);
      var adjRun := GetRunLength(adj);
      ghost var measured := adjRun;
      if isSet && idx >= adj.start {
        var upTo := idx - adj.start + 1;
        if upTo < adjRun {
          adjRun := upTo;
        }
      }
      SafeRun(cs, k, idx, isSet, measured, adjRun);
      if adjRun == 0 {
        NoRunNoJoin(cs, k + 1);
      } else {
        var length := GetRunLength(c);
        JoinableRuns(cs, k, length, adjRun);
        ApartFrom(cs, k, start, length);
        if start + length == adj.start && adjRun + length < RLE_MAX {
          StartsApart(cs, k);
          MergeMeeting(m, p, c, q, adj, length, adjRun, k);
          removed := 1;
        }
      }
    }
  }

  /** What the measured runs of two neighbours say when they can be merged. */
  lemma JoinableRuns(cs: seq<Chunk>, k: nat, n: nat, run: nat)
    requires WfStream(cs) && k + 1 < |cs| && IsRunLength(cs[k], n) && IsRunLength(cs[k + 1], run) && run > 0
    ensures Joinable(cs, k) ==> cs[k].start + n == cs[k + 1].start && (ShortRuns(Members(cs)) ==> run + n < RLE_MAX)
  {
    hide ShortRuns, Members, IsRunLength;
    if Joinable(cs, k) {
      OnlyRun(cs[k], n);
      if ShortRuns(Members(cs)) {
        JoinedShort(cs, k, n, run);
      }
    }
  }

  lemma StartsApart(cs: seq<Chunk>, k: nat)
    requires WfStream(cs) && k + 1 < |cs|
    ensures cs[k].start < cs[k + 1].start && Aligned(cs[k + 1].start)
  {
    SpanPositive(cs[k]);
  }

  /** The cut to idx changes nothing where the neighbour is safe. */
  lemma SafeRun(cs: seq<Chunk>, k: nat, idx: nat, isSet: bool, measured: nat, cut: nat)
    requires WfStream(cs) && k + 1 < |cs| && NeighbourSafe(cs, k, idx, isSet) && IsRunLength(cs[k + 1], measured)
    requires cut == if isSet && idx >= cs[k + 1].start && idx - cs[k + 1].start + 1 < measured then idx - cs[k + 1].start + 1 else measured
    ensures cut == measured
  {
    if measured > 0 {
      RunNotZero(cs[k + 1], measured);
    }
  }

  lemma RunNotZero(c: Chunk, n: nat)
    requires WfChunk(c) && IsRunLength(c, n) && n > 0
    ensures !IsRunLength(c, 0)
  {
  }

  /** Coalescing chunk i with `start` as its start keeps every member, because it is, or finds nothing to merge. */
  ghost predicate Harmless(cs: seq<Chunk>, i: nat, start: nat) {
    i < |cs| && (start == cs[i].start || IsRunLength(cs[i], 0) || !LeftMeets(cs, i, start))
  }

  /** What coalescing chunk i does to the set. */
  ghost predicate Coalesced(cs: seq<Chunk>, now: seq<Chunk>, i: nat, start: nat) {
    && i < |cs|
    && (Harmless(cs, i, start) ==> Members(now) == Members(cs))
    && (!Harmless(cs, i, start) ==>
         forall run: nat :: IsRunLength(cs[i], run) ==> Members(now) == Joined(cs, i - 1, start, run))
  }

  lemma NothingCoalesced(cs: seq<Chunk>, i: nat, start: nat)
    requires i < |cs| && IsRunLength(cs[i], 0)
    ensures Coalesced(cs, cs, i, start)
  {
  }

  lemma CoalescedFrom(cs: seq<Chunk>, now: seq<Chunk>, i: nat, start: nat, run: nat)
    requires i < |cs| && IsRunLength(cs[i], run) && start <= cs[i].start
    requires start == cs[i].start ==> Members(now) == Members(cs)
    requires start < cs[i].start ==> LeftMerged(cs, now, i, start, run)
    requires !IsRunLength(cs[i], 0)
    ensures Coalesced(cs, now, i, start)
  {
    hide Members, IsRunLength, LeftMeets, Joined;
    OnlyRun(cs[i], run);
  }

  /** What the first phase leaves: chunk k, whose run is read from `from`, in place of chunk i. */
  ghost predicate LeftDone(cs: seq<Chunk>, now: seq<Chunk>, i: nat, start: nat, k: nat, from: nat, removed: nat) {
    && i < |cs| && k < |now|
    && Coalesced(cs, now, i, start)
    && |now| == |cs| - removed
    && (removed == 0 ==> now == cs && k == i)
    && (start == cs[i].start ==> from == now[k].start && (i > 0 ==> (removed > 0 <==> LeftMeets(cs, i, start))) && (i == 0 ==> removed == 0))
    && (start < cs[i].start ==> Apart(now, k, from))
  }

  /** The first phase of coalescing chunk i, which has a run. */
  method LeftPhase(m: Map, p: nat, c: Chunk, start: nat, run: nat, idx: nat, isSet: bool, ghost i: nat)
    returns (at: nat, from: nat, ghost k: nat, removed: nat)
    requires m.Valid() && i < |m.Chunks()| && p == 1 + Off(m.Chunks(), i)
    requires c == m.Chunks()[i] && IsRunLength(c, run) && run > 0 && StartFits(m.Chunks(), i, start)
    requires start == c.start || SmallEnough(m.Chunks(), i, start, run)
    requires ShortRuns(Members(m.Chunks())) && NeighbourSafe(m.Chunks(), i, idx, isSet)
    modifies m, m.data
    ensures m.Valid() && m.form.Chunked? && m.data == old(m.data)
    ensures LeftDone(old(m.Chunks()), m.Chunks(), i, start, k, from, removed)
    ensures AllFull(old(m.Chunks())) ==> AllFull(m.Chunks())
    ensures NeighbourSafe(m.Chunks(), k, idx, isSet) && at == 1 + Off(m.Chunks(), k)
    ensures i <= |m.Chunks()| && p == 1 + Off(m.Chunks(), i)
    ensures removed == 0 ==> m.form == old(m.form) && at == p
    ensures removed > 0 ==> k + 1 == i && m.used < old(m.used)
    ensures start == c.start && JoinsOnlyAt(old(m.Chunks()), i) ==> JoinsOnlyRight(m.Chunks(), k)
    ensures removed > 0 ==> LeftMeets(old(m.Chunks()), i, start)
  {
    hide Layout, WfStream, Off, Members, AllFull, ShortRuns, NeighbourSafe, IsRunLength, Aligned, StartFits, LeftMeets, LeftMerged, Joined, Apart, SmallEnough, Coalesced, PairMerged, JoinsOnlyAt, JoinsOnlyRight, Joinable;
    ghost var cs := m.Chunks();
    RunNotZeroAt(cs, i, run);
    StartOf(cs, i, start);
    at, from, k, removed := p, start, i, 0;
    if p > 1 {
      at, k, removed := MergeLeft(m, p, c, start, run, i);
      SafeAfter(cs, m.Chunks(), i, k, idx, isSet);
      var merged := m.Load(at, k);
      if removed > 0 {
        from := merged.start;
      }
    } else {
      NoLeft(cs, i, start, run);
    }
    CoalescedFrom(cs, m.Chunks(), i, start, run);
    StillApart(cs, m.Chunks(), i, k, start, from, run, removed);
    if start == c.start && JoinsOnlyAt(cs, i) {
      NoMeetNoJoin(cs, i);
      LeftSettled(cs, m.Chunks(), i, k, removed);
    }
  }

  lemma NoMeetNoJoin(cs: seq<Chunk>, i: nat)
    requires i < |cs|
    ensures i > 0 && !LeftMeets(cs, i, cs[i].start) ==> !Joinable(cs, i - 1)
  {
  }

  /** Both phases, for a chunk that has a run. */
  method CoalesceRun(m: Map, p: nat, c: Chunk, start: nat, run: nat, idx: nat, isSet: bool, ghost i: nat) returns (removed: nat)
    requires m.Valid() && i < |m.Chunks()| && p == 1 + Off(m.Chunks(), i)
    requires c == m.Chunks()[i] && IsRunLength(c, run) && run > 0 && StartFits(m.Chunks(), i, start)
    requires start == c.start || SmallEnough(m.Chunks(), i, start, run)
    requires ShortRuns(Members(m.Chunks())) && NeighbourSafe(m.Chunks(), i, idx, isSet)
    modifies m, m.data
    ensures m.Valid() && m.form.Chunked? && m.data == old(m.data)
    ensures Coalesced(old(m.Chunks()), m.Chunks(), i, start)
    ensures AllFull(old(m.Chunks())) ==> AllFull(m.Chunks())
    ensures |m.Chunks()| == |old(m.Chunks())| - removed
    ensures i <= |m.Chunks()| && p == 1 + Off(m.Chunks(), i)
    ensures removed == 0 ==> m.form == old(m.form)
    ensures removed > 0 ==> m.used < old(m.used)
    ensures start == c.start ==> Exhausts(old(m.Chunks()), m.Chunks(), i, removed)
    ensures start == c.start && JoinsOnlyAt(old(m.Chunks()), i) ==> NoneJoin(m.Chunks(), |m.Chunks()|)
    ensures start < c.start && !LeftMeets(old(m.Chunks()), i, start) ==> removed == 0
  {
    hide Layout, WfStream, Off, Members, AllFull, ShortRuns, NeighbourSafe, IsRunLength, Aligned, StartFits, LeftMeets, Apart, SmallEnough, Coalesced, Joinable, Exhausts, LeftDone, PairMerged, JoinsOnlyAt, JoinsOnlyRight, NoneJoin;
    ghost var cs := m.Chunks();
    var at, from, k, left := LeftPhase(m, p, c, start, run, idx, isSet, i);
    ghost var mid := m.Chunks();
    LeftFacts(cs, mid, i, start, k, from, left);
    StartOf(cs, i, start);
    FewerThan(cs, mid, i, start, k, from, left);
    var d := m.Load(at, k);
    var right := 0;
    if IsRle(d.desc) || d.desc == ONES {
      right := MergeRight(m, at, d, from, idx, isSet, k);
      CoalescedLater(cs, mid, m.Chunks(), i, start);
    } else {
      NotWholeNoJoin(mid, k);
    }
    removed := left + right;
    if start == c.start {
      RunNotZeroAt(cs, i, run);
      ExhaustsBoth(cs, mid, m.Chunks(), i, k, run, left, right);
      if JoinsOnlyAt(cs, i) {
        RightSettled(mid, m.Chunks(), k, right);
      }
    }
  }

  lemma LeftFacts(cs: seq<Chunk>, now: seq<Chunk>, i: nat, start: nat, k: nat, from: nat, removed: nat)
    requires LeftDone(cs, now, i, start, k, from, removed)
    ensures i < |cs| && k < |now| && Coalesced(cs, now, i, start) && |now| == |cs| - removed
    ensures removed == 0 ==> now == cs && k == i
    ensures start == cs[i].start ==> from == now[k].start && (i > 0 ==> (removed > 0 <==> LeftMeets(cs, i, start))) && (i == 0 ==> removed == 0)
    ensures start < cs[i].start ==> Apart(now, k, from)
  {
  }

  /** The set after the first phase has short runs where the right neighbour is looked at. */
  lemma FewerThan(cs: seq<Chunk>, now: seq<Chunk>, i: nat, start: nat, k: nat, from: nat, removed: nat)
    requires LeftDone(cs, now, i, start, k, from, removed) && ShortRuns(Members(cs))
    ensures start == cs[i].start ==> ShortRuns(Members(now))
  {
    hide ShortRuns, Members, Joined, LeftMeets, IsRunLength, Apart;
  }

  /**
   * Merges chunk i with its left neighbour and then with its right one, where their runs
   * meet.  `start` is the chunk's stored start, or that of a chunk just removed before it,
   * or anything when the chunk has no run.
   */
  method CoalesceChunk(m: Map, p: nat, start: nat, idx: nat, isSet: bool, ghost i: nat) returns (removed: nat)
    requires m.Valid() && m.form.Chunked? && i < |m.Chunks()| && p == 1 + Off(m.Chunks(), i)
    requires IsRunLength(m.Chunks()[i], 0) || StartFits(m.Chunks(), i, start)
    requires start != m.Chunks()[i].start ==> forall run: nat :: run > 0 && IsRunLength(m.Chunks()[i], run) ==> SmallEnough(m.Chunks(), i, start, run)
    requires ShortRuns(Members(m.Chunks())) && NeighbourSafe(m.Chunks(), i, idx, isSet)
    modifies m, m.data
    ensures m.Valid() && m.form.Chunked? && m.data == old(m.data)
    ensures Coalesced(old(m.Chunks()), m.Chunks(), i, start)
    ensures AllFull(old(m.Chunks())) ==> AllFull(m.Chunks())
    ensures |m.Chunks()| == |old(m.Chunks())| - removed
    ensures i <= |m.Chunks()| && p == 1 + Off(m.Chunks(), i)
    ensures removed == 0 ==> m.form == old(m.form)
    ensures removed > 0 ==> m.used < old(m.used)
    ensures start == old(m.Chunks())[i].start ==> Members(m.Chunks()) == Members(old(m.Chunks()))
    ensures start == old(m.Chunks())[i].start ==> Exhausts(old(m.Chunks()), m.Chunks(), i, removed)
    ensures start < old(m.Chunks())[i].start && Harmless(old(m.Chunks()), i, start) ==> removed == 0
    ensures (start == old(m.Chunks())[i].start || IsRunLength(old(m.Chunks())[i], 0)) && JoinsOnlyAt(old(m.Chunks()), i) ==>
      NoneJoin(m.Chunks(), |m.Chunks()|)
  {
    hide Layout, WfStream, Off, Members, AllFull, ShortRuns, NeighbourSafe, IsRunLength, Aligned, StartFits, SmallEnough, Coalesced, Joinable, Exhausts, JoinsOnlyAt, NoneJoin;
    ghost var cs := m.Chunks();
    removed := 0;
    var c := m.Load(p, i);
    ChunkShape(cs, i);
    var run := GetRunLength(c);
    if (IsRle(c.desc) && run > Cap(c)) || run == 0 {
      RunIsCapped(cs, i, run);
      NothingCoalesced(cs, i, start);
      NoRunNoJoin(cs, i);
      ExhaustsIdle(cs, i);
      IdleSettled(cs, i);
      return;
    }
    OnlyRun(c, run);
    RunNotZeroAt(cs, i, run);
    removed := CoalesceRun(m, p, c, start, run, idx, isSet, i);
    OwnKeeps(cs, m.Chunks(), i);
  }

  lemma OwnKeeps(cs: seq<Chunk>, now: seq<Chunk>, i: nat)
    requires i < |cs|
    ensures Coalesced(cs, now, i, cs[i].start) ==> Members(now) == Members(cs)
  {
    hide Members, IsRunLength, LeftMeets, Joined;
  }

  /**
   * Coalescing chunk i at its own start is exhaustive: it removes nothing only when neither
   * neighbour can be merged, and with no left merge to make it leaves the chunks below i, and
   * the start of chunk i, alone.
   */
  ghost predicate Exhausts(cs: seq<Chunk>, now: seq<Chunk>, i: nat, removed: nat) {
    && i < |cs|
    && (removed == 0 ==> !Joinable(cs, i) && (i > 0 ==> !Joinable(cs, i - 1)))
    && (removed > 0 ==> !IsRunLength(cs[i], 0))
    && (removed > 0 && (i > 0 ==> !Joinable(cs, i - 1)) ==> i < |now| && now[..i] == cs[..i] && now[i].start == cs[i].start)
  }

  lemma ExhaustsIdle(cs: seq<Chunk>, i: nat)
    requires i < |cs| && !Joinable(cs, i) && (i > 0 ==> !Joinable(cs, i - 1))
    ensures Exhausts(cs, cs, i, 0)
  {
  }

  lemma IdleSettled(cs: seq<Chunk>, i: nat)
    requires !Joinable(cs, i) && (i > 0 ==> !Joinable(cs, i - 1))
    ensures JoinsOnlyAt(cs, i) ==> NoneJoin(cs, |cs|)
  {
    hide Joinable;
  }

  lemma ExhaustsBoth(cs: seq<Chunk>, mid: seq<Chunk>, now: seq<Chunk>, i: nat, k: nat, run: nat, left: nat, right: nat)
    requires i < |cs| && IsRunLength(cs[i], run) && run > 0 && !IsRunLength(cs[i], 0)
    requires i > 0 ==> (left > 0 <==> LeftMeets(cs, i, cs[i].start))
    requires i == 0 ==> left == 0
    requires left == 0 ==> mid == cs && k == i && k < |now| && now[..k] == mid[..k] && now[k].start == mid[k].start
    requires left == 0 && right == 0 ==> !Joinable(mid, k)
    ensures Exhausts(cs, now, i, left + right)
  {
    hide IsRunLength;
  }

  lemma CoalescedLater(cs: seq<Chunk>, mid: seq<Chunk>, now: seq<Chunk>, i: nat, start: nat)
    requires Coalesced(cs, mid, i, start) && Members(now) == Members(mid)
    ensures Coalesced(cs, now, i, start)
  {
  }

  lemma OnlyRun(c: Chunk, run: nat)
    requires IsRunLength(c, run)
    ensures forall n: nat :: IsRunLength(c, n) ==> n == run
  {
    forall n: nat | IsRunLength(c, n) ensures n == run {
      RunUnique(c, n, run);
    }
  }

  lemma NoLeft(cs: seq<Chunk>, i: nat, start: nat, run: nat)
    requires i < |cs| && Off(cs, i) == 0
    ensures i == 0 && LeftMerged(cs, cs, i, start, run)
  {
    if i > 0 {
      OffMonotone(cs, 0, i);
    }
  }

  lemma RunIsCapped(cs: seq<Chunk>, i: nat, run: nat)
    requires WfStream(cs) && i < |cs| && IsRunLength(cs[i], run)
    ensures IsRle(cs[i].desc) ==> run <= Cap(cs[i])
  {
  }

  /** With a removed chunk's start, the chunk looked at next never reaches its right neighbour. */
  lemma StillApart(cs: seq<Chunk>, now: seq<Chunk>, i: nat, k: nat, start: nat, from: nat, run: nat, removed: nat)
    requires WfStream(cs) && i < |cs| && IsRunLength(cs[i], run) && run > 0 && start <= cs[i].start
    requires k < |now|
    requires removed == 0 ==> now == cs && k == i && from == start
    requires removed > 0 ==> k + 1 == i && now[k + 1..] == cs[i + 1..] && from == now[k].start
    requires removed > 0 ==> now[k].start < start && IsRunLength(now[k], start + run - now[k].start)
    ensures start < cs[i].start ==> Apart(now, k, from)
    ensures start == cs[i].start ==> from == now[k].start
  {
    if start < cs[i].start && k + 1 < |now| {
      RunMembers(cs[i], run);
      if removed == 0 {
        OnlyRun(now[k], run);
      } else {
        OnlyRun(now[k], start + run - now[k].start);
        assert now[k + 1] == now[k + 1..][0] == cs[i + 1..][0];
      }
      assert cs[i].start + Span(cs[i]) <= cs[i + 1].start;
    }
  }

  lemma RunNotZeroAt(cs: seq<Chunk>, i: nat, run: nat)
    requires WfStream(cs) && i < |cs| && IsRunLength(cs[i], run) && run > 0
    ensures !IsRunLength(cs[i], 0)
  {
    RunNotZero(cs[i], run);
  }

  /** After the first phase the same neighbour follows. */
  lemma SafeAfter(cs: seq<Chunk>, cs': seq<Chunk>, i: nat, k: nat, idx: nat, isSet: bool)
    requires NeighbourSafe(cs, i, idx, isSet) && i < |cs|
    requires (k == i && cs' == cs) || (k + 1 == i <= |cs'| && cs'[k + 1..] == cs[i + 1..])
    ensures NeighbourSafe(cs', k, idx, isSet)
  {
    if k + 1 == i && k + 1 < |cs'| {
      assert cs'[k + 1] == cs'[k + 1..][0] == cs[i + 1..][0] == cs[i + 1];
    }
  }

  /** One pass over the map, staying at a chunk while its neighbours can be absorbed. */
  method CoalesceMap(m: Map) returns (n: nat)
    requires m.Valid() && m.form.Chunked? && ShortRuns(Members(m.Chunks()))
    modifies m, m.data
    ensures m.Valid() && m.form.Chunked? && m.data == old(m.data)
    ensures Members(m.Chunks()) == Members(old(m.Chunks()))
    ensures AllFull(old(m.Chunks())) ==> AllFull(m.Chunks())
    ensures |m.Chunks()| == |old(m.Chunks())| - n
    ensures m.used <= old(m.used)
    ensures NoneJoin(m.Chunks(), |m.Chunks()|)
  {
    hide Layout, WfStream, Off, Members, AllFull, ShortRuns, Aligned, Coalesced, Harmless, IsRunLength, StartFits, NoneJoin, Exhausts;
    n := 0;
    var count: int := m.Count();
    ghost var i: nat := 0;
    var p := 1;
    MoreChunks(m.Chunks(), 0);
    NoneJoinStart(m.Chunks());
    while count > 1
      invariant m.Valid() && m.form.Chunked? && m.data == old(m.data)
      invariant Members(m.Chunks()) == Members(old(m.Chunks()))
      invariant AllFull(old(m.Chunks())) ==> AllFull(m.Chunks())
      invariant |m.Chunks()| == |old(m.Chunks())| - n
      invariant m.used <= old(m.used)
      invariant i <= |m.Chunks()| && p == 1 + Off(m.Chunks(), i)
      invariant |m.Chunks()| - i <= count && NoneJoin(m.Chunks(), i)
      decreases |m.Chunks()|, m.used - p
    {
      assert m.form == Chunked(m.Chunks()) && m.used == |Layout(Chunked(m.Chunks()))|;
      MoreChunks(m.Chunks(), i);
      if p + 2 > m.used {
        break;
      }
      var c := m.Load(p, i);
      var before := m.Count();
      IdleSafe(m.Chunks(), i);
      OwnStart(m.Chunks(), i);
      ghost var was := m.Chunks();
      var amt := CoalesceChunk(m, p, c.start, 0, false, i);
      HarmlessKeeps(was, m.Chunks(), i, c.start);
      NoneJoinStep(was, m.Chunks(), i, amt);
      var after := m.Count();
      n := n + amt;
      if amt > 0 && after < before {
        count := after;
      } else {
        OffNext(m.Chunks(), i);
        p := p + 1 + Size(c.desc);
        i := i + 1;
        count := count - 1;
      }
    }
    NoneJoinAll(m.Chunks(), i);
  }

  lemma NoneJoinStart(cs: seq<Chunk>)
    ensures NoneJoin(cs, 0)
  {
  }

  lemma NoneJoinStep(cs: seq<Chunk>, now: seq<Chunk>, i: nat, removed: nat)
    requires Exhausts(cs, now, i, removed) && NoneJoin(cs, i) && (removed == 0 ==> now == cs)
    ensures NoneJoin(now, if removed == 0 then i + 1 else i)
  {
    if removed > 0 {
      forall j: nat | j < i ensures !Joinable(now, j) {
        assert !Joinable(cs, j);
        assert now[j] == now[..i][j] == cs[..i][j] == cs[j];
        if j + 1 < i {
          assert now[j + 1] == now[..i][j + 1] == cs[..i][j + 1] == cs[j + 1];
        }
      }
    }
  }

  lemma NoneJoinAll(cs: seq<Chunk>, i: nat)
    requires NoneJoin(cs, i) && |cs| <= i + 1
    ensures NoneJoin(cs, |cs|)
  {
    forall j: nat | j < |cs| ensures !Joinable(cs, j) {
      if j < i {
        assert !Joinable(cs, j);
      }
    }
  }

  lemma IdleSafe(cs: seq<Chunk>, k: nat)
    ensures NeighbourSafe(cs, k, 0, false)
  {
  }

  lemma OwnStart(cs: seq<Chunk>, i: nat)
    requires WfStream(cs) && i < |cs|
    ensures StartFits(cs, i, cs[i].start) && Harmless(cs, i, cs[i].start)
  {
  }

  /** A chunk whose stored start is used, or that has no run, is coalesced without harm. */
  lemma ReadyToCoalesce(cs: seq<Chunk>, i: nat, start: nat)
    requires WfStream(cs) && i < |cs| && (start == cs[i].start || IsRunLength(cs[i], 0))
    ensures Harmless(cs, i, start)
    ensures IsRunLength(cs[i], 0) || StartFits(cs, i, start)
    ensures start != cs[i].start ==> forall run: nat :: run > 0 && IsRunLength(cs[i], run) ==> SmallEnough(cs, i, start, run)
  {
    hide IsRunLength, WfStream;
    if start == cs[i].start {
      OwnStart(cs, i);
    } else {
      OnlyRun(cs[i], 0);
    }
  }

  /** The condition under which coalescing keeps the set is sufficient. */
  lemma HarmlessKeeps(cs: seq<Chunk>, now: seq<Chunk>, i: nat, start: nat)
    requires Coalesced(cs, now, i, start) && Harmless(cs, i, start)
    ensures Members(now) == Members(cs)
  {
  }
}
