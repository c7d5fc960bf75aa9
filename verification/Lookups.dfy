// Point lookups: plain, with a read cursor, with an eight-way cache and batched; and
// member-by-member iteration.
module Lookups {
  import opened Words
  import opened Chunks
  import opened Streams
  import opened Maps
  import opened RunLengths
  import opened Locate
  import opened Coalesce
  import opened Slots
  import opened Small
  import opened SetOps
  import opened Runs

  /** No unused slots: the chunks of a stream claim their whole windows. */
  ghost predicate Plain(m: Map?)
    reads m, if m == null then {} else {m.data}
  {
    m != null ==> m.Valid() && m.Strict()
  }

  /** Whether the chunk holds the index at distance rel from its start. */
  method IsSet(c: Chunk, rel: nat) returns (b: bool)
    requires WfChunk(c) && rel < Span(c)
    ensures b == ChunkHas(c, c.start + rel)
  {
    if IsRle(c.desc) {
      return rel < RleLen(c.desc);
    }
    var v, k := rel / 64, rel % 64;
    SlotBit(c, v, k);
    MixedPosition(c.desc, v);
    var f := FlagAt(c.desc, v);
    if f == Ones {
      return true;
    }
    if f == Mixed {
      var pos := Position(c.desc, v);
      return c.vecs[pos][k];
    }
    return false;
  }

  /** The located chunk decides membership. */
  lemma LocatedDecides(cs: seq<Chunk>, x: nat, k: nat)
    requires WfStream(cs) && Located(cs, x, k)
    ensures x in Members(cs) <==> cs[k].start <= x < cs[k].start + Cap(cs[k]) && ChunkHas(cs[k], x)
    ensures Cap(cs[k]) <= Span(cs[k]) && WfChunk(cs[k])
  {
    hide WfRle, WfSparse, ChunkHas, Cap;
    RunSpan(cs, k);
    if x in Members(cs) {
      var i :| 0 <= i < |cs| && ChunkHas(cs[i], x);
      ChunkHasBound(cs[i], x);
      InOrder(cs, k, i);
    }
    if ChunkHas(cs[k], x) {
      MemberOf(cs, k, x);
    }
  }

  lemma RunSpan(cs: seq<Chunk>, k: nat)
    requires k < |cs|
    ensures Cap(cs[k]) <= Span(cs[k])
  {
  }

  // ---- the read cursor -------------------------------------------------------------------------

  class Cursor {
    var offset: nat     // where the cached chunk lies, or 0
    var startIdx: nat   // its recorded start
    var prev: nat       // a hint for coalescing: where the chunk before it lies, or 0

    /** The cursor names a chunk of the stream, or none. */
    ghost predicate Good(cs: seq<Chunk>)
      reads this
    {
      offset != 0 ==> exists k :: 0 <= k < |cs| && offset == 1 + Off(cs, k) && startIdx == cs[k].start
    }

    constructor ()
      ensures offset == 0
    {
      offset, startIdx, prev := 0, 0, 0;
    }
  }

  lemma StartsBefore(cs: seq<Chunk>, k: nat, x: nat)
    requires WfStream(cs) && k < |cs| && cs[k].start <= x
    ensures forall t :: 0 <= t < k ==> cs[t].start + Cap(cs[t]) <= x
  {
    forall t | 0 <= t < k ensures cs[t].start + Cap(cs[t]) <= x {
      RunSpan(cs, t);
    }
  }

  /** Where a lookup resumes: at the cursor's chunk when it is of use, at the first chunk otherwise. */
  method Resume(m: Map, x: nat, cur: Cursor) returns (p: nat, prev: nat, ghost k: nat)
    requires m.Valid() && m.form.Chunked? && m.Chunks() != [] && cur.Good(m.Chunks())
    ensures k < |m.Chunks()| && p == 1 + Off(m.Chunks(), k) && (prev != 0 ==> m.Chunks()[k].start <= x)
    ensures forall t :: 0 <= t < k ==> m.Chunks()[t].start + Cap(m.Chunks()[t]) <= x
  {
    hide Layout, WfStream, Off, Cap;
    ghost var cs := m.Chunks();
    MoreChunks(cs, 0);
    p, prev, k := 1, 0, 0;
    if cur.offset != 0 && cur.offset < m.used && cur.startIdx <= x {
      ghost var j :| 0 <= j < |cs| && cur.offset == 1 + Off(cs, j) && cur.startIdx == cs[j].start;
      StartWord(m, cur.offset, j);
      if ToNat(m.data[cur.offset]) == cur.startIdx {
        p, prev, k := cur.offset, cur.prev, j;
        StartsBefore(cs, j, x);
      }
    }
  }

  /** The lookup with a cursor: resumes at the cached chunk when x is not before it. */
  method FindWith(m: Map, x: nat, cur: Cursor) returns (p: nat, ghost k: nat)
    requires m.Valid() && m.form.Chunked? && m.Chunks() != [] && cur.Good(m.Chunks())
    modifies cur
    ensures Located(m.Chunks(), x, k) && p == 1 + Off(m.Chunks(), k)
    ensures cur.Good(m.Chunks())
  {
    hide Layout, WfStream, Off, Cap, Located;
    ghost var cs := m.Chunks();
    var p0, prev0;
    ghost var k0;
    p0, prev0, k0 := Resume(m, x, cur);
    var q, c, prev, prev2;
    ghost var i;
    q, i, c, prev, prev2 := WalkFrom(m, x, p0, k0, prev0);
    p, k := q, i;
    LocatedHere(cs, x, k);
    if x < c.start && prev != 0 {
      // Between two chunks: the left one is cached, so that the next lookup in the same gap resumes there.
      StartWord(m, prev, k - 1);
      cur.offset, cur.startIdx, cur.prev := prev, ToNat(m.data[prev]), prev2;
    } else {
      cur.offset, cur.startIdx, cur.prev := p, c.start, prev;
    }
  }

  /** The word at a chunk's position is its start. */
  lemma StartWord(m: Map, p: nat, k: nat)
    requires m.Valid() && m.form.Chunked? && k < |m.Chunks()| && p == 1 + Off(m.Chunks(), k)
    ensures p < m.used && ToNat(m.data[p]) == m.Chunks()[k].start
  {
    hide Layout, WfForm, Enc, Off, WfChunk, U64, ToNat;
    m.WordsAt(p, k);
    EncParts(m.Chunks()[k], m.data[p..p + |Enc(m.Chunks()[k])|]);
  }

  // ---- membership ----------------------------------------------------------------------------------

  /** Membership in a bare bitmap. */
  method SmallContains(m: Map, x: nat) returns (b: bool)
    requires m.Valid() && m.form.Small?
    ensures b <==> x in m.Set()
  {
    var ws := SmallWords(m);
    var v := x / 64;
    if v >= |ws| {
      return false;
    }
    return ws[v][x % 64];
  }

  /** The chunk found for x decides. */
  method DecideAt(m: Map, x: nat, p: nat, ghost k: nat) returns (b: bool)
    requires m.Valid() && m.form.Chunked? && Located(m.Chunks(), x, k) && k < |m.Chunks()| && p == 1 + Off(m.Chunks(), k)
    ensures b <==> x in Members(m.Chunks())
  {
    hide WfForm, Layout, WfStream, Members, Off, Located, Cap, WfChunk;
    WfOfForm(m.form);
    var c := m.Load(p, k);
    LocatedDecides(m.Chunks(), x, k);
    if x < c.start || x - c.start >= Cap(c) {
      return false;
    }
    b := IsSet(c, x - c.start);
  }

  /** sm_contains: the same answer with and without a cursor, which keeps naming a chunk of the map. */
  method Contains(m: Map?, x: nat, cur: Cursor?) returns (b: bool)
    requires Plain(m)
    requires m != null && cur != null && m.form.Chunked? ==> cur.Good(m.Chunks())
    modifies if cur == null then {} else {cur}
    ensures b <==> x in SetOf(m)
    ensures m != null && cur != null && m.form.Chunked? ==> cur.Good(m.Chunks())
  {
    hide WfForm, Layout, FormMembers, WfStream, Members, Off, Located, Cap, WfChunk;
    if m == null {
      return false;
    }
    if m.IsSmall() {
      b := SmallContains(m, x);
      return;
    }
    ghost var cs := m.Chunks();
    ChunkedForm(m.form);
    WfOfForm(m.form);
    var n := m.Count();
    if n == 0 {
      NoMembers();
      return false;
    }
    var p: nat;
    ghost var k: nat;
    if cur == null {
      p, k := FindChunk(m, x);
    } else {
      p, k := FindWith(m, x, cur);
    }
    LocatedHere(cs, x, k);
    b := DecideAt(m, x, p, k);
  }

  lemma WfOfForm(f: Form)
    requires WfForm(f) && f.Chunked?
    ensures WfStream(f.chunks)
  {
  }

  // ---- the eight-way cache -------------------------------------------------------------------------

  const WAYS: nat := 8

  /** One cached chunk: its position and the indices it covers. */
  datatype Way = Way(valid: bool, first: nat, end: nat, offset: nat)

  ghost predicate WayGood(cs: seq<Chunk>, w: Way) {
    w.valid ==> exists k :: 0 <= k < |cs| && w.offset == 1 + Off(cs, k) && w.first == cs[k].start && w.end == cs[k].start + Cap(cs[k])
  }

  class Cache {
    var ways: seq<Way>
    var mru: nat        // the way the next miss replaces

    ghost predicate Good(cs: seq<Chunk>)
      reads this
    {
      |ways| == WAYS && mru < WAYS && forall w :: 0 <= w < WAYS ==> WayGood(cs, ways[w])
    }

    constructor ()
      ensures forall cs :: Good(cs)
    {
      ways, mru := seq(WAYS, w => Way(false, 0, 0, 0)), 0;
    }
  }

  /** Inside a chunk's capacity, that chunk decides. */
  lemma CoveredDecides(cs: seq<Chunk>, x: nat, k: nat)
    requires WfStream(cs) && k < |cs| && cs[k].start <= x < cs[k].start + Cap(cs[k])
    ensures x in Members(cs) <==> ChunkHas(cs[k], x)
    ensures x < cs[k].start + Span(cs[k]) && WfChunk(cs[k])
  {
    RunSpan(cs, k);
    HasInSpan(cs, k, x);
  }

  /** A chunk the lookup found may be cached. */
  lemma CachedWay(cs: seq<Chunk>, k: nat, w: Way)
    requires k < |cs| && w == Way(true, cs[k].start, cs[k].start + Cap(cs[k]), 1 + Off(cs, k))
    ensures WayGood(cs, w)
  {
  }

  /** sm_contains_cached: a hit in any way answers as the walk would, and a miss caches the chunk found. */
  method ContainsCached(m: Map?, x: nat, cache: Cache?) returns (b: bool)
    requires Plain(m)
    requires m != null && cache != null && m.form.Chunked? ==> cache.Good(m.Chunks())
    modifies if cache == null then {} else {cache}
    ensures b <==> x in SetOf(m)
    ensures m != null && cache != null && m.form.Chunked? ==> cache.Good(m.Chunks())
  {
    hide WfForm, Layout, FormMembers, WfStream, Members, Off, Located, Cap, WfChunk, WayGood, Size, Full;
    if m == null {
      return false;
    }
    var small := m.IsSmall();
    if cache == null || small {
      b := Contains(m, x, null);
      return;
    }
    ghost var cs := m.Chunks();
    ChunkedForm(m.form);
    WfOfForm(m.form);
    for w := 0 to WAYS {
      var way := cache.ways[w];
      if way.valid && way.first <= x < way.end {
        b := Hit(m, x, way);
        return;
      }
    }
    var n := m.Count();
    if n == 0 {
      NoMembers();
      return false;
    }
    var p, k := FindChunk(m, x);
    LocatedHere(cs, x, k);
    var c := m.Load(p, k);
    LocatedDecides(cs, x, k);
    CachedWay(cs, k, Way(true, c.start, c.start + Cap(c), p));
    cache.ways := cache.ways[cache.mru := Way(true, c.start, c.start + Cap(c), p)];
    cache.mru := (cache.mru + 1) % WAYS;
    if x < c.start || x - c.start >= Cap(c) {
      return false;
    }
    b := IsSet(c, x - c.start);
  }

  /** Answers from a cached chunk. */
  method Hit(m: Map, x: nat, w: Way) returns (b: bool)
    requires m.Valid() && m.form.Chunked? && WayGood(m.Chunks(), w) && w.valid && w.first <= x < w.end
    ensures b <==> x in Members(m.Chunks())
  {
    hide Layout, WfStream, Members, Off, Cap, WfChunk;
    ghost var cs := m.Chunks();
    ghost var k :| 0 <= k < |cs| && w.offset == 1 + Off(cs, k) && w.first == cs[k].start && w.end == cs[k].start + Cap(cs[k]);
    var c := m.Load(w.offset, k);
    CoveredDecides(cs, x, k);
    b := IsSet(c, x - w.first);
  }

  // ---- batched lookups ---------------------------------------------------------------------------------

  /** The answers so far are right. */
  ghost predicate Answered(s: iset<nat>, xs: seq<nat>, bs: seq<bool>) {
    |bs| <= |xs| && forall q :: 0 <= q < |bs| ==> (bs[q] <==> xs[q] in s)
  }

  lemma AnswerMore(s: iset<nat>, xs: seq<nat>, bs: seq<bool>, b: bool)
    requires Answered(s, xs, bs) && |bs| < |xs| && (b <==> xs[|bs|] in s)
    ensures Answered(s, xs, bs + [b])
  {
  }

  /** Between the chunks before chunk k and its start nothing is set. */
  lemma GapBefore(cs: seq<Chunk>, k: nat, x: nat)
    requires WfStream(cs) && k <= |cs| && (k < |cs| ==> x < cs[k].start)
    requires k > 0 ==> cs[k - 1].start + Cap(cs[k - 1]) <= x
    ensures x !in Members(cs)
  {
    HasInGap(cs, k, x);
  }

  /** sm_contains_many: one sweep answers every query of an ascending list as sm_contains would. */
  method ContainsMany(m: Map?, xs: seq<nat>) returns (bs: seq<bool>)
    requires Plain(m) && Sorted(xs)
    ensures |bs| == |xs| && Answered(SetOf(m), xs, bs)
  {
    hide WfForm, Layout, FormMembers, WfStream, Members, Off, Cap, WfChunk, Answered;
    bs := [];
    NoAnswers(SetOf(m), xs);
    if m == null {
      bs := AllFalse(iset{}, xs, bs);
      return;
    }
    if m.IsSmall() {
      while |bs| < |xs|
        invariant |bs| <= |xs| && Answered(SetOf(m), xs, bs)
      {
        var b := SmallContains(m, xs[|bs|]);
        AnswerMore(SetOf(m), xs, bs, b);
        bs := bs + [b];
      }
      return;
    }
    ghost var cs := m.Chunks();
    ChunkedForm(m.form);
    WfOfForm(m.form);
    ghost var s := Members(cs);
    var n := m.Count();
    NoMembers();
    var p := 1;
    var i: nat := 0;
    MoreChunks(cs, 0);
    while i < n && |bs| < |xs|
      invariant i <= n && (i < n ==> p == 1 + Off(cs, i)) && |bs| <= |xs| && Answered(s, xs, bs)
      invariant |bs| < |xs| && i > 0 ==> cs[i - 1].start + Cap(cs[i - 1]) <= xs[|bs|]
    {
      var c := m.Load(p, i);
      bs := DrainChunk(c, cs, i, xs, bs);
      OffNext(cs, i);
      p := p + 1 + Size(c.desc);
      i := i + 1;
    }
    while |bs| < |xs|
      invariant |bs| <= |xs| && Answered(s, xs, bs)
      invariant |bs| < |xs| && n > 0 ==> cs[n - 1].start + Cap(cs[n - 1]) <= xs[|bs|]
    {
      GapBefore(cs, n, xs[|bs|]);
      AnswerMore(s, xs, bs, false);
      bs := bs + [false];
    }
  }

  lemma NoAnswers(s: iset<nat>, xs: seq<nat>)
    ensures Answered(s, xs, [])
  {
  }

  method AllFalse(ghost s: iset<nat>, xs: seq<nat>, bs0: seq<bool>) returns (bs: seq<bool>)
    requires Answered(s, xs, bs0) && |bs0| <= |xs| && s == iset{}
    ensures |bs| == |xs| && Answered(s, xs, bs)
  {
    hide Answered;
    bs := bs0;
    while |bs| < |xs|
      invariant |bs| <= |xs| && Answered(s, xs, bs)
    {
      AnswerMore(s, xs, bs, false);
      bs := bs + [false];
    }
  }

  /** Answers the queries before chunk i and those it covers. */
  method DrainChunk(c: Chunk, ghost cs: seq<Chunk>, ghost i: nat, xs: seq<nat>, bs0: seq<bool>) returns (bs: seq<bool>)
    requires WfStream(cs) && i < |cs| && c == cs[i] && Sorted(xs)
    requires |bs0| <= |xs| && Answered(Members(cs), xs, bs0)
    requires |bs0| < |xs| && i > 0 ==> cs[i - 1].start + Cap(cs[i - 1]) <= xs[|bs0|]
    ensures |bs| <= |xs| && Answered(Members(cs), xs, bs)
    ensures |bs| < |xs| ==> c.start + Cap(c) <= xs[|bs|]
  {
    hide WfStream, Members, Cap, WfChunk, Answered;
    ghost var s := Members(cs);
    bs := bs0;
    while |bs| < |xs| && xs[|bs|] < c.start
      invariant |bs0| <= |bs| <= |xs| && Answered(s, xs, bs)
      invariant |bs| < |xs| && i > 0 ==> cs[i - 1].start + Cap(cs[i - 1]) <= xs[|bs|]
    {
      GapBefore(cs, i, xs[|bs|]);
      AnswerMore(s, xs, bs, false);
      bs := bs + [false];
    }
    while |bs| < |xs| && xs[|bs|] < c.start + Cap(c)
      invariant |bs0| <= |bs| <= |xs| && Answered(s, xs, bs)
      invariant |bs| < |xs| ==> c.start <= xs[|bs|]
    {
      CoveredDecides(cs, xs[|bs|], i);
      var b := IsSet(c, xs[|bs|] - c.start);
      AnswerMore(s, xs, bs, b);
      bs := bs + [b];
    }
  }
}
