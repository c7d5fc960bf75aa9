// What the three merge walks share: how two chunks can overlap, and how much of
// a stream lies past a frontier.
module MergeFacts {
  import opened Chunks
  import opened Streams
  import opened Codec

  /** The spans of two chunks meet. */
  predicate Overlap(a: Chunk, b: Chunk) {
    a.start < b.start + Span(b) && b.start < a.start + Span(a)
  }

  /** ws shows the members of c that fall in the window at start. */
  ghost predicate WindowOf(c: Chunk, start: nat, ws: Window) {
    forall v, k :: 0 <= v < SLOTS && 0 <= k < 64 ==> ws[v][k] == ChunkHas(c, start + 64 * v + k)
  }

  /** All members of c fall in the window at start. */
  ghost predicate Within(c: Chunk, start: nat) {
    forall x: nat :: ChunkHas(c, x) ==> Between(start, x, start + WINDOW)
  }

  lemma WindowOfHas(c: Chunk, start: nat, ws: Window, x: nat)
    requires WindowOf(c, start, ws) && start <= x < start + WINDOW
    ensures WindowHas(start, ws, x) == ChunkHas(c, x)
  {
    var v, k := (x - start) / 64, (x - start) % 64;
    assert x == start + 64 * v + k;
    assert ws[v][k] == ChunkHas(c, start + 64 * v + k);
  }

  lemma SparseWindow(c: Chunk)
    requires WfSparse(c)
    ensures WindowOf(c, c.start, Expand(c)) && Within(c, c.start)
  {
    forall v, k | 0 <= v < SLOTS && 0 <= k < 64 ensures Expand(c)[v][k] == ChunkHas(c, c.start + 64 * v + k) {
      var x := c.start + 64 * v + k;
      assert (x - c.start) / 64 == v && (x - c.start) % 64 == k;
    }
  }

  lemma FullCaps(c: Chunk)
    requires WfSparse(c) && Full(c)
    ensures CapsOf(c) == AllSlots()
  {
    assert forall v :: 0 <= v < SLOTS ==> AllSlots()[v] == !FlagAt(c.desc, v).Unused?;
    ExpandExt(c, Expand(c), AllSlots());
  }

  /** What expanding a full sparse chunk shows. */
  lemma SparseFacts(c: Chunk)
    requires WfChunk(c) && Full(c) && !IsRle(c.desc)
    ensures CapsOf(c) == AllSlots() && Shaped(c)
    ensures WindowOf(c, c.start, Expand(c)) && Within(c, c.start)
    ensures Span(c) == WINDOW && Aligned(c.start) && c.start + WINDOW <= TOP
  {
    FullCaps(c);
    SparseWindow(c);
  }

  /** An aligned bound less than a window above the end of a stream bounds it. */
  lemma EndWithin(cs: seq<Chunk>, hi: nat, e: nat)
    requires WfStream(cs) && End(cs) < hi + WINDOW && hi <= e && Aligned(e)
    ensures End(cs) <= e
  {
    EndBound(cs);
    if e < End(cs) {
      AlignedStep(e, End(cs));
    }
  }

  /** Two sparse chunks overlap only when they are the same window. */
  lemma SparseOverlap(a: Chunk, b: Chunk)
    requires WfChunk(a) && WfChunk(b) && Overlap(a, b) && !IsRle(a.desc) && !IsRle(b.desc)
    ensures a.start == b.start
  {
    if a.start < b.start {
      AlignedStep(a.start, b.start);
    } else if b.start < a.start {
      AlignedStep(b.start, a.start);
    }
  }

  /** A sparse window that meets a run's span lies inside it. */
  lemma SparseInRle(s: Chunk, r: Chunk)
    requires WfChunk(s) && WfChunk(r) && Overlap(s, r) && !IsRle(s.desc) && IsRle(r.desc)
    ensures r.start <= s.start && s.start + WINDOW <= r.start + Span(r)
  {
    SpanPositive(r);
    if s.start < r.start {
      AlignedStep(s.start, r.start);
    }
    AlignedStep(s.start, r.start + Span(r));
  }

  lemma RleOverlap(a: Chunk, b: Chunk, lo: nat, hi: nat)
    requires WfRle(a) && WfRle(b)
    requires lo == if a.start > b.start then a.start else b.start
    requires hi == if a.start + RleLen(a.desc) < b.start + RleLen(b.desc) then a.start + RleLen(a.desc) else b.start + RleLen(b.desc)
    ensures ChunkMembers(a) * ChunkMembers(b) == Range(lo, hi)
    ensures hi <= a.start + Span(a) && hi <= b.start + Span(b)
  {
  }

  lemma AndMembers(a: Chunk, b: Chunk, start: nat, aw: Window, bw: Window, ws: Window)
    requires WindowOf(a, start, aw) && WindowOf(b, start, bw)
    requires Within(a, start) || Within(b, start)
    requires forall v, k :: 0 <= v < SLOTS && 0 <= k < 64 ==> ws[v][k] == (aw[v][k] && bw[v][k])
    ensures WindowMembers(start, ws) == ChunkMembers(a) * ChunkMembers(b)
  {
    forall x: nat ensures x in WindowMembers(start, ws) <==> x in ChunkMembers(a) * ChunkMembers(b) {
      if start <= x < start + WINDOW {
        WindowOfHas(a, start, aw, x);
        WindowOfHas(b, start, bw, x);
      } else {
        assert !Between(start, x, start + WINDOW);
      }
    }
  }

  /** Past the end of the chunk before i, membership begins at chunk i. */
  lemma HasFrom(cs: seq<Chunk>, i: nat, x: nat)
    requires WfStream(cs) && i <= |cs|
    requires i > 0 ==> cs[i - 1].start + Span(cs[i - 1]) <= x
    ensures i == |cs| ==> !Has(cs, x)
    ensures i < |cs| && x < cs[i].start ==> !Has(cs, x)
    ensures i < |cs| && x < cs[i].start + Span(cs[i]) ==> (Has(cs, x) <==> ChunkHas(cs[i], x))
  {
    forall j | 0 <= j < |cs| ensures ChunkHas(cs[j], x) ==> j >= i && (j == i || cs[i].start + Span(cs[i]) <= x) {
      assert j < i - 1 ==> cs[j].start + Span(cs[j]) <= cs[i - 1].start;
      if ChunkHas(cs[j], x) {
        ChunkHasBound(cs[j], x);
      }
    }
  }

  lemma FullCap(c: Chunk)
    requires WfChunk(c) && Full(c)
    ensures Cap(c) == Span(c)
  {
    NoUnused(c.desc, SLOTS);
  }

  /** Everything before chunk i of a stream ends at or below f. */
  ghost predicate Settled(cs: seq<Chunk>, i: nat, f: nat) {
    i <= |cs| && (i > 0 ==> cs[i - 1].start + Span(cs[i - 1]) <= f)
  }

  /** Moving a stream's frontier within chunk i adds that chunk's members in between. */
  lemma Consume(cs: seq<Chunk>, i: nat, f: nat, f': nat)
    requires WfStream(cs) && Settled(cs, i, f) && i < |cs|
    requires f <= f' <= cs[i].start + Span(cs[i])
    ensures Members(cs) * Range(0, f') == Members(cs) * Range(0, f) + ChunkMembers(cs[i]) * Range(f, f')
  {
    hide WfStream, Has, ChunkHas;
    forall x: nat | f <= x < f' ensures Has(cs, x) <==> ChunkHas(cs[i], x) {
      HasFrom(cs, i, x);
    }
  }

  /** Before the next chunk begins there is nothing to consume. */
  lemma ConsumeGap(cs: seq<Chunk>, i: nat, f: nat, f': nat)
    requires WfStream(cs) && Settled(cs, i, f) && f <= f'
    requires i < |cs| ==> f' <= cs[i].start
    ensures Members(cs) * Range(0, f') == Members(cs) * Range(0, f)
  {
    hide WfStream, Has, ChunkHas;
    forall x: nat | f <= x < f' ensures !Has(cs, x) {
      HasFrom(cs, i, x);
    }
  }

  lemma ConsumeAll(cs: seq<Chunk>, f: nat)
    requires WfStream(cs) && Settled(cs, |cs|, f)
    ensures Members(cs) * Range(0, f) == Members(cs)
  {
    hide WfStream, Has, ChunkHas;
    forall x: nat | f <= x ensures !Has(cs, x) {
      HasFrom(cs, |cs|, x);
    }
  }
}
