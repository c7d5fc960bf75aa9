// Single-index changes of a stream: what replacing, inserting or rewriting one chunk
// does to the set, to the order of the chunks and to the words of the buffer.
module Edits {
  import opened Words
  import opened Chunks
  import opened Streams
  import opened Maps

  /** A change of one index: the removal clears it, the insertion sets it, a split keeps it. */
  datatype Change = Clear | Set | Keep

  ghost function Changed(s: iset<nat>, idx: nat, change: Change): iset<nat> {
    match change
    case Clear => s - iset{idx}
    case Set => s + iset{idx}
    case Keep => s
  }

  lemma ChangedAmid(a: iset<nat>, b: iset<nat>, s: iset<nat>, idx: nat, change: Change)
    requires idx !in a && idx !in b
    ensures a + Changed(s, idx, change) + b == Changed(a + s + b, idx, change)
  {
  }

  // ---- sets and order ------------------------------------------------------------

  /** An index in the span of chunk k is in no other chunk. */
  lemma ElsewhereNot(cs: seq<Chunk>, k: nat, x: nat)
    requires WfStream(cs) && k < |cs| && cs[k].start <= x < cs[k].start + Span(cs[k])
    ensures x !in Members(cs[..k]) && x !in Members(cs[k + 1..])
  {
    hide WfRle, WfSparse, Aligned, ChunkHas, IsRle, RleCap;
    if Has(cs[..k], x) {
      var i :| 0 <= i < k && ChunkHas(cs[..k][i], x);
      ChunkHasBound(cs[i], x);
    }
    if Has(cs[k + 1..], x) {
      var i :| 0 <= i < |cs[k + 1..]| && ChunkHas(cs[k + 1..][i], x);
      assert cs[k + 1..][i] == cs[k + 1 + i];
      ChunkHasBound(cs[k + 1 + i], x);
    }
  }

  /** Replacing chunk k, within its span, by chunks that hold its changed set. */
  lemma ChunkReplaced(cs: seq<Chunk>, k: nat, r: seq<Chunk>, idx: nat, change: Change)
    requires WfStream(cs) && k < |cs|
    requires WfStream(r) && (r != [] ==> cs[k].start <= r[0].start && End(r) <= cs[k].start + Span(cs[k]))
    requires Members(r) == Changed(ChunkMembers(cs[k]), idx, change)
    requires cs[k].start <= idx < cs[k].start + Span(cs[k])
    ensures WfStream(cs[..k] + r + cs[k + 1..])
    ensures Members(cs[..k] + r + cs[k + 1..]) == Changed(Members(cs), idx, change)
    ensures AllFull(cs) && AllFull(r) ==> AllFull(cs[..k] + r + cs[k + 1..])
  {
    hide Members, AllFull, ChunkMembers, Has, WfChunk, Aligned, Span;
    var pre, post := cs[..k], cs[k + 1..];
    assert cs == pre + [cs[k]] + post;
    assert post != [] ==> post[0] == cs[k + 1];
    WfSplice(pre, [cs[k]], post, r);
    MembersSplit(pre, [cs[k]], post);
    HasOne(cs[k]);
    ElsewhereNot(cs, k, idx);
    ChangedAmid(Members(pre), Members(post), ChunkMembers(cs[k]), idx, change);
  }

  /** The same for one chunk in place of one. */
  lemma ChunkUpdated(cs: seq<Chunk>, k: nat, c: Chunk, idx: nat, change: Change)
    requires WfStream(cs) && k < |cs|
    requires WfChunk(c) && c.start == cs[k].start && Span(c) <= Span(cs[k])
    requires ChunkMembers(c) == Changed(ChunkMembers(cs[k]), idx, change)
    requires cs[k].start <= idx < cs[k].start + Span(cs[k])
    ensures WfStream(cs[k := c])
    ensures Members(cs[k := c]) == Changed(Members(cs), idx, change)
    ensures AllFull(cs) && Full(c) ==> AllFull(cs[k := c])
  {
    hide Members, AllFull, ChunkMembers, WfStream, WfChunk, Span, Full;
    WfOne(c);
    HasOne(c);
    ChunkReplaced(cs, k, [c], idx, change);
    assert cs[k := c] == cs[..k] + [c] + cs[k + 1..];
  }

  /** Inserting a chunk between two others. */
  lemma ChunkInserted(cs: seq<Chunk>, k: nat, c: Chunk)
    requires WfStream(cs) && k <= |cs| && WfChunk(c)
    requires k > 0 ==> cs[k - 1].start + Span(cs[k - 1]) <= c.start
    requires k < |cs| ==> c.start + Span(c) <= cs[k].start
    ensures WfStream(cs[..k] + [c] + cs[k..])
    ensures Members(cs[..k] + [c] + cs[k..]) == Members(cs) + ChunkMembers(c)
    ensures AllFull(cs) && Full(c) ==> AllFull(cs[..k] + [c] + cs[k..])
  {
    hide WfStream, Members, AllFull, ChunkMembers, Has, WfChunk, Span, Full;
    var pre, post := cs[..k], cs[k..];
    assert cs == pre + post;
    WfParts(pre, post);
    HasConcat(pre, post);
    WfOne(c);
    HasOne(c);
    assert k > 0 ==> pre[|pre| - 1] == cs[k - 1];
    assert k < |cs| ==> post[0] == cs[k];
    WfConcat(pre, [c]);
    WfConcat(pre + [c], post);
    MembersSplit(pre, [c], post);
  }

  // ---- words -----------------------------------------------------------------------

  lemma LayoutAround(cs: seq<Chunk>, k: nat)
    requires k < |cs|
    ensures Layout(Chunked(cs)) == ([CountHeader(|cs|)] + Stream(cs[..k])) + Enc(cs[k]) + Stream(cs[k + 1..])
    ensures Off(cs, k) == |Stream(cs[..k])|
  {
    hide Stream, Enc;
    StreamAt(cs, k);
  }

  lemma HeadSwap(h: Word, h': Word, s: seq<Word>, ws: seq<Word>, t: seq<Word>)
    ensures (([h] + s) + ws + t)[0 := h'] == [h'] + s + ws + t
  {
  }

  /** The words with the chunk at p replaced, whose start stays. */
  lemma LayoutUpdated(cs: seq<Chunk>, k: nat, c: Chunk, p: nat)
    requires k < |cs| && p == 1 + Off(cs, k) && c.start == cs[k].start
    ensures p + 2 + |cs[k].vecs| <= |Layout(Chunked(cs))|
    ensures var w := Layout(Chunked(cs));
      w[p + 1] == cs[k].desc && w[p + 2..p + 2 + |cs[k].vecs|] == cs[k].vecs
    ensures var w := Layout(Chunked(cs));
      Layout(Chunked(cs[k := c])) == w[..p + 1] + [c.desc] + c.vecs + w[p + 2 + |cs[k].vecs|..]
  {
    hide Stream, CountHeader, U64, Layout, Off;
    LayoutAround(cs, k);
    LayoutAround(cs[k := c], k);
    assert cs[k := c][..k] == cs[..k] && cs[k := c][k + 1..] == cs[k + 1..];
    ChunkWords([CountHeader(|cs|)] + Stream(cs[..k]), U64(c.start), cs[k].desc, cs[k].vecs, Stream(cs[k + 1..]), c.desc, c.vecs, p);
  }

  lemma ChunkWords(h: seq<Word>, s: Word, d: Word, vs: seq<Word>, t: seq<Word>, d': Word, vs': seq<Word>, p: nat)
    requires p == |h|
    ensures var w := h + ([s, d] + vs) + t;
      && |w| >= p + 2 + |vs|
      && w[p + 1] == d && w[p + 2..p + 2 + |vs|] == vs
      && h + ([s, d'] + vs') + t == w[..p + 1] + [d'] + vs' + w[p + 2 + |vs|..]
  {
    var w := h + ([s, d] + vs) + t;
    assert w[..p + 1] == h + [s];
    assert w[p + 2 + |vs|..] == t;
  }

  /** The words with a chunk inserted at p. */
  lemma LayoutInserted(cs: seq<Chunk>, k: nat, c: Chunk, p: nat)
    requires k <= |cs| && p == 1 + Off(cs, k)
    ensures p <= |Layout(Chunked(cs))|
    ensures var w := Layout(Chunked(cs));
      Layout(Chunked(cs[..k] + [c] + cs[k..])) == (w[..p] + Enc(c) + w[p..])[0 := CountHeader(|cs| + 1)]
  {
    hide Stream, CountHeader, Layout, Enc;
    LayoutParts(cs[..k], [], cs[k..]);
    assert cs[..k] + [] + cs[k..] == cs;
    EmptyStream();
    StreamOne(c);
    LayoutParts(cs[..k], [c], cs[k..]);
    var h, s, t := CountHeader(|cs|), Stream(cs[..k]), Stream(cs[k..]);
    assert Layout(Chunked(cs)) == ([h] + s) + t;
    HeadSwap(h, CountHeader(|cs| + 1), s, Enc(c), t);
    CutAt([h] + s, t);
  }

  lemma CutAt(a: seq<Word>, b: seq<Word>)
    ensures (a + b)[..|a|] == a && (a + b)[|a|..] == b
  {
  }

  lemma EmptyStream()
    ensures Stream([]) == []
  {
  }

  /** The words with the chunk at p cut out. */
  lemma LayoutCut(cs: seq<Chunk>, k: nat, p: nat)
    requires k < |cs| && p == 1 + Off(cs, k)
    ensures p + |Enc(cs[k])| <= |Layout(Chunked(cs))|
    ensures var w := Layout(Chunked(cs));
      Layout(Chunked(cs[..k] + cs[k + 1..])) == (w[..p] + w[p + |Enc(cs[k])|..])[0 := CountHeader(|cs| - 1)]
  {
    hide Stream, CountHeader, Layout, Enc, Off;
    LayoutAround(cs, k);
    LayoutParts(cs[..k], [], cs[k + 1..]);
    assert cs[..k] + [] + cs[k + 1..] == cs[..k] + cs[k + 1..];
    EmptyStream();
    var h, h', s, e, t := CountHeader(|cs|), CountHeader(|cs| - 1), Stream(cs[..k]), Enc(cs[k]), Stream(cs[k + 1..]);
    CutAt([h] + s, e + t);
    assert ([h] + s) + (e + t) == ([h] + s) + e + t;
    CutAt(([h] + s) + e, t);
    assert ([h] + s + t)[0 := h'] == [h'] + s + [] + t;
  }
}
