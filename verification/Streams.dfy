// Sequences of chunks: order, membership and the words they occupy.
module Streams {
  import opened Words
  import opened Chunks

  // ---- order and membership --------------------------------------------------

  ghost predicate Ordered(cs: seq<Chunk>) {
    forall i, j :: 0 <= i < j < |cs| ==> cs[i].start + Span(cs[i]) <= cs[j].start
  }

  /** Chunk starts ascend on window boundaries and no two spans overlap. */
  ghost predicate WfStream(cs: seq<Chunk>) {
    (forall i :: 0 <= i < |cs| ==> WfChunk(cs[i])) && Ordered(cs)
  }

  ghost predicate AllFull(cs: seq<Chunk>) {
    forall i :: 0 <= i < |cs| ==> Full(cs[i])
  }

  ghost predicate Has(cs: seq<Chunk>, x: nat) {
    exists i :: 0 <= i < |cs| && ChunkHas(cs[i], x)
  }

  ghost function Members(cs: seq<Chunk>): iset<nat> {
    iset x: nat | Has(cs, x)
  }

  ghost function ChunkMembers(c: Chunk): iset<nat> {
    iset x: nat | ChunkHas(c, x)
  }

  predicate Between(lo: nat, x: nat, hi: nat) {
    lo <= x < hi
  }

  /** The indices in [lo, hi). */
  ghost function Range(lo: nat, hi: nat): iset<nat> {
    iset x: nat | Between(lo, x, hi)
  }

  /** Adding two adjoining ranges adds their union. */
  lemma RangeJoin(was: iset<nat>, lo: nat, mid: nat, hi: nat)
    requires lo <= mid <= hi
    ensures was + Range(lo, mid) + Range(mid, hi) == was + Range(lo, hi)
  {
  }

  lemma RangeEmpty(was: iset<nat>, lo: nat, hi: nat)
    requires hi <= lo
    ensures Range(lo, hi) == iset{} && was + Range(lo, hi) == was
  {
  }

  /** One past the span of the last chunk. */
  function End(cs: seq<Chunk>): nat {
    if cs == [] then 0 else cs[|cs| - 1].start + Span(cs[|cs| - 1])
  }

  lemma HasConcat(a: seq<Chunk>, b: seq<Chunk>)
    ensures forall x: nat :: Has(a + b, x) <==> Has(a, x) || Has(b, x)
    ensures Members(a + b) == Members(a) + Members(b)
  {
    var ab := a + b;
    forall x: nat ensures Has(ab, x) <==> Has(a, x) || Has(b, x) {
      if Has(ab, x) {
        var i :| 0 <= i < |ab| && ChunkHas(ab[i], x);
        if i < |a| {
          assert ChunkHas(a[i], x);
        } else {
          assert ChunkHas(b[i - |a|], x);
        }
      }
      if Has(a, x) {
        var i :| 0 <= i < |a| && ChunkHas(a[i], x);
        assert ChunkHas(ab[i], x);
      }
      if Has(b, x) {
        var i :| 0 <= i < |b| && ChunkHas(b[i], x);
        assert ChunkHas(ab[|a| + i], x);
      }
    }
  }

  lemma HasOne(c: Chunk)
    ensures forall x: nat :: Has([c], x) <==> ChunkHas(c, x)
    ensures Members([c]) == ChunkMembers(c)
    ensures Members([]) == iset{}
  {
    forall x: nat ensures Has([c], x) <==> ChunkHas(c, x) {
      if ChunkHas(c, x) {
        assert ChunkHas([c][0], x);
      }
    }
  }

  lemma SpanPositive(c: Chunk)
    requires WfChunk(c)
    ensures Span(c) >= WINDOW && Aligned(Span(c)) && Aligned(c.start + Span(c))
  {
    AlignedConstants();
    AlignedStep(0, Span(c));
    AlignedSum(c.start, Span(c));
  }

  /** Every chunk of a stream, and every member, ends at or below End. */
  lemma EndBound(cs: seq<Chunk>)
    requires WfStream(cs)
    ensures forall i :: 0 <= i < |cs| ==> cs[i].start + Span(cs[i]) <= End(cs)
    ensures forall x: nat :: Has(cs, x) ==> x < End(cs)
    ensures Aligned(End(cs)) && End(cs) <= TOP
  {
    if cs != [] {
      SpanPositive(cs[|cs| - 1]);
    }
    forall x: nat | Has(cs, x) ensures x < End(cs) {
      var i :| 0 <= i < |cs| && ChunkHas(cs[i], x);
      ChunkHasBound(cs[i], x);
    }
  }

  /** Two streams may be joined exactly when the second begins past the end of the first. */
  lemma WfConcat(a: seq<Chunk>, b: seq<Chunk>)
    requires WfStream(a) && WfStream(b)
    requires a == [] || b == [] || End(a) <= b[0].start
    ensures WfStream(a + b)
    ensures b != [] ==> End(a + b) == End(b)
    ensures AllFull(a) && AllFull(b) ==> AllFull(a + b)
  {
    EndBound(a);
    var ab := a + b;
    forall i, j | 0 <= i < j < |ab| ensures ab[i].start + Span(ab[i]) <= ab[j].start {
      if i < |a| <= j {
        assert b[0].start <= b[j - |a|].start;
      }
    }
  }

  lemma WfParts(a: seq<Chunk>, b: seq<Chunk>)
    requires WfStream(a + b)
    ensures WfStream(a) && WfStream(b)
    ensures a != [] && b != [] ==> End(a) <= b[0].start
    ensures AllFull(a + b) ==> AllFull(a) && AllFull(b)
  {
    hide WfChunk, Full, Span;
    var ab := a + b;
    forall i | 0 <= i < |a| ensures WfChunk(a[i]) && (AllFull(ab) ==> Full(a[i])) {
      assert a[i] == ab[i];
    }
    forall i | 0 <= i < |b| ensures WfChunk(b[i]) && (AllFull(ab) ==> Full(b[i])) {
      assert b[i] == ab[|a| + i];
    }
    forall i, j | 0 <= i < j < |a| ensures a[i].start + Span(a[i]) <= a[j].start {
      assert a[i] == ab[i] && a[j] == ab[j];
    }
    forall i, j | 0 <= i < j < |b| ensures b[i].start + Span(b[i]) <= b[j].start {
      assert b[i] == ab[|a| + i] && b[j] == ab[|a| + j];
    }
    if a != [] && b != [] {
      assert a[|a| - 1] == ab[|a| - 1] && b[0] == ab[|a|];
    }
  }

  lemma WfOne(c: Chunk)
    requires WfChunk(c)
    ensures WfStream([c]) && End([c]) == c.start + Span(c)
    ensures Full(c) ==> AllFull([c])
  {
  }

  /** Appending a chunk past the end. */
  lemma WfAppend(cs: seq<Chunk>, c: Chunk)
    requires WfStream(cs) && WfChunk(c) && End(cs) <= c.start
    ensures WfStream(cs + [c]) && End(cs + [c]) == c.start + Span(c)
    ensures Members(cs + [c]) == Members(cs) + ChunkMembers(c)
    ensures AllFull(cs) && Full(c) ==> AllFull(cs + [c])
  {
    WfOne(c);
    WfConcat(cs, [c]);
    HasConcat(cs, [c]);
    HasOne(c);
  }

  /** Replacing a block of chunks by another within the same span. */
  lemma WfSplice(pre: seq<Chunk>, mid: seq<Chunk>, post: seq<Chunk>, mid': seq<Chunk>)
    requires WfStream(pre + mid + post) && mid != []
    requires WfStream(mid')
    requires mid' != [] ==> mid[0].start <= mid'[0].start && (post == [] || End(mid') <= post[0].start)
    ensures WfStream(pre + mid' + post)
    ensures Members(pre + mid' + post) == Members(pre) + Members(mid') + Members(post)
    ensures AllFull(pre + mid + post) && AllFull(mid') ==> AllFull(pre + mid' + post)
  {
    hide WfStream, AllFull, Members;
    SpliceParts(pre, mid, post);
    if mid' == [] {
      assert pre + mid' == pre;
      WfConcat(pre, post);
    } else {
      WfConcat(pre, mid');
      WfConcat(pre + mid', post);
    }
    MembersSplit(pre, mid', post);
  }

  lemma SpliceParts(pre: seq<Chunk>, mid: seq<Chunk>, post: seq<Chunk>)
    requires WfStream(pre + mid + post) && mid != []
    ensures WfStream(pre) && WfStream(mid) && WfStream(post)
    ensures pre != [] ==> End(pre) <= mid[0].start
    ensures post != [] ==> End(mid) <= post[0].start
    ensures pre != [] && post != [] ==> End(pre) <= post[0].start
    ensures AllFull(pre + mid + post) ==> AllFull(pre) && AllFull(mid) && AllFull(post)
  {
    hide WfStream, AllFull, Aligned, Span;
    WfParts(pre + mid, post);
    WfParts(pre, mid);
    assert (pre + mid)[|pre|] == mid[0];
    EndBound(mid);
  }

  lemma MembersSplit(pre: seq<Chunk>, mid: seq<Chunk>, post: seq<Chunk>)
    ensures Members(pre + mid + post) == Members(pre) + Members(mid) + Members(post)
  {
    HasConcat(pre, mid);
    HasConcat(pre + mid, post);
  }

  /** Inside one chunk's span, only that chunk decides membership. */
  lemma HasInSpan(cs: seq<Chunk>, i: nat, x: nat)
    requires WfStream(cs) && i < |cs|
    requires cs[i].start <= x < cs[i].start + Span(cs[i])
    ensures Has(cs, x) <==> ChunkHas(cs[i], x)
  {
    if Has(cs, x) {
      var j :| 0 <= j < |cs| && ChunkHas(cs[j], x);
      ChunkHasBound(cs[j], x);
      assert i == j;
    }
  }

  /** In the gap before chunk i nothing is set. */
  lemma HasInGap(cs: seq<Chunk>, i: nat, x: nat)
    requires WfStream(cs) && i <= |cs|
    requires i < |cs| ==> x < cs[i].start
    requires i > 0 ==> cs[i - 1].start + Cap(cs[i - 1]) <= x
    ensures !Has(cs, x)
  {
    forall j | 0 <= j < |cs| ensures !ChunkHas(cs[j], x) {
      assert j < i - 1 ==> cs[j].start + Span(cs[j]) <= cs[i - 1].start;
      if ChunkHas(cs[j], x) {
        ChunkHasBound(cs[j], x);
      }
    }
  }

  // ---- words -------------------------------------------------------------------

  /** A chunk as it lies in the buffer. */
  function Enc(c: Chunk): (ws: seq<Word>)
    ensures |ws| == 2 + |c.vecs|
  {
    [U64(c.start), c.desc] + c.vecs
  }

  function Stream(cs: seq<Chunk>): seq<Word> {
    if cs == [] then [] else Enc(cs[0]) + Stream(cs[1..])
  }

  lemma {:induction false} StreamConcat(a: seq<Chunk>, b: seq<Chunk>)
    ensures Stream(a + b) == Stream(a) + Stream(b)
  {
    hide Enc;
    if a == [] {
      assert a + b == b;
    } else {
      StreamConcat(a[1..], b);
      assert (a + b)[0] == a[0];
      assert (a + b)[1..] == a[1..] + b;
      assert Stream(a + b) == Enc(a[0]) + (Stream(a[1..]) + Stream(b));
    }
  }

  lemma StreamOne(c: Chunk)
    ensures Stream([c]) == Enc(c)
  {
    assert Stream([c]) == Enc(c) + Stream([c][1..]);
    assert Stream([]) == [];
  }

  /** The position of chunk i, in words from the first chunk. */
  function Off(cs: seq<Chunk>, i: nat): nat
    requires i <= |cs|
  {
    |Stream(cs[..i])|
  }

  /** Where chunk i lies in the stream. */
  lemma StreamAt(cs: seq<Chunk>, i: nat)
    requires i < |cs|
    ensures Off(cs, i + 1) == Off(cs, i) + |Enc(cs[i])| <= |Stream(cs)|
    ensures Stream(cs)[Off(cs, i)..Off(cs, i + 1)] == Enc(cs[i])
    ensures Stream(cs) == Stream(cs[..i]) + Enc(cs[i]) + Stream(cs[i + 1..])
  {
    assert cs == cs[..i] + [cs[i]] + cs[i + 1..];
    assert cs[..i + 1] == cs[..i] + [cs[i]];
    StreamOne(cs[i]);
    StreamConcat(cs[..i], [cs[i]]);
    StreamConcat(cs[..i + 1], cs[i + 1..]);
  }

  lemma {:induction false} StreamEnds(cs: seq<Chunk>)
    ensures Off(cs, 0) == 0 && Off(cs, |cs|) == |Stream(cs)|
    ensures |Stream(cs)| >= 2 * |cs|
  {
    assert cs[..0] == [];
    assert cs[..|cs|] == cs;
    if cs != [] {
      StreamEnds(cs[1..]);
    }
  }

  lemma {:induction false} OffMonotone(cs: seq<Chunk>, i: nat, j: nat)
    requires i <= j <= |cs|
    ensures Off(cs, i) + 2 * (j - i) <= Off(cs, j) <= |Stream(cs)|
  {
    if i < j {
      OffMonotone(cs, i, j - 1);
      StreamAt(cs, j - 1);
    } else {
      assert cs == cs[..i] + cs[i..];
      StreamConcat(cs[..i], cs[i..]);
    }
  }
}
