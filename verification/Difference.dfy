// The chunk-merge walk for the difference of two chunk-mode maps.
module Difference {
  import opened Chunks
  import opened Streams
  import opened Codec
  import opened Maps
  import opened Appends
  import opened Emitter
  import opened MergeFacts
  import opened EmitBits

  /** r holds the members of A below f that B lacks; chunks before i and j end at or below f. */
  ghost predicate Walk(A: seq<Chunk>, B: seq<Chunk>, i: nat, j: nat, f: nat, r: seq<Chunk>) {
    && Settled(A, i, f) && Settled(B, j, f)
    && End(r) <= f && Aligned(f)
    && Members(r) == (Members(A) - Members(B)) * Range(0, f)
  }

  lemma WalkStart(A: seq<Chunk>, B: seq<Chunk>)
    ensures Off(A, 0) == Off(B, 0) == 0 && AllFull([])
    ensures Walk(A, B, 0, 0, 0, [])
  {
    StreamEnds(A);
    StreamEnds(B);
  }

  lemma ChunkFacts(cs: seq<Chunk>, i: nat)
    requires WfStream(cs) && AllFull(cs) && i < |cs|
    ensures WfChunk(cs[i]) && Full(cs[i]) && Cap(cs[i]) == Span(cs[i])
    ensures Aligned(cs[i].start) && Aligned(cs[i].start + Span(cs[i]))
    ensures cs[i].start + WINDOW <= cs[i].start + Span(cs[i]) <= TOP
    ensures !IsRle(cs[i].desc) ==> Span(cs[i]) == WINDOW
    ensures i > 0 ==> cs[i - 1].start + Span(cs[i - 1]) <= cs[i].start
  {
    FullCap(cs[i]);
    SpanPositive(cs[i]);
  }

  /** The frontier may move up to the next chunk of A. */
  lemma WalkJump(A: seq<Chunk>, B: seq<Chunk>, i: nat, j: nat, f: nat, r: seq<Chunk>)
    requires WfStream(A) && i < |A| && Walk(A, B, i, j, f, r) && f <= A[i].start
    requires Aligned(A[i].start)
    ensures Walk(A, B, i, j, A[i].start, r)
  {
    hide WfStream, Members, End, Aligned;
    ConsumeGap(A, i, f, A[i].start);
    CutMinusEmpty(Members(A), Members(B), f, A[i].start);
  }

  /** Where B has no chunk, the members of A's chunk survive. */
  lemma WalkGap(A: seq<Chunk>, B: seq<Chunk>, i: nat, j: nat, f: nat, f': nat, r: seq<Chunk>, r': seq<Chunk>)
    requires WfStream(A) && WfStream(B) && i < |A| && Walk(A, B, i, j, f, r)
    requires f <= f' <= A[i].start + Span(A[i]) && (j < |B| ==> f' <= B[j].start) && Aligned(f')
    requires Members(r') == Members(r) + ChunkMembers(A[i]) * Range(f, f') && End(r') <= f'
    ensures Walk(A, B, i, j, f', r')
  {
    hide WfStream, Members, ChunkMembers, End, Aligned, Span;
    Consume(A, i, f, f');
    ConsumeGap(B, j, f, f');
    CutMinus(Members(A), Members(B), f, f', ChunkMembers(A[i]), iset{});
  }

  /** Where both have a chunk, those two decide. */
  lemma WalkMeet(A: seq<Chunk>, B: seq<Chunk>, i: nat, j: nat, f: nat, f': nat, r: seq<Chunk>, r': seq<Chunk>)
    requires WfStream(A) && WfStream(B) && i < |A| && j < |B| && Walk(A, B, i, j, f, r)
    requires f <= f' <= A[i].start + Span(A[i]) && f' <= B[j].start + Span(B[j]) && Aligned(f')
    requires Members(r') == Members(r) + (ChunkMembers(A[i]) - ChunkMembers(B[j])) * Range(f, f') && End(r') <= f'
    ensures Walk(A, B, i, j, f', r')
  {
    hide WfStream, Members, ChunkMembers, End, Aligned, Span;
    Consume(A, i, f, f');
    Consume(B, j, f, f');
    CutMinus(Members(A), Members(B), f, f', ChunkMembers(A[i]), ChunkMembers(B[j]));
  }

  /** Extending a cut difference, given what each side adds between the two cuts. */
  lemma CutMinus(S: iset<nat>, T: iset<nat>, f: nat, f': nat, s: iset<nat>, t: iset<nat>)
    requires f <= f'
    requires S * Range(0, f') == S * Range(0, f) + s * Range(f, f')
    requires T * Range(0, f') == T * Range(0, f) + t * Range(f, f')
    ensures (S - T) * Range(0, f') == (S - T) * Range(0, f) + (s - t) * Range(f, f')
    ensures t == iset{} ==> s - t == s
  {
    forall x: nat | f <= x < f'
      ensures x in S <==> x in s
      ensures x in T <==> x in t
    {
      assert x in S * Range(0, f') <==> x in S * Range(0, f) + s * Range(f, f');
      assert x in T * Range(0, f') <==> x in T * Range(0, f) + t * Range(f, f');
    }
    forall x: nat ensures x in (S - T) * Range(0, f') <==> x in (S - T) * Range(0, f) + (s - t) * Range(f, f') {
    }
  }

  lemma CutMinusEmpty(S: iset<nat>, T: iset<nat>, f: nat, f': nat)
    requires f <= f' && S * Range(0, f') == S * Range(0, f)
    ensures (S - T) * Range(0, f') == (S - T) * Range(0, f)
  {
    forall x: nat | f <= x < f' ensures x !in S {
      assert x in S * Range(0, f') <==> x in S * Range(0, f);
    }
  }

  lemma WalkAdvance(A: seq<Chunk>, B: seq<Chunk>, i: nat, j: nat, f: nat, r: seq<Chunk>)
    requires Walk(A, B, i, j, f, r)
    ensures i < |A| && A[i].start + Span(A[i]) <= f ==> Walk(A, B, i + 1, j, f, r)
    ensures j < |B| && B[j].start + Span(B[j]) <= f ==> Walk(A, B, i, j + 1, f, r)
    ensures End(r) <= f && Aligned(f)
  {
    hide Members, End, Aligned, Range, Span;
  }

  lemma WalkDone(A: seq<Chunk>, B: seq<Chunk>, j: nat, f: nat, r: seq<Chunk>)
    requires WfStream(A) && Walk(A, B, |A|, j, f, r)
    ensures Members(r) == Members(A) - Members(B)
  {
    hide WfStream, Members;
    ConsumeAll(A, f);
  }

  /** Appends the members of a that b lacks, over the common part [f, to) of the two spans. */
  method DifferOverlap(r: Map, a: Chunk, b: Chunk, f: nat, to: nat)
    requires Open(r, true)
    requires WfChunk(a) && Full(a) && WfChunk(b) && Full(b)
    requires a.start <= f && b.start <= f < to && Aligned(f)
    requires to == if a.start + Span(a) < b.start + Span(b) then a.start + Span(a) else b.start + Span(b)
    requires End(r.Chunks()) <= f
    modifies r, r.data
    ensures Open(r, true)
    ensures Members(r.Chunks()) == Members(old(r.Chunks())) + (ChunkMembers(a) - ChunkMembers(b)) * Range(f, to)
    ensures End(r.Chunks()) <= to
    ensures r.data == old(r.data) || fresh(r.data)
  {
    hide Layout, WfStream, AllFull, Members, ChunkMembers, WindowMembers, End, Aligned, Floor, Range, ChunkHas, Expand, RleLen;
    SpanPositive(a);
    SpanPositive(b);
    if IsRle(a.desc) && IsRle(b.desc) {
      var bEnd := b.start + RleLen(b.desc);
      RleMinus(a, b, f, to);
      if bEnd < to {
        var from := if bEnd > f then bEnd else f;
        FloorUnique(f, f);
        FloorMonotone(f, from);
        EmitChunkBits(r, a, from, to);
        BoundAfter(r.Chunks(), f, to);
      }
    } else if IsRle(a.desc) {
      WindowAt(b, f);
      SparseInRle(b, a);
      SparseFacts(b);
      var bw, bc := ExpandChunk(b);
      var aw, ac := ExpandRle(a, b.start, bc);
      AppendAndNot(r, a, b, b.start, aw, ac, bw, bc);
    } else {
      WindowAt(a, f);
      SparseFacts(a);
      var aw, ac := ExpandChunk(a);
      if IsRle(b.desc) {
        SparseInRle(a, b);
        var bw, bc := ExpandRle(b, a.start, ac);
        AppendAndNot(r, a, b, a.start, aw, ac, bw, bc);
      } else {
        SparseOverlap(a, b);
        SparseFacts(b);
        var bw, bc := ExpandChunk(b);
        AppendAndNot(r, a, b, a.start, aw, ac, bw, bc);
      }
    }
  }

  lemma BoundAfter(cs: seq<Chunk>, f: nat, to: nat)
    requires WfStream(cs) && f <= to && Aligned(to) && (End(cs) <= f || End(cs) < to + WINDOW)
    ensures End(cs) <= to
  {
    if End(cs) > f {
      EndWithin(cs, to, to);
    }
  }

  /** An aligned frontier inside a sparse chunk's span is its start. */
  lemma WindowAt(c: Chunk, f: nat)
    requires WfChunk(c) && !IsRle(c.desc) && Aligned(f) && c.start <= f < c.start + Span(c)
    ensures c.start == f
  {
    if c.start < f {
      AlignedStep(c.start, f);
    }
  }

  /** Past the end of b's run, the members of a survive. */
  lemma RleMinus(a: Chunk, b: Chunk, f: nat, to: nat)
    requires WfRle(a) && WfRle(b) && b.start <= f <= to
    ensures var e := b.start + RleLen(b.desc);
      (ChunkMembers(a) - ChunkMembers(b)) * Range(f, to) ==
        if e < to then ChunkMembers(a) * Range(if e > f then e else f, to) else iset{}
  {
  }

  /** Handles chunk j of b against chunk i of a from the cursor on; returns the new cursor. */
  method DifferStep(r: Map, ac: Chunk, bc: Chunk, cursor: nat, ghost A: seq<Chunk>, ghost B: seq<Chunk>, ghost i: nat, ghost j: nat) returns (cursor': nat)
    requires Open(r, true) && WfStream(A) && WfStream(B) && AllFull(A) && AllFull(B)
    requires i < |A| && j < |B| && ac == A[i] && bc == B[j]
    requires Walk(A, B, i, j, cursor, r.Chunks())
    requires ac.start <= cursor < ac.start + Span(ac) && bc.start < ac.start + Span(ac) && cursor < bc.start + Span(bc)
    modifies r, r.data
    ensures Open(r, true)
    ensures Walk(A, B, i, j, cursor', r.Chunks())
    ensures cursor' == if ac.start + Span(ac) < bc.start + Span(bc) then ac.start + Span(ac) else bc.start + Span(bc)
    ensures r.data == old(r.data) || fresh(r.data)
  {
    hide Layout, WfStream, AllFull, Members, ChunkMembers, End, Aligned, Floor, Range, Walk, WfChunk, Full, Cap;
    ChunkFacts(A, i);
    ChunkFacts(B, j);
    WalkAdvance(A, B, i, j, cursor, r.Chunks());
    var aEnd, bEnd := ac.start + Cap(ac), bc.start + Cap(bc);
    var ovStart := if bc.start > cursor then bc.start else cursor;
    var ovEnd := if aEnd < bEnd then aEnd else bEnd;
    ghost var r0 := r.Chunks();
    if !IsRle(ac.desc) {
      SparseHasNoGap(ac, cursor, ovStart);
    }
    FloorUnique(cursor, cursor);
    EmitChunkBits(r, ac, cursor, ovStart);
    BoundAfter(r.Chunks(), cursor, ovStart);
    if cursor < ovStart {
      WalkGap(A, B, i, j, cursor, ovStart, r0, r.Chunks());
    }
    ghost var r1 := r.Chunks();
    DifferOverlap(r, ac, bc, ovStart, ovEnd);
    WalkMeet(A, B, i, j, ovStart, ovEnd, r1, r.Chunks());
    // A sparse chunk of a is used up; its end is the overlap's end.
    cursor' := if IsRle(ac.desc) then ovEnd else aEnd;
    if !IsRle(ac.desc) {
      WindowEnds(ac, bc, ovStart);
    }
  }

  lemma SparseHasNoGap(a: Chunk, f: nat, f': nat)
    requires WfChunk(a) && !IsRle(a.desc) && Aligned(f) && Aligned(f')
    requires a.start <= f <= f' < a.start + Span(a)
    ensures f == f'
  {
    if a.start < f' {
      AlignedStep(a.start, f');
    }
  }

  lemma WindowEnds(a: Chunk, b: Chunk, f: nat)
    requires WfChunk(a) && WfChunk(b) && !IsRle(a.desc) && Aligned(f)
    requires a.start <= f < a.start + Span(a) && b.start <= f < b.start + Span(b)
    ensures a.start + Span(a) <= b.start + Span(b)
  {
    SpanPositive(b);
    WindowAt(a, f);
    AlignedStep(f, b.start + Span(b));
  }

  /** Emits what is left of a's chunk i from the cursor on, where b has nothing more. */
  method DifferRest(r: Map, ac: Chunk, cursor: nat, ghost A: seq<Chunk>, ghost B: seq<Chunk>, ghost i: nat, ghost j: nat)
    requires Open(r, true) && WfStream(A) && WfStream(B) && AllFull(A)
    requires i < |A| && ac == A[i]
    requires Walk(A, B, i, j, cursor, r.Chunks())
    requires ac.start <= cursor <= ac.start + Span(ac)
    requires cursor < ac.start + Span(ac) && j < |B| ==> ac.start + Span(ac) <= B[j].start
    modifies r, r.data
    ensures Open(r, true)
    ensures Walk(A, B, i, j, ac.start + Span(ac), r.Chunks())
    ensures r.data == old(r.data) || fresh(r.data)
  {
    hide Layout, WfStream, AllFull, Members, ChunkMembers, End, Aligned, Floor, Range, Walk, WfChunk, Full, Cap;
    ChunkFacts(A, i);
    WalkAdvance(A, B, i, j, cursor, r.Chunks());
    var aEnd := ac.start + Cap(ac);
    if cursor < aEnd {
      ghost var r0 := r.Chunks();
      if !IsRle(ac.desc) {
        WindowAt(ac, cursor);
      }
      FloorUnique(cursor, cursor);
      EmitChunkBits(r, ac, cursor, aEnd);
      BoundAfter(r.Chunks(), cursor, aEnd);
      WalkGap(A, B, i, j, cursor, aEnd, r0, r.Chunks());
    }
  }

  /** Emits what a's chunk i keeps of itself, moving through the chunks of b that meet it. */
  method DifferChunk(r: Map, b: Map, ac: Chunk, bp0: nat, j0: nat, n: nat, ghost A: seq<Chunk>, ghost i: nat) returns (bp: nat, j: nat)
    requires Open(r, true) && Open(b, true) && b != r && b.data != r.data
    requires WfStream(A) && AllFull(A) && i < |A| && ac == A[i]
    requires n == |b.Chunks()| && j0 <= n && bp0 == 1 + Off(b.Chunks(), j0)
    requires Walk(A, b.Chunks(), i, j0, ac.start, r.Chunks())
    modifies r, r.data
    ensures Open(r, true)
    ensures j <= n && bp == 1 + Off(b.Chunks(), j)
    ensures Walk(A, b.Chunks(), i, j, ac.start + Span(ac), r.Chunks())
    ensures r.data == old(r.data) || fresh(r.data)
  {
    hide Layout, WfStream, AllFull, Members, ChunkMembers, End, Aligned, Floor, Range, Walk, WfChunk, Full, Off, Cap, Size, Span, RleLen, IsRle;
    ghost var B := b.Chunks();
    ChunkFacts(A, i);
    var aEnd := ac.start + Cap(ac);
    var cursor := ac.start;
    bp, j := bp0, j0;
    while j < n
      invariant Open(r, true) && (r.data == old(r.data) || fresh(r.data))
      invariant j <= n && bp == 1 + Off(B, j)
      invariant ac.start <= cursor < aEnd
      invariant Walk(A, B, i, j, cursor, r.Chunks())
    {
      var bc := b.Load(bp, j);
      ChunkFacts(B, j);
      var bEnd := bc.start + Cap(bc);
      if aEnd <= bc.start {
        break;
      }
      if bEnd <= cursor {
        WalkAdvance(A, B, i, j, cursor, r.Chunks());
        bp, j := bp + 1 + Size(bc.desc), j + 1;
        continue;
      }
      cursor := DifferStep(r, ac, bc, cursor, A, B, i, j);
      if bEnd <= aEnd {
        WalkAdvance(A, B, i, j, cursor, r.Chunks());
        bp, j := bp + 1 + Size(bc.desc), j + 1;
      }
      if aEnd <= bEnd {
        break;
      }
    }
    DifferRest(r, ac, cursor, A, B, i, j);
  }

  /** Copies a's chunk i whole: b has no chunks left. */
  method CopyChunk(r: Map, ac: Chunk, ghost A: seq<Chunk>, ghost B: seq<Chunk>, ghost i: nat)
    requires Open(r, true) && WfStream(A) && WfStream(B) && AllFull(A)
    requires i < |A| && ac == A[i]
    requires Walk(A, B, i, |B|, ac.start, r.Chunks())
    modifies r, r.data
    ensures Open(r, true)
    ensures Walk(A, B, i, |B|, ac.start + Span(ac), r.Chunks())
    ensures r.data == old(r.data) || fresh(r.data)
  {
    hide Layout, WfStream, AllFull, Members, End, Aligned, Floor, Range, Walk, WfChunk, Full, Cap;
    ChunkFacts(A, i);
    ghost var r0 := r.Chunks();
    WalkAdvance(A, B, i, |B|, ac.start, r0);
    WfAppend(r0, ac);
    PushChunk(r, ac);
    WholeChunk(ac);
    WalkGap(A, B, i, |B|, ac.start, ac.start + Span(ac), r0, r.Chunks());
  }

  lemma WholeChunk(c: Chunk)
    requires WfChunk(c)
    ensures ChunkMembers(c) * Range(c.start, c.start + Span(c)) == ChunkMembers(c)
  {
    forall x: nat | ChunkHas(c, x) ensures c.start <= x < c.start + Span(c) {
      ChunkHasBound(c, x);
    }
  }

  /** The members of a that b lacks, by one pass over both streams. */
  method DifferWalk(a: Map, b: Map) returns (r: Map)
    requires Open(a, true) && Open(b, true)
    ensures fresh(r) && fresh(r.data)
    ensures Open(r, true)
    ensures Members(r.Chunks()) == Members(a.Chunks()) - Members(b.Chunks())
  {
    hide Layout, WfStream, AllFull, Members, End, Aligned, Walk, WfChunk, Full, Off, ChunkMembers, Range, Span;
    ghost var A, B := a.Chunks(), b.Chunks();
    r := new Map(if a.used < 128 then 128 else a.used);
    var m, n := a.Count(), b.Count();
    var ap, bp, i, j := 1, 1, 0, 0;
    ghost var f: nat := 0;
    WalkStart(A, B);
    while i < m
      invariant fresh(r) && fresh(r.data) && Open(r, true)
      invariant i <= m && ap == 1 + Off(A, i)
      invariant j <= n && bp == 1 + Off(B, j)
      invariant i < m ==> f <= A[i].start
      invariant Walk(A, B, i, j, f, r.Chunks())
    {
      var ac := a.Load(ap, i);
      ChunkFacts(A, i);
      WalkJump(A, B, i, j, f, r.Chunks());
      if j >= n {
        CopyChunk(r, ac, A, B, i);
      } else {
        bp, j := DifferChunk(r, b, ac, bp, j, n, A, i);
      }
      f := ac.start + Span(ac);
      WalkAdvance(A, B, i, j, f, r.Chunks());
      ap, i := ap + 1 + Size(ac.desc), i + 1;
      if i < m {
        ChunkFacts(A, i);
      }
    }
    WalkDone(A, B, j, f, r.Chunks());
  }
}
