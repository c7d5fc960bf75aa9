// The chunk-merge walk for the union of two chunk-mode maps.
module Union {
  import opened Chunks
  import opened Streams
  import opened Codec
  import opened Maps
  import opened Appends
  import opened Emitter
  import opened MergeFacts
  import opened EmitBits
  import opened Difference

  /** r holds the members of A below p and those of B below q, each exactly once. */
  ghost predicate Taken(A: seq<Chunk>, B: seq<Chunk>, i: nat, j: nat, p: nat, q: nat, r: seq<Chunk>) {
    && Settled(A, i, p) && Settled(B, j, q)
    && Members(r) == Members(A) * Range(0, p) + Members(B) * Range(0, q)
  }

  /** The result ends before whatever chunk i still has to give from p on. */
  ghost predicate Room(cs: seq<Chunk>, i: nat, p: nat, r: seq<Chunk>) {
    i < |cs| ==> p < cs[i].start + Span(cs[i]) && End(r) <= (if p < cs[i].start then cs[i].start else p) && Aligned(p)
  }

  ghost predicate Walk(A: seq<Chunk>, B: seq<Chunk>, i: nat, j: nat, p: nat, q: nat, r: seq<Chunk>) {
    Taken(A, B, i, j, p, q, r) && Room(A, i, p, r) && Room(B, j, q, r)
  }

  lemma WalkStart(A: seq<Chunk>, B: seq<Chunk>)
    requires WfStream(A) && WfStream(B)
    ensures Off(A, 0) == Off(B, 0) == 0 && AllFull([])
    ensures Walk(A, B, 0, 0, 0, 0, [])
  {
    StreamEnds(A);
    StreamEnds(B);
    if A != [] {
      SpanPositive(A[0]);
    }
    if B != [] {
      SpanPositive(B[0]);
    }
  }

  /** The roles of the two streams may be exchanged. */
  lemma TakenFlip(A: seq<Chunk>, B: seq<Chunk>, i: nat, j: nat, p: nat, q: nat, r: seq<Chunk>)
    requires Taken(A, B, i, j, p, q, r)
    ensures Taken(B, A, j, i, q, p, r)
  {
    hide Members, Range;
  }

  /** A cursor behind its chunk's start may be moved up to it. */
  lemma WalkJump(A: seq<Chunk>, B: seq<Chunk>, i: nat, j: nat, p: nat, q: nat, r: seq<Chunk>, p': nat)
    requires WfStream(A) && i < |A| && Walk(A, B, i, j, p, q, r)
    requires p' == if p < A[i].start then A[i].start else p
    ensures Walk(A, B, i, j, p', q, r) && End(r) <= p' && Aligned(p')
    ensures A[i].start <= p' < A[i].start + Span(A[i])
  {
    hide Members, End, Aligned, Range;
    SpanPositive(A[i]);
    if p < A[i].start {
      ConsumeGap(A, i, p, p');
    }
  }

  /** Taking chunk i of A from p to p'. */
  lemma TakenStep(A: seq<Chunk>, B: seq<Chunk>, i: nat, j: nat, p: nat, q: nat, r: seq<Chunk>, p': nat, r': seq<Chunk>)
    requires WfStream(A) && i < |A| && Taken(A, B, i, j, p, q, r)
    requires p <= p' <= A[i].start + Span(A[i])
    requires Members(r') == Members(r) + ChunkMembers(A[i]) * Range(p, p')
    ensures Taken(A, B, i, j, p', q, r')
    ensures p' == A[i].start + Span(A[i]) ==> Taken(A, B, i + 1, j, p', q, r')
  {
    hide WfStream, Members, ChunkMembers, Range, Span;
    Consume(A, i, p, p');
  }

  /** Taking from both chunks at once. */
  lemma TakenBoth(A: seq<Chunk>, B: seq<Chunk>, i: nat, j: nat, p: nat, q: nat, r: seq<Chunk>, to: nat, r': seq<Chunk>)
    requires WfStream(A) && WfStream(B) && i < |A| && j < |B| && Taken(A, B, i, j, p, q, r)
    requires p <= to <= A[i].start + Span(A[i]) && q <= to <= B[j].start + Span(B[j])
    requires Members(r') == Members(r) + ChunkMembers(A[i]) * Range(p, to) + ChunkMembers(B[j]) * Range(q, to)
    ensures Taken(A, B, if to == A[i].start + Span(A[i]) then i + 1 else i, if to == B[j].start + Span(B[j]) then j + 1 else j, to, to, r')
  {
    hide WfStream, Members, ChunkMembers, Range, Span;
    Consume(A, i, p, to);
    Consume(B, j, q, to);
  }

  /** A stream whose next chunk starts past the frontier has room. */
  lemma RoomAfter(cs: seq<Chunk>, i: nat, p: nat, r: seq<Chunk>)
    requires WfStream(cs) && Settled(cs, i, p) && Aligned(p) && End(r) <= p
    requires i < |cs| ==> p < cs[i].start + Span(cs[i])
    ensures Room(cs, i, p, r)
  {
    hide End, Aligned, Span;
  }

  lemma WalkDone(A: seq<Chunk>, B: seq<Chunk>, p: nat, q: nat, r: seq<Chunk>)
    requires WfStream(A) && WfStream(B) && Taken(A, B, |A|, |B|, p, q, r)
    ensures Members(r) == Members(A) + Members(B)
  {
    hide WfStream, Members, Range;
    ConsumeAll(A, p);
    ConsumeAll(B, q);
  }

  /** Emits what is left of a chunk from the cursor on: the chunk itself when it is untouched. */
  method TakeRest(r: Map, c: Chunk, cursor: nat)
    requires Open(r, true) && WfChunk(c) && Full(c)
    requires c.start <= cursor < c.start + Span(c) && Aligned(cursor)
    requires End(r.Chunks()) <= cursor
    modifies r, r.data
    ensures Open(r, true)
    ensures Members(r.Chunks()) == Members(old(r.Chunks())) + ChunkMembers(c) * Range(cursor, c.start + Span(c))
    ensures End(r.Chunks()) <= c.start + Span(c)
    ensures r.data == old(r.data) || fresh(r.data)
  {
    hide Layout, WfStream, AllFull, Members, ChunkMembers, End, Aligned, Floor, Range, WfChunk, Full, Cap;
    RestFacts(c);
    if cursor == c.start {
      WfAppend(r.Chunks(), c);
      PushChunk(r, c);
      WholeChunk(c);
    } else {
      if !IsRle(c.desc) {
        WindowAt(c, cursor);
      }
      FloorUnique(cursor, cursor);
      EmitChunkBits(r, c, cursor, c.start + Cap(c));
      BoundAfter(r.Chunks(), cursor, c.start + Span(c));
    }
  }

  lemma RestFacts(c: Chunk)
    requires WfChunk(c) && Full(c)
    ensures Cap(c) == Span(c) && Aligned(c.start) && Aligned(c.start + Span(c)) && c.start + Span(c) <= TOP
    ensures !IsRle(c.desc) ==> Span(c) == WINDOW
  {
    FullCap(c);
    SpanPositive(c);
  }

  /** Emits both chunks over the common part of their spans that is still ahead. */
  method UnionCommon(r: Map, a: Chunk, b: Chunk, f: nat, to: nat)
    requires Open(r, true)
    requires WfChunk(a) && Full(a) && WfChunk(b) && Full(b)
    requires a.start <= f < to && b.start <= f && Aligned(f)
    requires to == if a.start + Span(a) < b.start + Span(b) then a.start + Span(a) else b.start + Span(b)
    requires End(r.Chunks()) <= f
    modifies r, r.data
    ensures Open(r, true)
    ensures Members(r.Chunks()) == Members(old(r.Chunks())) + (ChunkMembers(a) + ChunkMembers(b)) * Range(f, to)
    ensures End(r.Chunks()) <= to
    ensures r.data == old(r.data) || fresh(r.data)
  {
    hide Layout, WfStream, AllFull, Members, ChunkMembers, WindowMembers, End, Aligned, Floor, Range, ChunkHas, Expand;
    SpanPositive(a);
    SpanPositive(b);
    if IsRle(a.desc) && IsRle(b.desc) {
      UnionRuns(r, a, b, f, to);
    } else if IsRle(a.desc) {
      WindowAt(b, f);
      SparseInRle(b, a);
      SparseFacts(b);
      var bw, bc := ExpandChunk(b);
      var aw, ac := ExpandRle(a, b.start, bc);
      AppendOr(r, a, b, b.start, aw, ac, bw, bc);
    } else {
      WindowAt(a, f);
      SparseFacts(a);
      var aw, ac := ExpandChunk(a);
      if IsRle(b.desc) {
        SparseInRle(a, b);
        var bw, bc := ExpandRle(b, a.start, ac);
        AppendOr(r, a, b, a.start, aw, ac, bw, bc);
      } else {
        SparseOverlap(a, b);
        SparseFacts(b);
        var bw, bc := ExpandChunk(b);
        AppendOr(r, a, b, a.start, aw, ac, bw, bc);
      }
    }
  }

  /** Emits the merged runs of two run-length chunks over [f, to). */
  method UnionRuns(r: Map, a: Chunk, b: Chunk, f: nat, to: nat)
    requires Open(r, true)
    requires WfRle(a) && WfRle(b)
    requires a.start <= f < to <= TOP && b.start <= f && Aligned(f) && Aligned(to)
    requires End(r.Chunks()) <= f
    modifies r, r.data
    ensures Open(r, true)
    ensures Members(r.Chunks()) == Members(old(r.Chunks())) + (ChunkMembers(a) + ChunkMembers(b)) * Range(f, to)
    ensures End(r.Chunks()) <= to
    ensures r.data == old(r.data) || fresh(r.data)
  {
    hide Layout, WfStream, AllFull, Members, ChunkMembers, End, Aligned, Floor, Range;
    var aSetEnd, bSetEnd := a.start + RleLen(a.desc), b.start + RleLen(b.desc);
    var aLo := if f > a.start then f else a.start;
    var aHi := if to < aSetEnd then to else aSetEnd;
    var bLo := if f > b.start then f else b.start;
    var bHi := if to < bSetEnd then to else bSetEnd;
    var lo, hi := f, f;
    if aLo < aHi && bLo < bHi {
      lo := if aLo < bLo then aLo else bLo;
      hi := if aHi > bHi then aHi else bHi;
      var earlierEnd := if aLo <= bLo then aHi else bHi;
      var laterStart := if aLo <= bLo then bLo else aLo;
      // Both runs begin at f here, so they always meet.
      if earlierEnd < laterStart {
        assert false;
      }
    } else if aLo < aHi {
      lo, hi := aLo, aHi;
    } else if bLo < bHi {
      lo, hi := bLo, bHi;
    }
    RleUnion(a, b, f, to, hi);
    FloorUnique(f, f);
    AppendRun(r, lo, hi);
    BoundAfter(r.Chunks(), f, to);
  }

  lemma RleUnion(a: Chunk, b: Chunk, f: nat, to: nat, hi: nat)
    requires WfRle(a) && WfRle(b) && a.start <= f < to && b.start <= f
    requires var ae, be := a.start + RleLen(a.desc), b.start + RleLen(b.desc);
      var ah, bh := (if to < ae then to else ae), (if to < be then to else be);
      hi == if f < ah && f < bh then (if ah > bh then ah else bh) else if f < ah then ah else if f < bh then bh else f
    ensures (ChunkMembers(a) + ChunkMembers(b)) * Range(f, to) == Range(f, hi)
  {
    RleMembers(a);
    RleMembers(b);
  }

  /** Emits one chunk's part before the overlap, when its cursor is behind. */
  method CatchUp(r: Map, c: Chunk, cursor: nat, ov: nat)
    requires Open(r, true) && WfChunk(c) && Full(c)
    requires c.start <= cursor <= ov < c.start + Span(c) && Aligned(cursor) && Aligned(ov)
    requires End(r.Chunks()) <= cursor
    modifies r, r.data
    ensures Open(r, true)
    ensures Members(r.Chunks()) == Members(old(r.Chunks())) + ChunkMembers(c) * Range(cursor, ov)
    ensures End(r.Chunks()) <= ov
    ensures r.data == old(r.data) || fresh(r.data)
  {
    hide Layout, WfStream, AllFull, Members, ChunkMembers, End, Aligned, Floor, Range, WfChunk, Full;
    RestFacts(c);
    if !IsRle(c.desc) {
      SparseHasNoGap(c, cursor, ov);
    }
    FloorUnique(cursor, cursor);
    EmitChunkBits(r, c, cursor, ov);
    BoundAfter(r.Chunks(), cursor, ov);
  }

  /** Handles two overlapping chunks up to the nearer end, where both cursors then stand. */
  method UnionOverlap(r: Map, ac: Chunk, bc: Chunk, aCur: nat, bCur: nat, ghost A: seq<Chunk>, ghost B: seq<Chunk>, ghost i: nat, ghost j: nat) returns (cur: nat)
    requires Open(r, true) && WfStream(A) && WfStream(B)
    requires i < |A| && j < |B| && ac == A[i] && bc == B[j]
    requires WfChunk(ac) && Full(ac) && WfChunk(bc) && Full(bc)
    requires Taken(A, B, i, j, aCur, bCur, r.Chunks())
    requires ac.start <= aCur < ac.start + Span(ac) && bc.start <= bCur < bc.start + Span(bc)
    requires Aligned(aCur) && Aligned(bCur) && aCur < bc.start + Span(bc) && bCur < ac.start + Span(ac)
    requires End(r.Chunks()) <= aCur && End(r.Chunks()) <= bCur
    modifies r, r.data
    ensures Open(r, true)
    ensures cur == if ac.start + Span(ac) < bc.start + Span(bc) then ac.start + Span(ac) else bc.start + Span(bc)
    ensures Aligned(cur) && End(r.Chunks()) <= cur
    ensures Taken(A, B, if cur == ac.start + Span(ac) then i + 1 else i, if cur == bc.start + Span(bc) then j + 1 else j, cur, cur, r.Chunks())
    ensures r.data == old(r.data) || fresh(r.data)
  {
    hide Layout, WfStream, AllFull, Members, ChunkMembers, End, Aligned, Floor, Range, WfChunk, Full, Taken, Cap;
    RestFacts(ac);
    RestFacts(bc);
    var ov := if aCur > bCur then aCur else bCur;
    var aEnd, bEnd := ac.start + Cap(ac), bc.start + Cap(bc);
    cur := if aEnd < bEnd then aEnd else bEnd;
    ghost var r0 := r.Chunks();
    if aCur < ov {
      CatchUp(r, ac, aCur, ov);
      TakenStep(A, B, i, j, aCur, bCur, r0, ov, r.Chunks());
    } else if bCur < ov {
      CatchUp(r, bc, bCur, ov);
      TakenFlip(A, B, i, j, aCur, bCur, r0);
      TakenStep(B, A, j, i, bCur, aCur, r0, ov, r.Chunks());
      TakenFlip(B, A, j, i, ov, aCur, r.Chunks());
    }
    ghost var r1 := r.Chunks();
    UnionCommon(r, ac, bc, ov, cur);
    SplitCut(Members(r1), ChunkMembers(ac), ChunkMembers(bc), Range(ov, cur));
    TakenBoth(A, B, i, j, ov, ov, r1, cur, r.Chunks());
  }

  lemma SplitCut(m: iset<nat>, a: iset<nat>, b: iset<nat>, c: iset<nat>)
    ensures m + (a + b) * c == m + a * c + b * c
  {
  }

  /** The cursor of a chunk: zero until part of it has been taken. */
  ghost predicate CursorAt(cs: seq<Chunk>, i: nat, p: nat, cursor: nat) {
    cursor == p || (cursor == 0 && (i < |cs| ==> p <= cs[i].start))
  }

  /** Emits the rest of every remaining chunk of a once b is used up. */
  method Drain(r: Map, a: Map, ap0: nat, i0: nat, cursor0: nat, m: nat, ghost B: seq<Chunk>, ghost p0: nat, ghost q: nat)
    requires Open(r, true) && Open(a, true) && a != r && a.data != r.data && WfStream(B)
    requires m == |a.Chunks()| && i0 <= m && ap0 == 1 + Off(a.Chunks(), i0)
    requires Taken(a.Chunks(), B, i0, |B|, p0, q, r.Chunks()) && Room(a.Chunks(), i0, p0, r.Chunks())
    requires CursorAt(a.Chunks(), i0, p0, cursor0)
    modifies r, r.data
    ensures Open(r, true)
    ensures Members(r.Chunks()) == Members(a.Chunks()) + Members(B)
    ensures r.data == old(r.data) || fresh(r.data)
  {
    hide Layout, WfStream, AllFull, Members, End, Aligned, Range, WfChunk, Full, Off, Taken, Room, Cap;
    ghost var A := a.Chunks();
    var ap, i := ap0, i0;
    var cursor: nat := cursor0;
    ghost var p: nat := p0;
    while i < m
      invariant Open(r, true) && (r.data == old(r.data) || fresh(r.data))
      invariant i <= m && ap == 1 + Off(A, i)
      invariant Taken(A, B, i, |B|, p, q, r.Chunks()) && Room(A, i, p, r.Chunks())
      invariant CursorAt(A, i, p, cursor)
    {
      var c := a.Load(ap, i);
      ChunkFacts(A, i);
      RoomEmpty(B, q, r.Chunks());
      var at := if cursor > c.start then cursor else c.start;
      WalkJumpOpen(A, B, i, |B|, p, q, r.Chunks(), at);
      ghost var r0 := r.Chunks();
      TakeRest(r, c, at);
      TakenStep(A, B, i, |B|, at, q, r0, c.start + Span(c), r.Chunks());
      p := c.start + Span(c);
      ap, i, cursor := ap + 1 + Size(c.desc), i + 1, 0;
      NextChunk(A, i, p, r.Chunks());
    }
    WalkDone(A, B, p, q, r.Chunks());
  }

  lemma RoomEmpty(cs: seq<Chunk>, p: nat, r: seq<Chunk>)
    ensures Room(cs, |cs|, p, r)
  {
  }

  lemma WalkJumpOpen(A: seq<Chunk>, B: seq<Chunk>, i: nat, j: nat, p: nat, q: nat, r: seq<Chunk>, p': nat)
    requires WfStream(A) && i < |A| && Taken(A, B, i, j, p, q, r) && Room(A, i, p, r) && Room(B, j, q, r)
    requires p' == if p < A[i].start then A[i].start else p
    ensures Taken(A, B, i, j, p', q, r) && Room(A, i, p', r) && End(r) <= p' && Aligned(p')
    ensures A[i].start <= p' < A[i].start + Span(A[i])
  {
    hide Taken, Room;
    assert Walk(A, B, i, j, p, q, r);
    WalkJump(A, B, i, j, p, q, r, p');
  }

  /** Once chunk i - 1 is taken, the next one has room. */
  lemma NextChunk(cs: seq<Chunk>, i: nat, p: nat, r: seq<Chunk>)
    requires WfStream(cs) && 0 < i <= |cs|
    requires p == cs[i - 1].start + Span(cs[i - 1]) && End(r) <= p && Aligned(p)
    ensures Room(cs, i, p, r) && CursorAt(cs, i, p, 0)
  {
    hide End, Aligned;
    if i < |cs| {
      SpanPositive(cs[i]);
    }
  }

  /** Both cursors moved up to their chunks. */
  lemma Clamp(A: seq<Chunk>, B: seq<Chunk>, i: nat, j: nat, p: nat, q: nat, r: seq<Chunk>, aC: nat, bC: nat, aCur: nat, bCur: nat)
    requires WfStream(A) && WfStream(B) && i < |A| && j < |B| && Walk(A, B, i, j, p, q, r)
    requires CursorAt(A, i, p, aC) && CursorAt(B, j, q, bC)
    requires aCur == if aC < A[i].start then A[i].start else aC
    requires bCur == if bC < B[j].start then B[j].start else bC
    ensures Taken(A, B, i, j, aCur, bCur, r)
    ensures End(r) <= aCur && End(r) <= bCur && Aligned(aCur) && Aligned(bCur)
    ensures A[i].start <= aCur < A[i].start + Span(A[i]) && B[j].start <= bCur < B[j].start + Span(B[j])
  {
    hide WfStream, Members, End, Aligned, Range, Span, Taken, Room;
    WalkJump(A, B, i, j, p, q, r, aCur);
    TakenFlip(A, B, i, j, aCur, q, r);
    assert Walk(B, A, j, i, q, aCur, r);
    WalkJump(B, A, j, i, q, aCur, r, bCur);
    TakenFlip(B, A, j, i, bCur, aCur, r);
  }

  /** Back to a walk, given where the cursors stand. */
  lemma Resume(A: seq<Chunk>, B: seq<Chunk>, i: nat, j: nat, p: nat, q: nat, r: seq<Chunk>)
    requires WfStream(A) && WfStream(B) && Taken(A, B, i, j, p, q, r)
    requires End(r) <= p && End(r) <= q && Aligned(p) && Aligned(q)
    requires i < |A| ==> p < A[i].start + Span(A[i])
    requires j < |B| ==> q < B[j].start + Span(B[j])
    ensures Walk(A, B, i, j, p, q, r)
  {
    hide WfStream, Members, End, Aligned, Range, Span;
    RoomAfter(A, i, p, r);
    RoomAfter(B, j, q, r);
  }

  lemma PastChunk(cs: seq<Chunk>, i: nat, p: nat)
    requires WfStream(cs) && i < |cs| && p == cs[i].start + Span(cs[i])
    ensures i + 1 < |cs| ==> p < cs[i + 1].start + Span(cs[i + 1])
    ensures CursorAt(cs, i + 1, p, 0)
  {
    if i + 1 < |cs| {
      SpanPositive(cs[i + 1]);
    }
  }

  /** Where the walk stands: positions, chunk numbers and cursors in both streams. */
  datatype Place = Place(ap: nat, i: nat, aC: nat, bp: nat, j: nat, bC: nat)

  /** Takes the earlier of two disjoint pieces, or the stretch where both chunks reach. */
  method TakePair(r: Map, ac: Chunk, bc: Chunk, at: Place, ghost A: seq<Chunk>, ghost B: seq<Chunk>)
    returns (to: Place, ghost p: nat, ghost q: nat)
    requires Open(r, true) && WfStream(A) && WfStream(B) && AllFull(A) && AllFull(B)
    requires at.i < |A| && at.j < |B| && ac == A[at.i] && bc == B[at.j]
    requires Taken(A, B, at.i, at.j, at.aC, at.bC, r.Chunks())
    requires ac.start <= at.aC < ac.start + Span(ac) && bc.start <= at.bC < bc.start + Span(bc)
    requires Aligned(at.aC) && Aligned(at.bC) && End(r.Chunks()) <= at.aC && End(r.Chunks()) <= at.bC
    modifies r, r.data
    ensures Open(r, true)
    ensures (to.i == at.i && to.ap == at.ap) || (to.i == at.i + 1 && to.ap == at.ap + 1 + Size(ac.desc))
    ensures (to.j == at.j && to.bp == at.bp) || (to.j == at.j + 1 && to.bp == at.bp + 1 + Size(bc.desc))
    ensures at.i + at.j < to.i + to.j
    ensures Walk(A, B, to.i, to.j, p, q, r.Chunks())
    ensures CursorAt(A, to.i, p, to.aC) && CursorAt(B, to.j, q, to.bC)
    ensures r.data == old(r.data) || fresh(r.data)
  {
    hide Layout, WfStream, AllFull, Members, ChunkMembers, End, Aligned, WfChunk, Full, Off, Taken, Room, Walk, Cap, Range, Size, Span;
    ChunkFacts(A, at.i);
    ChunkFacts(B, at.j);
    var aEnd, bEnd := ac.start + Cap(ac), bc.start + Cap(bc);
    PastChunk(A, at.i, aEnd);
    PastChunk(B, at.j, bEnd);
    ghost var r0 := r.Chunks();
    to := at;
    if aEnd <= at.bC {
      TakeRest(r, ac, at.aC);
      TakenStep(A, B, at.i, at.j, at.aC, at.bC, r0, aEnd, r.Chunks());
      p, q := aEnd, at.bC;
      to := to.(ap := at.ap + 1 + Size(ac.desc), i := at.i + 1, aC := 0);
    } else if bEnd <= at.aC {
      TakeRest(r, bc, at.bC);
      TakenFlip(A, B, at.i, at.j, at.aC, at.bC, r0);
      TakenStep(B, A, at.j, at.i, at.bC, at.aC, r0, bEnd, r.Chunks());
      TakenFlip(B, A, at.j + 1, at.i, bEnd, at.aC, r.Chunks());
      p, q := at.aC, bEnd;
      to := to.(bp := at.bp + 1 + Size(bc.desc), j := at.j + 1, bC := 0);
    } else {
      var cur := UnionOverlap(r, ac, bc, at.aC, at.bC, A, B, at.i, at.j);
      p, q := cur, cur;
      to := to.(aC := cur, bC := cur);
      if cur >= aEnd {
        to := to.(ap := at.ap + 1 + Size(ac.desc), i := at.i + 1, aC := 0);
      }
      if cur >= bEnd {
        to := to.(bp := at.bp + 1 + Size(bc.desc), j := at.j + 1, bC := 0);
      }
    }
    Resume(A, B, to.i, to.j, p, q, r.Chunks());
  }

  /** One step of the walk at chunks i of a and j of b. */
  method UnionStep(r: Map, a: Map, b: Map, at: Place, ghost p0: nat, ghost q0: nat) returns (to: Place, ghost p: nat, ghost q: nat)
    requires Open(r, true) && Open(a, true) && Open(b, true) && r != a && r != b && r.data != a.data && r.data != b.data
    requires at.i < |a.Chunks()| && at.j < |b.Chunks()|
    requires at.ap == 1 + Off(a.Chunks(), at.i) && at.bp == 1 + Off(b.Chunks(), at.j)
    requires Walk(a.Chunks(), b.Chunks(), at.i, at.j, p0, q0, r.Chunks())
    requires CursorAt(a.Chunks(), at.i, p0, at.aC) && CursorAt(b.Chunks(), at.j, q0, at.bC)
    modifies r, r.data
    ensures Open(r, true)
    ensures to.i <= |a.Chunks()| && to.j <= |b.Chunks()| && at.i + at.j < to.i + to.j
    ensures to.ap == 1 + Off(a.Chunks(), to.i) && to.bp == 1 + Off(b.Chunks(), to.j)
    ensures Walk(a.Chunks(), b.Chunks(), to.i, to.j, p, q, r.Chunks())
    ensures CursorAt(a.Chunks(), to.i, p, to.aC) && CursorAt(b.Chunks(), to.j, q, to.bC)
    ensures r.data == old(r.data) || fresh(r.data)
  {
    hide Layout, WfStream, AllFull, Members, ChunkMembers, End, Aligned, WfChunk, Full, Off, Taken, Room, Walk, Cap, Range, Size, Span, CursorAt;
    ghost var A, B := a.Chunks(), b.Chunks();
    var ac := a.Load(at.ap, at.i);
    var bc := b.Load(at.bp, at.j);
    var aC, bC := if at.aC < ac.start then ac.start else at.aC, if at.bC < bc.start then bc.start else at.bC;
    Clamp(A, B, at.i, at.j, p0, q0, r.Chunks(), at.aC, at.bC, aC, bC);
    to, p, q := TakePair(r, ac, bc, at.(aC := aC, bC := bC), A, B);
  }

  /** The members of either map, by one pass over both streams. */
  method UnionWalk(a: Map, b: Map) returns (r: Map)
    requires Open(a, true) && Open(b, true)
    ensures fresh(r) && fresh(r.data)
    ensures Open(r, true)
    ensures Members(r.Chunks()) == Members(a.Chunks()) + Members(b.Chunks())
  {
    hide Layout, WfStream, AllFull, Members, End, Aligned, WfChunk, Full, Off, Taken, Room, Cap, Range, Span, CursorAt;
    ghost var A, B := a.Chunks(), b.Chunks();
    r := new Map(if a.used + b.used < 128 then 128 else a.used + b.used);
    var m, n := a.Count(), b.Count();
    var at := Place(1, 0, 0, 1, 0, 0);
    ghost var p: nat, q: nat := 0, 0;
    WalkStart(A, B);
    CursorStart(A, 0);
    CursorStart(B, 0);
    while at.i < m && at.j < n
      invariant fresh(r) && fresh(r.data) && Open(r, true)
      invariant at.i <= m && at.ap == 1 + Off(A, at.i)
      invariant at.j <= n && at.bp == 1 + Off(B, at.j)
      invariant Walk(A, B, at.i, at.j, p, q, r.Chunks())
      invariant CursorAt(A, at.i, p, at.aC) && CursorAt(B, at.j, q, at.bC)
      decreases m - at.i + n - at.j
    {
      at, p, q := UnionStep(r, a, b, at, p, q);
    }
    if at.j == n {
      Drain(r, a, at.ap, at.i, at.aC, m, B, p, q);
    } else {
      TakenFlip(A, B, at.i, at.j, p, q, r.Chunks());
      Drain(r, b, at.bp, at.j, at.bC, n, A, q, p);
    }
  }

  lemma CursorStart(cs: seq<Chunk>, i: nat)
    ensures CursorAt(cs, i, 0, 0)
  {
  }
}
