// The chunk-merge walk for the intersection of two chunk-mode maps.
module Intersection {
  import opened Words
  import opened Chunks
  import opened Streams
  import opened Codec
  import opened Maps
  import opened Appends
  import opened MergeFacts

  /** Keeps the words of slots both sides use. */
  method MaskBoth(ws: Window, ac: seq<bool>, bc: seq<bool>) returns (r: Window, rc: seq<bool>)
    requires |ac| == |bc| == SLOTS
    ensures |rc| == SLOTS
    ensures forall v :: 0 <= v < SLOTS ==> rc[v] == (ac[v] && bc[v])
    ensures forall v :: 0 <= v < SLOTS ==> r[v] == if rc[v] then ws[v] else ZERO
  {
    r, rc := ws, [];
    for i := 0 to SLOTS
      invariant |rc| == i
      invariant forall v :: 0 <= v < i ==> rc[v] == (ac[v] && bc[v])
      invariant forall v :: 0 <= v < SLOTS ==> r[v] == if v < i && !rc[v] then ZERO else ws[v]
    {
      rc := rc + [ac[i] && bc[i]];
      if !rc[i] {
        r := r[i := ZERO];
      }
    }
  }

  /** Appends the common members of two overlapping chunks. */
  method IntersectOverlap(r: Map, a: Chunk, b: Chunk)
    requires Open(r, true)
    requires WfChunk(a) && Full(a) && WfChunk(b) && Full(b) && Overlap(a, b)
    requires End(r.Chunks()) <= a.start || End(r.Chunks()) <= b.start
    modifies r, r.data
    ensures Open(r, true)
    ensures Members(r.Chunks()) == Members(old(r.Chunks())) + ChunkMembers(a) * ChunkMembers(b)
    ensures End(r.Chunks()) <= a.start + Span(a) && End(r.Chunks()) <= b.start + Span(b)
    ensures r.data == old(r.data) || fresh(r.data)
  {
    hide Layout, WfStream, AllFull, Members, ChunkMembers, WindowMembers, End, Aligned, Floor, Range, ChunkHas, Expand, RleLen, Full;
    if !IsRle(a.desc) && !IsRle(b.desc) {
      if a.start != b.start {
        SparseOverlap(a, b);
        assert false;
      }
      SparseFacts(a);
      SparseFacts(b);
      var aw, ac := ExpandChunk(a);
      var bw, bc := ExpandChunk(b);
      AppendAnd(r, a, b, a.start, aw, ac, bw, bc);
    } else if IsRle(a.desc) && IsRle(b.desc) {
      var lo := if a.start > b.start then a.start else b.start;
      var aEnd, bEnd := a.start + RleLen(a.desc), b.start + RleLen(b.desc);
      var hi := if aEnd < bEnd then aEnd else bEnd;
      RleOverlap(a, b, lo, hi);
      SpanPositive(a);
      SpanPositive(b);
      FloorUnique(lo, lo);
      AppendRun(r, lo, hi);
      if lo < hi {
        EndWithin(r.Chunks(), hi, a.start + Span(a));
        EndWithin(r.Chunks(), hi, b.start + Span(b));
      }
    } else if IsRle(a.desc) {
      SparseInRle(b, a);
      SparseFacts(b);
      var bw, bc := ExpandChunk(b);
      var aw, ac := ExpandRle(a, b.start, bc);
      AppendAnd(r, a, b, b.start, aw, ac, bw, bc);
    } else {
      SparseInRle(a, b);
      SparseFacts(a);
      var aw, ac := ExpandChunk(a);
      var bw, bc := ExpandRle(b, a.start, ac);
      AppendAnd(r, a, b, a.start, aw, ac, bw, bc);
    }
  }

  /** Ands two windows at the same start and appends the result. */
  method AppendAnd(r: Map, ghost a: Chunk, ghost b: Chunk, start: nat, aw: Window, ac: seq<bool>, bw: Window, bc: seq<bool>)
    requires Open(r, true)
    requires ac == bc == AllSlots()
    requires WindowOf(a, start, aw) && WindowOf(b, start, bw)
    requires Within(a, start) || Within(b, start)
    requires Aligned(start) && start + WINDOW <= TOP && End(r.Chunks()) <= start
    modifies r, r.data
    ensures Open(r, true)
    ensures Members(r.Chunks()) == Members(old(r.Chunks())) + ChunkMembers(a) * ChunkMembers(b)
    ensures End(r.Chunks()) <= start + WINDOW
    ensures r.data == old(r.data) || fresh(r.data)
  {
    hide Layout, WfStream, AllFull, Members, End, Aligned;
    var rw := WordsAnd(aw, bw);
    var words, caps := MaskBoth(rw, ac, bc);
    assert caps == AllSlots();
    assert words == rw;
    AndMembers(a, b, start, aw, bw, words);
    EncodeAndAppend(r, start, words, caps);
  }

  /** The frontier is the end of a chunk already passed. */
  ghost predicate EndsAt(cs: seq<Chunk>, i: nat, f: nat) {
    0 < i <= |cs| && f == cs[i - 1].start + Span(cs[i - 1])
  }

  /** Where one side's next chunk has not begun, nothing is common. */
  lemma StepSkip(A: seq<Chunk>, B: seq<Chunk>, i: nat, j: nat, f: nat, f': nat)
    requires WfStream(A) && WfStream(B) && Settled(A, i, f) && Settled(B, j, f)
    requires i < |A| && j < |B| && f <= f'
    requires f' == f || f' <= A[i].start || f' <= B[j].start
    ensures Members(A) * Members(B) * Range(0, f') == Members(A) * Members(B) * Range(0, f)
  {
    hide WfStream, Has;
    forall x: nat | f <= x < f' ensures !(Has(A, x) && Has(B, x)) {
      HasFrom(A, i, x);
      HasFrom(B, j, x);
    }
  }

  /** Up to the nearer end of two overlapping chunks, only these two matter. */
  lemma StepOverlap(A: seq<Chunk>, B: seq<Chunk>, i: nat, j: nat, f: nat, f': nat)
    requires WfStream(A) && WfStream(B) && Settled(A, i, f) && Settled(B, j, f)
    requires i < |A| && j < |B| && f <= f' && Overlap(A[i], B[j])
    requires f <= A[i].start || f <= B[j].start
    requires f' <= A[i].start + Span(A[i]) && f' <= B[j].start + Span(B[j])
    requires f' == A[i].start + Span(A[i]) || f' == B[j].start + Span(B[j])
    ensures Members(A) * Members(B) * Range(0, f') ==
      Members(A) * Members(B) * Range(0, f) + ChunkMembers(A[i]) * ChunkMembers(B[j])
  {
    hide WfStream, Has, ChunkHas;
    forall x: nat | f <= x < f'
      ensures Has(A, x) && Has(B, x) <==> ChunkHas(A[i], x) && ChunkHas(B[j], x)
    {
      HasFrom(A, i, x);
      HasFrom(B, j, x);
    }
    forall x: nat | ChunkHas(A[i], x) && ChunkHas(B[j], x)
      ensures f <= x < f'
    {
      PairBounds(A, B, i, j, x);
    }
  }

  lemma PairBounds(A: seq<Chunk>, B: seq<Chunk>, i: nat, j: nat, x: nat)
    requires WfStream(A) && WfStream(B) && i < |A| && j < |B|
    requires ChunkHas(A[i], x) && ChunkHas(B[j], x)
    ensures A[i].start <= x < A[i].start + Span(A[i]) && B[j].start <= x < B[j].start + Span(B[j])
    ensures Has(A, x) && Has(B, x)
  {
    ChunkHasBound(A[i], x);
    ChunkHasBound(B[j], x);
  }

  /** The walk stands at chunks i and j; r holds the common members below f, and nothing past f. */
  ghost predicate Walk(A: seq<Chunk>, B: seq<Chunk>, i: nat, j: nat, f: nat, r: seq<Chunk>) {
    && Settled(A, i, f) && Settled(B, j, f)
    && (f == 0 || EndsAt(A, i, f) || EndsAt(B, j, f))
    && End(r) <= f
    && Members(r) == Members(A) * Members(B) * Range(0, f)
  }

  lemma WalkStart(A: seq<Chunk>, B: seq<Chunk>)
    ensures Off(A, 0) == Off(B, 0) == 0 && AllFull([])
    ensures Walk(A, B, 0, 0, 0, [])
  {
    StreamEnds(A);
    StreamEnds(B);
  }

  lemma WalkSkip(A: seq<Chunk>, B: seq<Chunk>, i: nat, j: nat, f: nat, r: seq<Chunk>) returns (f': nat)
    requires WfStream(A) && WfStream(B) && i < |A| && j < |B|
    requires Walk(A, B, i, j, f, r)
    ensures A[i].start + Span(A[i]) <= B[j].start ==> Walk(A, B, i + 1, j, f', r)
    ensures B[j].start + Span(B[j]) <= A[i].start ==> Walk(A, B, i, j + 1, f', r)
  {
    hide Members, End;
    var aEnd, bEnd := A[i].start + Span(A[i]), B[j].start + Span(B[j]);
    SpanPositive(A[i]);
    SpanPositive(B[j]);
    f' := f;
    if aEnd <= B[j].start && f < aEnd {
      f' := aEnd;
    } else if bEnd <= A[i].start && f < bEnd {
      f' := bEnd;
    }
    StepSkip(A, B, i, j, f, f');
  }

  /** What an overlap adds, and where it leaves the walk. */
  lemma WalkMeet(A: seq<Chunk>, B: seq<Chunk>, i: nat, j: nat, f: nat, r: seq<Chunk>, r': seq<Chunk>, i': nat, j': nat) returns (f': nat)
    requires WfStream(A) && WfStream(B) && i < |A| && j < |B| && Overlap(A[i], B[j])
    requires Walk(A, B, i, j, f, r)
    requires Members(r') == Members(r) + ChunkMembers(A[i]) * ChunkMembers(B[j])
    requires End(r') <= A[i].start + Span(A[i]) && End(r') <= B[j].start + Span(B[j])
    requires i' == if A[i].start + Span(A[i]) <= B[j].start + Span(B[j]) then i + 1 else i
    requires j' == if B[j].start + Span(B[j]) <= A[i].start + Span(A[i]) then j + 1 else j
    ensures Walk(A, B, i', j', f', r')
  {
    hide Members, End, ChunkMembers;
    var aEnd, bEnd := A[i].start + Span(A[i]), B[j].start + Span(B[j]);
    f' := if aEnd < bEnd then aEnd else bEnd;
    SpanPositive(A[i]);
    SpanPositive(B[j]);
    StepOverlap(A, B, i, j, f, f');
  }

  /** The walk leaves room in the result for the next overlap. */
  lemma WalkRoom(A: seq<Chunk>, B: seq<Chunk>, i: nat, j: nat, f: nat, r: seq<Chunk>)
    requires WfStream(A) && WfStream(B) && i < |A| && j < |B|
    requires AllFull(A) && AllFull(B)
    requires Walk(A, B, i, j, f, r)
    ensures End(r) <= A[i].start || End(r) <= B[j].start
    ensures WfChunk(A[i]) && Full(A[i]) && WfChunk(B[j]) && Full(B[j])
    ensures Cap(A[i]) == Span(A[i]) && Cap(B[j]) == Span(B[j])
  {
    hide Members, End, Range, Cap;
    FullCap(A[i]);
    FullCap(B[j]);
  }

  /** Once either stream is used up, nothing more is common. */
  lemma WalkDone(A: seq<Chunk>, B: seq<Chunk>, i: nat, j: nat, f: nat, r: seq<Chunk>)
    requires WfStream(A) && WfStream(B) && Walk(A, B, i, j, f, r)
    requires i == |A| || j == |B|
    ensures Members(r) == Members(A) * Members(B)
  {
    hide WfStream, Has;
    forall x: nat | x >= f ensures !(Has(A, x) && Has(B, x)) {
      HasFrom(A, i, x);
      HasFrom(B, j, x);
    }
  }

  /** Where the walk stands: positions and chunk numbers in both streams. */
  datatype Spot = Spot(ap: nat, i: nat, bp: nat, j: nat)

  /** Passes the earlier of two disjoint chunks, or takes what two overlapping ones share and passes whichever ends first. */
  method MeetPair(r: Map, ac: Chunk, bc: Chunk, at: Spot, ghost A: seq<Chunk>, ghost B: seq<Chunk>, ghost f: nat)
    returns (to: Spot, ghost f': nat)
    requires Open(r, true) && WfStream(A) && WfStream(B) && AllFull(A) && AllFull(B)
    requires at.i < |A| && at.j < |B| && ac == A[at.i] && bc == B[at.j] && Walk(A, B, at.i, at.j, f, r.Chunks())
    modifies r, r.data
    ensures Open(r, true) && Walk(A, B, to.i, to.j, f', r.Chunks())
    ensures (to.i == at.i && to.ap == at.ap) || (to.i == at.i + 1 && to.ap == at.ap + 1 + Size(ac.desc))
    ensures (to.j == at.j && to.bp == at.bp) || (to.j == at.j + 1 && to.bp == at.bp + 1 + Size(bc.desc))
    ensures at.i + at.j < to.i + to.j
    ensures r.data == old(r.data) || fresh(r.data)
  {
    hide Open, Layout, WfStream, AllFull, Members, ChunkMembers, End, Span, Cap, Off, Full, WfChunk, Walk, Size, Aligned;
    var aEnd, bEnd := ac.start + Cap(ac), bc.start + Cap(bc);
    ghost var was := r.Chunks();
    WalkRoom(A, B, at.i, at.j, f, was);
    to := at;
    if aEnd <= bc.start {
      f' := WalkSkip(A, B, at.i, at.j, f, was);
      to := to.(ap := at.ap + 1 + Size(ac.desc), i := at.i + 1);
    } else if bEnd <= ac.start {
      f' := WalkSkip(A, B, at.i, at.j, f, was);
      to := to.(bp := at.bp + 1 + Size(bc.desc), j := at.j + 1);
    } else {
      IntersectOverlap(r, ac, bc);
      if aEnd <= bEnd {
        to := to.(ap := at.ap + 1 + Size(ac.desc), i := at.i + 1);
      }
      if bEnd <= aEnd {
        to := to.(bp := at.bp + 1 + Size(bc.desc), j := at.j + 1);
      }
      f' := WalkMeet(A, B, at.i, at.j, f, was, r.Chunks(), to.i, to.j);
    }
  }

  /** The common members of two chunk-mode maps, by one pass over both streams. */
  method IntersectWalk(a: Map, b: Map) returns (r: Map)
    requires Open(a, true) && Open(b, true)
    ensures fresh(r) && fresh(r.data)
    ensures Open(r, true)
    ensures Members(r.Chunks()) == Members(a.Chunks()) * Members(b.Chunks())
  {
    hide Layout, WfStream, AllFull, Members, ChunkMembers, End, Span, Cap, Off, Full, WfChunk, Walk, Size, Aligned;
    ghost var A, B := a.Chunks(), b.Chunks();
    var cap := if a.used < b.used then b.used else a.used;
    r := new Map(if cap < 128 then 128 else cap);
    var m, n := a.Count(), b.Count();
    var at := Spot(1, 0, 1, 0);
    ghost var f: nat := 0;
    WalkStart(A, B);
    while at.i < m && at.j < n
      invariant fresh(r) && fresh(r.data) && Open(r, true)
      invariant at.i <= m && at.ap == 1 + Off(A, at.i)
      invariant at.j <= n && at.bp == 1 + Off(B, at.j)
      invariant Walk(A, B, at.i, at.j, f, r.Chunks())
      decreases m - at.i + n - at.j
    {
      var ac := a.Load(at.ap, at.i);
      var bc := b.Load(at.bp, at.j);
      at, f := MeetPair(r, ac, bc, at, A, B, f);
    }
    WalkDone(A, B, at.i, at.j, f, r.Chunks());
  }
}
