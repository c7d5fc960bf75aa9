// How many words a set can take once its chunks are merged: eight for each of its runs, and one.
module Footprints {
  import opened Chunks
  import opened Streams
  import opened Maps
  import opened RunLengths
  import opened Coalesce
  import opened Slots
  import opened Sizes
  import opened Adding
  import opened Counting

  /** A stream laid out for the set s. */
  ghost predicate Spells(cs: seq<Chunk>, s: iset<nat>) {
    WfStream(cs) && AllFull(cs) && Members(cs) == s
  }

  /** The words a stream takes. */
  ghost function Footprint(cs: seq<Chunk>): nat {
    |Layout(Chunked(cs))|
  }

  // ---- where runs begin and end ----------------------------------------------------------------------

  /** A run of the set begins at the index. */
  ghost predicate Begins(s: iset<nat>, x: nat) {
    x in s && (x == 0 || x - 1 !in s)
  }

  /** The index is the first after a run. */
  ghost predicate Stops(s: iset<nat>, x: nat) {
    x > 0 && x !in s && x - 1 in s
  }

  ghost function Starts(s: iset<nat>): iset<nat> {
    iset x: nat | Begins(s, x)
  }

  ghost function Ends(s: iset<nat>): iset<nat> {
    iset x: nat | Stops(s, x)
  }

  /** The number of maximal runs. */
  ghost function RunTotal(s: iset<nat>): nat {
    Count(Starts(s), 0, TOP)
  }

  /** Every run that ended has begun. */
  lemma {:induction false} EndsStarts(s: iset<nat>, n: nat)
    ensures Count(Ends(s), 0, n) + (if n > 0 && n - 1 in s then 1 else 0) == Count(Starts(s), 0, n)
  {
    if n > 0 {
      EndsStarts(s, n - 1);
    }
  }

  lemma CountOf(t: iset<nat>, lo: nat, x: nat, hi: nat)
    requires lo <= x < hi && x in t
    ensures Count(t, lo, hi) >= 1
  {
    CountSplit(t, lo, x, hi);
    CountSplit(t, x, x + 1, hi);
    assert Count(t, x, x + 1) == Count(t, x, x) + 1;
  }

  /** Between a member and a later index that is none a run ends. */
  lemma {:induction false} EndBetween(s: iset<nat>, x: nat, y: nat) returns (z: nat)
    requires x < y && x in s && y !in s
    ensures x < z <= y && z in Ends(s)
    decreases y
  {
    if y - 1 in s {
      z := y;
    } else {
      z := EndBetween(s, x, y - 1);
    }
  }

  /** Between an index that is no member and a later member a run begins. */
  lemma {:induction false} StartBetween(s: iset<nat>, x: nat, y: nat) returns (z: nat)
    requires x < y && x !in s && y in s
    ensures x < z <= y && z in Starts(s)
    decreases y
  {
    if y - 1 in s {
      z := StartBetween(s, x, y - 1);
    } else {
      z := y;
    }
  }

  /** The runs that begin or end in [lo, hi). */
  ghost function Edges(s: iset<nat>, lo: nat, hi: nat): nat {
    Count(Starts(s), lo, hi) + Count(Ends(s), lo, hi)
  }

  lemma EdgesSplit(s: iset<nat>, lo: nat, mid: nat, hi: nat)
    requires lo <= mid <= hi
    ensures Edges(s, lo, hi) == Edges(s, lo, mid) + Edges(s, mid, hi)
  {
    CountSplit(Starts(s), lo, mid, hi);
    CountSplit(Ends(s), lo, mid, hi);
  }

  /** A slot that is neither full nor empty holds an edge. */
  lemma PartialEdge(s: iset<nat>, lo: nat)
    requires !AllOf(s, lo) && !NoneOf(s, lo)
    ensures Edges(s, lo, lo + 64) >= 1
  {
    hide Count, Starts, Ends;
    var x: nat :| lo <= x < lo + 64 && x in s;
    var y: nat :| lo <= y < lo + 64 && y !in s;
    if x < y {
      var z := EndBetween(s, x, y);
      CountOf(Ends(s), lo, z, lo + 64);
    } else {
      var z := StartBetween(s, y, x);
      CountOf(Starts(s), lo, z, lo + 64);
    }
  }

  /** There are no more partial slots than edges. */
  lemma {:induction false} PartialEdges(s: iset<nat>, start: nat, n: nat)
    ensures PartialSlots(s, start, n) <= Edges(s, start, start + 64 * n)
  {
    hide Edges, AllOf, NoneOf;
    if n > 0 {
      PartialEdges(s, start, n - 1);
      EdgesSplit(s, start, start + 64 * (n - 1), start + 64 * n);
      if !AllOf(s, start + 64 * (n - 1)) && !NoneOf(s, start + 64 * (n - 1)) {
        PartialEdge(s, start + 64 * (n - 1));
      }
    }
  }

  // ---- the words of one chunk --------------------------------------------------------------------------

  ghost function StartsIn(s: iset<nat>, c: Chunk): nat {
    Count(Starts(s), c.start, c.start + Span(c))
  }

  ghost function EndsIn(s: iset<nat>, c: Chunk): nat {
    Count(Ends(s), c.start, c.start + Span(c))
  }

  /** A chunk takes two words and no more than one for each edge in its span. */
  lemma WordsByEdges(cs: seq<Chunk>, i: nat)
    requires WfStream(cs) && i < |cs|
    ensures |Enc(cs[i])| <= 2 + StartsIn(Members(cs), cs[i]) + EndsIn(Members(cs), cs[i])
  {
    hide WfStream, Members, Count, Starts, Ends, PartialSlots, ChunkMembers, WfSparse;
    var c, s := cs[i], Members(cs);
    OneOfThem(cs, i);
    ShortEnc(c);
    if !IsRle(c.desc) {
      SparseWords(c);
      OwnMembers(cs, i);
      PartialSame(ChunkMembers(c), s, c.start, SLOTS);
      PartialEdges(s, c.start, SLOTS);
    }
  }

  lemma ShortEnc(c: Chunk)
    requires WfChunk(c)
    ensures IsRle(c.desc) ==> |Enc(c)| == 2
  {
  }

  /** Within its span a chunk decides membership. */
  lemma OwnMembers(cs: seq<Chunk>, i: nat)
    requires WfStream(cs) && i < |cs|
    ensures forall x: nat :: cs[i].start <= x < cs[i].start + Span(cs[i]) ==> (x in ChunkMembers(cs[i]) <==> x in Members(cs))
  {
    hide WfStream, ChunkHas;
    forall x: nat | cs[i].start <= x < cs[i].start + Span(cs[i]) ensures x in ChunkMembers(cs[i]) <==> x in Members(cs) {
      HasInSpan(cs, i, x);
    }
  }

  // ---- chunks without an edge ----------------------------------------------------------------------------

  /** No run begins in the span: everything up to a member of it is in the set, and so is the index before it. */
  lemma NoStart(s: iset<nat>, a: nat, hi: nat, x: nat)
    requires Count(Starts(s), a, hi) == 0 && a <= x < hi && x in s
    ensures forall y: nat :: a <= y <= x ==> y in s
    ensures a > 0 && a - 1 in s
  {
    hide Count, Starts;
    forall y: nat | a <= y <= x ensures y in s {
      if y !in s {
        var z := StartBetween(s, y, x);
        CountOf(Starts(s), a, z, hi);
      }
    }
    if a == 0 || a - 1 !in s {
      BeginsHere(s, a);
      CountOf(Starts(s), a, a, hi);
    }
  }

  lemma BeginsHere(s: iset<nat>, a: nat)
    requires a in s && (a == 0 || a - 1 !in s)
    ensures a in Starts(s)
  {
  }

  /** No run ends in the span either: with its first index all of it is in the set. */
  lemma NoEnd(s: iset<nat>, a: nat, hi: nat)
    requires Count(Ends(s), a, hi) == 0 && a in s
    ensures forall y: nat :: a <= y < hi ==> y in s
  {
    hide Count, Ends;
    forall y: nat | a <= y < hi ensures y in s {
      if y !in s {
        var z := EndBetween(s, a, y);
        CountOf(Ends(s), a, z, hi);
      }
    }
  }

  /** A chunk whose span is all in the set begins with a run that ends where the span does. */
  lemma WholeChunk(cs: seq<Chunk>, i: nat)
    requires WfStream(cs) && i < |cs| && forall y: nat :: cs[i].start <= y < cs[i].start + Span(cs[i]) ==> y in Members(cs)
    ensures RunReaches(cs[i], cs[i].start + Span(cs[i])) && !IsRunLength(cs[i], 0)
  {
    hide WfStream, Members, WfSparse, Aligned;
    var c := cs[i];
    OneOfThem(cs, i);
    OwnMembers(cs, i);
    SpanPositive(c);
    forall x: nat ensures ChunkHas(c, x) <==> Between(c.start, x, c.start + Span(c)) {
      if ChunkHas(c, x) {
        ChunkHasBound(c, x);
      }
      assert x in ChunkMembers(c) <==> ChunkHas(c, x);
    }
    WholeRunLength(c);
  }

  lemma WholeRunLength(c: Chunk)
    requires WfChunk(c) && Span(c) >= WINDOW && forall x: nat :: ChunkHas(c, x) <==> Between(c.start, x, c.start + Span(c))
    ensures RunReaches(c, c.start + Span(c)) && !IsRunLength(c, 0)
  {
    if IsRle(c.desc) {
      assert ChunkHas(c, c.start + Span(c) - 1);
    } else {
      assert PrefixRun(c, WINDOW);
    }
  }

  /** The index before a chunk is in no chunk but the one before it, which then ends there. */
  lemma EndsBefore(cs: seq<Chunk>, i: nat)
    requires WfStream(cs) && i < |cs| && cs[i].start > 0 && cs[i].start - 1 in Members(cs)
    ensures i > 0 && cs[i - 1].start + Span(cs[i - 1]) == cs[i].start
  {
    hide ChunkHas, WfChunk;
    var x := cs[i].start - 1;
    var j :| 0 <= j < |cs| && ChunkHas(cs[j], x);
    OneOfThem(cs, j);
    ChunkHasBound(cs[j], x);
    if j < i {
      InOrder(cs, j, i);
      if j + 1 < i {
        InOrder(cs, j, j + 1);
        InOrder(cs, j + 1, i);
        SpanPositive(cs[j + 1]);
      }
    } else if j > i {
      InOrder(cs, i, j);
    }
  }

  /** Where neighbours are merged, a chunk without an edge follows one in which a run begins. */
  lemma QuietFollows(cs: seq<Chunk>, i: nat)
    requires WfStream(cs) && NoneJoin(cs, |cs|) && i < |cs|
    requires StartsIn(Members(cs), cs[i]) == 0 && EndsIn(Members(cs), cs[i]) == 0
    ensures i > 0 && StartsIn(Members(cs), cs[i - 1]) >= 1
  {
    hide WfStream, NoneJoin, Members, Count, Starts, Ends, IsRunLength, RunReaches, Joinable, ChunkHas, WfChunk;
    var s, c := Members(cs), cs[i];
    OneOfThem(cs, i);
    var x := ChunkNotEmpty(c);
    IsMember(cs, i, x);
    NoStart(s, c.start, c.start + Span(c), x);
    NoEnd(s, c.start, c.start + Span(c));
    WholeChunk(cs, i);
    EndsBefore(cs, i);
    var b := cs[i - 1];
    SpanPos(cs, i - 1);
    if StartsIn(s, b) == 0 {
      NoStart(s, b.start, b.start + Span(b), c.start - 1);
      WholeChunk(cs, i - 1);
      JoinedPair(cs, i - 1);
      NotJoined(cs, i - 1);
    }
  }

  lemma SpanPos(cs: seq<Chunk>, i: nat)
    requires WfStream(cs) && i < |cs|
    ensures Span(cs[i]) >= WINDOW
  {
    SpanPositive(cs[i]);
  }

  lemma IsMember(cs: seq<Chunk>, i: nat, x: nat)
    requires WfStream(cs) && i < |cs| && ChunkHas(cs[i], x)
    ensures x in Members(cs) && cs[i].start <= x < cs[i].start + Span(cs[i])
  {
    OneOfThem(cs, i);
    ChunkHasBound(cs[i], x);
  }

  // ---- the words of a stream --------------------------------------------------------------------------------

  ghost function EndOf(cs: seq<Chunk>, n: nat): nat
    requires n <= |cs|
  {
    if n == 0 then 0 else cs[n - 1].start + Span(cs[n - 1])
  }

  /** Two words are put by for the chunk after one in which a run begins. */
  ghost function PutBy(cs: seq<Chunk>, n: nat): nat
    requires n <= |cs|
  {
    if n > 0 && StartsIn(Members(cs), cs[n - 1]) >= 1 then 2 else 0
  }

  lemma {:induction false} WordsByRuns(cs: seq<Chunk>, n: nat)
    requires WfStream(cs) && NoneJoin(cs, |cs|) && n <= |cs|
    ensures |Stream(cs[..n])| + PutBy(cs, n) <= 5 * Count(Starts(Members(cs)), 0, EndOf(cs, n)) + 3 * Count(Ends(Members(cs)), 0, EndOf(cs, n))
  {
    hide WfStream, NoneJoin, Members, Count, Starts, Ends, Stream, WfChunk;
    if n == 0 {
      StreamEnds(cs);
      assert cs[..0] == [];
    } else {
      var s, c := Members(cs), cs[n - 1];
      WordsByRuns(cs, n - 1);
      StreamAt(cs, n - 1);
      InTurn(cs, n - 1);
      CountSplit(Starts(s), 0, EndOf(cs, n - 1), c.start);
      CountSplit(Starts(s), 0, c.start, EndOf(cs, n));
      CountSplit(Ends(s), 0, EndOf(cs, n - 1), c.start);
      CountSplit(Ends(s), 0, c.start, EndOf(cs, n));
      WordsByEdges(cs, n - 1);
      if StartsIn(s, c) == 0 && EndsIn(s, c) == 0 {
        QuietFollows(cs, n - 1);
      }
    }
  }

  lemma InTurn(cs: seq<Chunk>, n: nat)
    requires WfStream(cs) && n < |cs|
    ensures EndOf(cs, n) <= cs[n].start <= EndOf(cs, n + 1) <= TOP
  {
    SpanPositive(cs[n]);
  }

  /** Merged chunks take at most eight words for each run of the set, and one. */
  lemma CompactBound(cs: seq<Chunk>, s: iset<nat>)
    requires Spells(cs, s) && NoneJoin(cs, |cs|)
    ensures Footprint(cs) <= 1 + 8 * RunTotal(s)
  {
    hide WfStream, AllFull, NoneJoin, Members, Count, Starts, Ends, Stream, Layout;
    var n := |cs|;
    assert cs[..n] == cs;
    LayoutLength(cs);
    WordsByRuns(cs, n);
    LastEnd(cs);
    var e := EndOf(cs, n);
    EndsStarts(s, e);
    CountSplit(Starts(s), 0, e, TOP);
  }

  lemma LastEnd(cs: seq<Chunk>)
    requires WfStream(cs)
    ensures EndOf(cs, |cs|) <= TOP
  {
    if cs != [] {
      InTurn(cs, |cs| - 1);
    }
  }
}
