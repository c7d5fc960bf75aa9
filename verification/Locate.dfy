// Finding the chunk an index falls in, by walking from the head of the stream.
module Locate {
  import opened Chunks
  import opened Streams
  import opened Maps

  /** Chunk k is the first that reaches past x, or the last one. */
  ghost predicate Located(cs: seq<Chunk>, x: nat, k: nat) {
    && k < |cs|
    && (forall t :: 0 <= t < k ==> cs[t].start + Cap(cs[t]) <= x)
    && (x < cs[k].start + Cap(cs[k]) || k == |cs| - 1)
  }

  lemma LocatedHere(cs: seq<Chunk>, x: nat, k: nat)
    requires Located(cs, x, k)
    ensures k < |cs|
  {
  }

  /** A chunk begins at p exactly when p is before the end of the words. */
  lemma MoreChunks(cs: seq<Chunk>, k: nat)
    requires k <= |cs|
    ensures k < |cs| <==> 1 + Off(cs, k) < |Layout(Chunked(cs))|
    ensures k < |cs| ==> 2 + Off(cs, k) < |Layout(Chunked(cs))|
    ensures Off(cs, 0) == 0 && Off(cs, |cs|) == |Stream(cs)|
  {
    StreamEnds(cs);
    OffMonotone(cs, k, |cs|);
  }

  lemma OffNext(cs: seq<Chunk>, k: nat)
    requires WfStream(cs) && k < |cs|
    ensures Off(cs, k + 1) == Off(cs, k) + 1 + Size(cs[k].desc)
  {
    StreamAt(cs, k);
  }

  /** Walks from chunk k0 at p0 to the chunk for x; `prev` is the position passed last, `prev2` the one before it (0 for none). */
  method WalkFrom(m: Map, x: nat, p0: nat, ghost k0: nat, prev0: nat) returns (p: nat, ghost k: nat, c: Chunk, prev: nat, prev2: nat)
    requires m.Valid() && k0 < |m.Chunks()| && p0 == 1 + Off(m.Chunks(), k0)
    requires forall t :: 0 <= t < k0 ==> m.Chunks()[t].start + Cap(m.Chunks()[t]) <= x
    ensures Located(m.Chunks(), x, k) && p == 1 + Off(m.Chunks(), k) && c == m.Chunks()[k]
    ensures k0 <= k && (k == k0 ==> prev == prev0)
    ensures k > k0 ==> prev == 1 + Off(m.Chunks(), k - 1)
  {
    hide Layout, WfStream, Off, Cap;
    ghost var cs := m.Chunks();
    assert m.form == Chunked(cs) && m.used == |Layout(Chunked(cs))|;
    p, prev, prev2 := p0, prev0, 0;
    k := k0;
    c := m.Load(p, k);
    while true
      invariant k0 <= k < |cs| && p == 1 + Off(cs, k) && c == cs[k]
      invariant forall t :: 0 <= t < k ==> cs[t].start + Cap(cs[t]) <= x
      invariant k == k0 ==> prev == prev0
      invariant k > k0 ==> prev == 1 + Off(cs, k - 1)
      decreases |cs| - k
    {
      var next := p + 1 + Size(c.desc);
      OffNext(cs, k);
      MoreChunks(cs, k + 1);
      if x >= c.start + Cap(c) && next < m.used {
        prev2, prev := prev, p;
        p, k := next, k + 1;
        c := m.Load(p, k);
        continue;
      }
      return;
    }
  }

  /** The lookup without a cursor, from the head of the stream. */
  method FindChunk(m: Map, x: nat) returns (p: nat, ghost k: nat)
    requires m.Valid() && m.Chunks() != []
    ensures Located(m.Chunks(), x, k) && p == 1 + Off(m.Chunks(), k)
  {
    hide Layout, WfStream, Off, Cap;
    MoreChunks(m.Chunks(), 0);
    ghost var j;
    var c, prev, prev2;
    p, j, c, prev, prev2 := WalkFrom(m, x, 1, 0, 0);
    k := j;
  }
}
