// Emitting part of one chunk into a result, and combining two windows.
module EmitBits {
  import opened Words
  import opened Chunks
  import opened Streams
  import opened Codec
  import opened Maps
  import opened Appends
  import opened Emitter
  import opened MergeFacts

  /**
   * Appends the members of c in [from, to).  A run-length chunk may be cut anywhere; a
   * sparse chunk is only ever emitted whole, so none of its words needs masking.
   */
  method EmitChunkBits(r: Map, c: Chunk, from: nat, to: nat)
    requires Open(r, true) && WfChunk(c) && Full(c)
    requires from < to ==> End(r.Chunks()) <= Floor(from) && to <= TOP
    requires from < to && !IsRle(c.desc) ==> from == c.start && to == c.start + WINDOW
    modifies r, r.data
    ensures Open(r, true)
    ensures Members(r.Chunks()) == Members(old(r.Chunks())) + ChunkMembers(c) * Range(from, to)
    ensures r.form == old(r.form) || End(r.Chunks()) < to + WINDOW
    ensures from >= to ==> r.form == old(r.form)
    ensures r.data == old(r.data) || fresh(r.data)
  {
    hide Layout, WfStream, AllFull, Members, ChunkMembers, WindowMembers, End, Range, Floor, Aligned;
    if from >= to {
      RangeEmpty(iset{}, from, to);
      assert ChunkMembers(c) * Range(from, to) == iset{};
      return;
    }
    if IsRle(c.desc) {
      var setEnd := c.start + RleLen(c.desc);
      var lo := if from > c.start then from else c.start;
      var hi := if to < setEnd then to else setEnd;
      ClipRun(c, from, to, lo, hi);
      if lo < hi {
        EmitOneRun(r, from, lo, hi);
      }
    } else {
      SparseFacts(c);
      FloorUnique(from, from);
      var ws, caps := ExpandChunk(c);
      WholeWindow(c, ws);
      EncodeAndAppend(r, c.start, ws, caps);
    }
  }

  lemma ClipRun(c: Chunk, from: nat, to: nat, lo: nat, hi: nat)
    requires WfRle(c)
    requires lo == if from > c.start then from else c.start
    requires hi == if to < c.start + RleLen(c.desc) then to else c.start + RleLen(c.desc)
    ensures ChunkMembers(c) * Range(from, to) == if lo < hi then Range(lo, hi) else iset{}
    ensures hi - lo <= RLE_MAX
  {
    RleMembers(c);
  }

  lemma WholeWindow(c: Chunk, ws: Window)
    requires WfSparse(c) && ws == Expand(c)
    ensures ChunkMembers(c) * Range(c.start, c.start + WINDOW) == WindowMembers(c.start, ws)
  {
  }

  /** Sends one run through an emitter of its own and flushes it. */
  method EmitOneRun(r: Map, ghost from: nat, lo: nat, hi: nat)
    requires Open(r, true) && from <= lo < hi <= TOP && hi - lo <= RLE_MAX
    requires End(r.Chunks()) <= Floor(from)
    modifies r, r.data
    ensures Open(r, true)
    ensures Members(r.Chunks()) == Members(old(r.Chunks())) + Range(lo, hi)
    ensures End(r.Chunks()) < hi + WINDOW
    ensures r.data == old(r.data) || fresh(r.data)
  {
    hide Layout, WfStream, AllFull, Members, WindowMembers, End, Range, Floor, Aligned;
    FloorMonotone(from, lo);
    var e := new Emitter(r, true);
    e.EmitRun(true, lo, hi);
    e.Flush(true);
  }

  method AppendAndNot(r: Map, ghost a: Chunk, ghost b: Chunk, start: nat, aw: Window, ac: seq<bool>, bw: Window, bc: seq<bool>)
    requires Open(r, true)
    requires ac == bc == AllSlots()
    requires WindowOf(a, start, aw) && WindowOf(b, start, bw)
    requires Aligned(start) && start + WINDOW <= TOP && End(r.Chunks()) <= start
    modifies r, r.data
    ensures Open(r, true)
    ensures Members(r.Chunks()) == Members(old(r.Chunks())) + (ChunkMembers(a) - ChunkMembers(b)) * Range(start, start + WINDOW)
    ensures End(r.Chunks()) <= start + WINDOW
    ensures r.data == old(r.data) || fresh(r.data)
  {
    hide Layout, WfStream, AllFull, Members, End, Aligned;
    var rw := WordsAndNot(aw, bw);
    var words, caps := KeepFirst(rw, aw, ac, bc);
    assert caps == AllSlots();
    assert words == rw;
    AndNotMembers(a, b, start, aw, bw, words);
    EncodeAndAppend(r, start, words, caps);
  }

  /** Slots the second side lacks keep the first side's word; slots the first lacks are dropped. */
  method KeepFirst(ws: Window, aw: Window, ac: seq<bool>, bc: seq<bool>) returns (r: Window, rc: seq<bool>)
    requires |ac| == |bc| == SLOTS
    ensures |rc| == SLOTS
    ensures forall v :: 0 <= v < SLOTS ==> rc[v] == ac[v]
    ensures forall v :: 0 <= v < SLOTS ==> r[v] == if !ac[v] then ZERO else if !bc[v] then aw[v] else ws[v]
  {
    r, rc := ws, [];
    for i := 0 to SLOTS
      invariant |rc| == i
      invariant forall v :: 0 <= v < i ==> rc[v] == ac[v]
      invariant forall v :: 0 <= v < SLOTS ==>
        r[v] == if v >= i then ws[v] else if !ac[v] then ZERO else if !bc[v] then aw[v] else ws[v]
    {
      if ac[i] {
        if !bc[i] {
          r := r[i := aw[i]];
        }
        rc := rc + [true];
      } else {
        r := r[i := ZERO];
        rc := rc + [false];
      }
    }
  }

  lemma AndNotMembers(a: Chunk, b: Chunk, start: nat, aw: Window, bw: Window, ws: Window)
    requires WindowOf(a, start, aw) && WindowOf(b, start, bw)
    requires forall v, k :: 0 <= v < SLOTS && 0 <= k < 64 ==> ws[v][k] == (aw[v][k] && !bw[v][k])
    ensures WindowMembers(start, ws) == (ChunkMembers(a) - ChunkMembers(b)) * Range(start, start + WINDOW)
  {
    forall x: nat ensures x in WindowMembers(start, ws) <==> x in (ChunkMembers(a) - ChunkMembers(b)) * Range(start, start + WINDOW) {
      if start <= x < start + WINDOW {
        WindowOfHas(a, start, aw, x);
        WindowOfHas(b, start, bw, x);
      }
    }
  }

  method AppendOr(r: Map, ghost a: Chunk, ghost b: Chunk, start: nat, aw: Window, ac: seq<bool>, bw: Window, bc: seq<bool>)
    requires Open(r, true)
    requires ac == bc == AllSlots()
    requires WindowOf(a, start, aw) && WindowOf(b, start, bw)
    requires Aligned(start) && start + WINDOW <= TOP && End(r.Chunks()) <= start
    modifies r, r.data
    ensures Open(r, true)
    ensures Members(r.Chunks()) == Members(old(r.Chunks())) + (ChunkMembers(a) + ChunkMembers(b)) * Range(start, start + WINDOW)
    ensures End(r.Chunks()) <= start + WINDOW
    ensures r.data == old(r.data) || fresh(r.data)
  {
    hide Layout, WfStream, AllFull, Members, End, Aligned;
    var words := WordsOr(aw, bw);
    var caps := EitherCaps(ac, bc);
    assert caps == AllSlots();
    OrWindow(a, b, start, aw, bw, words);
    EncodeAndAppend(r, start, words, caps);
  }

  method EitherCaps(ac: seq<bool>, bc: seq<bool>) returns (rc: seq<bool>)
    requires |ac| == |bc| == SLOTS
    ensures |rc| == SLOTS
    ensures forall v :: 0 <= v < SLOTS ==> rc[v] == (ac[v] || bc[v])
  {
    rc := [];
    for i := 0 to SLOTS
      invariant |rc| == i
      invariant forall v :: 0 <= v < i ==> rc[v] == (ac[v] || bc[v])
    {
      rc := rc + [ac[i] || bc[i]];
    }
  }

  lemma OrWindow(a: Chunk, b: Chunk, start: nat, aw: Window, bw: Window, ws: Window)
    requires WindowOf(a, start, aw) && WindowOf(b, start, bw)
    requires forall v, k :: 0 <= v < SLOTS && 0 <= k < 64 ==> ws[v][k] == (aw[v][k] || bw[v][k])
    ensures WindowMembers(start, ws) == (ChunkMembers(a) + ChunkMembers(b)) * Range(start, start + WINDOW)
  {
    forall x: nat ensures x in WindowMembers(start, ws) <==> x in (ChunkMembers(a) + ChunkMembers(b)) * Range(start, start + WINDOW) {
      if start <= x < start + WINDOW {
        WindowOfHas(a, start, aw, x);
        WindowOfHas(b, start, bw, x);
      }
    }
  }
}
