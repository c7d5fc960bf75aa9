// Building a result map: chunks go to the end of the stream, in ascending order.
module Appends {
  import opened Words
  import opened Chunks
  import opened Streams
  import opened Codec
  import opened Maps
  import opened RunLengths

  /** A result under construction: a chunk-mode map, without unused slots when `full`. */
  ghost predicate Open(r: Map, full: bool)
    reads r, r.data
  {
    r.Valid() && r.form.Chunked? && (full ==> AllFull(r.Chunks()))
  }

  lemma LayoutPush(cs: seq<Chunk>, c: Chunk)
    ensures Layout(Chunked(cs + [c])) == Layout(Chunked(cs))[0 := CountHeader(|cs| + 1)] + Enc(c)
  {
    StreamConcat(cs, [c]);
    StreamOne(c);
  }

  /** Rewriting the descriptor of a payload-free chunk. */
  lemma LayoutPutDesc(cs: seq<Chunk>, i: nat, d: Word)
    requires i < |cs| && cs[i].vecs == []
    ensures 2 + Off(cs, i) < |Layout(Chunked(cs))|
    ensures Layout(Chunked(cs[i := Chunk(cs[i].start, d, [])])) == Layout(Chunked(cs))[2 + Off(cs, i) := d]
  {
    hide Stream, U64, CountHeader;
    var c' := Chunk(cs[i].start, d, []);
    var cs' := cs[i := c'];
    StreamAt(cs, i);
    StreamAt(cs', i);
    assert cs'[..i] == cs[..i] && cs'[i + 1..] == cs[i + 1..];
    assert Enc(c') == Enc(cs[i])[1 := d];
    UpdateMiddle([CountHeader(|cs|)] + Stream(cs[..i]), Enc(cs[i]), Stream(cs[i + 1..]), 1, d);
  }

  lemma UpdateMiddle(a: seq<Word>, e: seq<Word>, b: seq<Word>, k: nat, w: Word)
    requires k < |e|
    ensures (a + e + b)[|a| + k := w] == a + e[k := w] + b
  {
  }

  lemma ReplaceLast(cs: seq<Chunk>, c: Chunk)
    requires WfStream(cs) && cs != [] && WfChunk(c)
    requires c.start == cs[|cs| - 1].start
    ensures WfStream(cs[|cs| - 1 := c]) && End(cs[|cs| - 1 := c]) == c.start + Span(c)
    ensures Members(cs[|cs| - 1 := c]) == Members(cs[..|cs| - 1]) + ChunkMembers(c)
    ensures Members(cs) == Members(cs[..|cs| - 1]) + ChunkMembers(cs[|cs| - 1])
    ensures AllFull(cs) && Full(c) ==> AllFull(cs[|cs| - 1 := c])
  {
    var init, last := cs[..|cs| - 1], cs[|cs| - 1];
    assert cs == init + [last] && cs[|cs| - 1 := c] == init + [c];
    WfParts(init, [last]);
    WfAppend(init, c);
    HasConcat(init, [last]);
    HasOne(last);
  }

  /** Copies a chunk's words to the end of the buffer, growing it when needed. */
  method AppendWords(r: Map, c: Chunk)
    requires r.used <= r.data.Length
    modifies r`used, r`data, r.data
    ensures r.data == old(r.data) || fresh(r.data)
    ensures r.used <= r.data.Length
    ensures r.data[..r.used] == old(r.data[..r.used]) + Enc(c)
  {
    r.EnsureCapacity(2 + |c.vecs|);
    ghost var was := r.data[..r.used];
    var ok := r.Append([U64(c.start)]);
    assert ok;
    ok := r.Append([c.desc]);
    assert ok;
    ok := r.Append(c.vecs);
    assert ok;
    assert r.data[..r.used] == was + Enc(c);
  }

  /** Appends one chunk to the stream. */
  method PushChunk(r: Map, c: Chunk)
    requires r.Valid() && r.form.Chunked?
    requires WfStream(r.Chunks() + [c])
    modifies r, r.data
    ensures r.Valid() && r.form == Chunked(old(r.Chunks()) + [c])
    ensures r.data == old(r.data) || fresh(r.data)
  {
    hide WfStream, Stream, Enc, CountHeader, Layout, WfForm;
    ghost var cs := r.Chunks();
    ChunkedWf(cs + [c]);
    assert r.form == Chunked(cs);
    var n := r.Count();
    AppendWords(r, c);
    r.Put(0, CountHeader(n + 1));
    LayoutPush(cs, c);
    r.form := Chunked(cs + [c]);
  }

  method AppendSparse(r: Map, start: nat, d: Word, vecs: seq<Word>)
    requires r.Valid() && r.form.Chunked?
    requires WfStream(r.Chunks() + [Chunk(start, d, vecs)])
    modifies r, r.data
    ensures r.Valid() && r.form == Chunked(old(r.Chunks()) + [Chunk(start, d, vecs)])
    ensures r.data == old(r.data) || fresh(r.data)
  {
    PushChunk(r, Chunk(start, d, vecs));
  }

  /** Appends a run-length chunk without looking at what precedes it. */
  method AppendRleRaw(r: Map, ghost full: bool, start: nat, cap: nat, len: nat)
    requires Open(r, full)
    requires Aligned(start) && start + cap <= TOP
    requires Aligned(cap) && 1 <= len <= cap <= RLE_LIMIT
    requires End(r.Chunks()) <= start
    modifies r, r.data
    ensures Open(r, full)
    ensures Members(r.Chunks()) == Members(old(r.Chunks())) + Range(start, start + len)
    ensures End(r.Chunks()) <= start + cap
    ensures r.data == old(r.data) || fresh(r.data)
  {
    RleChunkWf(start, cap, len);
    RleChunkMembers(start, cap, len);
    WfAppend(r.Chunks(), RleChunk(start, cap, len));
    PushChunk(r, Chunk(start, SetRleLen(SetRleCap(SetRle(ZERO), cap), len), []));
  }

  /** Walks to the last chunk. */
  method LastChunk(r: Map) returns (p: nat)
    requires r.Valid() && r.form.Chunked? && r.Chunks() != []
    ensures p == 1 + Off(r.Chunks(), |r.Chunks()| - 1)
  {
    var n := r.Count();
    var q := 1;
    p := 1;
    StreamEnds(r.Chunks());
    for i := 0 to n
      invariant q == 1 + Off(r.Chunks(), i)
      invariant i > 0 ==> p == 1 + Off(r.Chunks(), i - 1)
    {
      p := q;
      var c := r.Load(q, i);
      q := q + 1 + Size(c.desc);
    }
  }


  /** Sets the fields of the last chunk's run-length descriptor, given as d. */
  method RewriteLast(r: Map, ghost full: bool, p: nat, d: Word, cap: nat, len: nat)
    requires Open(r, full) && r.Chunks() != []
    requires p == 1 + Off(r.Chunks(), |r.Chunks()| - 1)
    requires r.Chunks()[|r.Chunks()| - 1].vecs == []
    requires IsRle(d) && Aligned(cap) && 1 <= len <= cap <= RLE_LIMIT
    requires r.Chunks()[|r.Chunks()| - 1].start + cap <= TOP
    modifies r, r.data
    ensures Open(r, full) && r.data == old(r.data)
    ensures r.form == Chunked(old(r.Chunks())[|old(r.Chunks())| - 1 := RleChunk(old(r.Chunks())[|old(r.Chunks())| - 1].start, cap, len)])
    ensures Members(r.Chunks()) == Members(old(r.Chunks())[..|old(r.Chunks())| - 1]) +
      Range(old(r.Chunks())[|old(r.Chunks())| - 1].start, old(r.Chunks())[|old(r.Chunks())| - 1].start + len)
    ensures End(r.Chunks()) == old(r.Chunks())[|old(r.Chunks())| - 1].start + cap
  {
    hide Layout, Members, ChunkMembers, Range, Aligned, Off, Stream;
    ghost var cs := r.Chunks();
    ghost var last := cs[|cs| - 1];
    ghost var c := RleChunk(last.start, cap, len);
    RleSetFields(d, cap, len);
    LayoutPutDesc(cs, |cs| - 1, RleDesc(cap, len));
    r.Put(p + 1, SetRleLen(SetRleCap(d, cap), len));
    RleChunkWf(last.start, cap, len);
    RleChunkMembers(last.start, cap, len);
    ReplaceLast(cs, c);
    r.form := Chunked(cs[|cs| - 1 := c]);
  }

  /** Appends a run-length chunk, or widens the last chunk when the run continues it. */
  method AppendRleChunk(r: Map, ghost full: bool, start: nat, cap: nat, len: nat)
    requires Open(r, full)
    requires Aligned(start) && start + cap <= TOP
    requires Aligned(cap) && 1 <= len <= cap <= RLE_LIMIT
    requires End(r.Chunks()) <= start
    modifies r, r.data
    ensures Open(r, full)
    ensures Members(r.Chunks()) == Members(old(r.Chunks())) + Range(start, start + len)
    ensures End(r.Chunks()) <= start + cap
    ensures r.data == old(r.data) || fresh(r.data)
  {
    hide Layout, WfStream, AllFull, Members, Range, End, Aligned, Off;
    var n := r.Count();
    if n > 0 {
      var p := LastChunk(r);
      var last := r.Load(p, n - 1);
      var merged := TryWiden(r, full, p, last, start, cap, len);
      if merged {
        return;
      }
    }
    AppendRleRaw(r, full, start, cap, len);
  }

  /** Widens the last chunk over the run at start, when that run continues it and the fields allow. */
  method TryWiden(r: Map, ghost full: bool, p: nat, last: Chunk, start: nat, cap: nat, len: nat) returns (merged: bool)
    requires Open(r, full) && r.Chunks() != []
    requires p == 1 + Off(r.Chunks(), |r.Chunks()| - 1)
    requires last == r.Chunks()[|r.Chunks()| - 1]
    requires Aligned(start) && start + cap <= TOP
    requires Aligned(cap) && 1 <= len <= cap <= RLE_LIMIT
    requires End(r.Chunks()) <= start
    modifies r, r.data
    ensures Open(r, full) && r.data == old(r.data)
    ensures !merged ==> r.form == old(r.form)
    ensures merged ==> Members(r.Chunks()) == Members(old(r.Chunks())) + Range(start, start + len)
    ensures merged ==> End(r.Chunks()) == start + cap
  {
    hide Layout, Members, Range, Aligned, Off, End, WfStream, AllFull, WfChunk, ChunkMembers, IsRunLength;
    LastFacts(r.Chunks());
    var run := GetRunLength(last);
    if (IsRle(last.desc) || run == Cap(last)) && run > 0 && last.start + run == start {
      var newLen, newCap := run + len, start + cap - last.start;
      if newLen <= RLE_MAX && newCap <= RLE_MAX {
        WidenFacts(last, run, start, cap);
        WidenLast(r, full, p, last.(desc := if IsRle(last.desc) then last.desc else SetRle(last.desc)), newCap, newLen, start);
        return true;
      }
    }
    return false;
  }

  lemma LastFacts(cs: seq<Chunk>)
    requires WfStream(cs) && cs != []
    ensures WfChunk(cs[|cs| - 1]) && (WfRle(cs[|cs| - 1]) || WfSparse(cs[|cs| - 1]))
    ensures End(cs) == cs[|cs| - 1].start + Span(cs[|cs| - 1])
  {
  }

  /** A measured run that ends on the next chunk's start is its chunk's whole content. */
  lemma WidenFacts(last: Chunk, run: nat, start: nat, cap: nat)
    requires WfChunk(last) && IsRunLength(last, run) && run > 0
    requires last.start + run == start && Aligned(start) && Aligned(cap)
    ensures last.vecs == [] && ChunkMembers(last) == Range(last.start, start) && run <= RLE_LIMIT
    ensures Aligned(start + cap - last.start)
    ensures IsRle(SetRle(last.desc))
  {
    AlignedDiff(start, last.start);
    WholeRun(last, run);
    AlignedWidth(last.start, start, cap);
  }

  lemma WholeRun(c: Chunk, n: nat)
    requires WfChunk(c) && IsRunLength(c, n) && n > 0 && Aligned(n)
    ensures c.vecs == [] && Size(c.desc) == 1 && n <= RLE_LIMIT && ChunkMembers(c) == Range(c.start, c.start + n)
  {
    if IsRle(c.desc) {
      RleMembers(c);
    } else {
      AlignedConstants();
      AlignedStep(0, n);
      FullRun(c);
    }
  }

  lemma AlignedWidth(first: nat, start: nat, cap: nat)
    requires first <= start && Aligned(first) && Aligned(start) && Aligned(cap)
    ensures Aligned(start + cap - first)
  {
    AlignedSum(start, cap);
    AlignedDiff(start + cap, first);
  }

  lemma RleMembers(c: Chunk)
    requires IsRle(c.desc)
    ensures ChunkMembers(c) == Range(c.start, c.start + RleLen(c.desc))
  {
  }

  /** A sparse chunk whose leading run is its whole window has no payload. */
  lemma FullRun(c: Chunk)
    requires WfSparse(c) && IsRunLength(c, WINDOW)
    ensures c.vecs == [] && Size(c.desc) == 1 && ChunkMembers(c) == Range(c.start, c.start + WINDOW)
    ensures c.desc == ONES
  {
    forall v | 0 <= v < SLOTS ensures FlagAt(c.desc, v).Ones? {
      forall k | 0 <= k < 64 ensures SlotWord(c, v)[k] {
        SlotBit(c, v, k);
        assert Between(c.start, c.start + 64 * v + k, c.start + WINDOW);
      }
      WordExt(SlotWord(c, v), ONES);
      assert ZERO[0] != ONES[0];
    }
    NoMixedBelow(c.desc, SLOTS);
    AllOnesDesc(c.desc);
  }

  /** The last chunk becomes the run-length chunk that also covers the run at start. */
  method WidenLast(r: Map, ghost full: bool, p: nat, last: Chunk, cap: nat, len: nat, ghost start: nat)
    requires Open(r, full) && r.Chunks() != []
    requires p == 1 + Off(r.Chunks(), |r.Chunks()| - 1)
    requires IsRle(last.desc) && last.start == r.Chunks()[|r.Chunks()| - 1].start
    requires r.Chunks()[|r.Chunks()| - 1].vecs == []
    requires ChunkMembers(r.Chunks()[|r.Chunks()| - 1]) == Range(last.start, start)
    requires last.start <= start < last.start + len
    requires Aligned(cap) && 1 <= len <= cap <= RLE_MAX
    requires last.start + cap <= TOP
    modifies r, r.data
    ensures Open(r, full) && r.data == old(r.data)
    ensures Members(r.Chunks()) == Members(old(r.Chunks())) + Range(start, last.start + len)
    ensures End(r.Chunks()) == last.start + cap
  {
    hide Layout, Aligned, Off;
    ghost var cs := r.Chunks();
    ghost var init, was := cs[..|cs| - 1], cs[|cs| - 1];
    assert cs == init + [was];
    HasConcat(init, [was]);
    HasOne(was);
    AlignedConstants();
    RewriteLast(r, full, p, last.desc, cap, len);
    assert Range(last.start, last.start + len) == Range(last.start, start) + Range(start, last.start + len);
  }

  /** True when no member of the result lies at or past the window, or only in a sparse last chunk of that window. */
  ghost predicate Reaches(cs: seq<Chunk>, wstart: nat) {
    || End(cs) <= wstart
    || (cs != [] && cs[|cs| - 1].start == wstart && !IsRle(cs[|cs| - 1].desc))
  }

  lemma LayoutDropLast(cs: seq<Chunk>)
    requires cs != []
    ensures var n := |cs| - 1;
      1 + Off(cs, n) <= |Layout(Chunked(cs))| &&
      Layout(Chunked(cs[..n])) == Layout(Chunked(cs))[..1 + Off(cs, n)][0 := CountHeader(n)]
  {
    hide Stream, Enc;
    var n := |cs| - 1;
    StreamAt(cs, n);
    var w := Layout(Chunked(cs));
    assert w == ([CountHeader(n + 1)] + Stream(cs[..n])) + (Enc(cs[n]) + Stream(cs[n + 1..]));
    assert w[..1 + Off(cs, n)] == [CountHeader(n + 1)] + Stream(cs[..n]);
  }

  /** Removes the last chunk, which lies at p. */
  method DropLast(r: Map, p: nat)
    requires Open(r, true) && r.Chunks() != []
    requires p == 1 + Off(r.Chunks(), |r.Chunks()| - 1)
    modifies r, r.data
    ensures Open(r, true) && r.data == old(r.data)
    ensures r.form == Chunked(old(r.Chunks())[..|old(r.Chunks())| - 1])
    ensures End(r.Chunks()) <= old(r.Chunks())[|old(r.Chunks())| - 1].start
  {
    hide Layout, WfStream, AllFull, Off, End, CountHeader;
    ghost var cs := r.Chunks();
    assert r.form == Chunked(cs) && r.used == |Layout(Chunked(cs))|;
    var n := r.Count();
    InitFacts(cs);
    LayoutDropLast(cs);
    ghost var was := r.data[..r.used];
    r.used := p;
    assert r.data[..r.used] == was[..p];
    r.Put(0, CountHeader(n - 1));
    r.form := Chunked(cs[..n - 1]);
  }

  lemma InitFacts(cs: seq<Chunk>)
    requires WfStream(cs) && cs != []
    ensures WfStream(cs[..|cs| - 1]) && End(cs[..|cs| - 1]) <= cs[|cs| - 1].start
    ensures AllFull(cs) ==> AllFull(cs[..|cs| - 1])
    ensures Members(cs) == Members(cs[..|cs| - 1]) + ChunkMembers(cs[|cs| - 1])
  {
    var init, last := cs[..|cs| - 1], cs[|cs| - 1];
    assert cs == init + [last];
    WfParts(init, [last]);
    HasConcat(init, [last]);
    HasOne(last);
  }

  lemma UnionSwap(a: iset<nat>, b: iset<nat>, c: iset<nat>)
    ensures a + (c + b) == a + b + c
  {
  }

  /** Takes the last chunk's window into ws and drops the chunk, when it is the window at wstart. */
  method AbsorbLast(r: Map, wstart: nat, ws: Window) returns (words: Window)
    requires Open(r, true) && Reaches(r.Chunks(), wstart)
    modifies r, r.data
    ensures Open(r, true) && r.data == old(r.data)
    ensures End(r.Chunks()) <= wstart
    ensures Members(r.Chunks()) + WindowMembers(wstart, words) ==
      Members(old(r.Chunks())) + WindowMembers(wstart, ws)
  {
    hide Layout, Aligned, Off, AllFull, Members, ChunkMembers, WindowMembers, Expand, CapsOf, Shaped, Size, FlagAt;
    words := ws;
    var n := r.Count();
    if n > 0 {
      ghost var cs := r.Chunks();
      var p := LastChunk(r);
      var c := r.Load(p, n - 1);
      if c.start == wstart {
        EndBound(cs);
        var lw, caps := ExpandChunk(c);
        words := WordsOr(ws, lw);
        InitFacts(cs);
        OrMembers(wstart, words, ws, lw);
        SparseMembers(c);
        DropLast(r, p);
        UnionSwap(Members(r.Chunks()), WindowMembers(wstart, lw), WindowMembers(wstart, ws));
      }
    }
  }

  /**
   * Appends the window at wstart, merging it into the last chunk when that is the same
   * window.  A window of all ones goes out as a run, so that it can be widened.
   */
  method AppendWordsAligned(r: Map, wstart: nat, ws: Window, merge: bool) returns (asRle: bool)
    requires Open(r, true)
    requires Aligned(wstart) && wstart + WINDOW <= TOP
    requires if merge then Reaches(r.Chunks(), wstart) else End(r.Chunks()) <= wstart
    modifies r, r.data
    ensures Open(r, true)
    ensures Members(r.Chunks()) == Members(old(r.Chunks())) + WindowMembers(wstart, ws)
    ensures End(r.Chunks()) <= wstart + WINDOW
    ensures r.data == old(r.data) || fresh(r.data)
  {
    var words := ws;
    if merge {
      words := AbsorbLast(r, wstart, ws);
    }
    asRle := AllOnes(words);
    EmitWindow(r, wstart, words, asRle);
  }

  method AllOnes(words: Window) returns (ones: bool)
    ensures ones <==> forall v :: 0 <= v < SLOTS ==> words[v] == ONES
  {
    ones := true;
    for i := 0 to SLOTS
      invariant ones <==> forall v :: 0 <= v < i ==> words[v] == ONES
    {
      ones := ones && words[i] == ONES;
    }
  }

  lemma OrMembers(start: nat, r: Window, a: Window, b: Window)
    requires forall v, k :: 0 <= v < SLOTS && 0 <= k < 64 ==> r[v][k] == (a[v][k] || b[v][k])
    ensures WindowMembers(start, r) == WindowMembers(start, a) + WindowMembers(start, b)
  {
  }

  /** Appends one window, as a run when it is all ones; appends nothing when it is empty. */
  method EmitWindow(r: Map, wstart: nat, words: Window, ones: bool)
    requires Open(r, true) && End(r.Chunks()) <= wstart
    requires Aligned(wstart) && wstart + WINDOW <= TOP
    requires ones <==> forall v :: 0 <= v < SLOTS ==> words[v] == ONES
    modifies r, r.data
    ensures Open(r, true)
    ensures Members(r.Chunks()) == Members(old(r.Chunks())) + WindowMembers(wstart, words)
    ensures End(r.Chunks()) <= wstart + WINDOW
    ensures r.data == old(r.data) || fresh(r.data)
  {
    if ones {
      HoldsRunMembers(wstart, words, wstart, wstart + WINDOW);
      AlignedConstants();
      AppendRleChunk(r, true, wstart, WINDOW, WINDOW);
    } else {
      EncodeAndAppend(r, wstart, words, AllSlots());
    }
  }

  /** Encodes a window that claims all its slots and appends it unless it is empty. */
  method EncodeAndAppend(r: Map, wstart: nat, words: Window, caps: seq<bool>)
    requires caps == AllSlots()
    requires Open(r, true) && End(r.Chunks()) <= wstart
    requires Aligned(wstart) && wstart + WINDOW <= TOP
    modifies r, r.data
    ensures Open(r, true)
    ensures Members(r.Chunks()) == Members(old(r.Chunks())) + WindowMembers(wstart, words)
    ensures End(r.Chunks()) <= wstart + WINDOW
    ensures r.data == old(r.data) || fresh(r.data)
  {
    hide DescOf, VecsIn, FlagAt, WfChunk, WfStream, AllFull, Layout, Members, WindowMembers, ChunkMembers, End, Aligned, Full;
    var some, d, vecs := EncodeSparse(words, caps);
    assert Claimed(caps) == AllSlots();
    if some {
      FullChunkWf(wstart, words);
      FullChunkMembers(wstart, words);
      WfAppend(r.Chunks(), FullChunk(wstart, words));
      AppendSparse(r, wstart, d, vecs);
    } else {
      WindowEmpty(wstart, words);
    }
  }

  /** Appends the bits [lo, hi) of the window at wstart. */
  method AppendWindowBits(r: Map, wstart: nat, lo: nat, hi: nat, merge: bool) returns (asRle: bool)
    requires Open(r, true)
    requires Aligned(wstart) && wstart + WINDOW <= TOP
    requires wstart <= lo < hi <= wstart + WINDOW
    requires if merge then Reaches(r.Chunks(), wstart) else End(r.Chunks()) <= wstart
    modifies r, r.data
    ensures Open(r, true)
    ensures Members(r.Chunks()) == Members(old(r.Chunks())) + Range(lo, hi)
    ensures End(r.Chunks()) <= wstart + WINDOW
    ensures r.data == old(r.data) || fresh(r.data)
  {
    var ws := RunWords(lo - wstart, hi - wstart);
    HoldsRunMembers(wstart, ws, lo, hi);
    asRle := AppendWordsAligned(r, wstart, ws, merge);
  }

  /** The window words of the bits [lo, hi), built word by word. */
  method RunWords(lo: nat, hi: nat) returns (ws: Window)
    requires lo <= hi <= WINDOW
    ensures HoldsRun(ws, lo, hi)
  {
    ws := NoWords();
    var b := lo;
    while b < hi
      invariant lo <= b
      invariant b > lo ==> b % 64 == 0
      invariant HoldsRun(ws, lo, if b < hi then b else hi)
    {
      var next := 64 * (b / 64 + 1);
      var e := if hi < next then hi else next;
      var n := e - b;
      var v := b / 64;
      ws := ws[v := Or(ws[v], Shl(LowMask(n), b % 64))];
      b := next;
    }
  }

  /** Appends the run [lo, hi): a partial first window, whole windows as runs, a partial last window. */
  method AppendRun(r: Map, lo: nat, hi: nat)
    requires Open(r, true)
    requires hi <= TOP
    requires lo < hi ==> if Aligned(lo) then End(r.Chunks()) <= lo else Reaches(r.Chunks(), Floor(lo))
    modifies r, r.data
    ensures Open(r, true)
    ensures Members(r.Chunks()) == Members(old(r.Chunks())) + Range(lo, hi)
    ensures lo < hi ==> End(r.Chunks()) < hi + WINDOW
    ensures lo >= hi ==> r.form == old(r.form)
    ensures r.data == old(r.data) || fresh(r.data)
  {
    hide Layout, WfStream, AllFull, Members, Range, End, Reaches, Aligned, Floor;
    ghost var was := Members(r.Chunks());
    if lo >= hi {
      RangeEmpty(was, lo, hi);
      return;
    }
    var head, coalesce := AppendHead(r, lo, hi);
    var stop := AppendBody(r, head, hi, coalesce);
    if stop < hi {
      FloorTop(stop);
      FloorUnique(stop, stop);
      var _ := AppendWindowBits(r, stop, stop, hi, false);
    } else {
      RangeEmpty(was + Range(lo, stop), stop, hi);
    }
    RangeJoin(was, lo, head, stop);
    RangeJoin(was, lo, stop, hi);
  }

  /** Appends the part of [lo, hi) before the first window boundary at or past lo. */
  method AppendHead(r: Map, lo: nat, hi: nat) returns (head: nat, coalesce: bool)
    requires Open(r, true)
    requires lo < hi && hi <= TOP
    requires if Aligned(lo) then End(r.Chunks()) <= lo else Reaches(r.Chunks(), Floor(lo))
    modifies r, r.data
    ensures Open(r, true)
    ensures lo <= head <= hi
    ensures head < hi ==> Aligned(head) && End(r.Chunks()) <= head
    ensures head == lo || head == hi || head == Floor(lo) + WINDOW
    ensures End(r.Chunks()) < hi + WINDOW
    ensures Members(r.Chunks()) == Members(old(r.Chunks())) + Range(lo, head)
    ensures r.data == old(r.data) || fresh(r.data)
  {
    hide Layout, WfStream, AllFull, Members, Range, End, Reaches, Aligned, Floor;
    coalesce := true;
    head := lo;
    RangeEmpty(Members(r.Chunks()), lo, lo);
    if !Aligned(lo) {
      var wstart := Floor(lo);
      FloorTop(lo);
      AlignedConstants();
      AlignedSum(wstart, WINDOW);
      head := if hi < wstart + WINDOW then hi else wstart + WINDOW;
      coalesce := AppendWindowBits(r, wstart, lo, head, true);
    }
  }

  /** Appends the whole windows of [at, hi) as runs and returns where they stop. */
  method AppendBody(r: Map, at: nat, hi: nat, coalesce: bool) returns (stop: nat)
    requires Open(r, true) && at <= hi && hi <= TOP
    requires at < hi ==> Aligned(at) && End(r.Chunks()) <= at
    requires End(r.Chunks()) < hi + WINDOW
    modifies r, r.data
    ensures Open(r, true)
    ensures at <= stop <= hi < stop + WINDOW
    ensures stop < hi ==> Aligned(stop) && End(r.Chunks()) <= stop
    ensures End(r.Chunks()) < hi + WINDOW
    ensures Members(r.Chunks()) == Members(old(r.Chunks())) + Range(at, stop)
    ensures r.data == old(r.data) || fresh(r.data)
  {
    hide Layout, WfStream, AllFull, Members, Range, End, Reaches, Aligned, Floor;
    ghost var was := Members(r.Chunks());
    var merge := coalesce;
    stop := at;
    RangeEmpty(was, at, at);
    while hi - stop >= WINDOW
      invariant at <= stop <= hi
      invariant Open(r, true)
      invariant stop < hi ==> Aligned(stop) && End(r.Chunks()) <= stop
      invariant End(r.Chunks()) < hi + WINDOW
      invariant Members(r.Chunks()) == was + Range(at, stop)
      invariant r.data == old(r.data) || fresh(r.data)
      decreases hi - stop
    {
      var full := (hi - stop) / WINDOW * WINDOW;
      AlignedWhole(hi - stop);
      AlignedConstants();
      if full > RLE_LIMIT {
        full := RLE_LIMIT;
      }
      AlignedSum(stop, full);
      if merge {
        AppendRleChunk(r, true, stop, full, full);
      } else {
        AppendRleRaw(r, true, stop, full, full);
      }
      merge := false;
      RangeJoin(was, at, stop, stop + full);
      stop := stop + full;
    }
  }
}
