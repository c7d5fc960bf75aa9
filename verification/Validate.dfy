// Checking a buffer of unknown origin: exactly which words sm_validate accepts.
module Validate {
  import opened Words
  import opened Chunks
  import opened Streams
  import opened Maps
  import opened RunLengths
  import opened Small
  import Offset

  // ---- what is accepted -------------------------------------------------------------------------

  /** One chunk as the validator admits it: spans may be shorter than a window, and may end at 2^64. */
  ghost predicate LooseChunk(c: Chunk) {
    && c.start < TWO64 && Aligned(c.start) && Shaped(c)
    && (IsRle(c.desc) ==> RleLen(c.desc) <= RleCap(c.desc))
    && (!IsRle(c.desc) ==> SlotsFit(c.desc, Cap(c)))
    && c.start + Cap(c) <= TWO64
  }

  /** Every slot that carries data lies below the capacity. */
  ghost predicate SlotsFit(d: Word, cap: nat) {
    forall v :: 0 <= v < SLOTS && Carries(FlagAt(d, v)) ==> 64 * (v + 1) <= cap
  }

  ghost predicate EndsAtTop(c: Chunk) {
    c.start + Cap(c) == TWO64
  }

  /** What is checked of a neighbour: no check of overlap is made after a chunk that ends at 2^64. */
  ghost predicate Follows(a: Chunk, b: Chunk) {
    && a.start < b.start
    && (EndsAtTop(a) || a.start + Cap(a) <= b.start)
  }

  ghost predicate Linked(cs: seq<Chunk>) {
    && (forall i :: 0 <= i < |cs| ==> LooseChunk(cs[i]))
    && (forall i :: 0 < i < |cs| ==> Follows(cs[i - 1], cs[i]))
  }

  ghost predicate LooseStream(cs: seq<Chunk>) {
    |cs| < TWO63 && Linked(cs)
  }

  /** A bare bitmap as admitted: bits 32 to 62 of its header are not looked at. */
  ghost predicate SmallBody(words: seq<Word>) {
    && words != [] && words[0][63]
    && SmallCount(words[0]) <= SMALL_MAX_WORDS && |words| == 1 + SmallCount(words[0])
    && (|words| > 1 ==> words[|words| - 1] != ZERO)
  }

  ghost predicate ChunkBody(words: seq<Word>, cs: seq<Chunk>) {
    words == Layout(Chunked(cs)) && LooseStream(cs)
  }

  /** The words hold the form f, all of them used. */
  ghost predicate Decodes(words: seq<Word>, f: Form) {
    match f
    case Small(ws) => SmallBody(words) && ws == words[1..]
    case Chunked(cs) => ChunkBody(words, cs)
  }

  ghost predicate Accepted(words: seq<Word>) {
    exists f :: Decodes(words, f)
  }

  /** Every well-formed buffer is accepted, with or without unused slots. */
  lemma WfAccepted(f: Form)
    requires WfForm(f)
    ensures Decodes(Layout(f), f)
  {
    hide ToNat, SmallHeader, CountHeader, WfChunk, Linked, SmallCount, Stream, WfStream, WfRle;
    HeaderRoundTrip(f);
    if f.Chunked? {
      CountBound(f.chunks);
      WfLinked(f.chunks);
    }
  }

  lemma WfLinked(cs: seq<Chunk>)
    requires WfStream(cs)
    ensures Linked(cs)
  {
    forall i | 0 <= i < |cs| ensures LooseChunk(cs[i]) {
      WfLoose(cs[i]);
    }
    forall i | 0 < i < |cs| ensures Follows(cs[i - 1], cs[i]) {
      SpanPositive(cs[i - 1]);
    }
  }

  lemma WfLoose(c: Chunk)
    requires WfChunk(c)
    ensures LooseChunk(c)
  {
  }

  // ---- one reading ----------------------------------------------------------------------------------

  ghost predicate Fits(words: seq<Word>, p: nat) {
    p + 2 <= |words| && p + 1 + Size(words[p + 1]) <= |words|
  }

  /** The chunk that begins at word p. */
  ghost function ReadAt(words: seq<Word>, p: nat): Chunk
    requires Fits(words, p)
  {
    Chunk(ToNat(words[p]), words[p + 1], words[p + 2..p + 1 + Size(words[p + 1])])
  }

  /** Any chunks the words hold are the ones read at their places. */
  lemma ReadsBack(words: seq<Word>, full: seq<Chunk>, i: nat)
    requires words == Layout(Chunked(full)) && Linked(full) && i < |full|
    ensures Fits(words, 1 + Off(full, i)) && ReadAt(words, 1 + Off(full, i)) == full[i]
  {
    hide Layout, Stream, SlotsFit, Follows, Off, Enc, U64, ToNat;
    var c, o := full[i], Off(full, i);
    StreamAt(full, i);
    LayoutChunks(words, full);
    var e := words[1 + o..1 + o + |Enc(c)|];
    assert e == Stream(full)[o..o + |Enc(c)|] == Enc(c);
    EncParts(c, e);
    assert words[1 + o] == e[0] && words[2 + o] == e[1] && words[3 + o..1 + o + |Enc(c)|] == e[2..];
  }

  lemma LayoutChunks(words: seq<Word>, cs: seq<Chunk>)
    requires words == Layout(Chunked(cs))
    ensures |words| == 1 + |Stream(cs)| && words[0] == CountHeader(|cs|) && words[1..] == Stream(cs)
  {
  }

  /** The chunks that the words can hold are count many and begin with cs. */
  ghost predicate Tracks(words: seq<Word>, count: nat, cs: seq<Chunk>) {
    |cs| <= count && forall full :: ChunkBody(words, full) ==> |full| == count && full[..|cs|] == cs
  }

  /** The words hold some chunk sequence. */
  ghost predicate HoldsChunks(words: seq<Word>) {
    exists cs :: ChunkBody(words, cs)
  }

  /** c may stand after cs. */
  ghost predicate Extends(cs: seq<Chunk>, c: Chunk) {
    LooseChunk(c) && (cs != [] ==> Follows(cs[|cs| - 1], c))
  }

  /** Reading one more chunk either extends the only candidate or rules out all. */
  lemma Advance(words: seq<Word>, count: nat, cs: seq<Chunk>)
    requires Tracks(words, count, cs) && |cs| < count
    ensures var p := 1 + |Stream(cs)|;
      if Fits(words, p) && Extends(cs, ReadAt(words, p)) then Tracks(words, count, cs + [ReadAt(words, p)]) else !HoldsChunks(words)
  {
    hide LooseChunk, Follows, Fits, Stream, Layout;
    var n, p := |cs|, 1 + |Stream(cs)|;
    forall full | ChunkBody(words, full)
      ensures Fits(words, p) && Extends(cs, ReadAt(words, p)) && full[..n + 1] == cs + [ReadAt(words, p)] && |full| == count
    {
      assert full[..n] == cs;
      ReadsBack(words, full, n);
      if n > 0 {
        assert full[n - 1] == cs[n - 1];
      }
    }
  }

  lemma LinkedMore(cs: seq<Chunk>, c: Chunk)
    requires Linked(cs) && Extends(cs, c)
    ensures Linked(cs + [c])
  {
    hide LooseChunk, Follows;
  }

  /** The words of one more chunk. */
  lemma StreamMore(words: seq<Word>, cs: seq<Chunk>)
    requires |Stream(cs)| + 1 <= |words| && words[1..1 + |Stream(cs)|] == Stream(cs) && Fits(words, 1 + |Stream(cs)|)
    ensures var c, p := ReadAt(words, 1 + |Stream(cs)|), 1 + |Stream(cs)|;
      Shaped(c) && 1 + |Stream(cs + [c])| == p + 1 + Size(c.desc) <= |words| && words[1..1 + |Stream(cs + [c])|] == Stream(cs + [c])
  {
    hide Size, Stream;
    var p := 1 + |Stream(cs)|;
    var c := ReadAt(words, p);
    StreamConcat(cs, [c]);
    StreamOne(c);
    U64OfWord(words[p]);
    SizePositive(c.desc);
    assert words[p..p + 1 + Size(c.desc)] == [words[p], words[p + 1]] + c.vecs;
    assert words[1..p + 1 + Size(c.desc)] == words[1..p] + words[p..p + 1 + Size(c.desc)];
  }

  lemma SizePositive(d: Word)
    ensures Size(d) >= 1
  {
  }

  /** A word with a clear top bit is below 2^63. */
  lemma BelowTopBit(w: Word)
    requires !w[63]
    ensures ToNat(w) < TWO63
  {
    FieldValues();
    TopClear(w);
  }

  lemma {:induction false} TopClear(bits: seq<bool>)
    requires bits != [] && !bits[|bits| - 1]
    ensures ToNat(bits) < Pow2(|bits| - 1)
  {
    if |bits| > 1 {
      TopClear(bits[1..]);
    }
  }

  /** No two chunk sequences have the same words, and no bare bitmap has the words of one. */
  lemma OneReading(words: seq<Word>, f: Form, g: Form)
    requires Decodes(words, f) && Decodes(words, g)
    ensures f == g
  {
    hide LooseChunk, Follows, Layout;
    FormBit(words, f);
    FormBit(words, g);
    if f.Chunked? {
      var n := |f.chunks|;
      SameCount(words, f.chunks, g.chunks);
      SamePrefix(words, f.chunks, g.chunks, n);
      assert f.chunks[..n] == f.chunks && g.chunks[..n] == g.chunks;
    }
  }

  lemma FormBit(words: seq<Word>, f: Form)
    requires Decodes(words, f)
    ensures words != [] && (words[0][63] <==> f.Small?)
  {
    if f.Chunked? {
      CountHeaderRoundTrip(|f.chunks|);
    }
  }

  lemma SameCount(words: seq<Word>, a: seq<Chunk>, b: seq<Chunk>)
    requires ChunkBody(words, a) && ChunkBody(words, b)
    ensures |a| == |b|
  {
    hide Linked, Layout, CountHeader;
    LayoutChunks(words, a);
    LayoutChunks(words, b);
    CountHeaderRoundTrip(|a|);
    CountHeaderRoundTrip(|b|);
  }

  lemma {:induction false} SamePrefix(words: seq<Word>, a: seq<Chunk>, b: seq<Chunk>, n: nat)
    requires ChunkBody(words, a) && ChunkBody(words, b) && n <= |a| == |b|
    ensures a[..n] == b[..n]
  {
    hide LooseChunk, Follows, Layout;
    if n > 0 {
      SamePrefix(words, a, b, n - 1);
      ReadsBack(words, a, n - 1);
      ReadsBack(words, b, n - 1);
    }
  }

  // ---- what acceptance does and does not give -----------------------------------------------------

  /** No two spans overlap. */
  ghost predicate Disjoint(cs: seq<Chunk>) {
    forall i, j :: 0 <= i < j < |cs| ==> cs[i].start + Cap(cs[i]) <= cs[j].start
  }

  /** Accepted spans are disjoint exactly when none before the last ends at 2^64. */
  lemma AcceptedSpans(cs: seq<Chunk>)
    requires LooseStream(cs)
    ensures Disjoint(cs) <==> forall i :: 0 <= i < |cs| - 1 ==> !EndsAtTop(cs[i])
  {
    hide LooseChunk;
    if forall i :: 0 <= i < |cs| - 1 ==> !EndsAtTop(cs[i]) {
      forall i, j | 0 <= i < j < |cs| ensures cs[i].start + Cap(cs[i]) <= cs[j].start {
        assert Follows(cs[i], cs[i + 1]) by {
          assert Follows(cs[i + 1 - 1], cs[i + 1]);
        }
        StartsRise(cs, i + 1, j);
      }
    } else {
      var i :| 0 <= i < |cs| - 1 && EndsAtTop(cs[i]);
      assert LooseChunk(cs[i + 1]);
      LooseStart(cs[i + 1]);
      assert cs[i].start + Cap(cs[i]) > cs[i + 1].start;
    }
  }

  /** Members of an accepted chunk lie inside its span. */
  lemma LooseBound(c: Chunk, x: nat)
    requires LooseChunk(c) && ChunkHas(c, x)
    ensures c.start <= x < c.start + Cap(c)
  {
    hide Aligned, Shaped;
    if !IsRle(c.desc) {
      var v := (x - c.start) / 64;
      assert Expand(c)[v][(x - c.start) % 64];
      assert Carries(FlagAt(c.desc, v));
    }
  }

  /** No index is in two chunks. */
  ghost predicate Unshared(cs: seq<Chunk>) {
    forall i, j, x: nat :: 0 <= i < j < |cs| && ChunkHas(cs[i], x) ==> !ChunkHas(cs[j], x)
  }

  /** An accepted stream shares no index between chunks when none before the last ends at 2^64. */
  lemma AcceptedMembers(cs: seq<Chunk>)
    requires LooseStream(cs) && forall i :: 0 <= i < |cs| - 1 ==> !EndsAtTop(cs[i])
    ensures Unshared(cs)
  {
    hide LooseChunk, ChunkHas, Cap, Follows;
    AcceptedSpans(cs);
    forall i, j, x: nat | 0 <= i < j < |cs| && ChunkHas(cs[i], x) ensures !ChunkHas(cs[j], x) {
      LooseBound(cs[i], x);
      if ChunkHas(cs[j], x) {
        LooseBound(cs[j], x);
      }
    }
  }

  /** What an accepted form promises its readers: a bitmap of at most 1024 bits, or chunks at rising multiples of 2048. */
  lemma AcceptedLimits(words: seq<Word>, f: Form)
    requires Decodes(words, f)
    ensures forall x: nat :: FormHas(f, x) ==> x < if f.Small? then 1024 else TWO64
    ensures f.Small? ==> |words| == 1 + |f.words| <= 17 && (f.words == [] || exists x: nat :: FormHas(f, x) && x / 64 == |f.words| - 1)
    ensures f.Chunked? ==> forall i :: 0 <= i < |f.chunks| ==> f.chunks[i].start % 2048 == 0
    ensures f.Chunked? ==> forall i, j :: 0 <= i < j < |f.chunks| ==> f.chunks[i].start < f.chunks[j].start
  {
    hide LooseChunk, Layout, ChunkHas, Follows;
    match f
    case Small(ws) =>
      if ws != [] {
        var v := |ws| - 1;
        assert ws[v] == words[|words| - 1];
        var k := SetBitOf(ws[v]);
        assert (64 * v + k) / 64 == v && (64 * v + k) % 64 == k;
        assert FormHas(f, 64 * v + k);
      }
    case Chunked(cs) =>
      forall i | 0 <= i < |cs| ensures cs[i].start % 2048 == 0 {
        LooseStart(cs[i]);
      }
      forall i, j | 0 <= i < j < |cs| ensures cs[i].start < cs[j].start {
        StartsRise(cs, i, j - 1);
        assert Follows(cs[j - 1], cs[j]);
        LooseFollows(cs[j - 1], cs[j]);
      }
      forall x: nat | FormHas(f, x) ensures x < TWO64 {
        var i :| 0 <= i < |cs| && ChunkHas(cs[i], x);
        LooseBound(cs[i], x);
        LooseStart(cs[i]);
      }
  }

  lemma LooseFollows(a: Chunk, b: Chunk)
    requires Follows(a, b)
    ensures a.start < b.start
  {
  }

  lemma LooseStart(c: Chunk)
    requires LooseChunk(c)
    ensures c.start < TWO64 && c.start % WINDOW == 0 && c.start + Cap(c) <= TWO64
  {
    AlignedMod(c.start);
  }

  lemma {:induction false} StartsRise(cs: seq<Chunk>, i: nat, j: nat)
    requires Linked(cs) && i <= j < |cs|
    ensures cs[i].start <= cs[j].start
  {
    if i < j {
      StartsRise(cs, i, j - 1);
      assert Follows(cs[j - 1], cs[j]);
    }
  }

  lemma LooseRle(start: nat, cap: nat, len: nat)
    requires start % WINDOW == 0 && len <= cap <= RLE_MAX && start < TWO64 && start + cap <= TWO64
    ensures var c := RleChunk(start, cap, len);
      LooseChunk(c) && Cap(c) == cap && IsRle(c.desc) && RleLen(c.desc) == len
  {
    hide RleDesc, RleCap, RleLen;
    RleDescFields(cap, len);
    AlignedMod(start);
  }

  /** An accepted stream in which two chunks share an index. */
  lemma OverlapExample()
    ensures var a, b := RleChunk(TWO64 - 4096, 4096, 4096), RleChunk(TWO64 - 2048, 2048, 1);
      Accepted(Layout(Chunked([a, b]))) && ChunkHas(a, TWO64 - 2048) && ChunkHas(b, TWO64 - 2048)
  {
    hide LooseChunk, RleDesc, Layout;
    var a, b := RleChunk(TWO64 - 4096, 4096, 4096), RleChunk(TWO64 - 2048, 2048, 1);
    LooseRle(TWO64 - 4096, 4096, 4096);
    LooseRle(TWO64 - 2048, 2048, 1);
    assert Linked([a, b]);
    assert Decodes(Layout(Chunked([a, b])), Chunked([a, b]));
  }

  /** Two accepted bare bitmaps of one set differ at most in the header bits that are not looked at. */
  lemma SmallEncodings(a: seq<Word>, b: seq<Word>)
    requires SmallBody(a) && SmallBody(b) && SmallMembers(a[1..]) == SmallMembers(b[1..])
    ensures a[1..] == b[1..]
    ensures a == b <==> a[0][32..63] == b[0][32..63]
  {
    hide SmallMembers;
    SameBitmap(a[1..], b[1..]);
    SameHeader(a[0], b[0]);
    assert a == [a[0]] + a[1..] && b == [b[0]] + b[1..];
  }

  lemma HeaderParts(w: Word)
    ensures w == w[..32] + w[32..63] + [w[63]]
  {
    assert w[32..] == w[32..63] + [w[63]];
  }

  lemma SameHeader(a: Word, b: Word)
    requires a[63] == b[63] && SmallCount(a) == SmallCount(b)
    ensures a == b <==> a[32..63] == b[32..63]
  {
    FromNatToNat(a[..32]);
    FromNatToNat(b[..32]);
    HeaderParts(a);
    HeaderParts(b);
  }

  /** Bitmaps without zero words at the end are determined by their sets. */
  lemma SameBitmap(a: seq<Word>, b: seq<Word>)
    requires a != [] ==> a[|a| - 1] != ZERO
    requires b != [] ==> b[|b| - 1] != ZERO
    requires SmallMembers(a) == SmallMembers(b)
    ensures a == b
  {
    NoLonger(a, b);
    NoLonger(b, a);
    forall v | 0 <= v < |a| ensures a[v] == b[v] {
      forall k | 0 <= k < 64 ensures a[v][k] == b[v][k] {
        var x := 64 * v + k;
        assert x / 64 == v && x % 64 == k;
        assert x in SmallMembers(a) <==> x in SmallMembers(b);
      }
      WordExt(a[v], b[v]);
    }
  }

  lemma NoLonger(a: seq<Word>, b: seq<Word>)
    requires a != [] ==> a[|a| - 1] != ZERO
    requires SmallMembers(a) == SmallMembers(b)
    ensures |a| <= |b|
  {
    if a != [] {
      var v := |a| - 1;
      if forall k :: 0 <= k < 64 ==> !a[v][k] {
        WordExt(a[v], ZERO);
      }
      var k :| 0 <= k < 64 && a[v][k];
      var x := 64 * v + k;
      assert x / 64 == v && x % 64 == k;
      assert x in SmallMembers(a);
      assert x in SmallMembers(b);
    }
  }

  /** One set, two accepted encodings: bit 40 of the header changes neither its count nor its mode. */
  lemma TwoEncodings(ws: seq<Word>)
    requires WfForm(Small(ws))
    ensures var odd := [SetBit(SmallHeader(|ws|), 40)] + ws;
      Decodes(odd, Small(ws)) && Decodes(Layout(Small(ws)), Small(ws)) && odd != Layout(Small(ws))
  {
    var h := SmallHeader(|ws|);
    var odd := [SetBit(h, 40)] + ws;
    SmallHeaderRoundTrip(|ws|);
    HeaderMiddle(|ws|);
    assert SetBit(h, 40)[..32] == h[..32];
    assert odd[1..] == ws && odd[0] != h;
    WfAccepted(Small(ws));
  }

  lemma HeaderMiddle(n: nat)
    ensures !SmallHeader(n)[40]
  {
    ZeroBits(31, 8);
  }

  lemma {:induction false} ZeroBits(k: nat, i: nat)
    requires i < k
    ensures !FromNat(0, k)[i]
  {
    if i > 0 {
      ZeroBits(k - 1, i - 1);
    }
  }

  // ---- the check itself ----------------------------------------------------------------------------

  /** The bits of the slots that carry data: the high bit of each flag. */
  function HighFlagBits(): Word {
    seq(64, i => i % 2 == 1)
  }

  /** Whether all data-bearing slots lie below the capacity, seen from the highest one. */
  method DataFits(d: Word, cap: nat) returns (ok: bool)
    ensures ok <==> SlotsFit(d, cap)
  {
    var hi := And(d, HighFlagBits());
    assert forall v :: 0 <= v < SLOTS ==> (Carries(FlagAt(d, v)) <==> hi[2 * v + 1]);
    if hi == ZERO {
      return true;
    }
    var b := Offset.HighestBit(hi);
    assert b == 2 * (b / 2) + 1;
    assert Carries(FlagAt(d, b / 2));
    return 64 * (b / 2 + 1) <= cap;
  }

  /** The checks made of one chunk on its own once its extent is known to fit. */
  method CheckChunk(c: Chunk) returns (ok: bool)
    requires c.start < TWO64 && Shaped(c) && Aligned(c.start)
    ensures ok <==> LooseChunk(c)
  {
    var cap := Cap(c);
    if IsRle(c.desc) && RleLen(c.desc) > cap {
      return false;
    }
    if !IsRle(c.desc) {
      var fit := DataFits(c.desc, cap);
      if !fit {
        return false;
      }
    }
    CapSmall(c);
    var end := (c.start + cap) % TWO64;
    EndWraps(c.start, cap);
    return !(end != 0 && end < c.start);
  }

  lemma CapSmall(c: Chunk)
    ensures Cap(c) < TWO64
  {
    if IsRle(c.desc) {
      RleCanonical(c.desc);
    }
  }

  lemma EndWraps(start: nat, cap: nat)
    requires start < TWO64 && cap < TWO64
    ensures var end := (start + cap) % TWO64; (end != 0 && end < start) <==> start + cap > TWO64
    ensures start + cap < TWO64 ==> (start + cap) % TWO64 == start + cap
    ensures start + cap == TWO64 ==> (start + cap) % TWO64 == 0
  {
  }

  lemma FollowsEnd(a: Chunk, b: Chunk)
    requires LooseChunk(a) && a.start < b.start
    ensures var end := (a.start + Cap(a)) % TWO64; Follows(a, b) <==> end == 0 || end <= b.start
  {
    CapSmall(a);
    EndWraps(a.start, Cap(a));
  }

  method CheckSmall(data: array<Word>, bytes: nat) returns (ok: bool)
    requires 8 <= bytes <= 8 * data.Length && data[0][63]
    ensures ok <==> bytes % 8 == 0 && SmallBody(data[..bytes / 8])
  {
    var n := SmallCount(data[0]);
    if n > SMALL_MAX_WORDS {
      return false;
    }
    if bytes != 8 + 8 * n {
      return false;
    }
    if n > 0 && data[n] == ZERO {
      return false;
    }
    return true;
  }

  /** Reads the chunk at word p, unless it would run past the end, is misplaced or is malformed. */
  method CheckNext(data: array<Word>, bytes: nat, p: nat, ghost words: seq<Word>, ghost cs: seq<Chunk>, first: bool, prevStart: nat, prevEnd: nat)
    returns (ok: bool, c: Chunk)
    requires bytes <= 8 * data.Length && words == data[..bytes / 8] && p == 1 + |Stream(cs)| <= |words|
    requires first == (cs == []) && Linked(cs)
    requires !first ==> prevStart == cs[|cs| - 1].start && prevEnd == (cs[|cs| - 1].start + Cap(cs[|cs| - 1])) % TWO64
    ensures ok <==> Fits(words, p) && Extends(cs, ReadAt(words, p))
    ensures ok ==> c == ReadAt(words, p)
  {
    hide Stream, Layout, Cap, SlotsFit, LooseChunk, Follows, Linked, Aligned, Size, ToNat, U64, IsRle;
    ok := false;
    c := Chunk(0, ZERO, []);
    if 8 * p + 16 > bytes {
      return;
    }
    assert words[p] == data[p] && words[p + 1] == data[p + 1];
    var start := ToNat(data[p]);
    U64OfWord(data[p]);
    AlignedMod(start);
    LooseParts(words, p);
    if !first && start <= prevStart {
      FollowsRises(cs, words, p);
      return;
    }
    if start % WINDOW != 0 {
      return;
    }
    var d := data[p + 1];
    SizePositive(d);
    if 8 * p + 8 + 8 * Size(d) > bytes {
      return;
    }
    c := Chunk(start, d, data[p + 2..p + 1 + Size(d)]);
    assert c.vecs == words[p + 2..p + 1 + Size(d)];
    var good := CheckChunk(c);
    if !good {
      return;
    }
    if !first {
      LastLoose(cs);
      FollowsEnd(cs[|cs| - 1], c);
    }
    ok := !(!first && prevEnd != 0 && start < prevEnd);
  }

  lemma LastLoose(cs: seq<Chunk>)
    requires Linked(cs) && cs != []
    ensures LooseChunk(cs[|cs| - 1])
  {
    hide LooseChunk;
  }

  lemma LooseParts(words: seq<Word>, p: nat)
    ensures Fits(words, p) && LooseChunk(ReadAt(words, p)) ==> Aligned(ToNat(words[p]))
  {
  }

  lemma FollowsRises(cs: seq<Chunk>, words: seq<Word>, p: nat)
    ensures Fits(words, p) && cs != [] && Extends(cs, ReadAt(words, p)) ==> cs[|cs| - 1].start < ToNat(words[p])
  {
  }

  /** The walk over the chunks of a chunk-mode buffer. */
  method CheckChunks(data: array<Word>, bytes: nat, count: nat) returns (ok: bool)
    requires 8 <= bytes <= 8 * data.Length && !data[0][63] && count == ToNat(data[0]) && count > 0
    ensures ok <==> bytes % 8 == 0 && HoldsChunks(data[..bytes / 8])
  {
    hide Stream, Layout, Linked, Extends, Fits, HoldsChunks, Tracks, Cap, Size;
    ghost var words := data[..bytes / 8];
    assert words[0] == data[0];
    ghost var cs: seq<Chunk> := [];
    var p, first := 1, true;
    var prevStart: nat, prevEnd: nat := 0, 0;
    WalkStart(words, count);
    for i := 0 to count
      invariant |cs| == i && p == 1 + |Stream(cs)| <= |words| && words[1..p] == Stream(cs)
      invariant first == (cs == []) && Linked(cs)
      invariant !first ==> prevStart == cs[|cs| - 1].start && prevEnd == (cs[|cs| - 1].start + Cap(cs[|cs| - 1])) % TWO64
      invariant Tracks(words, count, cs)
    {
      Advance(words, count, cs);
      var c;
      ok, c := CheckNext(data, bytes, p, words, cs, first, prevStart, prevEnd);
      if !ok {
        return;
      }
      StreamMore(words, cs);
      LinkedMore(cs, c);
      cs := cs + [c];
      p := p + 1 + Size(c.desc);
      prevStart := c.start;
      prevEnd := (c.start + Cap(c)) % TWO64;
      first := false;
    }
    WalkEnd(words, count, cs);
    assert 8 * p == bytes <==> bytes % 8 == 0 && |words| == p;
    return 8 * p == bytes;
  }

  lemma WalkStart(words: seq<Word>, count: nat)
    requires words != [] && count == ToNat(words[0])
    ensures Stream([]) == [] && Linked([]) && Tracks(words, count, [])
  {
    forall full | ChunkBody(words, full) ensures |full| == count {
      CountHeaderRoundTrip(|full|);
    }
  }

  lemma WalkEnd(words: seq<Word>, count: nat, cs: seq<Chunk>)
    requires words != [] && !words[0][63] && count == ToNat(words[0]) == |cs| && Linked(cs) && Tracks(words, count, cs)
    requires 1 + |Stream(cs)| <= |words| && words[1..1 + |Stream(cs)|] == Stream(cs)
    ensures |words| == 1 + |Stream(cs)| <==> HoldsChunks(words)
  {
    hide Linked, Layout, Tracks;
    if |words| == 1 + |Stream(cs)| {
      WholeBody(words, cs);
    }
    forall full | ChunkBody(words, full) ensures |words| == 1 + |Stream(cs)| {
      TracksWhole(words, count, cs, full);
      LayoutChunks(words, cs);
    }
  }

  lemma WholeBody(words: seq<Word>, cs: seq<Chunk>)
    requires words != [] && !words[0][63] && ToNat(words[0]) == |cs| && Linked(cs)
    requires words[1..] == Stream(cs)
    ensures ChunkBody(words, cs)
  {
    hide Linked;
    BelowTopBit(words[0]);
    U64OfWord(words[0]);
    assert words == [words[0]] + words[1..];
  }

  lemma TracksWhole(words: seq<Word>, count: nat, cs: seq<Chunk>, full: seq<Chunk>)
    requires Tracks(words, count, cs) && |cs| == count && ChunkBody(words, full)
    ensures full == cs && words == Layout(Chunked(cs))
  {
    hide Linked, Layout;
    assert full[..|cs|] == full;
  }

  /** sm_validate on the first `bytes` bytes of a buffer; a buffer never initialised passes. */
  method Check(data: array<Word>, bytes: nat) returns (ok: bool)
    ensures ok <==> bytes == 0 || (bytes % 8 == 0 && bytes <= 8 * data.Length && Accepted(data[..bytes / 8]))
  {
    hide Layout, Stream, LooseStream;
    if bytes > 8 * data.Length {
      return false;
    }
    if bytes == 0 {
      return true;
    }
    if bytes < 8 {
      return false;
    }
    ghost var words := data[..bytes / 8];
    AcceptedBody(words);
    if data[0][63] {
      ok := CheckSmall(data, bytes);
      return;
    }
    var count := ToNat(data[0]);
    if count == 0 {
      EmptyBody(words);
      return bytes == 8;
    }
    ok := CheckChunks(data, bytes, count);
  }

  /** The mode bit says which kind of body may be accepted. */
  lemma AcceptedBody(words: seq<Word>)
    requires words != []
    ensures Accepted(words) <==> if words[0][63] then SmallBody(words) else HoldsChunks(words)
  {
    hide Layout, LooseStream;
    if SmallBody(words) {
      assert Decodes(words, Small(words[1..]));
    }
    if cs :| ChunkBody(words, cs) {
      assert Decodes(words, Chunked(cs));
      FormBit(words, Chunked(cs));
    }
    if f :| Decodes(words, f) {
      FormBit(words, f);
      if f.Chunked? {
        assert ChunkBody(words, f.chunks);
      }
    }
  }

  lemma EmptyBody(words: seq<Word>)
    requires words != [] && ToNat(words[0]) == 0
    ensures |words| == 1 <==> HoldsChunks(words)
  {
    hide ToNat, LooseChunk, WfChunk, Enc, U64;
    U64OfWord(words[0]);
    if |words| == 1 {
      assert ChunkBody(words, []);
    }
    forall cs | ChunkBody(words, cs) ensures |words| == 1 {
      CountHeaderRoundTrip(|cs|);
    }
  }
}
