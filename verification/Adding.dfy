// sm_add: choosing between the bare bitmap and the chunk stream, moving from one to the
// other in place, and growing the buffer when it has no room.
module Adding {
  import opened Words
  import opened Chunks
  import opened Streams
  import opened Codec
  import opened Maps
  import opened RunLengths
  import opened Locate
  import opened Coalesce
  import opened Edits
  import opened Slots
  import opened Sizes
  import opened Setting
  import opened Small

  // ---- sets below the small bound --------------------------------------------------------

  ghost predicate Low(s: iset<nat>) {
    forall x: nat :: x in s ==> x < SMALL_MAX_BITS
  }

  lemma LowShort(s: iset<nat>)
    requires Low(s)
    ensures ShortRuns(s)
  {
    forall lo: nat, hi: nat | lo < hi && Range(lo, hi) <= s ensures hi - lo <= RLE_LIMIT {
      assert hi - 1 in Range(lo, hi);
    }
  }

  lemma ChunkNotEmpty(c: Chunk) returns (x: nat)
    requires WfChunk(c)
    ensures ChunkHas(c, x) && c.start <= x
  {
    if IsRle(c.desc) {
      x := c.start;
    } else {
      SparseCanonical(c);
      var v :| 0 <= v < SLOTS && Expand(c)[v] != ZERO;
      var k := SetBitOf(SlotWord(c, v));
      SlotBit(c, v, k);
      x := c.start + 64 * v + k;
    }
  }

  lemma FirstMember(cs: seq<Chunk>, i: nat) returns (x: nat)
    requires WfStream(cs) && i < |cs|
    ensures x in Members(cs) && cs[i].start <= x
  {
    x := ChunkNotEmpty(cs[i]);
  }

  /** The words a stream of low indices can take: one chunk with at most a payload word per slot. */
  const LOW_WORDS: nat := 35

  lemma LowStream(cs: seq<Chunk>)
    requires WfStream(cs) && Low(Members(cs))
    ensures |Layout(Chunked(cs))| <= LOW_WORDS && |cs| <= 1
  {
    hide WfChunk, ChunkHas, Layout, Members;
    if |cs| > 1 {
      SpanPositive(cs[0]);
      var x := FirstMember(cs, 1);
    }
    LowLayout(cs);
  }

  lemma LowLayout(cs: seq<Chunk>)
    requires WfStream(cs) && |cs| <= 1
    ensures |Layout(Chunked(cs))| <= LOW_WORDS
  {
    if |cs| == 1 {
      StreamOne(cs[0]);
      assert cs == [cs[0]];
      assert WfChunk(cs[0]);
    }
  }

  // ---- promotion ------------------------------------------------------------------------------

  /** The members of the first words, and those of word i no longer in `left`. */
  ghost function Moved(ws: seq<Word>, i: nat, left: Word): iset<nat> {
    iset x: nat | SmallHas(ws, x) && (x / 64 < i || (x / 64 == i && !left[x % 64]))
  }

  lemma MovedStep(ws: seq<Word>, i: nat, left: Word, b: nat)
    requires i < |ws| && b < 64 && left[b] && ws[i][b]
    ensures Moved(ws, i, ClearBit(left, b)) == Moved(ws, i, left) + iset{64 * i + b}
    ensures 64 * i + b in SmallMembers(ws)
  {
    forall x: nat ensures x in Moved(ws, i, ClearBit(left, b)) <==> x in Moved(ws, i, left) + iset{64 * i + b} {
      assert x == 64 * (x / 64) + x % 64;
    }
    assert (64 * i + b) / 64 == i && (64 * i + b) % 64 == b;
  }

  lemma MovedEnds(ws: seq<Word>, i: nat)
    requires i <= |ws|
    ensures i == 0 ==> Moved(ws, i, ONES) == iset{}
    ensures i < |ws| ==> Moved(ws, i, ws[i]) == Moved(ws, i, ONES)
    ensures i < |ws| ==> Moved(ws, i, ZERO) == Moved(ws, i + 1, ONES)
    ensures i == |ws| ==> Moved(ws, i, ONES) == SmallMembers(ws)
  {
  }

  lemma MovedLow(ws: seq<Word>, i: nat, left: Word)
    requires |ws| <= SMALL_MAX_WORDS
    ensures Low(SmallMembers(ws)) && Moved(ws, i, left) <= SmallMembers(ws)
  {
    SmallBound(ws);
  }

  function BitCount(w: Word): nat {
    OnesBelow(w, 64)
  }

  function OnesBelow(w: Word, n: nat): nat
    requires n <= 64
  {
    if n == 0 then 0 else OnesBelow(w, n - 1) + if w[n - 1] then 1 else 0
  }

  lemma {:induction false} FewerOnes(w: Word, b: nat, n: nat)
    requires b < 64 && w[b] && n <= 64
    ensures OnesBelow(ClearBit(w, b), n) == OnesBelow(w, n) - if b < n then 1 else 0
  {
    if n > 0 {
      FewerOnes(w, b, n - 1);
    }
  }

  /** The words of the stream of a set below 2048: the count alone, or one sparse chunk too. */
  ghost function LowWords(s: iset<nat>): nat {
    if s == iset{} then 1 else 3 + PartialSlots(s, 0, SLOTS)
  }

  ghost function Before(s: iset<nat>, x: nat): iset<nat> {
    iset y: nat | y in s && y < x
  }

  /** There is room to set every member of s in [lo, hi) after those before it. */
  ghost predicate StepsFit(s: iset<nat>, lo: nat, hi: nat, length: nat) {
    forall x: nat :: x in s && lo <= x < hi ==> LowWords(Before(s, x)) + 3 <= length
  }

  lemma StepTaken(s: iset<nat>, lo: nat, x: nat, length: nat)
    requires StepsFit(s, lo, x, length) && lo <= x && x in s
    ensures StepsFit(s, lo, x + 1, length) <==> LowWords(Before(s, x)) + 3 <= length
  {
  }

  lemma NoSteps(s: iset<nat>, lo: nat, mid: nat, hi: nat, length: nat)
    requires lo <= mid <= hi && forall x: nat :: mid <= x < hi ==> x !in s
    ensures StepsFit(s, lo, mid, length) <==> StepsFit(s, lo, hi, length)
  {
  }

  lemma StepsJoin(s: iset<nat>, lo: nat, mid: nat, hi: nat, length: nat)
    requires lo <= mid <= hi
    ensures StepsFit(s, lo, hi, length) <==> StepsFit(s, lo, mid, length) && StepsFit(s, mid, hi, length)
  {
  }

  /** A stream of one sparse chunk at most takes the words of its set, and setting a bit there asks for two words and a spare one. */
  lemma LowRoom(cs: seq<Chunk>, idx: nat, length: nat)
    requires WfStream(cs) && AllFull(cs) && LowSparse(cs) && idx < WINDOW
    ensures |Layout(Chunked(cs))| == LowWords(Members(cs))
    ensures RoomToSet(cs, idx, length - |Layout(Chunked(cs))|) <==> LowWords(Members(cs)) + 3 <= length
  {
    hide WfStream, AllFull, Members, PartialSlots, SetSurplus, Located, Layout;
    var free := length - |Layout(Chunked(cs))|;
    LayoutLength(cs);
    if cs == [] {
      EmptyMap();
      StreamEnds(cs);
      NothingLocated(idx, free);
    } else {
      assert cs == [cs[0]];
      OneOfThem(cs, 0);
      StreamOne(cs[0]);
      HasOne(cs[0]);
      SparseWords(cs[0]);
      SurplusArms(cs, 0, idx);
      var x := FirstMember(cs, 0);
      if free >= 3 {
        OnlyLocated(cs, idx);
        RoomAt(cs, idx, 0, free);
      }
      RoomNeeded(cs, idx, free);
    }
  }

  lemma OnlyLocated(cs: seq<Chunk>, idx: nat)
    requires |cs| == 1
    ensures Located(cs, idx, 0)
  {
  }

  /** The bits from lo on are left of the word, and b is the lowest of them. */
  lemma MovedBefore(ws: seq<Word>, i: nat, left: Word, lo: nat, b: nat)
    requires i < |ws| && lo <= b < 64 && left[b]
    requires forall k :: 0 <= k < 64 ==> left[k] == (ws[i][k] && lo <= k)
    requires forall k :: 0 <= k < b ==> !left[k]
    ensures Moved(ws, i, left) == Before(SmallMembers(ws), 64 * i + b)
    ensures 64 * i + b in SmallMembers(ws) && forall x: nat :: 64 * i + lo <= x < 64 * i + b ==> x !in SmallMembers(ws)
  {
    forall x: nat ensures x in Moved(ws, i, left) <==> x in Before(SmallMembers(ws), 64 * i + b) {
      assert x == 64 * (x / 64) + x % 64;
    }
    assert (64 * i + b) / 64 == i && (64 * i + b) % 64 == b;
  }

  lemma NoneLeft(ws: seq<Word>, i: nat, lo: nat)
    requires i < |ws| && lo <= 64
    requires forall k :: 0 <= k < 64 ==> !(ws[i][k] && lo <= k)
    ensures forall x: nat :: 64 * i + lo <= x < 64 * i + 64 ==> x !in SmallMembers(ws)
  {
  }

  /** Adds the bits of word i to a chunk-mode map; refuses exactly when one of them finds no room. */
  method MoveWord(m: Map, ghost ws: seq<Word>, i: nat, w: Word) returns (ok: bool)
    requires m.Valid() && m.form.Chunked? && m.Strict() && i < |ws| <= SMALL_MAX_WORDS && w == ws[i]
    requires Members(m.Chunks()) == Moved(ws, i, ONES) && LowSparse(m.Chunks())
    modifies m, m.data
    ensures m.Valid() && m.form.Chunked? && m.Strict() && m.data == old(m.data)
    ensures ok ==> Members(m.Chunks()) == Moved(ws, i + 1, ONES) && LowSparse(m.Chunks())
    ensures ok <==> StepsFit(SmallMembers(ws), 64 * i, 64 * i + 64, m.data.Length)
    ensures LOW_WORDS + ROOM <= m.data.Length ==> ok
  {
    hide WfStream, AllFull, Members, Moved, ShortRuns, SmallMembers, Layout, ClearBit, Low, LowSparse, LowWords, Before, StepsFit;
    MovedEnds(ws, i);
    var bits := w;
    ghost var lo, s := 0, SmallMembers(ws);
    NoStepsYet(s, 64 * i, m.data.Length);
    while bits != ZERO
      invariant m.Valid() && m.form.Chunked? && m.Strict() && m.data == old(m.data)
      invariant Members(m.Chunks()) == Moved(ws, i, bits) && LowSparse(m.Chunks())
      invariant lo <= 64 && forall k :: 0 <= k < 64 ==> bits[k] == (w[k] && lo <= k)
      invariant StepsFit(s, 64 * i, 64 * i + lo, m.data.Length)
      decreases BitCount(bits)
    {
      var b := LowestBit(bits);
      ok := MoveBit(m, ws, i, bits, b, lo);
      if !ok {
        StepsJoin(s, 64 * i, 64 * i + b + 1, 64 * i + 64, m.data.Length);
        return false;
      }
      FewerOnes(bits, b, 64);
      ClearLow(bits, b, w, lo);
      bits := ClearBit(bits, b);
      lo := b + 1;
    }
    NoneLeftOf(ws, i, lo, bits);
    NoSteps(s, 64 * i, 64 * i + lo, 64 * i + 64, m.data.Length);
    return true;
  }

  lemma NoStepsYet(s: iset<nat>, lo: nat, length: nat)
    ensures StepsFit(s, lo, lo, length)
  {
  }

  lemma NoneLeftOf(ws: seq<Word>, i: nat, lo: nat, bits: Word)
    requires i < |ws| && lo <= 64 && bits == ZERO && forall k :: 0 <= k < 64 ==> bits[k] == (ws[i][k] && lo <= k)
    ensures forall x: nat :: 64 * i + lo <= x < 64 * i + 64 ==> x !in SmallMembers(ws)
  {
    assert forall k :: 0 <= k < 64 ==> !bits[k];
    NoneLeft(ws, i, lo);
  }

  /** Adds the lowest bit that is left of word i. */
  method MoveBit(m: Map, ghost ws: seq<Word>, i: nat, ghost bits: Word, b: nat, ghost lo: nat) returns (ok: bool)
    requires m.Valid() && m.form.Chunked? && m.Strict() && i < |ws| <= SMALL_MAX_WORDS
    requires Members(m.Chunks()) == Moved(ws, i, bits) && LowSparse(m.Chunks())
    requires lo <= b < 64 && bits[b] && forall k :: 0 <= k < b ==> !bits[k]
    requires forall k :: 0 <= k < 64 ==> bits[k] == (ws[i][k] && lo <= k)
    requires StepsFit(SmallMembers(ws), 64 * i, 64 * i + lo, m.data.Length)
    modifies m, m.data
    ensures m.Valid() && m.form.Chunked? && m.Strict() && m.data == old(m.data)
    ensures ok ==> Members(m.Chunks()) == Moved(ws, i, ClearBit(bits, b)) && LowSparse(m.Chunks())
    ensures ok <==> StepsFit(SmallMembers(ws), 64 * i, 64 * i + b + 1, m.data.Length)
    ensures LOW_WORDS + ROOM <= m.data.Length ==> ok
  {
    hide WfStream, AllFull, Members, Moved, ShortRuns, SmallMembers, Layout, ClearBit, Low, LowSparse, LowWords, Before, StepsFit, RoomToSet;
    var idx := 64 * i + b;
    ghost var s, cs, length := SmallMembers(ws), m.Chunks(), m.data.Length;
    MovedBefore(ws, i, bits, lo, b);
    NoSteps(s, 64 * i, 64 * i + lo, idx, length);
    StepTaken(s, 64 * i, idx, length);
    MovedStep(ws, i, bits, b);
    MovedLow(ws, i, ClearBit(bits, b));
    MovedLow(ws, i, bits);
    LowPart(Moved(ws, i, ClearBit(bits, b)), s);
    LowPart(Moved(ws, i, bits), s);
    LowShort(Moved(ws, i, ClearBit(bits, b)));
    LowStream(cs);
    LowRoom(cs, idx, length);
    assert m.form == Chunked(cs) && m.used == |Layout(Chunked(cs))|;
    ok := MapSet(m, idx, true);
  }

  lemma LowPart(a: iset<nat>, b: iset<nat>)
    requires a <= b && Low(b)
    ensures Low(a)
  {
  }

  lemma ClearLow(bits: Word, b: nat, w: Word, lo: nat)
    requires lo <= b < 64 && forall k :: 0 <= k < 64 ==> bits[k] == (w[k] && lo <= k)
    requires forall k :: 0 <= k < b ==> !bits[k]
    ensures forall k :: 0 <= k < 64 ==> ClearBit(bits, b)[k] == (w[k] && b + 1 <= k)
  {
  }
  /** A run from bit 0 becomes one run-length chunk. */
  method PromoteRun(m: Map, len: nat, ghost ws: seq<Word>) returns (ok: bool)
    requires RunFromZero(ws, len) && 0 < len <= SMALL_MAX_BITS
    modifies m, m.data
    ensures ok == (3 <= m.data.Length) && m.data == old(m.data)
    ensures ok ==> StartsRle(m.form) && m.form == Chunked([RleChunk(0, WINDOW, len)])
    ensures ok ==> m.Valid() && m.form.Chunked? && m.Strict() && Members(m.Chunks()) == SmallMembers(ws)
    ensures !ok ==> m.used == old(m.used) && m.form == old(m.form) && m.data[..] == old(m.data[..])
  {
    hide CountHeader, U64, SetRle, SetRleCap, SetRleLen;
    if 3 > m.data.Length {
      return false;
    }
    AlignedConstants();
    var d := SetRleLen(SetRleCap(SetRle(ZERO), WINDOW), len);
    m.Store([CountHeader(1), U64(0), d]);
    ghost var c := RleChunk(0, WINDOW, len);
    RleChunkWf(0, WINDOW, len);
    RleChunkMembers(0, WINDOW, len);
    WfOne(c);
    HasOne(c);
    StreamOne(c);
    m.form := Chunked([c]);
    RunFromZeroSet(ws, len);
    return true;
  }

  /** The first chunk is a run-length chunk. */
  ghost predicate StartsRle(f: Form) {
    f.Chunked? && f.chunks != [] && IsRle(f.chunks[0].desc)
  }

  lemma RunFromZeroSet(ws: seq<Word>, len: nat)
    requires RunFromZero(ws, len)
    ensures SmallMembers(ws) == Range(0, len)
  {
  }

  /** Moves the words one by one into an empty stream; stops at the first that does not fit. */
  method MoveWords(m: Map, words: seq<Word>) returns (ok: bool)
    requires m.Valid() && m.form.Chunked? && m.Strict() && |words| <= SMALL_MAX_WORDS && m.Chunks() == []
    modifies m, m.data
    ensures m.Valid() && m.form.Chunked? && m.Strict() && m.data == old(m.data)
    ensures ok ==> Members(m.Chunks()) == SmallMembers(words) && LowSparse(m.Chunks())
    ensures ok <==> StepsFit(SmallMembers(words), 0, SMALL_MAX_BITS, m.data.Length)
    ensures LOW_WORDS + ROOM <= m.data.Length ==> ok
  {
    hide WfStream, AllFull, Members, Moved, SmallMembers, Layout, WfForm, StepsFit, LowSparse;
    var i := 0;
    ghost var s := SmallMembers(words);
    EmptyMap();
    NoLowChunk();
    NoStepsYet(s, 0, m.data.Length);
    SmallBound(words);
    MovedEnds(words, 0);
    while i < |words|
      invariant i <= |words|
      invariant m.Valid() && m.form.Chunked? && m.Strict() && m.data == old(m.data)
      invariant Members(m.Chunks()) == Moved(words, i, ONES) && LowSparse(m.Chunks())
      invariant StepsFit(s, 0, 64 * i, m.data.Length)
    {
      ok := MoveWord(m, words, i, words[i]);
      StepsJoin(s, 0, 64 * i, 64 * i + 64, m.data.Length);
      if !ok {
        StepsJoin(s, 0, 64 * i + 64, SMALL_MAX_BITS, m.data.Length);
        return;
      }
      i := i + 1;
    }
    MovedEnds(words, i);
    NoSteps(s, 0, 64 * i, SMALL_MAX_BITS, m.data.Length);
    return true;
  }

  lemma NoLowChunk()
    ensures LowSparse([])
  {
  }

  /** A run from bit 0 that ends inside a word. */
  ghost predicate OpenRun(ws: seq<Word>, n: nat) {
    n % 64 != 0 && RunFromZero(ws, n)
  }

  function PadWords(ws: seq<Word>): Window
    requires |ws| <= SMALL_MAX_WORDS
  {
    ws + Zeroes(SLOTS - |ws|)
  }

  /** The chunks that stand for a bare bitmap: a run-length chunk for an open run, a sparse one for any other set. */
  ghost function Promoted(ws: seq<Word>): seq<Chunk>
    requires |ws| <= SMALL_MAX_WORDS
  {
    if ws == [] then []
    else if exists n: nat :: OpenRun(ws, n) then
      var n: nat :| OpenRun(ws, n);
      [RleChunk(0, WINDOW, n)]
    else [FullChunk(0, PadWords(ws))]
  }

  /** The room that rewriting the bitmap needs: three words for an open run, room for every bit in turn for any other set. */
  ghost predicate RoomToPromote(ws: seq<Word>, length: nat) {
    if exists n: nat :: OpenRun(ws, n) then length >= 3 else StepsFit(SmallMembers(ws), 0, SMALL_MAX_BITS, length)
  }

  lemma OpenRunUnique(ws: seq<Word>, n: nat, k: nat)
    requires OpenRun(ws, n) && OpenRun(ws, k)
    ensures n == k
  {
    assert n > 0 && k > 0;
    assert SmallHas(ws, n - 1) && !SmallHas(ws, n);
    assert SmallHas(ws, k - 1) && !SmallHas(ws, k);
  }

  lemma WindowExt(a: Window, b: Window)
    requires WindowMembers(0, a) == WindowMembers(0, b)
    ensures a == b
  {
    forall v | 0 <= v < SLOTS ensures a[v] == b[v] {
      forall k | 0 <= k < 64 ensures a[v][k] == b[v][k] {
        var x := 64 * v + k;
        assert x / 64 == v && x % 64 == k;
        assert x in WindowMembers(0, a) <==> x in WindowMembers(0, b);
      }
      WordExt(a[v], b[v]);
    }
  }

  /** The sparse stream of a bitmap that is no open run is the one it is promoted to. */
  lemma PromotedLow(ws: seq<Word>, cs: seq<Chunk>)
    requires WfForm(Small(ws)) && WfStream(cs) && AllFull(cs) && LowSparse(cs) && Members(cs) == SmallMembers(ws)
    requires !exists n: nat :: OpenRun(ws, n)
    ensures cs == Promoted(ws)
  {
    hide WfChunk, Members, SmallMembers, OpenRun;
    if ws == [] {
      SmallBound(ws);
      if cs != [] {
        var x := FirstMember(cs, 0);
      }
    } else {
      LastMember(ws);
      EmptyMap();
      assert cs != [];
      assert cs == [cs[0]];
      HasOne(cs[0]);
      PadMembers(ws);
      OneOfThem(cs, 0);
      SparseMembers(cs[0]);
      SparseCanonical(cs[0]);
      WindowExt(Expand(cs[0]), PadWords(ws));
    }
  }

  lemma PadMembers(ws: seq<Word>)
    requires |ws| <= SMALL_MAX_WORDS
    ensures WindowMembers(0, PadWords(ws)) == SmallMembers(ws)
  {
    WindowAsSmall(PadWords(ws), |ws|);
    assert PadWords(ws)[..|ws|] == ws;
  }

  lemma LastMember(ws: seq<Word>)
    requires WfForm(Small(ws)) && ws != []
    ensures SmallMembers(ws) != iset{}
  {
    var v := |ws| - 1;
    var k := SetBitOf(ws[v]);
    assert (64 * v + k) / 64 == v && (64 * v + k) % 64 == k;
    assert 64 * v + k in SmallMembers(ws);
  }

  /** An open run without three words of room has no room word by word either. */
  lemma NoRoomForRun(ws: seq<Word>, n: nat, length: nat)
    requires OpenRun(ws, n) && length < 3
    ensures !StepsFit(SmallMembers(ws), 0, SMALL_MAX_BITS, length)
  {
    assert n > 0;
    assert SmallHas(ws, 0);
    assert 0 in SmallMembers(ws);
  }

  /** Writes a bare bitmap over whatever the buffer holds. */
  method PutBack(m: Map, f: Form)
    requires f.Small? && WfForm(f) && |Layout(f)| <= m.data.Length
    modifies m, m.data
    ensures m.Valid() && m.form == f && m.data == old(m.data)
  {
    hide WfForm, SmallHeader;
    SmallLayout(f);
    m.Store([SmallHeader(|f.words|)] + f.words);
    m.form := f;
  }

  /** The words one by one, after the buffer was emptied; the bitmap is put back when one does not fit. */
  method PromoteWords(m: Map, words: seq<Word>) returns (ok: bool)
    requires m.Valid() && m.form == Small(words) && WfForm(m.form)
    modifies m, m.data
    ensures m.Valid() && m.data == old(m.data)
    ensures ok ==> m.form.Chunked? && m.Strict() && m.used <= LOW_WORDS && m.Set() == old(m.Set())
    ensures ok ==> LowSparse(m.Chunks())
    ensures ok <==> StepsFit(SmallMembers(words), 0, SMALL_MAX_BITS, m.data.Length)
    ensures !ok ==> m.form == old(m.form)
    ensures LOW_WORDS + ROOM <= m.data.Length ==> ok
  {
    hide WfStream, AllFull, Members, SmallMembers, Layout, Low, WfForm, CountHeader, StepsFit, LowSparse;
    ghost var f := m.form;
    SmallForm(f);
    SmallWf(f);
    SmallBound(words);
    MovedLow(words, 0, ONES);
    m.Store([CountHeader(0)]);
    EmptyMap();
    m.form := Chunked([]);
    ok := MoveWords(m, words);
    if !ok {
      PutBack(m, Small(words));
      return;
    }
    ChunkedForm(m.form);
    UsedLow(m.form);
  }

  /** Rewrites a bare bitmap as a chunk stream with the same members; refuses, changing nothing, when it does not fit. */
  method Promote(m: Map) returns (ok: bool)
    requires m.Valid() && m.form.Small?
    modifies m, m.data
    ensures m.Valid() && m.data == old(m.data)
    ensures ok ==> m.form.Chunked? && m.Strict() && m.used <= LOW_WORDS && m.Set() == old(m.Set())
    ensures ok ==> m.form == Chunked(Promoted(old(m.form).words))
    ensures ok <==> RoomToPromote(old(m.form).words, m.data.Length)
    ensures !ok ==> m.form == old(m.form)
    ensures LOW_WORDS + ROOM <= m.data.Length ==> ok
    ensures ok && 3 <= m.data.Length && ShortRun(old(m.form).words) ==> StartsRle(m.form)
  {
    hide WfStream, AllFull, Members, Moved, SmallMembers, RunFromZero, ShortRun, StartsRle, Layout, Low, Has, SmallHas, WfForm, CountHeader, SmallHeader, OpenRun, StepsFit, LowSparse, Promoted, RoomToPromote;
    ghost var f := m.form;
    SmallForm(f);
    SmallWf(f);
    var words := SmallWords(m);
    SmallBound(words);
    var run, len := IsRunFromZero(words);
    ShortRunLength(words, run, len);
    OpenRunLength(words, run, len);
    if run && len % 64 != 0 {
      ok := PromoteRun(m, len, words);
      if ok {
        ChunkedForm(m.form);
        UsedLow(m.form);
        return;
      }
      NoRoomForRun(words, len, m.data.Length);
    }
    ok := PromoteWords(m, words);
    if ok {
      PromotedAs(m, words);
    }
  }

  /** What the recognised run, if there is one, means for the promotion. */
  lemma OpenRunLength(ws: seq<Word>, run: bool, len: nat)
    requires |ws| <= SMALL_MAX_WORDS
    requires run ==> len > 0 && RunFromZero(ws, len)
    requires !run ==> forall n: nat :: n > 0 ==> !RunFromZero(ws, n)
    ensures run && len % 64 != 0 ==> OpenRun(ws, len) && Promoted(ws) == [RleChunk(0, WINDOW, len)]
    ensures run && len % 64 != 0 ==> forall length: nat :: RoomToPromote(ws, length) <==> length >= 3
    ensures !(run && len % 64 != 0) ==> !exists n: nat :: OpenRun(ws, n)
    ensures !(run && len % 64 != 0) ==> forall length: nat :: RoomToPromote(ws, length) <==> StepsFit(SmallMembers(ws), 0, SMALL_MAX_BITS, length)
  {
    hide RleChunk, RunFromZero, StepsFit;
    if run && len % 64 != 0 {
      assert OpenRun(ws, len);
      forall n: nat | OpenRun(ws, n) ensures n == len {
        OpenRunUnique(ws, n, len);
      }
      OpenNotEmpty(ws, len);
    } else if n: nat :| OpenRun(ws, n) {
      OneRunLength(ws, n, len, run);
    }
  }

  lemma OpenNotEmpty(ws: seq<Word>, n: nat)
    requires OpenRun(ws, n)
    ensures ws != []
  {
    assert n > 0;
    assert SmallHas(ws, 0);
  }

  lemma OneRunLength(ws: seq<Word>, n: nat, len: nat, run: bool)
    requires OpenRun(ws, n) && (run ==> len > 0 && RunFromZero(ws, len)) && (!run ==> forall k: nat :: k > 0 ==> !RunFromZero(ws, k))
    ensures run && n == len
  {
    assert n > 0;
    assert RunFromZero(ws, n);
    assert SmallHas(ws, n - 1) && !SmallHas(ws, n);
    assert SmallHas(ws, len - 1) && !SmallHas(ws, len);
  }

  lemma PromotedAs(m: Map, ws: seq<Word>)
    requires m.Valid() && m.form.Chunked? && m.Strict() && LowSparse(m.Chunks()) && m.Set() == SmallMembers(ws)
    requires WfForm(Small(ws)) && !exists n: nat :: OpenRun(ws, n)
    ensures m.form == Chunked(Promoted(ws))
  {
    hide WfStream, AllFull, Members, SmallMembers, Layout, OpenRun, Promoted, LowSparse;
    ChunkedForm(m.form);
    ChunkedWf(m.Chunks());
    PromotedLow(ws, m.Chunks());
  }

  /** A short run is recognised, and its length is not a multiple of 64. */
  lemma ShortRunLength(ws: seq<Word>, run: bool, len: nat)
    requires run ==> len > 0 && RunFromZero(ws, len)
    requires !run ==> forall n: nat :: n > 0 ==> !RunFromZero(ws, n)
    ensures ShortRun(ws) ==> run && len % 64 != 0
  {
    if ShortRun(ws) {
      var n: nat :| 0 < n < 64 && RunFromZero(ws, n);
      assert SmallHas(ws, n - 1) && !SmallHas(ws, n);
      assert SmallHas(ws, len - 1) && !SmallHas(ws, len);
    }
  }

  lemma EmptyMap()
    ensures Layout(Chunked([])) == [CountHeader(0)] && WfForm(Chunked([])) && AllFull([]) && Members([]) == iset{}
  {
  }

  lemma UsedLow(f: Form)
    requires f.Chunked? && WfForm(f) && Low(Members(f.chunks))
    ensures |Layout(f)| <= LOW_WORDS
  {
    LowStream(f.chunks);
  }

  // ---- demotion -------------------------------------------------------------------------------

  /** The words of the run [0, len). */
  method RunOut(len: nat, n: nat) returns (out: seq<Word>)
    requires 0 < len && n == (len - 1) / 64 + 1
    ensures |out| == n && SmallMembers(out) == Range(0, len) && out[n - 1] != ZERO
  {
    out := Zeroes(n);
    var bit := 0;
    while bit < len
      invariant bit <= len && |out| == n
      invariant forall v, k :: 0 <= v < n && 0 <= k < 64 ==> out[v][k] == (64 * v + k < bit)
    {
      ghost var was := out;
      out := out[bit / 64 := SetBit(out[bit / 64], bit % 64)];
      SetNextBit(was, out, bit, n);
      bit := bit + 1;
    }
    RunBits(out, len);
    RunFromZeroSet(out, len);
    assert out[n - 1][(len - 1) % 64] && !ZERO[(len - 1) % 64];
  }

  lemma SetNextBit(out: seq<Word>, next: seq<Word>, bit: nat, n: nat)
    requires |out| == n && bit / 64 < n && next == out[bit / 64 := SetBit(out[bit / 64], bit % 64)]
    requires forall v, k :: 0 <= v < n && 0 <= k < 64 ==> out[v][k] == (64 * v + k < bit)
    ensures forall v, k :: 0 <= v < n && 0 <= k < 64 ==> next[v][k] == (64 * v + k < bit + 1)
  {
    forall v, k | 0 <= v < n && 0 <= k < 64 ensures next[v][k] == (64 * v + k < bit + 1) {
      SlotPlace(bit, v, k);
      assert next[v][k] == (out[v][k] || (v == bit / 64 && k == bit % 64));
    }
  }

  /** The highest word that is not zero. */
  method HighWord(ws: Window) returns (hi: nat)
    requires exists v :: 0 <= v < SLOTS && ws[v] != ZERO
    ensures hi < SLOTS && ws[hi] != ZERO && forall v :: hi < v < SLOTS ==> ws[v] == ZERO
  {
    hi := SLOTS - 1;
    while ws[hi] == ZERO
      invariant hi < SLOTS && forall v :: hi < v < SLOTS ==> ws[v] == ZERO
      decreases hi
    {
      hi := hi - 1;
    }
  }

  /** A window at 0 and its words without the zero words at the end have the same members. */
  lemma WindowAsSmall(ws: Window, n: nat)
    requires n <= SLOTS && forall v :: n <= v < SLOTS ==> ws[v] == ZERO
    ensures SmallMembers(ws[..n]) == WindowMembers(0, ws)
  {
    forall x: nat ensures x in SmallMembers(ws[..n]) <==> x in WindowMembers(0, ws) {
      if x / 64 < n {
        assert ws[..n][x / 64] == ws[x / 64];
      }
    }
  }

  /** Replaces the stream of a single low chunk by the bare bitmap `out`, when that takes no more words. */
  method BecomeSmall(m: Map, out: seq<Word>)
    requires m.Valid() && m.form.Chunked? && 1 + |out| <= m.used && |out| <= SMALL_MAX_WORDS
    requires out != [] && out[|out| - 1] != ZERO && SmallMembers(out) == Members(m.Chunks())
    modifies m, m.data
    ensures m.Valid() && m.form.Small? && m.data == old(m.data) && m.used <= old(m.used)
    ensures m.Set() == old(m.Set())
  {
    hide SmallMembers, Members, SmallHeader, FormMembers, WfForm, Layout;
    ChunkedForm(m.form);
    BitmapForm(out);
    m.Store([SmallHeader(|out|)] + out);
    m.form := Small(out);
    SmallForm(m.form);
  }

  lemma BitmapForm(out: seq<Word>)
    requires |out| <= SMALL_MAX_WORDS && (out != [] ==> out[|out| - 1] != ZERO)
    ensures WfForm(Small(out)) && Layout(Small(out)) == [SmallHeader(|out|)] + out
  {
  }

  /** ws is the bare bitmap of s. */
  ghost predicate IsBitmap(ws: seq<Word>, s: iset<nat>) {
    ws != [] && |ws| <= SMALL_MAX_WORDS && ws[|ws| - 1] != ZERO && SmallMembers(ws) == s
  }

  /** The set has a bare bitmap that takes no more than n words with its header. */
  ghost predicate BitmapFits(s: iset<nat>, n: nat) {
    exists ws :: IsBitmap(ws, s) && 1 + |ws| <= n
  }

  /** A form is kept in chunks only when its set has no bitmap that takes no more words. */
  ghost predicate Lean(f: Form) {
    f.Chunked? ==> !BitmapFits(FormMembers(f), |Layout(f)|)
  }

  lemma SmallLean(f: Form)
    requires f.Small?
    ensures Lean(f)
  {
  }

  /** A member too high for the small form, or for n words, rules a fitting bitmap out. */
  lemma TooHigh(s: iset<nat>, x: nat, n: nat)
    requires x in s && (x >= SMALL_MAX_BITS || 2 + x / 64 > n)
    ensures !BitmapFits(s, n)
  {
    forall ws | IsBitmap(ws, s) ensures 1 + |ws| > n {
      assert x in SmallMembers(ws);
    }
  }

  /** A bare bitmap that keeps no zero word at its end has a member. */
  lemma BitmapMember(s: iset<nat>, n: nat)
    ensures BitmapFits(s, n) ==> s != iset{}
  {
    if BitmapFits(s, n) {
      var ws :| IsBitmap(ws, s) && 1 + |ws| <= n;
      var v := |ws| - 1;
      var k := SetBitOf(ws[v]);
      assert (64 * v + k) / 64 == v && (64 * v + k) % 64 == k;
      assert 64 * v + k in SmallMembers(ws);
    }
  }

  lemma NoBitmapOfNothing(n: nat)
    ensures !BitmapFits(Members([]), n)
  {
    HasOne(RleChunk(0, 0, 0));
    BitmapMember(Members([]), n);
  }

  /** A chunk past the first window holds a member too high for the small form. */
  lemma HighChunk(cs: seq<Chunk>, i: nat, n: nat)
    requires WfStream(cs) && i < |cs| && (i > 0 || cs[i].start != 0)
    ensures !BitmapFits(Members(cs), n)
  {
    hide BitmapFits, Members;
    StartsAscend(cs, i);
    if i == 0 {
      AlignedConstants();
      AlignedStep(0, cs[0].start);
    }
    var x := FirstMember(cs, i);
    TooHigh(Members(cs), x, n);
  }

  lemma HighSlot(ws: Window, hi: nat, n: nat)
    requires hi < SLOTS && ws[hi] != ZERO && (hi >= SMALL_MAX_WORDS || 2 + hi > n)
    ensures !BitmapFits(WindowMembers(0, ws), n)
  {
    hide BitmapFits;
    var k := SetBitOf(ws[hi]);
    var x := 64 * hi + k;
    assert x / 64 == hi && x % 64 == k;
    TooHigh(WindowMembers(0, ws), x, n);
  }

  lemma HighRun(len: nat, n: nat)
    requires len > 0 && (len > SMALL_MAX_BITS || 2 + (len - 1) / 64 > n)
    ensures !BitmapFits(Range(0, len), n)
  {
    hide BitmapFits;
    assert len - 1 in Range(0, len);
    TooHigh(Range(0, len), len - 1, n);
  }

  lemma BitmapFound(ws: seq<Word>, s: iset<nat>, n: nat)
    requires IsBitmap(ws, s) && 1 + |ws| <= n
    ensures BitmapFits(s, n)
  {
  }

  /** Turns a chunk-mode map that holds only low indices into a bare bitmap, unless that takes more words. */
  method TryDemote(m: Map)
    requires m.Valid()
    modifies m, m.data
    ensures m.Valid() && (old(m.Strict()) ==> m.Strict()) && m.data == old(m.data) && m.used <= old(m.used)
    ensures m.Set() == old(m.Set())
    ensures m.form.Small? <==> old(m.form).Small? || BitmapFits(old(m.Set()), old(m.used))
    ensures m.form.Chunked? ==> m.form == old(m.form) && m.used == old(m.used)
    ensures Lean(m.form)
  {
    hide WfStream, AllFull, Members, SmallMembers, Layout, Has, SmallHas, WindowMembers, ChunkMembers, Range, Expand, BitmapFits;
    if m.IsSmall() {
      return;
    }
    ghost var cs := m.Chunks();
    var count := m.Count();
    ChunkedForm(m.form);
    if count != 1 {
      if count == 0 {
        NoBitmapOfNothing(m.used);
      } else {
        HighChunk(cs, 1, m.used);
      }
      return;
    }
    OffZero(cs);
    var c := m.Load(1, 0);
    if c.start != 0 {
      HighChunk(cs, 0, m.used);
      return;
    }
    OneOfThem(cs, 0);
    assert cs == [c];
    HasOne(c);
    if IsRle(c.desc) {
      RleMembersAt(c);
      var len := RleLen(c.desc);
      if len > SMALL_MAX_BITS {
        HighRun(len, m.used);
        return;
      }
      var n := (len - 1) / 64 + 1;
      if 1 + n > m.used {
        HighRun(len, m.used);
        return;
      }
      var out := RunOut(len, n);
      BitmapFound(out, m.Set(), m.used);
      BecomeSmall(m, out);
      return;
    }
    SparseShape(c);
    var ws, caps := ExpandChunk(c);
    var hi := HighWord(ws);
    SparseMembers(c);
    if hi >= SMALL_MAX_WORDS {
      HighSlot(ws, hi, m.used);
      return;
    }
    var n := hi + 1;
    if 1 + n > m.used {
      HighSlot(ws, hi, m.used);
      return;
    }
    WindowAsSmall(ws, n);
    BitmapFound(ws[..n], m.Set(), m.used);
    BecomeSmall(m, ws[..n]);
  }

  lemma OffZero(cs: seq<Chunk>)
    ensures Off(cs, 0) == 0
  {
    StreamEnds(cs);
  }

  lemma RleMembersAt(c: Chunk)
    requires WfRle(c) && c.start == 0
    ensures ChunkMembers(c) == Range(0, RleLen(c.desc)) && RleLen(c.desc) > 0
  {
  }

  lemma SparseShape(c: Chunk)
    requires WfSparse(c)
    ensures Shaped(c) && exists v :: 0 <= v < SLOTS && Expand(c)[v] != ZERO
  {
    SparseCanonical(c);
  }

  // ---- the add path ---------------------------------------------------------------------------

  /** The words the low chunk of a bare bitmap takes: one payload word per mixed word, none for a run from bit 0. */
  ghost function LowChunkWords(ws: seq<Word>): nat {
    if exists len: nat :: len > 0 && RunFromZero(ws, len) then 3 else 3 + MixedWords(ws)
  }

  method ChunkCost(ws: seq<Word>) returns (n: nat)
    requires |ws| <= SMALL_MAX_WORDS
    ensures n == LowChunkWords(ws)
  {
    var mixed := 0;
    for i := 0 to |ws|
      invariant mixed == MixedWords(ws[..i])
    {
      assert ws[..i + 1][..i] == ws[..i];
      if ws[i] != ZERO && ws[i] != ONES {
        mixed := mixed + 1;
      }
    }
    assert ws[..|ws|] == ws;
    var run, len := IsRunFromZero(ws);
    n := 3 + mixed;
    if run && len <= RLE_MAX {
      n := 3;
    }
    if run {
      RunShort(ws, len);
    }
  }

  lemma RunShort(ws: seq<Word>, len: nat)
    requires len > 0 && RunFromZero(ws, len)
    ensures len <= 64 * |ws|
  {
    assert SmallHas(ws, len - 1);
  }

  function MixedWords(ws: seq<Word>): nat {
    if ws == [] then 0
    else MixedWords(ws[..|ws| - 1]) + if ws[|ws| - 1] != ZERO && ws[|ws| - 1] != ONES then 1 else 0
  }

  lemma {:induction false} MixedArePartial(ws: seq<Word>, n: nat)
    requires n <= |ws|
    ensures MixedWords(ws[..n]) == PartialSlots(SmallMembers(ws), 0, n)
  {
    hide AllOf, NoneOf, SmallMembers;
    if n > 0 {
      MixedArePartial(ws, n - 1);
      assert ws[..n][..n - 1] == ws[..n - 1];
      WordSlot(ws, n - 1);
    }
  }

  lemma WordSlot(ws: seq<Word>, v: nat)
    requires v < |ws|
    ensures AllOf(SmallMembers(ws), 64 * v) <==> ws[v] == ONES
    ensures NoneOf(SmallMembers(ws), 64 * v) <==> ws[v] == ZERO
  {
    hide SmallMembers;
    SolidWord(ws[v]);
    WordPoints(ws, v);
    assert AllOf(SmallMembers(ws), 64 * v) <==> forall k :: 0 <= k < 64 ==> ws[v][k];
    assert NoneOf(SmallMembers(ws), 64 * v) <==> forall k :: 0 <= k < 64 ==> !ws[v][k];
  }

  lemma WordPoints(ws: seq<Word>, v: nat)
    requires v < |ws|
    ensures forall k :: 0 <= k < 64 ==> (64 * v + k in SmallMembers(ws) <==> ws[v][k])
    ensures forall x: nat :: 64 * v <= x < 64 * v + 64 ==> (x in SmallMembers(ws) <==> ws[v][x - 64 * v])
  {
    forall k | 0 <= k < 64 ensures 64 * v + k in SmallMembers(ws) <==> ws[v][k] {
      assert (64 * v + k) / 64 == v && (64 * v + k) % 64 == k;
    }
    forall x: nat | 64 * v <= x < 64 * v + 64 ensures x in SmallMembers(ws) <==> ws[v][x - 64 * v] {
      assert x / 64 == v && x % 64 == x - 64 * v;
    }
  }

  lemma {:induction false} NoPartialAbove(s: iset<nat>, start: nat, n: nat, k: nat)
    requires n <= k && forall x: nat :: start + 64 * n <= x < start + 64 * k ==> x !in s
    ensures PartialSlots(s, start, k) == PartialSlots(s, start, n)
    decreases k
  {
    if n < k {
      NoPartialAbove(s, start, n, k - 1);
      assert NoneOf(s, start + 64 * (k - 1));
    }
  }

  lemma {:induction false} NoPartialInRun(n: nat, k: nat)
    requires n % 64 == 0
    ensures PartialSlots(Range(0, n), 0, k) == 0
  {
    if k > 0 {
      NoPartialInRun(n, k - 1);
      if 64 * k <= n {
        assert AllOf(Range(0, n), 64 * (k - 1));
      } else {
        assert NoneOf(Range(0, n), 64 * (k - 1));
      }
    }
  }

  /** The cost computed from the bitmap is what its chunks take. */
  lemma CostIsPromoted(ws: seq<Word>)
    requires WfForm(Small(ws)) && ws != []
    ensures LowChunkWords(ws) == |Layout(Chunked(Promoted(ws)))|
  {
    hide RunFromZero, SmallMembers, PartialSlots, FullChunk, RleChunk, WfChunk, MixedWords, WfForm;
    SmallWf(Small(ws));
    var cs := Promoted(ws);
    LayoutLength(cs);
    StreamOne(cs[0]);
    if exists n: nat :: OpenRun(ws, n) {
      var n: nat :| OpenRun(ws, n) && cs == [RleChunk(0, WINDOW, n)];
      PositiveRun(ws, n);
      RleTwo(0, WINDOW, n);
    } else {
      PadChunk(ws);
      SparseWords(cs[0]);
      NoPartialAbove(SmallMembers(ws), 0, |ws|, SLOTS) by {
        SmallBound(ws);
      }
      if n: nat :| n > 0 && RunFromZero(ws, n) {
        RunFromZeroSet(ws, n);
        assert !OpenRun(ws, n);
        NoPartialInRun(n, |ws|);
      } else {
        MixedArePartial(ws, |ws|);
        assert ws[..|ws|] == ws;
      }
    }
  }

  lemma PositiveRun(ws: seq<Word>, n: nat)
    requires OpenRun(ws, n)
    ensures n > 0 && RunFromZero(ws, n)
  {
  }

  lemma RleTwo(start: nat, cap: nat, len: nat)
    ensures |Enc(RleChunk(start, cap, len))| == 2
  {
  }

  lemma PadChunk(ws: seq<Word>)
    requires WfForm(Small(ws)) && ws != []
    ensures var c := FullChunk(0, PadWords(ws));
      WfSparse(c) && c.start == 0 && ChunkMembers(c) == SmallMembers(ws)
  {
    hide FullChunk, SmallMembers;
    PadMembers(ws);
    assert PadWords(ws)[|ws| - 1] != ZERO;
    AlignedConstants();
    FullChunkWf(0, PadWords(ws));
    FullChunkMembers(0, PadWords(ws));
    LoneStart(0, PadWords(ws));
  }

  /** A set has one bitmap. */
  lemma BitmapUnique(a: seq<Word>, b: seq<Word>, s: iset<nat>)
    requires IsBitmap(a, s) && IsBitmap(b, s)
    ensures a == b
  {
    hide SmallMembers;
    BitmapLength(a, b, s);
    BitmapLength(b, a, s);
    forall v | 0 <= v < |a| ensures a[v] == b[v] {
      WordPoints(a, v);
      WordPoints(b, v);
      WordExt(a[v], b[v]);
    }
  }

  lemma BitmapLength(a: seq<Word>, b: seq<Word>, s: iset<nat>)
    requires IsBitmap(a, s) && IsBitmap(b, s)
    ensures |a| <= |b|
  {
    hide SmallMembers;
    var v := |a| - 1;
    var k := SetBitOf(a[v]);
    WordPoints(a, v);
    assert 64 * v + k in s;
    SmallBound(b);
  }

  /** The form of the smaller size: the bitmap unless the chunks take less and there is room to lay them out. */
  ghost predicate Smaller(f: Form, s: iset<nat>, length: nat) {
    forall ws :: IsBitmap(ws, s) ==>
      f == if 1 + |ws| <= |Layout(Chunked(Promoted(ws)))| || !RoomToPromote(ws, length) then Small(ws) else Chunked(Promoted(ws))
  }

  lemma NowSmaller(f: Form, ws: seq<Word>, s: iset<nat>, length: nat)
    requires IsBitmap(ws, s)
    requires f == if 1 + |ws| <= |Layout(Chunked(Promoted(ws)))| || !RoomToPromote(ws, length) then Small(ws) else Chunked(Promoted(ws))
    ensures Smaller(f, s, length)
  {
    hide IsBitmap, RoomToPromote, Promoted, Layout;
    forall w | IsBitmap(w, s) ensures w == ws {
      BitmapUnique(w, ws, s);
    }
  }

  /** Room that lets any single addition through: the low chunk of a promoted map and one more change. */
  const HEADROOM: nat := LOW_WORDS + ROOM

  /**
   * The room that adding idx to a map of the given form needs.  A bitmap has it for a word in use
   * or one that fits; a bitmap that idx is too high for must be promoted first, and the chunks it
   * is promoted to must then have room to set idx.
   */
  ghost predicate RoomToAdd(f: Form, idx: nat, length: nat) {
    match f
    case Small(ws) =>
      if idx < SMALL_MAX_BITS then idx / 64 < |ws| || 2 + idx / 64 <= length
      else
        && |ws| <= SMALL_MAX_WORDS && RoomToPromote(ws, length)
        && RoomToSet(Promoted(ws), idx, length - |Layout(Chunked(Promoted(ws)))|)
    case Chunked(cs) =>
      if cs == [] && idx < SMALL_MAX_BITS then 2 + idx / 64 <= length
      else RoomToSet(cs, idx, length - |Layout(f)|)
  }

  /** No two neighbouring chunks could be merged. */
  ghost predicate Compacted(f: Form) {
    f.Chunked? ==> NoneJoin(f.chunks, |f.chunks|)
  }

  lemma PromotedCompacted(ws: seq<Word>)
    requires |ws| <= SMALL_MAX_WORDS
    ensures Compacted(Chunked(Promoted(ws)))
  {
    hide IsRunLength, FullChunk, RleChunk, OpenRun;
  }

  /** The bare-bitmap arm: add in place, then keep the smaller of the two forms. */
  method AddLow(m: Map, idx: nat) returns (ok: bool)
    requires m.Valid() && (m.form.Small? || m.form == Chunked([])) && idx < SMALL_MAX_BITS
    modifies m, m.data
    ensures m.Valid() && m.Strict() && m.data == old(m.data)
    ensures m.Set() == if ok then old(m.Set()) + iset{idx} else old(m.Set())
    ensures ok <==> RoomToAdd(old(m.form), idx, m.data.Length)
    ensures ok ==> Smaller(m.form, m.Set(), m.data.Length)
    ensures Compacted(m.form) && (ok ==> Lean(m.form))
    ensures HEADROOM <= m.data.Length ==> ok
    ensures HEADROOM <= m.data.Length && m.form.Small? ==> 1 + |m.form.words| <= LowChunkWords(m.form.words)
    ensures !ok || InTwoWords(m.Set()) ==> m.form.Small?
  {
    hide NoneJoin, WfStream, AllFull, SmallMembers, Members, Layout, Has, SmallHas, SmallHeader, RunFromZero, MixedWords, LowChunkWords, WfForm, RoomToPromote, RoomToSet, Promoted, Smaller, IsBitmap;
    ghost var was := m.Set();
    if !m.IsSmall() {
      EmptyMap();
      ChunkedForm(m.form);
      EmptySmall();
      m.Store([SmallHeader(0)]);
      m.form := Small([]);
    }
    SmallForm(m.form);
    ok := SmallAdd(m, idx);
    SmallForm(m.form);
    if !ok {
      return;
    }
    SmallWf(m.form);
    var words := SmallWords(m);
    var cost := ChunkCost(words);
    TwoWords(m.form);
    NowBitmap(words, m.Set(), idx);
    CostIsPromoted(words);
    if 1 + |words| > cost {
      var _ := Promote(m);
    }
    PromotedCompacted(words);
    NowSmaller(m.form, words, m.Set(), m.data.Length);
    NowLean(m.form, words);
  }

  lemma NowLean(f: Form, ws: seq<Word>)
    requires IsBitmap(ws, FormMembers(f)) && (f.Chunked? ==> 1 + |ws| > |Layout(f)|)
    ensures Lean(f)
  {
    hide IsBitmap, Layout, FormMembers;
    forall w | IsBitmap(w, FormMembers(f)) ensures w == ws {
      BitmapUnique(w, ws, FormMembers(f));
    }
  }

  lemma NowBitmap(ws: seq<Word>, s: iset<nat>, idx: nat)
    requires WfForm(Small(ws)) && SmallMembers(ws) == s && idx in s
    ensures ws != [] && IsBitmap(ws, s)
  {
    SmallBound(ws);
  }

  lemma {:induction false} PartialAt(s: iset<nat>, start: nat, v: nat, n: nat)
    requires v < n && !AllOf(s, start + 64 * v) && !NoneOf(s, start + 64 * v)
    ensures PartialSlots(s, start, n) >= 1
    decreases n
  {
    if v < n - 1 {
      PartialAt(s, start, v, n - 1);
    }
  }

  /** The bitmap of [0, 192) and two indices of the next word. */
  function ThreeFull(): seq<Word> {
    [ONES, ONES, ONES, SetBit(SetBit(ZERO, 1), 3)]
  }

  /** Chunks that take fewer words need not fit: five words of bitmap, four of chunks, and no room in six. */
  lemma PromotionExample()
    ensures var ws := ThreeFull();
      && WfForm(Small(ws)) && |Layout(Small(ws))| == 5 && |Layout(Chunked(Promoted(ws)))| == 4
      && !RoomToPromote(ws, 6)
  {
    hide Promoted, LowChunkWords, RoomToPromote, PartialSlots, SmallMembers, Layout;
    var ws, last := ThreeFull(), SetBit(SetBit(ZERO, 1), 3);
    assert last[1] && last[3] && !last[0] && !last[2] && !ZERO[1] && ONES[0];
    assert last != ZERO && last != ONES;
    SmallLayout(Small(ws));
    CostIsPromoted(ws);
    WordPoints(ws, 3);
    var s := SmallMembers(ws);
    assert 193 in s && 195 in s && 192 !in s;
    NoRunHere(ws);
    ThreeCost(ws, last);
    var t := Before(s, 195);
    assert 193 in t && 192 !in t;
    assert !AllOf(t, 0 + 64 * 3) && !NoneOf(t, 0 + 64 * 3);
    PartialAt(t, 0, 3, SLOTS);
    assert LowWords(t) + 3 > 6;
    assert !StepsFit(s, 0, SMALL_MAX_BITS, 6);
    RoomWithoutRun(ws, 6);
  }

  lemma NoRunHere(ws: seq<Word>)
    requires 193 in SmallMembers(ws) && 192 !in SmallMembers(ws)
    ensures forall n: nat :: !RunFromZero(ws, n)
  {
    assert SmallHas(ws, 193) && !SmallHas(ws, 192);
  }

  lemma ThreeCost(ws: seq<Word>, last: Word)
    requires ws == [ONES, ONES, ONES, last] && last != ZERO && last != ONES && forall n: nat :: !RunFromZero(ws, n)
    ensures LowChunkWords(ws) == 4
  {
    hide RunFromZero;
    assert ws[..3] == [ONES, ONES, ONES] && [ONES, ONES, ONES][..2] == [ONES, ONES] && [ONES, ONES][..1] == [ONES];
    assert MixedWords([ONES]) == 0;
    assert MixedWords([ONES, ONES]) == 0;
    assert MixedWords([ONES, ONES, ONES]) == 0;
  }

  lemma RoomWithoutRun(ws: seq<Word>, length: nat)
    requires forall n: nat :: !RunFromZero(ws, n)
    ensures RoomToPromote(ws, length) <==> StepsFit(SmallMembers(ws), 0, SMALL_MAX_BITS, length)
  {
    hide StepsFit, RunFromZero;
  }

  /** All members lie in the first two words of a bitmap. */
  ghost predicate InTwoWords(s: iset<nat>) {
    forall x: nat :: x in s ==> x < 128
  }

  /** Such a bitmap is never larger than its chunk form. */
  lemma TwoWords(f: Form)
    requires f.Small? && WfForm(f)
    ensures InTwoWords(FormMembers(f)) ==> |f.words| <= 2
    ensures LowChunkWords(f.words) >= 3
  {
    var ws := f.words;
    if |ws| > 2 {
      var v := |ws| - 1;
      var k := SetBitOf(ws[v]);
      assert (64 * v + k) / 64 == v && (64 * v + k) % 64 == k;
      assert 64 * v + k in FormMembers(f);
    }
  }

  ghost predicate SmallOrEmpty(f: Form) {
    f.Small? || f == Chunked([])
  }

  lemma EmptySmall()
    ensures Layout(Small([])) == [SmallHeader(0)] && WfForm(Small([])) && SmallMembers([]) == iset{}
  {
  }

  /** Adds idx, whatever form the map is in; refuses, keeping the set, when the buffer has no room. */
  method Add(m: Map, idx: nat) returns (ok: bool)
    requires m.Valid() && m.Strict() && idx < TOP && ShortRuns(m.Set() + iset{idx})
    modifies m, m.data
    ensures m.Valid() && m.Strict() && m.data == old(m.data)
    ensures m.Set() == if ok then old(m.Set()) + iset{idx} else old(m.Set())
    ensures ok <==> RoomToAdd(old(m.form), idx, m.data.Length)
    ensures ok && SmallOrEmpty(old(m.form)) && idx < SMALL_MAX_BITS ==> Smaller(m.form, m.Set(), m.data.Length)
    ensures Compacted(old(m.form)) ==> Compacted(m.form)
    ensures ok ==> Lean(m.form)
    ensures old(m.used) + ROOM <= m.data.Length && HEADROOM <= m.data.Length ==> ok
    ensures SmallOrEmpty(old(m.form)) && idx < 128 && (!ok || InTwoWords(m.Set())) ==> m.form.Small?
  {
    hide NoneJoin, WfStream, AllFull, SmallMembers, Members, Layout, Has, SmallHas, SmallHeader, ShortRuns, InTwoWords, RoomToPromote, RoomToSet, Promoted, Smaller;
    var small := m.IsSmall();
    var empty := false;
    if !small {
      var n := m.Count();
      empty := n == 0;
      assert n == 0 ==> m.form == Chunked([]);
    }
    if (small || empty) && idx < SMALL_MAX_BITS {
      ok := AddLow(m, idx);
      return;
    }
    if small {
      SmallWf(m.form);
      PromotedCompacted(m.form.words);
      ok := Promote(m);
      if !ok {
        return;
      }
    }
    ChunkedForm(m.form);
    ok := MapSet(m, idx, true);
    ChunkedForm(m.form);
    if ok {
      TryDemote(m);
    }
  }

  /** Adds idx, growing the buffer once when it has no room: twice the capacity, at least 512 words. */
  method AddGrow(m: Map, idx: nat)
    requires m.Valid() && m.Strict() && idx < TOP && ShortRuns(m.Set() + iset{idx})
    modifies m, m.data
    ensures m.Valid() && m.Strict()
    ensures m.Set() == old(m.Set()) + iset{idx}
    ensures (Compacted(old(m.form)) ==> Compacted(m.form)) && Lean(m.form)
    ensures m.data == old(m.data) <==> RoomToAdd(old(m.form), idx, old(m.data.Length))
    ensures m.data == old(m.data) || (fresh(m.data) && m.data.Length == if 2 * old(m.data.Length) < 512 then 512 else 2 * old(m.data.Length))
    ensures SmallOrEmpty(old(m.form)) && idx < 128 && InTwoWords(m.Set()) ==> m.form.Small?
  {
    hide Compacted, WfForm, FormHas, Layout, ShortRuns, InTwoWords, RoomToAdd, Smaller;
    var ok := Add(m, idx);
    if ok {
      return;
    }
    var cap := m.data.Length * 2;
    if cap < 512 {
      cap := 512;
    }
    m.Grow(cap);
    ok := Add(m, idx);
  }
}
