// sm_rank, sm_select and sm_span for set bits.
module Ranks {
  import opened Words
  import opened Chunks
  import opened Streams
  import opened Maps
  import opened Locate
  import opened Setting
  import opened Slots
  import opened Small
  import opened Adding
  import opened SetOps
  import opened Runs
  import opened Sweeps
  import opened Lookups
  import opened Counting
  import opened Offset

  // ---- bits of a word ----------------------------------------------------------------------------

  method PopCount(w: Word) returns (n: nat)
    ensures n == BitCount(w)
  {
    n := 0;
    for k := 0 to 64
      invariant n == OnesBelow(w, k)
    {
      if w[k] {
        n := n + 1;
      }
    }
  }

  /** The bits of a word, seen as members from base on. */
  ghost predicate Holds(w: Word, s: iset<nat>, base: nat) {
    forall k :: 0 <= k < 64 ==> (w[k] <==> base + k in s)
  }

  lemma {:induction false} OnesCount(w: Word, s: iset<nat>, base: nat, n: nat)
    requires Holds(w, s, base) && n <= 64
    ensures OnesBelow(w, n) == Count(s, base, base + n)
  {
    if n > 0 {
      OnesCount(w, s, base, n - 1);
    }
  }

  /** The bits [from, to] of a word, counted under a mask. */
  lemma MaskedCount(w: Word, mw: Word, s: iset<nat>, base: nat, from: nat, to: nat)
    requires Holds(w, s, base) && to < 64 && forall k :: 0 <= k < 64 ==> mw[k] == (w[k] && from <= k <= to)
    requires from <= to + 1
    ensures BitCount(mw) == Count(s, base + from, base + to + 1)
  {
    hide Count, OnesBelow;
    var part := iset x: nat | x in s && base + from <= x <= base + to;
    assert Holds(mw, part, base) by {
      forall k | 0 <= k < 64 ensures mw[k] <==> base + k in part {
        assert w[k] <==> base + k in s;
      }
    }
    OnesCount(mw, part, base, 64);
    CountSplit(part, base, base + from, base + 64);
    CountSplit(part, base + from, base + to + 1, base + 64);
    CountNone(part, base, base + from);
    CountNone(part, base + to + 1, base + 64);
    CountSame(part, s, base + from, base + to + 1);
  }

  /** The mask of the bits from `from` up, none for 64 and more. */
  function FromMask(from: nat): Word {
    HighMask(from)
  }

  // ---- one chunk ------------------------------------------------------------------------------------

  /** The number of members of the chunk at distances [from, to] from its start. */
  method ChunkRank(c: Chunk, from: nat, to: nat) returns (amt: nat)
    requires WfChunk(c) && Full(c) && from <= to < Cap(c)
    ensures amt == Count(ChunkMembers(c), c.start + from, c.start + to + 1)
  {
    hide Count;
    if IsRle(c.desc) {
      var end := RleLen(c.desc) - 1;
      RleCounted(c, from, to);
      amt := 0;
      if from <= end {
        amt := (if to > end then end else to) - from + 1;
      }
      return;
    }
    CapWindow(c);
    amt := SparseRank(c, from, to);
  }

  lemma CapWindow(c: Chunk)
    requires WfChunk(c) && !IsRle(c.desc)
    ensures Cap(c) <= WINDOW && WfSparse(c)
  {
  }

  lemma RleCounted(c: Chunk, from: nat, to: nat)
    requires WfChunk(c) && IsRle(c.desc) && from <= to
    ensures var end := RleLen(c.desc) - 1;
      Count(ChunkMembers(c), c.start + from, c.start + to + 1) == if from <= end then (if to > end then end else to) - from + 1 else 0
  {
    hide Count;
    var s, len := ChunkMembers(c), RleLen(c.desc);
    if from >= len {
      CountNone(s, c.start + from, c.start + to + 1);
    } else if to >= len {
      CountSplit(s, c.start + from, c.start + len, c.start + to + 1);
      CountAll(s, c.start + from, c.start + len);
      CountNone(s, c.start + len, c.start + to + 1);
    } else {
      CountAll(s, c.start + from, c.start + to + 1);
    }
  }

  /** Slot by slot, with from and to counted from the current slot. */
  method SparseRank(c: Chunk, from0: nat, to0: nat) returns (amt: nat)
    requires WfSparse(c) && Full(c) && from0 <= to0 < WINDOW
    ensures amt == Count(ChunkMembers(c), c.start + from0, c.start + to0 + 1)
  {
    hide Count, ChunkMembers, FlagAt, WfSparse, MixedIn, BitCount;
    ghost var s := ChunkMembers(c);
    var from, to := from0, to0;
    amt := 0;
    CountNone(s, c.start + from0, c.start + from0);
    for v := 0 to SLOTS
      invariant to == to0 - 64 * v && from == (if from0 > 64 * v then from0 - 64 * v else 0) && from <= to
      invariant amt == Count(s, c.start + from0, if 64 * v > from0 then c.start + 64 * v else c.start + from0)
    {
      var base := c.start + 64 * v;
      SlotMembers(c, v);
      var f := FlagAt(c.desc, v);
      RankSlot(s, c.start + from0, base, from, to, amt);
      if to >= 64 {
        to := to - 64;
        if f == Ones {
          if from < 64 {
            amt := amt + 64 - from;
          }
        } else if f == Mixed {
          MixedBound(c, v);
          var pos := Position(c.desc, v);
          var mw := And(c.vecs[pos], FromMask(from));
          RankMask(c.vecs[pos], mw, s, base, from, 63);
          var pc := PopCount(mw);
          amt := amt + pc;
        }
        from := if from >= 64 then from - 64 else 0;
      } else {
        if f == Ones {
          amt := amt + to + 1 - from;
        } else if f == Mixed {
          MixedBound(c, v);
          var pos := Position(c.desc, v);
          var mw := And(And(c.vecs[pos], LowMask(to + 1)), FromMask(from));
          RankMask(c.vecs[pos], mw, s, base, from, to);
          var pc := PopCount(mw);
          amt := amt + pc;
        }
        return;
      }
    }
  }

  /** What one slot adds, for the three kinds of slot. */
  lemma RankSlot(s: iset<nat>, lo: nat, base: nat, from: nat, to: nat, amt: nat)
    requires from <= to && (base > lo ==> from == 0) && (base <= lo ==> lo == base + from)
    requires amt == Count(s, lo, if base > lo then base else lo)
    ensures var end := if to >= 64 then base + 64 else base + to + 1;
      && (end > lo ==> Count(s, lo, end) == amt + Count(s, base + from, end))
      && (end <= lo ==> amt == Count(s, lo, lo) && from >= 64)
      && ((forall x: nat :: base <= x < base + 64 ==> x !in s) && end > lo ==> Count(s, base + from, end) == 0)
      && ((forall x: nat :: base <= x < base + 64 ==> x in s) && end > lo ==> Count(s, base + from, end) == end - (base + from))
  {
    hide Count;
    var end := if to >= 64 then base + 64 else base + to + 1;
    if end > lo {
      CountSplit(s, lo, base + from, end);
      if forall x: nat :: base <= x < base + 64 ==> x !in s {
        CountNone(s, base + from, end);
      }
      if forall x: nat :: base <= x < base + 64 ==> x in s {
        CountAll(s, base + from, end);
      }
    }
  }

  lemma RankMask(w: Word, mw: Word, s: iset<nat>, base: nat, from: nat, to: nat)
    requires forall k :: 0 <= k < 64 ==> (w[k] <==> base + k in s)
    requires to < 64 && forall k :: 0 <= k < 64 ==> mw[k] == (w[k] && from <= k <= to)
    ensures from <= to + 1 ==> BitCount(mw) == Count(s, base + from, base + to + 1)
    ensures from > to ==> BitCount(mw) == 0
  {
    hide Count, OnesBelow;
    if from <= to + 1 {
      MaskedCount(w, mw, s, base, from, to);
    }
    if from > to {
      OnesCount(mw, iset{}, base, 64);
      CountNone(iset{}, base, base + 64);
    }
  }

  // ---- a whole stream -----------------------------------------------------------------------------

  /** The members of the first i chunks and those of the rest lie apart. */
  lemma PrefixCount(cs: seq<Chunk>, i: nat, lo: nat, hi: nat)
    requires WfStream(cs) && i < |cs|
    ensures Count(Members(cs[..i + 1]), lo, hi) == Count(Members(cs[..i]), lo, hi) + Count(ChunkMembers(cs[i]), lo, hi)
  {
    hide Count, WfChunk;
    assert cs[..i + 1] == cs[..i] + [cs[i]];
    HasConcat(cs[..i], [cs[i]]);
    HasOne(cs[i]);
    CountSum(Members(cs[..i]), ChunkMembers(cs[i]), lo, hi);
    Apartness(cs, i);
    CountNone(Members(cs[..i]) * ChunkMembers(cs[i]), lo, hi);
  }

  lemma Apartness(cs: seq<Chunk>, i: nat)
    requires WfStream(cs) && i < |cs|
    ensures Members(cs[..i]) * ChunkMembers(cs[i]) == iset{}
  {
    hide WfChunk, ChunkHas, Span;
    forall x: nat | x in Members(cs[..i]) ensures x !in ChunkMembers(cs[i]) {
      var j :| 0 <= j < |cs[..i]| && ChunkHas(cs[..i][j], x);
      OneOfThem(cs, j);
      OneOfThem(cs, i);
      ChunkHasBound(cs[j], x);
      if ChunkHas(cs[i], x) {
        ChunkHasBound(cs[i], x);
      }
    }
  }

  /** Only the overlap of a range with a chunk's span counts. */
  lemma OverlapCount(c: Chunk, lo: nat, hi: nat, from: nat, to: nat)
    requires WfChunk(c) && Cap(c) == Span(c)
    requires from == (if lo > c.start then lo else c.start) && to == (if hi < c.start + Cap(c) - 1 then hi else c.start + Cap(c) - 1)
    requires from <= to
    ensures Count(ChunkMembers(c), lo, hi + 1) == Count(ChunkMembers(c), from, to + 1)
  {
    hide Count, WfRle, WfSparse, ChunkHas, Span;
    var s := ChunkMembers(c);
    ChunkRange(c);
    CountSplit(s, lo, from, hi + 1);
    CountSplit(s, from, to + 1, hi + 1);
    CountNone(s, lo, from);
    CountNone(s, to + 1, hi + 1);
  }

  lemma ChunkRange(c: Chunk)
    requires WfChunk(c)
    ensures forall x: nat :: x in ChunkMembers(c) ==> c.start <= x < c.start + Cap(c) && x < c.start + Span(c)
  {
    forall x: nat | x in ChunkMembers(c) ensures c.start <= x < c.start + Cap(c) && x < c.start + Span(c) {
      ChunkHasBound(c, x);
    }
  }

  lemma OutsideCount(c: Chunk, lo: nat, hi: nat)
    requires WfChunk(c) && (c.start + Cap(c) <= lo || hi <= c.start)
    ensures Count(ChunkMembers(c), lo, hi) == 0
  {
    hide Count, WfRle, WfSparse, ChunkHas, Span, Cap;
    ChunkRange(c);
    CountNone(ChunkMembers(c), lo, hi);
  }

  /** Chunks that start past the range add nothing. */
  lemma RestCount(cs: seq<Chunk>, i: nat, lo: nat, hi: nat)
    requires WfStream(cs) && i <= |cs| && (i < |cs| ==> hi <= cs[i].start)
    ensures Count(Members(cs), lo, hi) == Count(Members(cs[..i]), lo, hi)
  {
    hide Count, WfChunk, Members, ChunkHas;
    assert cs == cs[..i] + cs[i..];
    HasConcat(cs[..i], cs[i..]);
    SuffixStart(cs, i);
    CountSame(Members(cs), Members(cs[..i]), lo, hi);
  }

  lemma WholePrefix(cs: seq<Chunk>)
    ensures cs[..|cs|] == cs && cs[..0] == [] && Members([]) == iset{}
  {
  }

  /** The number of members in [begin, end]. */
  method RankVec(m: Map, begin: nat, end: nat) returns (n: nat)
    requires m.Valid() && m.form.Chunked? && m.Strict()
    ensures n == if begin > end then 0 else Count(Members(m.Chunks()), begin, end + 1)
  {
    hide Count, Layout, WfStream, AllFull, Members, ChunkMembers, Off, Cap, Span, WfChunk;
    if begin > end {
      return 0;
    }
    ghost var cs := m.Chunks();
    var count := m.Count();
    var p := 1;
    n := 0;
    WholePrefix(cs);
    StreamEnds(cs);
    CountNone(Members([]), begin, end + 1);
    for i := 0 to count
      invariant p == 1 + Off(cs, i)
      invariant n == Count(Members(cs[..i]), begin, end + 1)
    {
      var c := m.Load(p, i);
      OneOfThem(cs, i);
      FullCapSpan(cs, i);
      OffNext(cs, i);
      if c.start > end {
        RestCount(cs, i, begin, end + 1);
        return;
      }
      PrefixCount(cs, i, begin, end + 1);
      var top := c.start + Cap(c) - 1;
      if top < begin {
        OutsideCount(c, begin, end + 1);
      } else {
        var from, to := if begin > c.start then begin else c.start, if end < top then end else top;
        OverlapCount(c, begin, end, from, to);
        var amt := ChunkRank(c, from - c.start, to - c.start);
        n := n + amt;
      }
      p := p + 1 + Size(c.desc);
    }
  }

  lemma FullCapSpan(cs: seq<Chunk>, i: nat)
    requires WfStream(cs) && AllFull(cs) && i < |cs|
    ensures Cap(cs[i]) == Span(cs[i]) && Cap(cs[i]) >= WINDOW
  {
    FullCap(cs, i);
    SpanPositive(cs[i]);
  }

  /** A map seen as chunks: itself, or a chunk-mode copy of a bare bitmap. */
  method AsChunks(m: Map) returns (v: Map)
    requires m.Valid() && m.Strict()
    ensures v.Valid() && v.form.Chunked? && v.Strict() && Members(v.Chunks()) == m.Set()
    ensures v == m || fresh(v)
    ensures m.form.Chunked? ==> v == m
    ensures m.form.Small? && ShortRun(m.form.words) ==> StartsRle(v.form)
  {
    hide WfForm, Layout, FormMembers, AllFull, Members, SmallMembers, ShortRun, StartsRle;
    if m.IsSmall() {
      SmallForm(m.form);
      v := Materialize(m);
      return;
    }
    ChunkedForm(m.form);
    return m;
  }

  /** The indices that are not members. */
  ghost function Others(s: iset<nat>): iset<nat> {
    iset x: nat | x !in s
  }

  lemma {:induction false} CountOthers(s: iset<nat>, lo: nat, hi: nat)
    requires lo <= hi
    ensures Count(s, lo, hi) + Count(Others(s), lo, hi) == hi - lo
    decreases hi - lo
  {
    if lo < hi {
      CountOthers(s, lo, hi - 1);
    }
  }

  /** All 2^64 indices are asked about; their number does not fit 64 bits. */
  predicate WholeLine(begin: nat, end: nat) {
    begin == 0 && end == IDX_MAX
  }

  /**
   * sm_rank: the number of members, or of other indices, in [begin, end].  The number of others
   * is one short over the whole line, where the width saturates, and 0 without a map.
   */
  method Rank(m: Map?, begin: nat, end: nat, value: bool) returns (n: nat)
    requires Plain(m) && begin < TWO64 && end < TWO64
    ensures n < TWO64
    ensures value ==> n == if begin > end then 0 else Count(SetOf(m), begin, end + 1)
    ensures !value && m != null ==>
      n == if begin > end then 0 else Count(Others(SetOf(m)), begin, end + 1) - if WholeLine(begin, end) then 1 else 0
    ensures !value && m == null ==> n == 0
  {
    hide Count, WfForm, Layout, FormMembers, AllFull, Members;
    CountNone(iset{}, begin, end + 1);
    if m == null || begin > end {
      return 0;
    }
    var v := AsChunks(m);
    n := RankVec(v, begin, end);
    CountOthers(SetOf(m), begin, end + 1);
    MapBelow(m);
    RankFits(SetOf(m), begin, end);
    if !value {
      var width := if end - begin == IDX_MAX then IDX_MAX else end - begin + 1;
      n := width - n;
    }
  }

  /** Not all indices of the line are members. */
  lemma RankFits(s: iset<nat>, begin: nat, end: nat)
    requires begin <= end < TWO64 && forall x: nat :: x in s ==> x < TOP
    ensures WholeLine(begin, end) ==> Count(s, begin, end + 1) < IDX_MAX
  {
    hide Count;
    if WholeLine(begin, end) {
      CountSplit(s, 0, TOP, IDX_MAX + 1);
      CountNone(s, TOP, IDX_MAX + 1);
    }
  }

  lemma EndsBelow(cs: seq<Chunk>, i: nat)
    requires WfStream(cs) && i < |cs|
    ensures cs[i].start + Span(cs[i]) <= TOP && cs[i].start < TOP
  {
    SpanPositive(cs[i]);
  }

  lemma MemberAt(cs: seq<Chunk>, i: nat, x: nat)
    requires i < |cs| && x in ChunkMembers(cs[i])
    ensures x in Members(cs)
  {
    MemberOf(cs, i, x);
  }

  /** Below an index of chunk i's span only the chunks up to it count. */
  lemma RestSpan(cs: seq<Chunk>, i: nat, x: nat)
    requires WfStream(cs) && i < |cs| && x < cs[i].start + Span(cs[i])
    ensures Count(Members(cs), 0, x) == Count(Members(cs[..i + 1]), 0, x)
  {
    hide Count, WfChunk, Members;
    RestCount(cs, i + 1, 0, x);
  }

  lemma OutsideCount0(cs: seq<Chunk>, i: nat, x: nat)
    requires WfStream(cs) && i < |cs| && cs[i].start <= x
    ensures Count(ChunkMembers(cs[i]), 0, x) == Count(ChunkMembers(cs[i]), cs[i].start, x)
  {
    hide Count, WfChunk, Span, Cap;
    OneOfThem(cs, i);
    OutsideCount(cs[i], 0, cs[i].start);
    CountSplit(ChunkMembers(cs[i]), 0, cs[i].start, x);
  }

  lemma PrefixEnds(cs: seq<Chunk>, i: nat)
    requires WfStream(cs) && i < |cs|
    ensures forall x: nat :: x in Members(cs[..i]) ==> x < cs[i].start
  {
    hide WfChunk, ChunkHas, Span;
    forall x: nat | x in Members(cs[..i]) ensures x < cs[i].start {
      var j :| 0 <= j < |cs[..i]| && ChunkHas(cs[..i][j], x);
      OneOfThem(cs, j);
      ChunkHasBound(cs[j], x);
    }
  }

  /** A well-formed chunk is not empty. */
  lemma OwnCount(c: Chunk)
    requires WfChunk(c)
    ensures Count(ChunkMembers(c), 0, TOP) >= 1
    ensures Count(ChunkMembers(c), c.start, c.start + Span(c)) >= 1
  {
    hide Count;
    var x := ChunkNotEmpty(c);
    ChunkHasBound(c, x);
    CountSplit(ChunkMembers(c), 0, x, TOP);
    CountSplit(ChunkMembers(c), x, x + 1, TOP);
    CountSplit(ChunkMembers(c), c.start, x, c.start + Span(c));
    CountSplit(ChunkMembers(c), x, x + 1, c.start + Span(c));
    OneCount(ChunkMembers(c), x);
  }

  lemma OneCount(s: iset<nat>, x: nat)
    requires x in s
    ensures Count(s, x, x + 1) == 1
  {
    assert Count(s, x, x) == 0;
  }

  /** The number of members of a bare bitmap. */
  method SmallCardinality(m: Map) returns (c: nat)
    requires m.Valid() && m.form.Small?
    ensures c == Count(m.Set(), 0, TOP)
  {
    hide Count, OnesBelow, Layout, WfForm;
    SmallForm(m.form);
    SmallWf(m.form);
    var ws := SmallWords(m);
    ghost var s := m.Set();
    c := 0;
    CountNone(s, 0, 0);
    for i := 0 to |ws|
      invariant c == Count(s, 0, 64 * i)
    {
      var n := PopCount(ws[i]);
      WordHolds(ws, i);
      OnesCount(ws[i], s, 64 * i, 64);
      CountSplit(s, 0, 64 * i, 64 * (i + 1));
      c := c + n;
    }
    CountSplit(s, 0, 64 * |ws|, TOP);
    CountNone(s, 64 * |ws|, TOP);
  }

  lemma WordHolds(ws: seq<Word>, i: nat)
    requires i < |ws|
    ensures Holds(ws[i], SmallMembers(ws), 64 * i)
  {
    forall k | 0 <= k < 64 ensures ws[i][k] <==> 64 * i + k in SmallMembers(ws) {
      assert (64 * i + k) / 64 == i && (64 * i + k) % 64 == k;
    }
  }

  /** sm_cardinality. */
  method Cardinality(m: Map?) returns (c: nat)
    requires Plain(m)
    ensures c == Count(SetOf(m), 0, TOP)
  {
    hide Count, Layout, WfForm, FormMembers;
    if m != null && m.IsSmall() {
      c := SmallCardinality(m);
      return;
    }
    c := Rank(m, 0, IDX_MAX, true);
    MapBelow(m);
    CountSplit(SetOf(m), 0, TOP, IDX_MAX + 1);
    CountNone(SetOf(m), TOP, IDX_MAX + 1);
  }
}
