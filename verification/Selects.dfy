// sm_select for set bits.  The source narrows its 64-bit rank argument to a signed count, so a
// rank of 2^63 or more walks on as a negative one; what it then answers is stated exactly.
module Selects {
  import opened Words
  import opened Chunks
  import opened Streams
  import opened Codec
  import opened Maps
  import opened RunLengths
  import opened Appends
  import opened Locate
  import opened Slots
  import opened Small
  import opened Adding
  import opened SetOps
  import opened Runs
  import opened Lookups
  import opened Counting
  import opened Offset
  import opened Ranks

  // ---- signed 64-bit counts -----------------------------------------------------------------------

  const LEAST: int := -0x8000_0000_0000_0000

  predicate IsSigned(s: int) {
    LEAST <= s < TWO63
  }

  /** A signed count as the 64-bit pattern it has. */
  function Unsigned(s: int): (u: nat)
    requires IsSigned(s)
    ensures u < TWO64
  {
    if s < 0 then s + TWO64 else s
  }

  /** A 64-bit pattern read as a signed count. */
  function Signed(u: nat): (s: int)
    requires u < TWO64
    ensures IsSigned(s) && Unsigned(s) == u
  {
    if u < TWO63 then u else u - TWO64
  }

  /** A 64-bit sum, which wraps round. */
  function Sum64(a: nat, b: nat): (r: nat)
    ensures r < TWO64
  {
    (a + b) % TWO64
  }

  // ---- the n-th member ------------------------------------------------------------------------------

  /** x is the member with exactly n members before it, from lo on. */
  ghost predicate IsNth(s: iset<nat>, lo: nat, n: nat, x: nat) {
    lo <= x && x in s && Count(s, lo, x) == n
  }

  /** There is at most one n-th member. */
  lemma NthUnique(s: iset<nat>, lo: nat, n: nat, x: nat, y: nat)
    requires IsNth(s, lo, n, x) && IsNth(s, lo, n, y)
    ensures x == y
  {
    hide Count;
    if x < y {
      NthBefore(s, lo, x, y);
    } else if y < x {
      NthBefore(s, lo, y, x);
    }
  }

  /** A member counts towards everything after it. */
  lemma NthBefore(s: iset<nat>, lo: nat, x: nat, y: nat)
    requires lo <= x < y && x in s
    ensures Count(s, lo, x) < Count(s, lo, y)
  {
    CountSplit(s, lo, x, y);
    CountSplit(s, x, x + 1, y);
    assert Count(s, x, x + 1) == Count(s, x, x) + 1;
  }

  /**
   * The n-th set bit of a word.  `wrapped` tells that the count was decremented at its least
   * value, which the source's language leaves undefined and which wraps round here.
   */
  method WordSelect(w: Word, n0: int, ghost s: iset<nat>, ghost base: nat) returns (found: bool, k: nat, n: int, ghost wrapped: bool)
    requires Holds(w, s, base) && IsSigned(n0)
    ensures IsSigned(n) && (wrapped <==> n0 < 0 <= n && !found)
    ensures found ==> k < 64 && IsNth(s, base, Unsigned(n0), base + k)
    ensures !found ==> Unsigned(n) + Count(s, base, base + 64) == Unsigned(n0)
  {
    hide OnesBelow, Count;
    var remaining := w;
    n := n0;
    k := 0;
    wrapped := false;
    ghost var passed := 0;
    CountNone(s, base, base);
    while remaining != ZERO
      invariant passed <= 64 && IsSigned(n) && (wrapped <==> n0 < 0 <= n)
      invariant Unsigned(n) + Count(s, base, base + passed) == Unsigned(n0)
      invariant forall j :: 0 <= j < 64 ==> remaining[j] == (w[j] && passed <= j)
      decreases 64 - passed
    {
      var b := LowestBit(remaining);
      assert Holds(w, s, base);
      assert w[b] && passed <= b;
      ShowNone(w, s, base, passed, b, remaining);
      CountSplit(s, base, base + passed, base + b);
      if n == 0 {
        wrapped := false;
        return true, b, 0, false;
      }
      CountOne(s, base, base + b);
      if n == LEAST {
        n := TWO63 - 1;
        wrapped := true;
      } else {
        n := n - 1;
      }
      remaining := ClearBit(remaining, b);
      passed := b + 1;
    }
    ShowNone(w, s, base, passed, 64, remaining);
    CountSplit(s, base, base + passed, base + 64);
    return false, 64, n, wrapped;
  }

  /** Between the bits already passed and the next one nothing is set. */
  lemma ShowNone(w: Word, s: iset<nat>, base: nat, passed: nat, b: nat, remaining: Word)
    requires Holds(w, s, base) && passed <= b <= 64
    requires forall j :: 0 <= j < 64 ==> remaining[j] == (w[j] && passed <= j)
    requires forall j :: 0 <= j < b ==> !remaining[j]
    ensures Count(s, base + passed, base + b) == 0
  {
    forall x: nat | base + passed <= x < base + b ensures x !in s {
      var k := x - base;
      assert w[k] <==> base + k in s;
      assert !remaining[k];
    }
    CountNone(s, base + passed, base + b);
  }

  lemma CountOne(s: iset<nat>, lo: nat, x: nat)
    requires lo <= x && x in s
    ensures Count(s, lo, x + 1) == Count(s, lo, x) + 1
  {
  }

  // ---- one chunk ------------------------------------------------------------------------------------

  /** Slot v answers by arithmetic on the count: all ones, or the run of a run-length chunk. */
  ghost predicate SolidAt(c: Chunk, v: nat) {
    v < SLOTS && if IsRle(c.desc) then v == 0 else FlagAt(c.desc, v).Ones?
  }

  /** What is left of u at slot v of a chunk. */
  ghost function LeftAt(c: Chunk, u: nat, v: nat): int {
    u - Count(ChunkMembers(c), c.start, c.start + 64 * v)
  }

  /** Slot v is solid and met with a count that reads as negative. */
  ghost predicate SnagIn(c: Chunk, u: nat, v: nat) {
    SolidAt(c, v) && LeftAt(c, u, v) >= TWO63
  }

  ghost predicate NoSnagIn(c: Chunk, u: nat, n: nat) {
    forall v: nat :: v < n ==> !SnagIn(c, u, v)
  }

  /** The walk snags at slot v: the negative count passes for a hit. */
  ghost predicate Snagged(c: Chunk, u: nat, index: nat, offset: int, v: nat) {
    SnagIn(c, u, v) && NoSnagIn(c, u, v) && offset == -1 && index == (64 * v + LeftAt(c, u, v)) % TWO64
  }

  /** The walk does not snag: a hit is the u-th member, and a miss takes the chunk's members off u. */
  ghost predicate Passed(c: Chunk, u: nat, index: nat, offset: int) {
    && NoSnagIn(c, u, SLOTS) && IsSigned(offset)
    && if offset == -1 then IsNth(ChunkMembers(c), c.start, u, c.start + index) && index < Span(c)
       else Unsigned(offset) + Count(ChunkMembers(c), c.start, c.start + Span(c)) == u
  }

  ghost predicate ChunkOutcome(c: Chunk, u: nat, index: nat, offset: int) {
    Passed(c, u, index, offset) || exists v: nat :: Snagged(c, u, index, offset, v)
  }

  /** The n-th member of a chunk: an offset of -1 is a hit, any other what is left of n. */
  method ChunkSelect(c: Chunk, n: int) returns (index: nat, offset: int, ghost wrapped: bool)
    requires WfChunk(c) && IsSigned(n)
    ensures ChunkOutcome(c, Unsigned(n), index, offset)
    ensures wrapped <==> n < 0 <= offset
  {
    hide Count, IsNth;
    if IsRle(c.desc) {
      var len, cap := RleLen(c.desc), RleCap(c.desc);
      RleSelected(c, n);
      if n < len {
        return Unsigned(n), -1, false;
      }
      return cap, n - len, false;
    }
    index, offset, wrapped := SparseSelect(c, n);
  }

  lemma RleSelected(c: Chunk, n: int)
    requires WfChunk(c) && IsRle(c.desc) && IsSigned(n)
    ensures n < 0 ==> Snagged(c, Unsigned(n), Unsigned(n), -1, 0)
    ensures 0 <= n < RleLen(c.desc) ==> Passed(c, Unsigned(n), n, -1)
    ensures n >= RleLen(c.desc) ==> Passed(c, Unsigned(n), RleCap(c.desc), n - RleLen(c.desc))
  {
    hide Count;
    var s, len := ChunkMembers(c), RleLen(c.desc);
    CountNone(s, c.start, c.start);
    if 0 <= n < len {
      CountAll(s, c.start, c.start + n);
    }
    CountAll(s, c.start, c.start + len);
    CountNone(s, c.start + len, c.start + Span(c));
    CountSplit(s, c.start, c.start + len, c.start + Span(c));
  }

  /** Slot v of a sparse chunk, met with n left of u. */
  method SlotSelect(c: Chunk, v: nat, n: int, ghost u: nat) returns (hit: bool, index: nat, left: int, ghost wrapped: bool)
    requires WfSparse(c) && v < SLOTS && IsSigned(n) && NoSnagIn(c, u, v)
    requires Unsigned(n) + Count(ChunkMembers(c), c.start, c.start + 64 * v) == u
    ensures hit ==> ChunkOutcome(c, u, index, -1)
    ensures !hit ==> NoSnagIn(c, u, v + 1)
    ensures !hit ==> IsSigned(left) && Unsigned(left) + Count(ChunkMembers(c), c.start, c.start + 64 * (v + 1)) == u
    ensures wrapped <==> !hit && n < 0 <= left
    ensures !hit ==> Unsigned(left) <= Unsigned(n)
  {
    hide Count, ChunkMembers, FlagAt, WfSparse, MixedIn, NoSnagIn, SnagIn, ChunkOutcome, LeftAt;
    ghost var s, base := ChunkMembers(c), c.start + 64 * v;
    MixedBound(c, v);
    SlotMembers(c, v);
    CountSplit(s, c.start, base, base + 64);
    NoSnagStep(c, u, v);
    var f := FlagAt(c.desc, v);
    if f == Ones {
      CountAll(s, base, base + 64);
      if n < 64 {
        if n < 0 {
          SnagNow(c, u, v);
        } else {
          CountAll(s, base, base + n);
          CountSplit(s, c.start, base, base + n);
          HitNow(c, u, v, 64 * v + n);
        }
        return true, (64 * v + Unsigned(n)) % TWO64, n, false;
      }
      return false, 0, n - 64, false;
    }
    if f == Mixed {
      var pos := Position(c.desc, v);
      var k;
      hit, k, left, wrapped := WordSelect(c.vecs[pos], n, s, base);
      index := 64 * v + k;
      if hit {
        CountSplit(s, c.start, base, base + k);
        HitNow(c, u, v, 64 * v + k);
      }
      return;
    }
    CountNone(s, base, base + 64);
    return false, 0, n, false;
  }

  method SparseSelect(c: Chunk, n0: int) returns (index: nat, offset: int, ghost wrapped: bool)
    requires WfChunk(c) && !IsRle(c.desc) && IsSigned(n0)
    ensures ChunkOutcome(c, Unsigned(n0), index, offset)
    ensures wrapped <==> n0 < 0 <= offset
  {
    hide Count, ChunkMembers, FlagAt, WfSparse, MixedIn, NoSnagIn, SnagIn, ChunkOutcome;
    ghost var s, u := ChunkMembers(c), Unsigned(n0);
    IsSparse(c);
    offset := n0;
    wrapped := false;
    CountNone(s, c.start, c.start);
    NoSnagYet(c, u);
    for v := 0 to SLOTS
      invariant IsSigned(offset) && (wrapped <==> n0 < 0 <= offset)
      invariant Unsigned(offset) + Count(s, c.start, c.start + 64 * v) == u
      invariant NoSnagIn(c, u, v)
    {
      var hit, at, left, w := SlotSelect(c, v, offset, u);
      if hit {
        return at, -1, false;
      }
      wrapped := wrapped || w;
      offset := left;
    }
    MissNow(c, u, WINDOW, offset);
    return WINDOW, offset, wrapped;
  }

  lemma IsSparse(c: Chunk)
    requires WfChunk(c) && !IsRle(c.desc)
    ensures WfSparse(c)
  {
  }

  lemma NoSnagYet(c: Chunk, u: nat)
    ensures NoSnagIn(c, u, 0)
  {
  }

  /** A slot that is not solid, or is met with a count that is not negative, does not snag. */
  lemma NoSnagStep(c: Chunk, u: nat, v: nat)
    requires NoSnagIn(c, u, v) && !IsRle(c.desc) && v < SLOTS
    ensures !FlagAt(c.desc, v).Ones? || LeftAt(c, u, v) < TWO63 ==> NoSnagIn(c, u, v + 1)
    ensures LeftAt(c, u, v) == u - Count(ChunkMembers(c), c.start, c.start + 64 * v)
  {
    hide Count, FlagAt;
  }

  lemma SnagNow(c: Chunk, u: nat, v: nat)
    requires !IsRle(c.desc) && v < SLOTS && FlagAt(c.desc, v).Ones? && LeftAt(c, u, v) >= TWO63 && NoSnagIn(c, u, v)
    ensures ChunkOutcome(c, u, (64 * v + LeftAt(c, u, v)) % TWO64, -1)
  {
    hide Count, FlagAt;
    assert Snagged(c, u, (64 * v + LeftAt(c, u, v)) % TWO64, -1, v);
  }

  /** A hit leaves a count too small for any later slot to snag. */
  lemma HitNow(c: Chunk, u: nat, v: nat, index: nat)
    requires WfSparse(c) && NoSnagIn(c, u, v) && 64 * v <= index < WINDOW
    requires IsNth(ChunkMembers(c), c.start, u, c.start + index)
    ensures ChunkOutcome(c, u, index, -1)
  {
    hide Count, FlagAt, WfSparse, ChunkMembers;
    IsSparseSpan(c);
    assert u <= index;
    forall w: nat | v <= w < SLOTS ensures !SnagIn(c, u, w) {
      assert LeftAt(c, u, w) <= u;
    }
    assert Passed(c, u, index, -1);
  }

  lemma IsSparseSpan(c: Chunk)
    requires WfSparse(c)
    ensures Span(c) == WINDOW
  {
  }

  /** Passing a whole chunk never leaves the count that reads as a hit, since a chunk holds a member. */
  lemma MissNow(c: Chunk, u: nat, ret: nat, n: int)
    requires WfChunk(c) && !IsRle(c.desc) && u < TWO64 && IsSigned(n) && NoSnagIn(c, u, SLOTS)
    requires Unsigned(n) + Count(ChunkMembers(c), c.start, c.start + WINDOW) == u
    ensures n != -1 && ChunkOutcome(c, u, ret, n)
  {
    hide Count, FlagAt, WfSparse, NoSnagIn, ChunkMembers;
    OwnCount(c);
    IsSparse(c);
    IsSparseSpan(c);
    assert Passed(c, u, ret, n);
  }

  // ---- where the walk snags ---------------------------------------------------------------------------

  ghost predicate SolidSlot(cs: seq<Chunk>, lo: nat, b: nat, i: nat, v: nat) {
    lo <= i < |cs| && SolidAt(cs[i], v) && b == cs[i].start + 64 * v
  }

  /**
   * Index b begins a stretch that answers by arithmetic: a solid slot of chunk lo or later, or, in
   * a bare bitmap, which is walked as the chunk it is rewritten as, a word of ones, or a shorter
   * run from bit 0, which is rewritten as a run-length chunk.
   */
  ghost predicate Solid(f: Form, lo: nat, b: nat) {
    match f
    case Small(ws) => (b % 64 == 0 && b / 64 < |ws| && ws[b / 64] == ONES) || (b == 0 && ShortRun(ws))
    case Chunked(cs) => exists i: nat, v: nat :: SolidSlot(cs, lo, b, i, v)
  }

  /** The walk for n meets a solid stretch with 2^63 or more still to count. */
  ghost predicate Snag(f: Form, lo: nat, n: nat, b: nat) {
    Solid(f, lo, b) && n - Count(FormMembers(f), 0, b) >= TWO63
  }

  ghost predicate Snags(f: Form, lo: nat, n: nat) {
    exists b: nat :: Snag(f, lo, n, b)
  }

  ghost predicate FirstSnag(f: Form, lo: nat, n: nat, b: nat) {
    Snag(f, lo, n, b) && forall a: nat :: a < b ==> !Snag(f, lo, n, a)
  }

  /** What sm_select should answer: the n-th member from 0, or the last index when there are no more than n. */
  ghost predicate Selected(s: iset<nat>, n: nat, r: nat) {
    if r == IDX_MAX then Count(s, 0, TOP) <= n else IsNth(s, 0, n, r)
  }

  /** What it does answer, walking from chunk lo on. */
  ghost predicate Chosen(f: Form, lo: nat, n: nat, r: nat) {
    && (!Snags(f, lo, n) ==> Selected(FormMembers(f), n, r))
    && (forall b: nat :: FirstSnag(f, lo, n, b) ==> r == (b + (n - Count(FormMembers(f), 0, b))) % TWO64)
  }

  /** The walk decrements the least signed count on its way, p members having been skipped before it began. */
  ghost predicate Overflows63(f: Form, lo: nat, p: nat, n: nat) {
    n - p >= TWO63 && !Snags(f, lo, n) && Count(FormMembers(f), 0, TOP) > n - TWO63
  }

  /** A rank below 2^63 never snags. */
  lemma NoSnagBelow(f: Form, lo: nat, n: nat)
    requires n < TWO63
    ensures !Snags(f, lo, n)
  {
  }

  lemma {:induction false} LeastSnag(f: Form, lo: nat, n: nat, b: nat) returns (a: nat)
    requires Snag(f, lo, n, b)
    ensures FirstSnag(f, lo, n, a)
    decreases b
  {
    hide Snag;
    if c: nat :| c < b && Snag(f, lo, n, c) {
      a := LeastSnag(f, lo, n, c);
    } else {
      a := b;
    }
  }

  lemma FormBelow(f: Form)
    requires WfForm(f)
    ensures forall x: nat :: x in FormMembers(f) ==> x < TOP
  {
    match f
    case Small(ws) =>
      SmallForm(f);
      SmallBound(ws);
    case Chunked(cs) =>
      EndBound(cs);
  }

  lemma SolidBelow(f: Form, lo: nat, b: nat)
    requires WfForm(f) && Solid(f, lo, b)
    ensures b < TOP
  {
    hide WfRle, WfSparse;
    if f.Chunked? {
      var i: nat, v: nat :| SolidSlot(f.chunks, lo, b, i, v);
      SpanPositive(f.chunks[i]);
    }
  }

  /** A snag at b is without harm exactly when the answer happens to be the sentinel, or all up to it are members. */
  ghost predicate Lucky(s: iset<nat>, n: nat, b: nat) {
    var to := b + (n - Count(s, 0, b));
    to == IDX_MAX || (to < IDX_MAX && forall x: nat :: b <= x <= to ==> x in s)
  }

  /** The ranks for which the answer is right: the walk does not snag, or snags without harm. */
  ghost predicate Answers(f: Form, lo: nat, n: nat) {
    forall b: nat :: FirstSnag(f, lo, n, b) ==> Lucky(FormMembers(f), n, b)
  }

  /** The answer is the one promised if and only if the walk does not snag, or snags without harm. */
  lemma ChosenRight(f: Form, lo: nat, n: nat, r: nat)
    requires WfForm(f) && Chosen(f, lo, n, r) && n < TWO64
    ensures Selected(FormMembers(f), n, r) <==> Answers(f, lo, n)
  {
    hide Count, FormMembers, Lucky, Selected, Snag, WfForm;
    FormBelow(f);
    if Snags(f, lo, n) {
      var b: nat :| Snag(f, lo, n, b);
      var a := LeastSnag(f, lo, n, b);
      SnagAnswer(FormMembers(f), n, a, f, lo);
      forall c: nat | FirstSnag(f, lo, n, c) ensures c == a {
        OneFirst(f, lo, n, a, c);
      }
    }
  }

  lemma OneFirst(f: Form, lo: nat, n: nat, a: nat, b: nat)
    requires FirstSnag(f, lo, n, a) && FirstSnag(f, lo, n, b)
    ensures a == b
  {
    hide Snag;
  }

  /** The answer of a snag at b, judged. */
  lemma SnagAnswer(s: iset<nat>, n: nat, b: nat, f: Form, lo: nat)
    requires WfForm(f) && s == FormMembers(f) && Snag(f, lo, n, b) && n < TWO64 && forall x: nat :: x in s ==> x < TOP
    ensures var r := (b + (n - Count(s, 0, b))) % TWO64; Selected(s, n, r) <==> Lucky(s, n, b)
  {
    hide Count, FormMembers, Solid;
    var k := Count(s, 0, b);
    var to := b + (n - k);
    SolidBelow(f, lo, b);
    CountSplit(s, 0, b, b);
    if to == IDX_MAX {
      FewMembers(s, b);
    } else if to < IDX_MAX {
      CountSplit(s, 0, b, to);
      if forall x: nat :: b <= x <= to ==> x in s {
        CountAll(s, b, to);
      } else if IsNth(s, 0, n, to) {
        CountFull(s, b, to);
      }
    } else {
      assert to < IDX_MAX + TWO64;
      assert to % TWO64 == to - TWO64 < b;
      CountSplit(s, 0, to - TWO64, b);
    }
  }

  lemma {:induction false} CountFull(s: iset<nat>, lo: nat, hi: nat)
    requires lo <= hi && Count(s, lo, hi) == hi - lo
    ensures forall x: nat :: lo <= x < hi ==> x in s
    decreases hi - lo
  {
    if lo < hi {
      CountFull(s, lo, hi - 1);
    }
  }

  /** From b on there are fewer than 2^64 - 1 - b members. */
  lemma FewMembers(s: iset<nat>, b: nat)
    requires b < TOP && forall x: nat :: x in s ==> x < TOP
    ensures Count(s, 0, TOP) <= Count(s, 0, b) + (IDX_MAX - b)
  {
    hide Count;
    CountSplit(s, 0, b, TOP);
  }

  // ---- the walk ----------------------------------------------------------------------------------------

  /** Up to an index of chunk i's span, the members are those of the chunks before it and its own. */
  lemma CountTo(cs: seq<Chunk>, i: nat, x: nat)
    requires WfStream(cs) && i < |cs| && cs[i].start <= x < cs[i].start + Span(cs[i])
    ensures Count(Members(cs), 0, x) == Count(Members(cs[..i]), 0, TOP) + Count(ChunkMembers(cs[i]), cs[i].start, x)
    ensures x < TOP
  {
    hide Count, WfChunk, Members, ChunkMembers, Span;
    OneOfThem(cs, i);
    EndsBelow(cs, i);
    RestSpan(cs, i, x);
    PrefixCount(cs, i, 0, x);
    OutsideCount0(cs, i, x);
    CountSplit(Members(cs[..i]), 0, cs[i].start, TOP);
    CountSplit(Members(cs[..i]), 0, cs[i].start, x);
    PrefixEnds(cs, i);
    CountNone(Members(cs[..i]), cs[i].start, TOP);
    CountNone(Members(cs[..i]), cs[i].start, x);
  }

  /** A hit in chunk i is the n-th member of the whole stream. */
  lemma SelectHit(cs: seq<Chunk>, i: nat, n0: nat, n: nat, x: nat)
    requires WfStream(cs) && i < |cs| && n + Count(Members(cs[..i]), 0, TOP) == n0
    requires IsNth(ChunkMembers(cs[i]), cs[i].start, n, x) && x < cs[i].start + Span(cs[i])
    ensures IsNth(Members(cs), 0, n0, x) && x < TOP
  {
    hide Count, WfStream, Members, ChunkMembers, Span;
    CountTo(cs, i, x);
    MemberAt(cs, i, x);
  }

  /** A miss in chunk i takes its members off n. */
  lemma SelectMiss(cs: seq<Chunk>, i: nat, n0: nat, n: nat, n': nat)
    requires WfStream(cs) && i < |cs| && n + Count(Members(cs[..i]), 0, TOP) == n0
    requires n' + Count(ChunkMembers(cs[i]), cs[i].start, cs[i].start + Span(cs[i])) == n
    ensures n' + Count(Members(cs[..i + 1]), 0, TOP) == n0
  {
    hide Count, WfRle, WfSparse, Members, ChunkHas, Span;
    OneOfThem(cs, i);
    EndsBelow(cs, i);
    PrefixCount(cs, i, 0, TOP);
    var s, a, b := ChunkMembers(cs[i]), cs[i].start, cs[i].start + Span(cs[i]);
    ChunkRange(cs[i]);
    CountSplit(s, 0, a, TOP);
    CountSplit(s, a, b, TOP);
    CountNone(s, 0, a);
    CountNone(s, b, TOP);
  }

  /** No solid slot of the chunks from lo to before hi snags. */
  ghost predicate ClearTo(cs: seq<Chunk>, lo: nat, hi: nat, n: nat) {
    forall b: nat, i: nat, v: nat :: i < hi && SolidSlot(cs, lo, b, i, v) ==> n - Count(Members(cs), 0, b) < TWO63
  }

  /** A slot of chunk i seen from the chunk and from the stream. */
  lemma SlotSnags(cs: seq<Chunk>, i: nat, n0: nat, n: nat, v: nat)
    requires WfStream(cs) && i < |cs| && n + Count(Members(cs[..i]), 0, TOP) == n0 && SolidAt(cs[i], v)
    ensures n0 - Count(Members(cs), 0, cs[i].start + 64 * v) == LeftAt(cs[i], n, v)
  {
    hide Count, WfRle, WfSparse, Members, ChunkMembers;
    SpanPositive(cs[i]);
    CountTo(cs, i, cs[i].start + 64 * v);
  }

  lemma ClearMore(cs: seq<Chunk>, lo: nat, i: nat, n0: nat, n: nat)
    requires WfStream(cs) && lo <= i < |cs| && n + Count(Members(cs[..i]), 0, TOP) == n0
    requires ClearTo(cs, lo, i, n0) && NoSnagIn(cs[i], n, SLOTS)
    ensures ClearTo(cs, lo, i + 1, n0)
  {
    hide Count, WfStream, Members, LeftAt;
    forall b: nat, j: nat, v: nat | j < i + 1 && SolidSlot(cs, lo, b, j, v) ensures n0 - Count(Members(cs), 0, b) < TWO63 {
      if j == i {
        SlotSnags(cs, i, n0, n, v);
        assert !SnagIn(cs[i], n, v);
      }
    }
  }

  /** After a hit at x the rest of the stream is met with nothing left to count. */
  lemma ClearAfterHit(cs: seq<Chunk>, lo: nat, i: nat, n0: nat, x: nat)
    requires WfStream(cs) && i < |cs| && ClearTo(cs, lo, i + 1, n0) && x < cs[i].start + Span(cs[i])
    requires IsNth(Members(cs), 0, n0, x)
    ensures !Snags(Chunked(cs), lo, n0)
  {
    hide Count, WfRle, WfSparse, Members, Span, SolidAt;
    ChunkedForm(Chunked(cs));
    forall b: nat | Solid(Chunked(cs), lo, b) ensures n0 - Count(Members(cs), 0, b) < TWO63 {
      var j: nat, v: nat :| SolidSlot(cs, lo, b, j, v);
      if j > i {
        assert x < b;
        CountSplit(Members(cs), 0, x, b);
      }
    }
  }

  lemma ClearAll(cs: seq<Chunk>, lo: nat, n0: nat)
    requires ClearTo(cs, lo, |cs|, n0)
    ensures !Snags(Chunked(cs), lo, n0)
  {
    hide Count, Members, SolidAt;
    ChunkedForm(Chunked(cs));
    forall b: nat | Solid(Chunked(cs), lo, b) ensures n0 - Count(Members(cs), 0, b) < TWO63 {
      var j: nat, v: nat :| SolidSlot(cs, lo, b, j, v);
    }
  }

  lemma ClearNone(cs: seq<Chunk>, lo: nat, n0: nat)
    ensures ClearTo(cs, lo, lo, n0)
  {
  }

  /** The first slot that snags in chunk i is the first of the stream. */
  lemma SnagFirst(cs: seq<Chunk>, lo: nat, i: nat, n0: nat, n: nat, v: nat)
    requires WfStream(cs) && lo <= i < |cs| && n + Count(Members(cs[..i]), 0, TOP) == n0
    requires ClearTo(cs, lo, i, n0) && SnagIn(cs[i], n, v) && NoSnagIn(cs[i], n, v)
    ensures var b := cs[i].start + 64 * v;
      FirstSnag(Chunked(cs), lo, n0, b) && LeftAt(cs[i], n, v) == n0 - Count(Members(cs), 0, b)
  {
    hide Count, WfRle, WfSparse, Members, LeftAt, SolidAt;
    ChunkedForm(Chunked(cs));
    var b := cs[i].start + 64 * v;
    SlotSnags(cs, i, n0, n, v);
    assert SolidSlot(cs, lo, b, i, v);
    forall a: nat | a < b && Solid(Chunked(cs), lo, a) ensures n0 - Count(Members(cs), 0, a) < TWO63 {
      var j: nat, w: nat :| SolidSlot(cs, lo, a, j, w);
      SlotInSpan(cs[i], v);
      LaterSlot(cs, i, j);
      if j == i {
        SlotSnags(cs, i, n0, n, w);
        assert !SnagIn(cs[i], n, w);
      }
    }
  }

  lemma LaterSlot(cs: seq<Chunk>, i: nat, j: nat)
    requires WfStream(cs) && i < |cs| && j < |cs|
    ensures i < j ==> cs[i].start + Span(cs[i]) <= cs[j].start
  {
  }

  lemma SlotInSpan(c: Chunk, v: nat)
    requires WfChunk(c) && SolidAt(c, v)
    ensures c.start + 64 * v < c.start + Span(c)
  {
    SpanPositive(c);
  }

  /** The state of a walk from chunk lo, before chunk i, with n left to count. */
  ghost predicate Walking(cs: seq<Chunk>, lo: nat, i: nat, n0: nat, n: nat) {
    && WfStream(cs) && lo <= i <= |cs| && n < TWO64
    && n + Count(Members(cs[..i]), 0, TOP) == n0
    && ClearTo(cs, lo, i, n0)
  }

  /** What a chunk's outcome says about the walk. */
  lemma WalkOn(cs: seq<Chunk>, lo: nat, i: nat, n0: nat, n: nat, index: nat, offset: int)
    requires Walking(cs, lo, i, n0, n) && i < |cs| && ChunkOutcome(cs[i], n, index, offset)
    ensures offset == -1 ==> Chosen(Chunked(cs), lo, n0, Sum64(cs[i].start, index))
    ensures offset == -1 && n >= TWO63 ==> Snags(Chunked(cs), lo, n0)
    ensures offset == -1 && n < TWO63 ==> !Snags(Chunked(cs), lo, n0) && Count(Members(cs), 0, TOP) > n0
    ensures offset != -1 ==> IsSigned(offset) && Walking(cs, lo, i + 1, n0, Unsigned(offset)) && Unsigned(offset) <= n
  {
    hide Count, WfStream, Members, ChunkMembers, ClearTo, LeftAt, SnagIn, NoSnagIn, IsNth, Snags, FirstSnag;
    OneOfThem(cs, i);
    ChunkedForm(Chunked(cs));
    if Passed(cs[i], n, index, offset) {
      ClearMore(cs, lo, i, n0, n);
      if offset == -1 {
        HitSmall(cs, i, n, cs[i].start + index);
        SelectHit(cs, i, n0, n, cs[i].start + index);
        ClearAfterHit(cs, lo, i, n0, cs[i].start + index);
        HitIsChosen(cs, lo, n0, cs[i].start + index);
      } else {
        SelectMiss(cs, i, n0, n, Unsigned(offset));
      }
    } else {
      var v: nat :| Snagged(cs[i], n, index, offset, v);
      SnagFirst(cs, lo, i, n0, n, v);
      SnagIsChosen(cs, lo, i, n0, n, index, v);
      SnagLarge(cs[i], n, v);
    }
  }

  lemma SnagLarge(c: Chunk, n: nat, v: nat)
    requires SnagIn(c, n, v)
    ensures n >= TWO63
  {
    hide Count;
  }

  /** A hit has no more before it than its chunk has indices. */
  lemma HitSmall(cs: seq<Chunk>, i: nat, n: nat, x: nat)
    requires WfStream(cs) && i < |cs| && IsNth(ChunkMembers(cs[i]), cs[i].start, n, x) && x < cs[i].start + Span(cs[i])
    ensures n < TWO63
  {
    hide Count;
    assert n <= x - cs[i].start;
  }

  lemma HitIsChosen(cs: seq<Chunk>, lo: nat, n0: nat, x: nat)
    requires !Snags(Chunked(cs), lo, n0) && IsNth(Members(cs), 0, n0, x) && x < TOP
    ensures Chosen(Chunked(cs), lo, n0, x % TWO64) && Count(Members(cs), 0, TOP) > n0
  {
    hide Count, Snag;
    ChunkedForm(Chunked(cs));
    NthBefore(Members(cs), 0, x, TOP);
  }

  lemma SnagIsChosen(cs: seq<Chunk>, lo: nat, i: nat, n0: nat, n: nat, index: nat, v: nat)
    requires i < |cs| && FirstSnag(Chunked(cs), lo, n0, cs[i].start + 64 * v)
    requires LeftAt(cs[i], n, v) == n0 - Count(Members(cs), 0, cs[i].start + 64 * v)
    requires index == (64 * v + LeftAt(cs[i], n, v)) % TWO64
    ensures Chosen(Chunked(cs), lo, n0, (cs[i].start + index) % TWO64) && Snags(Chunked(cs), lo, n0)
  {
    hide Count, Snag, LeftAt;
    ChunkedForm(Chunked(cs));
    ModAdd(cs[i].start, 64 * v + LeftAt(cs[i], n, v));
  }

  lemma ModAdd(a: int, b: int)
    ensures (a + b % TWO64) % TWO64 == (a + b) % TWO64
  {
    var q := b / TWO64;
    assert b == TWO64 * q + b % TWO64;
    var x := a + b % TWO64;
    var d := x / TWO64;
    assert x == TWO64 * d + x % TWO64;
    DivModUnique(a + b, TWO64, d + q, x % TWO64);
  }

  /** The end of the stream: nothing snagged and there are no more members than n0. */
  lemma WalkEnds(cs: seq<Chunk>, lo: nat, n0: nat, n: nat)
    requires Walking(cs, lo, |cs|, n0, n)
    ensures Chosen(Chunked(cs), lo, n0, IDX_MAX) && !Snags(Chunked(cs), lo, n0)
    ensures n + Count(Members(cs), 0, TOP) == n0
  {
    hide Count, Members, ClearTo, Snag;
    ChunkedForm(Chunked(cs));
    WholePrefix(cs);
    ClearAll(cs, lo, n0);
  }

  lemma WalkBegins(cs: seq<Chunk>, n0: nat)
    requires WfStream(cs) && n0 < TWO64
    ensures Walking(cs, 0, 0, n0, n0)
  {
    hide Count, ClearTo;
    WholePrefix(cs);
    CountNone(Members([]), 0, TOP);
    ClearNone(cs, 0, n0);
  }

  /** sm_select on a chunk-mode map. */
  method SelectChunks(m: Map, n0: nat) returns (r: nat, ghost wrapped: bool)
    requires m.Valid() && m.form.Chunked? && m.Strict() && n0 < TWO64
    ensures r < TWO64 && Chosen(m.form, 0, n0, r)
    ensures wrapped <==> Overflows63(m.form, 0, 0, n0)
  {
    hide Sum64, Count, Layout, WfStream, AllFull, Members, FormMembers, Off, WfChunk, ChunkOutcome, Chosen, Walking, Snags, WfSparse;
    ghost var cs := m.Chunks();
    assert m.form == Chunked(cs);
    ChunkedForm(m.form);
    WfOfForm(m.form);
    var count := m.Count();
    var p: nat, n: nat := 1, n0;
    wrapped := false;
    StreamEnds(cs);
    WalkBegins(cs, n0);
    for i := 0 to count
      invariant p == 1 + Off(cs, i) && n < TWO64 && n <= n0
      invariant Walking(cs, 0, i, n0, n)
      invariant wrapped <==> n0 >= TWO63 && n < TWO63
    {
      var c := m.Load(p, i);
      OneOfThem(cs, i);
      OffNext(cs, i);
      var index, offset, w := ChunkSelect(c, Signed(n));
      WalkOn(cs, 0, i, n0, n, index, offset);
      if offset == -1 {
        return Sum64(c.start, index), wrapped;
      }
      wrapped := wrapped || w;
      n := Unsigned(offset);
      p := p + 1 + Size(c.desc);
    }
    WalkEnds(cs, 0, n0, n);
    return IDX_MAX, wrapped;
  }

  // ---- bare bitmaps ----------------------------------------------------------------------------------

  /** ws is the bitmap of the stream cs, which begins with a run when that run is short. */
  ghost predicate Rewrites(ws: seq<Word>, cs: seq<Chunk>) {
    && WfForm(Small(ws)) && WfStream(cs) && AllFull(cs)
    && Members(cs) == SmallMembers(ws)
    && (ShortRun(ws) ==> StartsRle(Chunked(cs)))
  }

  lemma OnlyLow(ws: seq<Word>, cs: seq<Chunk>)
    requires Rewrites(ws, cs)
    ensures cs == [] ==> ws == []
    ensures cs != [] ==> |cs| == 1 && cs[0].start == 0 && WfChunk(cs[0]) && Full(cs[0]) && ChunkMembers(cs[0]) == SmallMembers(ws)
  {
    hide WfRle, WfSparse, Members, SmallMembers, ShortRun;
    SmallBound(ws);
    LowStream(cs);
    HasOne(RleChunk(0, 0, 0));
    if cs == [] && ws != [] {
      BitmapFound(ws, SmallMembers(ws), 17);
      BitmapMember(SmallMembers(ws), 17);
    }
    if cs != [] {
      var x := FirstMember(cs, 0);
      assert Aligned(cs[0].start) && x < WINDOW;
      assert cs == [cs[0]];
      HasOne(cs[0]);
    }
  }

  /** A run-length rewriting: the run begins the first solid stretch of both. */
  lemma RunSolid(ws: seq<Word>, c: Chunk)
    requires WfChunk(c) && IsRle(c.desc) && c.start == 0 && ChunkMembers(c) == SmallMembers(ws)
    ensures Solid(Small(ws), 0, 0)
    ensures forall b: nat :: Solid(Chunked([c]), 0, b) <==> b == 0
  {
    hide ToNat;
    var len := RleLen(c.desc);
    RleMembers(c);
    assert RunFromZero(ws, len) by {
      forall x: nat ensures SmallHas(ws, x) <==> x < len {
        assert x in SmallMembers(ws) <==> x in ChunkMembers(c);
      }
    }
    if len >= 64 {
      assert SmallHas(ws, 0);
      forall k | 0 <= k < 64 ensures ws[0][k] == ONES[k] {
        assert SmallHas(ws, k);
      }
      WordExt(ws[0], ONES);
    }
    assert SolidSlot([c], 0, 0, 0, 0);
  }

  /** A sparse rewriting: its all-ones slots are the bitmap's words of ones. */
  lemma SlotsSolid(ws: seq<Word>, c: Chunk, v: nat)
    requires WfChunk(c) && !IsRle(c.desc) && c.start == 0 && ChunkMembers(c) == SmallMembers(ws) && v < SLOTS
    ensures FlagAt(c.desc, v).Ones? <==> v < |ws| && ws[v] == ONES
  {
    hide ChunkMembers, SmallMembers, MixedIn;
    IsSparse(c);
    SlotMembers(c, v);
    BitIn(ws, v, 0);
    if FlagAt(c.desc, v).Ones? {
      forall k | 0 <= k < 64 ensures ws[v][k] {
        BitIn(ws, v, k);
      }
      WordExt(ws[v], ONES);
    } else if v < |ws| && ws[v] == ONES && FlagAt(c.desc, v).Mixed? {
      var k := ClearBitOf(c, v);
      BitIn(ws, v, k);
    }
  }

  lemma BitIn(ws: seq<Word>, v: nat, k: nat)
    requires k < 64
    ensures 64 * v + k in SmallMembers(ws) <==> v < |ws| && ws[v][k]
  {
    assert (64 * v + k) / 64 == v && (64 * v + k) % 64 == k;
  }

  /** A mixed slot has a clear bit. */
  lemma ClearBitOf(c: Chunk, v: nat) returns (k: nat)
    requires WfSparse(c) && v < SLOTS && FlagAt(c.desc, v).Mixed?
    ensures k < 64 && c.start + 64 * v + k !in ChunkMembers(c)
  {
    hide ChunkHas;
    SlotMembers(c, v);
    MixedBound(c, v);
    var w := c.vecs[MixedIn(c.desc, 0, v)];
    assert w == SlotWord(c, v) != ONES;
    if forall k :: 0 <= k < 64 ==> w[k] {
      WordExt(w, ONES);
    }
    k :| 0 <= k < 64 && !w[k];
  }

  /** A bare bitmap snags where the chunk it is rewritten as does. */
  lemma SameSnags(ws: seq<Word>, cs: seq<Chunk>, n: nat, b: nat)
    requires Rewrites(ws, cs)
    ensures FirstSnag(Small(ws), 0, n, b) <==> FirstSnag(Chunked(cs), 0, n, b)
  {
    hide Count, SolidAt, WfStream, AllFull, Members, SmallMembers, FormMembers, ShortRun;
    var f, g := Small(ws), Chunked(cs);
    SmallForm(f);
    ChunkedForm(g);
    OnlyLow(ws, cs);
    CountNone(FormMembers(f), 0, 0);
    RewritesSet(ws, cs);
    if cs == [] {
      forall a: nat ensures Solid(f, 0, a) <==> Solid(g, 0, a) {
        NoneSolid(a);
      }
      SameFirstSnag(f, g, n, b);
    } else if IsRle(cs[0].desc) {
      assert cs == [cs[0]];
      RunSolid(ws, cs[0]);
      ZeroSnag(f, n, b);
      ZeroSnag(g, n, b);
    } else {
      assert cs == [cs[0]];
      forall a: nat ensures Solid(f, 0, a) <==> Solid(g, 0, a) {
        SameSolid(ws, cs[0], a);
      }
      SameFirstSnag(f, g, n, b);
    }
  }

  lemma SameFirstSnag(f: Form, g: Form, n: nat, b: nat)
    requires FormMembers(f) == FormMembers(g) && forall a: nat :: Solid(f, 0, a) <==> Solid(g, 0, a)
    ensures FirstSnag(f, 0, n, b) <==> FirstSnag(g, 0, n, b)
  {
    hide Count, FormMembers, Solid;
    assert forall a: nat :: Snag(f, 0, n, a) <==> Snag(g, 0, n, a);
  }

  /** With a solid stretch at 0 every rank from 2^63 on snags there. */
  lemma ZeroSnag(f: Form, n: nat, b: nat)
    requires Solid(f, 0, 0)
    ensures FirstSnag(f, 0, n, b) <==> b == 0 && n >= TWO63
  {
    hide Count, FormMembers, Solid;
    CountNone(FormMembers(f), 0, 0);
    if n >= TWO63 {
      assert Snag(f, 0, n, 0);
    }
  }

  lemma NoneSolid(b: nat)
    ensures !Solid(Small([]), 0, b) && !Solid(Chunked([]), 0, b)
  {
    RunNotEmpty([]);
  }

  lemma RunNotEmpty(ws: seq<Word>)
    ensures ShortRun(ws) ==> ws != []
  {
    if ShortRun(ws) {
      var n: nat :| 0 < n < 64 && RunFromZero(ws, n);
      assert SmallHas(ws, 0);
    }
  }

  lemma SameSolid(ws: seq<Word>, c: Chunk, b: nat)
    requires WfChunk(c) && !IsRle(c.desc) && c.start == 0 && ChunkMembers(c) == SmallMembers(ws) && !ShortRun(ws) && |ws| <= SMALL_MAX_WORDS
    ensures Solid(Small(ws), 0, b) <==> Solid(Chunked([c]), 0, b)
  {
    hide WfChunk, SmallMembers, ShortRun, FlagAt;
    forall v: nat | v < SLOTS ensures FlagAt(c.desc, v).Ones? <==> v < |ws| && ws[v] == ONES {
      SlotsSolid(ws, c, v);
    }
    var v := b / 64;
    if Solid(Small(ws), 0, b) {
      assert SolidSlot([c], 0, b, 0, v);
    }
    if Solid(Chunked([c]), 0, b) {
      var i: nat, w: nat :| SolidSlot([c], 0, b, i, w);
      assert b / 64 == w && b % 64 == 0;
    }
  }

  /** The answer for the rewritten chunk is the answer for the bitmap. */
  lemma SameChosen(ws: seq<Word>, cs: seq<Chunk>, n: nat, r: nat)
    requires Rewrites(ws, cs) && Chosen(Chunked(cs), 0, n, r)
    ensures Chosen(Small(ws), 0, n, r)
    ensures Overflows63(Small(ws), 0, 0, n) <==> Overflows63(Chunked(cs), 0, 0, n)
  {
    hide Count, Snag, WfStream, AllFull, Members, SmallMembers, Selected, Rewrites;
    RewritesSet(ws, cs);
    forall b: nat ensures FirstSnag(Small(ws), 0, n, b) <==> FirstSnag(Chunked(cs), 0, n, b) {
      SameSnags(ws, cs, n, b);
    }
    if Snags(Small(ws), 0, n) {
      var b: nat :| Snag(Small(ws), 0, n, b);
      var a := LeastSnag(Small(ws), 0, n, b);
      assert FirstSnag(Chunked(cs), 0, n, a);
    }
    if Snags(Chunked(cs), 0, n) {
      var b: nat :| Snag(Chunked(cs), 0, n, b);
      var a := LeastSnag(Chunked(cs), 0, n, b);
      assert FirstSnag(Small(ws), 0, n, a);
    }
  }

  lemma RewritesSet(ws: seq<Word>, cs: seq<Chunk>)
    requires Rewrites(ws, cs)
    ensures FormMembers(Small(ws)) == FormMembers(Chunked(cs))
  {
    hide WfForm, WfStream, AllFull, ShortRun;
    SmallForm(Small(ws));
    ChunkedForm(Chunked(cs));
  }

  /**
   * sm_select for set bits.  The answer is the one promised if and only if the walk does not snag,
   * or snags without harm; below 2^63 it never does.
   */
  method Select(m: Map?, n: nat) returns (r: nat, ghost wrapped: bool)
    requires Plain(m) && n < TWO64
    ensures r < TWO64
    ensures n < TWO63 ==> Selected(SetOf(m), n, r)
    ensures m == null ==> r == IDX_MAX && Selected(SetOf(m), n, r)
    ensures m != null ==> Chosen(m.form, 0, n, r) && (Selected(m.Set(), n, r) <==> Answers(m.form, 0, n))
    ensures wrapped <==> m != null && Overflows63(m.form, 0, 0, n)
  {
    hide Count, WfForm, Layout, FormMembers, AllFull, Members, SmallMembers, WfStream, Chosen, Rewrites, Overflows63, Answers, Selected;
    if m == null {
      NothingSelected(n);
      return IDX_MAX, false;
    }
    var v := AsChunks(m);
    r, wrapped := SelectChunks(v, n);
    if m.form.Small? {
      NowRewrites(m, v);
      SameChosen(m.form.words, v.Chunks(), n, r);
    }
    ChosenRight(m.form, 0, n, r);
    ChosenBelow(m.form, n, r);
  }

  lemma NothingSelected(n: nat)
    ensures Selected(iset{}, n, IDX_MAX)
  {
    CountNone(iset{}, 0, TOP);
  }

  lemma NowRewrites(m: Map, v: Map)
    requires m.Valid() && m.form.Small? && v.Valid() && v.form.Chunked? && v.Strict() && Members(v.Chunks()) == m.Set()
    requires ShortRun(m.form.words) ==> StartsRle(v.form)
    ensures Rewrites(m.form.words, v.Chunks()) && m.form == Small(m.form.words) && v.form == Chunked(v.Chunks())
  {
    hide Layout, SmallMembers, Members;
    SmallForm(m.form);
  }

  lemma ChosenBelow(f: Form, n: nat, r: nat)
    requires Chosen(f, 0, n, r)
    ensures n < TWO63 ==> Selected(FormMembers(f), n, r)
  {
    hide Selected, Snags, FirstSnag;
    if n < TWO63 {
      NoSnagBelow(f, 0, n);
    }
  }

  /** A single run snags at its start for every rank from 2^63 on. */
  lemma RunSnags(start: nat, cap: nat, len: nat)
    requires Aligned(start) && Aligned(cap) && start + cap <= TOP && 1 <= len <= cap <= RLE_LIMIT
    ensures var f := Chunked([RleChunk(start, cap, len)]);
      && WfForm(f) && FormMembers(f) == Range(start, start + len)
      && forall n: nat :: TWO63 <= n ==> FirstSnag(f, 0, n, start) && Count(FormMembers(f), 0, start) == 0
  {
    hide Count, RleDesc;
    var c := RleChunk(start, cap, len);
    var f := Chunked([c]);
    RleChunkWf(start, cap, len);
    WfOne(c);
    HasOne(c);
    RleChunkMembers(start, cap, len);
    ChunkedForm(f);
    CountNone(FormMembers(f), 0, start);
    assert SolidSlot([c], 0, start, 0, 0);
    forall a: nat | a < start ensures !Solid(f, 0, a) {
    }
  }

  /** Two ranks past 2^63 on a single run: the answers are not the sentinel that is promised, nor members. */
  lemma SelectExample(r: nat, q: nat)
    requires Chosen(Chunked([RleChunk(0, 2048, 2048)]), 0, TWO63, r)
    requires Chosen(Chunked([RleChunk(2048, 2048, 2048)]), 0, TWO64 - 1, q)
    ensures r == TWO63 && !Selected(Range(0, 2048), TWO63, r)
    ensures q == 2047 && !Selected(Range(2048, 4096), TWO64 - 1, q)
  {
    hide Count, RleDesc, WfForm, FormMembers, FirstSnag, Snags;
    AlignedConstants();
    RunSnags(0, 2048, 2048);
    RunSnags(2048, 2048, 2048);
    assert FirstSnag(Chunked([RleChunk(0, 2048, 2048)]), 0, TWO63, 0);
    assert FirstSnag(Chunked([RleChunk(2048, 2048, 2048)]), 0, TWO64 - 1, 2048);
  }

  lemma SelectedCases(s: iset<nat>, n: nat, r: nat)
    requires Selected(s, n, r) && forall x: nat :: x in s ==> x < TOP
    ensures r == IDX_MAX ==> Count(s, 0, TOP) <= n
    ensures r != IDX_MAX ==> IsNth(s, 0, n, r) && r < TOP && n < Count(s, 0, TOP)
  {
    hide Count;
    if r != IDX_MAX {
      NthBefore(s, 0, r, TOP);
    }
  }

  /** Select undoes rank: asking for the member with as many before it as x has gives x back. */
  lemma SelectInvertsRank(s: iset<nat>, x: nat, r: nat)
    requires x in s && x < TOP && Selected(s, Count(s, 0, x), r)
    ensures r == x
  {
    hide Count;
    NthBefore(s, 0, x, TOP);
    NthUnique(s, 0, Count(s, 0, x), x, if r == IDX_MAX then x else r);
  }
}
