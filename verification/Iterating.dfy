// sm_next_member: the least member past a bound, with and without a cursor, and the
// enumeration of a map by repeated calls.
module Iterating {
  import opened Words
  import opened Chunks
  import opened Streams
  import opened Maps
  import opened Locate
  import opened Coalesce
  import opened Slots
  import opened Small
  import opened SetOps
  import opened Runs
  import opened Orders
  import opened Lex
  import opened Sweeps
  import opened Lookups
  import opened Counting
  import opened Ranks

  datatype Option<T> = None | Some(value: T)

  /** The least index past the bound; no bound means from the start. */
  function First(bound: Option<nat>): nat {
    if bound.None? then 0 else bound.value + 1
  }

  /** r is the least member of s at or past `from`, if there is one. */
  ghost predicate LeastFrom(s: iset<nat>, from: nat, r: Option<nat>) {
    match r
    case None => forall y: nat :: y in s ==> y < from
    case Some(x) => x in s && from <= x && forall y: nat :: y in s && from <= y ==> x <= y
  }

  /** No member at or past `from` lies below base. */
  ghost predicate Passed(s: iset<nat>, from: nat, base: nat) {
    forall y: nat :: y in s && from <= y ==> base <= y
  }

  /** The word shows the members at or past `from` among the 64 indices from base on. */
  ghost predicate Shows(word: Word, s: iset<nat>, base: nat, from: nat) {
    forall k :: 0 <= k < 64 ==> (word[k] <==> base + k in s && from <= base + k)
  }

  lemma MaskShows(w: Word, s: iset<nat>, base: nat, from: nat, skip: nat)
    requires forall k :: 0 <= k < 64 ==> (w[k] <==> base + k in s)
    requires skip == if from > base then from - base else 0
    ensures Shows(And(w, HighMask(skip)), s, base, from)
  {
  }

  lemma ShownAt(word: Word, s: iset<nat>, base: nat, from: nat, y: nat)
    requires Shows(word, s, base, from) && y in s && from <= y
    ensures base <= y < base + 64 ==> word[y - base]
  {
    if base <= y < base + 64 {
      var k := y - base;
      assert base + k == y;
    }
  }

  lemma WordHit(word: Word, s: iset<nat>, base: nat, from: nat, b: nat)
    requires Shows(word, s, base, from) && Passed(s, from, base)
    requires b < 64 && word[b] && forall k :: 0 <= k < b ==> !word[k]
    ensures LeastFrom(s, from, Some(base + b))
  {
    forall y: nat | y in s && from <= y ensures base + b <= y {
      ShownAt(word, s, base, from, y);
    }
  }

  lemma WordMiss(word: Word, s: iset<nat>, base: nat, from: nat)
    requires Shows(word, s, base, from) && Passed(s, from, base) && word == ZERO
    ensures Passed(s, from, base + 64)
  {
    forall y: nat | y in s && from <= y ensures base + 64 <= y {
      ShownAt(word, s, base, from, y);
    }
  }

  /** Sixty-four members in a row: the least at or past `from`. */
  lemma OnesHit(s: iset<nat>, base: nat, from: nat)
    requires Passed(s, from, base) && from < base + 64 && forall x: nat :: base <= x < base + 64 ==> x in s
    ensures LeastFrom(s, from, Some(if from > base then from else base))
  {
  }

  lemma NoneIn(s: iset<nat>, base: nat, from: nat)
    requires Passed(s, from, base) && ((forall x: nat :: base <= x < base + 64 ==> x !in s) || base + 64 <= from)
    ensures Passed(s, from, base + 64)
  {
  }

  /** The least member of a chunk past the bound. */
  method NextInChunk(c: Chunk, bound: Option<nat>) returns (r: Option<nat>)
    requires WfChunk(c)
    ensures LeastFrom(ChunkMembers(c), First(bound), r)
  {
    if IsRle(c.desc) {
      var hi := c.start + RleLen(c.desc) - 1;
      if bound.Some? && bound.value >= hi {
        return None;
      }
      if bound.None? || bound.value < c.start {
        return Some(c.start);
      }
      return Some(bound.value + 1);
    }
    r := NextInSparse(c, bound);
  }

  method NextInSparse(c: Chunk, bound: Option<nat>) returns (r: Option<nat>)
    requires WfSparse(c)
    ensures LeastFrom(ChunkMembers(c), First(bound), r)
  {
    hide ChunkMembers, FlagAt, WfSparse, MixedIn, ChunkHas, Passed, Shows, LeastFrom;
    ghost var s, from := ChunkMembers(c), First(bound);
    SparseStart(c, from);
    for v := 0 to SLOTS
      invariant Passed(s, from, c.start + 64 * v)
    {
      var lo := c.start + 64 * v;
      SlotMembers(c, v);
      if bound.Some? && lo + 63 <= bound.value {
        NoneIn(s, lo, from);
        continue;
      }
      var f := FlagAt(c.desc, v);
      if f == Unused || f == Zeros {
        NoneIn(s, lo, from);
        continue;
      }
      if f == Ones {
        OnesHit(s, lo, from);
        return Some(if bound.None? || bound.value < lo then lo else bound.value + 1);
      }
      MixedBound(c, v);
      var pos := Position(c.desc, v);
      var skip := 0;
      if bound.Some? && bound.value >= lo {
        skip := bound.value - lo + 1;
      }
      var masked := And(c.vecs[pos], HighMask(skip));
      MaskShows(c.vecs[pos], s, lo, from, skip);
      if masked == ZERO {
        WordMiss(masked, s, lo, from);
        continue;
      }
      var b := LowestBit(masked);
      WordHit(masked, s, lo, from, b);
      return Some(lo + b);
    }
    SparseEnd(c, from);
    return None;
  }

  lemma SparseStart(c: Chunk, from: nat)
    requires WfSparse(c)
    ensures Passed(ChunkMembers(c), from, c.start)
  {
  }

  lemma SparseEnd(c: Chunk, from: nat)
    requires WfSparse(c) && Passed(ChunkMembers(c), from, c.start + WINDOW)
    ensures LeastFrom(ChunkMembers(c), from, None)
  {
  }

  /** The least member of a bare bitmap past the bound. */
  method NextInSmall(m: Map, bound: Option<nat>) returns (r: Option<nat>)
    requires m.Valid() && m.form.Small?
    ensures LeastFrom(m.Set(), First(bound), r)
  {
    hide SmallMembers, Passed, Shows, LeastFrom, Layout;
    SmallForm(m.form);
    var ws := SmallWords(m);
    ghost var s := SmallMembers(ws);
    var from := First(bound);
    SmallEnd(ws, from);
    if bound.Some? && bound.value >= 64 * |ws| {
      return None;
    }
    var v := from / 64;
    if v >= |ws| {
      return None;
    }
    WordMembers(ws, v);
    SmallStart(s, from);
    MaskShows(ws[v], s, 64 * v, from, from % 64);
    var word := And(ws[v], HighMask(from % 64));
    while true
      invariant v < |ws| && Shows(word, s, 64 * v, from) && Passed(s, from, 64 * v)
      invariant from < 64 * (v + 1)
      decreases |ws| - v
    {
      if word != ZERO {
        var b := LowestBit(word);
        WordHit(word, s, 64 * v, from, b);
        return Some(64 * v + b);
      }
      WordMiss(word, s, 64 * v, from);
      v := v + 1;
      if v >= |ws| {
        return None;
      }
      WordMembers(ws, v);
      AllShows(ws[v], s, 64 * v, from);
      word := ws[v];
    }
  }

  lemma SmallStart(s: iset<nat>, from: nat)
    ensures Passed(s, from, 64 * (from / 64))
  {
  }

  lemma SmallEnd(ws: seq<Word>, from: nat)
    ensures from >= 64 * |ws| ==> LeastFrom(SmallMembers(ws), from, None)
    ensures Passed(SmallMembers(ws), from, 64 * |ws|) ==> LeastFrom(SmallMembers(ws), from, None)
  {
    SmallBound(ws);
  }

  lemma AllShows(w: Word, s: iset<nat>, base: nat, from: nat)
    requires from <= base && forall k :: 0 <= k < 64 ==> (w[k] <==> base + k in s)
    ensures Shows(w, s, base, from)
  {
  }

  // ---- over a stream ---------------------------------------------------------------------------

  /** Chunks that end at or before `from` hold nothing to hand out. */
  lemma SkipChunk(cs: seq<Chunk>, k: nat, from: nat)
    requires WfStream(cs) && k < |cs| && cs[k].start + Cap(cs[k]) <= from
    ensures LeastFrom(ChunkMembers(cs[k]), from, None)
  {
    forall y: nat | y in ChunkMembers(cs[k]) ensures y < from {
      ChunkHasBound(cs[k], y);
    }
  }

  /** No chunk before chunk k holds a member at or past `from`. */
  ghost predicate PassedChunks(cs: seq<Chunk>, k: nat, from: nat) {
    k <= |cs| && forall t :: 0 <= t < k ==> LeastFrom(ChunkMembers(cs[t]), from, None)
  }

  lemma PassChunk(cs: seq<Chunk>, k: nat, from: nat)
    requires PassedChunks(cs, k, from) && k < |cs| && LeastFrom(ChunkMembers(cs[k]), from, None)
    ensures PassedChunks(cs, k + 1, from)
  {
  }

  lemma PassedMember(cs: seq<Chunk>, k: nat, from: nat, i: nat, y: nat)
    requires PassedChunks(cs, k, from) && i < |cs| && ChunkHas(cs[i], y)
    ensures i < k ==> y < from
  {
    assert y in ChunkMembers(cs[i]);
  }

  /** A hit in chunk k is the least member at or past `from`. */
  lemma ChunkHit(cs: seq<Chunk>, k: nat, from: nat, r: Option<nat>)
    requires WfStream(cs) && PassedChunks(cs, k, from) && k < |cs| && r.Some? && LeastFrom(ChunkMembers(cs[k]), from, r)
    ensures LeastFrom(Members(cs), from, r)
  {
    var x := r.value;
    ChunkHasBound(cs[k], x);
    MemberOf(cs, k, x);
    forall y: nat | y in Members(cs) && from <= y ensures x <= y {
      var i :| 0 <= i < |cs| && ChunkHas(cs[i], y);
      PassedMember(cs, k, from, i, y);
      ChunkHasBound(cs[i], y);
      InOrder(cs, k, i);
      assert i == k ==> y in ChunkMembers(cs[k]);
    }
  }

  lemma AllPassed(cs: seq<Chunk>, from: nat)
    requires PassedChunks(cs, |cs|, from)
    ensures LeastFrom(Members(cs), from, None)
  {
    forall y: nat | y in Members(cs) ensures y < from {
      var i :| 0 <= i < |cs| && ChunkHas(cs[i], y);
      assert y in ChunkMembers(cs[i]);
    }
  }

  /** Resuming at a chunk that begins at or before the bound passes every chunk before it. */
  lemma ResumePassed(cs: seq<Chunk>, k: nat, from: nat)
    requires WfStream(cs) && k < |cs| && cs[k].start < from
    ensures PassedChunks(cs, k, from)
  {
    hide LeastFrom, ChunkMembers;
    StartsBefore(cs, k, from);
    forall t | 0 <= t < k ensures LeastFrom(ChunkMembers(cs[t]), from, None) {
      SkipChunk(cs, t, from);
    }
  }

  /** sm_next_member: the least member past the bound; a cursor only changes where the walk begins. */
  method NextMember(m: Map?, bound: Option<nat>, cur: Cursor?) returns (r: Option<nat>)
    requires Plain(m)
    requires m != null && cur != null && m.form.Chunked? ==> cur.Good(m.Chunks())
    modifies if cur == null then {} else {cur}
    ensures LeastFrom(SetOf(m), First(bound), r)
    ensures m != null && cur != null && m.form.Chunked? ==> cur.Good(m.Chunks())
  {
    hide WfForm, Layout, FormMembers, WfStream, Members, Off, Cap, WfChunk, LeastFrom, PassedChunks, ChunkMembers;
    if m == null {
      NothingLeft(First(bound));
      return None;
    }
    if m.IsSmall() {
      r := NextInSmall(m, bound);
      return;
    }
    ghost var cs := m.Chunks();
    ChunkedForm(m.form);
    WfOfForm(m.form);
    r := NextInStream(m, bound, cur);
  }

  lemma NothingLeft(from: nat)
    ensures LeastFrom(iset{}, from, None)
  {
  }

  /** Where the walk begins: at the cursor's chunk when it is of use, at the first chunk otherwise. */
  method WalkStart(m: Map, bound: Option<nat>, cur: Cursor?) returns (p: nat, ghost k: nat)
    requires m.Valid() && m.form.Chunked?
    requires cur != null ==> cur.Good(m.Chunks())
    ensures k <= |m.Chunks()| && p == 1 + Off(m.Chunks(), k) && PassedChunks(m.Chunks(), k, First(bound))
  {
    hide WfStream, Layout, Members, Off, Cap, WfChunk, PassedChunks, ChunkMembers;
    ghost var cs, from := m.Chunks(), First(bound);
    assert m.form == Chunked(cs);
    MoreChunks(cs, 0);
    NonePassed(cs, from);
    p, k := 1, 0;
    if bound.Some? && cur != null && cur.offset != 0 && cur.offset < m.used && cur.startIdx <= bound.value {
      ghost var j :| 0 <= j < |cs| && cur.offset == 1 + Off(cs, j) && cur.startIdx == cs[j].start;
      StartWord(m, cur.offset, j);
      if ToNat(m.data[cur.offset]) == cur.startIdx {
        p, k := cur.offset, j;
        ResumePassed(cs, j, from);
      }
    }
  }

  method NextInStream(m: Map, bound: Option<nat>, cur: Cursor?) returns (r: Option<nat>)
    requires m.Valid() && m.form.Chunked?
    requires cur != null ==> cur.Good(m.Chunks())
    modifies if cur == null then {} else {cur}
    ensures LeastFrom(Members(m.Chunks()), First(bound), r)
    ensures cur != null ==> cur.Good(m.Chunks())
  {
    hide WfStream, Layout, Members, Off, Cap, WfChunk, LeastFrom, PassedChunks, ChunkMembers;
    ghost var cs, from := m.Chunks(), First(bound);
    assert m.form == Chunked(cs) && m.used == |Layout(Chunked(cs))|;
    var p: nat;
    ghost var k: nat;
    p, k := WalkStart(m, bound, cur);
    MoreChunks(cs, k);
    while p < m.used
      invariant k <= |cs| && p == 1 + Off(cs, k) && PassedChunks(cs, k, from)
      invariant k < |cs| <==> p < m.used
      invariant cur != null ==> cur.Good(cs)
      decreases |cs| - k
    {
      var c := m.Load(p, k);
      OneOfThem(cs, k);
      OffNext(cs, k);
      MoreChunks(cs, k + 1);
      if bound.Some? && c.start + Cap(c) - 1 <= bound.value {
        SkipChunk(cs, k, from);
      } else {
        r := NextInChunk(c, bound);
        if r.Some? {
          ChunkHit(cs, k, from, r);
          if cur != null {
            cur.offset, cur.startIdx := p, c.start;
          }
          return;
        }
      }
      PassChunk(cs, k, from);
      p := p + 1 + Size(c.desc);
      k := k + 1;
    }
    AllPassed(cs, from);
    return None;
  }

  lemma NonePassed(cs: seq<Chunk>, from: nat)
    ensures PassedChunks(cs, 0, from)
  {
  }

  /** The members below n. */
  ghost function Below(s: iset<nat>, n: nat): iset<nat> {
    iset y: nat | y in s && y < n
  }

  /** One more member at the end of those enumerated so far. */
  lemma EnumerateStep(s: iset<nat>, xs: seq<nat>, bound: Option<nat>, x: nat)
    requires Lists(Below(s, First(bound)), xs)
    requires LeastFrom(s, First(bound), Some(x))
    ensures Lists(Below(s, First(Some(x))), xs + [x])
  {
    var below := Below(s, First(bound));
    var t := xs + [x];
    forall i, j | 0 <= i < j < |t| ensures t[i] < t[j] {
      assert xs[i] in xs;
    }
  }

  lemma EnumerateDone(s: iset<nat>, xs: seq<nat>, from: nat)
    requires Lists(Below(s, from), xs) && LeastFrom(s, from, None)
    ensures Lists(s, xs)
  {
    assert s == Below(s, from);
  }

  lemma {:induction false} ListingSplit(s: iset<nat>, lo: nat, mid: nat, hi: nat)
    requires lo <= mid <= hi
    ensures Listing(s, lo, hi) == Listing(s, lo, mid) + Listing(s, mid, hi)
    decreases mid - lo
  {
    if lo < mid {
      ListingSplit(s, lo + 1, mid, hi);
    }
  }

  /** The members below a bound are the first of all members. */
  lemma ListedPrefix(s: iset<nat>, from: nat, xs: seq<nat>)
    requires Lists(Below(s, from), xs) && from <= TOP && forall x: nat :: x in s ==> x < TOP
    ensures xs <= Ascending(s)
    ensures LeastFrom(s, from, None) ==> xs == Ascending(s)
    ensures forall x: nat :: LeastFrom(s, from, Some(x)) ==> |xs| < |Ascending(s)|
  {
    hide Ascending, Listing;
    BoundedListed(s, TOP);
    ListingSplit(s, 0, from, TOP);
    ListingLists(s, 0, from);
    ListingLists(s, from, TOP);
    ListsUnique(Below(s, from), xs, Listing(s, 0, from));
    if LeastFrom(s, from, None) {
      EnumerateDone(s, xs, from);
      AscendingIs(s, xs);
    }
    forall x: nat | LeastFrom(s, from, Some(x)) ensures Listing(s, from, TOP) != [] {
      assert x in Listing(s, from, TOP);
    }
  }

  /**
   * sm_to_array: repeated calls enumerate the map ascending into the front of out, until cap
   * members are written; without an array the members are only counted.
   */
  method ToArray(m: Map?, out: array?<nat>, cap: nat) returns (n: nat)
    requires Plain(m) && (out != null ==> cap <= out.Length)
    modifies if out == null then {} else {out}
    ensures out == null ==> n == Count(SetOf(m), 0, TOP)
    ensures out != null ==> n == if cap < |Ascending(SetOf(m))| then cap else |Ascending(SetOf(m))|
    ensures out != null ==> n <= out.Length && out[..n] == Ascending(SetOf(m))[..n] && out[n..] == old(out[n..])
  {
    hide Lists, LeastFrom, Ascending, Count, FormMembers, WfForm, Layout, Below;
    ghost var s := SetOf(m);
    MapBelow(m);
    if out == null {
      var empty := IsEmpty(m);
      if empty {
        CountNone(iset{}, 0, TOP);
        return 0;
      }
      n := Cardinality(m);
      return;
    }
    n := 0;
    var bound: Option<nat> := None;
    NoneListed(s);
    while true
      invariant n <= cap && Lists(Below(s, First(bound)), out[..n])
      invariant forall i :: n <= i < out.Length ==> out[i] == old(out[i])
      invariant First(bound) <= TOP
      decreases TOP - First(bound)
    {
      var next := NextMember(m, bound, null);
      ListedPrefix(s, First(bound), out[..n]);
      if next.None? || n >= cap {
        return;
      }
      EnumerateStep(s, out[..n], bound, next.value);
      LeastIn(s, First(bound), next.value);
      ghost var xs := out[..n];
      out[n] := next.value;
      n := n + 1;
      assert out[..n] == xs + [next.value];
      bound := next;
    }
  }

  lemma NoneListed(s: iset<nat>)
    ensures Lists(Below(s, 0), [])
  {
  }

  lemma LeastIn(s: iset<nat>, from: nat, x: nat)
    requires LeastFrom(s, from, Some(x))
    ensures x in s && from <= x
  {
  }
}
