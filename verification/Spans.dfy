// sm_span for set bits: ranks and selects alternate until a stretch of members is found.
module Spans {
  import opened Words
  import opened Chunks
  import opened Streams
  import opened Maps
  import opened Small
  import opened SetOps
  import opened Sweeps
  import opened Lookups
  import opened Counting
  import opened Offset
  import opened Ranks
  import opened Selects

  /** All of [p, p + len) are members. */
  ghost predicate SpanAt(s: iset<nat>, p: nat, len: nat) {
    forall x: nat :: p <= x < p + len ==> x in s
  }

  /** What sm_span answers: the least start at or past idx, or the last index when there is none. */
  ghost predicate LeastSpan(s: iset<nat>, idx: nat, len: nat, r: nat) {
    && (r != IDX_MAX ==> r >= idx && SpanAt(s, r, len))
    && (forall p: nat :: idx <= p && (r == IDX_MAX || p < r) ==> !SpanAt(s, p, len))
  }

  /** No span starts at a member with fewer than nth members before it. */
  ghost predicate NoSpanYet(s: iset<nat>, idx: nat, len: nat, nth: nat) {
    forall p: nat :: p in s && idx <= p && Count(s, 0, p) < nth ==> !SpanAt(s, p, len)
  }

  lemma {:induction false} CountMonotone(s: iset<nat>, lo: nat, mid: nat, hi: nat)
    requires lo <= mid <= hi
    ensures Count(s, lo, mid) <= Count(s, lo, hi)
  {
    CountSplit(s, lo, mid, hi);
  }

  /** The members before idx have smaller ranks than every member from idx on. */
  lemma SpanStart(s: iset<nat>, idx: nat, len: nat)
    ensures NoSpanYet(s, idx, len, Count(s, 0, idx))
  {
    hide Count, SpanAt;
    forall p: nat | idx <= p ensures Count(s, 0, idx) <= Count(s, 0, p) {
      CountMonotone(s, 0, idx, p);
    }
  }

  /** The member at rank nth starts no span: the search goes on with the next one. */
  lemma SpanMiss(s: iset<nat>, idx: nat, len: nat, nth: nat, p: nat)
    requires NoSpanYet(s, idx, len, nth) && IsNth(s, 0, nth, p) && !SpanAt(s, p, len)
    ensures NoSpanYet(s, idx, len, nth + 1)
  {
    hide Count, SpanAt;
    forall q: nat | q in s && idx <= q && Count(s, 0, q) < nth + 1 ensures !SpanAt(s, q, len) {
      if Count(s, 0, q) == nth {
        NthUnique(s, 0, nth, p, q);
      }
    }
  }

  /** The member at rank nth starts the first span. */
  lemma SpanHit(s: iset<nat>, idx: nat, len: nat, nth: nat, p: nat)
    requires NoSpanYet(s, idx, len, nth) && IsNth(s, 0, nth, p) && SpanAt(s, p, len) && len >= 1
    requires Count(s, 0, idx) <= nth && p < TOP
    ensures LeastSpan(s, idx, len, p)
  {
    hide Count;
    if p < idx {
      NthBefore(s, 0, p, idx);
    }
    forall q: nat | idx <= q && q < p ensures !SpanAt(s, q, len) {
      if q in s {
        NthBefore(s, 0, q, p);
      }
    }
  }

  /** No member is left: there is no span. */
  lemma SpanNone(s: iset<nat>, idx: nat, len: nat, nth: nat)
    requires NoSpanYet(s, idx, len, nth) && Count(s, 0, TOP) <= nth && len >= 1
    requires forall x: nat :: x in s ==> x < TOP
    ensures LeastSpan(s, idx, len, IDX_MAX)
  {
    hide Count;
    forall q: nat | idx <= q ensures !SpanAt(s, q, len) {
      if q in s {
        NthBefore(s, 0, q, TOP);
      }
    }
  }

  /** The count over a stretch decides whether it is a span; past the last index the range wraps round and counts nothing. */
  lemma SpanByCount(s: iset<nat>, p: nat, len: nat, n: nat)
    requires p < TWO64 && 1 <= len < TWO64 && forall x: nat :: x in s ==> x < TOP
    requires var end := (p + len - 1) % TWO64; n == if p > end then 0 else Count(s, p, end + 1)
    ensures n >= len <==> SpanAt(s, p, len)
  {
    hide Count;
    if p + len - 1 < TWO64 {
      if n >= len {
        CountFull(s, p, p + len);
      } else if SpanAt(s, p, len) {
        CountAll(s, p, p + len);
      }
    } else {
      assert p + len - 1 >= TOP;
      assert SpanAt(s, p, len) ==> p + len - 1 in s;
    }
  }

  ghost predicate FirstSolid(f: Form, b: nat) {
    Solid(f, 0, b) && forall a: nat :: a < b ==> !Solid(f, 0, a)
  }

  lemma {:induction false} LeastSolid(f: Form, b: nat) returns (a: nat)
    requires Solid(f, 0, b)
    ensures FirstSolid(f, a)
    decreases b
  {
    hide Solid;
    if c: nat :| c < b && Solid(f, 0, c) {
      a := LeastSolid(f, c);
    } else {
      a := b;
    }
  }

  lemma SnagEarlier(f: Form, n: nat, b: nat, a: nat)
    requires Solid(f, 0, b) && b <= a && Snag(f, 0, n, a)
    ensures Snag(f, 0, n, b)
  {
    hide Solid, Count, FormMembers;
    CountMonotone(FormMembers(f), 0, b, a);
  }

  lemma SnagsGrow(f: Form, n: nat, n': nat)
    requires n <= n'
    ensures Snags(f, 0, n) ==> Snags(f, 0, n')
  {
    hide Solid, Count, FormMembers;
    if b: nat :| Snag(f, 0, n, b) {
      assert Snag(f, 0, n', b);
    }
  }

  /** A snag anywhere is one at the first solid stretch. */
  lemma SnagAtFirst(f: Form, n: nat, b: nat, a: nat)
    requires FirstSolid(f, b) && FirstSnag(f, 0, n, a)
    ensures a == b
  {
    hide Solid, Count, FormMembers;
    SnagEarlier(f, n, b, a);
  }

  lemma CountCap(s: iset<nat>, idx: nat)
    requires forall x: nat :: x in s ==> x < TOP
    ensures Count(s, 0, idx) <= Count(s, 0, TOP)
  {
    hide Count;
    if idx <= TOP {
      CountMonotone(s, 0, idx, TOP);
    } else {
      CountSplit(s, 0, TOP, idx);
      CountNone(s, TOP, idx);
    }
  }

  /** Some rank past the last member is answered with the sentinel even by a walk that snags, so the search ends. */
  lemma SearchEnd(f: Form) returns (last: nat)
    requires WfForm(f)
    ensures Count(FormMembers(f), 0, TOP) < last < TWO64
    ensures forall r: nat :: Chosen(f, 0, last, r) ==> r == IDX_MAX
  {
    hide Count, FormMembers, WfForm, Solid, Snag, FirstSnag, FirstSolid, Selected;
    var s := FormMembers(f);
    FormBelow(f);
    last := Count(s, 0, TOP) + 1;
    if b: nat :| Solid(f, 0, b) {
      var a := LeastSolid(f, b);
      FirstIsSolid(f, a);
      SolidBelow(f, 0, a);
      last := IDX_MAX - a + Count(s, 0, a);
      FewMembers(s, a);
      CountSplit(s, 0, a, TOP);
      forall r: nat | Chosen(f, 0, last, r) ensures r == IDX_MAX {
        EndAnswer(f, last, a, r);
      }
    } else {
      forall r: nat | Chosen(f, 0, last, r) ensures r == IDX_MAX {
        NoSolidNoSnag(f, last);
        PastLast(s, last, r);
      }
    }
  }

  lemma FirstIsSolid(f: Form, b: nat)
    requires FirstSolid(f, b)
    ensures Solid(f, 0, b)
  {
  }

  lemma NoSolidNoSnag(f: Form, n: nat)
    requires forall b: nat :: !Solid(f, 0, b)
    ensures !Snags(f, 0, n)
  {
  }

  lemma EndAnswer(f: Form, last: nat, a: nat, r: nat)
    requires FirstSolid(f, a) && a < TOP && Chosen(f, 0, last, r) && forall x: nat :: x in FormMembers(f) ==> x < TOP
    requires last == IDX_MAX - a + Count(FormMembers(f), 0, a) && Count(FormMembers(f), 0, TOP) < last
    ensures r == IDX_MAX
  {
    hide Count, FormMembers, Solid, Snag, FirstSnag, FirstSolid, Selected;
    if Snags(f, 0, last) {
      var c: nat :| Snag(f, 0, last, c);
      var d := LeastSnag(f, 0, last, c);
      SnagAtFirst(f, last, a, d);
    } else {
      PastLast(FormMembers(f), last, r);
    }
  }

  lemma PastLast(s: iset<nat>, n: nat, r: nat)
    requires Selected(s, n, r) && Count(s, 0, TOP) < n && forall x: nat :: x in s ==> x < TOP
    ensures r == IDX_MAX
  {
    hide Count;
    if r != IDX_MAX {
      NthBefore(s, 0, r, TOP);
    }
  }

  /** No rank up to one past the last member snags, so every select of the search is right. */
  ghost predicate Sound(f: Form) {
    !Snags(f, 0, Count(FormMembers(f), 0, TOP) + 1)
  }

  /** Fewer than 2^63 - 1 members make the search sound. */
  lemma FewSound(f: Form)
    requires Count(FormMembers(f), 0, TOP) < TWO63 - 1
    ensures Sound(f)
  {
    hide Count, Snags;
    NoSnagBelow(f, 0, Count(FormMembers(f), 0, TOP) + 1);
  }

  lemma SoundSelect(f: Form, n: nat, r: nat)
    requires Sound(f) && Chosen(f, 0, n, r) && n <= Count(FormMembers(f), 0, TOP) + 1
    ensures Selected(FormMembers(f), n, r)
  {
    hide Count, FormMembers, Solid, Selected;
    SnagsGrow(f, n, Count(FormMembers(f), 0, TOP) + 1);
  }

  /** Where a search stands: no span found below rank nth, and offset is its select. */
  ghost predicate Searching(s: iset<nat>, idx: nat, len: nat, nth: nat, offset: nat) {
    NoSpanYet(s, idx, len, nth) && Selected(s, nth, offset) && Count(s, 0, idx) <= nth <= Count(s, 0, TOP)
  }

  lemma SearchBegins(f: Form, idx: nat, len: nat, offset: nat)
    requires WfForm(f) && Chosen(f, 0, Count(FormMembers(f), 0, idx), offset)
    ensures Sound(f) ==> Searching(FormMembers(f), idx, len, Count(FormMembers(f), 0, idx), offset)
  {
    hide Count, FormMembers, WfForm, NoSpanYet, Selected, Sound, Chosen;
    FormBelow(f);
    CountCap(FormMembers(f), idx);
    SpanStart(FormMembers(f), idx, len);
    if Sound(f) {
      SoundSelect(f, Count(FormMembers(f), 0, idx), offset);
    }
  }

  /** One more select, after one that began no span. */
  lemma SearchOn(f: Form, idx: nat, len: nat, nth: nat, offset: nat, next: nat)
    requires WfForm(f) && len >= 1 && Sound(f) && Searching(FormMembers(f), idx, len, nth, offset)
    requires !SpanAt(FormMembers(f), offset, len) && Chosen(f, 0, nth + 1, next)
    ensures next == IDX_MAX ==> LeastSpan(FormMembers(f), idx, len, IDX_MAX)
    ensures next != IDX_MAX ==> Searching(FormMembers(f), idx, len, nth + 1, next)
  {
    hide Count, FormMembers, WfForm, NoSpanYet, Selected, Sound, Chosen, SpanAt, LeastSpan;
    var s := FormMembers(f);
    FormBelow(f);
    SelectedCases(s, nth, offset);
    SoundSelect(f, nth + 1, next);
    SelectedCases(s, nth + 1, next);
    if offset == IDX_MAX {
      SpanNone(s, idx, len, nth);
    } else {
      SpanMiss(s, idx, len, nth, offset);
      if next == IDX_MAX {
        SpanNone(s, idx, len, nth + 1);
      }
    }
  }

  /**
   * sm_span for set bits, on a chunk-mode map.  The search always ends; its answer is right when
   * its selects are.
   */
  method SpanChunks(m: Map, idx: nat, len: nat) returns (offset: nat)
    requires m.Valid() && m.form.Chunked? && m.Strict() && 1 <= len < TWO64
    ensures Sound(m.form) ==> LeastSpan(m.Set(), idx, len, offset)
  {
    hide Count, Layout, WfStream, AllFull, Members, FormMembers, WfForm, Selected, Chosen, Sound, Searching, LeastSpan, SpanAt;
    ghost var f, s := m.form, m.Set();
    ChunkedForm(f);
    FormBelow(f);
    ghost var last := SearchEnd(f);
    var nth := 0;
    CountNone(s, 0, 0);
    if idx > 0 {
      nth := RankVec(m, 0, idx - 1);
    }
    CountCap(s, idx);
    ghost var wrapped;
    offset, wrapped := SelectChunks(m, nth);
    SearchBegins(f, idx, len, offset);
    while true
      invariant nth < last && offset < TWO64
      invariant Sound(f) ==> Searching(s, idx, len, nth, offset)
      decreases last - nth
    {
      var rank := 1;
      if len > 1 {
        rank := RankVec(m, offset, (offset + len - 1) % TWO64);
        SpanByCount(s, offset, len, rank);
      }
      if rank >= len {
        if Sound(f) {
          SpanFound(s, idx, len, nth, offset);
        }
        return;
      }
      ghost var before := offset;
      nth := nth + 1;
      offset, wrapped := SelectChunks(m, nth);
      if Sound(f) {
        SearchOn(f, idx, len, nth - 1, before, offset);
      }
      if offset == IDX_MAX {
        return;
      }
    }
  }

  lemma SpanFound(s: iset<nat>, idx: nat, len: nat, nth: nat, p: nat)
    requires Searching(s, idx, len, nth, p) && len >= 1 && forall x: nat :: x in s ==> x < TOP
    requires len == 1 || SpanAt(s, p, len)
    ensures LeastSpan(s, idx, len, p)
  {
    hide Count, NoSpanYet, LeastSpan;
    if p == IDX_MAX {
      SpanNone(s, idx, len, nth);
    } else {
      SpanHit(s, idx, len, nth, p);
    }
  }

  /** sm_span for set bits.  A map of fewer than 2^63 - 1 members is always answered right. */
  method FindSpan(m: Map?, idx: nat, len: nat) returns (r: nat)
    requires Plain(m) && 1 <= len < TWO64
    ensures Count(SetOf(m), 0, TOP) < TWO63 - 1 ==> LeastSpan(SetOf(m), idx, len, r)
    ensures m == null || m.form.Small? || Sound(m.form) ==> LeastSpan(SetOf(m), idx, len, r)
  {
    hide Count, WfForm, Layout, FormMembers, AllFull, Members, Sound, LeastSpan;
    if m == null {
      CountNone(iset{}, 0, TOP);
      NoSpanInNone(idx, len);
      return IDX_MAX;
    }
    var v := AsChunks(m);
    r := SpanChunks(v, idx, len);
    ChunkedForm(v.form);
    if m.form.Small? {
      SmallFew(m.form);
      FewSound(v.form);
    } else if Count(SetOf(m), 0, TOP) < TWO63 - 1 {
      FewSound(v.form);
    }
  }

  lemma NoSpanInNone(idx: nat, len: nat)
    requires len >= 1
    ensures LeastSpan(iset{}, idx, len, IDX_MAX)
  {
    CountNone(iset{}, 0, TOP);
    SpanNone(iset{}, idx, len, 0);
  }

  lemma SmallFew(f: Form)
    requires f.Small? && WfForm(f)
    ensures Count(FormMembers(f), 0, TOP) < TWO63 - 1
  {
    hide Count;
    SmallForm(f);
    SmallBound(f.words);
    CountSplit(FormMembers(f), 0, 64 * |f.words|, TOP);
    CountNone(FormMembers(f), 64 * |f.words|, TOP);
  }
}
