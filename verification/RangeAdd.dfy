// sm_add_range: the literal run is merged into the map's runs, and the result is laid out afresh.
module RangeAdd {
  import opened Words
  import opened Chunks
  import opened Streams
  import opened Codec
  import opened Maps
  import opened Appends
  import opened Emitter
  import opened Coalesce
  import opened Small
  import opened Adding
  import opened Footprints
  import opened SetOps
  import opened Runs
  import opened Sweeps
  import opened Offset
  import opened Rebuild
  import Counting
  import Ranks

  /** The merged run being accumulated, if there is one, and the runs still to be taken. */
  datatype Merge = Merge(haveCur: bool, cur: Run, haveRun: bool, run: Run, pending: bool, count: nat, first: Run)

  /** What is still to be taken: the map's current run and those after it, and the literal run. */
  ghost function Coming(g: Merge, rest: iset<nat>, lo: nat, hi: nat): iset<nat> {
    (if g.haveRun then Range(g.run.lo, g.run.hi) + rest else iset{}) + (if g.pending then Range(lo, hi) else iset{})
  }

  /** Emitted, accumulated and coming parts make up the result, in this order. */
  ghost predicate Merging(full: iset<nat>, e: iset<nat>, g: Merge, rest: iset<nat>, lo: nat, hi: nat) {
    && lo < hi
    && full == e + (if g.haveCur then Range(g.cur.lo, g.cur.hi) else iset{}) + Coming(g, rest, lo, hi)
    && (g.haveCur ==> g.cur.lo < g.cur.hi && (g.haveRun ==> g.cur.lo <= g.run.lo) && (g.pending ==> g.cur.lo <= lo))
    && (g.haveRun ==> g.run.lo < g.run.hi && forall x: nat :: x in rest ==> g.run.hi < x)
    && (!g.haveRun ==> rest == iset{})
    && (g.count == 0 ==> e == iset{})
    && (!g.haveCur ==> g.count == 0)
    && (g.count >= 1 ==> g.haveCur && g.first.lo < g.first.hi < g.cur.lo && g.first.lo in e && g.first.hi !in e)
  }

  lemma MergeStart(s: iset<nat>, have: bool, rlo: nat, rhi: nat, rest: iset<nat>, lo: nat, hi: nat)
    requires if have then FirstRun(s, rlo, rhi, rest) else s == iset{} && rest == iset{}
    requires lo < hi
    ensures Merging(s + Range(lo, hi), iset{}, Merge(false, Run(0, 0), have, Run(rlo, rhi), true, 0, Run(0, 0)), rest, lo, hi)
  {
  }

  /** Takes the literal run next. */
  lemma TakeLiteral(full: iset<nat>, e: iset<nat>, g: Merge, rest: iset<nat>, lo: nat, hi: nat)
    requires Merging(full, e, g, rest, lo, hi) && g.pending && (g.haveRun ==> lo <= g.run.lo)
    ensures Taken(full, e, g.(pending := false), rest, lo, hi, lo, hi)
  {
  }

  /** Takes the map's current run next; the one after it becomes current. */
  lemma TakeRun(full: iset<nat>, e: iset<nat>, g: Merge, rest: iset<nat>, lo: nat, hi: nat, have: bool, rlo: nat, rhi: nat, rest': iset<nat>)
    requires Merging(full, e, g, rest, lo, hi) && g.haveRun && (g.pending ==> g.run.lo < lo)
    requires if have then FirstRun(rest, rlo, rhi, rest') else rest == iset{} && rest' == iset{}
    ensures Taken(full, e, g.(haveRun := have, run := Run(rlo, rhi)), rest', lo, hi, g.run.lo, g.run.hi)
  {
    if have {
      FirstNotEmpty(rest, rlo, rhi, rest');
    }
  }

  /** As Merging, with the run [nlo, nhi) in hand. */
  ghost predicate Taken(full: iset<nat>, e: iset<nat>, g: Merge, rest: iset<nat>, lo: nat, hi: nat, nlo: nat, nhi: nat) {
    && lo < hi && nlo < nhi
    && full == e + (if g.haveCur then Range(g.cur.lo, g.cur.hi) else iset{}) + (Range(nlo, nhi) + Coming(g, rest, lo, hi))
    && (g.haveCur ==> g.cur.lo < g.cur.hi && g.cur.lo <= nlo)
    && (g.haveRun ==> nlo <= g.run.lo) && (g.pending ==> nlo <= lo)
    && (g.haveRun ==> g.run.lo < g.run.hi && forall x: nat :: x in rest ==> g.run.hi < x)
    && (!g.haveRun ==> rest == iset{})
    && (g.count == 0 ==> e == iset{})
    && (!g.haveCur ==> g.count == 0)
    && (g.count >= 1 ==> g.haveCur && g.first.lo < g.first.hi < g.cur.lo && g.first.lo in e && g.first.hi !in e)
  }

  /** The taken run starts the accumulation, joins it, or comes after a gap. */
  lemma Placed(full: iset<nat>, e: iset<nat>, g: Merge, rest: iset<nat>, lo: nat, hi: nat, nlo: nat, nhi: nat)
    requires Taken(full, e, g, rest, lo, hi, nlo, nhi)
    ensures !g.haveCur ==> Merging(full, e, g.(haveCur := true, cur := Run(nlo, nhi)), rest, lo, hi)
    ensures g.haveCur && nlo <= g.cur.hi ==>
      Merging(full, e, g.(cur := Run(g.cur.lo, if nhi > g.cur.hi then nhi else g.cur.hi)), rest, lo, hi)
    ensures g.haveCur && nlo > g.cur.hi ==>
      Merging(full, e + Range(g.cur.lo, g.cur.hi),
              g.(cur := Run(nlo, nhi), count := g.count + 1, first := if g.count == 0 then g.cur else g.first), rest, lo, hi)
    ensures g.haveCur ==> g.cur.lo < g.cur.hi && Range(g.cur.lo, g.cur.hi) <= full
  {
  }

  lemma MergeDone(full: iset<nat>, e: iset<nat>, g: Merge, rest: iset<nat>, lo: nat, hi: nat)
    requires Merging(full, e, g, rest, lo, hi) && !g.haveRun && !g.pending && g.haveCur
    ensures full == e + Range(g.cur.lo, g.cur.hi) && g.cur.lo < g.cur.hi && Range(g.cur.lo, g.cur.hi) <= full
    ensures if g.count == 0 then full == Range(g.cur.lo, g.cur.hi) else NotOneRun(full)
  {
    if g.count >= 1 {
      assert g.first.lo in full && g.first.hi !in full && g.cur.lo in full;
      forall a: nat, b: nat ensures full != Range(a, b) {
        assert g.first.lo in Range(a, b) && g.cur.lo in Range(a, b) ==> g.first.hi in Range(a, b);
      }
    }
  }

  ghost predicate NotOneRun(s: iset<nat>) {
    forall a: nat, b: nat :: s != Range(a, b)
  }

  lemma RangeBelow(full: iset<nat>, lo: nat, hi: nat)
    requires (forall x: nat :: x in full ==> x < TOP) && lo < hi && Range(lo, hi) <= full
    ensures hi <= TOP
  {
    assert hi - 1 in Range(lo, hi);
  }

  /** Emits one merged run. */
  method EmitMerged(e: Emitter, ghost full: iset<nat>, r: Run)
    requires e.Valid(true) && e.Ready(r.lo) && r.lo < r.hi && Range(r.lo, r.hi) <= full
    requires ShortRuns(full) && forall x: nat :: x in full ==> x < TOP
    modifies e, e.r, e.r.data
    ensures e.Valid(true) && e.Ready(r.hi)
    ensures e.Emitted() == old(e.Emitted()) + Range(r.lo, r.hi)
    ensures e.r.data == old(e.r.data) || fresh(e.r.data)
  {
    hide Range, ShortRuns, WfStream, AllFull, Members, WindowMembers, PrefixCaps, Floor, End, Layout;
    StretchShort(full, r.lo, r.hi);
    RangeBelow(full, r.lo, r.hi);
    e.EmitRun(true, r.lo, r.hi);
  }

  /** Puts the taken run in its place: begins, extends, or emits what was accumulated and begins anew. */
  method Place(e: Emitter, ghost full: iset<nat>, g: Merge, ghost rest: iset<nat>, ghost lo: nat, ghost hi: nat, nlo: nat, nhi: nat) returns (g': Merge)
    requires e.Valid(true) && Taken(full, e.Emitted(), g, rest, lo, hi, nlo, nhi)
    requires e.Ready(if g.haveCur then g.cur.lo else 0)
    requires ShortRuns(full) && forall x: nat :: x in full ==> x < TOP
    modifies e, e.r, e.r.data
    ensures e.Valid(true) && Merging(full, e.Emitted(), g', rest, lo, hi)
    ensures g'.haveCur && e.Ready(g'.cur.lo) && g'.haveRun == g.haveRun && g'.run == g.run && g'.pending == g.pending
    ensures e.r.data == old(e.r.data) || fresh(e.r.data)
  {
    hide Range, ShortRuns, WfStream, AllFull, Members, WindowMembers, PrefixCaps, Floor, End, Layout, Taken, Merging;
    Placed(full, e.Emitted(), g, rest, lo, hi, nlo, nhi);
    if !g.haveCur {
      g' := g.(haveCur := true, cur := Run(nlo, nhi));
      ReadyLater(e, 0, nlo);
    } else if nlo <= g.cur.hi {
      g' := g.(cur := Run(g.cur.lo, if nhi > g.cur.hi then nhi else g.cur.hi));
    } else {
      EmitMerged(e, full, g.cur);
      g' := g.(cur := Run(nlo, nhi), count := g.count + 1, first := if g.count == 0 then g.cur else g.first);
      ReadyLater(e, g.cur.hi, nlo);
    }
  }

  /** Takes whichever of the literal run and the map's current run begins first. */
  method TakeNext(it: RunIter, ghost full: iset<nat>, ghost e: iset<nat>, g: Merge, lo: nat, hi: nat) returns (g': Merge, nlo: nat, nhi: nat)
    requires it.Valid() && Merging(full, e, g, it.Rest(), lo, hi) && (g.haveRun || g.pending)
    modifies it
    ensures it.Valid() && Taken(full, e, g', it.Rest(), lo, hi, nlo, nhi) && g'.haveCur == g.haveCur && g'.cur == g.cur
    ensures if g'.pending == g.pending then g.haveRun && it.Steps() <= old(it.Steps()) && (g'.haveRun ==> it.Steps() < old(it.Steps()))
            else g.pending && g'.haveRun == g.haveRun && it.Steps() == old(it.Steps())
  {
    hide FirstRun, Raw, RawOk, Layout, Off, Range, Taken, Merging;
    var literal := if g.haveRun && g.pending then lo <= g.run.lo else g.pending;
    if literal {
      TakeLiteral(full, e, g, it.Rest(), lo, hi);
      return g.(pending := false), lo, hi;
    }
    ghost var rest := it.Rest();
    var have, rlo, rhi := it.Next();
    TakeRun(full, e, g, rest, lo, hi, have, rlo, rhi, it.Rest());
    return g.(haveRun := have, run := Run(rlo, rhi)), g.run.lo, g.run.hi;
  }

  /** Merges the literal run into the map's runs and emits the result. */
  method MergeRuns(it: RunIter, e: Emitter, lo: nat, hi: nat) returns (single: bool, first: Run)
    requires it.Valid() && e.Valid(true) && e.Frontier() == 0 && e.Emitted() == iset{} && lo < hi
    requires it.m != null ==> it.m != e.r && it.m.data != e.r.data
    requires ShortRuns(it.Rest() + Range(lo, hi)) && forall x: nat :: x in it.Rest() + Range(lo, hi) ==> x < TOP
    modifies it, e, e.r, e.r.data
    ensures e.Valid(true) && e.Emitted() == old(it.Rest()) + Range(lo, hi)
    ensures if single then first.lo < first.hi && e.Emitted() == Range(first.lo, first.hi) else NotOneRun(e.Emitted())
    ensures e.r.data == old(e.r.data) || fresh(e.r.data)
  {
    hide FirstRun, Raw, RawOk, Layout, Off, Range, ShortRuns, WfStream, AllFull, Members, WindowMembers, PrefixCaps, Floor, End, Taken, Merging, RunIter.Valid, RunIter.Rest, RunIter.Steps, Emitter.Valid, Emitter.Emitted, Emitter.Frontier, Emitter.Ready, NotOneRun;
    ghost var s := it.Rest();
    ghost var full := s + Range(lo, hi);
    var have, rlo, rhi := it.Next();
    MergeStart(s, have, rlo, rhi, it.Rest(), lo, hi);
    var g := Merge(false, Run(0, 0), have, Run(rlo, rhi), true, 0, Run(0, 0));
    ReadyZero(e);
    while g.haveRun || g.pending
      invariant it.Valid() && e.Valid(true) && (it.m != null ==> it.m != e.r && it.m.data != e.r.data)
      invariant Merging(full, e.Emitted(), g, it.Rest(), lo, hi)
      invariant e.Ready(if g.haveCur then g.cur.lo else 0) && (g.haveCur || g.pending)
      invariant e.r.data == old(e.r.data) || fresh(e.r.data)
      decreases it.Steps(), if g.haveRun then 1 else 0, if g.pending then 1 else 0
    {
      var t, nlo, nhi := TakeNext(it, full, e.Emitted(), g, lo, hi);
      g := Place(e, full, t, it.Rest(), lo, hi, nlo, nhi);
    }
    MergeDone(full, e.Emitted(), g, it.Rest(), lo, hi);
    EmitMerged(e, full, g.cur);
    return g.count == 0, g.cur;
  }

  /** Lays out a single run that starts and ends in one window as one run-length chunk. */
  method CompactRun(r: Map, run: Run)
    requires Open(r, true) && Members(r.Chunks()) == Range(run.lo, run.hi) && r.data.Length >= 3
    requires Aligned(run.lo) && run.lo < run.hi < run.lo + WINDOW && run.hi <= TOP
    modifies r, r.data
    ensures Open(r, true) && r.data == old(r.data) && Members(r.Chunks()) == Range(run.lo, run.hi)
    ensures r.Chunks() == [RleChunk(run.lo, WINDOW, run.hi - run.lo)]
  {
    hide CountHeader, U64, SetRle, SetRleCap, SetRleLen, WfStream, AllFull, Members, Range, WfChunk, Full;
    AlignedConstants();
    FloorTop(run.lo);
    FloorUnique(run.lo, run.lo);
    var len := run.hi - run.lo;
    var d := SetRleLen(SetRleCap(SetRle(ZERO), WINDOW), len);
    r.Store([CountHeader(1), U64(run.lo), d]);
    ghost var c := RleChunk(run.lo, WINDOW, len);
    RleChunkWf(run.lo, WINDOW, len);
    RleChunkMembers(run.lo, WINDOW, len);
    WfOne(c);
    HasOne(c);
    StreamOne(c);
    r.form := Chunked([c]);
  }

  /** A lone run that starts a window and does not fill it is laid out as one run-length chunk. */
  ghost predicate Compact(cs: seq<Chunk>, s: iset<nat>) {
    forall a: nat, b: nat :: s == Range(a, b) && Aligned(a) && a < b < a + WINDOW ==> cs == [RleChunk(a, WINDOW, b - a)]
  }

  lemma CompactOne(cs: seq<Chunk>, s: iset<nat>, r: Run)
    requires s == Range(r.lo, r.hi) && r.lo < r.hi
    requires Aligned(r.lo) && r.hi - r.lo < WINDOW ==> cs == [RleChunk(r.lo, WINDOW, r.hi - r.lo)]
    ensures Compact(cs, s)
  {
    hide RleChunk, Aligned;
    forall a: nat, b: nat | s == Range(a, b) && a < b ensures a == r.lo && b == r.hi {
      assert a in s && b - 1 in s && r.lo in s && r.hi - 1 in s;
    }
  }

  lemma CompactNone(cs: seq<Chunk>, s: iset<nat>)
    requires NotOneRun(s)
    ensures Compact(cs, s)
  {
  }

  lemma SomeWords(r: Map)
    requires Open(r, true) && Members(r.Chunks()) != iset{}
    ensures 3 <= r.data.Length
  {
    hide WfStream, AllFull;
    var cs := r.Chunks();
    EmptyIff(cs);
    LayoutLength(cs);
    StreamAt(cs, 0);
    assert r.form == Chunked(cs);
  }

  /** Replaces the stream of a lone run that starts a window and does not fill it. */
  method Tidy(r: Map, single: bool, first: Run, ghost full: iset<nat>)
    requires Open(r, true) && Members(r.Chunks()) == full && NoneJoin(r.Chunks(), |r.Chunks()|)
    requires forall x: nat :: x in full ==> x < TOP
    requires if single then first.lo < first.hi && full == Range(first.lo, first.hi) else NotOneRun(full)
    modifies r, r.data
    ensures Open(r, true) && r.data == old(r.data) && Members(r.Chunks()) == full
    ensures NoneJoin(r.Chunks(), |r.Chunks()|) && Compact(r.Chunks(), full)
  {
    hide Compact, NotOneRun, RleChunk, Aligned, Layout, WfStream, AllFull, Members, Range, NoneJoin;
    if !single {
      CompactNone(r.Chunks(), full);
      return;
    }
    RangeBelow(full, first.lo, first.hi);
    if Aligned(first.lo) && first.hi - first.lo < WINDOW {
      RangeNotEmpty(first.lo, first.hi);
      SomeWords(r);
      if 3 <= r.data.Length {
        CompactRun(r, first);
        NoneJoinOne(r.Chunks());
      }
    }
    CompactOne(r.Chunks(), full, first);
  }

  lemma RangeNotEmpty(lo: nat, hi: nat)
    requires lo < hi
    ensures Range(lo, hi) != iset{}
  {
    assert lo in Range(lo, hi);
  }

  /** Rebuilds the set of m with [lo, hi), its neighbouring runs joined. */
  method BuildRange(m: Map, lo: nat, hi: nat) returns (r: Map)
    requires m.Valid() && m.Strict() && lo < hi <= TOP
    requires ShortRuns(m.Set() + Range(lo, hi))
    ensures fresh(r) && fresh(r.data) && Open(r, true)
    ensures Members(r.Chunks()) == m.Set() + Range(lo, hi) && NoneJoin(r.Chunks(), |r.Chunks()|)
    ensures Compact(r.Chunks(), m.Set() + Range(lo, hi))
  {
    hide Compact, NotOneRun, RleChunk, Aligned, WfForm, FormMembers, Layout, Off, ShortRuns, WfStream, AllFull, Members, Range, NoneJoin, RunIter.Valid, RunIter.Steps, Emitter.Ready;
    MapBelow(m);
    assert SetOf(m) == m.Set();
    RangeTop(SetOf(m), lo, hi);
    var cap := m.used + 16;
    r := new Map(if cap > 128 then cap else 128);
    EmptyMap();
    EmptyEnd();
    var e := new Emitter(r, true);
    var it := new RunIter(m);
    var single, first := MergeRuns(it, e, lo, hi);
    e.Flush(true);
    ghost var full := m.Set() + Range(lo, hi);
    var _ := CoalesceMap(r);
    Tidy(r, single, first, full);
  }

  /**
   * sm_add_range: the map gains every index in [lo, hi), or is left alone when the result
   * does not fit its buffer.
   */
  method AddRange(m: Map, lo: nat, hi: nat) returns (ok: bool, ghost built: seq<Chunk>)
    requires m.Valid() && m.Strict() && hi <= TOP
    requires ShortRuns(m.Set() + Range(lo, hi))
    modifies m, m.data
    ensures m.Valid() && m.Strict() && m.data == old(m.data)
    ensures m.Set() == if ok then old(m.Set()) + Range(lo, hi) else old(m.Set())
    ensures lo < hi ==> Spells(built, old(m.Set()) + Range(lo, hi)) && NoneJoin(built, |built|)
    ensures lo < hi ==> Compact(built, old(m.Set()) + Range(lo, hi))
    ensures ok <==> lo >= hi || Footprint(built) <= m.data.Length
    ensures 1 + 8 * RunTotal(old(m.Set()) + Range(lo, hi)) <= m.data.Length ==> ok
    ensures if ok && lo < hi then (m.form.Small? || m.form == Chunked(built)) && Lean(m.form) else m.form == old(m.form) && m.used == old(m.used)
  {
    hide Lean, Compact, WfForm, FormMembers, Layout, ShortRuns, WfStream, AllFull, Members, Range, Spells, Footprint, NoneJoin, RunTotal;
    if lo >= hi {
      RangeEmpty(m.Set(), lo, hi);
      return true, [];
    }
    var r := BuildRange(m, lo, hi);
    OpenSpells(r);
    built := r.Chunks();
    CompactBound(built, old(m.Set()) + Range(lo, hi));
    if r.used > m.data.Length {
      return false, built;
    }
    CopyInto(m, r);
    return true, built;
  }

  /** A stream never takes more than 34 words a member and one: that many are never refused. */
  lemma RefusalBound(cs: seq<Chunk>, s: iset<nat>)
    requires Spells(cs, s)
    ensures Footprint(cs) <= 1 + 34 * Counting.Count(s, 0, TOP)
  {
    hide Layout, WfStream, AllFull, Members;
    var n := |cs|;
    Ranks.WholePrefix(cs);
    StreamBound(cs, n);
    LayoutLength(cs);
  }

  /** Every chunk holds a member of its own and takes at most 34 words. */
  lemma {:induction false} StreamBound(cs: seq<Chunk>, n: nat)
    requires WfStream(cs) && n <= |cs|
    ensures |Stream(cs[..n])| <= 34 * Counting.Count(Members(cs[..n]), 0, TOP)
  {
    hide Counting.Count, WfChunk, Members, Stream;
    if n == 0 {
      StreamEnds(cs);
    } else {
      StreamBound(cs, n - 1);
      StreamAt(cs, n - 1);
      Ranks.PrefixCount(cs, n - 1, 0, TOP);
      ChunkWords(cs[n - 1]);
      Ranks.OwnCount(cs[n - 1]);
    }
  }

  lemma ChunkWords(c: Chunk)
    requires WfChunk(c)
    ensures |Enc(c)| <= 34
  {
  }

  lemma NoneJoinOne(cs: seq<Chunk>)
    requires |cs| == 1
    ensures NoneJoin(cs, |cs|)
  {
  }

  lemma RangeTop(s: iset<nat>, lo: nat, hi: nat)
    requires hi <= TOP && forall x: nat :: x in s ==> x < TOP
    ensures forall x: nat :: x in s + Range(lo, hi) ==> x < TOP
  {
  }
}
