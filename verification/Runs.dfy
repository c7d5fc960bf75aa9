// The maximal-run iterator: whatever the encoding, the members come out as ascending runs
// that do not touch.
module Runs {
  import opened Words
  import opened Chunks
  import opened Streams
  import opened Maps
  import opened RunLengths
  import opened Locate
  import opened Slots
  import opened Small
  import opened Adding
  import opened SetOps

  /** A half-open run of indices. */
  datatype Run = Run(lo: nat, hi: nat)

  ghost predicate Sorted(xs: seq<nat>) {
    forall i, j :: 0 <= i < j < |xs| ==> xs[i] <= xs[j]
  }

  /** Ascending runs, none empty, no two touching. */
  ghost predicate Separated(rs: seq<Run>) {
    && (forall i :: 0 <= i < |rs| ==> rs[i].lo < rs[i].hi)
    && (forall i, j :: 0 <= i < j < |rs| ==> rs[i].hi < rs[j].lo)
  }

  ghost predicate InRuns(rs: seq<Run>, x: nat) {
    exists i :: 0 <= i < |rs| && rs[i].lo <= x < rs[i].hi
  }

  ghost function RunSet(rs: seq<Run>): iset<nat> {
    iset x: nat | InRuns(rs, x)
  }

  /** rs is the decomposition of the members of s below pos into maximal runs. */
  ghost predicate Scanned(rs: seq<Run>, s: iset<nat>, pos: nat) {
    && Separated(rs)
    && (forall x: nat :: InRuns(rs, x) <==> x in s && x < pos)
    && (rs != [] ==> rs[|rs| - 1].hi <= pos)
  }

  /** rs with the run [lo, hi) added at its end, joined to the last run when that one ends at lo. */
  function Extend(rs: seq<Run>, lo: nat, hi: nat): (r: seq<Run>)
    ensures r != []
  {
    if rs != [] && rs[|rs| - 1].hi == lo then rs[|rs| - 1 := Run(rs[|rs| - 1].lo, hi)] else rs + [Run(lo, hi)]
  }

  lemma ExtendSeparated(rs: seq<Run>, lo: nat, hi: nat)
    requires Separated(rs) && lo < hi && (rs != [] ==> rs[|rs| - 1].hi <= lo)
    ensures Separated(Extend(rs, lo, hi))
  {
  }

  lemma ExtendHas(rs: seq<Run>, lo: nat, hi: nat, x: nat)
    requires Separated(rs) && lo < hi && (rs != [] ==> rs[|rs| - 1].hi <= lo)
    ensures InRuns(Extend(rs, lo, hi), x) <==> InRuns(rs, x) || lo <= x < hi
  {
    hide Separated;
    var n := |rs|;
    var r := Extend(rs, lo, hi);
    LastNotEmpty(rs);
    if InRuns(rs, x) {
      var i :| 0 <= i < n && rs[i].lo <= x < rs[i].hi;
      assert r[i].lo <= x < r[i].hi;
    }
    if lo <= x < hi {
      assert r[|r| - 1].lo <= x < r[|r| - 1].hi;
    }
    if InRuns(r, x) {
      var i :| 0 <= i < |r| && r[i].lo <= x < r[i].hi;
      if i < n && !(lo <= x < hi) {
        assert rs[i].lo <= x < rs[i].hi;
      }
    }
  }

  lemma LastNotEmpty(rs: seq<Run>)
    requires Separated(rs)
    ensures rs != [] ==> rs[|rs| - 1].lo < rs[|rs| - 1].hi
  {
  }

  lemma ExtendRuns(rs: seq<Run>, lo: nat, hi: nat)
    requires Separated(rs) && lo < hi && (rs != [] ==> rs[|rs| - 1].hi <= lo)
    ensures Separated(Extend(rs, lo, hi))
    ensures forall x: nat :: InRuns(Extend(rs, lo, hi), x) <==> InRuns(rs, x) || lo <= x < hi
  {
    hide Separated, Extend, InRuns;
    ExtendSeparated(rs, lo, hi);
    forall x: nat ensures InRuns(Extend(rs, lo, hi), x) <==> InRuns(rs, x) || lo <= x < hi {
      ExtendHas(rs, lo, hi, x);
    }
  }

  /** A stretch of members ends the scan with a longer run. */
  lemma ScanOn(rs: seq<Run>, s: iset<nat>, pos: nat, hi: nat)
    requires Scanned(rs, s, pos) && pos < hi && forall x: nat :: pos <= x < hi ==> x in s
    ensures Scanned(Extend(rs, pos, hi), s, hi)
  {
    hide Separated, InRuns;
    ExtendRuns(rs, pos, hi);
  }

  /** A stretch without members leaves the runs alone. */
  lemma ScanOff(rs: seq<Run>, s: iset<nat>, pos: nat, hi: nat)
    requires Scanned(rs, s, pos) && pos <= hi && forall x: nat :: pos <= x < hi ==> x !in s
    ensures Scanned(rs, s, hi)
  {
    hide Separated, InRuns;
  }

  lemma ScanNone(s: iset<nat>, pos: nat)
    requires forall x: nat :: x in s ==> pos <= x
    ensures Scanned([], s, pos)
  {
  }

  /** Runs that do not touch take at least two indices each. */
  lemma {:induction false} FewRuns(rs: seq<Run>, a: nat, n: nat)
    requires Separated(rs) && n < |rs| && a <= rs[0].lo
    ensures a + 2 * n <= rs[n].lo
  {
    if n > 0 {
      FewRuns(rs, a, n - 1);
    }
  }

  lemma RunCount(rs: seq<Run>, a: nat, b: nat)
    requires Separated(rs) && (rs != [] ==> a <= rs[0].lo && rs[|rs| - 1].hi <= b) && a <= b
    ensures 2 * |rs| <= b - a + 1
  {
    if rs != [] {
      FewRuns(rs, a, |rs| - 1);
    }
  }

  // ---- decoding -------------------------------------------------------------------------------

  /** The runs found so far: the closed ones and, when open, the current one. */
  function Found(closed: seq<Run>, open: bool, cur: Run): seq<Run> {
    closed + if open then [cur] else []
  }

  /** Adds [lo, hi) to the runs found: joins the open run when it ends at lo, and otherwise closes it. */
  method Push(closed: seq<Run>, open: bool, cur: Run, lo: nat, hi: nat) returns (closed': seq<Run>, cur': Run)
    requires !open && closed != [] ==> closed[|closed| - 1].hi != lo
    ensures Found(closed', true, cur') == Extend(Found(closed, open, cur), lo, hi)
  {
    if open && cur.hi == lo {
      return closed, Run(cur.lo, hi);
    }
    return Found(closed, open, cur), Run(lo, hi);
  }

  /** Nothing touches pos unless a run is open. */
  ghost predicate Gap(closed: seq<Run>, open: bool, pos: nat) {
    !open && closed != [] ==> closed[|closed| - 1].hi < pos
  }

  /** Scans the 64 bits of a word at base. */
  method ScanWord(w: Word, base: nat, closed: seq<Run>, open: bool, cur: Run, ghost s: iset<nat>)
    returns (closed': seq<Run>, open': bool, cur': Run)
    requires Scanned(Found(closed, open, cur), s, base) && Gap(closed, open, base)
    requires forall k :: 0 <= k < 64 ==> (w[k] <==> base + k in s)
    ensures Scanned(Found(closed', open', cur'), s, base + 64) && Gap(closed', open', base + 64)
  {
    hide Scanned, Separated, InRuns, Extend;
    closed', open', cur' := closed, open, cur;
    for b := 0 to 64
      invariant Scanned(Found(closed', open', cur'), s, base + b) && Gap(closed', open', base + b)
    {
      if w[b] {
        ScanOn(Found(closed', open', cur'), s, base + b, base + b + 1);
        closed', cur' := Push(closed', open', cur', base + b, base + b + 1);
        open' := true;
      } else {
        ScanOff(Found(closed', open', cur'), s, base + b, base + b + 1);
      }
    }
  }

  /** The runs of one chunk. */
  method DecodeChunk(c: Chunk) returns (rs: seq<Run>)
    requires WfChunk(c)
    ensures Scanned(rs, ChunkMembers(c), c.start + Span(c))
    ensures rs != [] ==> c.start <= rs[0].lo
    ensures |rs| <= WINDOW / 2
  {
    hide ChunkMembers, InRuns, Separated, ChunkHas;
    if IsRle(c.desc) {
      rs := [Run(c.start, c.start + RleLen(c.desc))];
      RunDecoded(c);
      return;
    }
    rs := DecodeSparse(c);
    DecodedBounds(c, rs);
  }

  lemma RunDecoded(c: Chunk)
    requires WfChunk(c) && IsRle(c.desc)
    ensures Scanned([Run(c.start, c.start + RleLen(c.desc))], ChunkMembers(c), c.start + Span(c))
  {
    var rs := [Run(c.start, c.start + RleLen(c.desc))];
    forall x: nat ensures InRuns(rs, x) <==> x in ChunkMembers(c) && x < c.start + Span(c) {
      if c.start <= x < c.start + RleLen(c.desc) {
        assert rs[0].lo <= x < rs[0].hi;
      }
    }
  }

  lemma DecodedBounds(c: Chunk, rs: seq<Run>)
    requires WfChunk(c) && !IsRle(c.desc) && Scanned(rs, ChunkMembers(c), c.start + WINDOW)
    ensures rs != [] ==> c.start <= rs[0].lo
    ensures |rs| <= WINDOW / 2
  {
    if rs != [] {
      assert InRuns(rs, rs[0].lo);
      assert rs[0].lo in ChunkMembers(c);
      ChunkHasBound(c, rs[0].lo);
    }
    RunCount(rs, c.start, c.start + WINDOW);
  }

  /** The runs of a sparse chunk, slot by slot. */
  method DecodeSparse(c: Chunk) returns (rs: seq<Run>)
    requires WfSparse(c)
    ensures Scanned(rs, ChunkMembers(c), c.start + WINDOW)
  {
    hide Scanned, ChunkMembers, ChunkHas, FlagAt, WfSparse, Extend, MixedIn;
    var closed: seq<Run>, open, cur, pos := [], false, Run(0, 0), 0;
    ghost var s := ChunkMembers(c);
    NoneBelow(c);
    assert Found(closed, open, cur) == [];
    for v := 0 to SLOTS
      invariant pos == MixedIn(c.desc, 0, v)
      invariant Scanned(Found(closed, open, cur), s, c.start + 64 * v) && Gap(closed, open, c.start + 64 * v)
    {
      var f := FlagAt(c.desc, v);
      var base := c.start + 64 * v;
      SlotMembers(c, v);
      MixedStep(c.desc, v);
      if f == Ones {
        ScanOn(Found(closed, open, cur), s, base, base + 64);
        closed, cur := Push(closed, open, cur, base, base + 64);
        open := true;
      } else if f == Mixed {
        closed, open, cur := ScanWord(c.vecs[pos], base, closed, open, cur, s);
        pos := pos + 1;
      } else {
        ScanOff(Found(closed, open, cur), s, base, base + 64);
        ScanEnd(Found(closed, open, cur), s, base);
        closed, open := Found(closed, open, cur), false;
        assert Found(closed, open, cur) == closed;
      }
    }
    rs := Found(closed, open, cur);
  }

  lemma ScanEnd(rs: seq<Run>, s: iset<nat>, pos: nat)
    requires Scanned(rs, s, pos + 64) && forall x: nat :: pos <= x < pos + 64 ==> x !in s
    ensures rs != [] ==> rs[|rs| - 1].hi < pos + 64
  {
    if rs != [] {
      var last := rs[|rs| - 1];
      assert last.lo <= last.hi - 1 < last.hi;
      assert InRuns(rs, last.hi - 1);
    }
  }

  lemma NoneBelow(c: Chunk)
    requires WfSparse(c)
    ensures Scanned([], ChunkMembers(c), c.start)
  {
    forall x: nat | x in ChunkMembers(c) ensures c.start <= x {
      ChunkHasBound(c, x);
    }
  }

  lemma MixedStep(d: Word, v: nat)
    requires v < SLOTS
    ensures MixedIn(d, 0, v + 1) == MixedIn(d, 0, v) + if FlagAt(d, v).Mixed? then 1 else 0
  {
  }

  /** What a slot's flag says about the members in it. */
  lemma SlotMembers(c: Chunk, v: nat)
    requires WfSparse(c) && v < SLOTS
    ensures var f, base, pos := FlagAt(c.desc, v), c.start + 64 * v, MixedIn(c.desc, 0, v);
      && (f == Ones ==> forall x: nat :: base <= x < base + 64 ==> x in ChunkMembers(c))
      && (f == Mixed ==> pos < |c.vecs| && forall k :: 0 <= k < 64 ==> (c.vecs[pos][k] <==> base + k in ChunkMembers(c)))
      && (f != Ones && f != Mixed ==> forall x: nat :: base <= x < base + 64 ==> x !in ChunkMembers(c))
  {
    hide ChunkHas, MixedIn, WfSparse;
    var base := c.start + 64 * v;
    MixedBound(c, v);
    forall x: nat | base <= x < base + 64 ensures x in ChunkMembers(c) <==> SlotWord(c, v)[x - base] {
      SlotBit(c, v, x - base);
    }
    forall k | 0 <= k < 64 ensures SlotWord(c, v)[k] <==> base + k in ChunkMembers(c) {
      SlotBit(c, v, k);
    }
  }

  lemma MixedBound(c: Chunk, v: nat)
    requires WfSparse(c) && v < SLOTS
    ensures !IsRle(c.desc) && (FlagAt(c.desc, v).Mixed? ==> MixedIn(c.desc, 0, v) < |c.vecs|)
  {
    MixedPosition(c.desc, v);
  }

  /** The runs of a bare bitmap. */
  method DecodeSmall(ws: seq<Word>) returns (rs: seq<Run>)
    ensures Scanned(rs, SmallMembers(ws), 64 * |ws|)
    ensures |ws| <= SMALL_MAX_WORDS ==> |rs| <= WINDOW / 2
  {
    hide Scanned, SmallMembers, Extend;
    var closed: seq<Run>, open, cur := [], false, Run(0, 0);
    ghost var s := SmallMembers(ws);
    ScanNone(s, 0);
    assert Found(closed, open, cur) == [];
    for i := 0 to |ws|
      invariant Scanned(Found(closed, open, cur), s, 64 * i) && Gap(closed, open, 64 * i)
    {
      WordMembers(ws, i);
      closed, open, cur := ScanWord(ws[i], 64 * i, closed, open, cur, s);
    }
    rs := Found(closed, open, cur);
    SmallCountBound(rs, s, 64 * |ws|);
  }

  lemma SmallCountBound(rs: seq<Run>, s: iset<nat>, n: nat)
    requires Scanned(rs, s, n)
    ensures n <= SMALL_MAX_BITS ==> |rs| <= WINDOW / 2
  {
    RunCount(rs, 0, n);
  }

  lemma WordMembers(ws: seq<Word>, i: nat)
    requires i < |ws|
    ensures forall k :: 0 <= k < 64 ==> (ws[i][k] <==> 64 * i + k in SmallMembers(ws))
  {
    forall k | 0 <= k < 64 ensures ws[i][k] <==> 64 * i + k in SmallMembers(ws) {
      SlotPlace(64 * i + k, i, k);
    }
  }

  // ---- the iterator ------------------------------------------------------------------------------

  /** What is left to read: the decoded runs from `next` on, and the chunks from `idx` on. */
  ghost function Raw(cs: seq<Chunk>, idx: nat, runs: seq<Run>, next: nat): iset<nat> {
    if idx <= |cs| && next <= |runs| then RunSet(runs[next..]) + Members(cs[idx..]) else iset{}
  }

  ghost predicate RawOk(cs: seq<Chunk>, idx: nat, runs: seq<Run>, next: nat) {
    && WfStream(cs) && idx <= |cs|
    && Separated(runs) && next <= |runs|
    && (runs != [] && idx < |cs| ==> runs[|runs| - 1].hi <= cs[idx].start)
  }

  /** [lo, hi) is the first part of s, and rest is what follows it. */
  ghost predicate FirstPart(s: iset<nat>, lo: nat, hi: nat, rest: iset<nat>) {
    && lo < hi
    && s == Range(lo, hi) + rest
    && forall x: nat :: x in rest ==> hi <= x
  }

  /** [lo, hi) is the first maximal run of s, and rest is what follows it. */
  ghost predicate FirstRun(s: iset<nat>, lo: nat, hi: nat, rest: iset<nat>) {
    FirstPart(s, lo, hi, rest) && hi !in rest
  }

  lemma RunSetSplit(rs: seq<Run>, i: nat, a: seq<Run>, b: seq<Run>)
    requires Separated(rs) && i < |rs| && a == rs[i..] && b == rs[i + 1..]
    ensures RunSet(a) == Range(rs[i].lo, rs[i].hi) + RunSet(b)
    ensures forall x: nat :: x in RunSet(b) ==> rs[i].hi < x < rs[|rs| - 1].hi
  {
    forall x: nat ensures x in RunSet(a) <==> x in Range(rs[i].lo, rs[i].hi) + RunSet(b) {
      if InRuns(a, x) {
        var j :| 0 <= j < |a| && a[j].lo <= x < a[j].hi;
        if j > 0 {
          assert b[j - 1].lo <= x < b[j - 1].hi;
        }
      }
      if InRuns(b, x) {
        var j :| 0 <= j < |b| && b[j].lo <= x < b[j].hi;
        assert a[j + 1].lo <= x < a[j + 1].hi;
      }
      if x in Range(rs[i].lo, rs[i].hi) {
        assert a[0].lo <= x < a[0].hi;
      }
    }
    forall x: nat | InRuns(b, x) ensures rs[i].hi < x < rs[|rs| - 1].hi {
      var j :| 0 <= j < |b| && b[j].lo <= x < b[j].hi;
      assert b[j] == rs[i + 1 + j];
    }
  }

  lemma SuffixStart(cs: seq<Chunk>, i: nat)
    requires WfStream(cs) && i <= |cs|
    ensures i < |cs| ==> forall x: nat :: x in Members(cs[i..]) ==> cs[i].start <= x
    ensures i == |cs| ==> Members(cs[i..]) == iset{}
  {
    forall x: nat | x in Members(cs[i..]) && i < |cs| ensures cs[i].start <= x {
      var j :| 0 <= j < |cs[i..]| && ChunkHas(cs[i..][j], x);
      assert cs[i..][j] == cs[i + j];
      ChunkHasBound(cs[i + j], x);
    }
  }

  /** The next decoded run is the first part of what is left. */
  lemma RawDrain(cs: seq<Chunk>, idx: nat, runs: seq<Run>, next: nat)
    requires RawOk(cs, idx, runs, next) && next < |runs|
    ensures FirstPart(Raw(cs, idx, runs, next), runs[next].lo, runs[next].hi, Raw(cs, idx, runs, next + 1))
    ensures RawOk(cs, idx, runs, next + 1)
  {
    hide WfStream, Members, RunSet, Range, Separated;
    RunSetSplit(runs, next, runs[next..], runs[next + 1..]);
    SuffixStart(cs, idx);
    RunAt(runs, next);
  }

  lemma RunAt(rs: seq<Run>, i: nat)
    requires Separated(rs) && i < |rs|
    ensures rs[i].lo < rs[i].hi <= rs[|rs| - 1].hi
  {
  }

  /** Decoding the next chunk, once the runs are used up, leaves the same set to read. */
  lemma RawDecode(cs: seq<Chunk>, idx: nat, runs: seq<Run>, rs: seq<Run>)
    requires RawOk(cs, idx, runs, |runs|) && idx < |cs|
    requires Scanned(rs, ChunkMembers(cs[idx]), cs[idx].start + Span(cs[idx])) && |rs| <= WINDOW / 2
    ensures Raw(cs, idx + 1, rs, 0) == Raw(cs, idx, runs, |runs|)
    ensures RawOk(cs, idx + 1, rs, 0)
  {
    hide Members, ChunkMembers, WfChunk, ChunkHas;
    assert cs[idx..] == [cs[idx]] + cs[idx + 1..];
    HasConcat([cs[idx]], cs[idx + 1..]);
    HasOne(cs[idx]);
    DecodedSet(cs[idx], rs);
    assert rs[0..] == rs;
    assert RunSet(runs[|runs|..]) == iset{};
  }

  lemma DecodedSet(c: Chunk, rs: seq<Run>)
    requires WfChunk(c) && Scanned(rs, ChunkMembers(c), c.start + Span(c))
    ensures RunSet(rs) == ChunkMembers(c)
  {
    forall x: nat | x in ChunkMembers(c) ensures x < c.start + Span(c) {
      ChunkHasBound(c, x);
    }
  }

  lemma RawEmpty(cs: seq<Chunk>, runs: seq<Run>)
    ensures Raw(cs, |cs|, runs, |runs|) == iset{}
  {
    assert cs[|cs|..] == [];
    HasConcat([], []);
    assert RunSet(runs[|runs|..]) == iset{};
  }

  class RunIter {
    const m: Map?
    const count: nat     // chunks of the map; zero when the runs were decoded up front
    var idx: nat         // chunks decoded
    var p: nat           // where the next chunk lies
    var runs: seq<Run>   // the runs of the last chunk decoded
    var next: nat        // runs already handed out
    var havePeek: bool
    var peek: Run        // one run of lookahead

    ghost function Source(): seq<Chunk>
      reads m
    {
      if m != null && count > 0 then m.Chunks() else []
    }

    ghost predicate Valid()
      reads this, m, if m == null then {} else {m.data}
    {
      && RawOk(Source(), idx, runs, next)
      && idx <= |Source()| == count && next <= |runs| && (count > 0 ==> |runs| <= WINDOW / 2)
      && (count > 0 ==> m != null && m.Valid() && m.form.Chunked? && p == 1 + Off(Source(), idx))
      && (havePeek ==> peek.lo < peek.hi && forall x: nat :: x in Raw(Source(), idx, runs, next) ==> peek.hi <= x)
    }

    /** The members not handed out yet. */
    ghost function Rest(): iset<nat>
      reads this, m
    {
      Raw(Source(), idx, runs, next) + if havePeek then Range(peek.lo, peek.hi) else iset{}
    }

    /** Bounds the number of runs still to come. */
    ghost function Steps(): nat
      reads this
    {
      if idx > count || next > |runs| then 0
      else (count - idx) * (WINDOW / 2 + 1) + (|runs| - next) + if havePeek then 1 else 0
    }

    constructor (m: Map?)
      requires m != null ==> m.Valid()
      ensures Valid() && Rest() == SetOf(m) && this.m == m
    {
      hide WfStream, Members, Layout, SmallMembers, RunSet, FormMembers, Scanned;
      var n, first: seq<Run> := 0, [];
      NoMembers();
      if m != null {
        if m.IsSmall() {
          SmallForm(m.form);
          SmallWf(m.form);
          var ws := SmallWords(m);
          first := DecodeSmall(ws);
          SmallDecoded(ws, first);
        } else {
          ChunkedForm(m.form);
          n := m.Count();
          OffZero(m.Chunks());
        }
      }
      this.m, count, idx, p := m, n, 0, 1;
      runs, next := first, 0;
      havePeek, peek := false, Run(0, 0);
      new;
      StartSet(Source(), first);
      ghost var cs := Source();
      assert m != null && m.form.Chunked? ==> cs == m.Chunks();
    }

    /** An iterator over runs that are already at hand. */
    constructor FromRuns(rs: seq<Run>)
      requires Separated(rs)
      ensures Valid() && Rest() == RunSet(rs) && m == null
    {
      m, count, idx, p := null, 0, 0, 1;
      runs, next := rs, 0;
      havePeek, peek := false, Run(0, 0);
      new;
      StartSet([], rs);
      PlusNothing(RunSet(rs));
    }

    /** Hands out the next run as it was decoded, without joining it to later ones. */
    method NextRaw() returns (some: bool, lo: nat, hi: nat)
      requires Valid() && !havePeek
      modifies `idx, `p, `runs, `next
      ensures Valid()
      ensures some <==> old(Rest()) != iset{}
      ensures some ==> FirstPart(old(Rest()), lo, hi, Rest())
      ensures !some ==> Rest() == iset{}
      ensures Steps() <= old(Steps()) && (some ==> Steps() < old(Steps()))
    {
      hide WfStream, Members, Layout, RunSet, Scanned, Raw, RawOk, Separated, FirstPart, Off, Size;
      ghost var cs := Source();
      while true
        invariant Valid()
        invariant Raw(cs, idx, runs, next) == old(Raw(Source(), idx, runs, next))
        invariant Steps() <= old(Steps())
        decreases count - idx
      {
        if next < |runs| {
          lo, hi := runs[next].lo, runs[next].hi;
          RawDrain(cs, idx, runs, next);
          FirstNotEmpty(Raw(cs, idx, runs, next), lo, hi, Raw(cs, idx, runs, next + 1));
          next := next + 1;
          PlusNothing(old(Raw(Source(), idx, runs, next)));
          PlusNothing(Raw(cs, idx, runs, next));
          return true, lo, hi;
        }
        if idx >= count {
          RawEmpty(cs, runs);
          return false, 0, 0;
        }
        LoadRuns();
      }
    }

    /** Decodes the next chunk. */
    method LoadRuns()
      requires Valid() && !havePeek && next == |runs| && idx < count
      modifies `idx, `p, `runs, `next
      ensures Valid() && idx == old(idx) + 1
      ensures Raw(Source(), idx, runs, next) == old(Raw(Source(), idx, runs, next))
      ensures Steps() <= old(Steps())
    {
      hide WfStream, Members, Layout, RunSet, Scanned, Raw, Separated, Off, Size, ChunkMembers, Map.Valid, WfChunk, AllFull, IsRle;
      ghost var cs := Source();
      var c := m.Load(p, idx);
      OneOfThem(cs, idx);
      var rs := DecodeChunk(c);
      RawDecode(cs, idx, runs, rs);
      OffNext(cs, idx);
      p := p + 1 + Size(c.desc);
      runs, next := rs, 0;
      idx := idx + 1;
    }

    /**
     * Hands out the first maximal run of what is left: joins the runs that touch, within a
     * chunk and across chunks, and keeps the first one that does not for the next call.
     */
    method Next() returns (some: bool, lo: nat, hi: nat)
      requires Valid()
      modifies this
      ensures Valid()
      ensures some <==> old(Rest()) != iset{}
      ensures some ==> FirstRun(old(Rest()), lo, hi, Rest())
      ensures !some ==> Rest() == iset{}
      ensures Steps() <= old(Steps()) && (some ==> Steps() < old(Steps()))
    {
      hide WfStream, Members, Layout, RunSet, Scanned, Raw, RawOk, Separated, FirstPart, FirstRun, Range, Off;
      ghost var s := Rest();
      some := true;
      if havePeek {
        PeekFirst(Raw(Source(), idx, runs, next), peek.lo, peek.hi);
        PlusNothing(Raw(Source(), idx, runs, next));
        lo, hi := peek.lo, peek.hi;
        havePeek := false;
      } else {
        some, lo, hi := NextRaw();
        if !some {
          return;
        }
      }
      hi := Lengthen(s, lo, hi);
      FirstRunNotEmpty(s, lo, hi, Rest());
    }

    /** Joins the runs that touch [lo, hi) to it, and peeks at the first that does not. */
    method Lengthen(ghost s: iset<nat>, lo: nat, hi0: nat) returns (hi: nat)
      requires Valid() && !havePeek && FirstPart(s, lo, hi0, Rest())
      modifies this
      ensures Valid() && FirstRun(s, lo, hi, Rest())
      ensures Steps() <= old(Steps())
    {
      hide WfStream, Members, Layout, RunSet, Scanned, Raw, RawOk, Separated, FirstPart, FirstRun, Range, Off;
      hi := hi0;
      while true
        invariant Valid() && !havePeek
        invariant FirstPart(s, lo, hi, Rest())
        invariant Steps() <= old(Steps())
        decreases Steps()
      {
        ghost var before := Rest();
        var more, nlo, nhi := NextRaw();
        if !more {
          LastRun(s, lo, hi, before);
          return;
        }
        if nlo == hi {
          JoinParts(s, lo, hi, nhi, before, Rest());
          hi := nhi;
          continue;
        }
        PartBounds(before, nlo, nhi, Rest());
        PeekedRun(s, lo, hi, before, nlo, nhi, Rest());
        PlusNothing(Raw(Source(), idx, runs, next));
        peek := Run(nlo, nhi);
        havePeek := true;
        return;
      }
    }
  }

  lemma PlusNothing(s: iset<nat>)
    ensures s + iset{} == s
  {
  }

  lemma FirstRunNotEmpty(s: iset<nat>, lo: nat, hi: nat, rest: iset<nat>)
    requires FirstRun(s, lo, hi, rest)
    ensures s != iset{}
  {
    FirstNotEmpty(s, lo, hi, rest);
  }

  lemma FirstNotEmpty(s: iset<nat>, lo: nat, hi: nat, rest: iset<nat>)
    requires FirstPart(s, lo, hi, rest)
    ensures s != iset{} && lo in s
  {
    assert lo in Range(lo, hi);
  }

  lemma PeekFirst(raw: iset<nat>, lo: nat, hi: nat)
    requires lo < hi && forall x: nat :: x in raw ==> hi <= x
    ensures FirstPart(raw + Range(lo, hi), lo, hi, raw) && raw + Range(lo, hi) != iset{}
  {
    FirstNotEmpty(raw + Range(lo, hi), lo, hi, raw);
  }

  lemma LastRun(s: iset<nat>, lo: nat, hi: nat, rest: iset<nat>)
    requires FirstPart(s, lo, hi, rest) && rest == iset{}
    ensures FirstRun(s, lo, hi, iset{}) && s != iset{}
  {
    FirstNotEmpty(s, lo, hi, rest);
  }

  lemma JoinParts(s: iset<nat>, lo: nat, mid: nat, hi: nat, before: iset<nat>, after: iset<nat>)
    requires FirstPart(s, lo, mid, before) && FirstPart(before, mid, hi, after)
    ensures FirstPart(s, lo, hi, after)
  {
    RangeJoin(iset{}, lo, mid, hi);
  }

  lemma PartBounds(s: iset<nat>, lo: nat, hi: nat, rest: iset<nat>)
    requires FirstPart(s, lo, hi, rest)
    ensures lo < hi && lo in s && forall x: nat :: x in rest ==> hi <= x
  {
    FirstNotEmpty(s, lo, hi, rest);
  }

  lemma PeekedRun(s: iset<nat>, lo: nat, hi: nat, before: iset<nat>, nlo: nat, nhi: nat, after: iset<nat>)
    requires FirstPart(s, lo, hi, before) && FirstPart(before, nlo, nhi, after) && nlo != hi
    ensures FirstRun(s, lo, hi, after + Range(nlo, nhi)) && s != iset{}
  {
    FirstNotEmpty(s, lo, hi, before);
    FirstNotEmpty(before, nlo, nhi, after);
  }

  lemma NoMembers()
    ensures Members([]) == iset{}
  {
  }

  lemma SmallDecoded(ws: seq<Word>, rs: seq<Run>)
    requires Scanned(rs, SmallMembers(ws), 64 * |ws|)
    ensures RunSet(rs) == SmallMembers(ws) && Separated(rs)
  {
    SmallBound(ws);
  }

  lemma StartSet(cs: seq<Chunk>, rs: seq<Run>)
    requires cs == [] || rs == []
    ensures cs == [] ==> Raw(cs, 0, rs, 0) == RunSet(rs) && WfStream(cs)
    ensures rs == [] ==> Raw(cs, 0, rs, 0) == Members(cs) && Separated(rs)
  {
    assert cs[0..] == cs && rs[0..] == rs;
    HasConcat([], []);
  }
}
