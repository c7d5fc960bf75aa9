// Results rebuilt from sweeps: symmetric difference, bulk insertion and range insertion.
module Rebuild {
  import opened Chunks
  import opened Streams
  import opened Codec
  import opened Maps
  import opened Appends
  import opened Emitter
  import opened Coalesce
  import opened Small
  import opened Adding
  import opened Footprints
  import opened SetOps
  import opened Runs
  import opened Orders
  import opened Sweeps
  import opened Offset

  // ---- emitting where a condition holds --------------------------------------------------------

  /** e is the part of full below pos. */
  ghost predicate Upto(e: iset<nat>, full: iset<nat>, pos: nat) {
    forall x: nat :: x in e <==> x in full && x < pos
  }

  /** The members of exactly one side, or of either. */
  ghost function Combined(A: iset<nat>, B: iset<nat>, both: bool): iset<nat> {
    if both then A + B else (A - B) + (B - A)
  }

  lemma UptoStep(e: iset<nat>, A: iset<nat>, B: iset<nat>, both: bool, pos: nat, lo: nat, hi: nat, inA: bool, inB: bool)
    requires Upto(e, Combined(A, B, both), pos) && Stretch(A, B, pos, lo, hi, inA, inB)
    ensures (if both then inA || inB else inA != inB) ==> Upto(e + Range(lo, hi), Combined(A, B, both), hi)
    ensures !(if both then inA || inB else inA != inB) ==> Upto(e, Combined(A, B, both), hi)
    ensures (if both then inA || inB else inA != inB) ==> Range(lo, hi) <= Combined(A, B, both)
    ensures pos <= lo < hi <= TOP
  {
  }

  lemma UptoAll(e: iset<nat>, A: iset<nat>, B: iset<nat>, both: bool, pos: nat)
    requires Upto(e, Combined(A, B, both), pos) && forall x: nat :: x in A || x in B ==> x < pos
    ensures e == Combined(A, B, both)
  {
  }

  lemma UptoNone(full: iset<nat>)
    ensures Upto(iset{}, full, 0)
  {
  }

  lemma StretchShort(full: iset<nat>, lo: nat, hi: nat)
    requires ShortRuns(full) && lo < hi && Range(lo, hi) <= full
    ensures hi - lo <= RLE_LIMIT
  {
  }

  /** The result map is not one of the maps being read. */
  ghost predicate Apart(s: Sweep, r: Map)
    reads s, s.ia, s.ib, r, if s.ia.m == null then {} else {s.ia.m}, if s.ib.m == null then {} else {s.ib.m}
  {
    && (s.ia.m != null ==> s.ia.m != r && s.ia.m.data != r.data)
    && (s.ib.m != null ==> s.ib.m != r && s.ib.m.data != r.data)
  }

  /** Emits one stretch if it is set on exactly one side, or with `both` on either. */
  method EmitStretch(e: Emitter, ghost A: iset<nat>, ghost B: iset<nat>, both: bool, ghost pos: nat, lo: nat, hi: nat, inA: bool, inB: bool)
    requires e.Valid(true) && Stretch(A, B, pos, lo, hi, inA, inB)
    requires Upto(e.Emitted(), Combined(A, B, both), pos) && e.Ready(pos) && ShortRuns(Combined(A, B, both))
    modifies e, e.r, e.r.data
    ensures e.Valid(true) && Upto(e.Emitted(), Combined(A, B, both), hi) && e.Ready(hi)
    ensures e.r.data == old(e.r.data) || fresh(e.r.data)
  {
    hide Layout, Off, Range, Stretch, Upto, ShortRuns, Combined, WfStream, AllFull, Members, WindowMembers, PrefixCaps, Floor, End;
    UptoStep(e.Emitted(), A, B, both, pos, lo, hi, inA, inB);
    ReadyLater(e, pos, lo);
    if if both then inA || inB else inA != inB {
      StretchShort(Combined(A, B, both), lo, hi);
      e.EmitRun(true, lo, hi);
    } else {
      ReadyLater(e, lo, hi);
    }
  }

  /** Emits the stretches set on exactly one side, or with `both` on either. */
  method EmitWhere(s: Sweep, e: Emitter, both: bool)
    requires s.Valid() && s.at.pos == 0
    requires e.Valid(true) && e.Frontier() == 0 && e.Emitted() == iset{}
    requires Apart(s, e.r) && ShortRuns(Combined(s.A, s.B, both))
    modifies s, s.ia, s.ib, e, e.r, e.r.data
    ensures e.Valid(true) && e.Emitted() == Combined(s.A, s.B, both)
    ensures e.r.data == old(e.r.data) || fresh(e.r.data)
  {
    hide FirstRun, Raw, RawOk, WfForm, Layout, Off, Range, Fronts, Stretch, Upto, ShortRuns, Combined, WfStream, AllFull, Members, WindowMembers, PrefixCaps, Floor, End, RunIter.Valid, RunIter.Rest, RunIter.Steps, Emitter.Valid, Emitter.Emitted, Emitter.Frontier, Sweep.Measure, Map.Valid, Emitter.Ready;
    ghost var full := Combined(s.A, s.B, both);
    UptoNone(full);
    ReadyZero(e);
    while s.at.More()
      invariant s.Valid() && e.Valid(true) && Apart(s, e.r)
      invariant Upto(e.Emitted(), full, s.at.pos) && e.Ready(s.at.pos)
      invariant e.r.data == old(e.r.data) || fresh(e.r.data)
      decreases s.Measure(), s.at.Reach()
    {
      ghost var before := s.at.pos;
      var lo, hi, inA, inB := s.Next();
      EmitStretch(e, s.A, s.B, both, before, lo, hi, inA, inB);
    }
    SweepDone(s.A, s.B, s.at, s.ia.Rest(), s.ib.Rest());
    UptoAll(e.Emitted(), s.A, s.B, both, s.at.pos);
  }

  lemma ReadyZero(e: Emitter)
    requires e.Frontier() == 0
    ensures e.Ready(0)
  {
    AlignedConstants();
    FloorUnique(0, 0);
  }

  /** A fresh chunk-mode map of the members on exactly one side, or with `both` on either. */
  method Collect(ia: RunIter, ib: RunIter, cap: nat, both: bool) returns (r: Map)
    requires ia != ib && ia.Valid() && ib.Valid()
    requires BothBelow(ia.Rest(), ib.Rest()) && ShortRuns(Combined(ia.Rest(), ib.Rest(), both))
    modifies ia, ib
    ensures fresh(r) && fresh(r.data) && Open(r, true)
    ensures Members(r.Chunks()) == Combined(old(ia.Rest()), old(ib.Rest()), both) && NoneJoin(r.Chunks(), |r.Chunks()|)
  {
    hide FirstRun, Raw, RawOk, Layout, Off, Range, Fronts, Stretch, ShortRuns, Combined, NoneJoin, WfStream, AllFull, Members, WindowMembers, PrefixCaps, End;
    r := new Map(if cap > 128 then cap else 128);
    EmptyMap();
    EmptyEnd();
    var s := new Sweep(ia, ib);
    var e := new Emitter(r, true);
    EmitWhere(s, e, both);
    e.Flush(true);
    var _ := CoalesceMap(r);
  }

  /** sm_xor: a map of the members of exactly one operand, or none when there are none. */
  method SymmetricDifference(a: Map?, b: Map?) returns (r: Map?)
    requires Usable(a) && Usable(b)
    requires ShortRuns(Combined(SetOf(a), SetOf(b), false))
    ensures Returns(r, (SetOf(a) - SetOf(b)) + (SetOf(b) - SetOf(a)))
    ensures r != null && r.form.Chunked? && SetOf(a) != iset{} && SetOf(b) != iset{} ==> NoneJoin(r.Chunks(), |r.Chunks()|)
    ensures r != null ==> fresh(r) && fresh(r.data) && (SetOf(a) != iset{} && SetOf(b) != iset{} ==> Lean(r.form))
  {
    hide Lean, NoneJoin, FirstRun, Raw, RawOk, WfForm, FormMembers, Layout, Off, Range, ShortRuns, WfStream, AllFull, Members;
    var emptyA := IsEmpty(a);
    var emptyB := IsEmpty(b);
    if emptyA && emptyB {
      return null;
    }
    if emptyA {
      var w := Copy(b);
      return w;
    }
    if emptyB {
      var w := Copy(a);
      return w;
    }
    MapBelow(a);
    MapBelow(b);
    var ia := new RunIter(a);
    var ib := new RunIter(b);
    var w := Collect(ia, ib, a.data.Length + b.data.Length, false);
    r := Finish(w);
  }

  // ---- bulk insertion -------------------------------------------------------------------------------

  ghost function Elements(arr: seq<nat>): iset<nat> {
    iset x: nat | x in arr
  }

  lemma OneElement(v: nat)
    ensures Separated([Run(v, v + 1)]) && RunSet([Run(v, v + 1)]) == Elements([v])
  {
    var rs := [Run(v, v + 1)];
    forall x: nat ensures InRuns(rs, x) <==> x == v {
      if x == v {
        assert rs[0].lo <= x < rs[0].hi;
      }
    }
  }

  /** One more element of a sorted array, at or past the last one taken. */
  lemma ElementStep(rs: seq<Run>, lo: nat, hi: nat, arr: seq<nat>, i: nat)
    requires Sorted(arr) && 0 < i < |arr| && Separated(rs + [Run(lo, hi)])
    requires RunSet(rs + [Run(lo, hi)]) == Elements(arr[..i]) && hi == arr[i - 1] + 1
    ensures var v := arr[i];
      && v >= hi - 1
      && (v < hi ==> Elements(arr[..i + 1]) == Elements(arr[..i]))
      && (v == hi ==> Separated(rs + [Run(lo, v + 1)]) && RunSet(rs + [Run(lo, v + 1)]) == Elements(arr[..i + 1]))
      && (v > hi ==> Separated(rs + [Run(lo, hi)] + [Run(v, v + 1)]) && RunSet(rs + [Run(lo, hi)] + [Run(v, v + 1)]) == Elements(arr[..i + 1]))
  {
    hide InRuns, Separated;
    var v, all := arr[i], rs + [Run(lo, hi)];
    assert arr[i - 1] <= arr[i];
    TakeOne(arr, i);
    if v >= hi {
      ExtendRuns(all, v, v + 1);
      assert v == hi ==> Extend(all, v, v + 1) == rs + [Run(lo, v + 1)];
    }
  }

  lemma TakeOne(arr: seq<nat>, i: nat)
    requires i < |arr|
    ensures Elements(arr[..i + 1]) == Elements(arr[..i]) + iset{arr[i]}
    ensures i > 0 ==> arr[i - 1] in Elements(arr[..i])
  {
    assert arr[..i + 1] == arr[..i] + [arr[i]];
    if i > 0 {
      assert arr[..i][i - 1] == arr[i - 1];
    }
  }

  /** The maximal runs of a sorted array; duplicates count once. */
  method CoalesceSorted(arr: seq<nat>) returns (rs: seq<Run>)
    requires arr != [] && Sorted(arr)
    ensures Separated(rs) && RunSet(rs) == Elements(arr) && |rs| <= |arr|
  {
    hide Separated, Elements, RunSet, Sorted;
    var closed: seq<Run>, lo, hi := [], arr[0], arr[0] + 1;
    OneElement(arr[0]);
    assert arr[..1] == [arr[0]];
    assert closed + [Run(lo, hi)] == [Run(lo, hi)];
    for i := 1 to |arr|
      invariant Separated(closed + [Run(lo, hi)]) && RunSet(closed + [Run(lo, hi)]) == Elements(arr[..i])
      invariant hi == arr[i - 1] + 1 && |closed| < i
    {
      var v := arr[i];
      ElementStep(closed, lo, hi, arr, i);
      if v <= hi {
        if v == hi {
          hi := v + 1;
        }
        continue;
      }
      closed := closed + [Run(lo, hi)];
      lo, hi := v, v + 1;
    }
    assert arr[..|arr|] == arr;
    rs := closed + [Run(lo, hi)];
  }

  /** A fresh map of the members of m and of the runs. */
  method UnionRuns(m: Map?, rs: seq<Run>) returns (r: Map)
    requires Usable(m) && Separated(rs) && forall x: nat :: x in RunSet(rs) ==> x < TOP
    requires ShortRuns(SetOf(m) + RunSet(rs))
    ensures fresh(r) && fresh(r.data) && Open(r, true)
    ensures Members(r.Chunks()) == SetOf(m) + RunSet(rs) && NoneJoin(r.Chunks(), |r.Chunks()|)
  {
    hide NoneJoin, FirstRun, Raw, RawOk, WfForm, FormMembers, Layout, Off, Range, ShortRuns, WfStream, AllFull, Members, RunSet, Separated;
    MapBelow(m);
    var ia := new RunIter(m);
    var ib := new RunIter.FromRuns(rs);
    var used := if m == null then 0 else m.used;
    r := Collect(ia, ib, used + 3 * |rs| + 8, true);
  }

  lemma OpenSpells(r: Map)
    requires Open(r, true)
    ensures Spells(r.Chunks(), Members(r.Chunks())) && Footprint(r.Chunks()) == r.used && r.form == Chunked(r.Chunks())
  {
    hide Layout, WfStream, AllFull, Members;
    assert r.form == Chunked(r.Chunks());
  }

  /** Copies the result into the map's buffer, in place. */
  method CopyInto(m: Map, r: Map)
    requires m.Valid() && Open(r, true) && m != r && m.data != r.data && r.used <= m.data.Length
    modifies m, m.data
    ensures m.Valid() && m.Strict() && m.Set() == Members(r.Chunks()) && m.data == old(m.data)
    ensures (m.form.Small? || m.form == r.form) && Lean(m.form)
  {
    hide Lean, Layout, WfForm, WfStream, AllFull, Members;
    m.Store(r.data[..r.used]);
    m.form := r.form;
    ChunkedForm(m.form);
    TryDemote(m);
  }

  /**
   * sm_add_many and sm_add_many_grow on an array already sorted: the map gains every element,
   * or, when it may not grow and the stream built for the result does not fit, is left alone.
   */
  method AddMany(m: Map, arr: seq<nat>, mayGrow: bool) returns (ok: bool, ghost built: seq<Chunk>)
    requires m.Valid() && m.Strict() && Sorted(arr) && |arr| >= 2
    requires forall x: nat :: x in arr ==> x < TOP
    requires ShortRuns(m.Set() + Elements(arr))
    modifies m, m.data
    ensures m.Valid() && m.Strict()
    ensures m.Set() == if ok then old(m.Set()) + Elements(arr) else old(m.Set())
    ensures Spells(built, old(m.Set()) + Elements(arr)) && NoneJoin(built, |built|)
    ensures ok <==> mayGrow || Footprint(built) <= old(m.data.Length)
    ensures 1 + 8 * RunTotal(old(m.Set()) + Elements(arr)) <= old(m.data.Length) ==> ok
    ensures if ok then (m.form.Small? || m.form == Chunked(built)) && Lean(m.form) else m.form == old(m.form) && m.used == old(m.used)
    ensures !mayGrow ==> m.data == old(m.data)
    ensures m.data == old(m.data) <==> !ok || Footprint(built) <= old(m.data.Length)
    ensures m.data == old(m.data) || (fresh(m.data) && m.data.Length == Footprint(built) + 8)
  {
    hide Lean, NoneJoin, FirstRun, Raw, RawOk, WfForm, FormMembers, Layout, Off, Range, ShortRuns, WfStream, AllFull, Members, RunSet, Separated, Spells, Footprint, RunTotal;
    var rs := CoalesceSorted(arr);
    var r := UnionRuns(m, rs);
    OpenSpells(r);
    built := r.Chunks();
    CompactBound(built, old(m.Set()) + Elements(arr));
    if !mayGrow && m.data.Length < r.used {
      return false, built;
    }
    if m.data.Length < r.used {
      m.Grow(r.used + 8);
    }
    CopyInto(m, r);
    return true, built;
  }
}
