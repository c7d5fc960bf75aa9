// Interval sweeps over two run streams: inclusion and symmetric difference.
module Sweeps {
  import opened Chunks
  import opened Streams
  import opened Maps
  import opened Emitter
  import opened Small
  import opened SetOps
  import opened Runs
  import opened Orders
  import opened Offset

  // ---- one segment -------------------------------------------------------------------------------

  /** From pos on, the members of A are the current run [lo, hi), which is not behind pos, and rest. */
  ghost predicate Ahead(A: iset<nat>, pos: nat, have: bool, lo: nat, hi: nat, rest: iset<nat>) {
    && (have ==> lo < hi && pos < hi && forall x: nat :: x in rest ==> hi < x)
    && (forall x: nat :: x >= pos ==> (x in A <==> have && (lo <= x < hi || x in rest)))
  }

  /** The edges a segment [pos, next) may have, seen from one side. */
  ghost predicate Edges(pos0: nat, pos: nat, next: nat, have: bool, lo: nat, hi: nat, inside: bool) {
    && pos0 <= pos < next
    && (inside ==> have && lo <= pos && next <= hi)
    && (!inside && have ==> next <= lo)
    && (have ==> pos == pos0 || pos <= lo)
  }

  /** The next stretch in which membership on both sides is constant. */
  method Segment(haveA: bool, alo: nat, ahi: nat, haveB: bool, blo: nat, bhi: nat, pos0: nat) returns (pos: nat, next: nat, inA: bool, inB: bool)
    requires haveA || haveB
    requires haveA ==> alo < ahi <= IDX_MAX && pos0 < ahi
    requires haveB ==> blo < bhi <= IDX_MAX && pos0 < bhi
    ensures Edges(pos0, pos, next, haveA, alo, ahi, inA) && Edges(pos0, pos, next, haveB, blo, bhi, inB)
    ensures (haveA && next <= ahi) || (haveB && next <= bhi)
  {
    var lo := if haveA then alo else blo;
    if haveB && blo < lo {
      lo := blo;
    }
    pos := if pos0 < lo then lo else pos0;
    inA := haveA && pos >= alo && pos < ahi;
    inB := haveB && pos >= blo && pos < bhi;
    next := IDX_MAX;
    if haveA {
      if pos < alo && alo < next {
        next := alo;
      }
      if pos >= alo && ahi < next {
        next := ahi;
      }
    }
    if haveB {
      if pos < blo && blo < next {
        next := blo;
      }
      if pos >= blo && bhi < next {
        next := bhi;
      }
    }
  }

  /** What a segment says about one side, and where that side stands after it. */
  lemma SegmentSide(A: iset<nat>, pos0: nat, pos: nat, next: nat, have: bool, lo: nat, hi: nat, rest: iset<nat>, inside: bool)
    requires Ahead(A, pos0, have, lo, hi, rest) && Edges(pos0, pos, next, have, lo, hi, inside)
    ensures forall x: nat :: pos <= x < next ==> (x in A <==> inside)
    ensures forall x: nat :: pos0 <= x < pos ==> x !in A
    ensures have ==> next <= hi
    ensures next < hi ==> Ahead(A, next, have, lo, hi, rest)
    ensures !have ==> Ahead(A, next, have, lo, hi, rest)
  {
  }

  lemma AheadStart(have: bool, s: iset<nat>, lo: nat, hi: nat, rest: iset<nat>)
    requires if have then FirstRun(s, lo, hi, rest) else s == iset{}
    ensures Ahead(s, 0, have, lo, hi, rest)
  {
    if have {
      FirstNotEmpty(s, lo, hi, rest);
    }
  }

  lemma AheadNext(A: iset<nat>, next: nat, lo: nat, hi: nat, rest: iset<nat>, pos: nat, have': bool, lo': nat, hi': nat, rest': iset<nat>)
    requires Ahead(A, pos, true, lo, hi, rest) && next == hi && pos <= next
    requires if have' then FirstRun(rest, lo', hi', rest') else rest == iset{}
    ensures Ahead(A, next, have', lo', hi', rest')
  {
    if have' {
      FirstNotEmpty(rest, lo', hi', rest');
    }
  }

  /** Moves on to the next run when the current one is behind. */
  method Advance(it: RunIter, ghost A: iset<nat>, ghost pos0: nat, ghost pos: nat, next: nat, have: bool, lo: nat, hi: nat, ghost inside: bool)
    returns (have': bool, lo': nat, hi': nat)
    requires it.Valid() && Ahead(A, pos0, have, lo, hi, it.Rest()) && Edges(pos0, pos, next, have, lo, hi, inside)
    modifies it
    ensures it.Valid() && Ahead(A, next, have', lo', hi', it.Rest())
    ensures it.Steps() <= old(it.Steps()) && (have && next == hi && have' ==> it.Steps() < old(it.Steps()))
    ensures have' ==> have
    ensures !(have && next == hi) ==> have' == have && lo' == lo && hi' == hi && it.Steps() == old(it.Steps())
  {
    hide Raw, RawOk, Layout, FirstRun, Ahead, Edges;
    SegmentSide(A, pos0, pos, next, have, lo, hi, it.Rest(), inside);
    EdgesOrder(pos0, pos, next, have, lo, hi, inside);
    have', lo', hi' := have, lo, hi;
    if have && next >= hi {
      ghost var rest := it.Rest();
      have', lo', hi' := it.Next();
      AheadNext(A, next, lo, hi, rest, pos0, have', lo', hi', it.Rest());
    }
  }

  lemma EdgesOrder(pos0: nat, pos: nat, next: nat, have: bool, lo: nat, hi: nat, inside: bool)
    requires Edges(pos0, pos, next, have, lo, hi, inside)
    ensures pos0 <= pos < next
  {
  }

  /** The members of a map lie below TOP, and so do the ends of its runs. */
  lemma MapBelow(m: Map?)
    requires Readable(m)
    ensures forall x: nat :: x in SetOf(m) ==> x < TOP
  {
    if m != null {
      if m.form.Small? {
        SmallForm(m.form);
        SmallBound(m.form.words);
      } else {
        ChunkedForm(m.form);
        EndBound(m.form.chunks);
      }
    }
  }

  lemma AheadTop(A: iset<nat>, B: iset<nat>, pos: nat, have: bool, lo: nat, hi: nat, rest: iset<nat>)
    requires Ahead(A, pos, have, lo, hi, rest) && (BothBelow(A, B) || BothBelow(B, A))
    ensures have ==> lo < hi <= TOP && pos < hi
  {
    if have {
      assert hi - 1 >= pos && hi - 1 in A;
    }
  }

  /** A stretch [lo, hi) found from pos on, where membership on both sides is constant. */
  ghost predicate Stretch(A: iset<nat>, B: iset<nat>, pos: nat, lo: nat, hi: nat, inA: bool, inB: bool) {
    && pos <= lo < hi <= TOP
    && (forall x: nat :: lo <= x < hi ==> (x in A <==> inA) && (x in B <==> inB))
    && (forall x: nat :: pos <= x < lo ==> x !in A && x !in B)
  }

  ghost predicate BothBelow(A: iset<nat>, B: iset<nat>) {
    forall x: nat :: x in A || x in B ==> x < TOP
  }

  /** The current run on either side, if there is one; everything below pos has been handed out. */
  datatype Front = Front(haveA: bool, alo: nat, ahi: nat, haveB: bool, blo: nat, bhi: nat, pos: nat) {
    ghost function Live(): nat {
      (if haveA then 1 else 0) + (if haveB then 1 else 0)
    }

    /** How far the current runs still reach. */
    ghost function Reach(): nat {
      (if haveA && ahi > pos then ahi - pos else 0) + (if haveB && bhi > pos then bhi - pos else 0)
    }

    predicate More() {
      haveA || haveB
    }
  }

  ghost predicate Fronts(A: iset<nat>, B: iset<nat>, f: Front, ra: iset<nat>, rb: iset<nat>) {
    && Ahead(A, f.pos, f.haveA, f.alo, f.ahi, ra) && Ahead(B, f.pos, f.haveB, f.blo, f.bhi, rb)
    && BothBelow(A, B)
  }

  /** Moves both sides on to `next`, the end of the stretch [at, next). */
  method AdvanceBoth(ia: RunIter, ib: RunIter, ghost A: iset<nat>, ghost B: iset<nat>, f: Front, ghost at: nat, next: nat, ghost inA: bool, ghost inB: bool)
    returns (g: Front)
    requires ia != ib && ia.Valid() && ib.Valid() && Fronts(A, B, f, ia.Rest(), ib.Rest())
    requires Edges(f.pos, at, next, f.haveA, f.alo, f.ahi, inA) && Edges(f.pos, at, next, f.haveB, f.blo, f.bhi, inB)
    modifies ia, ib
    ensures ia.Valid() && ib.Valid() && Fronts(A, B, g, ia.Rest(), ib.Rest()) && g.pos == next
    ensures var was, now := old(2 * (ia.Steps() + ib.Steps())) + f.Live(), 2 * (ia.Steps() + ib.Steps()) + g.Live();
      now < was || (now == was && g.haveA == f.haveA && g.haveB == f.haveB && (f.haveA ==> g.ahi == f.ahi) && (f.haveB ==> g.bhi == f.bhi))
  {
    hide FirstRun, Raw, RawOk, WfForm, Layout, Off, Range, Ahead, Edges, BothBelow;
    var haveA, alo, ahi := Advance(ia, A, f.pos, at, next, f.haveA, f.alo, f.ahi, inA);
    var haveB, blo, bhi := Advance(ib, B, f.pos, at, next, f.haveB, f.blo, f.bhi, inB);
    g := Front(haveA, alo, ahi, haveB, blo, bhi, next);
  }

  /** Two run streams read side by side. */
  class Sweep {
    const ia: RunIter
    const ib: RunIter
    ghost const A: iset<nat>
    ghost const B: iset<nat>
    var at: Front

    ghost predicate Valid()
      reads this, ia, ib, if ia.m == null then {} else {ia.m, ia.m.data}, if ib.m == null then {} else {ib.m, ib.m.data}
    {
      && ia != ib && ia.Valid() && ib.Valid()
      && Fronts(A, B, at, ia.Rest(), ib.Rest())
    }

    /** Bounds the stretches still to come. */
    ghost function Measure(): nat
      reads this, ia, ib
    {
      2 * (ia.Steps() + ib.Steps()) + at.Live()
    }

    constructor (ia: RunIter, ib: RunIter)
      requires ia != ib && ia.Valid() && ib.Valid()
      requires BothBelow(ia.Rest(), ib.Rest())
      modifies ia, ib
      ensures Valid() && this.ia == ia && this.ib == ib && at.pos == 0
      ensures A == old(ia.Rest()) && B == old(ib.Rest())
    {
      hide FirstRun, Raw, RawOk, WfForm, Layout, Off, Range, Ahead;
      ghost var s, t := ia.Rest(), ib.Rest();
      var haveA, alo, ahi := ia.Next();
      var haveB, blo, bhi := ib.Next();
      AheadStart(haveA, s, alo, ahi, ia.Rest());
      AheadStart(haveB, t, blo, bhi, ib.Rest());
      this.ia, this.ib, A, B := ia, ib, s, t;
      at := Front(haveA, alo, ahi, haveB, blo, bhi, 0);
    }

    /** Hands out the next stretch. */
    method Next() returns (lo: nat, hi: nat, inA: bool, inB: bool)
      requires Valid() && at.More()
      modifies this, ia, ib
      ensures Valid() && Stretch(A, B, old(at.pos), lo, hi, inA, inB) && at.pos == hi
      ensures Measure() < old(Measure()) || (Measure() == old(Measure()) && at.Reach() < old(at.Reach()))
    {
      hide FirstRun, Raw, RawOk, WfForm, Layout, Off, Range, Ahead, Edges, Stretch, BothBelow, Fronts;
      var f := at;
      FrontFacts(A, B, f, ia.Rest(), ib.Rest());
      lo, hi, inA, inB := Segment(f.haveA, f.alo, f.ahi, f.haveB, f.blo, f.bhi, f.pos);
      StretchIs(A, B, f, lo, hi, ia.Rest(), ib.Rest(), inA, inB);
      at := AdvanceBoth(ia, ib, A, B, f, lo, hi, inA, inB);
    }
  }

  lemma FrontFacts(A: iset<nat>, B: iset<nat>, f: Front, ra: iset<nat>, rb: iset<nat>)
    requires Fronts(A, B, f, ra, rb)
    ensures Ahead(A, f.pos, f.haveA, f.alo, f.ahi, ra) && Ahead(B, f.pos, f.haveB, f.blo, f.bhi, rb) && BothBelow(A, B)
    ensures f.haveA ==> f.alo < f.ahi <= TOP && f.pos < f.ahi
    ensures f.haveB ==> f.blo < f.bhi <= TOP && f.pos < f.bhi
  {
    AheadTop(A, B, f.pos, f.haveA, f.alo, f.ahi, ra);
    AheadTop(B, A, f.pos, f.haveB, f.blo, f.bhi, rb);
  }

  lemma StretchIs(A: iset<nat>, B: iset<nat>, f: Front, lo: nat, hi: nat, ra: iset<nat>, rb: iset<nat>, inA: bool, inB: bool)
    requires Fronts(A, B, f, ra, rb)
    requires Edges(f.pos, lo, hi, f.haveA, f.alo, f.ahi, inA) && Edges(f.pos, lo, hi, f.haveB, f.blo, f.bhi, inB)
    requires (f.haveA && hi <= f.ahi <= TOP) || (f.haveB && hi <= f.bhi <= TOP)
    ensures Stretch(A, B, f.pos, lo, hi, inA, inB)
    ensures f.pos < hi && (f.haveA ==> hi <= f.ahi) && (f.haveB ==> hi <= f.bhi)
  {
    hide Ahead, Edges, BothBelow;
    SegmentSide(A, f.pos, lo, hi, f.haveA, f.alo, f.ahi, ra, inA);
    SegmentSide(B, f.pos, lo, hi, f.haveB, f.blo, f.bhi, rb, inB);
    EdgesOrder(f.pos, lo, hi, f.haveA, f.alo, f.ahi, inA);
  }

  lemma SweepDone(A: iset<nat>, B: iset<nat>, f: Front, ra: iset<nat>, rb: iset<nat>)
    requires Fronts(A, B, f, ra, rb) && !f.More()
    ensures forall x: nat :: x in A || x in B ==> x < f.pos
  {
  }

  // ---- inclusion ---------------------------------------------------------------------------------------

  datatype Relation = Equal | SubsetA | SubsetB | Different

  /** Every member of A below pos is in B. */
  ghost predicate Within(A: iset<nat>, B: iset<nat>, pos: nat) {
    forall x: nat :: x in A && x < pos ==> x in B
  }

  /** One more stretch of a sweep that tests inclusion. */
  lemma WithinStep(A: iset<nat>, B: iset<nat>, pos: nat, lo: nat, hi: nat, inA: bool, inB: bool)
    requires Stretch(A, B, pos, lo, hi, inA, inB)
    ensures Within(A, B, hi) <==> Within(A, B, pos) && !(inA && !inB)
    ensures Within(B, A, hi) <==> Within(B, A, pos) && !(inB && !inA)
  {
    assert inA ==> lo in A;
    assert inB ==> lo in B;
    assert !inA ==> lo !in A;
    assert !inB ==> lo !in B;
  }

  lemma WithinAll(A: iset<nat>, B: iset<nat>, pos: nat)
    requires forall x: nat :: x in A || x in B ==> x < pos
    ensures Within(A, B, pos) <==> A <= B
    ensures Within(B, A, pos) <==> B <= A
  {
  }

  /** A violation of inclusion stays one. */
  lemma NotWithin(A: iset<nat>, B: iset<nat>, pos: nat)
    requires !Within(A, B, pos)
    ensures !(A <= B)
  {
  }

  lemma NoneYet(A: iset<nat>, B: iset<nat>)
    ensures Within(A, B, 0) && Within(B, A, 0)
  {
  }

  /** sm_subset_compare: the exact inclusion relation. */
  method SubsetCompare(a: Map?, b: Map?) returns (r: Relation)
    requires Readable(a) && Readable(b)
    ensures r == (if SetOf(a) <= SetOf(b) then (if SetOf(b) <= SetOf(a) then Equal else SubsetA)
                  else if SetOf(b) <= SetOf(a) then SubsetB else Different)
  {
    hide FirstRun, Raw, RawOk, WfForm, FormMembers, Layout, Off, Range, Fronts, Within, Stretch, RunIter.Valid, RunIter.Rest, RunIter.Steps, Sweep.Measure;
    MapBelow(a);
    MapBelow(b);
    var ia := new RunIter(a);
    var ib := new RunIter(b);
    var s := new Sweep(ia, ib);
    var subA, subB := true, true;
    NoneYet(s.A, s.B);
    while s.at.More()
      invariant fresh(s) && fresh(s.ia) && fresh(s.ib) && s.Valid()
      invariant (subA || subB) && subA == Within(s.A, s.B, s.at.pos) && subB == Within(s.B, s.A, s.at.pos)
      decreases s.Measure(), s.at.Reach()
    {
      ghost var before := s.at.pos;
      var lo, hi, inA, inB := s.Next();
      WithinStep(s.A, s.B, before, lo, hi, inA, inB);
      if inA && !inB {
        subA := false;
      } else if inB && !inA {
        subB := false;
      }
      if !subA && !subB {
        NotWithin(s.A, s.B, hi);
        NotWithin(s.B, s.A, hi);
        return Different;
      }
    }
    SweepDone(s.A, s.B, s.at, s.ia.Rest(), s.ib.Rest());
    WithinAll(s.A, s.B, s.at.pos);
    if subA && subB {
      return Equal;
    }
    return if subA then SubsetA else SubsetB;
  }
}
