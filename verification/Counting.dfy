// Counting members, and the one-pass cardinalities of two maps.
module Counting {
  import opened Chunks
  import opened Streams
  import opened Maps
  import opened SetOps
  import opened Runs
  import opened Orders
  import opened Sweeps

  /** The number of members in [lo, hi). */
  ghost function Count(s: iset<nat>, lo: nat, hi: nat): (n: nat)
    ensures lo <= hi ==> n <= hi - lo
    decreases hi - lo
  {
    if lo >= hi then 0 else Count(s, lo, hi - 1) + if hi - 1 in s then 1 else 0
  }

  lemma {:induction false} CountSplit(s: iset<nat>, lo: nat, mid: nat, hi: nat)
    requires lo <= mid <= hi
    ensures Count(s, lo, hi) == Count(s, lo, mid) + Count(s, mid, hi)
    decreases hi - mid
  {
    if mid < hi {
      CountSplit(s, lo, mid, hi - 1);
    }
  }

  lemma {:induction false} CountNone(s: iset<nat>, lo: nat, hi: nat)
    requires forall x: nat :: lo <= x < hi ==> x !in s
    ensures Count(s, lo, hi) == 0
    decreases hi - lo
  {
    if lo < hi {
      CountNone(s, lo, hi - 1);
    }
  }

  lemma {:induction false} CountAll(s: iset<nat>, lo: nat, hi: nat)
    requires lo <= hi && forall x: nat :: lo <= x < hi ==> x in s
    ensures Count(s, lo, hi) == hi - lo
    decreases hi - lo
  {
    if lo < hi {
      CountAll(s, lo, hi - 1);
    }
  }

  lemma {:induction false} CountSame(s: iset<nat>, t: iset<nat>, lo: nat, hi: nat)
    requires forall x: nat :: lo <= x < hi ==> (x in s <==> x in t)
    ensures Count(s, lo, hi) == Count(t, lo, hi)
    decreases hi - lo
  {
    if lo < hi {
      CountSame(s, t, lo, hi - 1);
    }
  }

  /** Inclusion and exclusion. */
  lemma {:induction false} CountSum(a: iset<nat>, b: iset<nat>, lo: nat, hi: nat)
    ensures Count(a, lo, hi) + Count(b, lo, hi) == Count(a + b, lo, hi) + Count(a * b, lo, hi)
    decreases hi - lo
  {
    if lo < hi {
      CountSum(a, b, lo, hi - 1);
    }
  }

  // ---- two maps at once -----------------------------------------------------------------------

  /** c members of A lie before the current run [lo, hi); rest follows it.  Without a run, all are counted. */
  ghost predicate Tally(A: iset<nat>, c: nat, n: nat, have: bool, lo: nat, hi: nat, rest: iset<nat>) {
    if have then
      && c == Count(A, 0, lo)
      && lo < hi <= n
      && (forall x: nat :: x in rest ==> hi < x)
      && (forall x: nat :: x >= lo ==> (x in A <==> x < hi || x in rest))
    else c == Count(A, 0, n)
  }

  lemma TallyStart(A: iset<nat>, n: nat, have: bool, lo: nat, hi: nat, rest: iset<nat>)
    requires if have then FirstRun(A, lo, hi, rest) else A == iset{}
    requires forall x: nat :: x in A ==> x < n
    ensures Tally(A, 0, n, have, lo, hi, rest)
  {
    if have {
      FirstNotEmpty(A, lo, hi, rest);
      assert hi - 1 in Range(lo, hi);
      CountNone(A, 0, lo);
    } else {
      CountNone(A, 0, n);
    }
  }

  /** The current run is counted, and the next becomes current. */
  lemma TallyNext(A: iset<nat>, c: nat, n: nat, lo: nat, hi: nat, rest: iset<nat>, have': bool, lo': nat, hi': nat, rest': iset<nat>)
    requires Tally(A, c, n, true, lo, hi, rest) && forall x: nat :: x in A ==> x < n
    requires if have' then FirstRun(rest, lo', hi', rest') else rest == iset{}
    ensures Tally(A, c + hi - lo, n, have', lo', hi', rest')
  {
    hide Count;
    CountAll(A, lo, hi);
    CountSplit(A, 0, lo, hi);
    if have' {
      FirstNotEmpty(rest, lo', hi', rest');
      assert hi' - 1 in Range(lo', hi') && hi' - 1 in rest && hi' - 1 in A;
      CountNone(A, hi, lo');
      CountSplit(A, 0, hi, lo');
    } else {
      CountNone(A, hi, n);
      CountSplit(A, 0, hi, n);
    }
  }

  /** The counters of A, of B and of both, and the current run of each side, if there is one. */
  datatype Pass = Pass(ca: nat, cb: nat, inter: nat, haveA: bool, alo: nat, ahi: nat, haveB: bool, blo: nat, bhi: nat) {
    predicate More() {
      haveA || haveB
    }

    ghost function Live(): nat {
      (if haveA then 1 else 0) + (if haveB then 1 else 0)
    }

    /** How far the current runs overlap. */
    function Overlap(): nat {
      var lo, hi := if alo > blo then alo else blo, if ahi < bhi then ahi else bhi;
      if haveA && haveB && lo < hi then hi - lo else 0
    }

    /** The two sides exchanged. */
    function Flip(): Pass {
      Pass(cb, ca, inter, haveB, blo, bhi, haveA, alo, ahi)
    }
  }

  /** All common members below f are counted, and those at or past f lie in the current runs or after them. */
  ghost predicate Common(A: iset<nat>, B: iset<nat>, p: Pass, f: nat, n: nat) {
    if p.haveA && p.haveB then
      && p.inter == Count(A * B, 0, f) && f <= p.ahi && f <= p.bhi && (f <= p.alo || f <= p.blo)
      && (forall x: nat :: f <= x < p.alo ==> x !in A) && (forall x: nat :: f <= x < p.blo ==> x !in B)
    else p.inter == Count(A * B, 0, n)
  }

  ghost predicate Tallies(A: iset<nat>, B: iset<nat>, p: Pass, n: nat, ra: iset<nat>, rb: iset<nat>) {
    Tally(A, p.ca, n, p.haveA, p.alo, p.ahi, ra) && Tally(B, p.cb, n, p.haveB, p.blo, p.bhi, rb)
  }

  /** Counting the overlap of the two current runs settles everything up to the nearer end. */
  lemma CommonStep(A: iset<nat>, B: iset<nat>, p: Pass, f: nat, n: nat, ra: iset<nat>, rb: iset<nat>)
    requires p.haveA && p.haveB && Tallies(A, B, p, n, ra, rb) && Common(A, B, p, f, n)
    ensures p.inter + p.Overlap() == Count(A * B, 0, if p.ahi < p.bhi then p.ahi else p.bhi)
  {
    hide Count;
    var lo, hi := if p.alo > p.blo then p.alo else p.blo, if p.ahi < p.bhi then p.ahi else p.bhi;
    var s := A * B;
    CountSplit(s, 0, f, hi);
    if lo < hi {
      CountSplit(s, f, lo, hi);
      CountNone(s, f, lo);
      CountAll(s, lo, hi);
    } else {
      CountNone(s, f, hi);
    }
  }

  /** When one side has no member at or past f, nothing more is common. */
  lemma CommonEnds(A: iset<nat>, B: iset<nat>, f: nat, n: nat)
    requires f <= n && ((forall x: nat :: x in A ==> x < f) || (forall x: nat :: x in B ==> x < f))
    ensures Count(A * B, 0, f) == Count(A * B, 0, n)
  {
    CountSplit(A * B, 0, f, n);
    CountNone(A * B, f, n);
  }

  /** The roles of the two sides may be exchanged. */
  lemma CommonFlip(A: iset<nat>, B: iset<nat>, p: Pass, f: nat, n: nat)
    ensures Common(A, B, p, f, n) <==> Common(B, A, p.Flip(), f, n)
  {
    assert A * B == B * A;
  }

  /** The nearer run of A is counted and passed; p' has the next one. */
  lemma CommonNext(A: iset<nat>, B: iset<nat>, p: Pass, f: nat, n: nat, ra: iset<nat>, rb: iset<nat>, p': Pass, ra': iset<nat>) returns (f': nat)
    requires p.haveA && Tallies(A, B, p, n, ra, rb) && Common(A, B, p, f, n) && (p.haveB ==> p.ahi <= p.bhi)
    requires if p'.haveA then FirstRun(ra, p'.alo, p'.ahi, ra') else ra == iset{}
    requires p'.inter == p.inter + p.Overlap() && p'.haveB == p.haveB && p'.blo == p.blo && p'.bhi == p.bhi
    ensures Common(A, B, p', f', n)
  {
    hide Count;
    f' := p.ahi;
    if p'.haveA {
      FirstNotEmpty(ra, p'.alo, p'.ahi, ra');
    }
    if p.haveB {
      CommonStep(A, B, p, f, n, ra, rb);
      if !p'.haveA {
        CommonEnds(A, B, p.ahi, n);
      }
    }
  }

  lemma CommonStart(A: iset<nat>, B: iset<nat>, n: nat, p: Pass, ra: iset<nat>, rb: iset<nat>)
    requires p.inter == 0
    requires if p.haveA then FirstRun(A, p.alo, p.ahi, ra) else A == iset{}
    requires if p.haveB then FirstRun(B, p.blo, p.bhi, rb) else B == iset{}
    ensures Common(A, B, p, 0, n)
  {
    if p.haveA {
      FirstNotEmpty(A, p.alo, p.ahi, ra);
    }
    if p.haveB {
      FirstNotEmpty(B, p.blo, p.bhi, rb);
    }
    if !p.haveA || !p.haveB {
      CountNone(A * B, 0, n);
    }
  }

  lemma TallyOrder(A: iset<nat>, c: nat, n: nat, lo: nat, hi: nat, rest: iset<nat>)
    requires Tally(A, c, n, true, lo, hi, rest)
    ensures lo < hi
  {
  }

  /** Passes the current run of one side. */
  method PassRun(it: RunIter, ghost A: iset<nat>, c: nat, ghost n: nat, lo: nat, hi: nat) returns (c': nat, have: bool, lo': nat, hi': nat)
    requires it.Valid() && Tally(A, c, n, true, lo, hi, it.Rest()) && forall x: nat :: x in A ==> x < n
    modifies it
    ensures it.Valid() && Tally(A, c', n, have, lo', hi', it.Rest())
    ensures if have then FirstRun(old(it.Rest()), lo', hi', it.Rest()) else old(it.Rest()) == iset{}
    ensures it.Steps() <= old(it.Steps()) && (have ==> it.Steps() < old(it.Steps()))
  {
    hide Raw, RawOk, FirstRun;
    ghost var rest := it.Rest();
    TallyOrder(A, c, n, lo, hi, rest);
    c' := c + (hi - lo);
    have, lo', hi' := it.Next();
    TallyNext(A, c, n, lo, hi, rest, have, lo', hi', it.Rest());
  }

  ghost predicate Passing(A: iset<nat>, B: iset<nat>, p: Pass, f: nat, n: nat, ra: iset<nat>, rb: iset<nat>) {
    && Tallies(A, B, p, n, ra, rb) && Common(A, B, p, f, n)
    && (forall x: nat :: x in A || x in B ==> x < n)
  }

  /** Counts the overlap of the current runs and passes the one that ends first. */
  method StepPair(ia: RunIter, ib: RunIter, ghost A: iset<nat>, ghost B: iset<nat>, p: Pass, ghost f: nat, ghost n: nat) returns (p': Pass, ghost f': nat)
    requires ia != ib && ia.Valid() && ib.Valid() && p.More()
    requires Passing(A, B, p, f, n, ia.Rest(), ib.Rest())
    modifies ia, ib
    ensures ia.Valid() && ib.Valid() && Passing(A, B, p', f', n, ia.Rest(), ib.Rest())
    ensures ia.Steps() + ib.Steps() < old(ia.Steps() + ib.Steps()) || (ia.Steps() + ib.Steps() <= old(ia.Steps() + ib.Steps()) && p'.Live() < p.Live())
  {
    hide FirstRun, Raw, RawOk, WfForm, Layout, Off, Range, Count, Tally, Common;
    ghost var ra, rb := ia.Rest(), ib.Rest();
    var both := p.inter + p.Overlap();
    if p.haveA && (!p.haveB || p.ahi <= p.bhi) {
      var c, have, lo, hi := PassRun(ia, A, p.ca, n, p.alo, p.ahi);
      p' := p.(ca := c, haveA := have, alo := lo, ahi := hi, inter := both);
      f' := CommonNext(A, B, p, f, n, ra, rb, p', ia.Rest());
    } else {
      CommonFlip(A, B, p, f, n);
      var c, have, lo, hi := PassRun(ib, B, p.cb, n, p.blo, p.bhi);
      p' := p.(cb := c, haveB := have, blo := lo, bhi := hi, inter := both);
      f' := CommonNext(B, A, p.Flip(), f, n, rb, ra, p'.Flip(), ib.Rest());
      CommonFlip(A, B, p', f', n);
    }
  }

  lemma PassDone(A: iset<nat>, B: iset<nat>, p: Pass, f: nat, n: nat, ra: iset<nat>, rb: iset<nat>)
    requires Passing(A, B, p, f, n, ra, rb) && !p.More()
    ensures p.ca == Count(A, 0, n) && p.cb == Count(B, 0, n) && p.inter == Count(A * B, 0, n)
    ensures p.ca + p.cb - p.inter == Count(A + B, 0, n)
  {
    CountSum(A, B, 0, n);
  }

  lemma PassStart(A: iset<nat>, B: iset<nat>, p: Pass, n: nat, ra: iset<nat>, rb: iset<nat>)
    requires p.ca == 0 && p.cb == 0 && p.inter == 0
    requires if p.haveA then FirstRun(A, p.alo, p.ahi, ra) else A == iset{}
    requires if p.haveB then FirstRun(B, p.blo, p.bhi, rb) else B == iset{}
    requires forall x: nat :: x in A || x in B ==> x < n
    ensures Passing(A, B, p, 0, n, ra, rb)
  {
    hide FirstRun, Tally, Common;
    TallyStart(A, n, p.haveA, p.alo, p.ahi, ra);
    TallyStart(B, n, p.haveB, p.blo, p.bhi, rb);
    CommonStart(A, B, n, p, ra, rb);
  }

  /** One pass over the runs of two maps: the sizes of both sets, of their intersection and of their union. */
  method PairCounts(a: Map?, b: Map?) returns (ca: nat, cb: nat, inter: nat, uni: nat)
    requires Readable(a) && Readable(b)
    ensures ca == Count(SetOf(a), 0, TOP) && cb == Count(SetOf(b), 0, TOP)
    ensures inter == Count(SetOf(a) * SetOf(b), 0, TOP)
    ensures uni == Count(SetOf(a) + SetOf(b), 0, TOP)
  {
    hide FirstRun, Raw, RawOk, WfForm, FormMembers, Layout, Off, Range, Count, Passing, RunIter.Valid, RunIter.Rest, RunIter.Steps;
    ghost var n := TOP;
    MapBelow(a);
    MapBelow(b);
    ghost var A, B := SetOf(a), SetOf(b);
    var ia := new RunIter(a);
    var ib := new RunIter(b);
    var haveA, alo, ahi := ia.Next();
    var haveB, blo, bhi := ib.Next();
    var p := Pass(0, 0, 0, haveA, alo, ahi, haveB, blo, bhi);
    ghost var f := 0;
    PassStart(A, B, p, n, ia.Rest(), ib.Rest());
    while p.More()
      invariant fresh(ia) && fresh(ib) && ia != ib && ia.Valid() && ib.Valid()
      invariant Passing(A, B, p, f, n, ia.Rest(), ib.Rest())
      decreases ia.Steps() + ib.Steps(), p.Live()
    {
      p, f := StepPair(ia, ib, A, B, p, f, n);
    }
    PassDone(A, B, p, f, n, ia.Rest(), ib.Rest());
    return p.ca, p.cb, p.inter, p.ca + p.cb - p.inter;
  }
}
