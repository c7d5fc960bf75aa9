// sm_compare: lexicographic order on the ascending member sequences.
module Lex {
  import opened Streams
  import opened Maps
  import opened Small
  import opened SetOps
  import opened Runs
  import opened Orders

  // ---- member sequences ------------------------------------------------------------------------

  /** xs lists the members of s, ascending, each once. */
  ghost predicate Lists(s: iset<nat>, xs: seq<nat>) {
    && (forall i, j :: 0 <= i < j < |xs| ==> xs[i] < xs[j])
    && (forall x: nat :: x in s <==> x in xs)
  }

  /** The members in [lo, hi), ascending. */
  ghost function Listing(s: iset<nat>, lo: nat, hi: nat): seq<nat>
    decreases hi - lo
  {
    if lo >= hi then [] else (if lo in s then [lo] else []) + Listing(s, lo + 1, hi)
  }

  lemma {:induction false} ListingLists(s: iset<nat>, lo: nat, hi: nat)
    ensures forall x: nat :: x in Listing(s, lo, hi) <==> x in s && lo <= x < hi
    ensures forall i, j :: 0 <= i < j < |Listing(s, lo, hi)| ==> Listing(s, lo, hi)[i] < Listing(s, lo, hi)[j]
    decreases hi - lo
  {
    if lo < hi {
      var t := Listing(s, lo + 1, hi);
      ListingLists(s, lo + 1, hi);
      if lo in s {
        Prepended(lo, t);
        assert Listing(s, lo, hi) == [lo] + t;
      } else {
        assert Listing(s, lo, hi) == t;
      }
    }
  }

  /** An ascending sequence stays one with a smaller element in front. */
  lemma Prepended(x: nat, t: seq<nat>)
    requires (forall i, j :: 0 <= i < j < |t| ==> t[i] < t[j]) && forall y :: y in t ==> x < y
    ensures forall i, j :: 0 <= i < j < |[x] + t| ==> ([x] + t)[i] < ([x] + t)[j]
    ensures forall y :: y in [x] + t <==> y == x || y in t
  {
    forall i, j | 0 <= i < j < |[x] + t| ensures ([x] + t)[i] < ([x] + t)[j] {
      assert ([x] + t)[j] == t[j - 1] && t[j - 1] in t;
      assert i > 0 ==> ([x] + t)[i] == t[i - 1];
    }
  }

  lemma ListsFirst(s: iset<nat>, xs: seq<nat>, x: nat)
    requires Lists(s, xs) && x in s && forall y: nat :: y in s ==> x <= y
    ensures xs != [] && xs[0] == x && Lists(s - iset{x}, xs[1..])
  {
    var i :| 0 <= i < |xs| && xs[i] == x;
    assert xs[0] in xs;
    var t := xs[1..];
    forall y: nat ensures y in t <==> y in s - iset{x} {
      if y in t {
        var j :| 0 <= j < |t| && t[j] == y;
        assert xs[j + 1] == y && y in xs;
      }
      if y in xs && y != x {
        var j :| 0 <= j < |xs| && xs[j] == y;
        assert t[j - 1] == y;
      }
    }
  }

  lemma {:induction false} ListsUnique(s: iset<nat>, xs: seq<nat>, ys: seq<nat>)
    requires Lists(s, xs) && Lists(s, ys)
    ensures xs == ys
  {
    if xs != [] {
      assert xs[0] in xs && forall y: nat :: y in xs ==> xs[0] <= y;
      ListsFirst(s, xs, xs[0]);
      ListsFirst(s, ys, xs[0]);
      ListsUnique(s - iset{xs[0]}, xs[1..], ys[1..]);
    }
    assert ys != [] ==> ys[0] in ys && ys[0] in s;
  }

  /** The ascending member sequence of a finite set. */
  ghost function Ascending(s: iset<nat>): seq<nat> {
    if exists xs :: Lists(s, xs) then
      var xs :| Lists(s, xs);
      xs
    else []
  }

  lemma AscendingIs(s: iset<nat>, xs: seq<nat>)
    requires Lists(s, xs)
    ensures Ascending(s) == xs
  {
    ListsUnique(s, xs, Ascending(s));
  }

  lemma BoundedListed(s: iset<nat>, n: nat)
    requires forall x: nat :: x in s ==> x < n
    ensures Lists(s, Ascending(s)) && Ascending(s) == Listing(s, 0, n)
  {
    ListingLists(s, 0, n);
    AscendingIs(s, Listing(s, 0, n));
  }

  /** Every map has a member sequence. */
  lemma MapListed(m: Map?)
    requires Readable(m)
    ensures Lists(SetOf(m), Ascending(SetOf(m)))
  {
    hide Lists, Ascending;
    if m == null {
      BoundedListed(iset{}, 0);
    } else if m.form.Small? {
      SmallForm(m.form);
      SmallBound(m.form.words);
      BoundedListed(m.Set(), 64 * |m.form.words|);
    } else {
      ChunkedForm(m.form);
      EndBound(m.form.chunks);
      BoundedListed(m.Set(), End(m.form.chunks));
    }
  }

  /** A set that begins with the n indices from p lists them first. */
  lemma {:induction false} ListsSkip(s: iset<nat>, p: nat, n: nat, rest: iset<nat>, xs: seq<nat>)
    requires Lists(s, xs) && s == Range(p, p + n) + rest && forall x: nat :: x in rest ==> p + n <= x
    ensures n <= |xs| && Lists(rest, xs[n..])
    ensures forall i :: 0 <= i < n ==> xs[i] == p + i
    decreases n
  {
    hide Lists;
    if n == 0 {
      RangeEmpty(rest, p, p);
      assert s == rest;
      assert xs[0..] == xs;
    } else {
      assert p in Range(p, p + n);
      ListsFirst(s, xs, p);
      assert s - iset{p} == Range(p + 1, p + 1 + (n - 1)) + rest;
      ListsSkip(s - iset{p}, p + 1, n - 1, rest, xs[1..]);
      assert xs[1..][n - 1..] == xs[n..];
    }
  }

  // ---- the order ------------------------------------------------------------------------------------

  /** Lexicographic order: -1, 0 or 1. */
  function Order(xs: seq<nat>, ys: seq<nat>): int {
    if xs == [] then (if ys == [] then 0 else -1)
    else if ys == [] then 1
    else if xs[0] < ys[0] then -1
    else if xs[0] > ys[0] then 1
    else Order(xs[1..], ys[1..])
  }

  lemma {:induction false} OrderZero(xs: seq<nat>, ys: seq<nat>)
    ensures Order(xs, ys) == 0 <==> xs == ys
  {
    if xs != [] && ys != [] && xs[0] == ys[0] {
      OrderZero(xs[1..], ys[1..]);
      assert xs == [xs[0]] + xs[1..] && ys == [ys[0]] + ys[1..];
    }
  }

  lemma {:induction false} OrderFlips(xs: seq<nat>, ys: seq<nat>)
    ensures Order(xs, ys) == -Order(ys, xs)
  {
    if xs != [] && ys != [] && xs[0] == ys[0] {
      OrderFlips(xs[1..], ys[1..]);
    }
  }

  lemma {:induction false} OrderTransitive(xs: seq<nat>, ys: seq<nat>, zs: seq<nat>)
    requires Order(xs, ys) <= 0 && Order(ys, zs) <= 0
    ensures Order(xs, zs) <= 0
  {
    if xs != [] && ys != [] && zs != [] && xs[0] == ys[0] == zs[0] {
      OrderTransitive(xs[1..], ys[1..], zs[1..]);
    }
  }

  /** A shared prefix does not decide. */
  lemma {:induction false} OrderSkip(xs: seq<nat>, ys: seq<nat>, n: nat)
    requires n <= |xs| && n <= |ys| && forall i :: 0 <= i < n ==> xs[i] == ys[i]
    ensures Order(xs, ys) == Order(xs[n..], ys[n..])
  {
    if n > 0 {
      OrderSkip(xs[1..], ys[1..], n - 1);
      assert xs[1..][n - 1..] == xs[n..] && ys[1..][n - 1..] == ys[n..];
    } else {
      assert xs[0..] == xs && ys[0..] == ys;
    }
  }

  /** What is left of a map from p on: the rest of its current run and what follows. */
  ghost predicate From(left: iset<nat>, have: bool, p: nat, hi: nat, rest: iset<nat>) {
    if have then p < hi && left == Range(p, hi) + rest && forall x: nat :: x in rest ==> hi <= x
    else left == iset{}
  }

  /** Skipping a prefix both sides share keeps the order. */
  lemma SkipShared(s: iset<nat>, t: iset<nat>, p: nat, step: nat, ahi: nat, bhi: nat, ra: iset<nat>, rb: iset<nat>, xs: seq<nat>, ys: seq<nat>, order: int)
    requires From(s, true, p, ahi, ra) && From(t, true, p, bhi, rb)
    requires step <= ahi - p && step <= bhi - p && Standing(s, t, xs, ys, order)
    ensures step <= |xs| && step <= |ys|
    ensures Standing(Range(p + step, ahi) + ra, Range(p + step, bhi) + rb, xs[step..], ys[step..], order)
  {
    hide Lists, Order;
    assert s == Range(p, p + step) + (Range(p + step, ahi) + ra);
    assert t == Range(p, p + step) + (Range(p + step, bhi) + rb);
    ListsSkip(s, p, step, Range(p + step, ahi) + ra, xs);
    ListsSkip(t, p, step, Range(p + step, bhi) + rb, ys);
    OrderSkip(xs, ys, step);
  }

  /** The side with the smaller next member comes first. */
  lemma FirstDecides(s: iset<nat>, t: iset<nat>, pa: nat, pb: nat, ahi: nat, bhi: nat, ra: iset<nat>, rb: iset<nat>, xs: seq<nat>, ys: seq<nat>, order: int)
    requires From(s, true, pa, ahi, ra) && From(t, true, pb, bhi, rb) && Standing(s, t, xs, ys, order)
    ensures pa < pb ==> order == -1
    ensures pa > pb ==> order == 1
  {
    hide Lists;
    assert pa in Range(pa, ahi) && pb in Range(pb, bhi);
    ListsFirst(s, xs, pa);
    ListsFirst(t, ys, pb);
  }

  /** When one side is used up, the longer sequence is the greater. */
  lemma OneEnds(s: iset<nat>, t: iset<nat>, haveA: bool, haveB: bool, pa: nat, pb: nat, ahi: nat, bhi: nat, ra: iset<nat>, rb: iset<nat>, xs: seq<nat>, ys: seq<nat>, order: int)
    requires From(s, haveA, pa, ahi, ra) && From(t, haveB, pb, bhi, rb) && !(haveA && haveB)
    requires Standing(s, t, xs, ys, order)
    ensures order == if !haveA && !haveB then 0 else if !haveA then -1 else 1
  {
    if haveA {
      FromNotEmpty(s, pa, ahi, ra);
    }
    if haveB {
      FromNotEmpty(t, pb, bhi, rb);
    }
    assert xs != [] ==> xs[0] in xs;
    assert ys != [] ==> ys[0] in ys;
  }

  lemma FromRun(s: iset<nat>, have: bool, lo: nat, hi: nat, rest: iset<nat>)
    requires if have then FirstRun(s, lo, hi, rest) else s == iset{}
    ensures From(s, have, lo, hi, rest)
  {
  }

  lemma FromNotEmpty(s: iset<nat>, p: nat, hi: nat, rest: iset<nat>)
    requires From(s, true, p, hi, rest)
    ensures s != iset{} && p < hi
  {
    assert p in Range(p, hi);
  }

  /** The run is used up: what is left is what follows it. */
  lemma FromNext(p: nat, hi: nat, rest: iset<nat>)
    requires p == hi
    ensures Range(p, hi) + rest == rest
  {
  }

  lemma FromKept(p: nat, hi: nat, s: iset<nat>, rest: iset<nat>, q: nat)
    requires From(s, true, p, hi, rest) && p <= q < hi
    ensures From(Range(q, hi) + rest, true, q, hi, rest)
  {
  }

  /** Where a comparison stands: what is left on both sides, and that it decides the order. */
  ghost predicate Standing(s: iset<nat>, t: iset<nat>, xs: seq<nat>, ys: seq<nat>, order: int) {
    Lists(s, xs) && Lists(t, ys) && Order(xs, ys) == order
  }

  lemma StandingStart(a: Map?, b: Map?)
    requires Readable(a) && Readable(b)
    ensures Standing(SetOf(a), SetOf(b), Ascending(SetOf(a)), Ascending(SetOf(b)), Order(Ascending(SetOf(a)), Ascending(SetOf(b))))
  {
    hide Lists, Ascending;
    MapListed(a);
    MapListed(b);
  }

  /** sm_compare: the lexicographic order of the two ascending member sequences. */
  method Compare(a: Map?, b: Map?) returns (r: int)
    requires Readable(a) && Readable(b)
    ensures r == Order(Ascending(SetOf(a)), Ascending(SetOf(b)))
  {
    hide FirstRun, Raw, RawOk, WfForm, FormMembers, Layout, Off, Range, Lists, Order, From, Ascending, Standing, RunIter.Valid, RunIter.Rest, RunIter.Steps;
    StandingStart(a, b);
    var ia := new RunIter(a);
    var ib := new RunIter(b);
    ghost var s, t := ia.Rest(), ib.Rest();
    ghost var xs, ys := Ascending(s), Ascending(t);
    ghost var order := Order(xs, ys);
    var haveA, alo, ahi := ia.Next();
    var haveB, blo, bhi := ib.Next();
    FromRun(s, haveA, alo, ahi, ia.Rest());
    FromRun(t, haveB, blo, bhi, ib.Rest());
    var pa, pb := alo, blo;
    while haveA && haveB
      invariant fresh(ia) && fresh(ib) && ia != ib && ia.Valid() && ib.Valid()
      invariant Standing(s, t, xs, ys, order)
      invariant From(s, haveA, pa, ahi, ia.Rest()) && From(t, haveB, pb, bhi, ib.Rest())
      decreases ia.Steps() + ib.Steps(), (if haveA then 1 else 0) + (if haveB then 1 else 0)
    {
      if pa != pb {
        FirstDecides(s, t, pa, pb, ahi, bhi, ia.Rest(), ib.Rest(), xs, ys, order);
        return if pa < pb then -1 else 1;
      }
      haveA, pa, ahi, s, haveB, pb, bhi, t, xs, ys := SkipBoth(ia, ib, s, t, pa, ahi, bhi, xs, ys, order);
    }
    OneEnds(s, t, haveA, haveB, pa, pb, ahi, bhi, ia.Rest(), ib.Rest(), xs, ys, order);
    return if !haveA && !haveB then 0 else if !haveA then -1 else 1;
  }

  /** Both sides stand at p: skips what their current runs share. */
  method SkipBoth(ia: RunIter, ib: RunIter, ghost s: iset<nat>, ghost t: iset<nat>, p: nat, ahi: nat, bhi: nat, ghost xs: seq<nat>, ghost ys: seq<nat>, ghost order: int)
    returns (haveA: bool, pa: nat, ahi': nat, ghost s': iset<nat>, haveB: bool, pb: nat, bhi': nat, ghost t': iset<nat>, ghost xs': seq<nat>, ghost ys': seq<nat>)
    requires ia != ib && ia.Valid() && ib.Valid()
    requires Standing(s, t, xs, ys, order)
    requires From(s, true, p, ahi, ia.Rest()) && From(t, true, p, bhi, ib.Rest())
    modifies ia, ib
    ensures ia.Valid() && ib.Valid()
    ensures Standing(s', t', xs', ys', order)
    ensures From(s', haveA, pa, ahi', ia.Rest()) && From(t', haveB, pb, bhi', ib.Rest())
    ensures ia.Steps() <= old(ia.Steps()) && ib.Steps() <= old(ib.Steps())
    ensures haveA && haveB ==> ia.Steps() + ib.Steps() < old(ia.Steps() + ib.Steps())
  {
    hide FirstRun, Raw, RawOk, WfForm, FormMembers, Layout, Off, Range, Lists, Order, From, Standing;
    FromNotEmpty(s, p, ahi, ia.Rest());
    FromNotEmpty(t, p, bhi, ib.Rest());
    var step := if ahi - p < bhi - p then ahi - p else bhi - p;
    SkipShared(s, t, p, step, ahi, bhi, ia.Rest(), ib.Rest(), xs, ys, order);
    xs', ys' := xs[step..], ys[step..];
    haveA, pa, ahi', s' := Past(ia, s, p, p + step, ahi);
    haveB, pb, bhi', t' := Past(ib, t, p, p + step, bhi);
  }

  /** Moves the cursor of one side to q in its current run, and to the next run when that one is used up. */
  method Past(it: RunIter, ghost s: iset<nat>, p: nat, q: nat, hi: nat) returns (have: bool, p': nat, hi': nat, ghost s': iset<nat>)
    requires it.Valid() && From(s, true, p, hi, it.Rest()) && p <= q <= hi
    modifies it
    ensures it.Valid() && From(s', have, p', hi', it.Rest())
    ensures s' == Range(q, hi) + old(it.Rest())
    ensures it.Steps() <= old(it.Steps()) && (q == hi && have ==> it.Steps() < old(it.Steps()))
    ensures q < hi ==> have
  {
    hide FirstRun, Raw, RawOk, WfForm, FormMembers, Layout, Off, Range, From;
    s' := Range(q, hi) + it.Rest();
    if q >= hi {
      FromNext(q, hi, it.Rest());
      have, p', hi' := it.Next();
      FromRun(s', have, p', hi', it.Rest());
      return;
    }
    FromKept(p, hi, s, it.Rest(), q);
    return true, q, hi, s';
  }
}
