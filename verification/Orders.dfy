// Equality, hashing and order of maps, decided on their maximal runs.
module Orders {
  import opened Words
  import opened Chunks
  import opened Streams
  import opened Codec
  import opened Maps
  import opened Small
  import opened SetOps
  import opened Runs

  ghost predicate Readable(m: Map?)
    reads m, if m == null then {} else {m.data}
  {
    m != null ==> m.Valid()
  }

  /** sm_is_empty. */
  method IsEmpty(m: Map?) returns (b: bool)
    requires Readable(m)
    ensures b <==> SetOf(m) == iset{}
  {
    hide Layout, WfStream, Members, SmallMembers;
    if m == null {
      return true;
    }
    if m.IsSmall() {
      SmallForm(m.form);
      SmallWf(m.form);
      var ws := SmallWords(m);
      SmallEmpty(ws);
      for i := 0 to |ws|
        invariant forall v :: 0 <= v < i ==> ws[v] == ZERO
      {
        if ws[i] != ZERO {
          return false;
        }
      }
      return true;
    }
    ChunkedForm(m.form);
    EmptyIff(m.Chunks());
    var n := m.Count();
    return n == 0;
  }

  lemma SmallEmpty(ws: seq<Word>)
    ensures SmallMembers(ws) == iset{} <==> forall v :: 0 <= v < |ws| ==> ws[v] == ZERO
  {
    if v :| 0 <= v < |ws| && ws[v] != ZERO {
      NonzeroBit(ws[v]);
      var k :| 0 <= k < 64 && ws[v][k];
      assert (64 * v + k) / 64 == v && (64 * v + k) % 64 == k;
      assert 64 * v + k in SmallMembers(ws);
    }
  }

  // ---- equality --------------------------------------------------------------------------------

  lemma FirstRunUnique(s: iset<nat>, lo: nat, hi: nat, rest: iset<nat>, lo': nat, hi': nat, rest': iset<nat>)
    requires FirstRun(s, lo, hi, rest) && FirstRun(s, lo', hi', rest')
    ensures lo == lo' && hi == hi' && rest == rest'
  {
    FirstNotEmpty(s, lo, hi, rest);
    FirstNotEmpty(s, lo', hi', rest');
    assert lo' in Range(lo, hi) || lo' in rest;
    assert lo in Range(lo', hi') || lo in rest';
    assert lo == lo';
    assert hi !in s && hi' !in s;
    assert hi' < hi ==> hi' in Range(lo, hi);
    assert hi < hi' ==> hi in Range(lo', hi');
    forall x: nat ensures x in rest <==> x in rest' {
      assert x in s <==> x in Range(lo, hi) || x in rest;
    }
  }

  /** Two sets whose first runs are the same are equal exactly when what follows is. */
  lemma SameFirst(s: iset<nat>, t: iset<nat>, lo: nat, hi: nat, r: iset<nat>, q: iset<nat>)
    requires FirstRun(s, lo, hi, r) && FirstRun(t, lo, hi, q)
    ensures s == t <==> r == q
  {
    if s == t {
      FirstRunUnique(s, lo, hi, r, lo, hi, q);
    }
  }

  /** Two sets whose first runs differ are different. */
  lemma OtherFirst(s: iset<nat>, t: iset<nat>, lo: nat, hi: nat, r: iset<nat>, lo': nat, hi': nat, q: iset<nat>)
    requires FirstRun(s, lo, hi, r) && FirstRun(t, lo', hi', q) && (lo != lo' || hi != hi')
    ensures s != t
  {
    if s == t {
      FirstRunUnique(s, lo, hi, r, lo', hi', q);
    }
  }

  /** Compares the runs of two iterators, pair by pair. */
  method SameRuns(ia: RunIter, ib: RunIter) returns (eq: bool)
    requires ia.Valid() && ib.Valid() && ia != ib
    modifies ia, ib
    ensures eq <==> old(ia.Rest()) == old(ib.Rest())
  {
    hide RunIter.Valid, RunIter.Rest, RunIter.Steps, FirstRun, Raw, RawOk, WfForm, FormMembers, Layout, Off, Range;
    ghost var a, b := ia.Rest(), ib.Rest();
    ghost var s, t := a, b;
    var haveA, alo, ahi := ia.Next();
    var haveB, blo, bhi := ib.Next();
    while haveA && haveB
      invariant ia.Valid() && ib.Valid() && (s == t <==> a == b)
      invariant if haveA then FirstRun(s, alo, ahi, ia.Rest()) else s == iset{}
      invariant if haveB then FirstRun(t, blo, bhi, ib.Rest()) else t == iset{}
      decreases ia.Steps(), haveA
    {
      if alo != blo || ahi != bhi {
        OtherFirst(s, t, alo, ahi, ia.Rest(), blo, bhi, ib.Rest());
        return false;
      }
      SameFirst(s, t, alo, ahi, ia.Rest(), ib.Rest());
      s, t := ia.Rest(), ib.Rest();
      haveA, alo, ahi := ia.Next();
      haveB, blo, bhi := ib.Next();
    }
    if haveA {
      FirstRunNotEmpty(s, alo, ahi, ia.Rest());
    }
    if haveB {
      FirstRunNotEmpty(t, blo, bhi, ib.Rest());
    }
    return haveA == haveB;
  }

  /** sm_equals: the two maps stand for the same set, whatever their encodings. */
  method Equals(a: Map?, b: Map?) returns (eq: bool)
    requires Readable(a) && Readable(b)
    ensures eq <==> SetOf(a) == SetOf(b)
  {
    hide FirstRun, Raw, RawOk, WfForm, FormMembers, Layout, Off, Range;
    var emptyA := IsEmpty(a);
    var emptyB := IsEmpty(b);
    if emptyA && emptyB {
      return true;
    }
    if emptyA != emptyB {
      return false;
    }
    var ia := new RunIter(a);
    var ib := new RunIter(b);
    eq := SameRuns(ia, ib);
  }

  // ---- hashing ------------------------------------------------------------------------------------

  /** rs lists the maximal runs of s. */
  ghost predicate Decomposes(s: iset<nat>, rs: seq<Run>) {
    Separated(rs) && RunSet(rs) == s
  }

  lemma DecomposedFirst(s: iset<nat>, rs: seq<Run>)
    requires Decomposes(s, rs) && rs != []
    ensures FirstRun(s, rs[0].lo, rs[0].hi, RunSet(rs[1..])) && Separated(rs[1..])
  {
    assert rs[0..] == rs;
    RunSetSplit(rs, 0, rs, rs[1..]);
  }

  /** A set has one decomposition into maximal runs, however it is stored. */
  lemma {:induction false} UniqueDecomposition(s: iset<nat>, a: seq<Run>, b: seq<Run>)
    requires Decomposes(s, a) && Decomposes(s, b)
    ensures a == b
  {
    if a != [] {
      DecomposedFirst(s, a);
      FirstRunNotEmpty(s, a[0].lo, a[0].hi, RunSet(a[1..]));
    }
    if b != [] {
      DecomposedFirst(s, b);
      FirstRunNotEmpty(s, b[0].lo, b[0].hi, RunSet(b[1..]));
    }
    if a != [] && b != [] {
      FirstRunUnique(s, a[0].lo, a[0].hi, RunSet(a[1..]), b[0].lo, b[0].hi, RunSet(b[1..]));
      UniqueDecomposition(RunSet(a[1..]), a[1..], b[1..]);
    }
  }

  const FNV_BASIS: nat := 0xcbf2_9ce4_8422_2325
  const FNV_PRIME: nat := 0x100_0000_01b3

  function Xor(a: Word, b: Word): Word {
    seq(64, i requires 0 <= i < 64 => a[i] != b[i])
  }

  /** One step of FNV-1a: the byte is mixed in and the product kept to 64 bits. */
  function MixByte(h: nat, byte: nat): nat {
    ToNat(Xor(U64(h), U64(byte))) * FNV_PRIME % TWO64
  }

  /** Mixes the n low bytes of v, least significant first. */
  function MixBytes(h: nat, v: nat, n: nat): nat {
    if n == 0 then h else MixByte(MixBytes(h, v, n - 1), v / Pow2(8 * (n - 1)) % 256)
  }

  function Fnv(rs: seq<Run>): nat {
    if rs == [] then FNV_BASIS
    else MixBytes(MixBytes(Fnv(rs[..|rs| - 1]), rs[|rs| - 1].lo, 8), rs[|rs| - 1].hi, 8)
  }

  /** The hash of a set: FNV-1a over the ends of its maximal runs. */
  ghost function HashOf(s: iset<nat>): nat {
    if exists rs :: Decomposes(s, rs) then
      var rs :| Decomposes(s, rs);
      Fnv(rs)
    else FNV_BASIS
  }

  lemma HashIs(s: iset<nat>, rs: seq<Run>)
    requires Decomposes(s, rs)
    ensures HashOf(s) == Fnv(rs)
  {
    var other :| Decomposes(s, other) && HashOf(s) == Fnv(other);
    UniqueDecomposition(s, rs, other);
  }

  /** One more run at the end of the runs seen so far. */
  lemma SeenMore(s: iset<nat>, seen: seq<Run>, rest: iset<nat>, lo: nat, hi: nat, rest': iset<nat>)
    requires Separated(seen) && s == RunSet(seen) + rest
    requires forall x: nat :: x in rest && seen != [] ==> seen[|seen| - 1].hi < x
    requires FirstRun(rest, lo, hi, rest')
    ensures Separated(seen + [Run(lo, hi)]) && s == RunSet(seen + [Run(lo, hi)]) + rest'
    ensures forall x: nat :: x in rest' ==> hi < x
    ensures Fnv(seen + [Run(lo, hi)]) == MixBytes(MixBytes(Fnv(seen), lo, 8), hi, 8)
  {
    hide MixBytes, Separated;
    FirstNotEmpty(rest, lo, hi, rest');
    ExtendRuns(seen, lo, hi);
    assert Extend(seen, lo, hi) == seen + [Run(lo, hi)];
    assert (seen + [Run(lo, hi)])[..|seen|] == seen;
  }

  method MixEnd(h0: nat, v: nat) returns (h: nat)
    ensures h == MixBytes(h0, v, 8)
  {
    hide MixByte, Pow2;
    h := h0;
    for b := 0 to 8
      invariant h == MixBytes(h0, v, b)
    {
      h := MixByte(h, v / Pow2(8 * b) % 256);
    }
  }

  /** sm_hash: a function of the set alone, so equal sets hash alike whatever their encodings. */
  method Hash(m: Map?) returns (h: nat)
    requires Readable(m)
    ensures h == HashOf(SetOf(m))
  {
    hide FirstRun, Separated, Fnv, MixBytes, HashOf, RunSet, Raw, RawOk, WfForm, FormMembers, Layout, Off, Range;
    var empty := IsEmpty(m);
    NoRuns();
    h := FNV_BASIS;
    if empty {
      HashIs(iset{}, []);
      return;
    }
    var it := new RunIter(m);
    ghost var seen: seq<Run>, s := [], it.Rest();
    var have, lo, hi := it.Next();
    while have
      invariant fresh(it) && it.Valid()
      invariant Separated(seen) && SetOf(m) == RunSet(seen) + s && h == Fnv(seen)
      invariant forall x: nat :: x in s && seen != [] ==> seen[|seen| - 1].hi < x
      invariant if have then FirstRun(s, lo, hi, it.Rest()) else s == iset{}
      decreases it.Steps(), have
    {
      SeenMore(SetOf(m), seen, s, lo, hi, it.Rest());
      h := MixEnd(h, lo);
      h := MixEnd(h, hi);
      seen := seen + [Run(lo, hi)];
      s := it.Rest();
      have, lo, hi := it.Next();
    }
    HashIs(SetOf(m), seen);
  }

  lemma NoRuns()
    ensures Separated([]) && RunSet([]) == iset{} && Fnv([]) == FNV_BASIS
  {
  }
}
