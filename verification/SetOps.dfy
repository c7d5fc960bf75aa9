// sm_union, sm_intersection and sm_difference on maps of either form.
module SetOps {
  import opened Words
  import opened Chunks
  import opened Streams
  import opened Maps
  import opened Appends
  import opened Coalesce
  import opened Edits
  import opened Small
  import opened Adding
  import opened Intersection
  import opened Difference
  import opened Union

  /** The set of an optional map; no map stands for the empty set. */
  ghost function SetOf(m: Map?): iset<nat>
    reads m
  {
    if m == null then iset{} else m.Set()
  }

  ghost predicate Usable(m: Map?)
    reads m, if m == null then {} else {m.data}
  {
    m != null ==> m.Valid() && m.Strict()
  }

  /** What an operation returns: no map exactly for the empty set, and otherwise a map of that set. */
  ghost predicate Returns(r: Map?, s: iset<nat>)
    reads r, if r == null then {} else {r.data}
  {
    && Usable(r)
    && (r == null <==> s == iset{})
    && SetOf(r) == s
  }

  method Copy(m: Map) returns (r: Map)
    requires m.Valid()
    ensures fresh(r) && fresh(r.data) && r.Valid() && r.form == m.form
  {
    hide Layout, WfForm;
    LayoutNonempty(m.form);
    r := new Map(m.data.Length);
    r.Store(m.data[..m.used]);
    r.form := m.form;
  }

  lemma LayoutNonempty(f: Form)
    ensures |Layout(f)| >= 1
  {
  }

  /** A chunk-mode map of the same set, built by adding every bit. */
  method Materialize(m: Map) returns (r: Map)
    requires m.Valid() && m.form.Small?
    ensures fresh(r) && fresh(r.data) && Open(r, true) && Members(r.Chunks()) == SmallMembers(m.form.words)
    ensures ShortRun(m.form.words) ==> StartsRle(r.form)
  {
    hide WfStream, AllFull, Members, Moved, SmallMembers, Layout, Low, Has, SmallHas, WfForm, ShortRuns, ShortRun, StartsRle, InTwoWords;
    SmallWf(m.form);
    var words := SmallWords(m);
    r := new Map(32);
    EmptyMap();
    ChunkedForm(r.form);
    MovedEnds(words, 0);
    for i := 0 to |words|
      invariant fresh(r) && fresh(r.data) && r.Valid() && r.Strict() && r.Set() == Moved(words, i, ONES)
      invariant r.data.Length >= 32 && (InTwoWords(r.Set()) ==> SmallOrEmpty(r.form))
    {
      AddWord(r, words, i, words[i]);
    }
    MovedEnds(words, |words|);
    ShortRunStays(words, r.form);
    if r.IsSmall() {
      SmallForm(r.form);
      ShortRunSame(words, r.form);
      var ok := Promote(r);
      if !ok {
        r.Grow(r.data.Length * 2 + 512);
        ok := Promote(r);
      }
    }
    ChunkedForm(r.form);
  }

  /** A short run is not empty and lies in the first word. */
  lemma ShortRunStays(words: seq<Word>, f: Form)
    requires FormMembers(f) == SmallMembers(words) && (InTwoWords(FormMembers(f)) ==> SmallOrEmpty(f))
    ensures ShortRun(words) ==> f.Small?
  {
    if ShortRun(words) {
      var n: nat :| 0 < n < 64 && RunFromZero(words, n);
      assert 0 in SmallMembers(words);
      assert InTwoWords(SmallMembers(words));
      HasOne(RleChunk(0, 0, 0));
    }
  }

  lemma ShortRunSame(words: seq<Word>, f: Form)
    requires f.Small? && FormMembers(f) == SmallMembers(words)
    ensures ShortRun(words) ==> ShortRun(f.words)
  {
    SmallForm(f);
    if ShortRun(words) {
      var n: nat :| 0 < n < 64 && RunFromZero(words, n);
      forall x: nat ensures SmallHas(f.words, x) <==> x < n {
        assert x in SmallMembers(f.words) <==> x in SmallMembers(words);
      }
      assert RunFromZero(f.words, n);
    }
  }

  lemma ClearKeeps(bits: Word, b: nat, w: Word)
    requires b < 64 && forall k :: 0 <= k < 64 && bits[k] ==> w[k]
    ensures forall k :: 0 <= k < 64 && ClearBit(bits, b)[k] ==> w[k]
  {
  }

  /** Adds the bits of word i one by one, growing the buffer as needed. */
  method AddWord(r: Map, ghost ws: seq<Word>, i: nat, w: Word)
    requires r.Valid() && r.Strict() && i < |ws| <= SMALL_MAX_WORDS && w == ws[i]
    requires r.Set() == Moved(ws, i, ONES) && r.data.Length >= 32
    requires InTwoWords(r.Set()) ==> SmallOrEmpty(r.form)
    modifies r, r.data
    ensures r.Valid() && r.Strict() && r.Set() == Moved(ws, i + 1, ONES)
    ensures r.data.Length >= 32 && (r.data == old(r.data) || fresh(r.data))
    ensures InTwoWords(r.Set()) ==> SmallOrEmpty(r.form)
  {
    hide WfForm, FormMembers, AllFull, Moved, ShortRuns, SmallMembers, Layout, ClearBit, Low, InTwoWords;
    MovedEnds(ws, i);
    var bits := w;
    while bits != ZERO
      invariant r.Valid() && r.Strict() && r.Set() == Moved(ws, i, bits)
      invariant r.data.Length >= 32 && (r.data == old(r.data) || fresh(r.data))
      invariant InTwoWords(r.Set()) ==> SmallOrEmpty(r.form)
      invariant forall k :: 0 <= k < 64 && bits[k] ==> w[k]
      decreases BitCount(bits)
    {
      var b := LowestBit(bits);
      MovedStep(ws, i, bits, b);
      MovedLow(ws, i, ClearBit(bits, b));
      LowPart(Moved(ws, i, ClearBit(bits, b)), SmallMembers(ws));
      LowShort(Moved(ws, i, ClearBit(bits, b)));
      InTwoLess(r.Set(), 64 * i + b);
      AddGrow(r, 64 * i + b);
      FewerOnes(bits, b, 64);
      ClearKeeps(bits, b, w);
      bits := ClearBit(bits, b);
    }
  }

  lemma InTwoLess(s: iset<nat>, idx: nat)
    ensures InTwoWords(s + iset{idx}) ==> InTwoWords(s) && idx < 128
  {
    assert idx in s + iset{idx};
  }

  /** The map itself when it is in chunk mode, and a chunk-mode map of the same set otherwise. */
  method ChunkView(m: Map?) returns (v: Map?)
    requires Usable(m)
    ensures Usable(v) && (v == null <==> m == null) && (v != null ==> v.form.Chunked?)
    ensures SetOf(v) == SetOf(m)
    ensures v == m || (fresh(v) && v != null && fresh(v.data))
  {
    hide AllFull, Members, SmallMembers, Layout, WfForm, WfStream;
    if m == null {
      return null;
    }
    if !m.IsSmall() {
      return m;
    }
    SmallForm(m.form);
    var w := Materialize(m);
    ChunkedForm(w.form);
    v := w;
  }

  /** Frees an empty result, and turns a small one into the bare bitmap. */
  method Finish(r: Map) returns (out: Map?)
    requires Open(r, true)
    modifies r, r.data
    ensures Returns(out, old(Members(r.Chunks())))
    ensures out == null || (out == r && r.data == old(r.data))
    ensures out != null && out.form.Chunked? ==> out.form == old(r.form)
    ensures out != null ==> Lean(out.form)
  {
    hide Lean, WfStream, AllFull, Members, Layout;
    ghost var cs := r.Chunks();
    EmptyIff(cs);
    ChunkedForm(r.form);
    var n := r.Count();
    if n == 0 {
      return null;
    }
    TryDemote(r);
    return r;
  }

  /** A well-formed stream is empty exactly when it stands for the empty set. */
  lemma EmptyIff(cs: seq<Chunk>)
    requires WfStream(cs)
    ensures cs == [] <==> Members(cs) == iset{}
  {
    if cs != [] {
      var x := FirstMember(cs, 0);
    }
  }

  /** A copy of a chunk-mode map that is not empty. */
  method CopyOf(m: Map) returns (out: Map?)
    requires Open(m, true) && m.Chunks() != []
    ensures Returns(out, Members(m.Chunks())) && out != null && fresh(out) && fresh(out.data)
  {
    hide WfStream, AllFull, Members, Layout;
    EmptyIff(m.Chunks());
    ChunkedForm(m.form);
    var r := Copy(m);
    out := r;
  }

  lemma ChunksOf(f: Form)
    requires f.Chunked?
    ensures FormMembers(f) == Members(f.chunks)
    ensures f.chunks == [] ==> FormMembers(f) == iset{}
  {
    ChunkedForm(f);
  }

  /** sm_intersection: a map of the common members, or none when there are none. */
  method Intersect(a: Map?, b: Map?) returns (r: Map?)
    requires Usable(a) && Usable(b)
    ensures Returns(r, SetOf(a) * SetOf(b))
    ensures r != null ==> fresh(r) && fresh(r.data) && Lean(r.form)
  {
    hide Lean, WfStream, AllFull, Members, Layout, WfForm, FormMembers;
    var va := ChunkView(a);
    var vb := ChunkView(b);
    if va == null || vb == null {
      return null;
    }
    ChunksOf(va.form);
    ChunksOf(vb.form);
    var m, n := va.Count(), vb.Count();
    if m == 0 || n == 0 {
      return null;
    }
    var w := IntersectWalk(va, vb);
    r := Finish(w);
  }

  /** sm_difference: a map of the members of a that are not in b, or none when there are none. */
  method Subtract(a: Map?, b: Map?) returns (r: Map?)
    requires Usable(a) && Usable(b)
    ensures Returns(r, SetOf(a) - SetOf(b))
    ensures r != null ==> fresh(r) && fresh(r.data) && (SetOf(b) != iset{} ==> Lean(r.form))
  {
    hide Lean, WfStream, AllFull, Members, Layout, WfForm, FormMembers;
    var va := ChunkView(a);
    var vb := ChunkView(b);
    if va == null {
      return null;
    }
    ChunksOf(va.form);
    var m := va.Count();
    if m == 0 {
      return null;
    }
    if vb == null {
      r := CopyOf(va);
      return;
    }
    ChunksOf(vb.form);
    var n := vb.Count();
    if n == 0 {
      r := CopyOf(va);
      return;
    }
    var w := DifferWalk(va, vb);
    r := Finish(w);
  }

  /** sm_union: a map of the members of either operand, or none when there are none. */
  method Unite(a: Map?, b: Map?) returns (r: Map?)
    requires Usable(a) && Usable(b)
    ensures Returns(r, SetOf(a) + SetOf(b))
    ensures r != null ==> fresh(r) && fresh(r.data) && (SetOf(a) != iset{} && SetOf(b) != iset{} ==> Lean(r.form))
  {
    hide Lean, WfStream, AllFull, Members, Layout, WfForm, FormMembers, Map.Valid;
    var va := ChunkView(a);
    var vb := ChunkView(b);
    var m, n := 0, 0;
    if va != null {
      ChunksOf(va.form);
      m := va.Count();
    }
    if vb != null {
      ChunksOf(vb.form);
      n := vb.Count();
    }
    if m == 0 && n == 0 {
      return null;
    }
    if m == 0 {
      r := CopyOf(vb);
      return;
    }
    if n == 0 {
      r := CopyOf(va);
      return;
    }
    var w := UnionWalk(va, vb);
    r := Finish(w);
  }
}
