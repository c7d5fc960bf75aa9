// The bare-bitmap form: adding and removing in place, and recognising a run from bit 0.
module Small {
  import opened Words
  import opened Chunks
  import opened Streams
  import opened Maps
  import opened RunLengths
  import opened Edits

  ghost function SmallMembers(ws: seq<Word>): iset<nat> {
    iset x: nat | SmallHas(ws, x)
  }

  lemma SmallForm(f: Form)
    requires f.Small?
    ensures FormMembers(f) == SmallMembers(f.words)
  {
  }

  lemma ChunkedForm(f: Form)
    requires f.Chunked?
    ensures FormMembers(f) == Members(f.chunks)
  {
  }

  /** Members of a bare bitmap lie below its last word's end. */
  lemma SmallBound(ws: seq<Word>)
    ensures forall x: nat :: x in SmallMembers(ws) ==> x < 64 * |ws|
  {
  }

  /** Changing one bit of one word. */
  lemma SmallBit(ws: seq<Word>, idx: nat, change: Change)
    requires idx / 64 < |ws| && change != Keep
    ensures var v, b := idx / 64, idx % 64;
      var w := if change == Set then SetBit(ws[v], b) else ClearBit(ws[v], b);
      SmallMembers(ws[v := w]) == Changed(SmallMembers(ws), idx, change)
  {
    var v, b := idx / 64, idx % 64;
    var w := if change == Set then SetBit(ws[v], b) else ClearBit(ws[v], b);
    forall x: nat ensures x in SmallMembers(ws[v := w]) <==> x in Changed(SmallMembers(ws), idx, change) {
      assert x == 64 * (x / 64) + x % 64;
    }
  }

  /** Zero words at the end hold nothing. */
  lemma {:induction false} ZeroTail(ws: seq<Word>, n: nat)
    ensures SmallMembers(ws + Zeroes(n)) == SmallMembers(ws)
  {
  }

  function Zeroes(n: nat): (z: seq<Word>)
    ensures |z| == n && forall i :: 0 <= i < n ==> z[i] == ZERO
  {
    seq(n, i => ZERO)
  }

  lemma SmallLayout(f: Form)
    requires f.Small? && WfForm(f)
    ensures Layout(f) == [SmallHeader(|f.words|)] + f.words && Layout(f)[1..] == f.words && Layout(f)[0] == SmallHeader(|f.words|)
    ensures SmallCount(Layout(f)[0]) == |f.words|
  {
    HeaderRoundTrip(f);
  }

  /** The number of words of a bare bitmap. */
  method SmallWords(m: Map) returns (ws: seq<Word>)
    requires m.Valid() && m.form.Small?
    ensures ws == m.form.words
  {
    SmallLayout(m.form);
    assert m.data[..m.used][0] == m.data[0];
    var n := SmallCount(m.data[0]);
    assert m.data[..m.used][1..] == m.data[1..1 + n];
    ws := m.data[1..1 + n];
  }

  /** Appends zero words until there are n. */
  method Expose(m: Map, ghost ws: seq<Word>, have: nat, n: nat)
    requires m.used <= m.data.Length && m.data[..m.used] == [SmallHeader(|ws|)] + ws
    requires have == |ws| < n && 1 + n <= m.data.Length
    modifies m`used, m.data
    ensures m.used == 1 + n && m.data[..m.used] == [SmallHeader(n)] + (ws + Zeroes(n - |ws|))
  {
    hide SmallHeader;
    ghost var was := m.data[..m.used];
    forall i | have <= i < n {
      m.data[1 + i] := ZERO;
    }
    m.data[0] := SmallHeader(n);
    m.used := 1 + n;
    assert m.data[..m.used] == [SmallHeader(n)] + was[1..] + Zeroes(n - have);
  }

  /** Sets a bit of the last word, or of any word of a bitmap without zero words at the end. */
  method SetWordBit(m: Map, ghost ws: seq<Word>, idx: nat)
    requires m.used <= m.data.Length && m.data[..m.used] == [SmallHeader(|ws|)] + ws && idx / 64 < |ws| <= SMALL_MAX_WORDS
    requires idx / 64 == |ws| - 1 || ws[|ws| - 1] != ZERO
    modifies m, m.data
    ensures m.Valid() && m.form.Small? && m.data == old(m.data)
    ensures SmallMembers(m.form.words) == SmallMembers(ws) + iset{idx}
  {
    hide SmallMembers, SmallHeader, SetBit, Layout, WfForm;
    var v, b := idx / 64, idx % 64;
    SmallBit(ws, idx, Set);
    SetKeepsWf(ws, v, b);
    assert m.data[..m.used][1 + v] == ws[v];
    m.Put(1 + v, SetBit(m.data[1 + v], b));
    m.form := Small(ws[v := SetBit(ws[v], b)]);
    SmallLayout(m.form);
    assert m.data[..m.used] == Layout(m.form);
  }

  /** Adds idx to a bare bitmap, exposing zero words up to its word; refuses when they do not fit. */
  method SmallAdd(m: Map, idx: nat) returns (ok: bool)
    requires m.Valid() && m.form.Small? && idx < SMALL_MAX_BITS
    modifies m, m.data
    ensures m.Valid() && m.form.Small? && m.data == old(m.data)
    ensures !ok ==> m.form == old(m.form)
    ensures ok <==> idx / 64 < |old(m.form).words| || 2 + idx / 64 <= m.data.Length
    ensures ok ==> SmallMembers(m.form.words) == SmallMembers(old(m.form.words)) + iset{idx}
  {
    hide SmallMembers, SmallHeader, SetBit, Layout, WfForm;
    ghost var ws := m.form.words;
    SmallLayout(m.form);
    SmallWf(m.form);
    assert m.data[..m.used][0] == m.data[0];
    var v := idx / 64;
    var n: nat := SmallCount(m.data[0]);
    assert m.data[..m.used] == [SmallHeader(n)] + ws;
    if v >= n {
      if v + 2 > m.data.Length {
        return false;
      }
      Expose(m, ws, n, v + 1);
      ZeroTail(ws, v + 1 - n);
      SetWordBit(m, ws + Zeroes(v + 1 - n), idx);
    } else {
      SetWordBit(m, ws, idx);
    }
    return true;
  }

  lemma SmallWf(f: Form)
    requires f.Small? && WfForm(f)
    ensures |f.words| <= SMALL_MAX_WORDS && (f.words != [] ==> f.words[|f.words| - 1] != ZERO)
  {
  }

  lemma SetKeepsWf(ws: seq<Word>, v: nat, b: nat)
    requires v < |ws| <= SMALL_MAX_WORDS && b < 64
    requires v == |ws| - 1 || ws[|ws| - 1] != ZERO
    ensures WfForm(Small(ws[v := SetBit(ws[v], b)]))
  {
    assert SetBit(ws[v], b)[b] && !ZERO[b];
  }

  /** The words without trailing zero words. */
  function Trim(ws: seq<Word>): (r: seq<Word>)
    ensures |r| <= |ws| && r == ws[..|r|]
    ensures r != [] ==> r[|r| - 1] != ZERO
    ensures SmallMembers(r) == SmallMembers(ws)
  {
    if ws == [] then []
    else if ws[|ws| - 1] != ZERO then ws
    else
      TrimStep(ws);
      Trim(ws[..|ws| - 1])
  }

  lemma TrimStep(ws: seq<Word>)
    requires ws != [] && ws[|ws| - 1] == ZERO
    ensures SmallMembers(ws[..|ws| - 1]) == SmallMembers(ws)
  {
  }

  /** How many words are left without the zero words at the end. */
  method TrimmedCount(m: Map, ghost ws: seq<Word>, count: nat) returns (n: nat)
    requires m.used <= m.data.Length && m.data[..m.used] == [SmallHeader(|ws|)] + ws && count == |ws|
    ensures n <= |ws| && Trim(ws) == ws[..n]
  {
    hide SmallHeader, SmallMembers;
    n := count;
    assert ws[..n] == ws;
    while n > 0 && m.data[n] == ZERO
      invariant n <= |ws|
      invariant Trim(ws[..n]) == Trim(ws)
    {
      assert m.data[n] == m.data[..m.used][n] == ws[n - 1];
      assert ws[..n][..n - 1] == ws[..n - 1];
      n := n - 1;
    }
    if n > 0 {
      assert m.data[n] == m.data[..m.used][n] == ws[n - 1];
    }
  }

  /** Drops the zero words at the end of a bare bitmap. */
  method DropZeroes(m: Map, ghost ws: seq<Word>, count: nat)
    requires m.used <= m.data.Length && m.data[..m.used] == [SmallHeader(|ws|)] + ws && count == |ws| <= SMALL_MAX_WORDS
    modifies m, m.data
    ensures m.Valid() && m.form == Small(Trim(ws)) && m.data == old(m.data)
    ensures m.used <= old(m.used)
  {
    hide SmallHeader, SmallMembers, Trim;
    var n := TrimmedCount(m, ws, count);
    ghost var was := m.data[..m.used];
    m.data[0] := SmallHeader(n);
    m.used := 1 + n;
    m.form := Small(ws[..n]);
    assert was[1..1 + n] == ws[..n];
    assert m.data[..m.used] == [SmallHeader(n)] + was[1..1 + n];
  }

  /** Removes idx from a bare bitmap and drops the zero words this leaves at the end. */
  method SmallRemove(m: Map, idx: nat)
    requires m.Valid() && m.form.Small?
    modifies m, m.data
    ensures m.Valid() && m.form.Small? && m.data == old(m.data)
    ensures SmallMembers(m.form.words) == SmallMembers(old(m.form.words)) - iset{idx}
    ensures m.used <= old(m.used)
  {
    hide SmallMembers, SmallHeader, ClearBit, Trim, Layout, WfForm;
    ghost var ws := m.form.words;
    SmallLayout(m.form);
    SmallWf(m.form);
    assert m.data[..m.used][0] == m.data[0];
    var v := idx / 64;
    var n: nat := SmallCount(m.data[0]);
    if v >= n {
      SmallBound(ws);
      return;
    }
    SmallBit(ws, idx, Clear);
    ghost var cleared := ws[v := ClearBit(ws[v], idx % 64)];
    assert m.data[..m.used] == [SmallHeader(n)] + ws;
    assert m.data[..m.used][1 + v] == ws[v];
    m.Put(1 + v, ClearBit(m.data[1 + v], idx % 64));
    assert m.data[..m.used] == [SmallHeader(n)] + cleared;
    DropZeroes(m, cleared, n);
  }

  // ---- a run from bit 0 ----------------------------------------------------------------

  /** The members are exactly the indices below n. */
  ghost predicate RunFromZero(ws: seq<Word>, n: nat) {
    forall x: nat :: SmallHas(ws, x) <==> x < n
  }

  /** The members are a run from bit 0 that ends within the first word. */
  ghost predicate ShortRun(ws: seq<Word>) {
    exists n: nat :: 0 < n < 64 && RunFromZero(ws, n)
  }

  /** Whether the members are a run from bit 0, and its length. */
  method IsRunFromZero(ws: seq<Word>) returns (yes: bool, len: nat)
    ensures yes ==> len > 0 && RunFromZero(ws, len)
    ensures !yes ==> forall n: nat :: n > 0 ==> !RunFromZero(ws, n)
    ensures len <= 64 * |ws|
  {
    len := 0;
    var ended := false;
    for i := 0 to |ws|
      invariant len <= 64 * i && (if ended then len < 64 * i else len == 64 * i)
      invariant forall v, k :: 0 <= v < i && 0 <= k < 64 ==> ws[v][k] == (64 * v + k < len)
    {
      var n, pure := LowRun(ws[i]);
      if ended {
        if ws[i] != ZERO {
          ghost var k := SetBitOf(ws[i]);
          GapRules(ws, len, 64 * i + k);
          return false, 0;
        }
        continue;
      }
      if ws[i] == ONES {
        len := len + 64;
        continue;
      }
      if ws[i] == ZERO {
        ended := true;
        continue;
      }
      FullWord(ws[i], n);
      if !pure {
        ghost var k :| n <= k < 64 && ws[i][k];
        GapRules(ws, 64 * i + n, 64 * i + k);
        return false, 0;
      }
      len := len + n;
      ended := true;
    }
    yes := len > 0;
    if len > 0 {
      RunBits(ws, len);
    } else {
      NoRun(ws);
    }
  }

  lemma FullWord(w: Word, n: nat)
    requires n <= 64 && w != ONES && forall k :: 0 <= k < n ==> w[k]
    ensures n < 64
  {
    if n == 64 {
      WordExt(w, ONES);
    }
  }

  lemma GapRules(ws: seq<Word>, gap: nat, high: nat)
    requires gap < high && high / 64 < |ws| && !ws[gap / 64][gap % 64] && ws[high / 64][high % 64]
    ensures forall n: nat :: n > 0 ==> !RunFromZero(ws, n)
  {
    assert !SmallHas(ws, gap) && SmallHas(ws, high);
  }

  lemma RunBits(ws: seq<Word>, len: nat)
    requires len <= 64 * |ws|
    requires forall v, k :: 0 <= v < |ws| && 0 <= k < 64 ==> ws[v][k] == (64 * v + k < len)
    ensures RunFromZero(ws, len)
  {
    forall x: nat ensures SmallHas(ws, x) <==> x < len {
      assert x == 64 * (x / 64) + x % 64;
    }
  }

  lemma NoRun(ws: seq<Word>)
    requires forall v, k :: 0 <= v < |ws| && 0 <= k < 64 ==> !ws[v][k]
    ensures forall n: nat :: n > 0 ==> !RunFromZero(ws, n)
  {
    assert !SmallHas(ws, 0);
  }

  /** The lowest set bit. */
  method LowestBit(w: Word) returns (b: nat)
    requires w != ZERO
    ensures b < 64 && w[b] && forall k :: 0 <= k < b ==> !w[k]
  {
    ghost var some := SetBitOf(w);
    b := 0;
    while !w[b]
      invariant b <= some && forall k :: 0 <= k < b ==> !w[k]
      decreases 64 - b
    {
      b := b + 1;
    }
  }
}
