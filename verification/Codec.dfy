// Between a chunk and the thirty-two words of its window.
module Codec {
  import opened Words
  import opened Chunks
  import opened Streams

  /** The members of a window of words placed at start. */
  ghost function WindowMembers(start: nat, ws: Window): iset<nat> {
    iset x: nat | WindowHas(start, ws, x)
  }

  /** ws holds exactly the bits of the run [lo, hi), counted from the window's start. */
  ghost predicate HoldsRun(ws: Window, lo: int, hi: int) {
    forall v, k :: 0 <= v < SLOTS && 0 <= k < 64 ==> ws[v][k] == (lo <= 64 * v + k < hi)
  }

  lemma HoldsRunMembers(start: nat, ws: Window, lo: nat, hi: nat)
    requires start <= lo && hi <= start + WINDOW
    requires HoldsRun(ws, lo - start, hi - start)
    ensures WindowMembers(start, ws) == Range(lo, hi)
  {
    forall x: nat ensures x in WindowMembers(start, ws) <==> x in Range(lo, hi) {
      if start <= x < start + WINDOW {
        var v, k := (x - start) / 64, (x - start) % 64;
        assert x - start == 64 * v + k;
        assert ws[v][k] == (lo - start <= 64 * v + k < hi - start);
      }
    }
  }

  lemma FullChunkMembers(start: nat, ws: Window)
    requires Aligned(start) && start + WINDOW <= TOP
    requires exists v :: 0 <= v < SLOTS && ws[v] != ZERO
    ensures ChunkMembers(FullChunk(start, ws)) == WindowMembers(start, ws)
  {
    FullChunkWf(start, ws);
  }

  lemma RleChunkMembers(start: nat, cap: nat, len: nat)
    requires cap <= RLE_MAX && len <= RLE_MAX
    ensures ChunkMembers(RleChunk(start, cap, len)) == Range(start, start + len)
  {
    RleDescFields(cap, len);
  }

  lemma SparseMembers(c: Chunk)
    requires !IsRle(c.desc)
    ensures ChunkMembers(c) == WindowMembers(c.start, Expand(c))
  {
  }

  lemma NonzeroBit(w: Word)
    ensures w != ZERO <==> exists k :: 0 <= k < 64 && w[k]
  {
    if forall k :: 0 <= k < 64 ==> !w[k] {
      WordExt(w, ZERO);
    }
  }

  /** A window of zero words has no members; any other has one. */
  lemma WindowEmpty(start: nat, ws: Window)
    ensures (forall v :: 0 <= v < SLOTS ==> ws[v] == ZERO) <==> WindowMembers(start, ws) == iset{}
  {
    if v :| 0 <= v < SLOTS && ws[v] != ZERO {
      NonzeroBit(ws[v]);
      var k :| 0 <= k < 64 && ws[v][k];
      var x := start + 64 * v + k;
      assert (x - start) / 64 == v && (x - start) % 64 == k;
      assert x in WindowMembers(start, ws);
    }
  }

  lemma ExpandExt(c: Chunk, ws: Window, caps: seq<bool>)
    requires |caps| == SLOTS
    requires forall v :: 0 <= v < SLOTS ==> ws[v] == SlotWord(c, v)
    requires forall v :: 0 <= v < SLOTS ==> caps[v] == !FlagAt(c.desc, v).Unused?
    ensures ws == Expand(c) && caps == CapsOf(c)
  {
    assert ws == Expand(c);
    assert caps == CapsOf(c);
  }

  method ExpandChunk(c: Chunk) returns (ws: Window, caps: seq<bool>)
    requires !IsRle(c.desc) && Shaped(c)
    ensures ws == Expand(c)
    ensures caps == CapsOf(c)
  {
    var offsets := PayloadOffsets(c.desc);
    var words: seq<Word>, used: seq<bool> := [], [];
    for i := 0 to SLOTS
      invariant |words| == |used| == i
      invariant forall v :: 0 <= v < i ==> words[v] == SlotWord(c, v)
      invariant forall v :: 0 <= v < i ==> used[v] == !FlagAt(c.desc, v).Unused?
    {
      var f := FlagAt(c.desc, i);
      MixedPosition(c.desc, i);
      var w := if f.Mixed? then c.vecs[offsets[i]] else if f.Ones? then ONES else ZERO;
      words := words + [w];
      used := used + [!f.Unused?];
    }
    ExpandExt(c, words, used);
    ws, caps := words, used;
  }

  /** Where each slot's payload word lies, were the slot Mixed. */
  method PayloadOffsets(d: Word) returns (offsets: seq<nat>)
    ensures |offsets| == SLOTS
    ensures forall v :: 0 <= v < SLOTS ==> offsets[v] == MixedIn(d, 0, v)
  {
    hide FlagAt;
    offsets := [];
    var running := 0;
    for i := 0 to SLOTS
      invariant |offsets| == i
      invariant running == MixedIn(d, 0, i)
      invariant forall v :: 0 <= v < i ==> offsets[v] == MixedIn(d, 0, v)
    {
      offsets := offsets + [running];
      running := running + if FlagAt(d, i).Mixed? then 1 else 0;
    }
  }

  /** The slots an encoded window claims: the last one always, since leaving it unused would read as a run-length tag. */
  function Claimed(caps: seq<bool>): (r: seq<bool>)
    requires |caps| == 32
    ensures |r| == 32 && r[31]
  {
    caps[31 := true]
  }

  /** The words an encoded window keeps: a last slot that was not in use is claimed empty. */
  function Kept(ws: Window, caps: seq<bool>): (r: Window)
    requires |caps| == 32
    ensures forall v :: 0 <= v < SLOTS ==> r[v] == if v < 31 || caps[31] then ws[v] else ZERO
  {
    if caps[31] then ws else ws[31 := ZERO]
  }

  /** The flags of a window, and whether any of them carries data. */
  method FlagWindow(ws: Window, caps: seq<bool>) returns (some: bool, d: Word)
    requires |caps| == 32
    ensures d == DescOf(ws, caps)
    ensures some <==> exists v :: 0 <= v < SLOTS && caps[v] && ws[v] != ZERO
  {
    some := false;
    var bits: seq<bool> := [];
    for i := 0 to SLOTS
      invariant |bits| == 2 * i
      invariant bits == DescBits(ws, caps, i)
      invariant some <==> exists v :: 0 <= v < i && caps[v] && ws[v] != ZERO
    {
      var f := FlagOf(ws[i], caps[i]);
      some := some || f.Ones? || f.Mixed?;
      bits := bits + [f.Ones? || f.Unused?, f.Ones? || f.Mixed?];
      assert ZERO[0] != ONES[0];
    }
    d := bits;
  }

  /** The payload words of a window under its flags. */
  method PackWindow(d: Word, ws: Window) returns (vecs: seq<Word>)
    ensures vecs == VecsIn(d, ws, 0, SLOTS)
  {
    vecs := [];
    for i := 0 to SLOTS
      invariant vecs == VecsIn(d, ws, 0, i)
    {
      if FlagAt(d, i).Mixed? {
        vecs := vecs + [ws[i]];
      }
    }
  }

  /** Encodes a window. */
  method EncodeSparse(ws: Window, caps: seq<bool>) returns (some: bool, d: Word, vecs: seq<Word>)
    requires |caps| == 32
    ensures forall start: nat :: Chunk(start, d, vecs) == SparseChunk(start, Kept(ws, caps), Claimed(caps))
    ensures some <==> exists v :: 0 <= v < SLOTS && Claimed(caps)[v] && Kept(ws, caps)[v] != ZERO
  {
    hide DescOf, VecsIn;
    var words, used := ws, caps;
    if !used[31] {
      used := used[31 := true];
      words := words[31 := ZERO];
    }
    assert used == Claimed(caps) && words == Kept(ws, caps);
    hide Kept, Claimed;
    some, d := FlagWindow(words, used);
    vecs := PackWindow(d, words);
  }

  /** The members of a run-length chunk that fall in the window at target. */
  method ExpandRle(c: Chunk, target: nat, targetCaps: seq<bool>) returns (ws: Window, caps: seq<bool>)
    requires IsRle(c.desc) && |targetCaps| == 32
    ensures caps == targetCaps
    ensures forall v, k :: 0 <= v < SLOTS && 0 <= k < 64 ==> ws[v][k] == ChunkHas(c, target + 64 * v + k)
  {
    var setStart := c.start;
    var setEnd := setStart + RleLen(c.desc);
    var words: seq<Word> := [];
    for i := 0 to SLOTS
      invariant |words| == i
      invariant forall v, k :: 0 <= v < i && 0 <= k < 64 ==> words[v][k] == (setStart <= target + 64 * v + k < setEnd)
    {
      var slotStart := target + i * 64;
      var slotEnd := slotStart + 64;
      var w: Word;
      if slotEnd <= setStart || slotStart >= setEnd {
        w := ZERO;
      } else if slotStart >= setStart && slotEnd <= setEnd {
        w := ONES;
      } else {
        var lo := if setStart > slotStart then setStart - slotStart else 0;
        var hi := if setEnd < slotEnd then setEnd - slotStart else 64;
        if hi == 64 {
          w := HighMask(lo);
        } else if lo == 0 {
          w := LowMask(hi);
        } else {
          w := And(LowMask(hi), HighMask(lo));
        }
      }
      words := words + [w];
    }
    ws, caps := words, targetCaps;
  }

  method WordsOr(a: Window, b: Window) returns (r: Window)
    ensures forall v, k :: 0 <= v < SLOTS && 0 <= k < 64 ==> r[v][k] == (a[v][k] || b[v][k])
  {
    var words: seq<Word> := [];
    for i := 0 to SLOTS
      invariant |words| == i
      invariant forall v, k :: 0 <= v < i && 0 <= k < 64 ==> words[v][k] == (a[v][k] || b[v][k])
    {
      words := words + [Or(a[i], b[i])];
    }
    r := words;
  }

  method WordsAnd(a: Window, b: Window) returns (r: Window)
    ensures forall v, k :: 0 <= v < SLOTS && 0 <= k < 64 ==> r[v][k] == (a[v][k] && b[v][k])
  {
    var words: seq<Word> := [];
    for i := 0 to SLOTS
      invariant |words| == i
      invariant forall v, k :: 0 <= v < i && 0 <= k < 64 ==> words[v][k] == (a[v][k] && b[v][k])
    {
      words := words + [And(a[i], b[i])];
    }
    r := words;
  }

  method WordsAndNot(a: Window, b: Window) returns (r: Window)
    ensures forall v, k :: 0 <= v < SLOTS && 0 <= k < 64 ==> r[v][k] == (a[v][k] && !b[v][k])
  {
    var words: seq<Word> := [];
    for i := 0 to SLOTS
      invariant |words| == i
      invariant forall v, k :: 0 <= v < i && 0 <= k < 64 ==> words[v][k] == (a[v][k] && !b[v][k])
    {
      words := words + [AndNot(a[i], b[i])];
    }
    r := words;
  }
}
