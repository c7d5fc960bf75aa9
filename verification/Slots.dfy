// Setting and clearing one bit of a sparse chunk in place: a slot's payload word appears,
// changes or disappears as its flag moves between Zeros, Mixed and Ones.
module Slots {
  import opened Words
  import opened Chunks
  import opened Streams
  import opened Codec
  import opened Maps
  import opened RunLengths
  import opened Edits
  import opened Pivot
  import opened Sizes

  /** The number of payload words before slot v's. */
  method Position(d: Word, v: nat) returns (n: nat)
    requires v < SLOTS
    ensures n == MixedIn(d, 0, v)
  {
    n := 0;
    for i := 0 to v
      invariant n == MixedIn(d, 0, i)
    {
      if FlagAt(d, i).Mixed? {
        n := n + 1;
      }
    }
  }

  // ---- the chunk with one slot replaced ------------------------------------------

  /** The chunk whose slot v holds w. */
  function WithSlot(c: Chunk, v: nat, w: Word): Chunk
    requires v < SLOTS
  {
    FullChunk(c.start, Expand(c)[v := w])
  }

  lemma SlotDesc(ws: Window, v: nat, w: Word)
    requires v < SLOTS
    ensures DescOf(ws[v := w], AllSlots()) == SetFlag(DescOf(ws, AllSlots()), v, FlagOf(w, true))
  {
    hide FlagAt;
    SameFlags(DescOf(ws[v := w], AllSlots()), SetFlag(DescOf(ws, AllSlots()), v, FlagOf(w, true)));
  }

  /** The payload around slot v. */
  lemma VecsAround(d: Word, ws: Window, v: nat)
    requires v < SLOTS
    ensures VecsIn(d, ws, 0, SLOTS) == VecsIn(d, ws, 0, v) + (if FlagAt(d, v).Mixed? then [ws[v]] else []) + VecsIn(d, ws, v + 1, SLOTS)
  {
    VecsSplit(d, ws, 0, v + 1, SLOTS);
  }

  lemma PayloadAround(c: Chunk, v: nat)
    requires WfSparse(c) && Full(c) && v < SLOTS
    ensures c.desc == DescOf(Expand(c), AllSlots())
    ensures c.vecs == VecsIn(c.desc, Expand(c), 0, v) + (if FlagAt(c.desc, v).Mixed? then [SlotWord(c, v)] else []) + VecsIn(c.desc, Expand(c), v + 1, SLOTS)
  {
    hide FlagAt, WfSparse, Full, DescOf, SlotWord, VecsIn, MixedIn;
    SparseCanonical(c);
    VecsAround(c.desc, Expand(c), v);
  }

  /** The payload of the chunk with slot v replaced. */
  lemma NewPayload(c: Chunk, v: nat, w: Word)
    requires WfSparse(c) && Full(c) && v < SLOTS
    ensures WithSlot(c, v, w).desc == SetFlag(c.desc, v, FlagOf(w, true)) && WithSlot(c, v, w).start == c.start
    ensures WithSlot(c, v, w).vecs == VecsIn(c.desc, Expand(c), 0, v) + (if w != ZERO && w != ONES then [w] else []) + VecsIn(c.desc, Expand(c), v + 1, SLOTS)
    ensures MixedIn(WithSlot(c, v, w).desc, 0, v) == MixedIn(c.desc, 0, v)
  {
    hide FlagAt, SetFlag, WfSparse, Full, DescOf, SlotWord, VecsIn, MixedIn, Expand;
    var ws := Expand(c);
    var ws' := ws[v := w];
    PayloadAround(c, v);
    SlotDesc(ws, v, w);
    var d, d' := c.desc, DescOf(ws', AllSlots());
    VecsAround(d', ws', v);
    VecsSame(d, ws, d', ws', 0, v);
    VecsSame(d, ws, d', ws', v + 1, SLOTS);
    assert ZERO[0] != ONES[0];
  }

  /** Replacing one slot leaves the payload before and after it alone. */
  lemma SlotReplaced(c: Chunk, v: nat, w: Word)
    requires WfSparse(c) && Full(c) && v < SLOTS
    ensures var c', pos := WithSlot(c, v, w), MixedIn(c.desc, 0, v);
      var m := if FlagAt(c.desc, v).Mixed? then 1 else 0;
      && c'.start == c.start
      && c'.desc == SetFlag(c.desc, v, FlagOf(w, true))
      && pos + m <= |c.vecs| && (m == 1 ==> c.vecs[pos] == SlotWord(c, v))
      && c'.vecs == c.vecs[..pos] + (if w != ZERO && w != ONES then [w] else []) + c.vecs[pos + m..]
      && MixedIn(c'.desc, 0, v) == pos
  {
    hide FlagAt, SetFlag, WfSparse, Full, SlotWord, VecsIn, MixedIn, Expand, WithSlot, FlagOf;
    PayloadAround(c, v);
    NewPayload(c, v, w);
    var a, b := VecsIn(c.desc, Expand(c), 0, v), VecsIn(c.desc, Expand(c), v + 1, SLOTS);
    assert c.vecs[..|a|] == a;
    assert c.vecs[|c.vecs| - |b|..] == b;
  }

  lemma SlotWf(c: Chunk, v: nat, w: Word)
    requires WfChunk(c) && !IsRle(c.desc) && v < SLOTS
    requires w != ZERO || exists u :: 0 <= u < SLOTS && u != v && Expand(c)[u] != ZERO
    ensures var c' := WithSlot(c, v, w);
      WfChunk(c') && Full(c') && !IsRle(c'.desc) && Span(c') == WINDOW && ChunkMembers(c') == WindowMembers(c.start, Expand(c)[v := w])
  {
    hide WfSparse, Full, FullChunk, Expand;
    var ws' := Expand(c)[v := w];
    if w != ZERO {
      assert ws'[v] != ZERO;
    } else {
      var u :| 0 <= u < SLOTS && u != v && Expand(c)[u] != ZERO;
      assert ws'[u] != ZERO;
    }
    FullChunkWf(c.start, ws');
    FullChunkMembers(c.start, ws');
  }

  /** Writing one bit of one slot changes one member. */
  lemma BitMembers(start: nat, ws: Window, v: nat, b: nat, change: Change)
    requires v < SLOTS && b < 64 && change != Keep
    ensures var w := if change == Set then SetBit(ws[v], b) else ClearBit(ws[v], b);
      WindowMembers(start, ws[v := w]) == Changed(WindowMembers(start, ws), start + 64 * v + b, change)
  {
    var w := if change == Set then SetBit(ws[v], b) else ClearBit(ws[v], b);
    var idx := start + 64 * v + b;
    forall x: nat ensures x in WindowMembers(start, ws[v := w]) <==> x in Changed(WindowMembers(start, ws), idx, change) {
      if start <= x < start + WINDOW {
        SlotPlace(x - start, v, b);
      }
    }
    SlotPlace(idx - start, v, b);
  }

  lemma SlotPlace(y: nat, v: nat, b: nat)
    requires b < 64
    ensures y == 64 * v + b <==> y / 64 == v && y % 64 == b
  {
  }

  /** The chunk after its bit at idx changed, and the stream with it. */
  lemma BitChanged(cs: seq<Chunk>, k: nat, v: nat, b: nat, change: Change)
    requires WfStream(cs) && AllFull(cs) && k < |cs| && !IsRle(cs[k].desc) && v < SLOTS && b < 64 && change != Keep
    requires var w := SlotWord(cs[k], v);
      change == Clear && ClearBit(w, b) == ZERO ==> exists u :: 0 <= u < SLOTS && u != v && Expand(cs[k])[u] != ZERO
    ensures var w := if change == Set then SetBit(SlotWord(cs[k], v), b) else ClearBit(SlotWord(cs[k], v), b);
      var c' := WithSlot(cs[k], v, w);
      && WfStream(cs[k := c']) && AllFull(cs[k := c']) && !IsRle(c'.desc)
      && Members(cs[k := c']) == Changed(Members(cs), cs[k].start + 64 * v + b, change)
  {
    hide WfStream, AllFull, Members, WithSlot, Expand, SlotWord, SetBit, ClearBit;
    var c := cs[k];
    var w := if change == Set then SetBit(SlotWord(c, v), b) else ClearBit(SlotWord(c, v), b);
    OneOfThem(cs, k);
    ExpandAt(c, v);
    if change == Set {
      SetNotZero(SlotWord(c, v), b);
    }
    SlotWf(c, v, w);
    BitMembers(c.start, Expand(c), v, b, change);
    SparseMembers(c);
    WithSlotStart(c, v, w);
    ChunkUpdated(cs, k, WithSlot(c, v, w), c.start + 64 * v + b, change);
  }

  lemma WithSlotStart(c: Chunk, v: nat, w: Word)
    requires v < SLOTS
    ensures WithSlot(c, v, w).start == c.start
  {
  }

  lemma SetNotZero(w: Word, b: nat)
    requires b < 64
    ensures SetBit(w, b) != ZERO
  {
    assert SetBit(w, b)[b] && !ZERO[b];
  }

  lemma ExpandAt(c: Chunk, v: nat)
    requires v < SLOTS
    ensures Expand(c)[v] == SlotWord(c, v)
  {
  }

  lemma OneOfThem(cs: seq<Chunk>, k: nat)
    requires WfStream(cs) && k < |cs|
    ensures WfChunk(cs[k])
    ensures if IsRle(cs[k].desc) then WfRle(cs[k]) else WfSparse(cs[k]) && Span(cs[k]) == WINDOW
    ensures AllFull(cs) ==> Full(cs[k])
  {
  }

  // ---- words ------------------------------------------------------------------------

  /** The buffer after the chunk at p, of payload vs, got descriptor d' and payload vs'. */
  function Rewritten(w: seq<Word>, p: nat, n: nat, d': Word, vs': seq<Word>): seq<Word>
    requires p + 2 + n <= |w|
  {
    w[..p + 1] + [d'] + vs' + w[p + 2 + n..]
  }

  lemma GrowWords(w: seq<Word>, p: nat, vs: seq<Word>, pos: nat, x: Word, d': Word, y: Word)
    requires p + 2 + |vs| <= |w| && w[p + 2..p + 2 + |vs|] == vs && pos <= |vs|
    ensures var q := p + 2 + pos;
      (w[..q] + [x] + w[q..])[p + 1 := d'][q := y] == Rewritten(w, p, |vs|, d', vs[..pos] + [y] + vs[pos..])
  {
    var q := p + 2 + pos;
    assert w == w[..p + 1] + [w[p + 1]] + vs + w[p + 2 + |vs|..];
  }

  lemma PutWords(w: seq<Word>, p: nat, vs: seq<Word>, pos: nat, d': Word, y: Word)
    requires p + 2 + |vs| <= |w| && w[p + 2..p + 2 + |vs|] == vs && pos < |vs|
    ensures w[p + 1 := d'][p + 2 + pos := y] == Rewritten(w, p, |vs|, d', vs[..pos] + [y] + vs[pos + 1..])
  {
    assert w == w[..p + 1] + [w[p + 1]] + vs + w[p + 2 + |vs|..];
  }

  lemma ShrinkWords(w: seq<Word>, p: nat, vs: seq<Word>, pos: nat, d': Word)
    requires p + 2 + |vs| <= |w| && w[p + 2..p + 2 + |vs|] == vs && pos < |vs|
    ensures var q := p + 2 + pos;
      var w1 := w[p + 1 := d'];
      w1[..q] + w1[q + 1..] == Rewritten(w, p, |vs|, d', vs[..pos] + vs[pos + 1..])
  {
    assert w == w[..p + 1] + [w[p + 1]] + vs + w[p + 2 + |vs|..];
  }

  lemma SlotLayout(cs: seq<Chunk>, k: nat, v: nat, y: Word, p: nat)
    requires WfStream(cs) && AllFull(cs) && k < |cs| && !IsRle(cs[k].desc) && v < SLOTS && p == 1 + Off(cs, k)
    ensures var c, w, pos := cs[k], Layout(Chunked(cs)), MixedIn(cs[k].desc, 0, v);
      var m := if FlagAt(c.desc, v).Mixed? then 1 else 0;
      && p + 2 + |c.vecs| <= |w| && pos + m <= |c.vecs| && w[p + 2..p + 2 + |c.vecs|] == c.vecs && w[p + 1] == c.desc
      && (m == 1 ==> c.vecs[pos] == SlotWord(c, v))
      && Layout(Chunked(cs[k := WithSlot(c, v, y)])) ==
         Rewritten(w, p, |c.vecs|, SetFlag(c.desc, v, FlagOf(y, true)),
                   c.vecs[..pos] + (if y != ZERO && y != ONES then [y] else []) + c.vecs[pos + m..])
  {
    hide Layout, WfStream, AllFull, Off, WithSlot, FlagAt, SetFlag, FlagOf, Stream;
    OneOfThem(cs, k);
    SlotReplaced(cs[k], v, y);
    LayoutUpdated(cs, k, WithSlot(cs[k], v, y), p);
  }

  /** The edits that insert y as payload word pos of the chunk at p and rewrite its descriptor. */
  method OpenWord(m: Map, p: nat, ghost vs: seq<Word>, pos: nat, x: Word, d: Word, y: Word)
    requires p + 2 + |vs| <= m.used < m.data.Length && m.data[p + 2..p + 2 + |vs|] == vs && pos <= |vs|
    modifies m`used, m.data
    ensures m.used == old(m.used) + 1
    ensures m.data[..m.used] == Rewritten(old(m.data[..m.used]), p, |vs|, d, vs[..pos] + [y] + vs[pos..])
  {
    hide Rewritten;
    ghost var w := m.data[..m.used];
    GrowWords(w, p, vs, pos, x, d, y);
    m.Insert(p + 2 + pos, [x]);
    m.Put(p + 1, d);
    m.Put(p + 2 + pos, y);
  }

  /** Turns a payload-free slot into a Mixed one holding y, through a fresh payload word that first holds x. */
  method GrowSlot(m: Map, p: nat, c: Chunk, v: nat, x: Word, y: Word, ghost k: nat)
    requires m.Valid() && m.form.Chunked? && m.Strict() && k < |m.Chunks()| && p == 1 + Off(m.Chunks(), k) && c == m.Chunks()[k]
    requires !IsRle(c.desc) && v < SLOTS && !FlagAt(c.desc, v).Mixed? && y != ZERO && y != ONES
    requires m.EnoughSpace(1) && WfStream(m.Chunks()[k := WithSlot(c, v, y)])
    modifies m, m.data
    ensures m.Valid() && m.form == Chunked(old(m.Chunks())[k := WithSlot(c, v, y)]) && m.data == old(m.data)
    ensures m.used == old(m.used) + 1
  {
    hide WfForm, Layout, WfStream, AllFull, Off, WithSlot, FlagAt, SetFlag, Rewritten, MixedIn, Shaped, Size, SlotWord;
    ghost var cs, w := m.Chunks(), m.data[..m.used];
    ChunkedWf(cs);
    ChunkedWf(cs[k := WithSlot(c, v, y)]);
    assert m.form == Chunked(cs) && m.used == |Layout(Chunked(cs))|;
    SlotLayout(cs, k, v, y, p);
    var pos := Position(c.desc, v);
    OpenWord(m, p, c.vecs, pos, x, SetFlag(c.desc, v, Mixed), y);
    m.form := Chunked(cs[k := WithSlot(c, v, y)]);
  }

  /** Writes y over the payload word of a Mixed slot. */
  method PutSlot(m: Map, p: nat, c: Chunk, v: nat, y: Word, ghost k: nat)
    requires m.Valid() && m.form.Chunked? && m.Strict() && k < |m.Chunks()| && p == 1 + Off(m.Chunks(), k) && c == m.Chunks()[k]
    requires !IsRle(c.desc) && v < SLOTS && FlagAt(c.desc, v).Mixed? && y != ZERO && y != ONES
    requires WfStream(m.Chunks()[k := WithSlot(c, v, y)])
    modifies m, m.data
    ensures m.Valid() && m.form == Chunked(old(m.Chunks())[k := WithSlot(c, v, y)]) && m.data == old(m.data)
    ensures m.used == old(m.used)
  {
    hide Layout, WfStream, AllFull, Off, WithSlot, FlagAt, SetFlag, Rewritten, MixedIn;
    ghost var cs, w := m.Chunks(), m.data[..m.used];
    assert m.form == Chunked(cs) && m.used == |Layout(Chunked(cs))|;
    SlotLayout(cs, k, v, y, p);
    var pos := Position(c.desc, v);
    PutWords(w, p, c.vecs, pos, c.desc, y);
    SameFlag(c.desc, v, Mixed);
    assert w[p + 1 := c.desc] == w;
    m.Put(p + 2 + pos, y);
    m.form := Chunked(cs[k := WithSlot(c, v, y)]);
  }

  lemma SameFlag(d: Word, v: nat, f: Flag)
    requires v < SLOTS && FlagAt(d, v) == f
    ensures SetFlag(d, v, f) == d
  {
    SameFlags(SetFlag(d, v, f), d);
  }

  /** The edits that drop payload word pos of the chunk at p and rewrite its descriptor. */
  method DropWord(m: Map, p: nat, ghost vs: seq<Word>, pos: nat, d: Word)
    requires p + 2 + |vs| <= m.used <= m.data.Length && m.data[p + 2..p + 2 + |vs|] == vs && pos < |vs|
    modifies m`used, m.data
    ensures m.used == old(m.used) - 1
    ensures m.data[..m.used] == Rewritten(old(m.data[..m.used]), p, |vs|, d, vs[..pos] + [] + vs[pos + 1..])
  {
    hide Rewritten;
    ghost var w := m.data[..m.used];
    ShrinkWords(w, p, vs, pos, d);
    assert vs[..pos] + [] + vs[pos + 1..] == vs[..pos] + vs[pos + 1..];
    m.Put(p + 1, d);
    m.Remove(p + 2 + pos, 1);
  }

  /** Drops the payload word of a Mixed slot whose word became y, all zeros or all ones. */
  method ShrinkSlot(m: Map, p: nat, c: Chunk, v: nat, ghost y: Word, f: Flag, ghost k: nat)
    requires m.Valid() && m.form.Chunked? && m.Strict() && k < |m.Chunks()| && p == 1 + Off(m.Chunks(), k) && c == m.Chunks()[k]
    requires !IsRle(c.desc) && v < SLOTS && FlagAt(c.desc, v).Mixed? && (y == ZERO || y == ONES) && f == FlagOf(y, true)
    requires WfStream(m.Chunks()[k := WithSlot(c, v, y)])
    modifies m, m.data
    ensures m.Valid() && m.form == Chunked(old(m.Chunks())[k := WithSlot(c, v, y)]) && m.data == old(m.data)
    ensures m.used == old(m.used) - 1
  {
    hide WfForm, Layout, WfStream, AllFull, Off, WithSlot, FlagAt, SetFlag, Rewritten, MixedIn, FlagOf, Shaped, Size, SlotWord;
    ghost var cs, w := m.Chunks(), m.data[..m.used];
    ChunkedWf(cs);
    ChunkedWf(cs[k := WithSlot(c, v, y)]);
    assert m.form == Chunked(cs) && m.used == |Layout(Chunked(cs))|;
    SlotLayout(cs, k, v, y, p);
    var pos := Position(c.desc, v);
    DropWord(m, p, c.vecs, pos, SetFlag(c.desc, v, f));
    m.form := Chunked(cs[k := WithSlot(c, v, y)]);
  }

  // ---- setting and clearing -----------------------------------------------------------

  /** The flag of the slot of idx tells whether all or none of its indices are members. */
  lemma SlotKind(cs: seq<Chunk>, k: nat, v: nat, idx: nat)
    requires WfStream(cs) && AllFull(cs) && k < |cs| && !IsRle(cs[k].desc) && cs[k].start <= idx < cs[k].start + WINDOW
    requires v == (idx - cs[k].start) / 64
    ensures FlagAt(cs[k].desc, v) == Zeros <==> NoneOf(ChunkMembers(cs[k]), SlotBase(idx))
    ensures FlagAt(cs[k].desc, v) == Ones <==> AllOf(ChunkMembers(cs[k]), SlotBase(idx))
    ensures FlagAt(cs[k].desc, v) == Zeros || FlagAt(cs[k].desc, v) == Ones || FlagAt(cs[k].desc, v) == Mixed
  {
    hide FlagAt, WfSparse, AllOf, NoneOf, ChunkMembers, SlotBase;
    OneOfThem(cs, k);
    AlignedStart(cs[k]);
    SlotBaseIn(cs[k].start, idx);
    SlotFlag(cs[k], v);
    NotUnused(cs[k], v);
  }

  lemma AlignedStart(c: Chunk)
    requires WfChunk(c)
    ensures Aligned(c.start)
  {
  }

  lemma NotUnused(c: Chunk, v: nat)
    requires Full(c) && !IsRle(c.desc) && v < SLOTS
    ensures FlagAt(c.desc, v) != Unused
    ensures Carries(FlagAt(c.desc, v)) <==> FlagAt(c.desc, v) != Zeros
  {
  }

  /** Sets the bit at idx in the sparse chunk at p; refuses when a payload word is needed and does not fit. */
  method SetSparseBit(m: Map, p: nat, c: Chunk, idx: nat, ghost k: nat) returns (ok: bool)
    requires m.Valid() && m.form.Chunked? && m.Strict() && k < |m.Chunks()| && p == 1 + Off(m.Chunks(), k) && c == m.Chunks()[k]
    requires !IsRle(c.desc) && c.start <= idx < c.start + WINDOW
    modifies m, m.data
    ensures m.Valid() && m.form.Chunked? && m.Strict() && m.data == old(m.data)
    ensures !ok ==> m.form == old(m.form) && m.used == old(m.used)
    ensures ok <==> !NoneOf(ChunkMembers(c), SlotBase(idx)) || old(m.EnoughSpace(1))
    ensures ok ==> Members(m.Chunks()) == Members(old(m.Chunks())) + iset{idx}
    ensures |m.Chunks()| == |old(m.Chunks())| && m.Chunks()[k].start == c.start && !IsRle(m.Chunks()[k].desc)
    ensures m.Chunks() == old(m.Chunks())[k := m.Chunks()[k]]
    ensures p == 1 + Off(m.Chunks(), k) && m.used <= old(m.used) + 1
  {
    hide Layout, WfStream, AllFull, Off, WithSlot, FlagAt, Members, SlotWord, Expand, SetBit, NoneOf, ChunkMembers;
    ghost var cs := m.Chunks();
    var v, b := (idx - c.start) / 64, (idx - c.start) % 64;
    ghost var y0 := SetBit(SlotWord(c, v), b);
    SetSlotFacts(cs, k, v, b);
    OffKept(cs, k, WithSlot(c, v, y0));
    SlotKind(cs, k, v, idx);
    var f := FlagAt(c.desc, v);
    if f == Ones {
      return true;
    }
    if f == Zeros {
      if !m.EnoughSpace(1) {
        return false;
      }
      GrowSlot(m, p, c, v, ZERO, SetBit(ZERO, b), k);
    } else {
      var w := SetBit(c.vecs[MixedIn(c.desc, 0, v)], b);
      if w == ONES {
        ShrinkSlot(m, p, c, v, w, Ones, k);
      } else {
        PutSlot(m, p, c, v, w, k);
      }
    }
    return true;
  }

  lemma OffKept(cs: seq<Chunk>, k: nat, c: Chunk)
    requires k < |cs|
    ensures Off(cs[k := c], k) == Off(cs, k)
  {
    assert cs[k := c][..k] == cs[..k];
  }

  /** What the flag of a slot says about its word. */
  lemma SlotKinds(cs: seq<Chunk>, k: nat, v: nat)
    requires WfStream(cs) && AllFull(cs) && k < |cs| && !IsRle(cs[k].desc) && v < SLOTS
    ensures var f, pos, w := FlagAt(cs[k].desc, v), MixedIn(cs[k].desc, 0, v), SlotWord(cs[k], v);
      && f != Unused
      && (f == Zeros ==> w == ZERO)
      && (f == Ones ==> w == ONES)
      && (f == Mixed ==> pos < |cs[k].vecs| && cs[k].vecs[pos] == w && w != ZERO && w != ONES)
  {
    OneOfThem(cs, k);
    MixedPosition(cs[k].desc, v);
  }

  lemma WithSlotKind(cs: seq<Chunk>, k: nat, v: nat, w: Word)
    requires WfStream(cs) && k < |cs| && !IsRle(cs[k].desc) && v < SLOTS && w != ZERO
    ensures WithSlot(cs[k], v, w).start == cs[k].start && !IsRle(WithSlot(cs[k], v, w).desc)
  {
    hide WfStream, WithSlot, Expand;
    OneOfThem(cs, k);
    SlotWf(cs[k], v, w);
    WithSlotStart(cs[k], v, w);
  }

  /** Everything the setter relies on, by the flag of the slot. */
  lemma SetSlotFacts(cs: seq<Chunk>, k: nat, v: nat, b: nat)
    requires WfStream(cs) && AllFull(cs) && k < |cs| && !IsRle(cs[k].desc) && v < SLOTS && b < 64
    ensures var c := cs[k];
      var f, pos, y := FlagAt(c.desc, v), MixedIn(c.desc, 0, v), SetBit(SlotWord(c, v), b);
      && f != Unused && y != ZERO
      && (f == Zeros ==> SlotWord(c, v) == ZERO && y != ONES)
      && (f == Mixed ==> pos < |c.vecs| && c.vecs[pos] == SlotWord(c, v))
      && WfStream(cs[k := WithSlot(c, v, y)]) && AllFull(cs[k := WithSlot(c, v, y)])
      && WithSlot(c, v, y).start == c.start && !IsRle(WithSlot(c, v, y).desc)
      && Members(cs[k := WithSlot(c, v, y)]) == Members(cs) + iset{c.start + 64 * v + b}
      && (f == Ones ==> Members(cs) + iset{c.start + 64 * v + b} == Members(cs))
  {
    hide WfStream, AllFull, Members, WithSlot, SlotWord, Expand, FlagAt, MixedIn, IsRle, ChunkHas;
    var c := cs[k];
    SlotKinds(cs, k, v);
    BitChanged(cs, k, v, b, Set);
    SetNotZero(SlotWord(c, v), b);
    WithSlotKind(cs, k, v, SetBit(SlotWord(c, v), b));
    if FlagAt(c.desc, v) == Zeros {
      assert !SetBit(ZERO, b)[(b + 1) % 64] && ONES[(b + 1) % 64];
    }
    if FlagAt(c.desc, v) == Ones {
      SlotBit(c, v, b);
      MemberOf(cs, k, c.start + 64 * v + b);
    }
  }

  lemma MemberOf(cs: seq<Chunk>, k: nat, x: nat)
    requires k < |cs| && ChunkHas(cs[k], x)
    ensures x in Members(cs) && Members(cs) + iset{x} == Members(cs)
  {
  }

  /** Cuts chunk k, of `width` words, out of the buffer. */
  method CutChunk(m: Map, p: nat, width: nat, ghost k: nat)
    requires m.Valid() && m.form.Chunked? && k < |m.Chunks()| && p == 1 + Off(m.Chunks(), k) && width == |Enc(m.Chunks()[k])|
    requires WfStream(m.Chunks()[..k] + m.Chunks()[k + 1..])
    modifies m, m.data
    ensures m.Valid() && m.form == Chunked(old(m.Chunks())[..k] + old(m.Chunks())[k + 1..]) && m.data == old(m.data)
    ensures m.used == old(m.used) - width
  {
    hide Layout, WfStream, Off, Stream, Enc, CountHeader;
    ghost var cs := m.Chunks();
    assert m.form == Chunked(cs) && m.used == |Layout(Chunked(cs))|;
    LayoutCut(cs, k, p);
    var n := m.Count();
    m.Remove(p, width);
    m.Put(0, CountHeader(n - 1));
    m.form := Chunked(cs[..k] + cs[k + 1..]);
  }

  /** Removing the only member of chunk k together with the chunk. */
  lemma SoleMember(cs: seq<Chunk>, k: nat, idx: nat)
    requires WfStream(cs) && k < |cs| && ChunkMembers(cs[k]) == iset{idx}
    ensures WfStream(cs[..k] + cs[k + 1..])
    ensures Members(cs[..k] + cs[k + 1..]) == Members(cs) - iset{idx}
    ensures AllFull(cs) ==> AllFull(cs[..k] + cs[k + 1..])
  {
    hide WfStream, AllFull, Members, WfChunk;
    assert cs[..k] + [] + cs[k + 1..] == cs[..k] + cs[k + 1..];
    HasOne(cs[k]);
    assert idx in ChunkMembers(cs[k]);
    OneOfThem(cs, k);
    ChunkHasBound(cs[k], idx);
    NoChunks();
    ChunkReplaced(cs, k, [], idx, Clear);
  }

  lemma NoChunks()
    ensures WfStream([]) && AllFull([])
  {
  }

  /** Clears the bit at idx in the sparse chunk at p, removing the chunk when nothing is left. */
  method ClearSparseBit(m: Map, p: nat, c: Chunk, idx: nat, ghost k: nat) returns (ok: bool, gone: bool)
    requires m.Valid() && m.form.Chunked? && m.Strict() && k < |m.Chunks()| && p == 1 + Off(m.Chunks(), k) && c == m.Chunks()[k]
    requires !IsRle(c.desc) && c.start <= idx < c.start + WINDOW
    modifies m, m.data
    ensures m.Valid() && m.form.Chunked? && m.Strict() && m.data == old(m.data)
    ensures !ok ==> m.form == old(m.form) && m.used == old(m.used)
    ensures ok <==> !AllOf(ChunkMembers(c), SlotBase(idx)) || old(m.EnoughSpace(1))
    ensures ok ==> Members(m.Chunks()) == Members(old(m.Chunks())) - iset{idx}
    ensures gone ==> ok && ChunkMembers(c) == iset{idx} && m.form == Chunked(old(m.Chunks())[..k] + old(m.Chunks())[k + 1..])
    ensures !gone ==> |m.Chunks()| == |old(m.Chunks())| && m.Chunks()[k].start == c.start && p == 1 + Off(m.Chunks(), k)
    ensures !gone ==> !IsRle(m.Chunks()[k].desc)
    ensures !gone ==> m.Chunks() == old(m.Chunks())[k := m.Chunks()[k]]
    ensures m.used <= old(m.used) + 1
  {
    hide Layout, WfStream, AllFull, Off, WithSlot, FlagAt, Members, SlotWord, Expand, ClearBit, ChunkMembers, AllOf;
    ghost var cs := m.Chunks();
    var v, b := (idx - c.start) / 64, (idx - c.start) % 64;
    gone := false;
    SlotKinds(cs, k, v);
    SlotKind(cs, k, v, idx);
    var f := FlagAt(c.desc, v);
    if f == Zeros {
      ClearedAlready(cs, k, v, b);
      return true, false;
    }
    if f == Ones {
      if !m.EnoughSpace(1) {
        return false, false;
      }
      ClearOnes(cs, k, v, b);
      GrowSlot(m, p, c, v, ONES, ClearBit(ONES, b), k);
      OffKept(cs, k, WithSlot(c, v, ClearBit(ONES, b)));
    } else {
      var w := ClearBit(c.vecs[MixedIn(c.desc, 0, v)], b);
      if w == ZERO {
        var empty := RestEmpty(SetFlag(c.desc, v, Zeros), 0);
        if empty {
          LastBitGone(cs, k, v, b);
          SoleMember(cs, k, idx);
          CutChunk(m, p, 3, k);
          return true, true;
        }
        ClearMixed(cs, k, v, b, SetFlag(c.desc, v, Zeros));
        ShrinkSlot(m, p, c, v, w, Zeros, k);
      } else {
        ClearMixed(cs, k, v, b, c.desc);
        PutSlot(m, p, c, v, w, k);
      }
      OffKept(cs, k, WithSlot(c, v, w));
    }
    return true, false;
  }

  lemma ClearedAlready(cs: seq<Chunk>, k: nat, v: nat, b: nat)
    requires WfStream(cs) && k < |cs| && !IsRle(cs[k].desc) && v < SLOTS && b < 64 && SlotWord(cs[k], v) == ZERO
    ensures Members(cs) == Members(cs) - iset{cs[k].start + 64 * v + b}
  {
    hide WfChunk, SlotWord, Expand;
    OneOfThem(cs, k);
    SlotBit(cs[k], v, b);
    HasInSpan(cs, k, cs[k].start + 64 * v + b);
  }

  lemma ClearOnes(cs: seq<Chunk>, k: nat, v: nat, b: nat)
    requires WfStream(cs) && AllFull(cs) && k < |cs| && !IsRle(cs[k].desc) && v < SLOTS && b < 64 && SlotWord(cs[k], v) == ONES
    ensures var y, c' := ClearBit(ONES, b), WithSlot(cs[k], v, ClearBit(ONES, b));
      && y != ZERO && y != ONES
      && WfStream(cs[k := c']) && AllFull(cs[k := c']) && c'.start == cs[k].start && !IsRle(c'.desc)
      && Members(cs[k := c']) == Members(cs) - iset{cs[k].start + 64 * v + b}
  {
    hide WfStream, AllFull, Members, WithSlot, SlotWord, Expand;
    var y := ClearBit(ONES, b);
    assert y[(b + 1) % 64] && !ZERO[(b + 1) % 64];
    assert !y[b] && ONES[b];
    BitChanged(cs, k, v, b, Clear);
    WithSlotKind(cs, k, v, y);
  }

  /** After clearing, something is left: in the same word, or in another slot by the flags in d. */
  lemma ClearMixed(cs: seq<Chunk>, k: nat, v: nat, b: nat, d: Word)
    requires WfStream(cs) && AllFull(cs) && k < |cs| && !IsRle(cs[k].desc) && v < SLOTS && b < 64
    requires FlagAt(cs[k].desc, v).Mixed?
    requires ClearBit(SlotWord(cs[k], v), b) == ZERO ==>
      d == SetFlag(cs[k].desc, v, Zeros) && exists u :: 0 <= u < SLOTS && Carries(FlagAt(d, u))
    ensures var y, c' := ClearBit(SlotWord(cs[k], v), b), WithSlot(cs[k], v, ClearBit(SlotWord(cs[k], v), b));
      && y != ONES
      && WfStream(cs[k := c']) && AllFull(cs[k := c']) && c'.start == cs[k].start && !IsRle(c'.desc)
      && Members(cs[k := c']) == Members(cs) - iset{cs[k].start + 64 * v + b}
  {
    hide WfStream, AllFull, Members, WithSlot, SlotWord, Expand, FlagAt;
    var y := ClearBit(SlotWord(cs[k], v), b);
    assert !y[b] && ONES[b];
    if y == ZERO {
      var u :| 0 <= u < SLOTS && Carries(FlagAt(d, u));
      SlotKinds(cs, k, u);
      ExpandAt(cs[k], u);
    }
    BitChanged(cs, k, v, b, Clear);
    WithSlotStart(cs[k], v, y);
  }

  /** When the cleared word was the chunk's only content, the chunk held only that bit. */
  lemma LastBitGone(cs: seq<Chunk>, k: nat, v: nat, b: nat)
    requires WfStream(cs) && AllFull(cs) && k < |cs| && !IsRle(cs[k].desc) && v < SLOTS && b < 64
    requires FlagAt(cs[k].desc, v).Mixed? && ClearBit(SlotWord(cs[k], v), b) == ZERO
    requires forall u :: 0 <= u < SLOTS ==> !Carries(FlagAt(SetFlag(cs[k].desc, v, Zeros), u))
    ensures |Enc(cs[k])| == 3
    ensures ChunkMembers(cs[k]) == iset{cs[k].start + 64 * v + b}
  {
    hide WfStream, AllFull, Members, SlotWord, Expand, FlagAt, SetFlag, WfSparse;
    var c := cs[k];
    OneOfThem(cs, k);
    forall u | 0 <= u < SLOTS ensures u != v ==> !Carries(FlagAt(c.desc, u)) && SlotWord(c, u) == ZERO {
      SlotKinds(cs, k, u);
      assert FlagAt(SetFlag(c.desc, v, Zeros), u) == if u == v then Zeros else FlagAt(c.desc, u);
    }
    OneMixed(c, v);
    forall x: nat ensures ChunkHas(c, x) <==> x == c.start + 64 * v + b {
      if c.start <= x < c.start + WINDOW {
        var u, a := (x - c.start) / 64, (x - c.start) % 64;
        SlotBit(c, u, a);
        assert u == v ==> ClearBit(SlotWord(c, v), b)[a] == ZERO[a];
      }
    }
    SlotKinds(cs, k, v);
    BitLeft(SlotWord(c, v), b);
    SlotBit(c, v, b);
  }

  lemma BitLeft(w: Word, b: nat)
    requires b < 64 && ClearBit(w, b) == ZERO && w != ZERO
    ensures w[b]
  {
    NonzeroBit(w);
    var k :| 0 <= k < 64 && w[k];
    assert ClearBit(w, b)[k] == (k != b);
    assert !ZERO[k];
  }

  lemma OneMixed(c: Chunk, v: nat)
    requires WfSparse(c) && v < SLOTS && FlagAt(c.desc, v).Mixed?
    requires forall u :: 0 <= u < SLOTS && u != v ==> !Carries(FlagAt(c.desc, u))
    ensures |c.vecs| == 1
  {
    MixedTwo(c.desc, v, v, SLOTS);
  }
}
