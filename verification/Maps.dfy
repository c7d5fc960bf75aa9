// The map: a word buffer edited in place, holding either a bare bitmap of at
// most sixteen words or a counted stream of chunks.
module Maps {
  import opened Words
  import opened Chunks
  import opened Streams

  const SMALL_MAX_WORDS: nat := 16
  const SMALL_MAX_BITS: nat := 1024

  /** What a buffer holds. */
  datatype Form = Small(words: seq<Word>) | Chunked(chunks: seq<Chunk>)

  function CountHeader(n: nat): Word {
    U64(n)
  }

  /** The header of a bare bitmap: bit 63, and the word count in the low half. */
  function SmallHeader(n: nat): Word {
    FromNat(n, 32) + FromNat(0, 31) + [true]
  }

  function SmallCount(header: Word): nat {
    ToNat(header[..32])
  }

  predicate SmallHas(ws: seq<Word>, x: nat) {
    x / 64 < |ws| && ws[x / 64][x % 64]
  }

  ghost predicate FormHas(f: Form, x: nat) {
    match f
    case Small(ws) => SmallHas(ws, x)
    case Chunked(cs) => Has(cs, x)
  }

  ghost function FormMembers(f: Form): iset<nat> {
    iset x: nat | FormHas(f, x)
  }

  /** A bare bitmap keeps no trailing zero word, so equal sets have one form. */
  ghost predicate WfForm(f: Form) {
    match f
    case Small(ws) => |ws| <= SMALL_MAX_WORDS && (ws != [] ==> ws[|ws| - 1] != ZERO)
    case Chunked(cs) => WfStream(cs)
  }

  lemma ChunkedWf(cs: seq<Chunk>)
    ensures WfForm(Chunked(cs)) <==> WfStream(cs)
  {
  }

  /** The words of the buffer. */
  function Layout(f: Form): (r: seq<Word>)
    ensures |r| >= 1
  {
    match f
    case Small(ws) => [SmallHeader(|ws|)] + ws
    case Chunked(cs) => [CountHeader(|cs|)] + Stream(cs)
  }

  lemma {:induction false} StartsAscend(cs: seq<Chunk>, n: nat)
    requires WfStream(cs) && n < |cs|
    ensures cs[n].start >= WINDOW * n
  {
    if n > 0 {
      StartsAscend(cs, n - 1);
      SpanPositive(cs[n - 1]);
    }
  }

  /** A stream never holds enough chunks to reach the mode bit of its header. */
  lemma CountBound(cs: seq<Chunk>)
    requires WfStream(cs)
    ensures |cs| < TWO63
  {
    if |cs| > 0 {
      StartsAscend(cs, |cs| - 1);
      SpanPositive(cs[|cs| - 1]);
    }
  }

  /** The top bit of the header tells the two forms apart, and the header gives the count back. */
  lemma HeaderRoundTrip(f: Form)
    requires WfForm(f)
    ensures Layout(f)[0][63] <==> f.Small?
    ensures f.Small? ==> SmallCount(Layout(f)[0]) == |f.words|
    ensures f.Chunked? ==> ToNat(Layout(f)[0]) == |f.chunks|
  {
    match f
    case Small(ws) =>
      SmallHeaderRoundTrip(|ws|);
    case Chunked(cs) =>
      CountBound(cs);
      CountHeaderRoundTrip(|cs|);
  }

  lemma SmallHeaderRoundTrip(n: nat)
    requires n < TWO32
    ensures SmallHeader(n)[63] && SmallCount(SmallHeader(n)) == n
  {
    FieldValues();
    ToNatFromNat(n, 32);
    assert SmallHeader(n)[..32] == FromNat(n, 32);
  }

  lemma CountHeaderRoundTrip(n: nat)
    requires n < TWO63
    ensures !CountHeader(n)[63] && ToNat(CountHeader(n)) == n
  {
    U64RoundTrip(n);
    TopBit(CountHeader(n));
  }

  lemma TopBit(w: Word)
    requires ToNat(w) < TWO63
    ensures !w[63]
  {
    FieldValues();
    if w[63] {
      LastBit(w);
    }
  }

  lemma {:induction false} LastBit(bits: seq<bool>)
    requires bits != [] && bits[|bits| - 1]
    ensures ToNat(bits) >= Pow2(|bits| - 1)
  {
    if |bits| > 1 {
      LastBit(bits[1..]);
    }
  }

  lemma LayoutLength(cs: seq<Chunk>)
    ensures |Layout(Chunked(cs))| == 1 + |Stream(cs)|
  {
  }

  lemma Reassociate(h: seq<Word>, a: seq<Word>, b: seq<Word>, c: seq<Word>)
    ensures h + (a + b + c) == h + a + b + c
  {
  }

  lemma LayoutParts(pre: seq<Chunk>, mid: seq<Chunk>, post: seq<Chunk>)
    ensures Layout(Chunked(pre + mid + post)) ==
      [CountHeader(|pre| + |mid| + |post|)] + Stream(pre) + Stream(mid) + Stream(post)
  {
    hide Stream, CountHeader, Layout;
    var all := pre + mid + post;
    StreamConcat(pre, mid);
    StreamConcat(pre + mid, post);
    LayoutIs(all);
    Reassociate([CountHeader(|all|)], Stream(pre), Stream(mid), Stream(post));
  }

  lemma LayoutIs(cs: seq<Chunk>)
    ensures Layout(Chunked(cs)) == [CountHeader(|cs|)] + Stream(cs)
  {
  }

  lemma WfShape(c: Chunk)
    requires WfChunk(c)
    ensures Shaped(c) && c.start < TWO64
  {
  }

  /** The words of a chunk show its start, its descriptor and its payload. */
  lemma EncParts(c: Chunk, e: seq<Word>)
    requires Shaped(c) && c.start < TWO64 && e == Enc(c)
    ensures |e| == 1 + Size(c.desc) >= 2 && e[0] == U64(c.start) && e[1] == c.desc && e[2..] == c.vecs && ToNat(e[0]) == c.start
  {
    hide ToNat, U64;
    U64RoundTrip(c.start);
  }

  class Map {
    var data: array<Word>  // the buffer; its length is the capacity
    var used: nat          // words in use, the header included
    ghost var form: Form

    /** The buffer holds exactly the words of a well-formed form. */
    ghost predicate Valid()
      reads this, data
    {
      && WfForm(form)
      && used <= data.Length
      && data[..used] == Layout(form)
    }

    /** No chunk has unused slots: what every writer but the shift produces. */
    ghost predicate Strict()
      reads this
    {
      form.Chunked? ==> AllFull(form.chunks)
    }

    /** The set of indices the map stands for. */
    ghost function Set(): iset<nat>
      reads this
    {
      FormMembers(form)
    }

    /** The chunks of a chunk-mode map. */
    ghost function Chunks(): seq<Chunk>
      reads this
    {
      if form.Chunked? then form.chunks else []
    }

    function Contents(): seq<Word>
      reads this, data
      requires used <= data.Length
    {
      data[..used]
    }

    /** An empty chunk-mode map over a fresh zeroed buffer. */
    constructor (capacity: nat)
      requires capacity >= 1
      ensures Valid() && form == Chunked([]) && Set() == iset{}
      ensures data.Length == capacity && fresh(data)
    {
      data := new Word[capacity](i => ZERO);
      used := 1;
      form := Chunked([]);
      new;
      data[0] := CountHeader(0);
    }

    /** A map over a buffer already filled. */
    constructor Adopt(buffer: array<Word>, n: nat, ghost f: Form)
      ensures data == buffer && used == n && form == f
    {
      data, used, form := buffer, n, f;
    }

    function IsSmall(): (b: bool)
      reads this, data
      requires Valid()
      ensures b == form.Small?
    {
      HeaderRoundTrip(form);
      assert data[0] == data[..used][0];
      data[0][63]
    }

    function Count(): (n: nat)
      reads this, data
      requires Valid() && form.Chunked?
      ensures n == |Chunks()|
    {
      HeaderRoundTrip(form);
      assert data[0] == data[..used][0];
      ToNat(data[0])
    }

    /** True when `need` more words leave a spare word. */
    predicate EnoughSpace(need: nat)
      reads this
    {
      used + need + 1 <= data.Length
    }

    method Put(at: nat, w: Word)
      requires at < used <= data.Length
      modifies data
      ensures data[..used] == old(data[..used])[at := w]
    {
      data[at] := w;
    }

    /** Opens a gap at `at` and fills it. */
    method Insert(at: nat, ws: seq<Word>)
      requires at <= used && used + |ws| <= data.Length
      modifies this`used, data
      ensures used == old(used) + |ws|
      ensures data[..used] == old(data[..used])[..at] + ws + old(data[..used])[at..]
    {
      var n := |ws|;
      ghost var was := data[..used];
      forall k | at <= k < used {
        data[k + n] := data[k];
      }
      forall k | 0 <= k < n {
        data[at + k] := ws[k];
      }
      used := used + n;
      assert data[..used] == was[..at] + ws + was[at..];
    }

    /** Closes the gap [at, at + n). */
    method Remove(at: nat, n: nat)
      requires at + n <= used <= data.Length
      modifies this`used, data
      ensures used == old(used) - n
      ensures data[..used] == old(data[..used])[..at] + old(data[..used])[at + n..]
    {
      ghost var was := data[..used];
      forall k | at <= k < used - n {
        data[k] := data[k + n];
      }
      used := used - n;
      assert data[..used] == was[..at] + was[at + n..];
    }

    /** Overwrites the words at `at`. */
    method Write(at: nat, ws: seq<Word>)
      requires at + |ws| <= used <= data.Length
      modifies data
      ensures data[..used] == old(data[..used])[..at] + ws + old(data[..used])[at + |ws|..]
    {
      ghost var was := data[..used];
      forall k | 0 <= k < |ws| {
        data[at + k] := ws[k];
      }
      assert data[..used] == was[..at] + ws + was[at + |ws|..];
    }

    /** Rewrites the buffer from its front. */
    method Store(ws: seq<Word>)
      requires |ws| <= data.Length
      modifies this`used, data
      ensures used == |ws| && data[..used] == ws
    {
      forall k | 0 <= k < |ws| {
        data[k] := ws[k];
      }
      used := |ws|;
    }

    /** Copies words to the end of the used region; refuses when they do not fit. */
    method Append(ws: seq<Word>) returns (ok: bool)
      requires used <= data.Length
      modifies this`used, data
      ensures ok == (old(used) + |ws| <= data.Length)
      ensures used == old(used) + (if ok then |ws| else 0)
      ensures data[..used] == old(data[..used]) + (if ok then ws else [])
    {
      ok := used + |ws| <= data.Length;
      if ok {
        ghost var was := data[..used];
        forall k | 0 <= k < |ws| {
          data[used + k] := ws[k];
        }
        used := used + |ws|;
        assert data[..used] == was + ws;
      } else {
        assert data[..used] + [] == data[..used];
      }
    }

    /** Moves the contents to a larger buffer. */
    method Grow(capacity: nat)
      requires used <= data.Length <= capacity
      modifies this`data
      ensures fresh(data) && data.Length == capacity
      ensures data[..used] == old(data[..used])
    {
      var bigger := new Word[capacity](i => ZERO);
      forall k | 0 <= k < used {
        bigger[k] := data[k];
      }
      data := bigger;
    }

    /** Makes room for `needed` more words, by half the capacity or the need plus 32. */
    method EnsureCapacity(needed: nat)
      requires used <= data.Length
      modifies this`data
      ensures used + needed <= data.Length
      ensures data == old(data) || fresh(data)
      ensures data[..used] == old(data[..used])
    {
      if used + needed > data.Length {
        var cap := data.Length;
        Grow(cap + if cap / 2 > needed then cap / 2 else needed + 32);
      }
    }

    /** The words of chunk i. */
    lemma WordsAt(p: nat, i: nat)
      requires Valid() && i < |Chunks()| && p == 1 + Off(Chunks(), i)
      ensures p + |Enc(Chunks()[i])| == 1 + Off(Chunks(), i + 1) <= used
      ensures data[p..p + |Enc(Chunks()[i])|] == Enc(Chunks()[i]) && Shaped(Chunks()[i]) && Chunks()[i].start < TWO64
    {
      hide WfRle, Off, Stream, Enc, WfSparse, U64, CountHeader, SmallHeader;
      ghost var cs := Chunks();
      ghost var e := Enc(cs[i]);
      WfShape(cs[i]);
      StreamAt(cs, i);
      assert data[..used][p..p + |e|] == Stream(cs)[p - 1..p - 1 + |e|] == e;
      assert data[p..p + |e|] == e;
    }

    /** Reads the chunk at p, which is chunk i of the stream. */
    method Load(p: nat, ghost i: nat) returns (c: Chunk)
      requires Valid() && i < |Chunks()|
      requires p == 1 + Off(Chunks(), i)
      ensures c == Chunks()[i]
      ensures p + 1 + Size(c.desc) == 1 + Off(Chunks(), i + 1) <= used
    {
      hide Off, Stream, Enc, WfChunk, WfStream, Layout, WfForm, U64, CountHeader, SmallHeader;
      ghost var c0 := Chunks()[i];
      WordsAt(p, i);
      EncParts(c0, data[p..p + |Enc(c0)|]);
      assert data[p] == U64(c0.start) && data[p + 1] == c0.desc;
      var d := data[p + 1];
      assert data[p + 2..p + 1 + Size(d)] == data[p..p + |Enc(c0)|][2..];
      c := Chunk(ToNat(data[p]), d, data[p + 2..p + 1 + Size(d)]);
    }
  }
}
