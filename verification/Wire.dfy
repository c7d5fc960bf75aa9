// The serialized form: a sixteen-byte header and the words of the map in host byte order.
module Wire {
  import opened Words
  import opened Bytes
  import opened Chunks
  import opened Streams
  import opened Maps
  import opened Small
  import opened SetOps
  import opened Runs
  import opened Orders
  import opened Sweeps
  import opened Lookups
  import opened Counting
  import opened Ranks
  import opened Validate

  const MAGIC: nat := 0x30316d73
  const VERSION: nat := 2
  const HEADER: nat := 16

  // ---- the format ------------------------------------------------------------------------------------

  function Header(small: bool, card: nat, le: bool): (r: seq<Byte>)
    ensures |r| == HEADER
  {
    ToBytes(FromNat(MAGIC, 32), 4, le) +
    [Number(VERSION), Number(if le then 1 else 0), Number(if small then 1 else 0), Number(0)] +
    WordBytes(U64(card), le)
  }

  /** Bytes 0 to 4 by their values: "sm10" in the host's order, and version 2. */
  ghost predicate Branded(bytes: seq<Byte>, le: bool) {
    && |bytes| >= 5
    && (if le then ToNat(bytes[0]) == 0x73 && ToNat(bytes[1]) == 0x6d && ToNat(bytes[2]) == 0x31 && ToNat(bytes[3]) == 0x30
        else ToNat(bytes[0]) == 0x30 && ToNat(bytes[1]) == 0x31 && ToNat(bytes[2]) == 0x6d && ToNat(bytes[3]) == 0x73)
    && ToNat(bytes[4]) == 2
  }

  /** The sixteen bytes of a header by their values. */
  ghost predicate Headed(bytes: seq<Byte>, small: bool, card: nat, le: bool) {
    && Branded(bytes, le) && |bytes| >= 16
    && ToNat(bytes[5]) == (if le then 1 else 0)
    && ToNat(bytes[6]) == (if small then 1 else 0)
    && ToNat(bytes[7]) == 0
    && NumberAt(bytes[8..16], le) == card
  }

  /** Four bytes that spell the magic number. */
  lemma MagicBytes(bytes: seq<Byte>, le: bool)
    requires |bytes| == 4
    ensures var a, b, c, d := ToNat(bytes[0]), ToNat(bytes[1]), ToNat(bytes[2]), ToNat(bytes[3]);
      NumberAt(bytes, le) == MAGIC <==>
        if le then a == 0x73 && b == 0x6d && c == 0x31 && d == 0x30 else a == 0x30 && b == 0x31 && c == 0x6d && d == 0x73
  {
    hide ToNat, Spelled;
    FourBytes(bytes);
    FourBytes(Backwards(bytes));
  }

  lemma MagicNumber()
    ensures ToNat(FromNat(MAGIC, 32)) == MAGIC
  {
    hide ToNat, FromNat, Pow2;
    ToNatFromNat(MAGIC, 32);
    FieldValues();
  }

  /** A bit string of 32 bits is the magic number exactly when its bytes say so. */
  lemma MagicBits(bytes: seq<Byte>, le: bool)
    requires |bytes| == 4
    ensures FromBytes(bytes, le) == FromNat(MAGIC, 32) <==> NumberAt(bytes, le) == MAGIC
  {
    hide ToNat, FromNat, Spelled;
    var bits := FromBytes(bytes, le);
    BytesBack(bytes, le);
    ReadsNumber(bits, 4, le);
    MagicNumber();
    FromNatToNat(bits);
  }

  /** The values of a written header. */
  lemma HeaderValues(small: bool, card: nat, le: bool, rest: seq<Byte>)
    requires card < TWO64
    ensures Headed(Header(small, card, le) + rest, small, card, le)
  {
    hide ToNat, FromNat, Spelled, ToBytes, Number, NumberAt;
    var bytes, m := Header(small, card, le) + rest, ToBytes(FromNat(MAGIC, 32), 4, le);
    ReadsNumber(FromNat(MAGIC, 32), 4, le);
    MagicNumber();
    MagicBytes(m, le);
    assert bytes[0] == m[0] && bytes[1] == m[1] && bytes[2] == m[2] && bytes[3] == m[3];
    NumberValue(0);
    NumberValue(1);
    NumberValue(2);
    ReadsNumber(U64(card), 8, le);
    U64RoundTrip(card);
    assert bytes[8..16] == WordBytes(U64(card), le);
  }

  /** What is stored of a form: an empty set is always stored as an empty chunk stream. */
  ghost function Stored(f: Form): (r: Form)
    ensures FormMembers(r) == FormMembers(f)
    ensures WfForm(f) ==> WfForm(r)
  {
    if FormMembers(f) == iset{} then
      NoMembers();
      Chunked([])
    else
      f
  }

  lemma NoMembers()
    ensures FormMembers(Chunked([])) == iset{} && WfForm(Chunked([])) && Layout(Chunked([])) == [ZERO]
  {
    ZeroWord();
  }

  lemma ZeroWord()
    ensures U64(0) == ZERO
  {
    forall i | 0 <= i < 64 ensures !U64(0)[i] {
      ZeroBits(64, i);
    }
    WordExt(U64(0), ZERO);
  }

  /** The serialized bytes of a form. */
  ghost function Image(f: Form, le: bool): seq<Byte> {
    Header(f.Small?, Count(FormMembers(f), 0, TOP), le) + BytesOf(Layout(Stored(f)), le)
  }

  /** The checks made of the header. */
  predicate GoodHeader(bytes: seq<Byte>, le: bool) {
    && |bytes| >= HEADER + 8
    && FromBytes(bytes[..4], le) == FromNat(MAGIC, 32)
    && bytes[4] == Number(VERSION)
    && bytes[5][0] == le
  }

  /** The checks, by the values of the bytes. */
  lemma GoodValues(bytes: seq<Byte>, le: bool)
    requires |bytes| >= 24
    ensures GoodHeader(bytes, le) <==> Branded(bytes, le) && (ToNat(bytes[5]) % 2 == 1 <==> le)
  {
    hide ToNat, FromNat, Spelled, FromBytes, Number, NumberAt;
    MagicBits(bytes[..4], le);
    MagicBytes(bytes[..4], le);
    NumberValue(VERSION);
    if ToNat(bytes[4]) == 2 {
      ByteExt(bytes[4], Number(VERSION));
    }
    LowestOf(bytes[5]);
  }

  lemma LowestOf(b: Byte)
    ensures ToNat(b) % 2 == 1 <==> b[0]
  {
  }

  /** The bytes are read as the form f. */
  ghost predicate Reads(bytes: seq<Byte>, le: bool, f: Form) {
    && GoodHeader(bytes, le)
    && |bytes| % 8 == 0
    && Decodes(WordsOf(bytes[HEADER..], le), f)
  }

  lemma HeaderGood(small: bool, card: nat, rest: seq<Byte>, le: bool)
    requires |rest| >= 8
    ensures GoodHeader(Header(small, card, le) + rest, le)
  {
    var h := Header(small, card, le);
    BytesRoundTrip(FromNat(MAGIC, 32), 4, le);
    assert (h + rest)[..4] == ToBytes(FromNat(MAGIC, 32), 4, le);
    assert Number(1)[0] && !Number(0)[0];
  }

  /** Reading back what was written on a host of the same order gives the stored form and nothing else. */
  lemma RoundTrip(f: Form, le: bool)
    requires WfForm(f)
    ensures Reads(Image(f, le), le, Stored(f))
    ensures forall g :: Reads(Image(f, le), le, g) ==> g == Stored(f) && FormMembers(g) == FormMembers(f)
  {
    hide WfForm, FormMembers, Count, Layout, Decodes, Stored, Header, BytesOf, WordsOf, GoodHeader;
    var h, words := Header(f.Small?, Count(FormMembers(f), 0, TOP), le), Layout(Stored(f));
    var bytes := Image(f, le);
    HeaderGood(f.Small?, Count(FormMembers(f), 0, TOP), BytesOf(words, le), le);
    assert bytes[HEADER..] == BytesOf(words, le);
    WordsRoundTrip(words, le);
    WfAccepted(Stored(f));
    forall g | Reads(bytes, le, g) ensures g == Stored(f) {
      OneReading(words, g, Stored(f));
    }
  }

  /** A host of the other order refuses. */
  lemma OtherOrder(f: Form, g: Form, le: bool)
    ensures !Reads(Image(f, le), !le, g)
  {
    hide Layout, Count, FormMembers;
    var bytes := Image(f, le);
    assert bytes[5] == Number(if le then 1 else 0);
    assert Number(1)[0] && !Number(0)[0];
  }

  /** The header of an image says the mode of the map and its cardinality. */
  lemma ImageHeader(f: Form, le: bool)
    requires WfForm(f)
    ensures Headed(Image(f, le), f.Small?, Count(FormMembers(f), 0, TOP), le)
  {
    hide WfForm, FormMembers, Count, Layout, Stored, Header, BytesOf, Headed;
    HeaderValues(f.Small?, Count(FormMembers(f), 0, TOP), le, BytesOf(Layout(Stored(f)), le));
  }

  /** The body of an image holds the words of the stored form, one after the other. */
  lemma ImageBody(f: Form, le: bool, j: nat)
    requires j < |Layout(Stored(f))|
    ensures |Image(f, le)| == 16 + 8 * |Layout(Stored(f))|
    ensures NumberAt(Image(f, le)[16 + 8 * j..24 + 8 * j], le) == ToNat(Layout(Stored(f))[j])
  {
    hide FormMembers, Count, Layout, Stored, Header, BytesOf, NumberAt, ToNat;
    var h, body := Header(f.Small?, Count(FormMembers(f), 0, TOP), le), BytesOf(Layout(Stored(f)), le);
    ReadsWord(Layout(Stored(f)), j, le);
    assert (h + body)[16 + 8 * j..24 + 8 * j] == body[8 * j..8 * j + 8];
  }

  /** Bytes that differ from an image in one of bytes 0 to 4 read as nothing. */
  lemma OtherHeader(bytes: seq<Byte>, f: Form, le: bool, i: nat, g: Form)
    requires WfForm(f) && i < 5 && |bytes| > i && bytes[i] != Image(f, le)[i]
    ensures !Reads(bytes, le, g)
  {
    hide WfForm, FormMembers, Count, Decodes, WordsOf, GoodHeader, ToNat, Image, NumberAt;
    ImageHeader(f, le);
    if Reads(bytes, le, g) {
      LongEnough(bytes, le);
      GoodValues(bytes, le);
      ByteExt(bytes[i], Image(f, le)[i]);
    }
  }

  lemma LongEnough(bytes: seq<Byte>, le: bool)
    requires GoodHeader(bytes, le)
    ensures |bytes| >= 24
  {
  }

  /** Byte 6 of an image mirrors the top bit of the body's first word exactly when the map is not an empty bare bitmap. */
  lemma ModeByte(f: Form, le: bool)
    requires WfForm(f)
    ensures var bytes := Image(f, le);
      |bytes| >= 24 && ((ToNat(bytes[6]) == 1 <==> bytes[if le then 23 else 16][7]) <==> f != Small([]))
  {
    hide WfForm, FormMembers, Count, ToNat, Layout, Stored, NumberAt, Image;
    ImageHeader(f, le);
    ImageMode(f, le);
    StoredMode(f);
    HeaderRoundTrip(Stored(f));
  }

  lemma ImageMode(f: Form, le: bool)
    ensures |Image(f, le)| >= 24 && Image(f, le)[if le then 23 else 16][7] == Layout(Stored(f))[0][63]
  {
    hide FormMembers, Count, Layout, Stored, Header;
    var w := Layout(Stored(f))[0];
    assert Image(f, le)[16..] == BytesOf(Layout(Stored(f)), le);
    var k := if le then 7 else 0;
    assert Image(f, le)[16 + k] == BytesOf(Layout(Stored(f)), le)[k] == WordBytes(w, le)[k] == w[56..64];
  }

  lemma StoredMode(f: Form)
    requires WfForm(f)
    ensures WfForm(Stored(f)) && ((f.Small? <==> Stored(f).Small?) <==> f != Small([]))
  {
    if f.Small? {
      SmallForm(f);
      SmallEmpty(f.words);
      SmallWf(f);
      if f.words != [] {
        assert f.words[|f.words| - 1] != ZERO;
      }
    }
  }

  // ---- writing -----------------------------------------------------------------------------------------

  /** sm_get_size, in words: chunk mode walks the chunks. */
  method SizeOf(m: Map) returns (n: nat)
    requires m.Valid()
    ensures n == m.used
  {
    hide Layout, WfForm, Off;
    if m.IsSmall() {
      return m.used;
    }
    ghost var cs := m.Chunks();
    StreamEnds(cs);
    assert m.form == Chunked(cs) && m.used == |Layout(Chunked(cs))|;
    LayoutLength(cs);
    var count := m.Count();
    n := 1;
    for i := 0 to count
      invariant n == 1 + Off(cs, i)
    {
      var c := m.Load(n, i);
      n := n + 1 + Size(c.desc);
    }
  }

  /** The form written for an optional map; no map is written as an empty chunk stream. */
  ghost function FormOf(m: Map?): Form
    reads m
  {
    if m == null then Chunked([]) else m.form
  }

  method SerializedSize(m: Map?) returns (n: nat)
    requires Readable(m)
    ensures n == HEADER + 8 * (if m == null then 1 else m.used)
  {
    if m == null {
      return HEADER + 8;
    }
    var words := SizeOf(m);
    return HEADER + 8 * words;
  }

  method CopyBytes(out: array<Byte>, at: nat, bytes: seq<Byte>)
    requires at + |bytes| <= out.Length
    modifies out
    ensures out[..] == old(out[..at]) + bytes + old(out[at + |bytes|..])
  {
    forall k | 0 <= k < |bytes| {
      out[at + k] := bytes[k];
    }
    assert out[..] == old(out[..at]) + bytes + old(out[at + |bytes|..]);
  }

  /** The body's words: one zero word for an empty map. */
  method Body(m: Map?) returns (words: seq<Word>, card: nat)
    requires Plain(m)
    ensures words == Layout(Stored(FormOf(m))) && card == Count(FormMembers(FormOf(m)), 0, TOP)
    ensures |words| == if m == null then 1 else m.used
  {
    hide Count, Layout, WfForm, FormMembers, Members;
    NoMembers();
    SetForm(m);
    var empty := IsEmpty(m);
    if empty {
      CountNone(iset{}, 0, TOP);
      if m != null {
        EmptyForm(m.form);
      }
      return [ZERO], 0;
    }
    card := Cardinality(m);
    return m.data[..m.used], card;
  }

  /** An empty map takes one word in either form. */
  lemma EmptyForm(f: Form)
    requires WfForm(f) && FormMembers(f) == iset{}
    ensures |Layout(f)| == 1
  {
    match f
    case Small(ws) =>
      SmallForm(f);
      SmallEmpty(ws);
    case Chunked(cs) =>
      ChunkedForm(f);
      EmptyIff(cs);
  }

  lemma SetForm(m: Map?)
    ensures SetOf(m) == FormMembers(FormOf(m))
  {
  }

  /** sm_serialize: the image of the map at the front of out, or 0 and out untouched when it is too short. */
  method Serialize(m: Map?, out: array<Byte>, le: bool) returns (n: nat)
    requires Plain(m)
    modifies out
    ensures n == 0 <==> out.Length < HEADER + 8 * (if m == null then 1 else m.used)
    ensures n == 0 ==> out[..] == old(out[..])
    ensures n > 0 ==> n == HEADER + 8 * (if m == null then 1 else m.used)
    ensures n > 0 ==> out[..n] == Image(FormOf(m), le) && out[n..] == old(out[n..])
    ensures n > 0 ==> Headed(out[..], m != null && m.form.Small?, Count(SetOf(m), 0, TOP), le)
  {
    hide Count, Layout, WfForm, FormMembers, Members, Stored, Header, BytesOf, WordBytes, ToBytes, FromNat, Number, Headed, Map.Set, Map.Strict, NumberAt, FormHas;
    n := SerializedSize(m);
    if out.Length < n {
      n := 0;
      return;
    }
    var words, card := Body(m);
    var small := m != null && m.IsSmall();
    ghost var was := out[..];
    CopyBytes(out, 0, Header(small, card, le));
    CopyBytes(out, HEADER, BytesOf(words, le));
    BothWritten(was, Header(small, card, le), BytesOf(words, le));
    assert out[..] == Header(small, card, le) + BytesOf(words, le) + was[n..];
    assert out[..] == Header(small, card, le) + (BytesOf(words, le) + was[n..]);
    SetForm(m);
    HeaderValues(small, card, le, BytesOf(words, le) + was[n..]);
  }

  /** Two adjoining writes at the front. */
  lemma BothWritten(was: seq<Byte>, a: seq<Byte>, b: seq<Byte>)
    requires |a| + |b| <= |was|
    ensures var mid := was[..0] + a + was[|a|..]; mid[..|a|] + b + mid[|a| + |b|..] == a + b + was[|a| + |b|..]
  {
  }

  // ---- reading -----------------------------------------------------------------------------------------

  datatype Loading = Refused | Loaded(copy: Map)

  /** Copies the body into a fresh zeroed buffer, 64 bytes larger and rounded up to whole words. */
  method CopyBody(body: seq<Byte>, le: bool) returns (data: array<Word>)
    ensures fresh(data) && |body| <= 8 * data.Length && data[..|body| / 8] == WordsOf(body, le)
  {
    var size := (|body| + 64 + 7) / 8;
    data := new Word[size](i => ZERO);
    var used := (|body| + 7) / 8;
    for i := 0 to used
      invariant forall k :: 0 <= k < i ==> data[k] == WordAt(body, k, le)
    {
      data[i] := WordAt(body, i, le);
    }
    assert data[..|body| / 8] == WordsOf(body, le);
  }

  /** sm_deserialize: refuses everything but a good header and an accepted body. */
  method Deserialize(bytes: seq<Byte>, le: bool) returns (r: Loading)
    ensures r.Refused? <==> forall f :: !Reads(bytes, le, f)
    ensures r.Loaded? ==> Branded(bytes, le) && |bytes| >= 24 && (ToNat(bytes[5]) % 2 == 1 <==> le)
    ensures r.Loaded? ==> fresh(r.copy) && fresh(r.copy.data) && Reads(bytes, le, r.copy.form)
    ensures r.Loaded? ==> r.copy.used <= r.copy.data.Length && r.copy.Contents() == WordsOf(bytes[HEADER..], le)
  {
    hide Decodes, WordsOf, FromBytes, FromNat, ToNat, Branded;
    if |bytes| < HEADER + 8 {
      return Refused;
    }
    if FromBytes(bytes[..4], le) != FromNat(MAGIC, 32) || bytes[4] != Number(VERSION) || bytes[5][0] != le {
      return Refused;
    }
    var body := bytes[HEADER..];
    var data := CopyBody(body, le);
    var ok := Check(data, |body|);
    if !ok {
      return Refused;
    }
    ghost var f :| Decodes(WordsOf(body, le), f);
    var copy := new Map.Adopt(data, |body| / 8, f);
    assert Reads(bytes, le, f);
    GoodValues(bytes, le);
    return Loaded(copy);
  }

  /** A map read from the image of a well-formed form is valid, holds the stored form and the same set. */
  lemma LoadedValid(m: Map, f: Form, le: bool)
    requires WfForm(f) && Reads(Image(f, le), le, m.form)
    requires m.used <= m.data.Length && m.Contents() == WordsOf(Image(f, le)[HEADER..], le)
    ensures m.Valid() && m.form == Stored(f) && m.Set() == FormMembers(f)
    ensures (f.Chunked? ==> AllFull(f.chunks)) ==> m.Strict()
  {
    hide Layout, Decodes, WordsOf, BytesOf, Count;
    RoundTrip(f, le);
    assert Image(f, le)[HEADER..] == BytesOf(Layout(Stored(f)), le);
    WordsRoundTrip(Layout(Stored(f)), le);
  }
}
