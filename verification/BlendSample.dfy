/** What is read from bytes written out by hand: headers, numbers, tags, block headers, a struct table, and a whole file. */
module BlendSample {
  import opened Bytes
  import opened BlendFile
  import opened BlendParser
  import opened BlendScenes
  import opened FieldLayout
  import opened RenderJobs
  import opened SdnaTable

  // ---------------------------------------------------------------------------
  // Numbers, tags and headers
  // ---------------------------------------------------------------------------

  /** The value of the digits b[0], b[1], ... in base 256, the first one counting least. */
  function Base256(b: Data): nat {
    if b == [] then 0 else b[0] as nat + 256 * Base256(b[1..])
  }

  function Backwards(b: Data): Data {
    if b == [] then [] else [b[|b| - 1]] + Backwards(b[..|b| - 1])
  }

  /** Little-endian numbers start with the digit that counts least, big-endian numbers end with it. */
  lemma {:induction false} ByteOrders(b: Data)
    ensures Decoded(b, Little) == Base256(b) && Decoded(b, Big) == Base256(Backwards(b))
    decreases |b|
  {
    if b != [] {
      LittleOrder(b[1..]);
      ByteOrders(b[..|b| - 1]);
      LittleOrder(b);
      assert Backwards(b)[1..] == Backwards(b[..|b| - 1]);
    }
  }

  lemma {:induction false} LittleOrder(b: Data)
    ensures Decoded(b, Little) == Base256(b)
  {
    if b != [] { LittleOrder(b[1..]); }
  }

  lemma OneAndNothing()
    ensures Decoded([1, 0], Little) == 1 && Decoded([1, 0], Big) == 256
    ensures Signed(255, 1) == -1 && Signed(127, 1) == 127 && Signed(128, 1) == -128
  {
    assert [1 as Byte, 0][1..] == [0] && [1 as Byte, 0][..1] == [1];
    assert Decoded([0], Little) == 0 && Decoded([1], Big) == 1;
    assert Pow256(1) == 256;
  }

  /** The tags the parser looks for are these words. */
  lemma TagsAreWords()
    ensures MAGIC == Ascii("BLENDER")
    ensures ENDB == Ascii("ENDB") && DNA1 == Ascii("DNA1") && GLOB == Ascii("GLOB") && SC == Ascii("SC")
    ensures SDNA == Ascii("SDNA") && NAME == Ascii("NAME") && TYPE == Ascii("TYPE")
    ensures TLEN == Ascii("TLEN") && STRC == Ascii("STRC")
  {
  }

  lemma DnaWord()
    ensures DNA1 == Ascii("DNA1") && DNA1 != ENDB
  {
    assert DNA1[0] != ENDB[0];
  }

  lemma GlobWord()
    ensures GLOB == Ascii("GLOB") && GLOB != ENDB
  {
    assert GLOB[0] != ENDB[0];
  }

  lemma EndWord()
    ensures ENDB == SampleEnd()
  {
  }

  /** Files that begin with BLENDER-v300, BLENDER_V279 and BLENDER17-01v0500. */
  lemma HeadersAreRead(rest: Data)
    ensures ReadHeader([66, 76, 69, 78, 68, 69, 82, 45, 118, 51, 48, 48] + rest) == Ok(Header(8, Little, 300, 12, Legacy))
    ensures ReadHeader([66, 76, 69, 78, 68, 69, 82, 95, 86, 50, 55, 57] + rest) == Ok(Header(4, Big, 279, 12, Legacy))
    ensures ReadHeader([66, 76, 69, 78, 68, 69, 82, 49, 55, 45, 48, 49, 118, 48, 53, 48, 48] + rest)
      == Ok(Header(8, Little, 500, 17, Large8))
  {
    DigitsAre();
    hide ReadHeader, DigitBytes;
    LegacyIs(8, Little, 300, [51, 48, 48], rest);
    assert [66 as Byte, 76, 69, 78, 68, 69, 82, 45, 118] + [51, 48, 48] == [66, 76, 69, 78, 68, 69, 82, 45, 118, 51, 48, 48];
    LegacyIs(4, Big, 279, [50, 55, 57], rest);
    assert [66 as Byte, 76, 69, 78, 68, 69, 82, 95, 86] + [50, 55, 57] == [66, 76, 69, 78, 68, 69, 82, 95, 86, 50, 55, 57];
    NewIs(rest);
  }

  lemma LegacyIs(p: PointerSize, e: Endian, version: nat, digits: Data, rest: Data)
    requires version < 1000 && digits == DigitBytes(version, 3)
    ensures ReadHeader([66, 76, 69, 78, 68, 69, 82, if p == 4 then 95 else 45, if e.Little? then 118 else 86] + digits + rest)
      == Ok(Header(p, e, version, 12, Legacy))
  {
    HeaderRoundTrip(LegacyHeader(p, e, version), rest);
    hide ReadHeader, DigitBytes;
    assert [66 as Byte, 76, 69, 78, 68, 69, 82, if p == 4 then 95 else 45, if e.Little? then 118 else 86]
      == MAGIC + [if p == 4 then PTR4_CODE else PTR8_CODE, if e.Little? then LITTLE_CODE else BIG_CODE];
  }

  lemma NewIs(rest: Data)
    ensures ReadHeader([66, 76, 69, 78, 68, 69, 82, 49, 55, 45, 48, 49, 118, 48, 53, 48, 48] + rest)
      == Ok(Header(8, Little, 500, 17, Large8))
  {
    HeaderRoundTrip(NewHeader(Little, 500, []), rest);
    DigitsAre();
    hide ReadHeader, DigitBytes;
    var front: Data := [66, 76, 69, 78, 68, 69, 82, 49, 55];
    assert MAGIC + [49, 55] == front;
    assert PrintedHeader(NewHeader(Little, 500, [])) == front + [45] + [48, 49] + [118] + [48, 53, 48, 48] + [];
    hide PrintedHeader;
    NewBytes(front);
  }

  lemma NewBytes(front: Data)
    requires front == [66, 76, 69, 78, 68, 69, 82, 49, 55]
    ensures front + [45] + [48, 49] + [118] + [48, 53, 48, 48] + []
      == [66, 76, 69, 78, 68, 69, 82, 49, 55, 45, 48, 49, 118, 48, 53, 48, 48]
  {
  }

  lemma DigitsAre()
    ensures DigitBytes(300, 3) == [51, 48, 48] && DigitBytes(279, 3) == [50, 55, 57]
    ensures DigitBytes(17, 2) == [49, 55] && DigitBytes(1, 2) == [48, 49] && DigitBytes(500, 4) == [48, 53, 48, 48]
  {
    assert DigitBytes(0, 0) == [] && DigitBytes(3, 1) == [51] && DigitBytes(2, 1) == [50] && DigitBytes(1, 1) == [49];
    assert DigitBytes(0, 1) == [48] && DigitBytes(5, 2) == [48, 53];
    assert DigitBytes(30, 2) == [51, 48] && DigitBytes(27, 2) == [50, 55] && DigitBytes(50, 3) == [48, 53, 48];
  }

  // ---------------------------------------------------------------------------
  // Blocks
  // ---------------------------------------------------------------------------

  /** A legacy block: code, size, old pointer, struct index, count. */
  function LegacyBlock(b: Block, p: PointerSize, e: Endian): Data {
    b.code + (Encoded(|b.data|, 4, e) + (Encoded(b.oldPtr, p, e) + (Encoded(b.sdnaIndex, 4, e)
    + Encoded(if b.count >= 0 then b.count else 0, 4, e))))
  }

  /** A large block: code, struct index, old pointer, size, count; the last two are signed. */
  function LargeBlock(b: Block, e: Endian): Data
    requires FitsSigned(b.count, 8)
  {
    b.code + (Encoded(b.sdnaIndex, 4, e) + (Encoded(b.oldPtr, 8, e)
    + (Encoded(|b.data|, 8, e) + Encoded(if b.count >= 0 then b.count else b.count + Pow256(8), 8, e))))
  }

  lemma HeadIs(b: Block, h: Header)
    requires Storable(b, h)
    ensures PrintedHead(b, h) == if h.layout.Large8? then LargeBlock(b, h.endian) else LegacyBlock(b, h.pointerSize, h.endian)
  {
    var v, w, e := Values(b, h), Widths(h), h.endian;
    assert v[1..][1..][1..][1..] == [] && w[1..][1..][1..][1..] == [];
    assert PrintedNumbers(v[1..][1..][1..], w[1..][1..][1..], e) == Encoded(v[3], w[3], e) + [];
    assert Encoded(v[3], w[3], e) + [] == Encoded(v[3], w[3], e);
    hide Encoded;
    assert PrintedNumbers(v[1..][1..], w[1..][1..], e) == Encoded(v[2], w[2], e) + Encoded(v[3], w[3], e);
    assert PrintedNumbers(v[1..], w[1..], e) == Encoded(v[1], w[1], e) + (Encoded(v[2], w[2], e) + Encoded(v[3], w[3], e));
  }

  /** A block in these orders, with its data behind it, is read wherever it stands. */
  lemma BlocksAreRead(before: Data, b: Block, h: Header, after: Data)
    requires Storable(b, h)
    ensures var head := if h.layout.Large8? then LargeBlock(b, h.endian) else LegacyBlock(b, h.pointerSize, h.endian);
      BlockAt(before + (head + (b.data + after)), |before|, h) == Ok(b)
  {
    HeadIs(b, h);
    HeadLength(b, h);
    hide PrintedHead, LegacyBlock, LargeBlock, BlockAt, Storable;
    var head := PrintedHead(b, h);
    var data := before + (head + (b.data + after));
    BodyFollows(before, head + (b.data + after));
    AtSplit(data, |before|, head, b.data + after);
    AtSplit(data, |before| + |head|, b.data, after);
    BlockReads(data, |before|, b, h);
  }

  // ---------------------------------------------------------------------------
  // A struct table
  // ---------------------------------------------------------------------------

  /** Two bytes, the first one counting least. */
  function Short(n: Byte): Data { [n, 0] }

  /** A word with a zero behind it. */
  function Word(s: string): Data
    requires IsAscii(s)
  {
    Ascii(s) + [0]
  }

  function NameBytes(): Data {
    Word("r") + (Word("sfra") + (Word("efra") + (Word("frame_step") + Word("*curscene"))))
  }

  function TypeBytes(): Data {
    Word("int") + (Word("RenderData") + (Word("Scene") + Word("FileGlobal")))
  }

  function LengthBytes(): Data { Short(4) + (Short(12) + (Short(12) + Short(8))) }

  /** For every struct its type, its number of fields, and type and name of each field. */
  function StructBytes(): Data {
    ((Short(1) + Short(3)) + ((Short(0) + Short(1)) + ((Short(0) + Short(2)) + (Short(0) + Short(3)))))
    + (((Short(2) + Short(1)) + (Short(1) + Short(0))) + ((Short(3) + Short(1)) + (Short(2) + Short(4))))
  }

  /** The names, types, type lengths and structs of SmallTable, in a little-endian file. */
  function TableBytes(): Data {
    Ascii("SDNA") + ((Ascii("NAME") + ([5, 0, 0, 0] + (NameBytes() + [0, 0, 0])))
    + ((Ascii("TYPE") + ([4, 0, 0, 0] + TypeBytes()))
    + ((Ascii("TLEN") + LengthBytes()) + (Ascii("STRC") + ([3, 0, 0, 0] + StructBytes())))))
  }

  lemma SmallNumbers(n: Byte)
    ensures Encoded(n as nat, 2, Little) == Short(n) && Encoded(n as nat, 4, Little) == [n, 0, 0, 0]
    ensures Encoded(n as nat, 8, Little) == [n, 0, 0, 0, 0, 0, 0, 0]
  {
    assert n as nat % 256 == n as nat && n as nat / 256 == 0;
    Noughts(1);
    Noughts(3);
    Noughts(7);
  }

  lemma {:induction false} Noughts(k: nat)
    ensures Encoded(0, k, Little) == Zeros(k)
  {
    if k > 0 { Noughts(k - 1); }
  }

  lemma {:induction false} AllPrinted<T>(x: T, xs: seq<T>, print_: T -> Data)
    ensures PrintedAll([x] + xs, print_) == print_(x) + PrintedAll(xs, print_)
  {
    assert ([x] + xs)[1..] == xs;
  }

  lemma OnePrinted<T>(x: T, print_: T -> Data)
    ensures PrintedAll([x], print_) == print_(x)
  {
    assert [x] + [] == [x];
    AllPrinted(x, [], print_);
    assert print_(x) + [] == print_(x);
  }

  lemma FourPrinted<T>(a: T, b: T, c: T, d: T, print_: T -> Data)
    ensures PrintedAll([a, b, c, d], print_) == print_(a) + (print_(b) + (print_(c) + print_(d)))
  {
    hide PrintedAll;
    OnePrinted(d, print_);
    AllPrinted(c, [d], print_);
    AllPrinted(b, [c, d], print_);
    AllPrinted(a, [b, c, d], print_);
    assert [c] + [d] == [c, d] && [b] + [c, d] == [b, c, d] && [a] + [b, c, d] == [a, b, c, d];
  }

  lemma NamesPrinted()
    ensures PrintedNames(NAME, SmallTable().names, Little) == Ascii("NAME") + ([5, 0, 0, 0] + (NameBytes() + [0, 0, 0]))
  {
    FourPrinted("sfra", "efra", "frame_step", "*curscene", PrintedName);
    AllPrinted("r", ["sfra", "efra", "frame_step", "*curscene"], PrintedName);
    assert ["r"] + ["sfra", "efra", "frame_step", "*curscene"] == SmallTable().names;
    assert PrintedAll(SmallTable().names, PrintedName) == NameBytes() by { hide PrintedAll; }
    SmallNumbers(5);
    TagsAreWords();
    NameLength();
    assert Padding(33) == [0, 0, 0];
    hide PrintedAll, Encoded, NameBytes, Padding, Ascii;
  }

  lemma NameLength()
    ensures |NameBytes()| == 33 && |TypeBytes()| == 32
  {
  }

  lemma TypesPrinted()
    ensures PrintedNames(TYPE, SmallTable().types, Little) == Ascii("TYPE") + ([4, 0, 0, 0] + TypeBytes())
  {
    FourPrinted("int", "RenderData", "Scene", "FileGlobal", PrintedName);
    assert PrintedAll(SmallTable().types, PrintedName) == TypeBytes() by { hide PrintedAll; }
    SmallNumbers(4);
    TagsAreWords();
    NameLength();
    assert Padding(32) == [] && TypeBytes() + [] == TypeBytes();
    hide PrintedAll, Encoded, TypeBytes, Padding, Ascii;
  }

  lemma LengthsPrinted()
    ensures PrintedLengths(SmallTable().lens, Little) == Ascii("TLEN") + LengthBytes()
  {
    var print_ := (n: nat) => PrintedShort(n, Little);
    FourPrinted(4 as nat, 12, 12, 8, print_);
    SmallNumbers(4);
    SmallNumbers(12);
    SmallNumbers(8);
    TagsAreWords();
    assert PrintedAll(SmallTable().lens, print_) == LengthBytes() by { hide PrintedAll, Encoded; }
    assert |LengthBytes()| == 8 && Padding(8) == [] && LengthBytes() + [] == LengthBytes();
    hide PrintedAll, Encoded, LengthBytes, Padding, Ascii;
  }

  lemma PairIs(a: Byte, b: Byte)
    ensures PrintedPair((a as nat, b as nat), Little) == Short(a) + Short(b)
  {
    SmallNumbers(a);
    SmallNumbers(b);
  }

  lemma StructsPrinted()
    ensures PrintedStructSection(SmallTable().structs, Little) == Ascii("STRC") + ([3, 0, 0, 0] + StructBytes())
  {
    var print_ := (x: Struct) => PrintedStruct(x, Little);
    var a, b, c := SmallTable().structs[0], SmallTable().structs[1], SmallTable().structs[2];
    ThreePrinted(a, b, c, print_);
    ThreeFields();
    OneField(2, 1, 0);
    OneField(3, 2, 4);
    SmallNumbers(3);
    TagsAreWords();
    hide PrintedAll, Encoded, PrintedStruct, Ascii;
    var x, y, z := print_(a), print_(b), print_(c);
    assert x + (y + z) == StructBytes();
  }

  lemma ThreePrinted<T>(a: T, b: T, c: T, print_: T -> Data)
    ensures PrintedAll([a, b, c], print_) == print_(a) + (print_(b) + print_(c))
  {
    hide PrintedAll;
    OnePrinted(c, print_);
    AllPrinted(b, [c], print_);
    AllPrinted(a, [b, c], print_);
    assert [b] + [c] == [b, c] && [a] + [b, c] == [a, b, c];
  }

  lemma ThreeFields()
    ensures PrintedStruct(Struct(1, [(0, 1), (0, 2), (0, 3)]), Little)
      == (Short(1) + Short(3)) + ((Short(0) + Short(1)) + ((Short(0) + Short(2)) + (Short(0) + Short(3))))
  {
    var print_ := (p: (nat, nat)) => PrintedPair(p, Little);
    ThreePrinted((0 as nat, 1 as nat), (0, 2), (0, 3), print_);
    PairIs(1, 3);
    PairIs(0, 1);
    PairIs(0, 2);
    PairIs(0, 3);
    hide PrintedAll, PrintedPair, Short;
  }

  lemma OneField(index: Byte, t: Byte, name: Byte)
    ensures PrintedStruct(Struct(index as nat, [(t as nat, name as nat)]), Little)
      == (Short(index) + Short(1)) + (Short(t) + Short(name))
  {
    OnePrinted((t as nat, name as nat), (p: (nat, nat)) => PrintedPair(p, Little));
    PairIs(index, 1);
    PairIs(t, name);
    hide PrintedAll, PrintedPair, Short;
  }

  /** These bytes are that table. */
  lemma TableIsRead(trailer: Data)
    ensures ParseSdna(TableBytes() + trailer, Little) == Ok(SmallTable())
  {
    TableIsPrinted();
    SmallTableIsWritable();
    SdnaRoundTrip(SmallTable(), Little, trailer);
  }

  lemma TableIsPrinted()
    ensures Writable(SmallTable()) && PrintedSdna(SmallTable(), Little) == TableBytes()
  {
    SmallTableIsWritable();
    NamesPrinted();
    TypesPrinted();
    LengthsPrinted();
    StructsPrinted();
    TagsAreWords();
    hide PrintedNames, PrintedLengths, PrintedStructSection, NameBytes, TypeBytes, LengthBytes, StructBytes, Ascii, Writable;
  }

  // ---------------------------------------------------------------------------
  // A whole file
  // ---------------------------------------------------------------------------

  /** The header of one block: code, size, old pointer, struct index and a count of one. */
  function SampleHead(code: Data, size: Byte, oldPtr: Byte, index: Byte): Data {
    code + ([size, 0, 0, 0] + ([oldPtr, 0, 0, 0, 0, 0, 0, 0] + ([index, 0, 0, 0] + [1, 0, 0, 0])))
  }

  /** A scene with its start, end and step. */
  function SampleScene(oldPtr: Byte, start: Byte, end: Byte, step: Byte): Data {
    SampleHead(Ascii("SC") + [0, 0], 12, oldPtr, 1) + ([start, 0, 0, 0] + ([end, 0, 0, 0] + [step, 0, 0, 0]))
  }

  /** A header, four blocks and an end. */
  function Pieces(header: Data, a: Data, b: Data, c: Data, d: Data, end: Data): Data {
    header + (a + (b + (c + (d + end))))
  }

  /** A file with its struct table, a global block that names the scene at 7, and two scenes. */
  function SampleFile(): Data {
    Pieces(SampleHeader(), SampleTable(), SampleGlobal(), SampleScene(5, 1, 10, 1), SampleScene(7, 1, 250, 2), SampleEnd())
  }

  function SampleHeader(): Data { Ascii("BLENDER-v300") }

  function SampleTable(): Data { SampleHead(Ascii("DNA1"), 140, 0, 0) + TableBytes() }

  function SampleGlobal(): Data { SampleHead(Ascii("GLOB"), 8, 0, 2) + [7, 0, 0, 0, 0, 0, 0, 0] }

  function SampleEnd(): Data { Ascii("ENDB") }

  const SAMPLE_HEADER: Header := Header(8, Little, 300, 12, Legacy)

  function SceneItem(oldPtr: Byte, start: Byte, end: Byte, step: Byte): Item {
    var render: seq<Data> := [[start, 0, 0, 0], [end, 0, 0, 0], [step, 0, 0, 0]];
    Scene([0, 0], 1, 1, oldPtr as nat, [Joined(render)], render, start as int, end as int, step as int, [], 12)
  }

  function GlobalItem(): Item { Global(2, 1, 0, [[7, 0, 0, 0, 0, 0, 0, 0]], 7, []) }

  function SampleItems(): seq<Item> {
    [Dna(0, 1, 0, []), GlobalItem(), SceneItem(5, 1, 10, 1), SceneItem(7, 1, 250, 2)]
  }

  lemma SmallPowers()
    ensures Pow256(4) == 4294967296 && Pow256(8) >= 256
  {
    assert Pow256(1) == 256 && Pow256(2) == 65536 && Pow256(3) == 16777216;
    assert Pow256(5) >= Pow256(4) && Pow256(6) >= Pow256(5) && Pow256(7) >= Pow256(6);
  }

  /** What a legacy block of the sample looks like in the file. */
  lemma SampleHeadIs(b: Block, size: Byte, oldPtr: Byte, index: Byte)
    requires |b.code| == 4 && b.code != ENDB && |b.data| == size as nat && b.oldPtr == oldPtr as nat
    requires b.sdnaIndex == index as nat && b.count == 1
    ensures Storable(b, SAMPLE_HEADER) && PrintedHead(b, SAMPLE_HEADER) == SampleHead(b.code, size, oldPtr, index)
  {
    SmallPowers();
    HeadIs(b, SAMPLE_HEADER);
    SmallNumbers(size);
    SmallNumbers(oldPtr);
    SmallNumbers(index);
    SmallNumbers(1);
    hide Encoded, PrintedHead, Pow256;
  }

  lemma SignedByte(b: Byte)
    ensures FitsSigned(b as int, 4) && EncodedSigned(b as int, 4, Little) == [b, 0, 0, 0]
  {
    SmallPowers();
    SmallNumbers(b);
    hide Encoded, Pow256;
  }

  lemma SampleSceneFits(oldPtr: Byte, start: Byte, end: Byte, step: Byte)
    requires Sound(SmallSchema(SAMPLE_HEADER))
    ensures Fits(SmallSchema(SAMPLE_HEADER), SceneItem(oldPtr, start, end, step))
  {
    SignedByte(start);
    SignedByte(end);
    SignedByte(step);
    SmallSceneFits(SAMPLE_HEADER, start as int, end as int, step as int, oldPtr as nat);
    hide Fits, Sound, EncodedSigned, Joined, FitsSigned;
  }

  lemma SampleSceneIs(x: Schema, oldPtr: Byte, start: Byte, end: Byte, step: Byte)
    requires Writable(x.s)
    ensures var b := BlockOf(x, SceneItem(oldPtr, start, end, step));
      && Storable(b, SAMPLE_HEADER) && |b.data| == 12 && b.oldPtr == oldPtr as nat
      && PrintedHead(b, SAMPLE_HEADER) + b.data == SampleScene(oldPtr, start, end, step)
  {
    var b := BlockOf(x, SceneItem(oldPtr, start, end, step));
    JoinedIs([start, 0, 0, 0], [end, 0, 0, 0], [step, 0, 0, 0]);
    var data: Data := [start, 0, 0, 0] + ([end, 0, 0, 0] + [step, 0, 0, 0]);
    assert Joined([data]) == data by { assert [data][1..] == [] && data + [] == data; }
    assert b.data == data by { assert data + [] == data && data[..12] == data; }
    TagsAreWords();
    assert b.code[0] != ENDB[0];
    hide Storable, PrintedHead, Joined, Writable, Taken;
    SampleHeadIs(b, 12, oldPtr, 1);
  }

  lemma JoinedIs(a: Data, b: Data, c: Data)
    ensures Joined([a, b, c]) == a + (b + c)
  {
    assert [a, b, c][1..] == [b, c] && [b, c][1..] == [c] && [c][1..] == [];
    assert Joined([c]) == c + [] && c + [] == c;
  }

  lemma SampleTableIs(x: Schema)
    requires Writable(x.s) && x.s == SmallTable() && x.h == SAMPLE_HEADER
    ensures var b := BlockOf(x, Dna(0, 1, 0, []));
      Storable(b, SAMPLE_HEADER) && PrintedHead(b, SAMPLE_HEADER) + b.data == SampleTable()
  {
    hide Storable, PrintedHead, Writable, TableBytes, PrintedSdna, Ascii, SampleHead, SmallTable;
    var b := BlockOf(x, Dna(0, 1, 0, []));
    TableLength();
    DnaWord();
    TableIsPrinted();
    assert TableBytes() + [] == TableBytes();
    SampleHeadIs(b, 140, 0, 0);
  }

  lemma SampleGlobalIs(x: Schema)
    requires Writable(x.s)
    ensures var b := BlockOf(x, GlobalItem());
      Storable(b, SAMPLE_HEADER) && PrintedHead(b, SAMPLE_HEADER) + b.data == SampleGlobal()
  {
    var b := BlockOf(x, GlobalItem());
    var pointer: Data := [7, 0, 0, 0, 0, 0, 0, 0];
    assert Joined([pointer]) + [] == pointer by { assert [pointer][1..] == [] && pointer + [] == pointer; }
    GlobWord();
    hide Storable, PrintedHead, Joined, Writable, Ascii, SampleHead, SmallTable;
    SampleHeadIs(b, 8, 0, 2);
  }

  lemma TableLength()
    ensures |TableBytes()| == 140
  {
    NameLength();
    hide NameBytes, TypeBytes;
    assert |StructBytes()| == 32 && |LengthBytes()| == 8;
  }

  /** The bytes are those items. */
  lemma SampleIsPrinted(x: Schema)
    requires Writable(x.s) && x.s == SmallTable() && x.h == SAMPLE_HEADER
    ensures var m, blocks := LegacyHeader(8, Little, 300), BlocksOf(x, SampleItems());
      && m.Writable() && m.Meaning() == SAMPLE_HEADER && (forall b :: b in blocks ==> Storable(b, SAMPLE_HEADER))
      && PrintedFile(m, blocks, []) == SampleFile()
  {
    hide BlockOf, BlocksOf, PrintedFile, Pieces, PrintedHead, PrintedHeader, Writable, SampleScene, SampleTable, SampleGlobal,
      SampleHeader, SampleEnd, SmallTable, Storable, GlobalItem, SceneItem;
    var ia, ib, ic, id := Dna(0, 1, 0, []), GlobalItem(), SceneItem(5, 1, 10, 1), SceneItem(7, 1, 250, 2);
    SampleTableIs(x);
    SampleGlobalIs(x);
    SampleSceneIs(x, 5, 1, 10, 1);
    SampleSceneIs(x, 7, 1, 250, 2);
    FourBlocks(x, ia, ib, ic, id);
    HeaderIsPrinted();
    EndWord();
    assert SampleFile() == Pieces(SampleHeader(), SampleTable(), SampleGlobal(), SampleScene(5, 1, 10, 1),
                                  SampleScene(7, 1, 250, 2), SampleEnd());
    FileIs(BlockOf(x, ia), BlockOf(x, ib), BlockOf(x, ic), BlockOf(x, id));
    assert SampleItems() == [ia, ib, ic, id];
  }

  lemma HeaderIsPrinted()
    ensures PrintedHeader(LegacyHeader(8, Little, 300)) == SampleHeader()
  {
    DigitsAre();
    TagsAreWords();
    hide DigitBytes;
    assert Ascii("BLENDER") + [45, 118] + [51, 48, 48] == Ascii("BLENDER-v300");
  }

  lemma OneBlockMore(x: Schema, a: Item, items: seq<Item>)
    requires Writable(x.s)
    ensures BlocksOf(x, [a] + items) == [BlockOf(x, a)] + BlocksOf(x, items)
  {
    hide BlockOf, Writable;
    assert ([a] + items)[1..] == items;
  }

  lemma FourBlocks(x: Schema, a: Item, b: Item, c: Item, d: Item)
    requires Writable(x.s)
    ensures BlocksOf(x, [a, b, c, d]) == [BlockOf(x, a), BlockOf(x, b), BlockOf(x, c), BlockOf(x, d)]
  {
    OneBlockMore(x, d, []);
    OneBlockMore(x, c, [d]);
    OneBlockMore(x, b, [c, d]);
    OneBlockMore(x, a, [b, c, d]);
    assert BlocksOf(x, []) == [];
    hide BlockOf, BlocksOf, Writable;
    assert [d] + [] == [d] && [c] + [d] == [c, d] && [b] + [c, d] == [b, c, d] && [a] + [b, c, d] == [a, b, c, d];
  }

  lemma OnePrintedMore(a: Block, blocks: seq<Block>, end: Data)
    requires Storable(a, SAMPLE_HEADER) && forall b :: b in blocks ==> Storable(b, SAMPLE_HEADER)
    ensures PrintedBlocks([a] + blocks, SAMPLE_HEADER) + end
      == (PrintedHead(a, SAMPLE_HEADER) + a.data) + (PrintedBlocks(blocks, SAMPLE_HEADER) + end)
  {
    hide PrintedHead, Storable;
    assert ([a] + blocks)[1..] == blocks;
    var head, rest := PrintedHead(a, SAMPLE_HEADER), PrintedBlocks(blocks, SAMPLE_HEADER);
    assert (head + (a.data + rest)) + end == (head + a.data) + (rest + end);
  }

  /** A file of four blocks, piece by piece. */
  lemma FileIs(a: Block, b: Block, c: Block, d: Block)
    requires Storable(a, SAMPLE_HEADER) && Storable(b, SAMPLE_HEADER) && Storable(c, SAMPLE_HEADER) && Storable(d, SAMPLE_HEADER)
    ensures var m, h := LegacyHeader(8, Little, 300), SAMPLE_HEADER;
      && m.Writable() && m.Meaning() == h
      && PrintedFile(m, [a, b, c, d], [])
         == Pieces(PrintedHeader(m), PrintedHead(a, h) + a.data, PrintedHead(b, h) + b.data,
                   PrintedHead(c, h) + c.data, PrintedHead(d, h) + d.data, ENDB)
  {
    var end := ENDB + [];
    assert end == ENDB;
    OnePrintedMore(d, [], end);
    OnePrintedMore(c, [d], end);
    OnePrintedMore(b, [c, d], end);
    OnePrintedMore(a, [b, c, d], end);
    assert PrintedBlocks([], SAMPLE_HEADER) + end == ENDB;
    hide PrintedHead, PrintedBlocks, Storable, PrintedHeader;
    assert [d] + [] == [d] && [c] + [d] == [c, d] && [b] + [c, d] == [b, c, d] && [a] + [b, c, d] == [a, b, c, d];
  }

  lemma SampleItemsFit(x: Schema)
    requires x == SmallSchema(SAMPLE_HEADER) && Sound(x)
    ensures forall i :: 0 <= i < |SampleItems()| ==> Fits(x, SampleItems()[i])
  {
    hide Fits, Sound, SmallSchema, SceneItem, Pow256, Encoded;
    SmallNumbers(7);
    SmallPowers();
    SmallGlobalFits(SAMPLE_HEADER, 7);
    SampleSceneFits(5, 1, 10, 1);
    SampleSceneFits(7, 1, 250, 2);
    DnaFits(x, Dna(0, 1, 0, []));
  }

  lemma DnaFits(x: Schema, item: Item)
    requires Sound(x) && item.Dna?
    ensures Fits(x, item)
  {
  }

  lemma SampleIsChosen(current: Option<nat>)
    requires current == Some(7)
    ensures |SampleItems()| == 4 && Chosen(SampleItems(), current) == 3 && FirstGlobal(SampleItems()) == 1
  {
    var items := SampleItems();
    assert items[1..][1..][1..] == [items[3]] && items[1..][1..] == [items[2], items[3]];
    assert FirstCurrent([items[3]], current) == 0;
    assert FirstCurrent(items[1..][1..], current) == 1;
    assert FirstCurrent(items[1..], current) == 2;
  }

  lemma SampleRange(x: Schema)
    requires x == SmallSchema(SAMPLE_HEADER) && Sound(x)
    ensures SceneRange(x, SceneItem(7, 1, 250, 2)) == FrameRange(1, 250, 2, 125, 300)
  {
    SmallEnds(SAMPLE_HEADER);
    SampleSceneIs(x, 7, 1, 250, 2);
    hide Sound, EndOf, BlockOf, SettingsStruct, Has, SampleScene, Storable, PrintedHead;
    assert (250 - 1) / 2 + 1 == 125;
  }

  lemma SchemaParts()
    ensures SmallSchema(SAMPLE_HEADER).s == SmallTable() && SmallSchema(SAMPLE_HEADER).h == SAMPLE_HEADER
  {
  }

  lemma SampleCurrent(x: Schema)
    requires x == SmallSchema(SAMPLE_HEADER) && Sound(x)
    ensures Current(x, SampleItems()) == Some(7)
  {
    SmallTableIsSound(SAMPLE_HEADER);
    SampleIsChosen(Some(7));
    hide Sound, Has, FirstGlobal, SmallSchema, Chosen, SceneItem;
  }

  /** Reading the file gives frames 1 to 250 in steps of 2: the second scene, little-endian, version 300. */
  lemma SampleIsRead()
    ensures FrameRangeOf(SampleFile()) == Ok(FrameRange(1, 250, 2, 125, 300))
  {
    hide Sound, Fits, BlocksOf, PrintedFile, SampleFile, FrameRangeOf, Storable, SceneRange, FirstGlobal, Chosen, SmallSchema,
      SmallTable, Current, SceneItem, GlobalItem;
    var m, x := LegacyHeader(8, Little, 300), SmallSchema(SAMPLE_HEADER);
    SmallTableIsSound(SAMPLE_HEADER);
    SchemaParts();
    SoundIsWritable(x);
    SampleItemsFit(x);
    SampleIsPrinted(x);
    SampleRange(x);
    SampleCurrent(x);
    SampleIsChosen(Some(7));
    assert TableFirst(x, SampleItems());
    FrameRangeRoundTrip(m, x, SampleItems(), []);
  }

  lemma SoundIsWritable(x: Schema)
    requires Sound(x)
    ensures Writable(x.s)
  {
  }
}
