/** The outer structure of a .blend file: the header variants and the stream of blocks. */
module BlendFile {
  import opened Bytes
  import Grid

  datatype Layout = Legacy | Large8

  type PointerSize = p: nat | p == 4 || p == 8 witness 8

  datatype Header = Header(pointerSize: PointerSize, endian: Endian, version: int, size: nat, layout: Layout)

  datatype Block = Block(code: Data, sdnaIndex: nat, count: int, oldPtr: nat, data: Data)

  /** Seven letters, B L E N D E R. */
  const MAGIC: Data := [66, 76, 69, 78, 68, 69, 82]
  const ENDB: Data := [69, 78, 68, 66]

  // ---------------------------------------------------------------------------
  // Python's int() and str.isdigit() on ASCII text
  // ---------------------------------------------------------------------------

  predicate IsDigit(c: char) { '0' <= c <= '9' }

  predicate AllDigits(s: string) { s != [] && forall i :: 0 <= i < |s| ==> IsDigit(s[i]) }

  predicate IsBlank(c: char) { c == ' ' || '\t' <= c <= '\r' || '\U{1c}' <= c <= '\U{1f}' }

  function LTrim(s: string): string {
    if s != [] && IsBlank(s[0]) then LTrim(s[1..]) else s
  }

  function RTrim(s: string): string {
    if s != [] && IsBlank(s[|s| - 1]) then RTrim(s[..|s| - 1]) else s
  }

  /** Digits, with single underscores allowed between them. */
  predicate IsNumeral(s: string) {
    s != [] && IsDigit(s[|s| - 1])
    && (|s| == 1 || IsNumeral(s[..|s| - 1]) || (|s| > 2 && s[|s| - 2] == '_' && IsNumeral(s[..|s| - 2])))
  }

  function DigitsValue(s: string): nat {
    if s == [] then 0
    else if IsDigit(s[|s| - 1]) then DigitsValue(s[..|s| - 1]) * 10 + (s[|s| - 1] as int - '0' as int)
    else DigitsValue(s[..|s| - 1])
  }

  function PyInt(s: string): Result<int> {
    var t := RTrim(LTrim(s));
    var signed := t != [] && (t[0] == '+' || t[0] == '-');
    var digits := if signed then t[1..] else t;
    if !IsNumeral(digits) then Err(ValueError)
    else
      var v: int := DigitsValue(digits);
      Ok(if signed && t[0] == '-' then 0 - v else v)
  }

  // ---------------------------------------------------------------------------
  // Header
  // ---------------------------------------------------------------------------

  const LITTLE_CODE: Byte := 118   // v
  const BIG_CODE: Byte := 86       // V
  const PTR4_CODE: Byte := 95      // underscore
  const PTR8_CODE: Byte := 45      // minus

  function VersionOf(b: Data): int {
    match PyInt(Text(b)) case Ok(v) => v case Err(_) => 0
  }

  /** _read_header. */
  function ReadHeader(data: Data): Result<Header> {
    if |data| < 12 || data[..7] != MAGIC then Err(BlendParseError)
    else if data[7] == PTR4_CODE || data[7] == PTR8_CODE then
      if data[8] != LITTLE_CODE && data[8] != BIG_CODE then Err(BlendParseError)
      else Ok(Header(if data[7] == PTR4_CODE then 4 else 8, if data[8] == LITTLE_CODE then Little else Big,
                     VersionOf(data[9..12]), 12, Legacy))
    else if |data| >= 17 && AllDigits(Text(data[7..9])) && AllDigits(Text(data[10..12])) && data[9] == PTR8_CODE
            && DigitsValue(Text(data[10..12])) == 1 then
      var size := DigitsValue(Text(data[7..9]));
      if size < 17 || |data| < size || (data[12] != LITTLE_CODE && data[12] != BIG_CODE) then Err(BlendParseError)
      else Ok(Header(8, if data[12] == LITTLE_CODE then Little else Big, VersionOf(data[13..17]), size, Large8))
    else Err(BlendParseError)
  }

  // ---------------------------------------------------------------------------
  // Blocks
  // ---------------------------------------------------------------------------

  function BlockHeaderSize(h: Header): nat {
    match h.layout
    case Large8 => 32
    case Legacy => 16 + h.pointerSize
  }

  /** The widths of the four numbers that follow the code in a block header, in file order. */
  function Widths(h: Header): (w: seq<nat>)
    ensures |w| == 4
  {
    match h.layout
    case Large8 => [4, 8, 8, 8]
    case Legacy => [4, h.pointerSize, 4, 4]
  }

  function Total(widths: seq<nat>): nat {
    if widths == [] then 0 else widths[0] + Total(widths[1..])
  }

  /** Consecutive unsigned numbers of the given widths. */
  function Numbers(d: Data, widths: seq<nat>, e: Endian): (values: seq<nat>)
    requires Total(widths) <= |d|
    ensures |values| == |widths|
  {
    if widths == [] then []
    else [Decoded(d[..widths[0]], e)] + Numbers(d[widths[0]..], widths[1..], e)
  }

  datatype Head = Head(code: Data, size: int, sdnaIndex: nat, count: int, oldPtr: nat)

  /** A block header from its numbers: the layouts order them differently, and only the large one has signed sizes and
      counts. */
  function HeadOf(code: Data, values: seq<nat>, h: Header): Head
    requires |values| == 4
  {
    match h.layout
    case Large8 => Head(code, Signed(values[2], 8), values[0], Signed(values[3], 8), values[1])
    case Legacy => Head(code, values[0], values[2], values[3], values[1])
  }

  lemma WidthsTotal(h: Header)
    ensures 4 + Total(Widths(h)) == BlockHeaderSize(h)
  {
    var w := Widths(h);
    assert Total(w[1..][1..][1..]) == w[3] + Total(w[1..][1..][1..][1..]);
    assert Total(w[1..][1..]) == w[2] + Total(w[1..][1..][1..]);
  }

  /** The block at an offset, unless the stream ends there: too few bytes for a block header, the ENDB code, a negative
      size, or a size that runs past the end. */
  function BlockAt(data: Data, offset: nat, h: Header): (r: Result<Block>)
    ensures r.Ok? ==> offset + BlockHeaderSize(h) + |r.value.data| <= |data|
  {
    var start := offset + BlockHeaderSize(h);
    if start > |data| then Err(BlendParseError)
    else
      WidthsTotal(h);
      var head := HeadOf(data[offset..offset + 4], Numbers(data[offset + 4..start], Widths(h), h.endian), h);
      if head.code == ENDB || head.size < 0 || start + head.size > |data| then Err(BlendParseError)
      else Ok(Block(head.code, head.sdnaIndex, head.count, head.oldPtr, data[start..start + head.size]))
  }

  type Reader = nat -> Result<Block>

  /** A reader never reaches past the limit. */
  ghost predicate InBounds(read: Reader, headerSize: nat, limit: nat) {
    forall o: nat :: read(o).Ok? ==> o + headerSize + |read(o).value.data| <= limit
  }

  /** All blocks a reader yields from an offset on. */
  function Stream(read: Reader, headerSize: nat, limit: nat, offset: nat): seq<Block>
    requires headerSize >= 1 && InBounds(read, headerSize, limit)
    decreases limit - offset
  {
    var r := read(offset);
    if r.Err? then [] else [r.value] + Stream(read, headerSize, limit, offset + headerSize + |r.value.data|)
  }

  /** The loop of _iter_blocks, over the way one block is read. */
  method IterStream(read: Reader, headerSize: nat, limit: nat, start: nat) returns (blocks: seq<Block>)
    requires headerSize >= 1 && InBounds(read, headerSize, limit)
    ensures blocks == Stream(read, headerSize, limit, start)
  {
    blocks := [];
    var offset := start;
    while offset + headerSize <= limit
      invariant offset >= 0
      invariant blocks + Stream(read, headerSize, limit, offset) == Stream(read, headerSize, limit, start)
      decreases limit - offset
    {
      var r := read(offset);
      if r.Err? { break; }
      var next := offset + headerSize + |r.value.data|;
      assert blocks + ([r.value] + Stream(read, headerSize, limit, next))
          == (blocks + [r.value]) + Stream(read, headerSize, limit, next);
      blocks := blocks + [r.value];
      if next <= offset { break; }
      offset := next;
    }
  }

  function BlockReader(data: Data, h: Header): (read: Reader)
    ensures InBounds(read, BlockHeaderSize(h), |data|)
    ensures forall o: nat :: read(o) == BlockAt(data, o, h)
  {
    (o: nat) => BlockAt(data, o, h)
  }

  /** All blocks of a file, from where its header ends. */
  function Blocks(data: Data, h: Header): seq<Block> {
    Stream(BlockReader(data, h), BlockHeaderSize(h), |data|, h.size)
  }

  /** _iter_blocks. */
  method IterBlocks(data: Data, h: Header) returns (blocks: seq<Block>)
    ensures blocks == Blocks(data, h)
  {
    blocks := IterStream(BlockReader(data, h), BlockHeaderSize(h), |data|, h.size);
  }

  // ---------------------------------------------------------------------------
  // Writing
  // ---------------------------------------------------------------------------

  /** A header to be written; the newer variant may be longer than its 17 bytes. */
  datatype HeaderModel = LegacyHeader(pointerSize: PointerSize, endian: Endian, version: nat)
                       | NewHeader(endian: Endian, version: nat, extra: Data)
  {
    predicate Writable() {
      match this
      case LegacyHeader(_, _, version) => version < 1000
      case NewHeader(_, version, extra) => version < 10000 && 17 + |extra| <= 99
    }

    function Meaning(): Header {
      match this
      case LegacyHeader(pointerSize, endian, version) => Header(pointerSize, endian, version, 12, Legacy)
      case NewHeader(endian, version, extra) => Header(8, endian, version, 17 + |extra|, Large8)
    }
  }

  /** The last k decimal digits of n, as text bytes. */
  function DigitBytes(n: nat, k: nat): (b: Data)
    ensures |b| == k
  {
    if k == 0 then [] else DigitBytes(n / 10, k - 1) + [(48 + n % 10) as Byte]
  }

  function PrintedHeader(m: HeaderModel): (b: Data)
    requires m.Writable()
    ensures |b| == m.Meaning().size
  {
    match m
    case LegacyHeader(p, e, version) =>
      MAGIC + [if p == 4 then PTR4_CODE else PTR8_CODE, if e.Little? then LITTLE_CODE else BIG_CODE] + DigitBytes(version, 3)
    case NewHeader(e, version, extra) =>
      MAGIC + DigitBytes(17 + |extra|, 2) + [PTR8_CODE] + DigitBytes(1, 2)
      + [if e.Little? then LITTLE_CODE else BIG_CODE] + DigitBytes(version, 4) + extra
  }

  predicate Storable(b: Block, h: Header) {
    && |b.code| == 4 && b.code != ENDB
    && b.sdnaIndex < Pow256(4)
    && b.oldPtr < Pow256(h.pointerSize)
    && match h.layout
       case Large8 => h.pointerSize == 8 && FitsSigned(|b.data|, 8) && FitsSigned(b.count, 8)
       case Legacy => |b.data| < Pow256(4) && 0 <= b.count < Pow256(4)
  }

  /** Numbers written one after the other. */
  function PrintedNumbers(values: seq<nat>, widths: seq<nat>, e: Endian): Data
    requires |values| == |widths|
  {
    if values == [] then [] else Encoded(values[0], widths[0], e) + PrintedNumbers(values[1..], widths[1..], e)
  }

  function Unsigned(v: int, k: nat): nat
    requires FitsSigned(v, k)
  {
    if v < 0 then v + Pow256(k) else v
  }

  /** The numbers of a block's header, in file order. */
  function Values(b: Block, h: Header): (values: seq<nat>)
    requires Storable(b, h)
    ensures |values| == 4
  {
    match h.layout
    case Large8 => [b.sdnaIndex, b.oldPtr, Unsigned(|b.data|, 8), Unsigned(b.count, 8)]
    case Legacy => [|b.data|, b.oldPtr, b.sdnaIndex, b.count]
  }

  function PrintedHead(b: Block, h: Header): Data
    requires Storable(b, h)
  {
    b.code + PrintedNumbers(Values(b, h), Widths(h), h.endian)
  }

  function PrintedBlocks(blocks: seq<Block>, h: Header): Data
    requires forall b :: b in blocks ==> Storable(b, h)
  {
    if blocks == [] then []
    else PrintedHead(blocks[0], h) + (blocks[0].data + PrintedBlocks(blocks[1..], h))
  }

  /** A whole file: header, blocks, the ENDB code and anything after it. */
  function PrintedFile(m: HeaderModel, blocks: seq<Block>, trailer: Data): Data
    requires m.Writable() && forall b :: b in blocks ==> Storable(b, m.Meaning())
  {
    PrintedHeader(m) + (PrintedBlocks(blocks, m.Meaning()) + (ENDB + trailer))
  }

  // ---------------------------------------------------------------------------
  // Round trips
  // ---------------------------------------------------------------------------

  lemma {:induction false} DigitBytesRead(n: nat, k: nat)
    requires k >= 1
    ensures var s := Text(DigitBytes(n, k));
      && AllDigits(s) && IsNumeral(s)
      && (forall i :: 0 <= i < k ==> DigitBytes(n, k)[i] < 58 && DigitBytes(n, k)[i] >= 48)
    ensures DigitsValue(Text(DigitBytes(n, k))) == n % Pow10(k)
  {
    var b := DigitBytes(n, k);
    if k == 1 {
      assert b == [] + [(48 + n % 10) as Byte];
      assert Text(b) == [(48 + n % 10) as char];
      assert DigitsValue([]) == 0;
      assert Pow10(1) == 10;
    } else {
      DigitBytesRead(n / 10, k - 1);
      TextAppend(DigitBytes(n / 10, k - 1), [(48 + n % 10) as Byte]);
      var s, rest := Text(b), Text(DigitBytes(n / 10, k - 1));
      assert Text([(48 + n % 10) as Byte]) == [(48 + n % 10) as char];
      assert s[..|s| - 1] == rest;
      ModStep(n, k);
    }
  }

  function Pow10(k: nat): (p: nat)
    ensures p >= 1
  {
    if k == 0 then 1 else 10 * Pow10(k - 1)
  }

  lemma ModStep(n: nat, k: nat)
    requires k >= 1
    ensures (n / 10) % Pow10(k - 1) * 10 + n % 10 == n % Pow10(k)
  {
    var p := Pow10(k - 1);
    var q, r := n / 10 / p, n / 10 % p;
    assert n / 10 == q * p + r;
    assert n == 10 * (q * p + r) + n % 10;
    assert 10 * (q * p) == q * (10 * p);
    Grid.DivUnique(n, 10 * p, q, 10 * r + n % 10);
  }

  lemma TextAppend(a: Data, b: Data)
    ensures Text(a + b) == Text(a) + Text(b)
  {
  }

  /** Trimming leaves digits alone, so a written version reads back. */
  lemma VersionReads(n: nat, k: nat)
    requires k >= 1 && n < Pow10(k)
    ensures VersionOf(DigitBytes(n, k)) == n
  {
    DigitBytesRead(n, k);
    var s := Text(DigitBytes(n, k));
    assert IsDigit(s[0]) && IsDigit(s[|s| - 1]);
    Grid.DivUnique(n, Pow10(k), 0, n);
  }

  /** Every header variant reads back: pointer size, byte order, version and where the blocks start. */
  lemma HeaderRoundTrip(m: HeaderModel, rest: Data)
    requires m.Writable()
    ensures ReadHeader(PrintedHeader(m) + rest) == Ok(m.Meaning())
  {
    match m
    case LegacyHeader(_, _, _) => LegacyRoundTrip(m, rest);
    case NewHeader(_, _, _) => NewRoundTrip(m, rest);
  }

  lemma LegacyRoundTrip(m: HeaderModel, rest: Data)
    requires m.LegacyHeader? && m.Writable()
    ensures ReadHeader(PrintedHeader(m) + rest) == Ok(m.Meaning())
  {
    var codes: Data := [if m.pointerSize == 4 then PTR4_CODE else PTR8_CODE, if m.endian.Little? then LITTLE_CODE else BIG_CODE];
    LegacySlices(MAGIC, codes, DigitBytes(m.version, 3), rest);
    assert Pow10(3) == 1000;
    VersionReads(m.version, 3);
  }

  lemma LegacySlices(magic: Data, codes: Data, version: Data, rest: Data)
    requires |magic| == 7 && |codes| == 2 && |version| == 3
    ensures var d := magic + codes + version + rest;
      |d| >= 12 && d[..7] == magic && d[7] == codes[0] && d[8] == codes[1] && d[9..12] == version
  {
  }

  lemma NewRoundTrip(m: HeaderModel, rest: Data)
    requires m.NewHeader? && m.Writable()
    ensures ReadHeader(PrintedHeader(m) + rest) == Ok(m.Meaning())
  {
    hide ReadHeader, VersionOf, PyInt, Text, IsNumeral, DigitsValue;
    var size := 17 + |m.extra|;
    assert Pow10(2) == 100 && Pow10(4) == 10000;
    DigitBytesRead(size, 2);
    DigitBytesRead(1, 2);
    VersionReads(m.version, 4);
    NewPartsRead(size, DigitBytes(size, 2), DigitBytes(1, 2), m.endian, DigitBytes(m.version, 4), m.version, m.extra, rest);
  }

  lemma NewPartsRead(size: nat, sizeText: Data, format: Data, e: Endian, versionText: Data, version: int, extra: Data, rest: Data)
    requires |sizeText| == 2 && |format| == 2 && |versionText| == 4 && size == 17 + |extra|
    requires AllDigits(Text(sizeText)) && DigitsValue(Text(sizeText)) == size && 48 <= sizeText[0] < 58
    requires AllDigits(Text(format)) && DigitsValue(Text(format)) == 1
    requires VersionOf(versionText) == version
    ensures ReadHeader(MAGIC + sizeText + [PTR8_CODE] + format + [if e.Little? then LITTLE_CODE else BIG_CODE]
                       + versionText + extra + rest)
         == Ok(Header(8, e, version, size, Large8))
  {
    var code: Byte := if e.Little? then LITTLE_CODE else BIG_CODE;
    NewSlices(MAGIC, sizeText, PTR8_CODE, format, code, versionText, extra, rest);
    NewHeaderReads(MAGIC + sizeText + [PTR8_CODE] + format + [code] + versionText + extra + rest, size, e, version);
  }

  lemma NewHeaderReads(d: Data, size: nat, e: Endian, version: int)
    requires |d| >= size >= 17 && d[..7] == MAGIC
    requires AllDigits(Text(d[7..9])) && DigitsValue(Text(d[7..9])) == size
    requires AllDigits(Text(d[10..12])) && DigitsValue(Text(d[10..12])) == 1
    requires d[7] != PTR4_CODE && d[7] != PTR8_CODE && d[9] == PTR8_CODE
    requires d[12] == if e.Little? then LITTLE_CODE else BIG_CODE
    requires VersionOf(d[13..17]) == version
    ensures ReadHeader(d) == Ok(Header(8, e, version, size, Large8))
  {
  }

  lemma NewSlices(magic: Data, size: Data, ptr: Byte, format: Data, endian: Byte, version: Data, extra: Data, rest: Data)
    requires |magic| == 7 && |size| == 2 && |format| == 2 && |version| == 4
    ensures var d := magic + size + [ptr] + format + [endian] + version + extra + rest;
      && |d| >= 17 + |extra| && d[..7] == magic && d[7..9] == size && d[9] == ptr && d[10..12] == format && d[12] == endian
      && d[13..17] == version && d[7] == size[0]
  {
  }

  /** Written numbers read back. */
  lemma {:induction false} NumbersRoundTrip(values: seq<nat>, widths: seq<nat>, e: Endian)
    requires |values| == |widths| && forall i :: 0 <= i < |values| ==> values[i] < Pow256(widths[i])
    ensures |PrintedNumbers(values, widths, e)| == Total(widths)
    ensures Numbers(PrintedNumbers(values, widths, e), widths, e) == values
  {
    if values != [] {
      NumbersRoundTrip(values[1..], widths[1..], e);
      DecodeEncoded(values[0], widths[0], e);
      var d := PrintedNumbers(values, widths, e);
      assert d[..widths[0]] == Encoded(values[0], widths[0], e);
      assert d[widths[0]..] == PrintedNumbers(values[1..], widths[1..], e);
    }
  }

  lemma SignedUnsigned(v: int, k: nat)
    requires FitsSigned(v, k)
    ensures Unsigned(v, k) < Pow256(k) && Signed(Unsigned(v, k), k) == v
  {
  }

  /** What a written block header decodes to, in every layout and byte order. */
  lemma HeadReads(b: Block, h: Header)
    requires Storable(b, h)
    ensures HeadOf(b.code, Values(b, h), h) == Head(b.code, |b.data|, b.sdnaIndex, b.count, b.oldPtr)
    ensures forall i :: 0 <= i < 4 ==> Values(b, h)[i] < Pow256(Widths(h)[i])
  {
    if h.layout.Large8? {
      SignedUnsigned(|b.data|, 8);
      SignedUnsigned(b.count, 8);
    }
  }

  lemma HeadLength(b: Block, h: Header)
    requires Storable(b, h)
    ensures |PrintedHead(b, h)| == BlockHeaderSize(h)
  {
    HeadReads(b, h);
    WidthsTotal(h);
    NumbersRoundTrip(Values(b, h), Widths(h), h.endian);
  }

  lemma BlockReads(data: Data, offset: nat, b: Block, h: Header)
    requires Storable(b, h)
    requires At(data, offset, PrintedHead(b, h)) && At(data, offset + BlockHeaderSize(h), b.data)
    ensures BlockAt(data, offset, h) == Ok(b)
  {
    HeadReads(b, h);
    HeadLength(b, h);
    WidthsTotal(h);
    var numbers := PrintedNumbers(Values(b, h), Widths(h), h.endian);
    NumbersRoundTrip(Values(b, h), Widths(h), h.endian);
    AtSplit(data, offset, b.code, numbers);
    AtIsSlice(data, offset, b.code);
    AtIsSlice(data, offset + 4, numbers);
    AtIsSlice(data, offset + BlockHeaderSize(h), b.data);
    hide PrintedNumbers, Values, At;
    assert data[offset + 4..offset + BlockHeaderSize(h)] == numbers;
  }

  lemma StreamEnds(data: Data, offset: nat, h: Header)
    requires At(data, offset, ENDB)
    ensures BlockAt(data, offset, h).Err?
  {
    AtIsSlice(data, offset, ENDB);
    assert data[offset..offset + 4] == ENDB;
  }

  /** The reader yields exactly these blocks, one after the other, and then stops. */
  ghost predicate Yields(read: Reader, headerSize: nat, offset: nat, blocks: seq<Block>)
    decreases |blocks|
  {
    if blocks == [] then read(offset).Err?
    else read(offset) == Ok(blocks[0]) && Yields(read, headerSize, offset + headerSize + |blocks[0].data|, blocks[1..])
  }

  lemma {:induction false} StreamIs(read: Reader, headerSize: nat, limit: nat, offset: nat, blocks: seq<Block>)
    requires headerSize >= 1 && InBounds(read, headerSize, limit) && Yields(read, headerSize, offset, blocks)
    ensures Stream(read, headerSize, limit, offset) == blocks
    decreases |blocks|
  {
    if blocks != [] {
      StreamIs(read, headerSize, limit, offset + headerSize + |blocks[0].data|, blocks[1..]);
    }
  }

  lemma {:induction false} BlocksRead(data: Data, offset: nat, blocks: seq<Block>, h: Header, trailer: Data)
    requires forall b :: b in blocks ==> Storable(b, h)
    requires At(data, offset, PrintedBlocks(blocks, h) + (ENDB + trailer))
    ensures Yields(BlockReader(data, h), BlockHeaderSize(h), offset, blocks)
    decreases |blocks|
  {
    var end := ENDB + trailer;
    if blocks == [] {
      assert PrintedBlocks(blocks, h) + end == end;
      AtSplit(data, offset, ENDB, trailer);
      StreamEnds(data, offset, h);
    } else {
      BlockPieces(data, offset, blocks, h, end);
      BlockReads(data, offset, blocks[0], h);
      BlocksRead(data, offset + BlockHeaderSize(h) + |blocks[0].data|, blocks[1..], h, trailer);
    }
  }

  lemma BlockPieces(data: Data, offset: nat, blocks: seq<Block>, h: Header, end: Data)
    requires blocks != [] && forall b :: b in blocks ==> Storable(b, h)
    requires At(data, offset, PrintedBlocks(blocks, h) + end)
    ensures At(data, offset, PrintedHead(blocks[0], h)) && At(data, offset + BlockHeaderSize(h), blocks[0].data)
    ensures At(data, offset + BlockHeaderSize(h) + |blocks[0].data|, PrintedBlocks(blocks[1..], h) + end)
  {
    HeadLength(blocks[0], h);
    AtThree(data, offset, PrintedHead(blocks[0], h), blocks[0].data, PrintedBlocks(blocks[1..], h), end);
  }

  lemma BodyFollows(header: Data, body: Data)
    ensures At(header + body, |header|, body)
  {
    AtIsSlice(header + body, |header|, body);
  }

  /** Header and block stream round-trip: whatever header variant, layout and byte order, any storable blocks and any
      bytes after ENDB, reading the written file gives back the header and exactly the blocks. */
  lemma FileRoundTrip(m: HeaderModel, blocks: seq<Block>, trailer: Data)
    requires m.Writable() && forall b :: b in blocks ==> Storable(b, m.Meaning())
    ensures var data := PrintedFile(m, blocks, trailer);
      && ReadHeader(data) == Ok(m.Meaning())
      && Blocks(data, m.Meaning()) == blocks
  {
    var h := m.Meaning();
    var data := PrintedFile(m, blocks, trailer);
    var body := PrintedBlocks(blocks, h) + (ENDB + trailer);
    HeaderRoundTrip(m, body);
    BodyFollows(PrintedHeader(m), body);
    BlocksRead(data, h.size, blocks, h, trailer);
    StreamIs(BlockReader(data, h), BlockHeaderSize(h), |data|, h.size, blocks);
  }
}
