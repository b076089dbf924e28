/** The DNA1 block: the file's own table of struct layouts. */
module SdnaTable {
  import opened Bytes

  datatype Struct = Struct(typeIndex: nat, fields: seq<(nat, nat)>)

  /** Field names, type names, type lengths, structs, and for every struct type name the last struct of that type. */
  datatype Sdna = Sdna(names: seq<string>, types: seq<string>, lens: seq<nat>, structs: seq<Struct>, byName: map<string, nat>)

  type Parsed<+T> = Result<(T, nat)>

  const SDNA: Data := [83, 68, 78, 65]
  const NAME: Data := [78, 65, 77, 69]
  const TYPE: Data := [84, 89, 80, 69]
  const TLEN: Data := [84, 76, 69, 78]
  const STRC: Data := [83, 84, 82, 67]

  // ---------------------------------------------------------------------------
  // Reading
  // ---------------------------------------------------------------------------

  function Align(p: nat): (r: nat)
    ensures r >= p
  {
    if p % 4 == 0 then p else p + (4 - p % 4)
  }

  /** The position after a four-byte identifier. */
  function Tagged(buf: Data, pos: nat, tag: Data): Result<nat> {
    if Slice(buf, pos, pos + 4) == tag then Ok(pos + 4) else Err(BlendParseError)
  }

  /** buf.index(b"\x00", pos). */
  function NulFrom(buf: Data, pos: nat): (r: Result<nat>)
    ensures r.Ok? ==> pos <= r.value < |buf|
    decreases |buf| - pos
  {
    if pos >= |buf| then Err(ValueError) else if buf[pos] == 0 then Ok(pos) else NulFrom(buf, pos + 1)
  }

  /** How one element is read at a position. */
  type Reader<!T> = nat -> Parsed<T>

  /** Elements already read, in front of what is read next. */
  function Prefixed<T>(done: seq<T>, next: Parsed<seq<T>>): Parsed<seq<T>> {
    match next case Err(e) => Err(e) case Ok((more, pos)) => Ok((done + more, pos))
  }

  /** n elements, one after the other. */
  function Many<T>(read: Reader<T>, pos: nat, n: nat): Parsed<seq<T>>
    decreases n
  {
    if n == 0 then Ok(([], pos))
    else
      var (x, end) :- read(pos);
      Prefixed([x], Many(read, end, n - 1))
  }

  function OneString(buf: Data, pos: nat): Parsed<string> {
    var end :- NulFrom(buf, pos);
    Ok((Text(buf[pos..end]), end + 1))
  }

  function OneShort(buf: Data, pos: nat, e: Endian): Parsed<nat> {
    var v :- Unpack(buf, pos, 2, e);
    Ok((v, pos + 2))
  }

  function OnePair(buf: Data, pos: nat, e: Endian): Parsed<(nat, nat)> {
    var t :- Unpack(buf, pos, 2, e);
    var f :- Unpack(buf, pos + 2, 2, e);
    Ok(((t, f), pos + 4))
  }

  function StringReader(buf: Data): (read: Reader<string>)
    ensures forall p: nat :: read(p) == OneString(buf, p)
  {
    (p: nat) => OneString(buf, p)
  }

  function ShortReader(buf: Data, e: Endian): (read: Reader<nat>)
    ensures forall p: nat :: read(p) == OneShort(buf, p, e)
  {
    (p: nat) => OneShort(buf, p, e)
  }

  function PairReader(buf: Data, e: Endian): (read: Reader<(nat, nat)>)
    ensures forall p: nat :: read(p) == OnePair(buf, p, e)
  {
    (p: nat) => OnePair(buf, p, e)
  }

  /** One struct; its type must be among the `types` type names. */
  function OneStruct(buf: Data, pos: nat, types: nat, e: Endian): Parsed<Struct> {
    var t :- Unpack(buf, pos, 2, e);
    var n :- Unpack(buf, pos + 2, 2, e);
    var (fields, end) :- Many(PairReader(buf, e), pos + 4, n);
    if t >= types then Err(IndexError) else Ok((Struct(t, fields), end))
  }

  function StructReader(buf: Data, types: nat, e: Endian): (read: Reader<Struct>)
    ensures forall p: nat :: read(p) == OneStruct(buf, p, types, e)
  {
    (p: nat) => OneStruct(buf, p, types, e)
  }

  /** struct_by_name after the first n structs: later structs of a type replace earlier ones. */
  function ByName(structs: seq<Struct>, types: seq<string>, n: nat): map<string, nat>
    requires n <= |structs| && InRange(structs, |types|)
  {
    if n == 0 then map[] else ByName(structs, types, n - 1)[types[structs[n - 1].typeIndex] := n - 1]
  }

  predicate InRange(structs: seq<Struct>, types: nat) {
    forall i :: 0 <= i < |structs| ==> structs[i].typeIndex < types
  }

  /** A reader that checks its struct types against the type names. */
  ghost predicate Checked(read: Reader<Struct>, types: nat) {
    forall p: nat :: read(p).Ok? ==> read(p).value.0.typeIndex < types
  }

  lemma {:induction false} ManyInRange(read: Reader<Struct>, pos: nat, n: nat, types: nat)
    requires Checked(read, types)
    ensures Many(read, pos, n).Ok? ==> InRange(Many(read, pos, n).value.0, types)
    decreases n
  {
    if n > 0 && read(pos).Ok? { ManyInRange(read, read(pos).value.1, n - 1, types); }
  }

  /** How the elements of the four kinds of section are read. */
  datatype Readers = Readers(strings: Reader<string>, shorts: Reader<nat>, structs: nat -> Reader<Struct>)

  ghost predicate AllChecked(r: Readers) {
    forall types: nat :: Checked(r.structs(types), types)
  }

  /** An identifier, a count, that many strings, padding. */
  function NameSection(buf: Data, pos: nat, tag: Data, e: Endian, read: Reader<string>): Parsed<seq<string>> {
    var p :- Tagged(buf, pos, tag);
    var n :- Unpack(buf, p, 4, e);
    var (names, end) :- Many(read, p + 4, n);
    Ok((names, Align(end)))
  }

  function LengthSection(buf: Data, pos: nat, n: nat, read: Reader<nat>): Parsed<seq<nat>> {
    var p :- Tagged(buf, pos, TLEN);
    var (lens, end) :- Many(read, p, n);
    Ok((lens, Align(end)))
  }

  function StructSection(buf: Data, pos: nat, e: Endian, read: Reader<Struct>): Parsed<seq<Struct>> {
    var p :- Tagged(buf, pos, STRC);
    var n :- Unpack(buf, p, 4, e);
    Many(read, p + 4, n)
  }

  lemma StructSectionInRange(buf: Data, pos: nat, e: Endian, read: Reader<Struct>, types: nat)
    requires Checked(read, types)
    ensures StructSection(buf, pos, e, read).Ok? ==> InRange(StructSection(buf, pos, e, read).value.0, types)
  {
    var p := Tagged(buf, pos, STRC);
    if p.Ok? && Unpack(buf, p.value, 4, e).Ok? {
      ManyInRange(read, p.value + 4, Unpack(buf, p.value, 4, e).value, types);
    }
  }

  /** The sections of the table, over the way their elements are read. */
  function SdnaWith(buf: Data, e: Endian, r: Readers): Result<Sdna>
    requires AllChecked(r)
  {
    var p0 :- Tagged(buf, 0, SDNA);
    var (names, p1) :- NameSection(buf, p0, NAME, e, r.strings);
    var (types, p2) :- NameSection(buf, p1, TYPE, e, r.strings);
    var (lens, p3) :- LengthSection(buf, p2, |types|, r.shorts);
    var (structs, _) :- StructSection(buf, p3, e, r.structs(|types|));
    assert Checked(r.structs(|types|), |types|);
    StructSectionInRange(buf, p3, e, r.structs(|types|), |types|);
    Ok(Sdna(names, types, lens, structs, ByName(structs, types, |structs|)))
  }

  function ReadersOf(buf: Data, e: Endian): (r: Readers)
    ensures AllChecked(r)
  {
    var r := Readers(StringReader(buf), ShortReader(buf, e), (types: nat) => StructReader(buf, types, e));
    assert forall types: nat :: Checked(r.structs(types), types) by {
      forall types: nat ensures Checked(r.structs(types), types) {
        assert r.structs(types) == StructReader(buf, types, e);
      }
    }
    r
  }

  /** _parse_sdna. */
  function ParseSdna(buf: Data, e: Endian): Result<Sdna> {
    SdnaWith(buf, e, ReadersOf(buf, e))
  }

  // ---------------------------------------------------------------------------
  // The same, with the loops of the source
  // ---------------------------------------------------------------------------

  lemma PrefixedAssoc<T>(a: seq<T>, b: seq<T>, r: Parsed<seq<T>>)
    ensures Prefixed(a, Prefixed(b, r)) == Prefixed(a + b, r)
  {
    if r.Ok? { assert a + (b + r.value.0) == a + b + r.value.0; }
  }

  lemma PrefixedNothing<T>(r: Parsed<seq<T>>)
    ensures Prefixed([], r) == r
  {
    if r.Ok? { assert [] + r.value.0 == r.value.0; }
  }

  /** The loop that fills a list with n elements. */
  method ReadMany<T>(read: Reader<T>, start: nat, n: nat) returns (r: Parsed<seq<T>>)
    ensures r == Many(read, start, n)
  {
    var items: seq<T>, pos: nat := [], start;
    PrefixedNothing(Many(read, start, n));
    for i := 0 to n
      invariant Prefixed(items, Many(read, pos, n - i)) == Many(read, start, n)
    {
      var x := read(pos);
      if x.Err? { return Err(x.error); }
      PrefixedAssoc(items, [x.value.0], Many(read, x.value.1, n - i - 1));
      items := items + [x.value.0];
      pos := x.value.1;
    }
    assert items + [] == items;
    return Ok((items, pos));
  }

  /** The struct loop, filling the list and the name table together. */
  method ReadStructs(read: Reader<Struct>, start: nat, n: nat, types: seq<string>)
    returns (r: Parsed<seq<Struct>>, byName: map<string, nat>)
    requires Checked(read, |types|)
    ensures r == Many(read, start, n)
    ensures r.Ok? ==> InRange(r.value.0, |types|)
    ensures r.Ok? ==> byName == ByName(r.value.0, types, |r.value.0|)
  {
    var structs: seq<Struct>, pos: nat := [], start;
    byName := map[];
    PrefixedNothing(Many(read, start, n));
    for i := 0 to n
      invariant Prefixed(structs, Many(read, pos, n - i)) == Many(read, start, n)
      invariant |structs| == i && InRange(structs, |types|)
      invariant byName == ByName(structs, types, i)
    {
      var s := read(pos);
      if s.Err? { return Err(s.error), byName; }
      PrefixedAssoc(structs, [s.value.0], Many(read, s.value.1, n - i - 1));
      ByNamePrefix(structs, structs + [s.value.0], types, i);
      structs := structs + [s.value.0];
      pos := s.value.1;
      byName := byName[types[s.value.0.typeIndex] := i];
    }
    assert structs + [] == structs;
    return Ok((structs, pos)), byName;
  }

  lemma {:induction false} ByNamePrefix(a: seq<Struct>, b: seq<Struct>, types: seq<string>, n: nat)
    requires n <= |a| <= |b| && a == b[..|a|] && InRange(a, |types|) && InRange(b, |types|)
    ensures ByName(a, types, n) == ByName(b, types, n)
  {
    if n > 0 { ByNamePrefix(a, b, types, n - 1); }
  }

  method ReadNameSection(buf: Data, start: nat, tag: Data, e: Endian, read: Reader<string>) returns (r: Parsed<seq<string>>)
    ensures r == NameSection(buf, start, tag, e, read)
  {
    var p := Tagged(buf, start, tag);
    if p.Err? { return Err(p.error); }
    var n := Unpack(buf, p.value, 4, e);
    if n.Err? { return Err(n.error); }
    var names := ReadMany(read, p.value + 4, n.value);
    if names.Err? { return Err(names.error); }
    return Ok((names.value.0, Align(names.value.1)));
  }

  method ReadLengthSection(buf: Data, start: nat, n: nat, read: Reader<nat>) returns (r: Parsed<seq<nat>>)
    ensures r == LengthSection(buf, start, n, read)
  {
    var p := Tagged(buf, start, TLEN);
    if p.Err? { return Err(p.error); }
    var lens := ReadMany(read, p.value, n);
    if lens.Err? { return Err(lens.error); }
    return Ok((lens.value.0, Align(lens.value.1)));
  }

  method ReadStructSection(buf: Data, start: nat, e: Endian, types: seq<string>, read: Reader<Struct>)
    returns (r: Parsed<seq<Struct>>, byName: map<string, nat>)
    requires Checked(read, |types|)
    ensures r == StructSection(buf, start, e, read)
    ensures r.Ok? ==> InRange(r.value.0, |types|)
    ensures r.Ok? ==> byName == ByName(r.value.0, types, |r.value.0|)
  {
    var p := Tagged(buf, start, STRC);
    if p.Err? { return Err(p.error), map[]; }
    var n := Unpack(buf, p.value, 4, e);
    if n.Err? { return Err(n.error), map[]; }
    r, byName := ReadStructs(read, p.value + 4, n.value, types);
  }

  method ReadSdna(buf: Data, e: Endian) returns (r: Result<Sdna>)
    ensures r == ParseSdna(buf, e)
  {
    r := ReadSdnaWith(buf, e, ReadersOf(buf, e));
  }

  method ReadSdnaWith(buf: Data, e: Endian, readers: Readers) returns (r: Result<Sdna>)
    requires AllChecked(readers)
    ensures r == SdnaWith(buf, e, readers)
  {
    var pos := Tagged(buf, 0, SDNA);
    if pos.Err? { return Err(pos.error); }
    var names := ReadNameSection(buf, pos.value, NAME, e, readers.strings);
    if names.Err? { return Err(names.error); }
    var types := ReadNameSection(buf, names.value.1, TYPE, e, readers.strings);
    if types.Err? { return Err(types.error); }
    var lens := ReadLengthSection(buf, types.value.1, |types.value.0|, readers.shorts);
    if lens.Err? { return Err(lens.error); }
    assert Checked(readers.structs(|types.value.0|), |types.value.0|);
    var structs, byName := ReadStructSection(buf, lens.value.1, e, types.value.0, readers.structs(|types.value.0|));
    if structs.Err? { return Err(structs.error); }
    return Ok(Sdna(names.value.0, types.value.0, lens.value.0, structs.value.0, byName));
  }

  // ---------------------------------------------------------------------------
  // Writing
  // ---------------------------------------------------------------------------

  predicate IsName(s: string) { IsAscii(s) && forall i :: 0 <= i < |s| ==> s[i] as int != 0 }

  predicate Writable(s: Sdna) {
    && |s.names| < Pow256(4) && |s.types| < Pow256(4) && |s.structs| < Pow256(4)
    && (forall i :: 0 <= i < |s.names| ==> IsName(s.names[i]))
    && (forall i :: 0 <= i < |s.types| ==> IsName(s.types[i]))
    && |s.lens| == |s.types| && (forall i :: 0 <= i < |s.lens| ==> s.lens[i] < Pow256(2))
    && (forall i :: 0 <= i < |s.structs| ==> WritableStruct(s.structs[i], |s.types|))
    && InRange(s.structs, |s.types|) && s.byName == ByName(s.structs, s.types, |s.structs|)
  }

  predicate WritableStruct(s: Struct, types: nat) {
    && s.typeIndex < types && s.typeIndex < Pow256(2) && |s.fields| < Pow256(2)
    && forall k :: 0 <= k < |s.fields| ==> s.fields[k].0 < Pow256(2) && s.fields[k].1 < Pow256(2)
  }

  function Zeros(n: nat): (z: Data)
    ensures |z| == n
  {
    seq(n, _ => 0)
  }

  function Padding(n: nat): (z: Data)
    ensures |z| == Align(n) - n
  {
    Zeros(Align(n) - n)
  }

  /** Elements written one after the other. */
  function PrintedAll<T>(xs: seq<T>, print_: T -> Data): Data {
    if xs == [] then [] else print_(xs[0]) + PrintedAll(xs[1..], print_)
  }

  function PrintedName(s: string): Data {
    (if IsAscii(s) then Ascii(s) else []) + [0]
  }

  function PrintedShort(n: nat, e: Endian): Data {
    Encoded(n, 2, e)
  }

  function PrintedPair(p: (nat, nat), e: Endian): Data {
    Encoded(p.0, 2, e) + Encoded(p.1, 2, e)
  }

  function PrintedPairs(ps: seq<(nat, nat)>, e: Endian): Data {
    PrintedAll(ps, p => PrintedPair(p, e))
  }

  function PrintedStruct(s: Struct, e: Endian): Data {
    PrintedPair((s.typeIndex, |s.fields|), e) + PrintedPairs(s.fields, e)
  }

  function PrintedNames(tag: Data, names: seq<string>, e: Endian): Data {
    var body := PrintedAll(names, PrintedName);
    tag + (Encoded(|names|, 4, e) + (body + Padding(|body|)))
  }

  function PrintedLengths(lens: seq<nat>, e: Endian): Data {
    var body := PrintedAll(lens, n => PrintedShort(n, e));
    TLEN + (body + Padding(|body|))
  }

  function PrintedStructSection(ss: seq<Struct>, e: Endian): Data {
    STRC + (Encoded(|ss|, 4, e) + PrintedAll(ss, s => PrintedStruct(s, e)))
  }

  function PrintedSdna(s: Sdna, e: Endian): Data
    requires Writable(s)
  {
    SDNA + (PrintedNames(NAME, s.names, e) + (PrintedNames(TYPE, s.types, e) + (PrintedLengths(s.lens, e)
    + PrintedStructSection(s.structs, e))))
  }

  // ---------------------------------------------------------------------------
  // Round trip
  // ---------------------------------------------------------------------------

  lemma {:induction false} NulReads(buf: Data, pos: nat, s: string)
    requires IsName(s) && At(buf, pos, Ascii(s) + [0])
    ensures NulFrom(buf, pos) == Ok(pos + |s|)
    decreases |s|
  {
    if s != [] {
      assert (Ascii(s) + [0])[1..] == Ascii(s[1..]) + [0];
      NulReads(buf, pos + 1, s[1..]);
    } else {
      assert (Ascii(s) + [0]) == [0];
    }
  }

  /** Wherever one of these elements stands written, reading gives it back and stops right after it. */
  ghost predicate ReadsBack<T>(buf: Data, read: Reader<T>, print_: T -> Data, xs: seq<T>) {
    forall p: nat, i :: 0 <= i < |xs| && At(buf, p, print_(xs[i])) ==> read(p) == Ok((xs[i], p + |print_(xs[i])|))
  }

  /** Lists of elements that read back read back. */
  lemma {:induction false} ManyReadBack<T>(buf: Data, pos: nat, read: Reader<T>, print_: T -> Data, xs: seq<T>)
    requires ReadsBack(buf, read, print_, xs) && At(buf, pos, PrintedAll(xs, print_))
    ensures Many(read, pos, |xs|) == Ok((xs, pos + |PrintedAll(xs, print_)|))
    decreases |xs|
  {
    if xs != [] {
      AtSplit(buf, pos, print_(xs[0]), PrintedAll(xs[1..], print_));
      forall p: nat, i | 0 <= i < |xs[1..]| && At(buf, p, print_(xs[1..][i]))
        ensures read(p) == Ok((xs[1..][i], p + |print_(xs[1..][i])|))
      {
        assert xs[1..][i] == xs[i + 1];
      }
      ManyReadBack(buf, pos + |print_(xs[0])|, read, print_, xs[1..]);
      assert [xs[0]] + xs[1..] == xs;
    }
  }

  lemma TextAt(buf: Data, pos: nat, s: string)
    requires IsAscii(s) && At(buf, pos, Ascii(s))
    ensures pos + |s| <= |buf| && Text(buf[pos..pos + |s|]) == s
  {
    AtIsSlice(buf, pos, Ascii(s));
    TextOfAscii(s);
  }

  lemma NameReadsBack(buf: Data, pos: nat, s: string)
    requires IsName(s) && At(buf, pos, PrintedName(s))
    ensures OneString(buf, pos) == Ok((s, pos + |PrintedName(s)|))
  {
    NulReads(buf, pos, s);
    AtSplit(buf, pos, Ascii(s), [0]);
    TextAt(buf, pos, s);
  }

  lemma NamesReadBack(buf: Data, names: seq<string>)
    requires forall i :: 0 <= i < |names| ==> IsName(names[i])
    ensures ReadsBack(buf, StringReader(buf), PrintedName, names)
  {
    forall p: nat, i | 0 <= i < |names| && At(buf, p, PrintedName(names[i]))
      ensures StringReader(buf)(p) == Ok((names[i], p + |PrintedName(names[i])|))
    {
      NameReadsBack(buf, p, names[i]);
    }
  }

  lemma ShortsReadBack(buf: Data, ns: seq<nat>, e: Endian)
    requires forall i :: 0 <= i < |ns| ==> ns[i] < Pow256(2)
    ensures ReadsBack(buf, ShortReader(buf, e), n => PrintedShort(n, e), ns)
  {
    forall p: nat, i | 0 <= i < |ns| && At(buf, p, PrintedShort(ns[i], e))
      ensures ShortReader(buf, e)(p) == Ok((ns[i], p + |PrintedShort(ns[i], e)|))
    {
      UnpackAt(buf, p, ns[i], 2, e);
    }
  }

  lemma PairReadsBack(buf: Data, pos: nat, p: (nat, nat), e: Endian)
    requires p.0 < Pow256(2) && p.1 < Pow256(2) && At(buf, pos, PrintedPair(p, e))
    ensures OnePair(buf, pos, e) == Ok((p, pos + 4)) && |PrintedPair(p, e)| == 4
  {
    AtSplit(buf, pos, Encoded(p.0, 2, e), Encoded(p.1, 2, e));
    UnpackAt(buf, pos, p.0, 2, e);
    UnpackAt(buf, pos + 2, p.1, 2, e);
  }

  lemma PairsReadBack(buf: Data, ps: seq<(nat, nat)>, e: Endian)
    requires forall i :: 0 <= i < |ps| ==> ps[i].0 < Pow256(2) && ps[i].1 < Pow256(2)
    ensures ReadsBack(buf, PairReader(buf, e), p => PrintedPair(p, e), ps)
  {
    forall pos: nat, i | 0 <= i < |ps| && At(buf, pos, PrintedPair(ps[i], e))
      ensures PairReader(buf, e)(pos) == Ok((ps[i], pos + |PrintedPair(ps[i], e)|))
    {
      PairReadsBack(buf, pos, ps[i], e);
    }
  }

  lemma StructReadsBack(buf: Data, pos: nat, s: Struct, types: nat, e: Endian)
    requires WritableStruct(s, types) && At(buf, pos, PrintedStruct(s, e))
    ensures OneStruct(buf, pos, types, e) == Ok((s, pos + |PrintedStruct(s, e)|))
  {
    hide At, Encoded, PrintedAll, ReadsBack, Many, Pow256;
    var head := PrintedPair((s.typeIndex, |s.fields|), e);
    AtSplit(buf, pos, head, PrintedPairs(s.fields, e));
    PairReadsBack(buf, pos, (s.typeIndex, |s.fields|), e);
    PairsReadBack(buf, s.fields, e);
    ManyReadBack(buf, pos + 4, PairReader(buf, e), p => PrintedPair(p, e), s.fields);
  }

  lemma StructsReadBack(buf: Data, ss: seq<Struct>, types: nat, e: Endian)
    requires forall i :: 0 <= i < |ss| ==> WritableStruct(ss[i], types)
    ensures ReadsBack(buf, StructReader(buf, types, e), s => PrintedStruct(s, e), ss)
  {
    hide PrintedStruct, OneStruct, At, WritableStruct;
    forall p: nat, i | 0 <= i < |ss| && At(buf, p, PrintedStruct(ss[i], e))
      ensures StructReader(buf, types, e)(p) == Ok((ss[i], p + |PrintedStruct(ss[i], e)|))
    {
      StructReadsBack(buf, p, ss[i], types, e);
    }
  }

  lemma AlignShift(p: nat, n: nat)
    requires p % 4 == 0
    ensures Align(p + n) == p + Align(n) && (p + Align(n)) % 4 == 0
  {
  }

  lemma SectionAt(buf: Data, pos: nat, tag: Data, n: Data, body: Data, pad: Data)
    requires |tag| == 4 && |n| == 4 && At(buf, pos, tag + (n + (body + pad)))
    ensures Tagged(buf, pos, tag) == Ok(pos + 4) && At(buf, pos + 4, n) && At(buf, pos + 8, body)
  {
    AtSplit(buf, pos, tag, n + (body + pad));
    SliceAt(buf, pos, tag);
    AtSplit(buf, pos + 4, n, body + pad);
    AtSplit(buf, pos + 8, body, pad);
  }

  lemma NamesRead(buf: Data, pos: nat, tag: Data, names: seq<string>, e: Endian, read: Reader<string>)
    requires |tag| == 4 && |names| < Pow256(4) && ReadsBack(buf, read, PrintedName, names)
    requires pos % 4 == 0 && At(buf, pos, PrintedNames(tag, names, e))
    ensures NameSection(buf, pos, tag, e, read) == Ok((names, pos + |PrintedNames(tag, names, e)|))
    ensures (pos + |PrintedNames(tag, names, e)|) % 4 == 0
  {
    var body := PrintedAll(names, PrintedName);
    SectionAt(buf, pos, tag, Encoded(|names|, 4, e), body, Padding(|body|));
    UnpackAt(buf, pos + 4, |names|, 4, e);
    ManyReadBack(buf, pos + 8, read, PrintedName, names);
    AlignShift(pos + 8, |body|);
  }

  lemma LengthsRead(buf: Data, pos: nat, lens: seq<nat>, e: Endian, read: Reader<nat>)
    requires ReadsBack(buf, read, n => PrintedShort(n, e), lens)
    requires pos % 4 == 0 && At(buf, pos, PrintedLengths(lens, e))
    ensures LengthSection(buf, pos, |lens|, read) == Ok((lens, pos + |PrintedLengths(lens, e)|))
  {
    var body := PrintedAll(lens, n => PrintedShort(n, e));
    AtSplit(buf, pos, TLEN, body + Padding(|body|));
    SliceAt(buf, pos, TLEN);
    AtSplit(buf, pos + 4, body, Padding(|body|));
    ManyReadBack(buf, pos + 4, read, n => PrintedShort(n, e), lens);
    AlignShift(pos + 4, |body|);
  }

  lemma StructSectionReads(buf: Data, pos: nat, ss: seq<Struct>, e: Endian, read: Reader<Struct>)
    requires |ss| < Pow256(4) && ReadsBack(buf, read, s => PrintedStruct(s, e), ss)
    requires At(buf, pos, PrintedStructSection(ss, e))
    ensures StructSection(buf, pos, e, read).Ok? && StructSection(buf, pos, e, read).value.0 == ss
  {
    var n, body := Encoded(|ss|, 4, e), PrintedAll(ss, s => PrintedStruct(s, e));
    AtSplit(buf, pos, STRC, n + body);
    SliceAt(buf, pos, STRC);
    AtSplit(buf, pos + 4, n, body);
    UnpackAt(buf, pos + 4, |ss|, 4, e);
    ManyReadBack(buf, pos + 8, read, s => PrintedStruct(s, e), ss);
  }

  lemma SectionsAt(buf: Data, a: Data, b: Data, c: Data, d: Data, f: Data)
    requires At(buf, 0, a + (b + (c + (d + f))))
    ensures At(buf, 0, a) && At(buf, |a|, b) && At(buf, |a| + |b|, c) && At(buf, |a| + |b| + |c|, d)
      && At(buf, |a| + |b| + |c| + |d|, f)
  {
    AtSplit(buf, 0, a, b + (c + (d + f)));
    AtSplit(buf, |a|, b, c + (d + f));
    AtSplit(buf, |a| + |b|, c, d + f);
    AtSplit(buf, |a| + |b| + |c|, d, f);
  }

  /** Every element of the table reads back wherever it stands in buf. */
  ghost predicate ElementsReadBack(buf: Data, s: Sdna, e: Endian, r: Readers) {
    && ReadsBack(buf, r.strings, PrintedName, s.names)
    && ReadsBack(buf, r.strings, PrintedName, s.types)
    && ReadsBack(buf, r.shorts, n => PrintedShort(n, e), s.lens)
    && ReadsBack(buf, r.structs(|s.types|), x => PrintedStruct(x, e), s.structs)
  }

  /** The five sections, read one after the other, are those of s. */
  ghost predicate Sections(buf: Data, e: Endian, r: Readers, s: Sdna, p1: nat, p2: nat, p3: nat) {
    && Tagged(buf, 0, SDNA) == Ok(4)
    && NameSection(buf, 4, NAME, e, r.strings) == Ok((s.names, p1))
    && NameSection(buf, p1, TYPE, e, r.strings) == Ok((s.types, p2))
    && LengthSection(buf, p2, |s.types|, r.shorts) == Ok((s.lens, p3))
    && StructSection(buf, p3, e, r.structs(|s.types|)).Ok?
    && StructSection(buf, p3, e, r.structs(|s.types|)).value.0 == s.structs
  }

  lemma SdnaFromSections(buf: Data, e: Endian, r: Readers, s: Sdna, p1: nat, p2: nat, p3: nat)
    requires AllChecked(r) && Sections(buf, e, r, s, p1, p2, p3)
    requires InRange(s.structs, |s.types|) && s.byName == ByName(s.structs, s.types, |s.structs|)
    ensures SdnaWith(buf, e, r) == Ok(s)
  {
  }

  lemma NameSectionsRead(buf: Data, s: Sdna, e: Endian, r: Readers, p1: nat, p2: nat)
    requires |s.names| < Pow256(4) && |s.types| < Pow256(4)
    requires ReadsBack(buf, r.strings, PrintedName, s.names) && ReadsBack(buf, r.strings, PrintedName, s.types)
    requires p1 == 4 + |PrintedNames(NAME, s.names, e)| && p2 == p1 + |PrintedNames(TYPE, s.types, e)|
    requires At(buf, 4, PrintedNames(NAME, s.names, e)) && At(buf, p1, PrintedNames(TYPE, s.types, e))
    ensures NameSection(buf, 4, NAME, e, r.strings) == Ok((s.names, p1))
    ensures NameSection(buf, p1, TYPE, e, r.strings) == Ok((s.types, p2)) && p2 % 4 == 0
  {
    hide PrintedNames, NameSection, ReadsBack, At;
    NamesRead(buf, 4, NAME, s.names, e, r.strings);
    NamesRead(buf, p1, TYPE, s.types, e, r.strings);
  }

  lemma SectionsRead(buf: Data, s: Sdna, e: Endian, r: Readers, p1: nat, p2: nat, p3: nat)
    requires |s.lens| == |s.types| && |s.structs| < Pow256(4)
    requires ReadsBack(buf, r.shorts, n => PrintedShort(n, e), s.lens)
    requires ReadsBack(buf, r.structs(|s.types|), x => PrintedStruct(x, e), s.structs)
    requires Tagged(buf, 0, SDNA) == Ok(4) && p2 % 4 == 0
    requires NameSection(buf, 4, NAME, e, r.strings) == Ok((s.names, p1))
    requires NameSection(buf, p1, TYPE, e, r.strings) == Ok((s.types, p2))
    requires p3 == p2 + |PrintedLengths(s.lens, e)|
    requires At(buf, p2, PrintedLengths(s.lens, e)) && At(buf, p3, PrintedStructSection(s.structs, e))
    ensures Sections(buf, e, r, s, p1, p2, p3)
  {
    hide PrintedNames, PrintedLengths, PrintedStructSection, PrintedStruct, NameSection, LengthSection, StructSection,
      ReadsBack, At;
    LengthsRead(buf, p2, s.lens, e, r.shorts);
    StructSectionReads(buf, p3, s.structs, e, r.structs(|s.types|));
  }

  lemma PrintedIsRead(buf: Data, s: Sdna, e: Endian, r: Readers)
    requires Writable(s) && AllChecked(r) && ElementsReadBack(buf, s, e, r) && At(buf, 0, PrintedSdna(s, e))
    ensures SdnaWith(buf, e, r) == Ok(s)
  {
    hide PrintedNames, PrintedLengths, PrintedStructSection, PrintedStruct, NameSection, LengthSection, StructSection,
      ReadsBack, At, InRange;
    var p1 := 4 + |PrintedNames(NAME, s.names, e)|;
    var p2 := p1 + |PrintedNames(TYPE, s.types, e)|;
    var p3 := p2 + |PrintedLengths(s.lens, e)|;
    SectionsAt(buf, SDNA, PrintedNames(NAME, s.names, e), PrintedNames(TYPE, s.types, e), PrintedLengths(s.lens, e),
               PrintedStructSection(s.structs, e));
    SliceAt(buf, 0, SDNA);
    NameSectionsRead(buf, s, e, r, p1, p2);
    SectionsRead(buf, s, e, r, p1, p2, p3);
    SdnaFromSections(buf, e, r, s, p1, p2, p3);
  }

  lemma ReadersReadBack(buf: Data, s: Sdna, e: Endian)
    requires Writable(s)
    ensures ElementsReadBack(buf, s, e, ReadersOf(buf, e))
  {
    NamesReadBack(buf, s.names);
    NamesReadBack(buf, s.types);
    ShortsReadBack(buf, s.lens, e);
    StructsReadBack(buf, s.structs, |s.types|, e);
  }

  lemma WholeAt(d: Data, trailer: Data)
    ensures At(d + trailer, 0, d)
  {
    AtIsSlice(d + trailer, 0, d);
  }

  /** The table round-trips: any names, types, lengths and structs that fit their field widths are read back from the
      written block, in either byte order, padding and trailing bytes included. */
  lemma SdnaRoundTrip(s: Sdna, e: Endian, trailer: Data)
    requires Writable(s)
    ensures ParseSdna(PrintedSdna(s, e) + trailer, e) == Ok(s)
  {
    var buf := PrintedSdna(s, e) + trailer;
    WholeAt(PrintedSdna(s, e), trailer);
    ReadersReadBack(buf, s, e);
    PrintedIsRead(buf, s, e, ReadersOf(buf, e));
  }
}
