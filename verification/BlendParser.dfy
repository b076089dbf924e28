/** Reading the frame range of the active scene out of an uncompressed .blend file. */
module BlendParser {
  import opened Bytes
  import opened BlendFile
  import opened FieldLayout
  import opened Grid
  import opened RenderJobs
  import opened SdnaTable

  datatype FrameRange = FrameRange(start: int, end: int, step: Step, total: nat, version: int)

  /** Offset inside the enclosing struct, and the length of the field's type. */
  datatype Place = Place(offset: int, size: nat)

  /** Where the render settings lie in a scene, and the three numbers in the render settings. */
  datatype Fields = Fields(render: int, sfra: Place, efra: Place, step: Option<Place>)

  const DNA1: Data := [68, 78, 65, 49]
  const GLOB: Data := [71, 76, 79, 66]
  const SC: Data := [83, 67]

  // ---------------------------------------------------------------------------
  // What is read, as functions of the blocks
  // ---------------------------------------------------------------------------

  /** Every index the table holds is one of its own. */
  predicate Usable(s: Sdna) {
    InRange(s.structs, |s.types|) && forall name :: name in s.byName ==> s.byName[name] < |s.structs|
  }

  lemma {:induction false} ByNameInRange(structs: seq<Struct>, types: seq<string>, n: nat)
    requires n <= |structs| && InRange(structs, |types|)
    ensures forall name :: name in ByName(structs, types, n) ==> ByName(structs, types, n)[name] < n
  {
    if n > 0 { ByNameInRange(structs, types, n - 1); }
  }

  lemma ParsedIsUsable(buf: Data, e: Endian)
    ensures ParseSdna(buf, e).Ok? ==> Usable(ParseSdna(buf, e).value)
  {
    SdnaIsUsable(buf, e, ReadersOf(buf, e));
  }

  lemma SdnaIsUsable(buf: Data, e: Endian, r: Readers)
    requires AllChecked(r)
    ensures SdnaWith(buf, e, r).Ok? ==> Usable(SdnaWith(buf, e, r).value)
  {
    hide NameSection, LengthSection, StructSection;
    if SdnaWith(buf, e, r).Ok? {
      var s := SdnaWith(buf, e, r).value;
      var names := NameSection(buf, 4, NAME, e, r.strings).value;
      var types := NameSection(buf, names.1, TYPE, e, r.strings).value;
      var lens := LengthSection(buf, types.1, |types.0|, r.shorts).value;
      assert Checked(r.structs(|types.0|), |types.0|);
      StructSectionInRange(buf, lens.1, e, r.structs(|types.0|), |types.0|);
      ByNameInRange(s.structs, s.types, |s.structs|);
    }
  }

  function DnaOf(blocks: seq<Block>): Result<Data> {
    if blocks == [] then Err(BlendParseError)
    else if blocks[0].code == DNA1 then Ok(blocks[0].data)
    else DnaOf(blocks[1..])
  }

  function FieldIn(s: Sdna, index: nat, name: string, pointerSize: nat): Result<Option<(int, nat)>>
    requires index < |s.structs|
  {
    Locate(s, s.structs[index].fields, 0, name, pointerSize)
  }

  function PlaceOf(s: Sdna, field: (int, nat)): Result<Place> {
    if field.1 >= |s.lens| then Err(IndexError) else Ok(Place(field.0, s.lens[field.1]))
  }

  /** The struct of the scene's render settings, and where they lie in a scene. */
  function RenderStruct(s: Sdna, pointerSize: nat): (r: Result<(int, nat)>)
    requires Usable(s)
    ensures r.Ok? ==> r.value.1 < |s.structs|
  {
    if "Scene" !in s.byName then Err(BlendParseError)
    else
      var r :- FieldIn(s, s.byName["Scene"], "r", pointerSize);
      if r.None? then Err(BlendParseError)
      else if r.value.1 >= |s.types| then Err(IndexError)
      else if s.types[r.value.1] !in s.byName then Err(BlendParseError)
      else Ok((r.value.0, s.byName[s.types[r.value.1]]))
  }

  function FrameFields(s: Sdna, pointerSize: nat): Result<Fields>
    requires Usable(s)
  {
    var (render, rd) :- RenderStruct(s, pointerSize);
    var sfra :- FieldIn(s, rd, "sfra", pointerSize);
    var efra :- FieldIn(s, rd, "efra", pointerSize);
    var step :- FieldIn(s, rd, "frame_step", pointerSize);
    if sfra.None? || efra.None? then Err(BlendParseError)
    else
      var sfraPlace :- PlaceOf(s, sfra.value);
      var efraPlace :- PlaceOf(s, efra.value);
      if step.None? then Ok(Fields(render, sfraPlace, efraPlace, None))
      else
        var stepPlace :- PlaceOf(s, step.value);
        Ok(Fields(render, sfraPlace, efraPlace, Some(stepPlace)))
  }

  predicate HasStruct(s: Sdna, b: Block, name: string)
    requires Usable(s)
  {
    b.sdnaIndex < |s.structs| && s.types[s.structs[b.sdnaIndex].typeIndex] == name
  }

  /** The pointer in the first FileGlobal block that is long enough. */
  function PointerIn(s: Sdna, blocks: seq<Block>, offset: int, pointerSize: nat, e: Endian): Result<Option<nat>>
    requires Usable(s)
  {
    if blocks == [] then Ok(None)
    else if blocks[0].code == GLOB && HasStruct(s, blocks[0], "FileGlobal") && offset + pointerSize <= |blocks[0].data| then
      var p :- Unpack(blocks[0].data, offset, pointerSize, e);
      Ok(Some(p))
    else PointerIn(s, blocks[1..], offset, pointerSize, e)
  }

  /** FileGlobal.curscene, if the file has one. */
  function ActivePointer(s: Sdna, blocks: seq<Block>, pointerSize: nat, e: Endian): Result<Option<nat>>
    requires Usable(s)
  {
    if "FileGlobal" !in s.byName then Ok(None)
    else
      var field :- FieldIn(s, s.byName["FileGlobal"], "curscene", pointerSize);
      if field.None? then Ok(None) else PointerIn(s, blocks, field.value.0, pointerSize, e)
  }

  /** The width read for a type length: anything unexpected is read as four bytes. */
  function IntWidth(size: nat): nat {
    if size == 2 || size == 8 then size else 4
  }

  function ReadInt(data: Data, at: int, size: nat, e: Endian): Result<int> {
    var n :- Unpack(data, at, IntWidth(size), e);
    Ok(Signed(n, IntWidth(size)))
  }

  predicate Reaches(b: Block, start: int, p: Place) {
    start + p.offset + p.size <= |b.data|
  }

  function ReadStep(b: Block, f: Fields, e: Endian): Result<int> {
    if f.step.Some? && Reaches(b, f.render, f.step.value)
    then ReadInt(b.data, f.render + f.step.value.offset, f.step.value.size, e)
    else Ok(1)
  }

  /** The frame range of a block, None when it is not a scene or too short to hold one. */
  function ReadScene(s: Sdna, f: Fields, b: Block, e: Endian, version: int): Result<Option<FrameRange>>
    requires Usable(s)
  {
    if !(SC <= b.code) || !HasStruct(s, b, "Scene") then Ok(None)
    else if !Reaches(b, f.render, f.sfra) || !Reaches(b, f.render, f.efra) then Ok(None)
    else
      var start :- ReadInt(b.data, f.render + f.sfra.offset, f.sfra.size, e);
      var end :- ReadInt(b.data, f.render + f.efra.offset, f.efra.size, e);
      var stored :- ReadStep(b, f, e);
      var step := Max(1, stored);
      Ok(Some(FrameRange(start, end, step, Count(start, end, step), version)))
  }

  predicate IsActive(b: Block, active: Option<nat>) {
    active.Some? && active.value != 0 && b.oldPtr == active.value
  }

  /** The active scene's range, or the first one read. */
  function Picked(s: Sdna, f: Fields, blocks: seq<Block>, active: Option<nat>, e: Endian, version: int,
                  fallback: Option<FrameRange>): Result<FrameRange>
    requires Usable(s)
  {
    if blocks == [] then (if fallback.Some? then Ok(fallback.value) else Err(BlendParseError))
    else
      var r :- ReadScene(s, f, blocks[0], e, version);
      if r.Some? && IsActive(blocks[0], active) then Ok(r.value)
      else Picked(s, f, blocks[1..], active, e, version, if fallback.None? then r else fallback)
  }

  /** parse_blend_frame_range, after decompression. */
  function FrameRangeOf(data: Data): Result<FrameRange> {
    var h :- ReadHeader(data);
    var dna :- DnaOf(Blocks(data, h));
    var s :- ParseSdna(dna, h.endian);
    ParsedIsUsable(dna, h.endian);
    RangeIn(s, Blocks(data, h), h)
  }

  function RangeIn(s: Sdna, blocks: seq<Block>, h: Header): Result<FrameRange>
    requires Usable(s)
  {
    var f :- FrameFields(s, h.pointerSize);
    var active :- ActivePointer(s, blocks, h.pointerSize, h.endian);
    Picked(s, f, blocks, active, h.endian, h.version, None)
  }

  // ---------------------------------------------------------------------------
  // The same, with the loops of the source
  // ---------------------------------------------------------------------------

  method FindDna(blocks: seq<Block>) returns (r: Result<Data>)
    ensures r == DnaOf(blocks)
  {
    for i := 0 to |blocks|
      invariant DnaOf(blocks[i..]) == DnaOf(blocks)
    {
      assert blocks[i..][0] == blocks[i] && blocks[i..][1..] == blocks[i + 1..];
      if blocks[i].code == DNA1 { return Ok(blocks[i].data); }
    }
    return Err(BlendParseError);
  }

  method FindPointer(s: Sdna, blocks: seq<Block>, offset: int, pointerSize: nat, e: Endian) returns (r: Result<Option<nat>>)
    requires Usable(s)
    ensures r == PointerIn(s, blocks, offset, pointerSize, e)
  {
    for i := 0 to |blocks|
      invariant PointerIn(s, blocks[i..], offset, pointerSize, e) == PointerIn(s, blocks, offset, pointerSize, e)
    {
      assert blocks[i..][0] == blocks[i] && blocks[i..][1..] == blocks[i + 1..];
      if blocks[i].code != GLOB { continue; }
      if !HasStruct(s, blocks[i], "FileGlobal") { continue; }
      if offset + pointerSize > |blocks[i].data| { continue; }
      var p := Unpack(blocks[i].data, offset, pointerSize, e);
      if p.Err? { return Err(p.error); }
      return Ok(Some(p.value));
    }
    return Ok(None);
  }

  method PickScene(s: Sdna, f: Fields, blocks: seq<Block>, active: Option<nat>, e: Endian, version: int)
    returns (r: Result<FrameRange>)
    requires Usable(s)
    ensures r == Picked(s, f, blocks, active, e, version, None)
  {
    hide ReadScene, IsActive;
    var fallback: Option<FrameRange> := None;
    for i := 0 to |blocks|
      invariant Picked(s, f, blocks[i..], active, e, version, fallback) == Picked(s, f, blocks, active, e, version, None)
    {
      assert blocks[i..][0] == blocks[i] && blocks[i..][1..] == blocks[i + 1..];
      var range := ReadScene(s, f, blocks[i], e, version);
      if range.Err? { return Err(range.error); }
      if range.value.None? { continue; }
      if IsActive(blocks[i], active) { return Ok(range.value.value); }
      if fallback.None? { fallback := range.value; }
    }
    if fallback.Some? { return Ok(fallback.value); }
    return Err(BlendParseError);
  }

  method FindFrameFields(s: Sdna, pointerSize: nat) returns (r: Result<Fields>)
    requires Usable(s)
    ensures r == FrameFields(s, pointerSize)
  {
    hide Locate;
    if "Scene" !in s.byName { return Err(BlendParseError); }
    var render := FindFieldOffset(s, s.byName["Scene"], "r", pointerSize);
    if render.Err? { return Err(render.error); }
    if render.value.None? { return Err(BlendParseError); }
    if render.value.value.1 >= |s.types| { return Err(IndexError); }
    if s.types[render.value.value.1] !in s.byName { return Err(BlendParseError); }
    var rd := s.byName[s.types[render.value.value.1]];
    var sfra := FindFieldOffset(s, rd, "sfra", pointerSize);
    if sfra.Err? { return Err(sfra.error); }
    var efra := FindFieldOffset(s, rd, "efra", pointerSize);
    if efra.Err? { return Err(efra.error); }
    var step := FindFieldOffset(s, rd, "frame_step", pointerSize);
    if step.Err? { return Err(step.error); }
    if sfra.value.None? || efra.value.None? { return Err(BlendParseError); }
    var sfraPlace := PlaceOf(s, sfra.value.value);
    if sfraPlace.Err? { return Err(sfraPlace.error); }
    var efraPlace := PlaceOf(s, efra.value.value);
    if efraPlace.Err? { return Err(efraPlace.error); }
    if step.value.None? { return Ok(Fields(render.value.value.0, sfraPlace.value, efraPlace.value, None)); }
    var stepPlace := PlaceOf(s, step.value.value);
    if stepPlace.Err? { return Err(stepPlace.error); }
    return Ok(Fields(render.value.value.0, sfraPlace.value, efraPlace.value, Some(stepPlace.value)));
  }

  method FindActivePointer(s: Sdna, blocks: seq<Block>, pointerSize: nat, e: Endian) returns (r: Result<Option<nat>>)
    requires Usable(s)
    ensures r == ActivePointer(s, blocks, pointerSize, e)
  {
    if "FileGlobal" !in s.byName { return Ok(None); }
    var field := FindFieldOffset(s, s.byName["FileGlobal"], "curscene", pointerSize);
    if field.Err? { return Err(field.error); }
    if field.value.None? { return Ok(None); }
    r := FindPointer(s, blocks, field.value.value.0, pointerSize, e);
  }

  /** parse_blend_frame_range: three passes over the block stream. */
  method ParseBlendFrameRange(data: Data) returns (r: Result<FrameRange>)
    ensures r == FrameRangeOf(data)
  {
    hide ReadHeader, Blocks, FrameFields, ActivePointer, Picked, DnaOf, ParseSdna, Usable;
    var h := ReadHeader(data);
    if h.Err? { return Err(h.error); }
    var blocks := IterBlocks(data, h.value);
    var dna := FindDna(blocks);
    if dna.Err? { return Err(dna.error); }
    var s := ReadSdna(dna.value, h.value.endian);
    if s.Err? { return Err(s.error); }
    ParsedIsUsable(dna.value, h.value.endian);
    var f := FindFrameFields(s.value, h.value.pointerSize);
    if f.Err? { return Err(f.error); }
    blocks := IterBlocks(data, h.value);
    var active := FindActivePointer(s.value, blocks, h.value.pointerSize, h.value.endian);
    if active.Err? { return Err(active.error); }
    blocks := IterBlocks(data, h.value);
    r := PickScene(s.value, f.value, blocks, active.value, h.value.endian, h.value.version);
  }

  // ---------------------------------------------------------------------------
  // On any bytes
  // ---------------------------------------------------------------------------

  /** A range read from one of the blocks. */
  ghost predicate ReadFrom(s: Sdna, f: Fields, blocks: seq<Block>, e: Endian, version: int, r: FrameRange)
    requires Usable(s)
  {
    exists b :: b in blocks && ReadScene(s, f, b, e, version) == Ok(Some(r))
  }

  lemma {:induction false} PickedIsRead(s: Sdna, f: Fields, blocks: seq<Block>, active: Option<nat>, e: Endian, version: int,
                                        fallback: Option<FrameRange>, r: FrameRange)
    requires Usable(s) && Picked(s, f, blocks, active, e, version, fallback) == Ok(r)
    ensures fallback == Some(r) || ReadFrom(s, f, blocks, e, version, r)
    decreases |blocks|
  {
    hide Usable, ReadScene;
    if blocks != [] {
      var found := ReadScene(s, f, blocks[0], e, version).value;
      if found != Some(r) {
        var fallback' := if fallback.None? then found else fallback;
        PickedIsRead(s, f, blocks[1..], active, e, version, fallback', r);
        if fallback != Some(r) {
          var b :| b in blocks[1..] && ReadScene(s, f, b, e, version) == Ok(Some(r));
          assert b in blocks;
        }
      }
    }
  }

  /** A parsed range on any bytes at all: it was read from one scene block of this very file, its total is the number of
      frames of its grid, and its version is the header's. */
  lemma AnyRangeIsAGrid(data: Data, h: Header, dna: Data, s: Sdna, f: Fields, r: FrameRange)
    requires ReadHeader(data) == Ok(h) && DnaOf(Blocks(data, h)) == Ok(dna) && ParseSdna(dna, h.endian) == Ok(s)
    requires Usable(s) && FrameFields(s, h.pointerSize) == Ok(f)
    requires FrameRangeOf(data) == Ok(r)
    ensures ReadFrom(s, f, Blocks(data, h), h.endian, h.version, r)
    ensures r.total == Count(r.start, r.end, r.step) && r.version == h.version
  {
    hide ReadHeader, DnaOf, Blocks, ParseSdna, FrameFields, Usable, Picked, ActivePointer, ReadScene;
    var active := ActivePointer(s, Blocks(data, h), h.pointerSize, h.endian).value;
    PickedIsRead(s, f, Blocks(data, h), active, h.endian, h.version, None, r);
    var b :| b in Blocks(data, h) && ReadScene(s, f, b, h.endian, h.version) == Ok(Some(r));
    SceneIsAGrid(s, f, b, h.endian, h.version, r);
  }

  lemma SceneIsAGrid(s: Sdna, f: Fields, b: Block, e: Endian, version: int, r: FrameRange)
    requires Usable(s) && ReadScene(s, f, b, e, version) == Ok(Some(r))
    ensures r.total == Count(r.start, r.end, r.step) && r.version == version
  {
    hide Usable, ReadInt, ReadStep, HasStruct, Reaches;
  }
}
