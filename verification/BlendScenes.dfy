/** End to end: the frame range read from a file built out of scenes is that of the scene the file names as current. */
module BlendScenes {
  import opened Bytes
  import opened BlendFile
  import opened BlendParser
  import opened FieldLayout
  import opened Grid
  import opened RenderJobs
  import opened SdnaTable

  // ---------------------------------------------------------------------------
  // Files as people think of them
  // ---------------------------------------------------------------------------

  /** The file's struct table, the declarators behind its names, and its header. */
  datatype Schema = Schema(s: Sdna, decls: seq<Declarator>, h: Header)

  /** A struct value is its field values, one after the other; a scene's render settings are one of them.  A scene's block
      may end anywhere after its start and end frame. */
  datatype Item =
    | Dna(sdnaIndex: nat, count: int, oldPtr: nat, after: Data)
    | Global(sdnaIndex: nat, count: int, oldPtr: nat, values: seq<Data>, current: nat, after: Data)
    | Scene(suffix: Data, sdnaIndex: nat, count: int, oldPtr: nat, values: seq<Data>, render: seq<Data>,
            start: int, end: int, step: int, after: Data, length: nat)
    | Other(block: Block)

  function Joined(values: seq<Data>): Data {
    if values == [] then [] else values[0] + Joined(values[1..])
  }

  predicate HaveSizes(values: seq<Data>, sizes: seq<nat>) {
    |values| == |sizes| && forall i :: 0 <= i < |sizes| ==> |values[i]| == sizes[i]
  }

  predicate SoundFields(x: Schema, index: nat) {
    index < |x.s.structs| && FieldsInRange(x.s, x.s.structs[index].fields)
  }

  function FieldsOf(x: Schema, index: nat): seq<Field>
    requires index < |x.s.structs|
  {
    x.s.structs[index].fields
  }

  function SizesOf(x: Schema, index: nat): (sizes: seq<nat>)
    requires |x.decls| == |x.s.names| && SoundFields(x, index)
    ensures |sizes| == |FieldsOf(x, index)|
  {
    Sizes(x.s, x.decls, FieldsOf(x, index), x.h.pointerSize)
  }

  /** The position of a field in its struct; the number of fields when there is none. */
  function Position(x: Schema, index: nat, name: string): (k: nat)
    requires |x.decls| == |x.s.names| && SoundFields(x, index)
    ensures k <= |FieldsOf(x, index)|
  {
    FirstNamed(x.decls, FieldsOf(x, index), name)
  }

  predicate Has(x: Schema, index: nat, name: string)
    requires |x.decls| == |x.s.names| && SoundFields(x, index)
  {
    Position(x, index, name) < |FieldsOf(x, index)|
  }

  /** The field is neither pointer nor array. */
  predicate IsSingle(x: Schema, index: nat, name: string)
    requires |x.decls| == |x.s.names| && SoundFields(x, index)
  {
    Has(x, index, name) && x.decls[FieldsOf(x, index)[Position(x, index, name)].1] == Plain(0, name, [])
  }

  function TypeOf(x: Schema, index: nat, name: string): (t: nat)
    requires |x.decls| == |x.s.names| && SoundFields(x, index) && Has(x, index, name)
    ensures t < |x.s.lens|
  {
    FieldsOf(x, index)[Position(x, index, name)].0
  }

  /** A single integer field of two, four or eight bytes. */
  predicate IsInteger(x: Schema, index: nat, name: string)
    requires |x.decls| == |x.s.names| && SoundFields(x, index)
  {
    IsSingle(x, index, name) && var n := x.s.lens[TypeOf(x, index, name)]; n == 2 || n == 4 || n == 8
  }

  predicate IsPointer(x: Schema, index: nat, name: string)
    requires |x.decls| == |x.s.names| && SoundFields(x, index)
  {
    Has(x, index, name) && var d := x.decls[FieldsOf(x, index)[Position(x, index, name)].1];
                           d.Plain? && d.stars > 0 && d.dims == []
  }

  /** A struct table whose field names are declarators and that declares scenes, render settings and, possibly, the
      global block the way Blender does. */
  ghost predicate Sound(x: Schema) {
    && Writable(x.s) && Declares(x.s, x.decls)
    && (forall i :: 0 <= i < |x.s.structs| ==> SoundFields(x, i))
    && Usable(x.s)
    && "Scene" in x.s.byName && IsSingle(x, SceneStruct(x), "r")
    && x.s.types[TypeOf(x, SceneStruct(x), "r")] in x.s.byName
    && IsInteger(x, SettingsStruct(x), "sfra") && IsInteger(x, SettingsStruct(x), "efra")
    && (Has(x, SettingsStruct(x), "frame_step") ==> IsInteger(x, SettingsStruct(x), "frame_step"))
    && ("FileGlobal" in x.s.byName && Has(x, GlobalStruct(x), "curscene") ==> IsPointer(x, GlobalStruct(x), "curscene"))
  }

  function SceneStruct(x: Schema): nat
    requires "Scene" in x.s.byName
  {
    x.s.byName["Scene"]
  }

  function GlobalStruct(x: Schema): nat
    requires "FileGlobal" in x.s.byName
  {
    x.s.byName["FileGlobal"]
  }

  function SettingsStruct(x: Schema): nat
    requires |x.decls| == |x.s.names| && |x.s.lens| == |x.s.types|
    requires "Scene" in x.s.byName && SoundFields(x, SceneStruct(x)) && Has(x, SceneStruct(x), "r")
    requires x.s.types[TypeOf(x, SceneStruct(x), "r")] in x.s.byName
  {
    x.s.byName[x.s.types[TypeOf(x, SceneStruct(x), "r")]]
  }

  /** A field value is the written form of v. */
  predicate Holds(x: Schema, index: nat, values: seq<Data>, name: string, v: int)
    requires |x.decls| == |x.s.names| && SoundFields(x, index) && Has(x, index, name)
  {
    var k, n := Position(x, index, name), x.s.lens[TypeOf(x, index, name)];
    k < |values| && FitsSigned(v, n) && values[k] == EncodedSigned(v, n, x.h.endian)
  }

  /** Where the render settings start in a scene. */
  function SettingsOffset(x: Schema): nat
    requires Sound(x)
  {
    OffsetOf(SizesOf(x, SceneStruct(x)), Position(x, SceneStruct(x), "r"))
  }

  /** Where a field lies in its struct. */
  function Lies(x: Schema, index: nat, name: string): Place
    requires |x.decls| == |x.s.names| && SoundFields(x, index) && Has(x, index, name)
  {
    Place(OffsetOf(SizesOf(x, index), Position(x, index, name)), x.s.lens[TypeOf(x, index, name)])
  }

  /** Where a field of the render settings ends in a scene. */
  function EndOf(x: Schema, name: string): int
    requires Sound(x) && Has(x, SettingsStruct(x), name)
  {
    var p := Lies(x, SettingsStruct(x), name);
    SettingsOffset(x) + p.offset + p.size
  }

  /** The block is long enough for the current-scene pointer. */
  predicate HoldsPointer(x: Schema, b: Block)
    requires |x.decls| == |x.s.names|
    requires "FileGlobal" in x.s.byName ==> SoundFields(x, GlobalStruct(x))
  {
    && "FileGlobal" in x.s.byName && Has(x, GlobalStruct(x), "curscene")
    && Lies(x, GlobalStruct(x), "curscene").offset + x.h.pointerSize <= |b.data|
  }

  ghost predicate Fits(x: Schema, item: Item)
    requires Sound(x)
  {
    match item
    case Dna(_, _, _, _) => true
    case Global(sdnaIndex, _, _, values, current, after) =>
      && "FileGlobal" in x.s.byName && HasStruct(x.s, BlockOf(x, item), "FileGlobal")
      && HaveSizes(values, SizesOf(x, GlobalStruct(x)))
      && (Has(x, GlobalStruct(x), "curscene") ==>
            && current < Pow256(x.h.pointerSize)
            && values[Position(x, GlobalStruct(x), "curscene")] == Encoded(current, x.h.pointerSize, x.h.endian))
    case Scene(suffix, sdnaIndex, _, _, values, render, start, end, step, after, length) =>
      && EndOf(x, "sfra") <= |BlockOf(x, item).data| && EndOf(x, "efra") <= |BlockOf(x, item).data|
      && HasStruct(x.s, BlockOf(x, item), "Scene")
      && HaveSizes(values, SizesOf(x, SceneStruct(x)))
      && values[Position(x, SceneStruct(x), "r")] == Joined(render)
      && HaveSizes(render, SizesOf(x, SettingsStruct(x)))
      && Holds(x, SettingsStruct(x), render, "sfra", start) && Holds(x, SettingsStruct(x), render, "efra", end)
      && (Has(x, SettingsStruct(x), "frame_step") ==> Holds(x, SettingsStruct(x), render, "frame_step", step))
    case Other(b) =>
      && !(b.code == GLOB && HasStruct(x.s, b, "FileGlobal") && HoldsPointer(x, b))
      && (SC <= b.code && HasStruct(x.s, b, "Scene") ==>
            |b.data| < EndOf(x, "sfra") || |b.data| < EndOf(x, "efra"))
  }

  /** The first bytes, or all of them if there are no more. */
  function Taken(data: Data, length: nat): Data { if length <= |data| then data[..length] else data }

  function BlockOf(x: Schema, item: Item): Block
    requires Writable(x.s)
  {
    match item
    case Dna(sdnaIndex, count, oldPtr, after) => Block(DNA1, sdnaIndex, count, oldPtr, PrintedSdna(x.s, x.h.endian) + after)
    case Global(sdnaIndex, count, oldPtr, values, _, after) => Block(GLOB, sdnaIndex, count, oldPtr, Joined(values) + after)
    case Scene(suffix, sdnaIndex, count, oldPtr, values, _, _, _, _, after, length) =>
      Block(SC + suffix, sdnaIndex, count, oldPtr, Taken(Joined(values) + after, length))
    case Other(b) => b
  }

  function BlocksOf(x: Schema, items: seq<Item>): seq<Block>
    requires Writable(x.s)
  {
    if items == [] then [] else [BlockOf(x, items[0])] + BlocksOf(x, items[1..])
  }

  // ---------------------------------------------------------------------------
  // The range the file stands for
  // ---------------------------------------------------------------------------

  /** The first scene a pointer names; the number of items when there is none.  A null pointer names none. */
  function FirstCurrent(items: seq<Item>, current: Option<nat>): (k: nat)
    ensures k <= |items| && (k < |items| ==> IsCurrent(items[k], current))
  {
    if items == [] || IsCurrent(items[0], current) then 0 else 1 + FirstCurrent(items[1..], current)
  }

  function FirstScene(items: seq<Item>): (k: nat)
    ensures k <= |items| && (k < |items| ==> items[k].Scene?)
  {
    if items == [] || items[0].Scene? then 0 else 1 + FirstScene(items[1..])
  }

  function FirstGlobal(items: seq<Item>): (k: nat)
    ensures k <= |items| && (k < |items| ==> items[k].Global?)
  {
    if items == [] || items[0].Global? then 0 else 1 + FirstGlobal(items[1..])
  }

  /** Blender's struct has a step and the block is long enough for it. */
  predicate HoldsStep(x: Schema, item: Item)
    requires Sound(x)
  {
    Has(x, SettingsStruct(x), "frame_step") && EndOf(x, "frame_step") <= |BlockOf(x, item).data|
  }

  function SceneRange(x: Schema, item: Item): FrameRange
    requires Sound(x) && item.Scene?
  {
    var step := if HoldsStep(x, item) then Max(1, item.step) else 1;
    FrameRange(item.start, item.end, step, Count(item.start, item.end, step), x.h.version)
  }

  /** The pointer to the current scene, from the first global block. */
  function Current(x: Schema, items: seq<Item>): Option<nat>
    requires Sound(x)
  {
    if "FileGlobal" !in x.s.byName || !Has(x, GlobalStruct(x), "curscene") then None
    else
      var k := FirstGlobal(items);
      if k < |items| then Some(items[k].current) else None
  }

  predicate IsCurrent(item: Item, current: Option<nat>) {
    item.Scene? && current.Some? && current.value != 0 && item.oldPtr == current.value
  }

  /** The scene in question: the first that the current-scene pointer names, or else the first of all. */
  function Chosen(items: seq<Item>, current: Option<nat>): (k: nat)
    ensures k <= |items| && (k < |items| ==> items[k].Scene?)
  {
    var k := FirstCurrent(items, current);
    if k < |items| then k else FirstScene(items)
  }

  // ---------------------------------------------------------------------------
  // Field values lie where the layout says
  // ---------------------------------------------------------------------------

  lemma {:induction false} ValueAt(data: Data, pos: nat, values: seq<Data>, after: Data, sizes: seq<nat>, k: nat)
    requires HaveSizes(values, sizes) && k < |values| && At(data, pos, Joined(values) + after)
    ensures At(data, pos + OffsetOf(sizes, k), values[k])
    decreases |values|
  {
    assert Joined(values) + after == values[0] + (Joined(values[1..]) + after);
    AtSplit(data, pos, values[0], Joined(values[1..]) + after);
    if k > 0 {
      ValueAt(data, pos + sizes[0], values[1..], after, sizes[1..], k - 1);
    }
  }

  lemma AtWhole(data: Data)
    ensures At(data, 0, data)
  {
    AtIsSlice(data, 0, data);
  }

  lemma IntAt(data: Data, pos: nat, v: int, size: nat, e: Endian)
    requires (size == 2 || size == 4 || size == 8) && FitsSigned(v, size) && At(data, pos, EncodedSigned(v, size, e))
    ensures pos + size <= |data| && ReadInt(data, pos, size, e) == Ok(v)
  {
    var n := if v < 0 then v + Pow256(size) else v;
    AtIsSlice(data, pos, EncodedSigned(v, size, e));
    UnpackAt(data, pos, n, size, e);
    DecodeSigned(v, size, e);
    DecodeEncoded(n, size, e);
  }

  /** The parser finds every field of a sound table where the declarators put it. */
  lemma FieldFound(x: Schema, index: nat, name: string)
    requires Declares(x.s, x.decls) && SoundFields(x, index)
    ensures FieldIn(x.s, index, name, x.h.pointerSize)
         == Ok(if Has(x, index, name) then Some((Lies(x, index, name).offset, TypeOf(x, index, name))) else None)
  {
    hide Locate, Declares, FirstNamed, OffsetOf, Sizes;
    FieldsAreLaidOut(x.s, x.decls, x.s.structs[index].fields, 0, name, x.h.pointerSize);
  }

  function FoundFields(x: Schema): Fields
    requires Sound(x)
  {
    Fields(SettingsOffset(x), Lies(x, SettingsStruct(x), "sfra"), Lies(x, SettingsStruct(x), "efra"),
           if Has(x, SettingsStruct(x), "frame_step") then Some(Lies(x, SettingsStruct(x), "frame_step")) else None)
  }

  lemma SettingsFound(x: Schema)
    requires Sound(x)
    ensures RenderStruct(x.s, x.h.pointerSize) == Ok((SettingsOffset(x), SettingsStruct(x)))
  {
    hide FieldIn, SizesOf, Position, Writable;
    FieldFound(x, SceneStruct(x), "r");
  }

  lemma FieldsFound(x: Schema)
    requires Sound(x)
    ensures FrameFields(x.s, x.h.pointerSize) == Ok(FoundFields(x))
  {
    hide FieldIn, RenderStruct, SizesOf, Position, Writable;
    SettingsFound(x);
    FieldFound(x, SettingsStruct(x), "sfra");
    FieldFound(x, SettingsStruct(x), "efra");
    FieldFound(x, SettingsStruct(x), "frame_step");
  }

  // ---------------------------------------------------------------------------
  // Scenes, global blocks and the table read back
  // ---------------------------------------------------------------------------

  /** The render settings of a scene lie where the scene's layout says, field by field. */
  lemma SettingAt(data: Data, scene: seq<Data>, after: Data, sceneSizes: seq<nat>, r: nat,
                  render: seq<Data>, sizes: seq<nat>, k: nat)
    requires HaveSizes(scene, sceneSizes) && r < |scene| && scene[r] == Joined(render)
    requires HaveSizes(render, sizes) && k < |render| && data == Joined(scene) + after
    ensures At(data, OffsetOf(sceneSizes, r) + OffsetOf(sizes, k), render[k])
  {
    AtWhole(data);
    ValueAt(data, 0, scene, after, sceneSizes, r);
    assert Joined(render) + [] == Joined(render);
    ValueAt(data, OffsetOf(sceneSizes, r), render, [], sizes, k);
  }

  lemma AtTaken(data: Data, pos: nat, v: Data, length: nat)
    requires At(data, pos, v) && pos + |v| <= |Taken(data, length)|
    ensures At(Taken(data, length), pos, v)
  {
    AtIsSlice(data, pos, v);
    AtIsSlice(Taken(data, length), pos, v);
  }

  /** An integer setting of a scene whose block reaches it is read back. */
  lemma SettingReads(x: Schema, item: Item, name: string, v: int)
    requires Sound(x) && item.Scene? && Fits(x, item)
    requires IsInteger(x, SettingsStruct(x), name) && Holds(x, SettingsStruct(x), item.render, name, v)
    requires EndOf(x, name) <= |BlockOf(x, item).data|
    ensures Reaches(BlockOf(x, item), SettingsOffset(x), Lies(x, SettingsStruct(x), name))
    ensures var p := Lies(x, SettingsStruct(x), name);
      ReadInt(BlockOf(x, item).data, SettingsOffset(x) + p.offset, p.size, x.h.endian) == Ok(v)
  {
    hide ReadInt, SizesOf, Position, Writable, EncodedSigned, FitsSigned, At, Joined, Taken;
    var k := Position(x, SettingsStruct(x), name);
    var data := Joined(item.values) + item.after;
    SettingAt(data, item.values, item.after, SizesOf(x, SceneStruct(x)), Position(x, SceneStruct(x), "r"),
              item.render, SizesOf(x, SettingsStruct(x)), k);
    var p := Lies(x, SettingsStruct(x), name);
    var pos := SettingsOffset(x) + OffsetOf(SizesOf(x, SettingsStruct(x)), k);
    AtTaken(data, pos, item.render[k], item.length);
    IntAt(BlockOf(x, item).data, pos, v, p.size, x.h.endian);
  }

  lemma SceneFromParts(s: Sdna, f: Fields, b: Block, e: Endian, version: int, start: int, end: int, stored: int)
    requires Usable(s) && SC <= b.code && HasStruct(s, b, "Scene")
    requires Reaches(b, f.render, f.sfra) && Reaches(b, f.render, f.efra)
    requires ReadInt(b.data, f.render + f.sfra.offset, f.sfra.size, e) == Ok(start)
    requires ReadInt(b.data, f.render + f.efra.offset, f.efra.size, e) == Ok(end)
    requires BlendParser.ReadStep(b, f, e) == Ok(stored)
    ensures var step := Max(1, stored);
      ReadScene(s, f, b, e, version) == Ok(Some(FrameRange(start, end, step, Count(start, end, step), version)))
  {
    hide Usable, HasStruct, Reaches, ReadInt, BlendParser.ReadStep, Count;
  }

  lemma StepReads(x: Schema, item: Item)
    requires Sound(x) && item.Scene? && Fits(x, item)
    ensures BlendParser.ReadStep(BlockOf(x, item), FoundFields(x), x.h.endian)
         == Ok(if HoldsStep(x, item) then item.step else 1)
  {
    hide ReadInt, SizesOf, Position, Writable, EncodedSigned, FitsSigned, Joined, HaveSizes, Lies, SettingsOffset;
    if HoldsStep(x, item) { SettingReads(x, item, "frame_step", item.step); }
  }

  /** A scene's block is read as that scene's range. */
  lemma SceneReads(x: Schema, item: Item)
    requires Sound(x) && item.Scene? && Fits(x, item)
    ensures ReadScene(x.s, FoundFields(x), BlockOf(x, item), x.h.endian, x.h.version) == Ok(Some(SceneRange(x, item)))
  {
    hide ReadInt, ReadScene, BlendParser.ReadStep, SizesOf, Position, Writable, EncodedSigned, FitsSigned, Joined, HaveSizes,
      Reaches, Lies, SettingsOffset;
    SettingReads(x, item, "sfra", item.start);
    SettingReads(x, item, "efra", item.end);
    StepReads(x, item);
    assert SC <= SC + item.suffix;
    SceneFromParts(x.s, FoundFields(x), BlockOf(x, item), x.h.endian, x.h.version, item.start, item.end,
                   if HoldsStep(x, item) then item.step else 1);
  }

  /** No other block is taken for a scene. */
  lemma NotAScene(x: Schema, item: Item)
    requires Sound(x) && !item.Scene? && Fits(x, item)
    ensures ReadScene(x.s, FoundFields(x), BlockOf(x, item), x.h.endian, x.h.version) == Ok(None)
  {
    hide ReadInt, SizesOf, Position, Writable, Joined, HaveSizes;
    assert DNA1[0] != SC[0] && GLOB[0] != SC[0];
  }

  lemma BlockPointer(x: Schema, item: Item)
    requires Writable(x.s) && item.Scene?
    ensures BlockOf(x, item).oldPtr == item.oldPtr
  {
  }

  function Read(x: Schema, items: seq<Item>, current: Option<nat>, fallback: Option<FrameRange>): Result<FrameRange>
    requires Sound(x)
  {
    Picked(x.s, FoundFields(x), BlocksOf(x, items), current, x.h.endian, x.h.version, fallback)
  }

  lemma PickedStep(s: Sdna, f: Fields, blocks: seq<Block>, current: Option<nat>, e: Endian, version: int,
                   fallback: Option<FrameRange>, r: Option<FrameRange>)
    requires Usable(s) && blocks != [] && ReadScene(s, f, blocks[0], e, version) == Ok(r)
    ensures Picked(s, f, blocks, current, e, version, fallback)
         == if r.Some? && IsActive(blocks[0], current) then Ok(r.value)
            else Picked(s, f, blocks[1..], current, e, version, if fallback.None? then r else fallback)
  {
    hide Usable, ReadScene, IsActive;
  }

  /** One step of the scene loop. */
  lemma ReadStep(x: Schema, items: seq<Item>, current: Option<nat>, fallback: Option<FrameRange>)
    requires Sound(x) && items != [] && Fits(x, items[0])
    ensures var found := if items[0].Scene? then Some(SceneRange(x, items[0])) else None;
      Read(x, items, current, fallback)
      == if IsCurrent(items[0], current) then Ok(SceneRange(x, items[0]))
         else Read(x, items[1..], current, if fallback.None? then found else fallback)
  {
    assert Writable(x.s) && Usable(x.s);
    hide Sound, ReadScene, SceneRange, FoundFields, Fits, BlockOf, Writable, Usable, Picked;
    var item := items[0];
    var found := if item.Scene? then Some(SceneRange(x, item)) else None;
    if item.Scene? { SceneReads(x, item); BlockPointer(x, item); } else { NotAScene(x, item); }
    assert BlocksOf(x, items)[1..] == BlocksOf(x, items[1..]);
    PickedStep(x.s, FoundFields(x), BlocksOf(x, items), current, x.h.endian, x.h.version, fallback, found);
  }

  /** What the scene loop returns: the first current scene, or what was read before, or the first scene. */
  function Best(x: Schema, items: seq<Item>, current: Option<nat>, fallback: Option<FrameRange>): Result<FrameRange>
    requires Sound(x)
  {
    var k, j := FirstCurrent(items, current), FirstScene(items);
    if k < |items| then Ok(SceneRange(x, items[k]))
    else if fallback.Some? then Ok(fallback.value)
    else if j < |items| then Ok(SceneRange(x, items[j]))
    else Err(BlendParseError)
  }

  lemma ReadNothing(x: Schema, current: Option<nat>, fallback: Option<FrameRange>)
    requires Sound(x)
    ensures Read(x, [], current, fallback) == if fallback.Some? then Ok(fallback.value) else Err(BlendParseError)
  {
    hide FoundFields;
  }

  lemma {:induction false} BestIsRead(x: Schema, items: seq<Item>, current: Option<nat>, fallback: Option<FrameRange>)
    requires Sound(x) && forall i :: 0 <= i < |items| ==> Fits(x, items[i])
    ensures Read(x, items, current, fallback) == Best(x, items, current, fallback)
    decreases |items|
  {
    hide Sound, Fits, SceneRange, Read;
    if items == [] {
      ReadNothing(x, current, fallback);
    } else {
      ReadStep(x, items, current, fallback);
      var found := if items[0].Scene? then Some(SceneRange(x, items[0])) else None;
      BestIsRead(x, items[1..], current, if fallback.None? then found else fallback);
    }
  }

  /** The pointer loop finds the current-scene pointer of the first global block. */
  lemma GlobalReads(x: Schema, item: Item)
    requires Sound(x) && item.Global? && Fits(x, item) && Has(x, GlobalStruct(x), "curscene")
    ensures var offset := Lies(x, GlobalStruct(x), "curscene").offset;
      && offset + x.h.pointerSize <= |BlockOf(x, item).data|
      && Unpack(BlockOf(x, item).data, offset, x.h.pointerSize, x.h.endian) == Ok(item.current)
  {
    hide SizesOf, Position, Writable, Joined, Unpack;
    var k := Position(x, GlobalStruct(x), "curscene");
    var data := BlockOf(x, item).data;
    AtWhole(data);
    ValueAt(data, 0, item.values, item.after, SizesOf(x, GlobalStruct(x)), k);
    UnpackAt(data, Lies(x, GlobalStruct(x), "curscene").offset, item.current, x.h.pointerSize, x.h.endian);
    AtIsSlice(data, Lies(x, GlobalStruct(x), "curscene").offset, item.values[k]);
  }

  lemma NotGlobal(x: Schema, item: Item)
    requires Sound(x) && !item.Global? && Fits(x, item) && "FileGlobal" in x.s.byName && Has(x, GlobalStruct(x), "curscene")
    ensures var b := BlockOf(x, item);
      !(b.code == GLOB && HasStruct(x.s, b, "FileGlobal")
        && Lies(x, GlobalStruct(x), "curscene").offset + x.h.pointerSize <= |b.data|)
  {
    hide SizesOf, Position, Writable, Joined, HaveSizes, Lies;
    assert DNA1[0] != GLOB[0] && SC[0] != GLOB[0];
  }

  lemma PointerStep(s: Sdna, blocks: seq<Block>, offset: int, pointerSize: nat, e: Endian)
    requires Usable(s) && blocks != []
    ensures var here := blocks[0].code == GLOB && HasStruct(s, blocks[0], "FileGlobal")
                        && offset + pointerSize <= |blocks[0].data|;
      && (!here ==> PointerIn(s, blocks, offset, pointerSize, e) == PointerIn(s, blocks[1..], offset, pointerSize, e))
      && (here && Unpack(blocks[0].data, offset, pointerSize, e).Ok? ==>
            PointerIn(s, blocks, offset, pointerSize, e) == Ok(Some(Unpack(blocks[0].data, offset, pointerSize, e).value)))
  {
    hide Usable, HasStruct, Unpack;
  }

  lemma GlobalBlock(x: Schema, item: Item)
    requires Sound(x) && item.Global? && Fits(x, item)
    ensures BlockOf(x, item).code == GLOB && HasStruct(x.s, BlockOf(x, item), "FileGlobal")
  {
  }

  /** What the pointer loop makes of an item's block. */
  predicate PointerFact(s: Sdna, b: Block, item: Item, offset: int, pointerSize: nat, e: Endian)
    requires Usable(s)
  {
    var isGlobal := b.code == GLOB && HasStruct(s, b, "FileGlobal");
    if item.Global? then
      isGlobal && offset + pointerSize <= |b.data| && Unpack(b.data, offset, pointerSize, e) == Ok(item.current)
    else !(isGlobal && offset + pointerSize <= |b.data|)
  }

  lemma {:induction false} FirstPointer(s: Sdna, blocks: seq<Block>, items: seq<Item>, offset: int, pointerSize: nat, e: Endian)
    requires Usable(s) && |blocks| == |items|
    requires forall i :: 0 <= i < |items| ==> PointerFact(s, blocks[i], items[i], offset, pointerSize, e)
    ensures PointerIn(s, blocks, offset, pointerSize, e)
         == Ok(if FirstGlobal(items) < |items| then Some(items[FirstGlobal(items)].current) else None)
    decreases |items|
  {
    hide Usable, HasStruct, Unpack;
    if items != [] {
      PointerStep(s, blocks, offset, pointerSize, e);
      FirstPointer(s, blocks[1..], items[1..], offset, pointerSize, e);
    }
  }

  lemma {:induction false} BlockIs(x: Schema, items: seq<Item>, i: nat)
    requires Writable(x.s) && i < |items|
    ensures |BlocksOf(x, items)| == |items| && BlocksOf(x, items)[i] == BlockOf(x, items[i])
  {
    hide Writable, BlockOf;
    if i > 0 {
      BlockIs(x, items[1..], i - 1);
    } else if |items| > 1 {
      BlockIs(x, items[1..], 0);
    }
  }

  lemma PointerFacts(x: Schema, item: Item)
    requires Sound(x) && Fits(x, item) && "FileGlobal" in x.s.byName && Has(x, GlobalStruct(x), "curscene")
    ensures PointerFact(x.s, BlockOf(x, item), item, Lies(x, GlobalStruct(x), "curscene").offset, x.h.pointerSize, x.h.endian)
  {
    hide Lies, Unpack, BlockOf, SizesOf, Position;
    if item.Global? { GlobalReads(x, item); GlobalBlock(x, item); } else { NotGlobal(x, item); }
  }

  lemma PointerFound(x: Schema, items: seq<Item>)
    requires Sound(x) && (forall i :: 0 <= i < |items| ==> Fits(x, items[i]))
    requires "FileGlobal" in x.s.byName && Has(x, GlobalStruct(x), "curscene")
    ensures PointerIn(x.s, BlocksOf(x, items), Lies(x, GlobalStruct(x), "curscene").offset, x.h.pointerSize, x.h.endian)
         == Ok(if FirstGlobal(items) < |items| then Some(items[FirstGlobal(items)].current) else None)
  {
    assert Writable(x.s) && Usable(x.s);
    var blocks, offset := BlocksOf(x, items), Lies(x, GlobalStruct(x), "curscene").offset;
    hide *;
    forall i | 0 <= i < |items|
      ensures i < |blocks| && PointerFact(x.s, blocks[i], items[i], offset, x.h.pointerSize, x.h.endian)
    {
      BlockIs(x, items, i);
      PointerFacts(x, items[i]);
    }
    if items != [] { BlockIs(x, items, 0); } else { NoBlocks(x); }
    FirstPointer(x.s, blocks, items, offset, x.h.pointerSize, x.h.endian);
  }

  lemma NoBlocks(x: Schema)
    requires Writable(x.s)
    ensures BlocksOf(x, []) == []
  {
  }

  lemma CurrentFound(x: Schema, items: seq<Item>)
    requires Sound(x) && (forall i :: 0 <= i < |items| ==> Fits(x, items[i]))
    ensures ActivePointer(x.s, BlocksOf(x, items), x.h.pointerSize, x.h.endian) == Ok(Current(x, items))
  {
    hide Fits, Lies, SizesOf, Position, FieldIn, PointerIn;
    if "FileGlobal" in x.s.byName {
      FieldFound(x, GlobalStruct(x), "curscene");
      if Has(x, GlobalStruct(x), "curscene") { PointerFound(x, items); }
    }
  }

  /** The first block that claims to be a struct table is the schema's. */
  ghost predicate TableFirst(x: Schema, items: seq<Item>)
    requires Writable(x.s)
  {
    items != [] && (items[0].Dna? || (BlockOf(x, items[0]).code != DNA1 && TableFirst(x, items[1..])))
  }

  lemma {:induction false} TableFound(x: Schema, items: seq<Item>) returns (after: Data)
    requires Sound(x) && TableFirst(x, items)
    ensures DnaOf(BlocksOf(x, items)) == Ok(PrintedSdna(x.s, x.h.endian) + after)
    decreases |items|
  {
    if items[0].Dna? {
      after := items[0].after;
    } else {
      after := TableFound(x, items[1..]);
      assert BlocksOf(x, items)[1..] == BlocksOf(x, items[1..]);
    }
  }

  // ---------------------------------------------------------------------------
  // The theorem
  // ---------------------------------------------------------------------------

  /** For every header variant, pointer size, byte order, struct table and list of blocks, the parser returns start, end
      and clamped step of the scene FileGlobal.curscene points at, or of the first scene if none matches, with the number
      of frames of that grid; without any scene it reports an error. */
  lemma FrameRangeRoundTrip(m: HeaderModel, x: Schema, items: seq<Item>, trailer: Data)
    requires m.Writable() && x.h == m.Meaning() && Sound(x)
    requires forall i :: 0 <= i < |items| ==> Fits(x, items[i])
    requires TableFirst(x, items)
    requires forall b :: b in BlocksOf(x, items) ==> Storable(b, x.h)
    ensures var k := Chosen(items, Current(x, items));
      FrameRangeOf(PrintedFile(m, BlocksOf(x, items), trailer))
      == if k < |items| then Ok(SceneRange(x, items[k])) else Err(BlendParseError)
  {
    var data := PrintedFile(m, BlocksOf(x, items), trailer);
    FileRoundTrip(m, BlocksOf(x, items), trailer);
    hide *;
    FileRangeFound(x, items, data);
    ChosenIsBest(x, items);
  }

  lemma ChosenIsBest(x: Schema, items: seq<Item>)
    requires Sound(x)
    ensures var k := Chosen(items, Current(x, items));
      Best(x, items, Current(x, items), None) == if k < |items| then Ok(SceneRange(x, items[k])) else Err(BlendParseError)
  {
    hide Sound, Current, SceneRange;
  }

  lemma FileRangeFound(x: Schema, items: seq<Item>, data: Data)
    requires Sound(x) && forall i :: 0 <= i < |items| ==> Fits(x, items[i])
    requires TableFirst(x, items)
    requires ReadHeader(data) == Ok(x.h) && Blocks(data, x.h) == BlocksOf(x, items)
    ensures FrameRangeOf(data) == Best(x, items, Current(x, items), None)
  {
    assert Writable(x.s);
    hide *;
    var after := TableFound(x, items);
    SdnaReads(x, after);
    RangeFromParts(data, x.h, PrintedSdna(x.s, x.h.endian) + after, x.s);
    RangeFound(x, items);
  }

  lemma RangeFromParts(data: Data, h: Header, dna: Data, s: Sdna)
    requires ReadHeader(data) == Ok(h) && DnaOf(Blocks(data, h)) == Ok(dna) && ParseSdna(dna, h.endian) == Ok(s)
    ensures Usable(s) && FrameRangeOf(data) == RangeIn(s, Blocks(data, h), h)
  {
    hide ReadHeader, DnaOf, Blocks, ParseSdna, RangeIn, Usable;
    ParsedIsUsable(dna, h.endian);
  }

  lemma SdnaReads(x: Schema, after: Data)
    requires Sound(x)
    ensures ParseSdna(PrintedSdna(x.s, x.h.endian) + after, x.h.endian) == Ok(x.s)
  {
    SdnaRoundTrip(x.s, x.h.endian, after);
  }

  lemma RangeFound(x: Schema, items: seq<Item>)
    requires Sound(x) && forall i :: 0 <= i < |items| ==> Fits(x, items[i])
    ensures RangeIn(x.s, BlocksOf(x, items), x.h) == Best(x, items, Current(x, items), None)
  {
    assert Writable(x.s) && Usable(x.s);
    hide Sound, Fits, Best, FrameFields, ActivePointer, Picked, Current, Writable, Usable, FoundFields;
    FieldsFound(x);
    CurrentFound(x, items);
    BestIsRead(x, items, Current(x, items), None);
  }

  // ---------------------------------------------------------------------------
  // Sound tables exist
  // ---------------------------------------------------------------------------

  /** Scenes with start, end and step, and the current-scene pointer. */
  function SmallTable(): Sdna {
    Sdna(["r", "sfra", "efra", "frame_step", "*curscene"], ["int", "RenderData", "Scene", "FileGlobal"], [4, 12, 12, 8],
         [Struct(1, [(0, 1), (0, 2), (0, 3)]), Struct(2, [(1, 0)]), Struct(3, [(2, 4)])],
         map["RenderData" := 0, "Scene" := 1, "FileGlobal" := 2])
  }

  function SmallSchema(h: Header): Schema {
    Schema(SmallTable(), [Plain(0, "r", []), Plain(0, "sfra", []), Plain(0, "efra", []), Plain(0, "frame_step", []),
                          Plain(1, "curscene", [])], h)
  }

  lemma SingleDeclarator(ident: string)
    requires IsIdent(ident)
    ensures PrintedDeclarator(Plain(0, ident, [])) == ident
    ensures PrintedDeclarator(Plain(1, ident, [])) == "*" + ident
  {
    assert Stars(0) == [] && Stars(1) == "*" && PrintedDims([]) == [];
  }

  lemma SmallNames()
    ensures var s := SmallTable();
      InRange(s.structs, 4) && ByName(s.structs, s.types, 3) == map["RenderData" := 0, "Scene" := 1, "FileGlobal" := 2]
  {
    var s := SmallTable();
    assert ByName(s.structs, s.types, 0) == map[];
    assert ByName(s.structs, s.types, 1) == map["RenderData" := 0];
    assert ByName(s.structs, s.types, 2) == map["RenderData" := 0, "Scene" := 1];
  }

  lemma SmallTableIsWritable()
    ensures Writable(SmallTable()) && Usable(SmallTable())
  {
    SmallNames();
    Powers();
    hide ByName, Pow256, WritableStruct, IsName;
    var s := SmallTable();
    PlainNames();
    assert WritableStruct(s.structs[0], 4) && WritableStruct(s.structs[1], 4) && WritableStruct(s.structs[2], 4) by {
      SmallStructs();
    }
  }

  lemma Powers()
    ensures Pow256(2) == 65536 <= Pow256(4)
  {
    assert Pow256(1) == 256 && Pow256(3) == 16777216;
  }

  lemma PlainNames()
    ensures IsName("r") && IsName("sfra") && IsName("efra") && IsName("frame_step") && IsName("*curscene")
    ensures IsName("int") && IsName("RenderData") && IsName("Scene") && IsName("FileGlobal")
  {
  }

  lemma SmallStructs()
    ensures var s := SmallTable();
      WritableStruct(s.structs[0], 4) && WritableStruct(s.structs[1], 4) && WritableStruct(s.structs[2], 4)
  {
    Powers();
  }

  lemma SmallPositions(h: Header)
    ensures var x := SmallSchema(h);
      && SoundFields(x, 0) && SoundFields(x, 1) && SoundFields(x, 2)
      && Position(x, 1, "r") == 0 && Position(x, 0, "sfra") == 0 && Position(x, 0, "efra") == 1
      && Position(x, 0, "frame_step") == 2 && Position(x, 2, "curscene") == 0
  {
    var x := SmallSchema(h);
    assert [(0, 1), (0, 2), (0, 3)][1..] == [(0, 2), (0, 3)] && [(0, 2), (0, 3)][1..] == [(0, 3)];
    assert FirstNamed(x.decls, [(0, 3)], "frame_step") == 0;
    assert FirstNamed(x.decls, [(0, 2), (0, 3)], "efra") == 0;
    assert FirstNamed(x.decls, [(0, 2), (0, 3)], "frame_step") == 1;
  }

  lemma Idents()
    ensures IsIdent("r") && IsIdent("sfra") && IsIdent("efra") && IsIdent("frame_step") && IsIdent("curscene")
  {
  }

  lemma SmallDeclarators(h: Header)
    ensures Declares(SmallSchema(h).s, SmallSchema(h).decls)
  {
    Idents();
    hide PrintedDeclarator, IsIdent;
    SingleDeclarator("r");
    SingleDeclarator("sfra");
    SingleDeclarator("efra");
    SingleDeclarator("frame_step");
    SingleDeclarator("curscene");
  }

  /** A table with scenes, render settings with all three frame numbers, and a global block with the current-scene pointer is
      sound, whatever the header. */
  lemma SmallTableIsSound(h: Header)
    ensures Sound(SmallSchema(h))
    ensures var x := SmallSchema(h);
      Has(x, SettingsStruct(x), "frame_step") && "FileGlobal" in x.s.byName && Has(x, GlobalStruct(x), "curscene")
  {
    SmallTableIsWritable();
    SmallDeclarators(h);
    SmallPositions(h);
    hide Writable, Usable, Declares, Position;
  }

  lemma SmallSizes(h: Header)
    requires SoundFields(SmallSchema(h), 0) && SoundFields(SmallSchema(h), 1) && SoundFields(SmallSchema(h), 2)
    ensures var x := SmallSchema(h);
      SizesOf(x, 0) == [4, 4, 4] && SizesOf(x, 1) == [12] && SizesOf(x, 2) == [h.pointerSize]
  {
    var x := SmallSchema(h);
    var a, b, c := SizesOf(x, 0), SizesOf(x, 1), SizesOf(x, 2);
    assert Product([]) == 1;
    assert |a| == 3 && |b| == 1 && |c| == 1;
    assert a[0] == 4 && a[1] == 4 && a[2] == 4;
    assert b[0] == 12 && c[0] == h.pointerSize;
    assert a == [4, 4, 4] && b == [12] && c == [h.pointerSize];
  }

  lemma JoinedThree(a: Data, b: Data, c: Data)
    ensures |Joined([a, b, c])| == |a| + |b| + |c|
  {
    assert [a, b, c][1..] == [b, c] && [b, c][1..] == [c] && [c][1..] == [];
    assert |Joined([c])| == |c|;
    assert |Joined([b, c])| == |b| + |c|;
  }

  lemma SmallGlobalFits(h: Header, current: nat)
    requires current < Pow256(h.pointerSize) && Sound(SmallSchema(h))
    ensures Fits(SmallSchema(h), Global(2, 1, 0, [Encoded(current, h.pointerSize, h.endian)], current, []))
  {
    SmallPositions(h);
    SmallSizes(h);
    hide Sound, Position, SizesOf, Pow256, Joined, Encoded, Writable, Usable;
  }

  lemma ShortGlobalFits(h: Header)
    requires Sound(SmallSchema(h))
    ensures Fits(SmallSchema(h), Other(Block(GLOB, 2, 1, 0, [])))
  {
    SmallPositions(h);
    hide Sound, Position, SizesOf, Writable, Usable;
    assert GLOB[0] != DNA1[0] && GLOB[0] != SC[0];
  }

  lemma SmallSettingHolds(h: Header, render: seq<Data>, name: string, k: nat, v: int)
    requires SoundFields(SmallSchema(h), 0) && |render| == 3 && k < 3 && Position(SmallSchema(h), 0, name) == k
    requires FitsSigned(v, 4) && render[k] == EncodedSigned(v, 4, h.endian)
    ensures Holds(SmallSchema(h), 0, render, name, v)
  {
    hide Position, EncodedSigned, FitsSigned, SoundFields;
  }

  lemma SmallPlaces(h: Header)
    requires SoundFields(SmallSchema(h), 0) && SoundFields(SmallSchema(h), 1)
    ensures var x := SmallSchema(h);
      && Has(x, 0, "sfra") && Lies(x, 0, "sfra") == Place(0, 4) && Has(x, 0, "efra") && Lies(x, 0, "efra") == Place(4, 4)
      && Has(x, 0, "frame_step") && Lies(x, 0, "frame_step") == Place(8, 4)
      && Has(x, 1, "r") && TypeOf(x, 1, "r") == 1 && OffsetOf(SizesOf(x, 1), Position(x, 1, "r")) == 0
  {
    SmallPositions(h);
    SmallSizes(h);
    hide Position, SizesOf, SoundFields;
    assert [4, 4, 4][1..] == [4, 4] && [4, 4][1..] == [4];
    assert OffsetOf([4, 4], 1) == 4 && OffsetOf([4, 4, 4], 1) == 4 && OffsetOf([4, 4, 4], 2) == 8;
  }

  lemma SmallIndices(h: Header)
    requires Sound(SmallSchema(h))
    ensures SettingsStruct(SmallSchema(h)) == 0 && SceneStruct(SmallSchema(h)) == 1
  {
    SmallPlaces(h);
    hide Sound, Position, SizesOf, OffsetOf, Lies, SoundFields, FieldsOf;
  }

  lemma SmallEnds(h: Header)
    requires Sound(SmallSchema(h))
    ensures EndOf(SmallSchema(h), "sfra") == 4 && EndOf(SmallSchema(h), "efra") == 8
    ensures Has(SmallSchema(h), SettingsStruct(SmallSchema(h)), "frame_step") && EndOf(SmallSchema(h), "frame_step") == 12
  {
    SmallIndices(h);
    SmallPlaces(h);
    hide Sound, SmallSchema, SmallTable, SettingsStruct, SceneStruct, Position, SizesOf, OffsetOf, Lies, Has, TypeOf;
  }

  lemma SmallSceneFits(h: Header, start: int, end: int, step: int, oldPtr: nat)
    requires FitsSigned(start, 4) && FitsSigned(end, 4) && FitsSigned(step, 4) && Sound(SmallSchema(h))
    ensures var x, e := SmallSchema(h), h.endian;
      var render := [EncodedSigned(start, 4, e), EncodedSigned(end, 4, e), EncodedSigned(step, 4, e)];
      Fits(x, Scene([0, 0], 1, 1, oldPtr, [Joined(render)], render, start, end, step, [], 12))
  {
    SmallPositions(h);
    SmallSizes(h);
    var x, e := SmallSchema(h), h.endian;
    var render := [EncodedSigned(start, 4, e), EncodedSigned(end, 4, e), EncodedSigned(step, 4, e)];
    JoinedThree(render[0], render[1], render[2]);
    SmallSettingHolds(h, render, "sfra", 0, start);
    SmallSettingHolds(h, render, "efra", 1, end);
    SmallSettingHolds(h, render, "frame_step", 2, step);
    SmallIndices(h);
    SmallEnds(h);
    hide Sound, Position, SizesOf, Joined, EncodedSigned, FitsSigned, Writable, Usable, Declares, SoundFields, Holds, EndOf;
  }

  /** A global block, a scene it points at, and a global block that ends before the pointer: all of them fit that table. */
  lemma SmallItemsFit(h: Header, start: int, end: int, step: int, current: nat)
    requires FitsSigned(start, 4) && FitsSigned(end, 4) && FitsSigned(step, 4)
    requires current < Pow256(h.pointerSize)
    ensures Sound(SmallSchema(h))
    ensures var x, e := SmallSchema(h), h.endian;
      var render := [EncodedSigned(start, 4, e), EncodedSigned(end, 4, e), EncodedSigned(step, 4, e)];
      && Fits(x, Global(2, 1, 0, [Encoded(current, h.pointerSize, e)], current, []))
      && Fits(x, Scene([0, 0], 1, 1, current, [Joined(render)], render, start, end, step, [], 12))
      && Fits(x, Other(Block(GLOB, 2, 1, 0, [])))
  {
    SmallTableIsSound(h);
    SmallGlobalFits(h, current);
    ShortGlobalFits(h);
    SmallSceneFits(h, start, end, step, current);
    hide *;
  }
}
