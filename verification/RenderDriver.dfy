/** The render driver: which camera renders each frame of the range it is given. */
module RenderDriver {
  import opened Grid
  import opened RenderJobs

  datatype Object = Object(name: string, isCamera: bool)

  datatype Marker = Marker(frame: int, camera: Option<Object>)

  /** The prepared Blender scene; nothing in it depends on the frames to be rendered. */
  datatype Scene = Scene(objects: map<string, Object>, markers: seq<Marker>, camera: Option<Object>)

  datatype CameraMode = AutoMarkers | ForceCamera | CameraRanges

  /** One entry of the camera_ranges override, its fields already parsed. */
  datatype RawRange = NotARow | Row(enabled: Option<bool>, cameraName: Option<string>, frameStart: Option<int>,
                                    frameEnd: Option<int>, frameStep: Option<int>)

  datatype Overrides = Overrides(mode: CameraMode, cameraName: Option<string>, ranges: seq<RawRange>)

  datatype CameraRange = CameraRange(camera: Object, frameStart: int, frameEnd: int, frameStep: Step)

  datatype Error = InvalidFrameRange | NoFrames | NoCamera(frame: int) | NoRanges
                 | MissingName(index: nat) | InvalidRange(index: nat) | CameraNotFound(index: nat)

  datatype Result<+T> = Ok(value: T) | Err(error: Error)

  type Assignments = seq<(int, Object)>

  function AtLeast1(x: int): Step {
    if x < 1 then 1 else x
  }

  function FindCamera(scene: Scene, name: string): Option<Object> {
    if name != "" && name in scene.objects && scene.objects[name].isCamera then Some(scene.objects[name]) else None
  }

  // ---------------------------------------------------------------------------
  // str.strip
  // ---------------------------------------------------------------------------

  predicate IsSpace(c: char) {
    || c in " \t\n\r" || '\U{0b}' <= c <= '\U{0c}' || '\U{1c}' <= c <= '\U{1f}' || c == '\U{85}' || c == '\U{a0}'
    || c == '\U{1680}' || '\U{2000}' <= c <= '\U{200a}' || '\U{2028}' <= c <= '\U{2029}'
    || c == '\U{202f}' || c == '\U{205f}' || c == '\U{3000}'
  }

  function LStrip(s: string): string {
    if s != [] && IsSpace(s[0]) then LStrip(s[1..]) else s
  }

  function RStrip(s: string): string {
    if s != [] && IsSpace(s[|s| - 1]) then RStrip(s[..|s| - 1]) else s
  }

  function Strip(s: string): string { RStrip(LStrip(s)) }

  // ---------------------------------------------------------------------------
  // Timeline markers
  // ---------------------------------------------------------------------------

  predicate Qualifies(m: Marker, frame: int) {
    m.camera.Some? && m.camera.value.isCamera && m.frame <= frame
  }

  /** The index of the marker that binds the frame, among the first n. */
  function BestMarker(markers: seq<Marker>, n: nat, frame: int): (r: Option<nat>)
    requires n <= |markers|
    ensures r.Some? ==> r.value < n && Qualifies(markers[r.value], frame)
  {
    if n == 0 then None
    else
      var best := BestMarker(markers, n - 1, frame);
      if Qualifies(markers[n - 1], frame) && (best.None? || markers[n - 1].frame > markers[best.value].frame)
      then Some(n - 1) else best
  }

  function MarkerCamera(scene: Scene, frame: int): Option<Object> {
    var best := BestMarker(scene.markers, |scene.markers|, frame);
    if best.None? then scene.camera else scene.markers[best.value].camera
  }

  method FindMarkerCamera(scene: Scene, frame: int) returns (chosen: Option<Object>)
    ensures chosen == MarkerCamera(scene, frame)
  {
    chosen := scene.camera;
    var bestFrame: Option<int> := None;
    for i := 0 to |scene.markers|
      invariant var best := BestMarker(scene.markers, i, frame);
        && bestFrame == (if best.None? then None else Some(scene.markers[best.value].frame))
        && chosen == (if best.None? then scene.camera else scene.markers[best.value].camera)
    {
      var marker := scene.markers[i];
      if marker.camera.None? || !marker.camera.value.isCamera { continue; }
      if marker.frame <= frame && (bestFrame.None? || marker.frame > bestFrame.value) {
        bestFrame := Some(marker.frame);
        chosen := marker.camera;
      }
    }
  }

  /** The binding marker is the latest one at or before the frame that carries a camera; of several on that frame,
      the first listed.  Without one the scene camera is used. */
  lemma {:induction false} BestMarkerIsLatest(markers: seq<Marker>, n: nat, frame: int)
    requires n <= |markers|
    ensures var best := BestMarker(markers, n, frame);
      && (best.None? <==> forall j :: 0 <= j < n ==> !Qualifies(markers[j], frame))
      && (best.Some? ==> forall j :: 0 <= j < n && Qualifies(markers[j], frame) ==>
            markers[j].frame < markers[best.value].frame
            || (markers[j].frame == markers[best.value].frame && best.value <= j))
  {
    if n > 0 { BestMarkerIsLatest(markers, n - 1, frame); }
  }

  // ---------------------------------------------------------------------------
  // Camera ranges
  // ---------------------------------------------------------------------------

  /** One override entry: skipped, refused, or a usable range. */
  function Normalized(scene: Scene, row: RawRange, index: nat): Result<Option<CameraRange>> {
    if row.NotARow? || row.enabled == Some(false) then Ok(None)
    else if row.cameraName.None? || Strip(row.cameraName.value) == "" then Err(MissingName(index))
    else if row.frameStart.None? || row.frameEnd.None? || AtLeast1(row.frameEnd.value) < AtLeast1(row.frameStart.value)
    then Err(InvalidRange(index))
    else
      match FindCamera(scene, Strip(row.cameraName.value))
      case None => Err(CameraNotFound(index))
      case Some(camera) =>
        Ok(Some(CameraRange(camera, AtLeast1(row.frameStart.value), AtLeast1(row.frameEnd.value),
                            if row.frameStep.Some? then AtLeast1(row.frameStep.value) else 1)))
  }

  /** The usable ranges of the first n entries in their own order, or the first refusal. */
  function Usable(scene: Scene, rows: seq<RawRange>, n: nat): Result<seq<CameraRange>>
    requires n <= |rows|
  {
    if n == 0 then Ok([])
    else
      match Usable(scene, rows, n - 1)
      case Err(e) => Err(e)
      case Ok(ranges) =>
        match Normalized(scene, rows[n - 1], n - 1)
        case Err(e) => Err(e)
        case Ok(None) => Ok(ranges)
        case Ok(Some(range)) => Ok(ranges + [range])
  }

  predicate Before(a: CameraRange, b: CameraRange) {
    a.frameStart < b.frameStart || (a.frameStart == b.frameStart && a.frameEnd < b.frameEnd)
  }

  function InsertRange(r: CameraRange, sorted: seq<CameraRange>): seq<CameraRange> {
    if sorted == [] || !Before(sorted[0], r) then [r] + sorted
    else [sorted[0]] + InsertRange(r, sorted[1..])
  }

  /** Sorted by (start, end), keeping the order of equals. */
  function SortedRanges(ranges: seq<CameraRange>): seq<CameraRange> {
    if ranges == [] then [] else InsertRange(ranges[0], SortedRanges(ranges[1..]))
  }

  method NormalizeCameraRanges(scene: Scene, rows: seq<RawRange>) returns (r: Result<seq<CameraRange>>)
    ensures r == match Usable(scene, rows, |rows|) case Err(e) => Err(e) case Ok(ranges) => Ok(SortedRanges(ranges))
  {
    var normalized: seq<CameraRange> := [];
    for i := 0 to |rows|
      invariant Usable(scene, rows, i) == Ok(normalized)
    {
      match Normalized(scene, rows[i], i)
      case Err(e) =>
        UsableStops(scene, rows, i + 1, |rows|);
        return Err(e);
      case Ok(None) =>
      case Ok(Some(range)) => normalized := normalized + [range];
    }
    return Ok(SortedRanges(normalized));
  }

  lemma {:induction false} UsableStops(scene: Scene, rows: seq<RawRange>, n: nat, m: nat)
    requires n <= m <= |rows| && Usable(scene, rows, n).Err?
    ensures Usable(scene, rows, m) == Usable(scene, rows, n)
    decreases m
  {
    if n < m { UsableStops(scene, rows, n, m - 1); }
  }

  predicate Matches(r: CameraRange, frame: int) {
    r.frameStart <= frame <= r.frameEnd && (frame - r.frameStart) % r.frameStep == 0
  }

  function FirstMatch(ranges: seq<CameraRange>, frame: int): Option<CameraRange> {
    if ranges == [] then None
    else if Matches(ranges[0], frame) then Some(ranges[0])
    else FirstMatch(ranges[1..], frame)
  }

  method CameraForFrame(frame: int, ranges: seq<CameraRange>, fallback: Option<Object>) returns (c: Option<Object>)
    ensures c == RangeCamera(frame, ranges, fallback)
  {
    for i := 0 to |ranges|
      invariant FirstMatch(ranges, frame) == FirstMatch(ranges[i..], frame)
    {
      assert ranges[i..][1..] == ranges[i + 1..];
      if frame < ranges[i].frameStart || frame > ranges[i].frameEnd { continue; }
      if (frame - ranges[i].frameStart) % ranges[i].frameStep != 0 { continue; }
      return Some(ranges[i].camera);
    }
    return fallback;
  }

  function RangeCamera(frame: int, ranges: seq<CameraRange>, fallback: Option<Object>): Option<Object> {
    var r := FirstMatch(ranges, frame);
    if r.Some? then Some(r.value.camera) else fallback
  }

  ghost predicate Ascending(ranges: seq<CameraRange>) {
    forall i, j :: 0 <= i < j < |ranges| ==> !Before(ranges[j], ranges[i])
  }

  lemma {:induction false} InsertRangeAscending(r: CameraRange, sorted: seq<CameraRange>)
    requires Ascending(sorted)
    ensures Ascending(InsertRange(r, sorted))
    ensures forall x :: x in InsertRange(r, sorted) ==> x == r || x in sorted
  {
    if sorted != [] && Before(sorted[0], r) {
      InsertRangeAscending(r, sorted[1..]);
      var rest := InsertRange(r, sorted[1..]);
      forall k | 0 <= k < |rest| ensures !Before(rest[k], sorted[0]) {
        assert rest[k] == r || rest[k] in sorted[1..];
      }
    }
  }

  lemma {:induction false} FirstMatchInsert(r: CameraRange, sorted: seq<CameraRange>, frame: int)
    requires Ascending(sorted)
    ensures var old_, new_ := FirstMatch(sorted, frame), FirstMatch(InsertRange(r, sorted), frame);
      new_ == if Matches(r, frame) && (old_.None? || !Before(old_.value, r)) then Some(r) else old_
  {
    if sorted == [] || !Before(sorted[0], r) {
      assert ([r] + sorted)[1..] == sorted;
      FirstMatchNotBefore(sorted, r, frame);
    } else {
      FirstMatchInsert(r, sorted[1..], frame);
      var rest := InsertRange(r, sorted[1..]);
      assert ([sorted[0]] + rest)[1..] == rest;
    }
  }

  lemma {:induction false} FirstMatchNotBefore(sorted: seq<CameraRange>, r: CameraRange, frame: int)
    requires Ascending(sorted) && (sorted == [] || !Before(sorted[0], r))
    ensures FirstMatch(sorted, frame).Some? ==> !Before(FirstMatch(sorted, frame).value, r)
  {
    if sorted != [] && !Matches(sorted[0], frame) {
      if |sorted| > 1 { assert !Before(sorted[1], sorted[0]); }
      FirstMatchNotBefore(sorted[1..], r, frame);
    }
  }

  /** Which range decides a frame, in terms of the list as given: of the ranges that contain the frame on their step,
      the one that starts earliest, then ends earliest, then comes first; the fallback if there is none. */
  lemma {:induction false} EarliestRangeWins(ranges: seq<CameraRange>, frame: int)
    ensures Ascending(SortedRanges(ranges))
    ensures var r := FirstMatch(SortedRanges(ranges), frame);
      && (r.None? <==> forall j :: 0 <= j < |ranges| ==> !Matches(ranges[j], frame))
      && (r.Some? ==> exists i :: 0 <= i < |ranges| && ranges[i] == r.value && Wins(ranges, i, frame))
  {
    if ranges != [] {
      var head, tail := ranges[0], ranges[1..];
      EarliestRangeWins(tail, frame);
      InsertRangeAscending(head, SortedRanges(tail));
      FirstMatchInsert(head, SortedRanges(tail), frame);
      var r, r' := FirstMatch(SortedRanges(ranges), frame), FirstMatch(SortedRanges(tail), frame);
      if r == r' && r.Some? && !(Matches(head, frame) && !Before(r.value, head)) {
        var i :| 0 <= i < |tail| && tail[i] == r.value && Wins(tail, i, frame);
        assert ranges[i + 1] == r.value;
        forall j | 0 <= j < |ranges| && Matches(ranges[j], frame)
          ensures Before(r.value, ranges[j]) || (!Before(ranges[j], r.value) && i + 1 <= j)
        {
          if j > 0 { assert ranges[j] == tail[j - 1]; }
        }
        assert Wins(ranges, i + 1, frame);
      } else if r.Some? {
        forall j | 0 <= j < |ranges| && Matches(ranges[j], frame)
          ensures Before(head, ranges[j]) || (!Before(ranges[j], head) && 0 <= j)
        {
          if j > 0 {
            assert ranges[j] == tail[j - 1] && Matches(tail[j - 1], frame);
            var i :| 0 <= i < |tail| && tail[i] == r'.value && Wins(tail, i, frame);
          }
        }
        assert Wins(ranges, 0, frame);
      } else {
        forall j | 0 <= j < |ranges| ensures !Matches(ranges[j], frame) {
          if j > 0 { assert ranges[j] == tail[j - 1]; }
        }
      }
    }
  }

  ghost predicate Wins(ranges: seq<CameraRange>, i: nat, frame: int)
    requires i < |ranges|
  {
    Matches(ranges[i], frame)
    && forall j :: 0 <= j < |ranges| && Matches(ranges[j], frame) ==>
         Before(ranges[i], ranges[j]) || (!Before(ranges[j], ranges[i]) && i <= j)
  }

  // ---------------------------------------------------------------------------
  // Assignments
  // ---------------------------------------------------------------------------

  /** How the camera of a frame is found, once the overrides are resolved. */
  datatype Resolver = ByRanges(ranges: seq<CameraRange>) | Forced(camera: Option<Object>) | ByMarkers

  function ResolverFor(scene: Scene, o: Overrides): Result<Resolver> {
    match o.mode
    case CameraRanges =>
      (match Usable(scene, o.ranges, |o.ranges|)
       case Err(e) => Err(e)
       case Ok(ranges) => if ranges == [] then Err(NoRanges) else Ok(ByRanges(SortedRanges(ranges))))
    case ForceCamera =>
      var forced := if o.cameraName.Some? then FindCamera(scene, o.cameraName.value) else None;
      Ok(Forced(if forced.Some? then forced else scene.camera))
    case AutoMarkers => Ok(ByMarkers)
  }

  function Resolve(scene: Scene, r: Resolver, frame: int): Option<Object> {
    match r
    case ByRanges(ranges) => RangeCamera(frame, ranges, scene.camera)
    case Forced(camera) => camera
    case ByMarkers => MarkerCamera(scene, frame)
  }

  function Prepended(done: Assignments, rest: Result<Assignments>): Result<Assignments> {
    match rest case Err(e) => Err(e) case Ok(more) => Ok(done + more)
  }

  /** The camera of every listed frame, or the first frame without one. */
  function Assigned(scene: Scene, r: Resolver, frames: seq<int>): Result<Assignments> {
    if frames == [] then Ok([])
    else
      var camera := Resolve(scene, r, frames[0]);
      if camera.None? || !camera.value.isCamera then Err(NoCamera(frames[0]))
      else Prepended([(frames[0], camera.value)], Assigned(scene, r, frames[1..]))
  }

  function Built(scene: Scene, o: Overrides, start: int, end: int, step: int): Result<Assignments> {
    var frames := Frames(start, end, AtLeast1(step));
    if frames == [] then Err(NoFrames)
    else
      match ResolverFor(scene, o)
      case Err(e) => Err(e)
      case Ok(r) => Assigned(scene, r, frames)
  }

  method BuildCameraAssignments(scene: Scene, o: Overrides, start: int, end: int, step: int)
    returns (r: Result<Assignments>)
    ensures r == Built(scene, o, start, end, step)
  {
    var frames := Frames(start, end, AtLeast1(step));
    if frames == [] {
      return Err(NoFrames);
    }
    var ranges: seq<CameraRange>, forced: Option<Object> := [], None;
    match o.mode {
      case CameraRanges =>
        SortedRangesEmpty(scene, o.ranges);
        var normalized := NormalizeCameraRanges(scene, o.ranges);
        if normalized.Err? { return Err(normalized.error); }
        ranges := normalized.value;
        if ranges == [] { return Err(NoRanges); }
      case ForceCamera =>
        forced := FindCamera(scene, if o.cameraName.Some? then o.cameraName.value else "");
        if forced.None? { forced := scene.camera; }
      case AutoMarkers =>
    }
    ghost var resolver := ResolverFor(scene, o).value;
    var assignments: Assignments := [];
    assert frames[0..] == frames;
    PrependNothing(Assigned(scene, resolver, frames));
    for i := 0 to |frames|
      invariant Prepended(assignments, Assigned(scene, resolver, frames[i..])) == Assigned(scene, resolver, frames)
    {
      assert frames[i..][0] == frames[i] && frames[i..][1..] == frames[i + 1..];
      var camera: Option<Object>;
      match o.mode {
        case CameraRanges => camera := CameraForFrame(frames[i], ranges, scene.camera);
        case ForceCamera => camera := forced;
        case AutoMarkers => camera := FindMarkerCamera(scene, frames[i]);
      }
      assert camera == Resolve(scene, resolver, frames[i]);
      if camera.None? || !camera.value.isCamera {
        return Err(NoCamera(frames[i]));
      }
      PrependStep(assignments, (frames[i], camera.value), Assigned(scene, resolver, frames[i + 1..]));
      assignments := assignments + [(frames[i], camera.value)];
    }
    assert frames[|frames|..] == [] && assignments + [] == assignments;
    return Ok(assignments);
  }

  lemma PrependNothing(r: Result<Assignments>)
    ensures Prepended([], r) == r
  {
    if r.Ok? { assert [] + r.value == r.value; }
  }

  lemma PrependStep(done: Assignments, a: (int, Object), rest: Result<Assignments>)
    ensures Prepended(done, Prepended([a], rest)) == Prepended(done + [a], rest)
  {
    if rest.Ok? { assert done + ([a] + rest.value) == done + [a] + rest.value; }
  }

  lemma SortedRangesEmpty(scene: Scene, rows: seq<RawRange>)
    ensures Usable(scene, rows, |rows|).Ok? ==>
      (SortedRanges(Usable(scene, rows, |rows|).value) == [] <==> Usable(scene, rows, |rows|).value == [])
  {
  }

  /** A run of the driver on the range its environment names: bounds below 1 are raised to 1, an empty range is refused. */
  function DriverRun(scene: Scene, o: Overrides, start: int, end: int, step: int): Result<Assignments> {
    if AtLeast1(end) < AtLeast1(start) then Err(InvalidFrameRange)
    else Built(scene, o, AtLeast1(start), AtLeast1(end), AtLeast1(step))
  }

  // ---------------------------------------------------------------------------
  // Totals
  // ---------------------------------------------------------------------------

  lemma {:induction false} AssignedLength(scene: Scene, r: Resolver, frames: seq<int>)
    requires Assigned(scene, r, frames).Ok?
    ensures var a := Assigned(scene, r, frames).value;
      |a| == |frames| && forall i :: 0 <= i < |a| ==>
        a[i].0 == frames[i] && a[i].1.isCamera && Some(a[i].1) == Resolve(scene, r, frames[i])
  {
    if frames != [] { AssignedLength(scene, r, frames[1..]); }
  }

  /** _compute_total_frames is the number of assignments the driver goes through. */
  lemma TotalIsAssignments(scene: Scene, o: Overrides, start: int, end: int, step: Step)
    requires Built(scene, o, start, end, step).Ok?
    ensures |Built(scene, o, start, end, step).value| == Count(start, end, step)
  {
    AssignedLength(scene, ResolverFor(scene, o).value, Frames(start, end, step));
    FramesLength(start, end, step);
  }
}
