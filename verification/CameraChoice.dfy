/** Which camera renders a frame and which override entries are refused, stated on the scene and the overrides alone. */
module CameraChoice {
  import opened Grid
  import opened RenderJobs
  import opened RenderDriver

  // ---------------------------------------------------------------------------
  // Markers
  // ---------------------------------------------------------------------------

  /** A marker at or before the frame that carries a real camera. */
  predicate Carries(m: Marker, frame: int) {
    m.frame <= frame && m.camera != None && m.camera.value.isCamera
  }

  /** Marker i decides the frame: every other one that could is earlier, or on the same frame and listed later. */
  ghost predicate Decides(markers: seq<Marker>, i: nat, frame: int) {
    && i < |markers| && Carries(markers[i], frame)
    && forall j :: 0 <= j < |markers| && j != i && Carries(markers[j], frame) ==>
         markers[j].frame < markers[i].frame || (markers[j].frame == markers[i].frame && i < j)
  }

  ghost predicate CameraByMarkers(scene: Scene, frame: int, camera: Option<Object>) {
    || (exists i: nat :: Decides(scene.markers, i, frame) && camera == scene.markers[i].camera)
    || (camera == scene.camera && forall i :: 0 <= i < |scene.markers| ==> !Carries(scene.markers[i], frame))
  }

  /** Whichever marker decides the frame gives it its camera; the scene does if no marker can. */
  lemma MarkersDecide(scene: Scene, frame: int, i: nat)
    ensures Decides(scene.markers, i, frame) ==> MarkerCamera(scene, frame) == scene.markers[i].camera
    ensures (forall j :: 0 <= j < |scene.markers| ==> !Carries(scene.markers[j], frame)) ==>
      MarkerCamera(scene, frame) == scene.camera
    ensures CameraByMarkers(scene, frame, MarkerCamera(scene, frame))
  {
    var best := BestMarker(scene.markers, |scene.markers|, frame);
    BestMarkerIsLatest(scene.markers, |scene.markers|, frame);
    assert forall m: Marker :: Qualifies(m, frame) <==> Carries(m, frame);
    if best.Some? {
      assert Decides(scene.markers, best.value, frame);
    }
  }

  // ---------------------------------------------------------------------------
  // Override entries
  // ---------------------------------------------------------------------------

  /** Nothing but white space is taken off a name, and all of it at both ends. */
  lemma StripTrims(s: string)
    ensures exists left, right :: s == left + Strip(s) + right && (forall c :: c in left + right ==> IsSpace(c))
    ensures Strip(s) != "" ==> !IsSpace(Strip(s)[0]) && !IsSpace(Strip(s)[|Strip(s)| - 1])
  {
    var left := LStripTrims(s);
    var right := RStripTrims(LStrip(s));
    assert s == left + Strip(s) + right;
  }

  lemma {:induction false} LStripTrims(s: string) returns (left: string)
    ensures s == left + LStrip(s) && (forall c :: c in left ==> IsSpace(c))
    ensures LStrip(s) != "" ==> !IsSpace(LStrip(s)[0])
  {
    left := "";
    if s != "" && IsSpace(s[0]) {
      var rest := LStripTrims(s[1..]);
      left := [s[0]] + rest;
      assert s == [s[0]] + s[1..];
    }
  }

  lemma {:induction false} RStripTrims(s: string) returns (right: string)
    ensures s == RStrip(s) + right && (forall c :: c in right ==> IsSpace(c))
    ensures RStrip(s) != "" ==> RStrip(s)[0] == s[0] && !IsSpace(RStrip(s)[|RStrip(s)| - 1])
  {
    right := "";
    if s != "" && IsSpace(s[|s| - 1]) {
      var rest := RStripTrims(s[..|s| - 1]);
      right := rest + [s[|s| - 1]];
      assert s == s[..|s| - 1] + [s[|s| - 1]];
    }
  }

  /** A table that is not switched off. */
  predicate IsOn(row: RawRange) {
    row.Row? && row.enabled != Some(false)
  }

  predicate IsNamed(row: RawRange)
    requires row.Row?
  {
    row.cameraName.Some? && Strip(row.cameraName.value) != ""
  }

  /** Its bounds are there and, both raised to 1, in order. */
  predicate IsBounded(row: RawRange)
    requires row.Row?
  {
    row.frameStart.Some? && row.frameEnd.Some? && Max(1, row.frameStart.value) <= Max(1, row.frameEnd.value)
  }

  predicate IsCamera(scene: Scene, name: string, camera: Object) {
    name != "" && name in scene.objects && scene.objects[name] == camera && camera.isCamera
  }

  /** The range an entry stands for: its own camera and bounds, and step 1 if it has none. */
  predicate Describes(scene: Scene, row: RawRange, r: CameraRange) {
    && IsOn(row) && IsNamed(row) && IsBounded(row)
    && IsCamera(scene, Strip(row.cameraName.value), r.camera)
    && r.frameStart == Max(1, row.frameStart.value) && r.frameEnd == Max(1, row.frameEnd.value)
    && r.frameStep == if row.frameStep.Some? then Max(1, row.frameStep.value) else 1
  }

  /** Why an entry is refused. */
  ghost predicate Refuses(scene: Scene, row: RawRange, index: nat, e: Error) {
    && IsOn(row)
    && match e
       case MissingName(k) => k == index && !IsNamed(row)
       case InvalidRange(k) => k == index && IsNamed(row) && !IsBounded(row)
       case CameraNotFound(k) => k == index && IsNamed(row) && IsBounded(row)
         && forall camera :: !IsCamera(scene, Strip(row.cameraName.value), camera)
       case _ => false
  }

  /** An entry is refused, and every one before it is off or a range. */
  ghost predicate FirstRefused(scene: Scene, rows: seq<RawRange>, e: Error) {
    exists k :: 0 <= k < |rows| && Refuses(scene, rows[k], k, e)
      && forall j :: 0 <= j < k && IsOn(rows[j]) ==> exists r :: Describes(scene, rows[j], r)
  }

  lemma EntryBecomesRange(scene: Scene, row: RawRange, index: nat)
    ensures match Normalized(scene, row, index)
            case Ok(None) => !IsOn(row)
            case Ok(Some(r)) => IsOn(row) && Describes(scene, row, r)
            case Err(e) => Refuses(scene, row, index, e)
  {
    hide Strip;
  }

  lemma RefusedAmongMore(scene: Scene, rows: seq<RawRange>, n: nat, e: Error)
    requires n < |rows| && FirstRefused(scene, rows[..n], e)
    ensures FirstRefused(scene, rows[..n + 1], e)
  {
    hide Refuses, IsOn, Describes;
    var some, more := rows[..n], rows[..n + 1];
    var k :| 0 <= k < n && Refuses(scene, some[k], k, e)
      && forall j :: 0 <= j < k && IsOn(some[j]) ==> exists r :: Describes(scene, some[j], r);
    assert forall j :: 0 <= j <= k ==> more[j] == some[j];
  }

  lemma RefusedLast(scene: Scene, rows: seq<RawRange>, n: nat, e: Error, at: seq<nat>, ranges: seq<CameraRange>)
    requires n < |rows| && Refuses(scene, rows[n], n, e) && |at| == |ranges|
    requires forall k :: 0 <= k < n && IsOn(rows[k]) ==> k in at
    requires forall i :: 0 <= i < |at| ==> at[i] < n && Describes(scene, rows[at[i]], ranges[i])
    ensures FirstRefused(scene, rows[..n + 1], e)
  {
    hide Refuses, IsOn, Describes;
    var some := rows[..n + 1];
    assert some[n] == rows[n];
    forall j | 0 <= j < n && IsOn(some[j]) ensures exists r :: Describes(scene, some[j], r) {
      var i :| 0 <= i < |at| && at[i] == j;
      assert Describes(scene, rows[j], ranges[i]);
    }
  }

  /** The ranges are those of the entries switched on, in their order; an error is that of the first one refused. */
  lemma {:induction false} EntriesBecomeRanges(scene: Scene, rows: seq<RawRange>, n: nat) returns (at: seq<nat>)
    requires n <= |rows|
    ensures match Usable(scene, rows, n)
            case Err(e) => FirstRefused(scene, rows[..n], e)
            case Ok(ranges) =>
              && |at| == |ranges| && (forall i :: 0 <= i < |at| ==> at[i] < n && Describes(scene, rows[at[i]], ranges[i]))
              && (forall i, j :: 0 <= i < j < |at| ==> at[i] < at[j])
              && (forall k :: 0 <= k < n ==> (IsOn(rows[k]) <==> k in at))
  {
    hide Normalized, Describes, Refuses, FirstRefused, IsOn;
    at := [];
    if n > 0 {
      var before := EntriesBecomeRanges(scene, rows, n - 1);
      EntryBecomesRange(scene, rows[n - 1], n - 1);
      at := before;
      match Usable(scene, rows, n - 1)
      case Err(e) => RefusedAmongMore(scene, rows, n - 1, e);
      case Ok(ranges) =>
        match Normalized(scene, rows[n - 1], n - 1)
        case Ok(None) =>
        case Ok(Some(range)) => at := before + [n - 1];
        case Err(e) => RefusedLast(scene, rows, n - 1, e, before, ranges);
    }
  }

  // ---------------------------------------------------------------------------
  // Ranges
  // ---------------------------------------------------------------------------

  predicate Contains(r: CameraRange, frame: int) {
    r.frameStart <= frame <= r.frameEnd && (frame - r.frameStart) % r.frameStep == 0
  }

  /** Range r of entry i comes before range q of entry j: it starts earlier, or then ends earlier, or then is listed earlier. */
  predicate Precedes(r: CameraRange, i: nat, q: CameraRange, j: nat) {
    || r.frameStart < q.frameStart
    || (r.frameStart == q.frameStart && (r.frameEnd < q.frameEnd || (r.frameEnd == q.frameEnd && i < j)))
  }

  /** Entry i decides the frame, with the range r: no other entry that contains the frame comes before it. */
  ghost predicate EntryDecides(scene: Scene, rows: seq<RawRange>, i: nat, r: CameraRange, frame: int) {
    && i < |rows| && Describes(scene, rows[i], r) && Contains(r, frame)
    && forall j: nat, q :: j < |rows| && j != i && Describes(scene, rows[j], q) && Contains(q, frame) ==> Precedes(r, i, q, j)
  }

  ghost predicate CameraByEntries(scene: Scene, rows: seq<RawRange>, frame: int, camera: Option<Object>) {
    || (exists i: nat, r :: EntryDecides(scene, rows, i, r, frame) && camera == Some(r.camera))
    || (camera == scene.camera && forall j: nat, q :: j < |rows| && Describes(scene, rows[j], q) ==> !Contains(q, frame))
  }

  lemma DescribedOnce(scene: Scene, row: RawRange, r: CameraRange, q: CameraRange)
    requires Describes(scene, row, r) && Describes(scene, row, q)
    ensures r == q && IsOn(row)
  {
    hide Strip;
  }

  lemma EntryOf(scene: Scene, rows: seq<RawRange>, at: seq<nat>, ranges: seq<CameraRange>, j: nat, q: CameraRange)
    returns (k: nat)
    requires j < |rows| && Describes(scene, rows[j], q) && |at| == |ranges|
    requires forall i :: 0 <= i < |at| ==> at[i] < |rows| && Describes(scene, rows[at[i]], ranges[i])
    requires forall i :: 0 <= i < |rows| && IsOn(rows[i]) ==> i in at
    ensures k < |at| && at[k] == j && ranges[k] == q
  {
    hide Describes, IsOn;
    DescribedOnce(scene, rows[j], q, q);
    k :| 0 <= k < |at| && at[k] == j;
    DescribedOnce(scene, rows[j], q, ranges[k]);
  }

  /** The range the search finds, among the sorted ones, is that of the entry that decides. */
  lemma EntriesDecide(scene: Scene, rows: seq<RawRange>, frame: int)
    requires Usable(scene, rows, |rows|).Ok?
    ensures var sorted := SortedRanges(Usable(scene, rows, |rows|).value);
      CameraByEntries(scene, rows, frame, RangeCamera(frame, sorted, scene.camera))
  {
    hide Usable, SortedRanges, FirstMatch, Describes, IsOn;
    var ranges := Usable(scene, rows, |rows|).value;
    var at := EntriesBecomeRanges(scene, rows, |rows|);
    EarliestRangeWins(ranges, frame);
    var best := FirstMatch(SortedRanges(ranges), frame);
    if best.None? {
      forall j: nat, q | j < |rows| && Describes(scene, rows[j], q) ensures !Contains(q, frame) {
        var k := EntryOf(scene, rows, at, ranges, j, q);
        assert !Matches(ranges[k], frame);
      }
    } else {
      var i :| 0 <= i < |ranges| && ranges[i] == best.value && Wins(ranges, i, frame);
      WinnerDecides(scene, rows, at, ranges, i, frame);
    }
  }

  lemma WinnerDecides(scene: Scene, rows: seq<RawRange>, at: seq<nat>, ranges: seq<CameraRange>, i: nat, frame: int)
    requires |at| == |ranges| && i < |ranges| && Wins(ranges, i, frame)
    requires forall k :: 0 <= k < |at| ==> at[k] < |rows| && Describes(scene, rows[at[k]], ranges[k])
    requires forall k, l :: 0 <= k < l < |at| ==> at[k] < at[l]
    requires forall k :: 0 <= k < |rows| && IsOn(rows[k]) ==> k in at
    ensures EntryDecides(scene, rows, at[i], ranges[i], frame)
  {
    hide Describes, IsOn;
    forall j: nat, q | j < |rows| && j != at[i] && Describes(scene, rows[j], q) && Contains(q, frame)
      ensures Precedes(ranges[i], at[i], q, j)
    {
      var k := EntryOf(scene, rows, at, ranges, j, q);
      assert Matches(ranges[k], frame);
    }
  }

  // ---------------------------------------------------------------------------
  // The whole run
  // ---------------------------------------------------------------------------

  /** Who gives the frame its camera, by mode; with a forced camera only the scene's own can stand in. */
  ghost predicate IsFor(scene: Scene, o: Overrides, frame: int, camera: Option<Object>) {
    match o.mode
    case AutoMarkers => CameraByMarkers(scene, frame, camera)
    case CameraRanges => CameraByEntries(scene, o.ranges, frame, camera)
    case ForceCamera =>
      || (o.cameraName.Some? && exists forced :: IsCamera(scene, o.cameraName.value, forced) && camera == Some(forced))
      || (camera == scene.camera && (o.cameraName.Some? ==> forall c :: !IsCamera(scene, o.cameraName.value, c)))
  }

  predicate CanRender(camera: Option<Object>) {
    camera.Some? && camera.value.isCamera
  }

  lemma ResolvedIsFor(scene: Scene, o: Overrides, frame: int)
    requires ResolverFor(scene, o).Ok?
    ensures IsFor(scene, o, frame, Resolve(scene, ResolverFor(scene, o).value, frame))
  {
    match o.mode
    case AutoMarkers =>
      MarkersDecide(scene, frame, 0);
    case CameraRanges =>
      EntriesDecide(scene, o.ranges, frame);
    case ForceCamera =>
      if o.cameraName.Some? {
        var found := FindCamera(scene, o.cameraName.value);
        if found.Some? { assert IsCamera(scene, o.cameraName.value, found.value); }
      }
  }

  lemma {:induction false} FirstRefusal(scene: Scene, r: Resolver, frames: seq<int>)
    requires Assigned(scene, r, frames).Err?
    ensures exists k :: 0 <= k < |frames| && Assigned(scene, r, frames) == Err(NoCamera(frames[k]))
                        && !CanRender(Resolve(scene, r, frames[k]))
                        && forall j :: 0 <= j < k ==> CanRender(Resolve(scene, r, frames[j]))
  {
    if CanRender(Resolve(scene, r, frames[0])) {
      FirstRefusal(scene, r, frames[1..]);
      var k :| 0 <= k < |frames[1..]| && Assigned(scene, r, frames[1..]) == Err(NoCamera(frames[1..][k]))
        && !CanRender(Resolve(scene, r, frames[1..][k]))
        && forall j :: 0 <= j < k ==> CanRender(Resolve(scene, r, frames[1..][j]));
      assert frames[k + 1] == frames[1..][k];
      forall j | 0 <= j < k + 1 ensures CanRender(Resolve(scene, r, frames[j])) {
        if j > 0 { assert frames[j] == frames[1..][j - 1]; }
      }
    }
  }

  /** The first frame whose camera is missing or not a camera. */
  ghost predicate FirstWithout(scene: Scene, o: Overrides, frames: seq<int>, f: int) {
    exists k, camera :: 0 <= k < |frames| && frames[k] == f && IsFor(scene, o, f, camera) && !CanRender(camera)
      && forall j :: 0 <= j < k ==> exists c :: IsFor(scene, o, frames[j], c) && CanRender(c)
  }

  /** Why a run is refused: no frame, no entry switched on, the first bad entry, or the first frame without a camera. */
  ghost predicate RightlyRefused(scene: Scene, o: Overrides, frames: seq<int>, e: Error) {
    if frames == [] then e.NoFrames?
    else if e.NoCamera? then FirstWithout(scene, o, frames, e.frame)
    else
      && o.mode.CameraRanges?
      && if e.NoRanges? then forall row :: row in o.ranges ==> !IsOn(row) else FirstRefused(scene, o.ranges, e)
  }

  lemma EntriesRefused(scene: Scene, o: Overrides, frames: seq<int>)
    requires frames != [] && ResolverFor(scene, o).Err?
    ensures RightlyRefused(scene, o, frames, ResolverFor(scene, o).error)
  {
    hide Usable, SortedRanges, Describes, IsOn;
    var rows := o.ranges;
    var at := EntriesBecomeRanges(scene, rows, |rows|);
    assert rows[..|rows|] == rows;
    if ResolverFor(scene, o).error.NoRanges? {
      assert Usable(scene, rows, |rows|) == Ok([]);
      forall row | row in rows ensures !IsOn(row) {
        var k :| 0 <= k < |rows| && rows[k] == row;
      }
    }
  }

  lemma CameraMissing(scene: Scene, o: Overrides, frames: seq<int>)
    requires ResolverFor(scene, o).Ok? && Assigned(scene, ResolverFor(scene, o).value, frames).Err?
    ensures RightlyRefused(scene, o, frames, Assigned(scene, ResolverFor(scene, o).value, frames).error)
  {
    hide IsFor, Resolve, CanRender, ResolverFor, FirstRefused;
    var r := ResolverFor(scene, o).value;
    FirstRefusal(scene, r, frames);
    var k :| 0 <= k < |frames| && Assigned(scene, r, frames) == Err(NoCamera(frames[k]))
      && !CanRender(Resolve(scene, r, frames[k])) && forall j :: 0 <= j < k ==> CanRender(Resolve(scene, r, frames[j]));
    forall f ensures IsFor(scene, o, f, Resolve(scene, r, f)) { ResolvedIsFor(scene, o, f); }
    assert IsFor(scene, o, frames[k], Resolve(scene, r, frames[k]));
  }

  /** Which camera every frame gets, or why the run is refused. */
  lemma EveryFrameGetsItsCamera(scene: Scene, o: Overrides, start: int, end: int, step: int)
    ensures var frames := Frames(start, end, Max(1, step));
      match Built(scene, o, start, end, step)
      case Ok(a) => frames != [] && |a| == |frames| && forall k :: 0 <= k < |frames| ==>
        a[k].0 == frames[k] && a[k].1.isCamera && IsFor(scene, o, frames[k], Some(a[k].1))
      case Err(e) => RightlyRefused(scene, o, frames, e)
  {
    hide IsFor, Resolve, Assigned, ResolverFor;
    var frames := Frames(start, end, Max(1, step));
    if frames != [] {
      if ResolverFor(scene, o).Err? {
        EntriesRefused(scene, o, frames);
      } else {
        var r := ResolverFor(scene, o).value;
        if Assigned(scene, r, frames).Ok? {
          AssignedLength(scene, r, frames);
          forall f ensures IsFor(scene, o, f, Resolve(scene, r, f)) { ResolvedIsFor(scene, o, f); }
        } else {
          CameraMissing(scene, o, frames);
        }
      }
    }
  }
}
