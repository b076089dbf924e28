/** Exactly when splitting preserves meaning: when the driver's work on the planned chunks, put together, is its work on the whole
    range. */
module ChunkedRender {
  import opened Grid
  import opened RenderJobs
  import opened RenderDriver
  import opened Tiling
  import opened Fairness
  import FD = FrameDistribution

  /** One piece of work after another: all assignments in order, or the first error. */
  function Then(first: Result<Assignments>, second: Result<Assignments>): Result<Assignments> {
    if first.Err? then first else Prepended(first.value, second)
  }

  function Joined(results: seq<Result<Assignments>>): Result<Assignments> {
    if results == [] then Ok([]) else Then(results[0], Joined(results[1..]))
  }

  lemma ThenAssoc(x: Result<Assignments>, y: Result<Assignments>, z: Result<Assignments>)
    ensures Then(Then(x, y), z) == Then(x, Then(y, z))
  {
    if x.Ok? && y.Ok? { PrependStep2(x.value, y.value, z); }
  }

  lemma PrependStep2(a: Assignments, b: Assignments, rest: Result<Assignments>)
    ensures Prepended(a, Prepended(b, rest)) == Prepended(a + b, rest)
  {
    if rest.Ok? { assert a + (b + rest.value) == a + b + rest.value; }
  }

  lemma {:induction false} AssignedConcat(scene: Scene, r: Resolver, xs: seq<int>, ys: seq<int>)
    ensures Assigned(scene, r, xs + ys) == Then(Assigned(scene, r, xs), Assigned(scene, r, ys))
  {
    if xs == [] {
      assert xs + ys == ys;
      PrependNothing(Assigned(scene, r, ys));
    } else {
      AssignedConcat(scene, r, xs[1..], ys);
      assert (xs + ys)[1..] == xs[1..] + ys;
      var camera := Resolve(scene, r, xs[0]);
      if camera.Some? && camera.value.isCamera {
        ThenAssoc(Ok([(xs[0], camera.value)]), Assigned(scene, r, xs[1..]), Assigned(scene, r, ys));
      }
    }
  }

  /** The chunks that have a frame to render. */
  function NonEmpty(chunks: seq<FD.Assignment>): (r: seq<FD.Assignment>)
    ensures forall a :: a in r ==> a in chunks && a.totalFrames > 0
  {
    if chunks == [] then []
    else (if chunks[0].totalFrames > 0 then [chunks[0]] else []) + NonEmpty(chunks[1..])
  }

  function RunChunks(scene: Scene, o: Overrides, chunks: seq<FD.Assignment>): (r: seq<Result<Assignments>>)
    ensures |r| == |chunks|
    ensures forall i :: 0 <= i < |chunks| ==>
      r[i] == DriverRun(scene, o, chunks[i].frameStart, chunks[i].frameEnd, chunks[i].frameStep)
  {
    seq(|chunks|, i requires 0 <= i < |chunks| =>
      DriverRun(scene, o, chunks[i].frameStart, chunks[i].frameEnd, chunks[i].frameStep))
  }

  // ---------------------------------------------------------------------------
  // The frames the chunks render
  // ---------------------------------------------------------------------------

  /** What the driver renders of the chunks, each with its bounds raised to at least 1. */
  function Raised(chunks: seq<FD.Assignment>, step: Step): seq<int> {
    if chunks == [] then []
    else Frames(AtLeast1(chunks[0].frameStart), AtLeast1(chunks[0].frameEnd), step) + Raised(chunks[1..], step)
  }

  /** Chunks of one step, each with a frame. */
  predicate AllNonEmpty(chunks: seq<FD.Assignment>, step: Step) {
    forall i :: 0 <= i < |chunks| ==> chunks[i].frameStep == step && chunks[i].frameStart <= chunks[i].frameEnd
  }

  lemma RunIsAssigned(scene: Scene, o: Overrides, r: Resolver, start: int, end: int, step: Step)
    requires start <= end && ResolverFor(scene, o) == Ok(r)
    ensures DriverRun(scene, o, start, end, step) == Assigned(scene, r, Frames(AtLeast1(start), AtLeast1(end), step))
    ensures Frames(AtLeast1(start), AtLeast1(end), step) != []
  {
  }

  /** The runs on the chunks assign cameras to exactly the raised frames. */
  lemma {:induction false} ChunksAssignRaised(scene: Scene, o: Overrides, r: Resolver, chunks: seq<FD.Assignment>, step: Step)
    requires AllNonEmpty(chunks, step) && ResolverFor(scene, o) == Ok(r)
    ensures Joined(RunChunks(scene, o, chunks)) == Assigned(scene, r, Raised(chunks, step))
  {
    var runs := RunChunks(scene, o, chunks);
    if chunks != [] {
      var a, rest := chunks[0], chunks[1..];
      ChunksAssignRaised(scene, o, r, rest, step);
      assert runs[1..] == RunChunks(scene, o, rest);
      RunIsAssigned(scene, o, r, a.frameStart, a.frameEnd, step);
      AssignedConcat(scene, r, Frames(AtLeast1(a.frameStart), AtLeast1(a.frameEnd), step), Raised(rest, step));
    }
  }

  lemma ChunksRefuse(scene: Scene, o: Overrides, chunks: seq<FD.Assignment>, step: Step)
    requires AllNonEmpty(chunks, step) && chunks != [] && ResolverFor(scene, o).Err?
    ensures Joined(RunChunks(scene, o, chunks)) == Err(ResolverFor(scene, o).error)
  {
    assert RunChunks(scene, o, chunks)[0] == Err(ResolverFor(scene, o).error);
  }

  /** For every scene and all overrides, the runs on the chunks join to the run on the range. */
  ghost predicate AlwaysAgree(chunks: seq<FD.Assignment>, start: int, end: int, step: Step) {
    forall scene: Scene, o: Overrides :: Joined(RunChunks(scene, o, chunks)) == DriverRun(scene, o, start, end, step)
  }

  function OneCamera(): Scene { Scene(map[], [], Some(Object("camera", true))) }

  const FORCED := Overrides(ForceCamera, None, [])

  lemma {:induction false} ForcedFrames(frames: seq<int>)
    ensures Assigned(OneCamera(), Forced(OneCamera().camera), frames).Ok?
    ensures |Assigned(OneCamera(), Forced(OneCamera().camera), frames).value| == |frames|
    ensures forall i :: 0 <= i < |frames| ==>
      Assigned(OneCamera(), Forced(OneCamera().camera), frames).value[i].0 == frames[i]
  {
    if frames != [] { ForcedFrames(frames[1..]); }
  }

  /** That is a matter of frames alone. */
  lemma AgreeIffSameFrames(chunks: seq<FD.Assignment>, start: int, end: int, step: Step)
    requires AllNonEmpty(chunks, step) && chunks != [] && start <= end
    ensures AlwaysAgree(chunks, start, end, step)
      <==> Raised(chunks, step) == Frames(AtLeast1(start), AtLeast1(end), step)
  {
    var whole := Frames(AtLeast1(start), AtLeast1(end), step);
    if AlwaysAgree(chunks, start, end, step) {
      var scene, r := OneCamera(), Forced(OneCamera().camera);
      assert ResolverFor(scene, FORCED) == Ok(r);
      ChunksAssignRaised(scene, FORCED, r, chunks, step);
      RunIsAssigned(scene, FORCED, r, start, end, step);
      assert Joined(RunChunks(scene, FORCED, chunks)) == DriverRun(scene, FORCED, start, end, step);
      ForcedFrames(Raised(chunks, step));
      ForcedFrames(whole);
    }
    if Raised(chunks, step) == whole {
      forall scene: Scene, o: Overrides
        ensures Joined(RunChunks(scene, o, chunks)) == DriverRun(scene, o, start, end, step)
      {
        match ResolverFor(scene, o)
        case Ok(r) =>
          ChunksAssignRaised(scene, o, r, chunks, step);
          RunIsAssigned(scene, o, r, start, end, step);
        case Err(_) => ChunksRefuse(scene, o, chunks, step);
      }
    }
  }

  // ---------------------------------------------------------------------------
  // The condition
  // ---------------------------------------------------------------------------

  /** The range begins at frame 1 or later; or frame 1 is on the grid and in the first chunk; or there is one chunk, and
      raising its own end and the range's gives equally many frames. */
  predicate RaisesAlike(chunks: seq<FD.Assignment>, start: int, end: int, step: Step)
    requires chunks != []
  {
    || start >= 1
    || (chunks[0].frameEnd >= 1 && (1 - start) % step == 0)
    || (|chunks| == 1 && Count(1, AtLeast1(end), step) == Count(1, AtLeast1(chunks[0].frameEnd), step))
  }

  lemma {:induction false} RaisedIsCovered(chunks: seq<FD.Assignment>, step: Step)
    requires AllNonEmpty(chunks, step) && forall i :: 0 <= i < |chunks| ==> chunks[i].frameStart >= 1
    ensures Stepped(chunks) && Raised(chunks, step) == Covered(chunks)
  {
    if chunks != [] { RaisedIsCovered(chunks[1..], step); }
  }

  /** Where the later chunks of a tiled range start. */
  lemma LaterStart(chunks: seq<FD.Assignment>, start: int, end: int, step: Step, i: nat)
    requires AllNonEmpty(chunks, step) && Stepped(chunks) && Covered(chunks) == Frames(start, end, step)
    requires 1 <= i < |chunks|
    ensures forall f :: f in FramesOf(chunks[0]) ==> f < chunks[i].frameStart
  {
    FramesBounded(start, end, step);
    assert FramesOf(chunks[i])[0] == chunks[i].frameStart;
    forall f | f in FramesOf(chunks[0]) ensures f < chunks[i].frameStart {
      CoveredOrdered(chunks, 0, i, f, chunks[i].frameStart);
    }
  }

  /** A grid through frame 1 splits there. */
  lemma SplitAtOne(start: int, end: int, step: Step)
    requires start < 1 && (1 - start) % step == 0 && end >= 1
    ensures Frames(start, end, step) == Frames(start, 1 - step, step) + Frames(1, end, step)
    ensures 1 in Frames(start, end, step)
  {
    var q := (1 - start) / step;
    assert q * step == 1 - start;
    FactorPositive(q, step);
    assert (q - 1) * step == q * step - step;
    SplitAt(start, end, step, q);
    assert Cut(start, end, step, q) == 1 - step;
    assert Frames(1, end, step)[0] == 1;
    assert 1 in Frames(1, end, step);
  }

  lemma FactorPositive(q: int, step: Step)
    requires q * step >= 1
    ensures q >= 1
  {
  }

  lemma {:induction false} SameCountSameFrames(start: int, a: int, b: int, step: Step)
    requires Count(start, a, step) == Count(start, b, step)
    ensures Frames(start, a, step) == Frames(start, b, step)
  {
    FramesLength(start, a, step);
    FramesLength(start, b, step);
    var x, y := Frames(start, a, step), Frames(start, b, step);
    forall i | 0 <= i < |x| ensures x[i] == y[i] {
      FrameAt(start, a, step, i);
      FrameAt(start, b, step, i);
    }
  }

  lemma OneChunk(chunks: seq<FD.Assignment>, start: int, end: int, step: Step)
    requires AllNonEmpty(chunks, step) && |chunks| == 1 && start <= end && start < 1
    requires Stepped(chunks) && Covered(chunks) == Frames(start, end, step)
    ensures Raised(chunks, step) == Frames(AtLeast1(start), AtLeast1(end), step) <==> RaisesAlike(chunks, start, end, step)
  {
    var e := chunks[0].frameEnd;
    assert chunks[1..] == [] && Covered(chunks) == FramesOf(chunks[0]) + [];
    assert FramesOf(chunks[0])[0] == chunks[0].frameStart && Frames(start, end, step)[0] == start;
    assert Raised(chunks, step) == Frames(1, AtLeast1(e), step) + [];
    FramesLength(1, AtLeast1(e), step);
    FramesLength(1, AtLeast1(end), step);
    if e >= 1 && (1 - start) % step == 0 {
      SplitAtOne(start, e, step);
      assert 1 in Frames(start, end, step);
      FramesBounded(start, end, step);
      SplitAtOne(start, end, step);
      SuffixesAgree(Frames(start, 1 - step, step), Frames(1, e, step), Frames(1, end, step));
    }
    if Count(1, AtLeast1(end), step) == Count(1, AtLeast1(e), step) {
      SameCountSameFrames(1, AtLeast1(e), AtLeast1(end), step);
    }
  }

  lemma SuffixesAgree(front: seq<int>, x: seq<int>, y: seq<int>)
    requires front + x == front + y
    ensures x == y
  {
    assert x == (front + x)[|front|..];
  }

  /** The first chunk starts where the range does and goes through frame 1. */
  lemma FirstThroughOne(chunks: seq<FD.Assignment>, start: int, end: int, step: Step)
    requires AllNonEmpty(chunks, step) && |chunks| >= 2 && start <= end && start < 1
    requires Stepped(chunks) && Covered(chunks) == Frames(start, end, step)
    requires chunks[0].frameEnd >= 1 && (1 - start) % step == 0
    ensures chunks[0].frameStart == start && end >= 1
    ensures Covered(chunks) == Frames(start, chunks[0].frameEnd, step) + Covered(chunks[1..])
  {
    assert FramesOf(chunks[0])[0] == chunks[0].frameStart && Frames(start, end, step)[0] == start;
    SplitAtOne(start, chunks[0].frameEnd, step);
    assert 1 in Covered(chunks);
    FramesBounded(start, end, step);
  }

  /** Frame 1 is on the grid and in the first chunk: only what lies before it is cut off. */
  lemma ManyChunksAgree(chunks: seq<FD.Assignment>, start: int, end: int, step: Step)
    requires AllNonEmpty(chunks, step) && |chunks| >= 2 && start <= end && start < 1
    requires Stepped(chunks) && Covered(chunks) == Frames(start, end, step)
    requires chunks[0].frameEnd >= 1 && (1 - start) % step == 0
    ensures Raised(chunks, step) == Frames(AtLeast1(start), AtLeast1(end), step)
  {
    var e, rest := chunks[0].frameEnd, chunks[1..];
    FirstThroughOne(chunks, start, end, step);
    SplitAtOne(start, e, step);
    SplitAtOne(start, end, step);
    forall i | 0 <= i < |rest| ensures rest[i].frameStart >= 1 {
      LaterStart(chunks, start, end, step, i + 1);
    }
    hide Covered, Frames;
    RaisedIsCovered(rest, step);
    var front := Frames(start, 1 - step, step);
    assert front + (Frames(1, e, step) + Covered(rest)) == (front + Frames(1, e, step)) + Covered(rest);
    SuffixesAgree(front, Frames(1, e, step) + Covered(rest), Frames(1, end, step));
  }

  /** The second chunk starts one step after the last frame of the first, and one step after the last raised frame. */
  lemma SecondStart(chunks: seq<FD.Assignment>, start: int, end: int, step: Step)
    requires AllNonEmpty(chunks, step) && |chunks| >= 2 && start <= end && start < 1
    requires Stepped(chunks) && Covered(chunks) == Frames(start, end, step)
    requires Raised(chunks, step) == Frames(AtLeast1(start), AtLeast1(end), step)
    ensures var n, m := Count(start, chunks[0].frameEnd, step), Count(1, AtLeast1(chunks[0].frameEnd), step);
      chunks[1].frameStart == start + n * step && AtLeast1(chunks[1].frameStart) == 1 + m * step
  {
    var e, rest := chunks[0].frameEnd, chunks[1..];
    assert FramesOf(chunks[0])[0] == chunks[0].frameStart && Frames(start, end, step)[0] == start;
    var n, m := Count(start, e, step), Count(1, AtLeast1(e), step);
    FramesLength(start, e, step);
    FramesLength(1, AtLeast1(e), step);
    assert Covered(rest)[0] == FramesOf(rest[0])[0] == rest[0].frameStart;
    assert Covered(chunks)[n] == Covered(rest)[0];
    FrameAt(start, end, step, n);
    assert Raised(rest, step)[0] == AtLeast1(rest[0].frameStart);
    assert Raised(chunks, step)[m] == Raised(rest, step)[0];
    FrameAt(1, AtLeast1(end), step, m);
  }

  lemma LastFrame(start: int, end: int, step: Step)
    requires start <= end
    ensures var n := Count(start, end, step); n >= 1 && start + (n - 1) * step <= end < start + n * step
  {
    var d := end - start;
    assert d == step * (d / step) + d % step;
    assert (d / step + 1) * step == step * (d / step) + step;
  }

  lemma SameGrid(start: int, n: int, m: int, step: Step)
    requires start + n * step == 1 + m * step
    ensures (1 - start) % step == 0
  {
    assert (n - m) * step == 1 - start;
    DivUnique(1 - start, step, n - m, 0);
  }

  /** If both steps lead to the same start and only frame 1 is raised, the first chunk ends at frame 1. */
  lemma EndsAtOne(start: int, end: int, n: int, step: Step)
    requires start + n * step == 1 + step && start + (n - 1) * step <= end
    ensures end >= 1
  {
    assert (n - 1) * step == n * step - step;
  }

  lemma ManyChunksDiffer(chunks: seq<FD.Assignment>, start: int, end: int, step: Step)
    requires AllNonEmpty(chunks, step) && |chunks| >= 2 && start <= end && start < 1
    requires Stepped(chunks) && Covered(chunks) == Frames(start, end, step)
    requires Raised(chunks, step) == Frames(AtLeast1(start), AtLeast1(end), step)
    ensures chunks[0].frameEnd >= 1 && (1 - start) % step == 0
  {
    var e := chunks[0].frameEnd;
    var n, m := Count(start, e, step), Count(1, AtLeast1(e), step);
    SecondStart(chunks, start, end, step);
    FirstStart(chunks, start, end, step);
    LastFrame(start, e, step);
    OneFrame(e, step);
    hide *;
    SameSecondStart(start, e, chunks[1].frameStart, n, m, step);
  }

  lemma OneFrame(e: int, step: Step)
    ensures Count(1, AtLeast1(e), step) >= 1 && (e < 1 ==> Count(1, AtLeast1(e), step) == 1)
  {
    LastFrame(1, AtLeast1(e), step);
  }

  /** The second chunk's start is the same whether counted from the first chunk's frames or from its raised ones. */
  lemma SameSecondStart(start: int, e: int, s: int, n: int, m: int, step: Step)
    requires s == start + n * step && AtLeast1(s) == 1 + m * step && m >= 1
    requires start + (n - 1) * step <= e && (e < 1 ==> m == 1)
    ensures e >= 1 && (1 - start) % step == 0
  {
    RaisedSecond(s, 1 + m * step, m, step);
    SameGrid(start, n, m, step);
    if e < 1 { EndsAtOne(start, e, n, step); }
  }

  lemma FirstStart(chunks: seq<FD.Assignment>, start: int, end: int, step: Step)
    requires AllNonEmpty(chunks, step) && chunks != [] && start <= end
    requires Stepped(chunks) && Covered(chunks) == Frames(start, end, step)
    ensures chunks[0].frameStart == start
  {
    assert FramesOf(chunks[0])[0] == chunks[0].frameStart && Frames(start, end, step)[0] == start;
  }

  lemma RaisedSecond(s: int, x: int, m: int, step: Step)
    requires AtLeast1(s) == x == 1 + m * step && m >= 1
    ensures s == x
  {
    MulMono(m, step);
  }

  /** Exactly when raising the chunks' bounds gives the frames of the raised range. */
  lemma RaisedIff(chunks: seq<FD.Assignment>, start: int, end: int, step: Step)
    requires AllNonEmpty(chunks, step) && chunks != [] && start <= end
    requires Stepped(chunks) && Covered(chunks) == Frames(start, end, step)
    ensures Raised(chunks, step) == Frames(AtLeast1(start), AtLeast1(end), step) <==> RaisesAlike(chunks, start, end, step)
  {
    if start >= 1 {
      FramesBounded(start, end, step);
      forall i | 0 <= i < |chunks| ensures chunks[i].frameStart >= 1 {
        assert FramesOf(chunks[i])[0] == chunks[i].frameStart;
        CoveredContains(chunks, i, chunks[i].frameStart);
      }
      RaisedIsCovered(chunks, step);
    } else if |chunks| == 1 {
      OneChunk(chunks, start, end, step);
    } else {
      if RaisesAlike(chunks, start, end, step) { ManyChunksAgree(chunks, start, end, step); }
      if Raised(chunks, step) == Frames(AtLeast1(start), AtLeast1(end), step) { ManyChunksDiffer(chunks, start, end, step); }
    }
  }

  // ---------------------------------------------------------------------------
  // Plans
  // ---------------------------------------------------------------------------

  lemma EmptyChunk(a: FD.Assignment)
    requires a.frameStep >= 1 && a.totalFrames == |FramesOf(a)|
    ensures a.totalFrames > 0 <==> a.frameStart <= a.frameEnd
    ensures a.totalFrames <= 0 ==> FramesOf(a) == []
  {
    FramesLength(a.frameStart, a.frameEnd, a.frameStep);
  }

  lemma {:induction false} NonEmptyCovers(chunks: seq<FD.Assignment>, step: Step)
    requires Stepped(chunks) && Exact(chunks) && forall i :: 0 <= i < |chunks| ==> chunks[i].frameStep == step
    ensures AllNonEmpty(NonEmpty(chunks), step) && Stepped(NonEmpty(chunks))
    ensures Covered(NonEmpty(chunks)) == Covered(chunks)
  {
    hide FramesOf;
    if chunks != [] {
      var a, rest := chunks[0], NonEmpty(chunks[1..]);
      NonEmptyCovers(chunks[1..], step);
      EmptyChunk(a);
      if a.totalFrames > 0 {
        assert NonEmpty(chunks) == [a] + rest && ([a] + rest)[1..] == rest;
      } else {
        assert NonEmpty(chunks) == rest;
        assert [] + Covered(chunks[1..]) == Covered(chunks[1..]);
      }
    }
  }

  /** The planned chunks that have frames. */
  ghost function PlannedChunks(totalFrames: int, start: int, end: int, step: Step, machines: seq<FD.Machine>,
                               round: real -> int, cfg: FD.Config): seq<FD.Assignment>
  {
    NonEmpty(Shares(FD.Planned(totalFrames, start, end, step, machines, round, cfg)))
  }

  /** For any machines, scores and rounding, and any range at all: the driver's runs on the planned chunks with frames join
      to its run on the whole range, for all scenes and overrides, exactly when there is a machine and a frame and the
      chunks' bounds are raised alike. */
  lemma ChunksRenderTheWholeIff(totalFrames: int, start: int, end: int, step: Step, machines: seq<FD.Machine>,
                                round: real -> int, cfg: FD.Config)
    ensures var chunks := PlannedChunks(totalFrames, start, end, step, machines, round, cfg);
      && (chunks == [] <==> machines == [] || start > end)
      && (AlwaysAgree(chunks, start, end, step) <==> chunks != [] && RaisesAlike(chunks, start, end, step))
  {
    PlanTiles(totalFrames, start, end, step, machines, round, cfg);
    var shares := Shares(FD.Planned(totalFrames, start, end, step, machines, round, cfg));
    var chunks := PlannedChunks(totalFrames, start, end, step, machines, round, cfg);
    NonEmptyCovers(shares, step);
    if machines == [] || start > end {
      if chunks != [] { NonEmptyCoversSome(chunks, step); }
      NothingPlanned(chunks, start, end, step);
    } else {
      assert Frames(start, end, step)[0] == start;
      assert Covered([]) == [];
      AgreeIffSameFrames(chunks, start, end, step);
      RaisedIff(chunks, start, end, step);
    }
  }

  lemma NonEmptyCoversSome(chunks: seq<FD.Assignment>, step: Step)
    requires AllNonEmpty(chunks, step) && Stepped(chunks) && chunks != []
    ensures Covered(chunks) != []
  {
    assert FramesOf(chunks[0])[0] == chunks[0].frameStart;
    assert Covered(chunks)[0] == chunks[0].frameStart;
  }

  lemma NothingPlanned(chunks: seq<FD.Assignment>, start: int, end: int, step: Step)
    requires AllNonEmpty(chunks, step) && Stepped(chunks)
    requires chunks == []
    ensures !AlwaysAgree(chunks, start, end, step)
  {
    var scene, r := OneCamera(), Forced(OneCamera().camera);
    assert Joined(RunChunks(scene, FORCED, [])) == Ok([]);
    if AtLeast1(start) <= AtLeast1(end) {
      assert ResolverFor(scene, FORCED) == Ok(r);
      ForcedFrames(Frames(AtLeast1(start), AtLeast1(end), step));
    }
    assert DriverRun(scene, FORCED, start, end, step) != Ok([]);
  }

  /** Rendering in chunks is rendering the whole: for any machines, scores and rounding, in all three camera modes, on a
      nonempty range that starts at frame 1 or later, the driver's runs on the planned chunks that have frames
      join to exactly its run on the whole range - the same cameras for the same frames in the same order, or
      the same first error. */
  lemma ChunksRenderTheWhole(scene: Scene, o: Overrides, totalFrames: int, start: int, end: int, step: Step,
                             machines: seq<FD.Machine>, round: real -> int, cfg: FD.Config)
    requires machines != [] && 1 <= start <= end
    ensures Joined(RunChunks(scene, o, PlannedChunks(totalFrames, start, end, step, machines, round, cfg)))
         == DriverRun(scene, o, start, end, step)
  {
    hide PlannedChunks, Joined, RunChunks, DriverRun;
    ChunksRenderTheWholeIff(totalFrames, start, end, step, machines, round, cfg);
  }

  // ---------------------------------------------------------------------------
  // A plan that does not
  // ---------------------------------------------------------------------------

  /** Frames 0, 2, 4, 6 on two equal desktops are planned as 0..2 and 4..6. */
  lemma PlannedBelowOne(cfg: FD.Config)
    ensures var chunks := PlannedChunks(4, 0, 6, 2, TwoDesktops(), HalfEven, cfg);
      && |chunks| == 2
      && chunks[0].frameStart == 0 && chunks[0].frameEnd == 2 && chunks[0].frameStep == 2
      && chunks[1].frameStart == 4 && chunks[1].frameEnd == 6 && chunks[1].frameStep == 2
  {
    hide FD.Planned, Shares, TwoDesktops;
    TwoDesktopsPlan(0, 2, cfg);
    var chunks := Shares(FD.Planned(4, 0, 6, 2, TwoDesktops(), HalfEven, cfg));
    assert NonEmpty(chunks[1..]) == [chunks[1]];
    assert [chunks[0]] + [chunks[1]] == chunks;
  }

  lemma PlannedRaised(cfg: FD.Config)
    ensures var chunks := PlannedChunks(4, 0, 6, 2, TwoDesktops(), HalfEven, cfg);
      AllNonEmpty(chunks, 2) && Raised(chunks, 2) == [1, 4, 6]
  {
    PlannedBelowOne(cfg);
    hide PlannedChunks;
    var chunks := PlannedChunks(4, 0, 6, 2, TwoDesktops(), HalfEven, cfg);
    assert Frames(1, 2, 2) == [1] && Frames(4, 6, 2) == [4, 6];
    assert chunks[1..][1..] == [] && Raised(chunks[1..], 2) == [4, 6] + [];
  }

  /** Before frame 1 chunks need not render the whole: this plan renders 1, 4, 6 in its chunks, but 1, 3, 5 uncut. */
  lemma StartsBelowOneDiffer(scene: Scene, camera: Object, cfg: FD.Config)
    requires camera.isCamera && scene.camera == Some(camera)
    ensures var chunks := PlannedChunks(4, 0, 6, 2, TwoDesktops(), HalfEven, cfg);
      && Joined(RunChunks(scene, FORCED, chunks)) == Ok([(1, camera), (4, camera), (6, camera)])
      && DriverRun(scene, FORCED, 0, 6, 2) == Ok([(1, camera), (3, camera), (5, camera)])
      && !AlwaysAgree(chunks, 0, 6, 2)
  {
    hide PlannedChunks;
    PlannedRaised(cfg);
    var chunks := PlannedChunks(4, 0, 6, 2, TwoDesktops(), HalfEven, cfg);
    assert Frames(1, 6, 2) == [1, 3, 5];
    var r := Forced(scene.camera);
    assert ResolverFor(scene, FORCED) == Ok(r);
    ChunksAssignRaised(scene, FORCED, r, chunks, 2);
    RunIsAssigned(scene, FORCED, r, 0, 6, 2);
    hide DriverRun, RunChunks, ResolverFor, Joined, Assigned;
    ForcedAssigns(scene, camera, [1, 4, 6]);
    ForcedAssigns(scene, camera, [1, 3, 5]);
    ThreeByOne(camera, 1, 4, 6);
    ThreeByOne(camera, 1, 3, 5);
    assert Joined(RunChunks(scene, FORCED, chunks)) != DriverRun(scene, FORCED, 0, 6, 2);
  }

  lemma ThreeByOne(camera: Object, a: int, b: int, c: int)
    ensures AllBy(camera, [a, b, c]) == [(a, camera), (b, camera), (c, camera)]
  {
    assert [a, b, c][1..] == [b, c] && [b, c][1..] == [c] && [c][1..] == [];
    assert AllBy(camera, [c]) == [(c, camera)] && AllBy(camera, [b, c]) == [(b, camera), (c, camera)];
  }

  function AllBy(camera: Object, frames: seq<int>): Assignments {
    if frames == [] then [] else [(frames[0], camera)] + AllBy(camera, frames[1..])
  }

  lemma {:induction false} ForcedAssigns(scene: Scene, camera: Object, frames: seq<int>)
    requires camera.isCamera
    ensures Assigned(scene, Forced(Some(camera)), frames) == Ok(AllBy(camera, frames))
  {
    if frames != [] { ForcedAssigns(scene, camera, frames[1..]); }
  }
}
