/** Runs on a small plan, for showing what can happen: four frames on two equal desktops, no retries. */
module SmallRuns {
  import opened Grid
  import opened RenderJobs
  import opened Fleet
  import opened Tiling
  import opened Fairness
  import opened Conservation
  import FD = FrameDistribution

  ghost function Start(cfg: FD.Config): World {
    Launched(4, 1, 4, 1, TwoDesktops(), HalfEven, cfg, 0)
  }

  ghost function Plan(cfg: FD.Config): seq<FD.Assignment> {
    Shares(FD.Planned(4, 1, 4, 1, TwoDesktops(), HalfEven, cfg))
  }

  function Row(machine: string, status: Status, start: int, end: int, rendered: nat, total: int, chunk: nat): Job {
    Job(machine, status, start, end, 1, rendered, total, 0, 0, chunk)
  }

  lemma StartRows(cfg: FD.Config)
    ensures |Plan(cfg)| == 2 && Stepped(Plan(cfg))
    ensures Plan(cfg)[0].frameStart == 1 && Plan(cfg)[0].frameEnd == 2 && Plan(cfg)[0].frameStep == 1
    ensures Plan(cfg)[1].frameStart == 3 && Plan(cfg)[1].frameEnd == 4 && Plan(cfg)[1].frameStep == 1
    ensures Start(cfg).table.rows == [Row("a", Pending, 1, 2, 0, 2, 0), Row("b", Pending, 3, 4, 0, 2, 1)]
    ensures Start(cfg).rendered == {} && Start(cfg).seen == Versions(Start(cfg).table)
  {
    var ms := TwoDesktops();
    TwoDesktopsPlan(1, 1, cfg);
    PlanTiles(4, 1, 4, 1, ms, HalfEven, cfg);
    hide FD.Planned;
    var tasks := FD.Planned(4, 1, 4, 1, ms, HalfEven, cfg);
    var plan := Shares(tasks);
    assert tasks[0].share == plan[0] && tasks[1].share == plan[1];
    assert tasks[1..][1..] == [];
    var t := Table([], [], []);
    var t1 := Inserted(t, Row("a", Pending, 1, 2, 0, 2, 0));
    var t2 := Inserted(t1, Row("b", Pending, 3, 4, 0, 2, 1));
    assert DispatchedAll(t1, tasks[1..], 0) == t2;
    assert DispatchedAll(t, tasks, 0) == t2;
  }

  /** A run one event longer at its front. */
  lemma OneMore(w: World, e: Event, rest: seq<Event>, plan: seq<FD.Assignment>)
    requires Enabled(w, e, plan) && Runs(Next(w, e), rest, plan)
    ensures Runs(w, [e] + rest, plan) && After(w, [e] + rest) == After(Next(w, e), rest)
  {
    assert ([e] + rest)[1..] == rest;
  }

  /** w' is w with these rows and rendered frames; everything seen stays seen, and so does what is there now. */
  ghost predicate Moves(w: World, w': World, rows: seq<Job>, rendered: set<int>) {
    w'.table.rows == rows && w'.rendered == rendered && w.seen <= w'.seen
    && forall i: nat :: i < |rows| ==> (i, rows[i]) in w'.seen
  }

  lemma Moved(w: World, e: Event)
    ensures Moves(w, Next(w, e), Changed(w.table, e).rows, Next(w, e).rendered)
  {
  }

  lemma {:induction false} RunsOn(w: World, first: seq<Event>, second: seq<Event>, plan: seq<FD.Assignment>)
    requires Runs(w, first, plan) && Runs(After(w, first), second, plan)
    ensures Runs(w, first + second, plan) && After(w, first + second) == After(After(w, first), second)
    decreases |first|
  {
    if first == [] {
      assert first + second == second;
    } else {
      RunsOn(Next(w, first[0]), first[1..], second, plan);
      assert first + second == [first[0]] + (first[1..] + second);
      OneMore(w, first[0], first[1..] + second, plan);
    }
  }

  // ---------------------------------------------------------------------------
  // Registered outputs after a retry
  // ---------------------------------------------------------------------------

  /** Four frames on one desktop, with one retry. */
  ghost function LoneStart(cfg: FD.Config): World {
    Launched(4, 1, 4, 1, [TwoDesktops()[0]], HalfEven, cfg, 1)
  }

  ghost function LonePlan(cfg: FD.Config): seq<FD.Assignment> {
    Shares(FD.Planned(4, 1, 4, 1, [TwoDesktops()[0]], HalfEven, cfg))
  }

  function LoneRow(start: int, rendered: nat, attempt: nat): Job {
    Job("a", Pending, start, 4, 1, rendered, 4, attempt, 1, 0)
  }

  lemma LoneRows(cfg: FD.Config)
    ensures |LonePlan(cfg)| == 1 && Stepped(LonePlan(cfg))
    ensures LonePlan(cfg)[0].frameStart == 1 && LonePlan(cfg)[0].frameEnd == 4 && LonePlan(cfg)[0].frameStep == 1
    ensures LoneStart(cfg).table.rows == [LoneRow(1, 0, 0)] && LoneStart(cfg).rendered == {}
    ensures (0, LoneRow(1, 0, 0)) in LoneStart(cfg).seen
  {
    var ms := [TwoDesktops()[0]];
    OneDesktopPlan(cfg);
    PlanTiles(4, 1, 4, 1, ms, HalfEven, cfg);
    hide FD.Planned;
    var tasks := FD.Planned(4, 1, 4, 1, ms, HalfEven, cfg);
    assert tasks[0].share == Shares(tasks)[0];
    assert tasks[1..] == [];
    var t := Table([], [], []);
    assert DispatchedAll(t, tasks, 1) == Inserted(t, LoneRow(1, 0, 0));
    assert Inserted(t, LoneRow(1, 0, 0)).rows[0] == LoneRow(1, 0, 0);
  }

  /** Rendered and registered, frame 1 is on the row when it fails; the retry starts at frame 2 and its worker renders that. */
  lemma RetriedAfterFrame(w: World, plan: seq<FD.Assignment>) returns (events: seq<Event>, w': World)
    requires w.table.rows == [LoneRow(1, 0, 0)] && w.rendered == {} && (0, LoneRow(1, 0, 0)) in w.seen
    requires |plan| == 1 && plan[0].frameStart == 1 && plan[0].frameEnd == 4 && plan[0].frameStep == 1
    ensures Runs(w, events, plan) && After(w, events) == w'
    ensures w'.table.rows == [LoneRow(2, 0, 1)] && w'.rendered == {1, 2} && (0, LoneRow(2, 0, 1)) in w'.seen
  {
    FramesBounded(1, 4, 1);
    var register := Register(0, LoneRow(1, 0, 0), 1);
    var retry := HandleFailure(Snapshot(0, LoneRow(1, 1, 0), FD.Desktop("windows")), Answers(false, [], false));
    var w1 := Next(w, FrameRendered(1));
    assert Enabled(w1, register, plan);
    var w2 := Next(w1, register);
    Moved(w1, register);
    assert w2.table.rows == [LoneRow(1, 1, 0)];
    assert (0, w2.table.rows[0]) in w2.seen && Enabled(w2, retry, plan);
    var w3 := Next(w2, retry);
    Moved(w2, retry);
    assert LoneRow(1, 1, 0).RemainingStart() == 2;
    assert w3.table.rows == [LoneRow(2, 0, 1)];
    assert (0, w3.table.rows[0]) in w3.seen;
    w' := Next(w3, FrameRendered(2));
    hide Next, Enabled;
    AnyFrame(w, 1, plan);
    AnyFrame(w3, 2, plan);
    OneMore(w3, FrameRendered(2), [], plan);
    OneMore(w2, retry, [FrameRendered(2)], plan);
    OneMore(w1, register, [retry] + [FrameRendered(2)], plan);
    OneMore(w, FrameRendered(1), [register] + ([retry] + [FrameRendered(2)]), plan);
    events := [FrameRendered(1)] + ([register] + ([retry] + [FrameRendered(2)]));
  }

  lemma AnyFrame(w: World, frame: int, plan: seq<FD.Assignment>)
    ensures Enabled(w, FrameRendered(frame), plan)
  {
  }

  /** A retry clears the count of a row and keeps its files.  After such a run the two files of frames 1 and 2 are counted from
      frame 2 on: registering them leaves frame 3 neither rendered nor owed by the only row. */
  lemma RegistrationLosesFrames(cfg: FD.Config) returns (events: seq<Event>)
    ensures Runs(LoneStart(cfg), events, LonePlan(cfg))
    ensures var w := After(LoneStart(cfg), events);
      && w.rendered == {1, 2} && |w.table.rows| == 1 && (0, w.table.rows[0]) in w.seen
      && var t' := Registered(w.table, 0, w.table.rows[0], 2);
         |t'.rows| == 1 && t'.rows[0].RemainingFrames() == [4]
  {
    LoneRows(cfg);
    var w;
    events, w := RetriedAfterFrame(LoneStart(cfg), LonePlan(cfg));
    hide Runs, After, LoneStart, LonePlan;
    assert Frames(4, 4, 1) == [4];
    var t' := Registered(w.table, 0, w.table.rows[0], 2);
    assert t'.rows[0].RemainingStart() == 4;
  }
}
