/** What a done group says about the frames that exist.  Rows that are all done mean that every planned frame is
    rendered; the counts of the rows do not, and this module says exactly when they do. */
module GroupTruth {
  import opened Grid
  import opened RenderJobs
  import opened Fleet
  import opened Tiling
  import opened Fairness
  import opened Conservation
  import opened SmallRuns
  import GS = GroupStatus
  import FD = FrameDistribution

  ghost predicate AllRendered(plan: seq<FD.Assignment>, rendered: set<int>)
    requires Stepped(plan)
  {
    forall c, f :: 0 <= c < |plan| && f in FramesOf(plan[c]) ==> f in rendered
  }

  ghost predicate InOrder(plan: seq<FD.Assignment>)
    requires Stepped(plan)
  {
    forall i, j, f, g :: 0 <= i < j < |plan| && f in FramesOf(plan[i]) && g in FramesOf(plan[j]) ==> f < g
  }

  /** A row that claims to owe nothing. */
  predicate Settled(row: Job) { row.status.Done? || row.Remaining().None? }

  ghost predicate ChunkSettled(t: Table, c: nat) {
    exists j :: 0 <= j < |t.rows| && t.rows[j].chunkIndex == c && Settled(t.rows[j])
  }

  ghost predicate EveryChunkSettled(t: Table, plan: seq<FD.Assignment>)
    requires Stepped(plan)
  {
    forall c :: 0 <= c < |plan| && FramesOf(plan[c]) != [] ==> ChunkSettled(t, c)
  }

  // ---------------------------------------------------------------------------
  // What the rows alone tell
  // ---------------------------------------------------------------------------

  /** The frames the rows say are rendered. */
  ghost function Told(t: Table, plan: seq<FD.Assignment>): (r: set<int>)
    requires Stepped(plan)
  {
    set j, f | 0 <= j < |t.rows| && t.rows[j].chunkIndex < |plan| && f in FramesOf(plan[t.rows[j].chunkIndex])
               && (t.rows[j].status.Done? || f < t.rows[j].RemainingStart()) :: f
  }

  /** They are enough for the invariant: nothing else need be rendered. */
  lemma {:induction false} ToldIsEnough(t: Table, plan: seq<FD.Assignment>, rendered: set<int>)
    requires Stepped(plan) && Inv(t, plan, rendered)
    ensures Inv(t, plan, Told(t, plan))
  {
    hide PlannedCall;
    forall i | 0 <= i < |t.rows| ensures FaithfulAt(t, i, t.rows[i], plan, Told(t, plan)) {
      assert FaithfulAt(t, i, t.rows[i], plan, rendered);
    }
  }

  lemma {:induction false} NotFurther(k: int, n: int, step: int)
    requires step >= 1 && k <= n
    ensures k * step <= n * step
  {
    assert n * step - k * step == (n - k) * step;
  }

  /** A point of a grid behind its last frame is behind its end. */
  lemma {:induction false} LastFrame(a: int, end: int, step: int, x: int)
    requires step >= 1 && Frames(a, end, step) != [] && Aligned(a, x, step)
    ensures var last := Frames(a, end, step)[|Frames(a, end, step)| - 1]; x > last ==> x > end
  {
    hide Frames;
    var n := |Frames(a, end, step)|;
    FrameAt(a, end, step, n - 1);
    FramesLength(a, end, step);
    var k: nat :| At(a, k, step) == x;
    if k < n { NotFurther(k, n - 1, step); } else { PastTheEnd(a, end, step, k); }
  }

  lemma {:induction false} RowIsSettled(t: Table, plan: seq<FD.Assignment>, rendered: set<int>, c: nat)
    requires Stepped(plan) && InOrder(plan) && Inv(t, plan, rendered)
    requires c < |plan| && FramesOf(plan[c]) != [] && AllRendered(plan, Told(t, plan))
    ensures ChunkSettled(t, c)
  {
    var a := plan[c];
    var top := FramesOf(a)[|FramesOf(a)| - 1];
    assert top in FramesOf(a) && top in Told(t, plan);
    var j :| 0 <= j < |t.rows| && t.rows[j].chunkIndex < |plan| && top in FramesOf(plan[t.rows[j].chunkIndex])
             && (t.rows[j].status.Done? || top < t.rows[j].RemainingStart());
    var row := t.rows[j];
    assert row.chunkIndex == c;
    if !row.status.Done? {
      assert FaithfulAt(t, j, row, plan, rendered);
      TailAligned(row, t.origins[j], plan, rendered);
      LastFrame(a.frameStart, a.frameEnd, a.frameStep, row.RemainingStart());
    }
  }

  /** The rows of a table guarantee that every planned frame is rendered exactly if every chunk with a frame has a row
      that is done or has no frame left. */
  lemma {:induction false} RowsGuaranteeIff(t: Table, plan: seq<FD.Assignment>, rendered: set<int>)
    requires Stepped(plan) && InOrder(plan) && Inv(t, plan, rendered)
    ensures (forall some :: Inv(t, plan, some) ==> AllRendered(plan, some)) <==> EveryChunkSettled(t, plan)
  {
    ToldIsEnough(t, plan, rendered);
    if forall some :: Inv(t, plan, some) ==> AllRendered(plan, some) {
      forall c | 0 <= c < |plan| && FramesOf(plan[c]) != [] ensures ChunkSettled(t, c) {
        RowIsSettled(t, plan, rendered, c);
      }
    }
    if EveryChunkSettled(t, plan) {
      forall some | Inv(t, plan, some) ensures AllRendered(plan, some) {
        SettledIsRendered(t, plan, some);
      }
    }
  }

  lemma {:induction false} SettledIsRendered(t: Table, plan: seq<FD.Assignment>, rendered: set<int>)
    requires Stepped(plan) && Inv(t, plan, rendered) && EveryChunkSettled(t, plan)
    ensures AllRendered(plan, rendered)
  {
    forall c, f | 0 <= c < |plan| && f in FramesOf(plan[c]) ensures f in rendered {
      assert ChunkSettled(t, c);
      var j :| 0 <= j < |t.rows| && t.rows[j].chunkIndex == c && Settled(t.rows[j]);
      assert FaithfulAt(t, j, t.rows[j], plan, rendered);
      if !t.rows[j].status.Done? { CompleteMeansRendered(t.rows[j], t.origins[j], plan, rendered); }
    }
  }

  // ---------------------------------------------------------------------------
  // What the counts tell
  // ---------------------------------------------------------------------------

  function Counted(row: Job): int {
    if row.status.Failed? then 0 else GS.RowFrames(row)
  }

  function ChunkSum(rows: seq<Job>, c: nat): int {
    if rows == [] then 0 else (if rows[0].chunkIndex == c then Counted(rows[0]) else 0) + ChunkSum(rows[1..], c)
  }

  function SumOver(rows: seq<Job>, n: nat): int {
    if n == 0 then 0 else SumOver(rows, n - 1) + ChunkSum(rows, n - 1)
  }

  function Totals(plan: seq<FD.Assignment>, n: nat): int
    requires n <= |plan|
  {
    if n == 0 then 0 else Totals(plan, n - 1) + plan[n - 1].totalFrames
  }

  lemma {:induction false} SumOverStep(rows: seq<Job>, n: nat)
    requires rows != []
    ensures SumOver(rows, n) == SumOver(rows[1..], n) + (if rows[0].chunkIndex < n then Counted(rows[0]) else 0)
  {
    if n > 0 { SumOverStep(rows, n - 1); }
  }

  lemma {:induction false} SumByChunk(rows: seq<Job>, n: nat)
    requires forall j :: 0 <= j < |rows| ==> rows[j].chunkIndex < n
    ensures GS.SumRendered(rows) == SumOver(rows, n)
  {
    if rows == [] {
      NothingToSum(n);
    } else {
      SumByChunk(rows[1..], n);
      SumOverStep(rows, n);
    }
  }

  lemma {:induction false} NothingToSum(n: nat)
    ensures SumOver([], n) == 0
  {
    if n > 0 { NothingToSum(n - 1); }
  }

  /** No chunk has two rows that have not failed, and no row counts more frames than its chunk has. */
  ghost predicate Unrepeated(rows: seq<Job>, plan: seq<FD.Assignment>) {
    && (forall i, j :: 0 <= i < j < |rows| && !rows[i].status.Failed? && !rows[j].status.Failed? ==>
          rows[i].chunkIndex != rows[j].chunkIndex)
    && (forall j :: 0 <= j < |rows| && rows[j].chunkIndex < |plan| ==>
          Counted(rows[j]) <= plan[rows[j].chunkIndex].totalFrames)
  }

  /** A row of the chunk that has not failed counts all its frames. */
  ghost predicate CountsAll(rows: seq<Job>, c: nat, total: int) {
    exists j :: 0 <= j < |rows| && rows[j].chunkIndex == c && Counted(rows[j]) == total
  }

  lemma {:induction false} NoneLeft(rows: seq<Job>, c: nat)
    requires forall j :: 0 <= j < |rows| && rows[j].chunkIndex == c ==> rows[j].status.Failed?
    ensures ChunkSum(rows, c) == 0
  {
    if rows != [] { NoneLeft(rows[1..], c); }
  }

  /** One chunk: its rows together count what its one live row counts. */
  lemma {:induction false} ChunkSumIs(rows: seq<Job>, plan: seq<FD.Assignment>, c: nat)
    requires Unrepeated(rows, plan) && c < |plan| && plan[c].totalFrames >= 0
    ensures ChunkSum(rows, c) <= plan[c].totalFrames
    ensures plan[c].totalFrames > 0 ==> (ChunkSum(rows, c) == plan[c].totalFrames <==> CountsAll(rows, c, plan[c].totalFrames))
  {
    if rows != [] {
      var rest, total := rows[1..], plan[c].totalFrames;
      if rows[0].chunkIndex == c && !rows[0].status.Failed? {
        forall j | 0 <= j < |rest| && rest[j].chunkIndex == c ensures rest[j].status.Failed? { assert rest[j] == rows[j + 1]; }
        NoneLeft(rest, c);
      } else {
        ChunkSumIs(rest, plan, c);
        if CountsAll(rest, c, total) {
          var j :| 0 <= j < |rest| && rest[j].chunkIndex == c && Counted(rest[j]) == total;
          assert rows[j + 1] == rest[j];
        }
        if total > 0 && CountsAll(rows, c, total) {
          var j :| 0 <= j < |rows| && rows[j].chunkIndex == c && Counted(rows[j]) == total;
          assert j > 0 && rest[j - 1] == rows[j];
        }
      }
    }
  }

  lemma {:induction false} Squeezed(rows: seq<Job>, plan: seq<FD.Assignment>, n: nat)
    requires n <= |plan| && forall c :: 0 <= c < n ==> ChunkSum(rows, c) <= plan[c].totalFrames
    ensures SumOver(rows, n) <= Totals(plan, n)
    ensures SumOver(rows, n) == Totals(plan, n) <==> forall c :: 0 <= c < n ==> ChunkSum(rows, c) == plan[c].totalFrames
  {
    if n > 0 { Squeezed(rows, plan, n - 1); }
  }

  /** On rows like that, the counts reach the plan's total exactly if every chunk with a frame has a row that has not
      failed and counts all of them. */
  lemma {:induction false} CountsReachTotalIff(t: Table, plan: seq<FD.Assignment>, rendered: set<int>)
    requires Stepped(plan) && Exact(plan) && Inv(t, plan, rendered) && Unrepeated(t.rows, plan)
    ensures GS.SumRendered(t.rows) >= Totals(plan, |plan|)
      <==> forall c :: 0 <= c < |plan| && plan[c].totalFrames > 0 ==> CountsAll(t.rows, c, plan[c].totalFrames)
  {
    hide PlannedCall, Aligned;
    forall j | 0 <= j < |t.rows| ensures t.rows[j].chunkIndex < |plan| {
      assert FaithfulAt(t, j, t.rows[j], plan, rendered);
    }
    SumByChunk(t.rows, |plan|);
    forall c | 0 <= c < |plan|
      ensures ChunkSum(t.rows, c) <= plan[c].totalFrames
      ensures plan[c].totalFrames > 0 ==>
                (ChunkSum(t.rows, c) == plan[c].totalFrames <==> CountsAll(t.rows, c, plan[c].totalFrames))
      ensures plan[c].totalFrames == 0 ==> ChunkSum(t.rows, c) == 0
    {
      ChunkSumIs(t.rows, plan, c);
      SumNotNegative(t.rows, c);
    }
    Squeezed(t.rows, plan, |plan|);
  }

  lemma {:induction false} SumNotNegative(rows: seq<Job>, c: nat)
    ensures ChunkSum(rows, c) >= 0
  {
    if rows != [] { SumNotNegative(rows[1..], c); }
  }

  /** Counts that reach the total on unrepeated rows mean that every planned frame is rendered. */
  lemma {:induction false} CountedMeansRendered(t: Table, plan: seq<FD.Assignment>, rendered: set<int>)
    requires Stepped(plan) && Exact(plan) && Inv(t, plan, rendered) && Unrepeated(t.rows, plan)
    requires GS.SumRendered(t.rows) >= Totals(plan, |plan|)
    ensures EveryChunkSettled(t, plan) && AllRendered(plan, rendered)
  {
    CountsReachTotalIff(t, plan, rendered);
    forall c | 0 <= c < |plan| && FramesOf(plan[c]) != [] ensures ChunkSettled(t, c) {
      assert CountsAll(t.rows, c, plan[c].totalFrames);
      var j :| 0 <= j < |t.rows| && t.rows[j].chunkIndex == c && Counted(t.rows[j]) == plan[c].totalFrames;
      FullCountSettles(t, plan, rendered, j);
    }
    SettledIsRendered(t, plan, rendered);
  }

  lemma {:induction false} FullCountSettles(t: Table, plan: seq<FD.Assignment>, rendered: set<int>, j: nat)
    requires Stepped(plan) && Exact(plan) && Inv(t, plan, rendered) && j < |t.rows| && t.rows[j].chunkIndex < |plan|
    requires t.rows[j].rendered >= plan[t.rows[j].chunkIndex].totalFrames
    ensures t.rows[j].Remaining().None?
  {
    var row := t.rows[j];
    var c := plan[row.chunkIndex];
    assert FaithfulAt(t, j, row, plan, rendered);
    AlignedTrans(c.frameStart, t.origins[j], row.frameStart, c.frameStep);
    var k: nat :| At(c.frameStart, k, c.frameStep) == row.frameStart;
    FramesLength(c.frameStart, c.frameEnd, c.frameStep);
    CountShrinks(c.frameStart, k, c.frameEnd, c.frameStep);
    PastTheEnd(row.frameStart, row.frameEnd, row.frameStep, row.rendered);
  }

  // ---------------------------------------------------------------------------
  // Any rows: what some chunks count too much makes up for what others count too little
  // ---------------------------------------------------------------------------

  function Surplus(rows: seq<Job>, plan: seq<FD.Assignment>, n: nat): int
    requires n <= |plan|
  {
    if n == 0 then 0 else Surplus(rows, plan, n - 1) + Max(0, ChunkSum(rows, n - 1) - plan[n - 1].totalFrames)
  }

  function Shortfall(rows: seq<Job>, plan: seq<FD.Assignment>, n: nat): int
    requires n <= |plan|
  {
    if n == 0 then 0 else Shortfall(rows, plan, n - 1) + Max(0, plan[n - 1].totalFrames - ChunkSum(rows, n - 1))
  }

  lemma {:induction false} SurplusBalances(rows: seq<Job>, plan: seq<FD.Assignment>, n: nat)
    requires n <= |plan|
    ensures SumOver(rows, n) - Totals(plan, n) == Surplus(rows, plan, n) - Shortfall(rows, plan, n)
  {
    if n > 0 { SurplusBalances(rows, plan, n - 1); }
  }

  /** A group without active rows, repeated chunks or not, is stored as done exactly if it is not done already and either all
      rows are done and it has not failed or been cancelled, or some row is done and the frames that chunks count too often
      are at least as many as the frames other chunks miss. */
  lemma {:induction false} FinishedIsDoneIff(t: Table, plan: seq<FD.Assignment>, rendered: set<int>, current: GS.Group)
    requires Stepped(plan) && Inv(t, plan, rendered) && Totals(plan, |plan|) > 0
    requires GS.NoneActive(GS.Statuses(t.rows)) && !current.GroupDone?
    ensures var statuses, total := GS.Statuses(t.rows), Totals(plan, |plan|);
      GS.ComputeGroupStatus(current, statuses, total, GS.TotalRendered(t.rows, total)) == (GS.GroupDone, true)
      <==> (GS.AllAre(statuses, Done) && !current.GroupFailed? && !current.GroupCancelled?)
           || (GS.AnyIs(statuses, Done) && Surplus(t.rows, plan, |plan|) >= Shortfall(t.rows, plan, |plan|))
  {
    hide PlannedCall, Aligned, GS.Statuses, GS.AnyIs, GS.AllAre;
    forall j | 0 <= j < |t.rows| ensures t.rows[j].chunkIndex < |plan| {
      assert FaithfulAt(t, j, t.rows[j], plan, rendered);
    }
    SumByChunk(t.rows, |plan|);
    SurplusBalances(t.rows, plan, |plan|);
  }

  // ---------------------------------------------------------------------------
  // Over whole runs
  // ---------------------------------------------------------------------------

  lemma {:induction false} TotalsIsLength(plan: seq<FD.Assignment>, n: nat)
    requires Stepped(plan) && Exact(plan) && n <= |plan|
    ensures Totals(plan, n) == |Covered(plan[..n])|
  {
    if n > 0 {
      TotalsIsLength(plan, n - 1);
      assert plan[..n] == plan[..n - 1] + [plan[n - 1]];
      CoveredConcat(plan[..n - 1], [plan[n - 1]]);
      assert [plan[n - 1]][1..] == [];
    }
  }

  ghost predicate Believed(w: World, plan: seq<FD.Assignment>, start: int, end: int, step: Step)
    requires Stepped(plan)
  {
    && (GS.AllAre(GS.Statuses(w.table.rows), Done) ==> AllRendered(plan, w.rendered))
    && (Unrepeated(w.table.rows, plan) && GS.AllFramesRendered(Count(start, end, step), GS.SumRendered(w.table.rows)) ==>
          AllRendered(plan, w.rendered))
    && ((forall some :: Inv(w.table, plan, some) ==> AllRendered(plan, some)) <==> EveryChunkSettled(w.table, plan))
  }

  /** After any run from a dispatched plan: if all rows are done, every planned frame is rendered; if the counts of the
      rows reach the number of frames, and no chunk is counted twice, every planned frame is rendered; and the rows
      guarantee it exactly if every chunk with a frame has a row that is done or has no frame left. */
  lemma {:induction false} DoneGroupsAreRendered(totalFrames: int, start: int, end: int, step: Step, machines: seq<FD.Machine>,
                              round: real -> int, cfg: FD.Config, maxRetries: nat, events: seq<Event>)
    requires machines != []
    requires Runs(Launched(totalFrames, start, end, step, machines, round, cfg, maxRetries), events,
                  Shares(FD.Planned(totalFrames, start, end, step, machines, round, cfg)))
    ensures var plan := Shares(FD.Planned(totalFrames, start, end, step, machines, round, cfg));
      var w := After(Launched(totalFrames, start, end, step, machines, round, cfg, maxRetries), events);
      && Stepped(plan)
      && (forall f :: f in Frames(start, end, step) <==> exists c :: 0 <= c < |plan| && f in FramesOf(plan[c]))
      && Believed(w, plan, start, end, step)
  {
    var plan := Shares(FD.Planned(totalFrames, start, end, step, machines, round, cfg));
    var w0 := Launched(totalFrames, start, end, step, machines, round, cfg, maxRetries);
    PlanTiles(totalFrames, start, end, step, machines, round, cfg);
    PlanPartitions(totalFrames, start, end, step, machines, round, cfg);
    LaunchKeeps(totalFrames, start, end, step, machines, round, cfg, maxRetries);
    hide FD.Planned, Launched, Shares, Runs, After;
    RunKeeps(w0, events, plan);
    TotalsIsLength(plan, |plan|);
    assert plan[..|plan|] == plan;
    FramesLength(start, end, step);
    WorldBelieved(After(w0, events), plan, start, end, step);
  }

  lemma {:induction false} WorldBelieved(w: World, plan: seq<FD.Assignment>, start: int, end: int, step: Step)
    requires Stepped(plan) && InOrder(plan) && Exact(plan) && Inv(w.table, plan, w.rendered)
    requires Totals(plan, |plan|) == Count(start, end, step)
    requires |plan| <= |w.table.rows| && forall i :: 0 <= i < |plan| ==> w.table.rows[i].chunkIndex == i
    ensures Believed(w, plan, start, end, step)
  {
    hide Inv, AllRendered;
    var rows := w.table.rows;
    RowsGuaranteeIff(w.table, plan, w.rendered);
    if GS.AllAre(GS.Statuses(rows), Done) {
      forall c | 0 <= c < |plan| ensures ChunkSettled(w.table, c) {
        assert GS.Statuses(rows)[c] == Done;
      }
      SettledIsRendered(w.table, plan, w.rendered);
    }
    if Unrepeated(rows, plan) && GS.AllFramesRendered(Count(start, end, step), GS.SumRendered(rows)) {
      CountedMeansRendered(w.table, plan, w.rendered);
    }
  }

  // ---------------------------------------------------------------------------
  // Two runs in which the counts are wrong
  // ---------------------------------------------------------------------------

  /** Machine b takes over. */
  function ToB(): Answers { Answers(false, [TwoDesktops()[1]], false) }

  function FirstFailed(rendered: nat): Snapshot {
    Snapshot(0, Row("a", Failed, 1, 2, rendered, 2, 0), FD.Desktop("windows"))
  }

  lemma {:induction false} BIsChosen()
    ensures ChooseFailover(ToB().candidates, "a", FD.Desktop("windows")) == Some(TwoDesktops()[1])
  {
    var b := TwoDesktops()[1];
    assert [b][1..] == [];
    assert Others([b], "a") == [b];
    assert OfKind([b], true, true, false) == [];
  }

  /** The row that takes over. */
  function Heir(rendered: nat): Job { Row("b", Pending, 1 + rendered, 2, 0, 2 - rendered, 0) }

  lemma HeirOfAll(t: Table)
    requires t.rows != [] && t.rows[0] == FirstFailed(0).row
    ensures FailedOver(t, FirstFailed(0), TwoDesktops()[1], false) == Inserted(SetStatus(t, 0, Failed), Heir(0))
  {
    assert FirstFailed(0).row.RemainingStart() == 1;
    hide SetStatus, Inserted;
  }

  lemma HeirOfOne(t: Table)
    requires t.rows != [] && t.rows[0] == FirstFailed(1).row
    ensures FailedOver(t, FirstFailed(1), TwoDesktops()[1], false) == Inserted(SetStatus(t, 0, Failed), Heir(1))
  {
    assert FirstFailed(1).row.RemainingStart() == 2;
    hide SetStatus, Inserted;
  }

  lemma HandedToB(t: Table, rendered: nat)
    requires t.rows != [] && t.rows[0] == FirstFailed(rendered).row && rendered <= 1
    ensures FailedOver(t, FirstFailed(rendered), TwoDesktops()[1], false).rows == t.rows + [Heir(rendered)]
  {
    assert SetStatus(t, 0, Failed).rows == t.rows;
    InsertedRows(SetStatus(t, 0, Failed), Heir(rendered));
    if rendered == 0 { HeirOfAll(t); } else { HeirOfOne(t); }
    hide *;
  }

  lemma InsertedRows(t: Table, job: Job)
    ensures Inserted(t, job).rows == t.rows + [job]
  {
  }

  /** Without retries left a failure goes to the machine chosen. */
  lemma GoesTo(t: Table, s: Snapshot, a: Answers, m: FD.Machine)
    requires s.id < |t.rows| && s.row.Remaining().Some? && !s.row.CanRetry()
    requires ChooseFailover(a.candidates, s.row.machine, s.kind) == Some(m)
    ensures FailureHandled(t, s, a).0 == FailedOver(t, s, m, a.failoverThrows)
  {
    hide FailedOver, ChooseFailover;
  }

  lemma FirstCanBeTaken(rendered: nat)
    requires rendered <= 1
    ensures var s := FirstFailed(rendered); s.id == 0 && s.row.Remaining().Some? && !s.row.CanRetry()
    ensures FirstFailed(rendered).row.machine == "a" && FirstFailed(rendered).kind == FD.Desktop("windows")
  {
    if rendered == 0 {
      assert FirstFailed(0).row.RemainingStart() == 1;
    } else {
      assert FirstFailed(1).row.RemainingStart() == 2;
    }
  }

  lemma TakenOver(w: World, rendered: nat)
    requires w.table.rows != [] && w.table.rows[0] == FirstFailed(rendered).row && rendered <= 1
    ensures Changed(w.table, HandleFailure(FirstFailed(rendered), ToB())).rows == w.table.rows + [Heir(rendered)]
  {
    assert !ToB().failoverThrows;
    FirstCanBeTaken(rendered);
    BIsChosen();
    HandedToB(w.table, rendered);
    GoesTo(w.table, FirstFailed(rendered), ToB(), TwoDesktops()[1]);
    HandledIsChanged(w.table, FirstFailed(rendered), ToB());
    hide *;
  }

  lemma HandledIsChanged(t: Table, s: Snapshot, a: Answers)
    ensures Changed(t, HandleFailure(s, a)) == FailureHandled(t, s, a).0
  {
    hide FailureHandled;
  }

  /** The rows of the first run once both chunks have failed and the first has been taken over twice. */
  function Twice(first: Status, second: Status): seq<Job> {
    [Row("a", Failed, 1, 2, 0, 2, 0), Row("b", Failed, 3, 4, 0, 2, 1),
     Row("b", first, 1, 2, if first.Done? then 2 else 0, 2, 0), Row("b", second, 1, 2, if second.Done? then 2 else 0, 2, 0)]
  }

  lemma {:induction false} TakenOverTwice(w: World, plan: seq<FD.Assignment>) returns (events: seq<Event>, w': World)
    requires w.table.rows == [Row("a", Pending, 1, 2, 0, 2, 0), Row("b", Pending, 3, 4, 0, 2, 1)] && w.rendered == {}
    ensures Runs(w, events, plan) && After(w, events) == w'
    ensures w'.table.rows == Twice(Pending, Pending) && w'.rendered == {}
    ensures forall i: nat :: i < 4 ==> (i, w'.table.rows[i]) in w'.seen
  {
    var again := HandleFailure(FirstFailed(0), ToB());
    var w1 := Next(w, GiveUp(0, Failed));
    Moved(w, GiveUp(0, Failed));
    var w2 := Next(w1, GiveUp(1, Failed));
    Moved(w1, GiveUp(1, Failed));
    assert w2.table.rows == Twice(Pending, Pending)[..2];
    assert (0, w1.table.rows[0]) in w2.seen;
    var w3 := Next(w2, again);
    Moved(w2, again);
    TakenOver(w2, 0);
    w' := Next(w3, again);
    Moved(w3, again);
    TakenOver(w3, 0);
    hide Next;
    OneMore(w3, again, [], plan);
    OneMore(w2, again, [again], plan);
    OneMore(w1, GiveUp(1, Failed), [again] + [again], plan);
    OneMore(w, GiveUp(0, Failed), [GiveUp(1, Failed)] + ([again] + [again]), plan);
    events := [GiveUp(0, Failed)] + ([GiveUp(1, Failed)] + ([again] + [again]));
  }

  lemma {:induction false} FinishTwice(w: World, plan: seq<FD.Assignment>) returns (events: seq<Event>, w': World)
    requires w.table.rows == Twice(Pending, Pending) && w.rendered == {}
    requires forall i: nat :: i < 4 ==> (i, w.table.rows[i]) in w.seen
    ensures Runs(w, events, plan) && After(w, events) == w'
    ensures w'.table.rows == Twice(Done, Done) && w'.rendered == {1, 2}
  {
    var row := w.table.rows[2];
    assert Frames(1, 2, 1) == [1, 2];
    var w1 := Next(w, FrameRendered(1));
    var w2 := Next(w1, FrameRendered(2));
    var w3 := Next(w2, Finish(2, row));
    assert w3.table.rows == Twice(Done, Pending);
    w' := Next(w3, Finish(3, row));
    assert w.table.rows[3] == row && (3, row) in w3.seen && (2, row) in w2.seen;
    assert Enabled(w2, Finish(2, row), plan) && Enabled(w3, Finish(3, row), plan);
    hide Next;
    OneMore(w3, Finish(3, row), [], plan);
    OneMore(w2, Finish(2, row), [Finish(3, row)], plan);
    OneMore(w1, FrameRendered(2), [Finish(2, row)] + [Finish(3, row)], plan);
    OneMore(w, FrameRendered(1), [FrameRendered(2)] + ([Finish(2, row)] + [Finish(3, row)]), plan);
    events := [FrameRendered(1)] + ([FrameRendered(2)] + ([Finish(2, row)] + [Finish(3, row)]));
  }

  /** Two takeovers of one failure, both finished: the group is stored as done, whatever it was, although no frame of the
      second chunk was ever rendered. */
  lemma {:induction false} CountedTwice(cfg: FD.Config, current: GS.Group) returns (events: seq<Event>)
    requires !current.GroupDone?
    ensures Runs(Start(cfg), events, Plan(cfg))
    ensures var w := After(Start(cfg), events);
      && GS.ComputeGroupStatus(current, GS.Statuses(w.table.rows), 4, GS.TotalRendered(w.table.rows, 4)) == (GS.GroupDone, true)
      && w.rendered == {1, 2}
  {
    StartRows(cfg);
    var w0, plan := Start(cfg), Plan(cfg);
    var first, w1 := TakenOverTwice(w0, plan);
    var second, w2 := FinishTwice(w1, plan);
    RunsOn(w0, first, second, plan);
    events := first + second;
    hide Runs, After, Start, Plan;
    TwiceIsDone(w2.table.rows, current);
  }

  lemma {:induction false} TwiceIsDone(rows: seq<Job>, current: GS.Group)
    requires rows == Twice(Done, Done) && !current.GroupDone?
    ensures GS.ComputeGroupStatus(current, GS.Statuses(rows), 4, GS.TotalRendered(rows, 4)) == (GS.GroupDone, true)
  {
    assert GS.Statuses(rows)[2] == Done;
    assert GS.SumRendered(rows[4..]) == 0;
    assert rows[1..][1..] == rows[2..] && rows[2..][1..] == rows[3..] && rows[3..][1..] == rows[4..];
    assert GS.SumRendered(rows[2..]) == 4;
    assert GS.SumRendered(rows) == 4;
  }

  /** The rows of the second run: the first chunk fails after one of its two frames and b takes over the other. */
  function Partly(second: Status, third: Status): seq<Job> {
    [Row("a", Failed, 1, 2, 1, 2, 0), Row("b", second, 3, 4, if second.Done? then 2 else 0, 2, 1),
     Row("b", third, 2, 2, if third.Done? then 1 else 0, 1, 0)]
  }

  lemma {:induction false} FailPartly(w: World, plan: seq<FD.Assignment>) returns (events: seq<Event>, w': World)
    requires w.table.rows == [Row("a", Pending, 1, 2, 0, 2, 0), Row("b", Pending, 3, 4, 0, 2, 1)] && w.rendered == {}
    requires |plan| == 2 && plan[0].frameStart == 1 && plan[0].frameEnd == 2 && plan[0].frameStep == 1
    requires (0, w.table.rows[0]) in w.seen
    ensures Runs(w, events, plan) && After(w, events) == w'
    ensures w'.table.rows == Partly(Pending, Pending) && w'.rendered == {1}
    ensures forall i: nat :: i < 3 ==> (i, w'.table.rows[i]) in w'.seen
  {
    var report, again := Report(0, w.table.rows[0], 1, None), HandleFailure(FirstFailed(1), ToB());
    assert Frames(1, 2, 1) == [1, 2];
    var w1 := Next(w, FrameRendered(1));
    assert (0, w.table.rows[0]) in w1.seen && Enabled(w1, report, plan);
    var w2 := Next(w1, report);
    assert w2.table.rows == [Row("a", Running, 1, 2, 1, 2, 0), w.table.rows[1]];
    var w3 := Next(w2, GiveUp(0, Failed));
    Moved(w2, GiveUp(0, Failed));
    assert w3.table.rows == Partly(Pending, Pending)[..2];
    w' := Next(w3, again);
    Moved(w3, again);
    TakenOver(w3, 1);
    assert (0, w3.table.rows[0]) in w3.seen && Enabled(w3, again, plan);
    hide Next;
    OneMore(w3, again, [], plan);
    OneMore(w2, GiveUp(0, Failed), [again], plan);
    OneMore(w1, report, [GiveUp(0, Failed)] + [again], plan);
    OneMore(w, FrameRendered(1), [report] + ([GiveUp(0, Failed)] + [again]), plan);
    events := [FrameRendered(1)] + ([report] + ([GiveUp(0, Failed)] + [again]));
  }

  lemma {:induction false} RenderTheRest(w: World, plan: seq<FD.Assignment>) returns (events: seq<Event>, w': World)
    requires w.table.rows == Partly(Pending, Pending) && w.rendered == {1}
    requires forall i: nat :: i < 3 ==> (i, w.table.rows[i]) in w.seen
    ensures Runs(w, events, plan) && After(w, events) == w'
    ensures w'.table.rows == Partly(Done, Done) && w'.rendered == {1, 2, 3, 4}
  {
    var second, third := w.table.rows[1], w.table.rows[2];
    assert Frames(3, 4, 1) == [3, 4] && Frames(2, 2, 1) == [2];
    var w1 := Next(w, FrameRendered(2));
    var w2 := Next(w1, FrameRendered(3));
    var w3 := Next(w2, FrameRendered(4));
    assert (1, second) in w3.seen && Enabled(w3, Finish(1, second), plan);
    var w4 := Next(w3, Finish(1, second));
    assert w4.table.rows == Partly(Done, Pending);
    assert (2, third) in w4.seen && Enabled(w4, Finish(2, third), plan);
    w' := Next(w4, Finish(2, third));
    hide Next;
    OneMore(w4, Finish(2, third), [], plan);
    OneMore(w3, Finish(1, second), [Finish(2, third)], plan);
    var last := [Finish(1, second)] + [Finish(2, third)];
    OneMore(w2, FrameRendered(4), last, plan);
    OneMore(w1, FrameRendered(3), [FrameRendered(4)] + last, plan);
    OneMore(w, FrameRendered(2), [FrameRendered(3)] + ([FrameRendered(4)] + last), plan);
    events := [FrameRendered(2)] + ([FrameRendered(3)] + ([FrameRendered(4)] + last));
  }

  /** A failure after some progress, taken over and finished: every frame of the range is rendered and no row is active,
      and still the group's status stays what it was, because the counts of a failed row are left out. */
  lemma {:induction false} NeverCounted(cfg: FD.Config, current: GS.Group) returns (events: seq<Event>)
    ensures Runs(Start(cfg), events, Plan(cfg))
    ensures var w := After(Start(cfg), events);
      && GS.ComputeGroupStatus(current, GS.Statuses(w.table.rows), 4, GS.TotalRendered(w.table.rows, 4)) == (current, false)
      && GS.NoneActive(GS.Statuses(w.table.rows)) && w.rendered == {1, 2, 3, 4}
  {
    StartRows(cfg);
    var w0, plan := Start(cfg), Plan(cfg);
    assert (0, w0.table.rows[0]) in w0.seen;
    var first, w1 := FailPartly(w0, plan);
    var second, w2 := RenderTheRest(w1, plan);
    RunsOn(w0, first, second, plan);
    events := first + second;
    hide Runs, After, Start, Plan;
    PartlyIsNotDone(w2.table.rows, current);
  }

  lemma {:induction false} PartlyIsNotDone(rows: seq<Job>, current: GS.Group)
    requires rows == Partly(Done, Done)
    ensures GS.ComputeGroupStatus(current, GS.Statuses(rows), 4, GS.TotalRendered(rows, 4)) == (current, false)
    ensures GS.NoneActive(GS.Statuses(rows))
  {
    assert GS.Statuses(rows)[0] == Failed && GS.Statuses(rows)[1] == Done;
    assert GS.SumRendered(rows[3..]) == 0;
    assert rows[1..][1..] == rows[2..] && rows[2..][1..] == rows[3..];
    assert GS.SumRendered(rows[2..]) == 1;
    assert GS.SumRendered(rows) == 3;
  }
}
