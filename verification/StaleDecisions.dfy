/** The scanner decides on rows as one query returned them, and by the time it writes a row may be done.  This module
    says exactly which done rows a whole tick takes out of done, for every snapshot however old. */
module StaleDecisions {
  import opened Grid
  import opened RenderJobs
  import opened Fleet
  import opened Scanner
  import opened Conservation
  import opened SmallRuns
  import FD = FrameDistribution

  // ---------------------------------------------------------------------------
  // What a tick decides about one row of its snapshot
  // ---------------------------------------------------------------------------

  /** Handling the failure of this row puts some row in charge of its tail. */
  predicate FindsSomeone(job: Job, machines: Machines, a: Answers)
    requires job.machine in machines
  {
    (job.CanRetry() && !a.retryThrows) || ChooseFailover(a.candidates, job.machine, machines[job.machine]).Some?
  }

  /** The ranges covered when the retry pass comes to row n: they depend on the snapshot and the answers only. */
  function CoveredAt(jobs: seq<Job>, n: nat, machines: Machines, answers: nat -> Answers): set<(int, int)>
    requires n <= |jobs|
  {
    if n == 0 then CoveredBy(jobs, |jobs|)
    else
      var covered := CoveredAt(jobs, n - 1, machines, answers);
      if Retryable(jobs, jobs[n - 1], machines, covered) && FindsSomeone(jobs[n - 1], machines, answers(n - 1))
        then covered + {jobs[n - 1].Remaining().value}
      else covered
  }

  predicate RetriedByTick(jobs: seq<Job>, k: nat, machines: Machines, answers: nat -> Answers)
    requires k < |jobs|
  {
    Retryable(jobs, jobs[k], machines, CoveredAt(jobs, k, machines, answers))
  }

  // ---------------------------------------------------------------------------
  // Pass by pass
  // ---------------------------------------------------------------------------

  /** A handled failure with frames left leaves its row pending or failed, and any other row alone. */
  lemma HandledRow(t: Table, s: Snapshot, a: Answers, k: nat)
    requires s.id < |t.rows| && k < |t.rows| && s.row.Remaining().Some?
    ensures var t' := FailureHandled(t, s, a).0;
      |t'.rows| >= |t.rows| && (if k == s.id then !t'.rows[k].status.Done? else t'.rows[k] == t.rows[k])
  {
  }

  lemma {:induction false} OrphansUndo(t: Table, jobs: seq<Job>, i: nat, machines: Machines, stuck: nat -> bool, k: nat)
    requires i <= |jobs| <= |t.rows| && k < |t.rows|
    ensures var r := OrphansScanned(t, jobs, i, machines, stuck);
      && |r.rows| == |t.rows|
      && (r.rows[k].status.Done? <==>
            if i <= k < |jobs| && StuckPending(jobs[k], machines, stuck(k)) then false
            else t.rows[k].status.Done?
                 || (i <= k < |jobs| && jobs[k].status.Running? && OnServerless(jobs[k], machines)
                     && jobs[k].IsCompleteByFrames()))
    decreases |jobs| - i
  {
    if i < |jobs| { OrphansUndo(OrphanScanned(t, i, jobs[i], machines, stuck(i)), jobs, i + 1, machines, stuck, k); }
  }

  lemma {:induction false} DesktopsUndo(t: Table, jobs: seq<Job>, i: nat, machines: Machines, offline: nat -> bool,
                                        answers: nat -> Answers, k: nat)
    requires i <= |jobs| <= |t.rows| && k < |t.rows|
    ensures var r := DesktopsScanned(t, jobs, i, machines, offline, answers);
      && |r.rows| >= |t.rows|
      && (r.rows[k].status.Done? <==>
            t.rows[k].status.Done? && !(i <= k < |jobs| && Abandoned(jobs[k], machines, offline(k))))
    decreases |jobs| - i
  {
    if i < |jobs| {
      var job := jobs[i];
      if Abandoned(job, machines, offline(i)) && job.Remaining().Some? {
        HandledRow(SetStatus(t, i, Failed), Snapshot(i, job, machines[job.machine]), answers(i), k);
      }
      hide FailureHandled;
      DesktopsUndo(DesktopScanned(t, i, job, machines, offline(i), answers(i)), jobs, i + 1, machines, offline, answers, k);
    }
  }

  lemma CoveredNext(t: Table, jobs: seq<Job>, i: nat, machines: Machines, answers: nat -> Answers)
    requires i < |jobs| <= |t.rows|
    ensures RetryScanned(t, jobs, i, machines, answers(i), CoveredAt(jobs, i, machines, answers)).1
      == CoveredAt(jobs, i + 1, machines, answers)
  {
  }

  /** One row of the retry pass: whether row k is done afterwards. */
  lemma RetryUndoes(t: Table, jobs: seq<Job>, i: nat, machines: Machines, answers: nat -> Answers, k: nat)
    requires i < |jobs| <= |t.rows| && k < |t.rows|
    ensures var t' := RetryScanned(t, jobs, i, machines, answers(i), CoveredAt(jobs, i, machines, answers)).0;
      && |t'.rows| >= |t.rows|
      && (t'.rows[k].status.Done? <==> t.rows[k].status.Done? && !(i == k && RetriedByTick(jobs, k, machines, answers)))
  {
    var job := jobs[i];
    if Retryable(jobs, job, machines, CoveredAt(jobs, i, machines, answers)) {
      HandledRow(t, Snapshot(i, job, machines[job.machine]), answers(i), k);
    }
    hide FailureHandled, CoveredAt, FailedOn;
  }

  lemma {:induction false} RetriesUndo(t: Table, jobs: seq<Job>, i: nat, machines: Machines, answers: nat -> Answers, k: nat)
    requires i <= |jobs| <= |t.rows| && k < |t.rows|
    ensures var r := RetriesScanned(t, jobs, i, machines, answers, CoveredAt(jobs, i, machines, answers));
      && |r.rows| >= |t.rows|
      && (r.rows[k].status.Done? <==>
            t.rows[k].status.Done? && !(i <= k < |jobs| && RetriedByTick(jobs, k, machines, answers)))
    decreases |jobs| - i
  {
    if i < |jobs| {
      CoveredNext(t, jobs, i, machines, answers);
      RetryUndoes(t, jobs, i, machines, answers, k);
      hide RetryScanned, CoveredAt, RetriedByTick;
      var (t', covered) := RetryScanned(t, jobs, i, machines, answers(i), CoveredAt(jobs, i, machines, answers));
      RetriesUndo(t', jobs, i + 1, machines, answers, k);
    }
  }

  lemma {:induction false} TerminalsUndo(t: Table, jobs: seq<Job>, i: nat, group: Status, k: nat)
    requires i <= |jobs| <= |t.rows| && k < |t.rows| && t.rows[k].status.Done? && !group.Done?
    ensures var r := TerminalsScanned(t, jobs, i, group);
      && |r.rows| == |t.rows|
      && (!r.rows[k].status.Done? <==> i <= k < |jobs| && jobs[k].Active() && !jobs[k].IsCompleteByFrames())
    decreases |jobs| - i
  {
    if i < |jobs| {
      if i == k {
        TerminalsLeave(TerminalScanned(t, i, jobs[i], group), jobs, i + 1, group, k);
      } else {
        TerminalsUndo(TerminalScanned(t, i, jobs[i], group), jobs, i + 1, group, k);
      }
    }
  }

  lemma {:induction false} TerminalsLeave(t: Table, jobs: seq<Job>, i: nat, group: Status, k: nat)
    requires k < i <= |jobs| <= |t.rows|
    ensures var r := TerminalsScanned(t, jobs, i, group); |r.rows| == |t.rows| && r.rows[k] == t.rows[k]
    decreases |jobs| - i
  {
    if i < |jobs| { TerminalsLeave(TerminalScanned(t, i, jobs[i], group), jobs, i + 1, group, k); }
  }

  // ---------------------------------------------------------------------------
  // A whole tick
  // ---------------------------------------------------------------------------

  /** What the snapshot must say of row k for the tick to undo it. */
  predicate Undoes(jobs: seq<Job>, k: nat, machines: Machines, stuck: nat -> bool, offline: nat -> bool,
                   retryAnswers: nat -> Answers)
  {
    k < |jobs| && (StuckPending(jobs[k], machines, stuck(k)) || Abandoned(jobs[k], machines, offline(k))
                   || RetriedByTick(jobs, k, machines, retryAnswers))
  }

  /** A tick takes a done row out of done exactly when its snapshot shows that row pending and stuck on a serverless machine,
      running on an offline desktop (with or without frames left), or failed and about to be retried. */
  lemma TickUndoesIff(t: Table, jobs: seq<Job>, machines: Machines, stuck: nat -> bool, offline: nat -> bool,
                      desktopAnswers: nat -> Answers, retryAnswers: nat -> Answers, k: nat)
    requires |jobs| <= |t.rows| && k < |t.rows| && t.rows[k].status.Done?
    ensures var r := Ticked(t, jobs, machines, stuck, offline, desktopAnswers, retryAnswers);
      |r.rows| >= |t.rows| && (!r.rows[k].status.Done? <==> Undoes(jobs, k, machines, stuck, offline, retryAnswers))
  {
    var t1 := OrphansScanned(t, jobs, 0, machines, stuck);
    OrphansUndo(t, jobs, 0, machines, stuck, k);
    var t2 := DesktopsScanned(t1, jobs, 0, machines, offline, desktopAnswers);
    DesktopsUndo(t1, jobs, 0, machines, offline, desktopAnswers, k);
    RetriesUndo(t2, jobs, 0, machines, retryAnswers, k);
  }

  /** On a failed or cancelled group: exactly when the snapshot shows the row active and not complete by its counts. */
  lemma TerminalPassUndoesIff(t: Table, jobs: seq<Job>, group: Status, k: nat)
    requires |jobs| <= |t.rows| && k < |t.rows| && t.rows[k].status.Done? && (group.Failed? || group.Cancelled?)
    ensures var r := TerminalsScanned(t, jobs, 0, group);
      |r.rows| == |t.rows| && (!r.rows[k].status.Done? <==> k < |jobs| && jobs[k].Active() && !jobs[k].IsCompleteByFrames())
  {
    TerminalsUndo(t, jobs, 0, group, k);
  }

  // ---------------------------------------------------------------------------
  // Any single event
  // ---------------------------------------------------------------------------

  /** The events that take row k out of done, from what they read: a progress report that found the row pending, a failed
      callback that found it active, a handled failure that found frames left, and a row given up without being read, as by a
      dispatch that throws in its own thread. */
  predicate UndoesByEvent(e: Event, k: nat) {
    match e
    case Report(id, read, _, _) => id == k && read.status.Pending?
    case ReportFailure(id, read, _, _) => id == k && read.Active() && read.Remaining().Some?
    case BlockedFailure(id, read) => id == k && read.Active()
    case HandleFailure(s, _) => s.id == k && s.row.Remaining().Some?
    case GiveUp(id, status) => id == k && !status.Done?
    case _ => false
  }

  /** A handled failure settles its own row and leaves any other alone. */
  lemma HandledIff(t: Table, s: Snapshot, a: Answers, k: nat)
    requires k < |t.rows|
    ensures var t' := FailureHandled(t, s, a).0;
      && |t'.rows| >= |t.rows|
      && (t'.rows[k].status.Done? <==> if k == s.id then s.row.Remaining().None? else t.rows[k].status.Done?)
  {
    if s.id < |t.rows| && s.row.Remaining().Some? { HandledRow(t, s, a, k); }
  }

  /** One event: a done row stops being done exactly by these.  Claims, done callbacks, completions by counts, registered
      outputs and rendered frames never do it, however old what they read. */
  lemma EventUndoesIff(t: Table, e: Event, k: nat)
    requires k < |t.rows| && t.rows[k].status.Done?
    ensures var t' := Changed(t, e);
      |t'.rows| >= |t.rows| && (!t'.rows[k].status.Done? <==> UndoesByEvent(e, k))
  {
    hide FailureHandled, CountsAfter, CountWithFiles, IsWithin;
    match e
    case ReportFailure(id, read, kind, a) =>
      if id < |t.rows| && read.Active() { HandledIff(FailureStored(t, id, read), Snapshot(id, read, kind), a, k); }
    case HandleFailure(s, a) => HandledIff(t, s, a, k);
    case _ =>
  }

  // ---------------------------------------------------------------------------
  // It happens
  // ---------------------------------------------------------------------------

  lemma ClaimedRenderedDone(w: World, plan: seq<FD.Assignment>) returns (rest: seq<Event>, w': World)
    requires |w.table.rows| == 2 && w.table.rows[0] == Row("a", Running, 1, 2, 0, 2, 0) && (0, w.table.rows[0]) in w.seen
    ensures Runs(w, rest, plan) && After(w, rest) == w'
    ensures |w'.table.rows| == 2 && w'.table.rows[0] == Row("a", Done, 1, 2, 2, 2, 0) && {1, 2} <= w'.rendered
  {
    var row := w.table.rows[0];
    assert Frames(1, 2, 1) == [1, 2];
    var w1 := Next(w, FrameRendered(1));
    var w2 := Next(w1, FrameRendered(2));
    w' := Next(w2, Finish(0, row));
    assert (0, row) in w2.seen && Enabled(w2, Finish(0, row), plan);
    hide Next;
    OneMore(w2, Finish(0, row), [], plan);
    OneMore(w1, FrameRendered(2), [Finish(0, row)], plan);
    OneMore(w, FrameRendered(1), [FrameRendered(2)] + [Finish(0, row)], plan);
    rest := [FrameRendered(1)] + ([FrameRendered(2)] + [Finish(0, row)]);
  }

  /** A worker claims the first row, renders both its frames and reports it done; a tick whose query ran just after the claim
      finds the desktop offline: the row, whose chunk is rendered, is no longer done. */
  lemma StaleTickHappens(cfg: FD.Config, stuck: nat -> bool, offline: nat -> bool, answers: nat -> Answers)
    returns (jobs: seq<Job>, events: seq<Event>)
    requires offline(0)
    ensures jobs == Next(Start(cfg), Claim(0)).table.rows && Runs(Start(cfg), [Claim(0)] + events, Plan(cfg))
    ensures var w := After(Start(cfg), [Claim(0)] + events);
      var r := Ticked(w.table, jobs, map["a" := FD.Desktop("windows")], stuck, offline, answers, answers);
      && |w.table.rows| == 2 && w.table.rows[0].status.Done? && {1, 2} <= w.rendered
      && |r.rows| >= 2 && !r.rows[0].status.Done?
  {
    StartRows(cfg);
    var w0, plan := Start(cfg), Plan(cfg);
    var machines: Machines := map["a" := FD.Desktop("windows")];
    var w1 := Next(w0, Claim(0));
    jobs := w1.table.rows;
    assert |jobs| == 2 && jobs[0] == Row("a", Running, 1, 2, 0, 2, 0);
    Moved(w0, Claim(0));
    assert (0, jobs[0]) in w1.seen;
    assert Enabled(w0, Claim(0), plan);
    hide Next, Start, Plan, Ticked, Runs, After;
    var w2;
    events, w2 := ClaimedRenderedDone(w1, plan);
    OneMore(w0, Claim(0), events, plan);
    assert Abandoned(jobs[0], machines, offline(0));
    assert Undoes(jobs, 0, machines, stuck, offline, answers);
    TickUndoesIff(w2.table, jobs, machines, stuck, offline, answers, answers, 0);
  }

  lemma ReportAfterDone(w: World, pending: Job, plan: seq<FD.Assignment>)
    requires |w.table.rows| == 2 && w.table.rows[0] == Row("a", Done, 1, 2, 2, 2, 0) && {1, 2} <= w.rendered
    requires pending == Row("a", Pending, 1, 2, 0, 2, 0) && (0, pending) in w.seen
    requires |plan| == 2 && plan[0].frameStart == 1 && plan[0].frameEnd == 2 && plan[0].frameStep == 1
    ensures Enabled(w, Report(0, pending, 2, None), plan)
    ensures var w' := Next(w, Report(0, pending, 2, None));
      |w'.table.rows| == 2 && w'.table.rows[0].status.Running? && {1, 2} <= w'.rendered
  {
    FramesBounded(1, 2, 1);
    assert CountsAfter(pending, 2, None) == (2, 2);
  }

  /** The same run, and then a progress report whose row was read before the claim: the finished row is running again. */
  lemma StaleReportHappens(cfg: FD.Config) returns (events: seq<Event>)
    ensures Runs(Start(cfg), events, Plan(cfg))
    ensures var w := After(Start(cfg), events);
      |w.table.rows| == 2 && w.table.rows[0].status.Running? && {1, 2} <= w.rendered
  {
    StartRows(cfg);
    var w0, plan := Start(cfg), Plan(cfg);
    var pending := w0.table.rows[0];
    assert (0, pending) in w0.seen;
    var w1 := Next(w0, Claim(0));
    assert |w1.table.rows| == 2 && w1.table.rows[0] == Row("a", Running, 1, 2, 0, 2, 0);
    Moved(w0, Claim(0));
    assert (0, w1.table.rows[0]) in w1.seen && (0, pending) in w1.seen;
    assert Enabled(w0, Claim(0), plan);
    hide Next, Start, Plan, Runs, After;
    var rest, w2 := ClaimedRenderedDone(w1, plan);
    var report := Report(0, pending, 2, None);
    SeenLasts(w1, rest);
    ReportAfterDone(w2, pending, plan);
    OneMore(w2, report, [], plan);
    RunsOn(w1, rest, [report] + [], plan);
    OneMore(w0, Claim(0), rest + ([report] + []), plan);
    events := [Claim(0)] + (rest + ([report] + []));
  }

  lemma {:induction false} SeenLasts(w: World, events: seq<Event>)
    ensures w.seen <= After(w, events).seen
    decreases |events|
  {
    if events != [] {
      Moved(w, events[0]);
      hide Next;
      SeenLasts(Next(w, events[0]), events[1..]);
    }
  }
}
