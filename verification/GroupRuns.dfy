/** The life of a render group.  Every step may act on rows and on a group status as they were read at any earlier moment.
    Exactly which steps take a done row or a done group out of done, over whole runs; and what holds when every step reads
    what is there. */
module GroupRuns {
  import opened RenderJobs
  import opened Fleet
  import opened Scanner
  import opened GroupStatus
  import opened StaleDecisions
  import C = Conservation
  import FD = FrameDistribution

  datatype State = State(group: Group, table: Table)

  /** Tasks whose steps are at least one, as every plan's are. */
  type Tasks = tasks: seq<FD.PlannedTask> | forall i :: 0 <= i < |tasks| ==> tasks[i].share.frameStep >= 1

  /** How far a confirmation gets: an error before anything is stored, no frame range known, or a plan dispatched. */
  datatype Confirmed = Refused | NeedsFrames | Dispatched(tasks: Tasks, maxRetries: nat)

  /** An event on a row, a scanner's pass over a snapshot, a status request that stores what it computed from the group's
      status and the rows it read, a cancel with the rows it read, and a confirmation. */
  datatype Step =
    | Act(event: C.Event)
    | Tick(jobs: seq<Job>, inputs: TickInputs)
    | TerminalTick(jobs: seq<Job>, cancelled: bool)
    | StoreStatus(current: Group, rows: seq<Job>, totalFrames: int)
    | Cancel(jobs: seq<Job>)
    | Confirm(confirmed: Confirmed)

  /** The rows that were active when read are cancelled, whatever they are by now. */
  function CancelledBy(rows: seq<Job>, jobs: seq<Job>): (r: seq<Job>)
    ensures |r| == |rows|
    ensures forall i :: 0 <= i < |rows| ==>
      r[i] == if i < |jobs| && jobs[i].Active() then rows[i].(status := Cancelled) else rows[i]
  {
    seq(|rows|, i requires 0 <= i < |rows| =>
                  if i < |jobs| && jobs[i].Active() then rows[i].(status := Cancelled) else rows[i])
  }

  ghost function TableAfter(t: Table, step: Step): Table {
    match step
    case Act(e) => C.Changed(t, e)
    case Tick(jobs, x) => Ticked(t, jobs, x.machines, x.stuck, x.offline, x.desktopAnswers, x.retryAnswers)
    case TerminalTick(jobs, cancelled) => TerminalsScanned(t, jobs, 0, if cancelled then Cancelled else Failed)
    case StoreStatus(_, _, _) => t
    case Cancel(jobs) => t.(rows := CancelledBy(t.rows, jobs))
    case Confirm(confirmed) =>
      var t' := t.(rows := CancelledBy(t.rows, t.rows));
      if confirmed.Dispatched? then DispatchedAll(t', confirmed.tasks, confirmed.maxRetries) else t'
  }

  function GroupAfter(group: Group, step: Step): Group {
    match step
    case StoreStatus(current, rows, totalFrames) =>
      var (status, store) := ComputeGroupStatus(current, Statuses(rows), totalFrames, TotalRendered(rows, totalFrames));
      if store then status else group
    case Cancel(_) => GroupCancelled
    case Confirm(confirmed) => if confirmed.Refused? then group else GroupPending
    case _ => group
  }

  ghost function Next(s: State, step: Step): State { State(GroupAfter(s.group, step), TableAfter(s.table, step)) }

  /** A snapshot is never longer than the table, which only grows. */
  predicate Possible(s: State, step: Step) {
    match step
    case Tick(jobs, _) => |jobs| <= |s.table.rows|
    case TerminalTick(jobs, _) => |jobs| <= |s.table.rows|
    case Cancel(jobs) => |jobs| <= |s.table.rows|
    case _ => true
  }

  // ---------------------------------------------------------------------------
  // When a done row leaves done
  // ---------------------------------------------------------------------------

  /** From what the step read: an event that undoes it, a tick or a terminal pass that does, or a cancel that read the row
      as active. */
  predicate UndoesRow(step: Step, k: nat) {
    match step
    case Act(e) => UndoesByEvent(e, k)
    case Tick(jobs, x) => Undoes(jobs, k, x.machines, x.stuck, x.offline, x.retryAnswers)
    case TerminalTick(jobs, _) => k < |jobs| && jobs[k].Active() && !jobs[k].IsCompleteByFrames()
    case Cancel(jobs) => k < |jobs| && jobs[k].Active()
    case _ => false
  }

  lemma {:induction false} DispatchAppends(t: Table, tasks: Tasks, maxRetries: nat)
    ensures t.rows <= DispatchedAll(t, tasks, maxRetries).rows
    decreases |tasks|
  {
    if tasks != [] {
      var a := tasks[0].share;
      var job := Job(a.machine.id, Pending, a.frameStart, a.frameEnd, a.frameStep, 0, a.totalFrames, 0, maxRetries,
                     tasks[0].chunkIndex);
      DispatchAppends(Inserted(t, job), tasks[1..], maxRetries);
    }
  }

  lemma RowLeavesIff(s: State, step: Step, k: nat)
    requires Possible(s, step) && k < |s.table.rows| && s.table.rows[k].status.Done?
    ensures var t' := TableAfter(s.table, step);
      |t'.rows| >= |s.table.rows| && (!t'.rows[k].status.Done? <==> UndoesRow(step, k))
  {
    hide Ticked, TerminalsScanned, C.Changed, UndoesByEvent, Undoes, DispatchedAll;
    var t := s.table;
    match step
    case Act(e) => EventUndoesIff(t, e, k);
    case Tick(jobs, x) => TickUndoesIff(t, jobs, x.machines, x.stuck, x.offline, x.desktopAnswers, x.retryAnswers, k);
    case TerminalTick(jobs, cancelled) => TerminalPassUndoesIff(t, jobs, if cancelled then Cancelled else Failed, k);
    case Confirm(confirmed) =>
      if confirmed.Dispatched? {
        DispatchAppends(t.(rows := CancelledBy(t.rows, t.rows)), confirmed.tasks, confirmed.maxRetries);
      }
    case _ =>
  }

  // ---------------------------------------------------------------------------
  // When a done group leaves done
  // ---------------------------------------------------------------------------

  /** A status request stores something other than done exactly if it read a pending group with a running row, or a group
      neither failed nor cancelled whose rows had all failed. */
  predicate StoresOver(current: Group, statuses: seq<Status>) {
    || (current.GroupPending? && AnyIs(statuses, Running))
    || (!current.GroupFailed? && !current.GroupCancelled? && AllAre(statuses, Failed))
  }

  predicate UndoesGroup(step: Step) {
    match step
    case StoreStatus(current, rows, _) => StoresOver(current, Statuses(rows))
    case Cancel(_) => true
    case Confirm(confirmed) => !confirmed.Refused?
    case _ => false
  }

  lemma GroupLeavesIff(s: State, step: Step)
    requires s.group.GroupDone?
    ensures !GroupAfter(s.group, step).GroupDone? <==> UndoesGroup(step)
  {
    if step.StoreStatus? {
      var statuses := Statuses(step.rows);
      if AllAre(statuses, Failed) { assert statuses[0] == Failed; }
    }
  }

  // ---------------------------------------------------------------------------
  // Whole runs
  // ---------------------------------------------------------------------------

  ghost function After(s: State, steps: seq<Step>): State {
    if steps == [] then s else Next(After(s, steps[..|steps| - 1]), steps[|steps| - 1])
  }

  ghost predicate PossibleRun(s: State, steps: seq<Step>) {
    forall n :: 0 <= n < |steps| ==> Possible(After(s, steps[..n]), steps[n])
  }

  ghost predicate RowDoneAt(s: State, steps: seq<Step>, n: nat, k: nat)
    requires n <= |steps|
  {
    k < |After(s, steps[..n]).table.rows| && After(s, steps[..n]).table.rows[k].status.Done?
  }

  ghost predicate GroupDoneAt(s: State, steps: seq<Step>, n: nat)
    requires n <= |steps|
  {
    After(s, steps[..n]).group.GroupDone?
  }

  lemma OneStep(s: State, steps: seq<Step>, n: nat)
    requires n < |steps|
    ensures After(s, steps[..n + 1]) == Next(After(s, steps[..n]), steps[n])
  {
    assert steps[..n + 1][..n] == steps[..n];
  }

  /** As long as no step undoes it, a done row is done. */
  lemma {:induction false} RowStays(s: State, steps: seq<Step>, k: nat, n: nat)
    requires PossibleRun(s, steps) && n <= |steps| && k < |s.table.rows| && s.table.rows[k].status.Done?
    requires forall m :: 0 <= m < n ==> !UndoesRow(steps[m], k)
    ensures RowDoneAt(s, steps, n, k)
  {
    if n > 0 {
      RowStays(s, steps, k, n - 1);
      OneStep(s, steps, n - 1);
      hide After, UndoesRow, TableAfter;
      RowLeavesIff(After(s, steps[..n - 1]), steps[n - 1], k);
    }
  }

  /** Over whole runs, whatever was read when: a done row is done at every later moment if and only if no step undoes it. */
  lemma RowStaysIff(s: State, steps: seq<Step>, k: nat)
    requires PossibleRun(s, steps) && k < |s.table.rows| && s.table.rows[k].status.Done?
    ensures (forall n :: 0 <= n <= |steps| ==> RowDoneAt(s, steps, n, k))
      <==> forall n :: 0 <= n < |steps| ==> !UndoesRow(steps[n], k)
  {
    hide After, UndoesRow, TableAfter;
    if forall n :: 0 <= n < |steps| ==> !UndoesRow(steps[n], k) {
      forall n | 0 <= n <= |steps| ensures RowDoneAt(s, steps, n, k) { RowStays(s, steps, k, n); }
    }
    if forall n :: 0 <= n <= |steps| ==> RowDoneAt(s, steps, n, k) {
      forall n | 0 <= n < |steps| ensures !UndoesRow(steps[n], k) {
        assert RowDoneAt(s, steps, n, k) && RowDoneAt(s, steps, n + 1, k);
        OneStep(s, steps, n);
        RowLeavesIff(After(s, steps[..n]), steps[n], k);
      }
    }
  }

  lemma {:induction false} GroupStays(s: State, steps: seq<Step>, n: nat)
    requires n <= |steps| && s.group.GroupDone? && forall m :: 0 <= m < n ==> !UndoesGroup(steps[m])
    ensures GroupDoneAt(s, steps, n)
  {
    if n > 0 {
      GroupStays(s, steps, n - 1);
      OneStep(s, steps, n - 1);
      hide After, UndoesGroup, GroupAfter;
      GroupLeavesIff(After(s, steps[..n - 1]), steps[n - 1]);
    }
  }

  /** And a done group if and only if there is no cancel, no confirmation that is not refused, and no status request that
      read a pending group with a running row, or a group neither failed nor cancelled with only failed rows. */
  lemma GroupStaysIff(s: State, steps: seq<Step>)
    requires s.group.GroupDone?
    ensures (forall n :: 0 <= n <= |steps| ==> GroupDoneAt(s, steps, n))
      <==> forall n :: 0 <= n < |steps| ==> !UndoesGroup(steps[n])
  {
    hide After, UndoesGroup, GroupAfter;
    if forall n :: 0 <= n < |steps| ==> !UndoesGroup(steps[n]) {
      forall n | 0 <= n <= |steps| ensures GroupDoneAt(s, steps, n) { GroupStays(s, steps, n); }
    }
    if forall n :: 0 <= n <= |steps| ==> GroupDoneAt(s, steps, n) {
      forall n | 0 <= n < |steps| ensures !UndoesGroup(steps[n]) {
        assert GroupDoneAt(s, steps, n) && GroupDoneAt(s, steps, n + 1);
        OneStep(s, steps, n);
        GroupLeavesIff(After(s, steps[..n]), steps[n]);
      }
    }
  }

  // ---------------------------------------------------------------------------
  // Steps that read what is there
  // ---------------------------------------------------------------------------

  predicate ReadsRow(t: Table, id: nat, read: Job) { id < |t.rows| ==> read == t.rows[id] }

  predicate FreshEvent(t: Table, e: C.Event) {
    match e
    case Report(id, read, _, _) => ReadsRow(t, id, read)
    case Finish(id, read) => ReadsRow(t, id, read)
    case ReportFailure(id, read, _, _) => ReadsRow(t, id, read)
    case BlockedFailure(id, read) => ReadsRow(t, id, read)
    case Register(id, read, _) => ReadsRow(t, id, read)
    case LateDone(id, read, _) => ReadsRow(t, id, read)
    case HandleFailure(s, _) => ReadsRow(t, s.id, s.row)
    case MarkComplete(id, read) => ReadsRow(t, id, read)
    case _ => true
  }

  predicate Fresh(s: State, step: Step) {
    match step
    case Act(e) => FreshEvent(s.table, e)
    case Tick(jobs, _) => jobs == s.table.rows && (s.group.GroupPending? || s.group.GroupRunning?)
    case TerminalTick(jobs, cancelled) => jobs == s.table.rows && s.group == if cancelled then GroupCancelled else GroupFailed
    case StoreStatus(current, rows, _) => current == s.group && rows == s.table.rows
    case Cancel(jobs) => jobs == s.table.rows
    case Confirm(_) => true
  }

  /** What can undo a done row even then: giving it up without reading it, and handling a failure of it while it has frames
      left. */
  predicate Blind(s: State, step: Step, k: nat)
    requires k < |s.table.rows|
  {
    match step
    case Act(e) =>
      (match e
       case GiveUp(id, status) => id == k && !status.Done?
       case HandleFailure(snapshot, _) => snapshot.id == k && s.table.rows[k].Remaining().Some?
       case _ => false)
    case _ => false
  }

  lemma FreshUndoesIff(s: State, step: Step, k: nat)
    requires Fresh(s, step) && k < |s.table.rows| && s.table.rows[k].status.Done?
    ensures UndoesRow(step, k) <==> Blind(s, step, k)
  {
    hide CoveredAt;
  }

  /** The step writes the rendered count of row k. */
  predicate Recounts(step: Step, k: nat) {
    match step
    case Act(e) =>
      (match e
       case Register(id, _, _) => id == k
       case LateDone(id, _, _) => id == k
       case MarkComplete(id, _) => id == k
       case _ => false)
    case _ => false
  }

  ghost predicate KeepsRow(t: Table, t': Table, step: Step, k: nat)
    requires k < |t.rows| <= |t'.rows|
  {
    t'.rows[k].(rendered := t.rows[k].rendered) == t.rows[k] && (!Recounts(step, k) ==> t'.rows[k] == t.rows[k])
  }

  lemma TickKeepsRow(t: Table, x: TickInputs, k: nat)
    requires k < |t.rows| && t.rows[k].status.Done?
    ensures |FreshTick(t, x).rows| >= |t.rows| && FreshTick(t, x).rows[k] == t.rows[k]
  {
    var t1 := OrphansScanned(t, t.rows, 0, x.machines, x.stuck);
    OrphansKeepDone(t, t.rows, 0, x.machines, x.stuck, k);
    var t2 := DesktopsScanned(t1, t.rows, 0, x.machines, x.offline, x.desktopAnswers);
    DesktopsKeepDone(t1, t.rows, 0, x.machines, x.offline, x.desktopAnswers, k);
    RetriesKeepDone(t2, t.rows, 0, x.machines, x.retryAnswers, CoveredBy(t.rows, |t.rows|), k);
  }

  lemma EventKeepsRow(t: Table, e: C.Event, k: nat)
    requires k < |t.rows| && t.rows[k].status.Done? && FreshEvent(t, e) && !UndoesByEvent(e, k)
    ensures |C.Changed(t, e).rows| >= |t.rows| && KeepsRow(t, C.Changed(t, e), Act(e), k)
  {
    hide FailureHandled, CountsAfter, CountWithFiles, IsWithin;
    match e
    case ReportFailure(id, read, kind, a) =>
      if id < |t.rows| && id != k { FailureTouchesOnly(FailureStored(t, id, read), Snapshot(id, read, kind), a, k); }
    case HandleFailure(s, a) =>
      if s.id < |t.rows| && s.id != k { FailureTouchesOnly(t, s, a, k); } else { NothingLeftIsDone(t, s, a); }
    case _ =>
  }

  lemma NothingLeftIsDone(t: Table, s: Snapshot, a: Answers)
    requires s.id >= |t.rows| || s.row.Remaining().None?
    ensures FailureHandled(t, s, a).0 == SetStatus(t, s.id, Done)
  {
  }

  /** A step that reads what is there and is not blind leaves every done row as it is, but for a count it registers. */
  lemma StepKeepsRow(s: State, step: Step, k: nat)
    requires Fresh(s, step) && k < |s.table.rows| && s.table.rows[k].status.Done? && !Blind(s, step, k)
    ensures |TableAfter(s.table, step).rows| >= |s.table.rows| && KeepsRow(s.table, TableAfter(s.table, step), step, k)
  {
    FreshUndoesIff(s, step, k);
    hide Ticked, TerminalsScanned, C.Changed, UndoesByEvent, DispatchedAll, FreshEvent, Blind;
    var t := s.table;
    match step
    case Act(e) => EventKeepsRow(t, e, k);
    case Tick(jobs, x) => TickKeepsRow(t, x, k);
    case TerminalTick(jobs, cancelled) => TerminalsKeepDone(t, jobs, 0, if cancelled then Cancelled else Failed, k);
    case Confirm(confirmed) =>
      if confirmed.Dispatched? {
        DispatchAppends(t.(rows := CancelledBy(t.rows, t.rows)), confirmed.tasks, confirmed.maxRetries);
      }
    case _ =>
  }

  ghost predicate SomeRowDone(t: Table) { exists i :: 0 <= i < |t.rows| && t.rows[i].status.Done? }

  /** The two steps that take no notice of the status a group has. */
  predicate Overrides(step: Step) { step.Cancel? || (step.Confirm? && !step.confirmed.Refused?) }

  /** A done group has a done row. */
  ghost predicate Coherent(s: State) { s.group.GroupDone? ==> SomeRowDone(s.table) }

  /** The step reads what is there and is blind to no done row. */
  ghost predicate Careful(s: State, step: Step) {
    Fresh(s, step) && forall k :: 0 <= k < |s.table.rows| && s.table.rows[k].status.Done? ==> !Blind(s, step, k)
  }

  lemma {:induction false} TerminalsGrow(t: Table, jobs: seq<Job>, i: nat, group: Status)
    requires i <= |jobs|
    ensures |TerminalsScanned(t, jobs, i, group).rows| == |t.rows|
    decreases |jobs| - i
  {
    if i < |jobs| { TerminalsGrow(TerminalScanned(t, i, jobs[i], group), jobs, i + 1, group); }
  }

  lemma TickGrows(t: Table, jobs: seq<Job>, x: TickInputs)
    requires |jobs| <= |t.rows|
    ensures |Ticked(t, jobs, x.machines, x.stuck, x.offline, x.desktopAnswers, x.retryAnswers).rows| >= |t.rows|
  {
    if t.rows != [] {
      var t1 := OrphansScanned(t, jobs, 0, x.machines, x.stuck);
      OrphansUndo(t, jobs, 0, x.machines, x.stuck, 0);
      var t2 := DesktopsScanned(t1, jobs, 0, x.machines, x.offline, x.desktopAnswers);
      DesktopsUndo(t1, jobs, 0, x.machines, x.offline, x.desktopAnswers, 0);
      RetriesUndo(t2, jobs, 0, x.machines, x.retryAnswers, 0);
    }
  }

  /** No row is ever removed. */
  lemma StepGrows(s: State, step: Step)
    requires Possible(s, step)
    ensures |TableAfter(s.table, step).rows| >= |s.table.rows|
  {
    hide Ticked, TerminalsScanned, DispatchedAll, CountsAfter, CountWithFiles, IsWithin;
    match step
    case Tick(jobs, x) => TickGrows(s.table, jobs, x);
    case TerminalTick(jobs, cancelled) => TerminalsGrow(s.table, jobs, 0, if cancelled then Cancelled else Failed);
    case Confirm(confirmed) =>
      if confirmed.Dispatched? {
        DispatchAppends(s.table.(rows := CancelledBy(s.table.rows, s.table.rows)), confirmed.tasks, confirmed.maxRetries);
      }
    case _ =>
  }

  /** A status request on what is there. */
  lemma StatusIsSafe(s: State, totalFrames: int)
    requires Coherent(s)
    ensures var group := GroupAfter(s.group, StoreStatus(s.group, s.table.rows, totalFrames));
      && (group.GroupDone? ==> SomeRowDone(s.table))
      && (s.group.GroupDone? ==> group.GroupDone?)
      && ((s.group.GroupFailed? || s.group.GroupCancelled?) && group != s.group ==>
            && group.GroupDone?
            && (forall i :: 0 <= i < |s.table.rows| ==> !s.table.rows[i].Active())
            && totalFrames > 0 && SumRendered(s.table.rows) >= totalFrames)
  {
    var rows := s.table.rows;
    var statuses := Statuses(rows);
    if AnyIs(statuses, Done) {
      var i :| 0 <= i < |statuses| && statuses[i] == Done;
      assert rows[i].status.Done?;
    }
    if AllAre(statuses, Done) { assert statuses[0] == Done && rows[0].status.Done?; }
    if s.group.GroupDone? {
      var i :| 0 <= i < |rows| && rows[i].status.Done?;
      assert statuses[i] != Failed;
    }
    if NoneActive(statuses) {
      forall i | 0 <= i < |rows| ensures !rows[i].Active() {
        assert statuses[i] != Pending && statuses[i] != Running;
      }
    }
  }

  lemma KeepsSomeDone(s: State, step: Step)
    requires Careful(s, step) && SomeRowDone(s.table)
    ensures SomeRowDone(TableAfter(s.table, step))
  {
    var k :| 0 <= k < |s.table.rows| && s.table.rows[k].status.Done?;
    StepKeepsRow(s, step, k);
    hide TableAfter;
    assert TableAfter(s.table, step).rows[k].status.Done?;
  }

  /** Such a step keeps every done row; a done group leaves done exactly by a cancel or a confirmation that is not refused; a
      failed or cancelled group changes only by one of these, or to done, and then some row is done, none is active and the
      counts of the rows reach the group's total. */
  lemma StepIsSafe(s: State, step: Step)
    requires Coherent(s) && Careful(s, step)
    ensures var s' := Next(s, step);
      && Coherent(s')
      && |s'.table.rows| >= |s.table.rows|
      && (forall k :: 0 <= k < |s.table.rows| && s.table.rows[k].status.Done? ==> KeepsRow(s.table, s'.table, step, k))
      && (s.group.GroupDone? ==> (s'.group.GroupDone? <==> !Overrides(step)))
      && ((s.group.GroupFailed? || s.group.GroupCancelled?) && s'.group != s.group && !Overrides(step) ==>
            && s'.group.GroupDone? && step.StoreStatus? && SomeRowDone(s'.table)
            && (forall i :: 0 <= i < |s'.table.rows| ==> !s'.table.rows[i].Active())
            && step.totalFrames > 0 && SumRendered(s'.table.rows) >= step.totalFrames)
  {
    var s' := Next(s, step);
    assert Possible(s, step);
    if step.StoreStatus? { StatusIsSafe(s, step.totalFrames); }
    StepGrows(s, step);
    if SomeRowDone(s.table) { KeepsSomeDone(s, step); }
    hide TableAfter, KeepsRow, Blind;
    forall k | 0 <= k < |s.table.rows| && s.table.rows[k].status.Done?
      ensures KeepsRow(s.table, s'.table, step, k)
    {
      StepKeepsRow(s, step, k);
    }
  }

  ghost predicate CarefulRun(s: State, steps: seq<Step>) {
    forall n :: 0 <= n < |steps| ==> Careful(After(s, steps[..n]), steps[n])
  }

  /** Every row done in t is done in t', and the same but for its count. */
  ghost predicate StaysDone(t: Table, t': Table) {
    && |t.rows| <= |t'.rows|
    && forall k :: 0 <= k < |t.rows| && t.rows[k].status.Done? ==>
         t'.rows[k].(rendered := t.rows[k].rendered) == t.rows[k]
  }

  lemma StaysDoneOn(s: State, step: Step)
    requires Coherent(s) && Careful(s, step)
    ensures Coherent(Next(s, step)) && StaysDone(s.table, Next(s, step).table)
  {
    StepIsSafe(s, step);
    hide TableAfter, GroupAfter, Careful;
  }

  /** Whole runs of such steps: rows done at any moment are the same at every later one, but for counts; and a done group
      is done at every later moment if and only if nobody cancels it or confirms it again. */
  lemma {:induction false} DoneIsForever(s: State, steps: seq<Step>, n: nat)
    requires Coherent(s) && CarefulRun(s, steps) && n <= |steps|
    ensures Coherent(After(s, steps)) && StaysDone(After(s, steps[..n]).table, After(s, steps).table)
    ensures After(s, steps[..n]).group.GroupDone? && (forall m :: n <= m < |steps| ==> !Overrides(steps[m]))
      ==> After(s, steps).group.GroupDone?
  {
    if n == |steps| {
      assert steps[..n] == steps;
    }
    if steps != [] {
      var before := steps[..|steps| - 1];
      forall m | 0 <= m < |before| ensures Careful(After(s, before[..m]), before[m]) {
        assert before[..m] == steps[..m] && before[m] == steps[m];
      }
      DoneIsForever(s, before, if n == |steps| then |before| else n);
      var last := steps[|steps| - 1];
      assert Careful(After(s, before), last);
      StepIsSafe(After(s, before), last);
      StaysDoneOn(After(s, before), last);
      if n < |steps| { assert before[..n] == steps[..n]; }
      hide Careful, Next, CarefulRun;
    }
  }

  // ---------------------------------------------------------------------------
  // A finished group that does not stay done
  // ---------------------------------------------------------------------------

  /** A group with one row, just dispatched. */
  function OneRow(job: Job): State { State(GroupPending, Inserted(Table([], [], []), job)) }

  ghost predicate FreshRun(s: State, steps: seq<Step>) {
    forall n :: 0 <= n < |steps| ==> Fresh(After(s, steps[..n]), steps[n])
  }

  lemma AfterFour(s: State, a: Step, b: Step, c: Step, d: Step)
    ensures After(s, [a, b, c, d][..0]) == s && After(s, [a, b, c, d][..1]) == Next(s, a)
    ensures After(s, [a, b, c, d][..2]) == Next(Next(s, a), b)
    ensures After(s, [a, b, c, d][..3]) == Next(Next(Next(s, a), b), c)
    ensures After(s, [a, b, c, d]) == Next(Next(Next(Next(s, a), b), c), d)
  {
    hide Next;
    var steps := [a, b, c, d];
    OneStep(s, steps, 0);
    OneStep(s, steps, 1);
    OneStep(s, steps, 2);
    OneStep(s, steps, 3);
    assert steps[..4] == steps;
  }

  /** Every step reads what is there: the row is reported done, a request stores done, the dispatch of the row throws in
      its own thread after all, and the next request stores failed. */
  lemma ThrownDispatchUndoesGroup(job: Job, totalFrames: int) returns (steps: seq<Step>)
    requires job.status.Pending?
    ensures |steps| == 4 && FreshRun(OneRow(job), steps)
    ensures GroupDoneAt(OneRow(job), steps, 3) && RowDoneAt(OneRow(job), steps, 2, 0)
    ensures After(OneRow(job), steps).group.GroupFailed?
  {
    var s0 := OneRow(job);
    var a := Act(C.Finish(0, job));
    var s1 := Next(s0, a);
    assert |s1.table.rows| == 1 && s1.table.rows[0].status.Done?;
    var b := StoreStatus(GroupPending, s1.table.rows, totalFrames);
    var s2 := Next(s1, b);
    OneStatus(s1.table.rows, Done);
    var c := Act(C.GiveUp(0, Failed));
    var s3 := Next(s2, c);
    assert |s3.table.rows| == 1 && s3.table.rows[0].status.Failed?;
    var d := StoreStatus(GroupDone, s3.table.rows, totalFrames);
    OneStatus(s3.table.rows, Failed);
    steps := [a, b, c, d];
    AfterFour(s0, a, b, c, d);
  }

  lemma OneStatus(rows: seq<Job>, status: Status)
    requires |rows| == 1 && rows[0].status == status
    ensures Statuses(rows) == [status] && AllAre(Statuses(rows), status)
  {
  }

  /** Two requests at once: one reads the group as pending and its row as running; the row is reported done, the other
      request stores done, and the first one stores running. */
  lemma StaleStatusUndoesGroup(job: Job, totalFrames: int) returns (steps: seq<Step>)
    requires job.status.Pending?
    ensures |steps| == 4 && steps[3].StoreStatus?
    ensures var read := After(OneRow(job), steps[..1]); steps[3].current == read.group && steps[3].rows == read.table.rows
    ensures FreshRun(OneRow(job), steps[..3]) && GroupDoneAt(OneRow(job), steps, 3)
    ensures RowDoneAt(OneRow(job), steps, 4, 0) && After(OneRow(job), steps).group.GroupRunning?
  {
    var s0 := OneRow(job);
    var a := Act(C.Claim(0));
    var s1 := Next(s0, a);
    assert |s1.table.rows| == 1 && s1.table.rows[0].status.Running?;
    var b := Act(C.Finish(0, s1.table.rows[0]));
    var s2 := Next(s1, b);
    assert |s2.table.rows| == 1 && s2.table.rows[0].status.Done?;
    var c := StoreStatus(GroupPending, s2.table.rows, totalFrames);
    OneStatus(s2.table.rows, Done);
    var d := StoreStatus(GroupPending, s1.table.rows, totalFrames);
    OneStatus(s1.table.rows, Running);
    assert AnyIs(Statuses(s1.table.rows), Running) by { assert Statuses(s1.table.rows)[0] == Running; }
    steps := [a, b, c, d];
    AfterFour(s0, a, b, c, d);
    assert steps[..3][..0] == steps[..0] && steps[..3][..1] == steps[..1] && steps[..3][..2] == steps[..2];
    assert steps[..4] == steps;
  }
}
