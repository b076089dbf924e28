/** The object that owns the job table of a group, and the orchestrator's calls on it.  Every public method is one of the
    events of Conservation, so that no frame is ever lost in any use of the object. */
module FleetManagement {
  import opened Conservation
  import opened Fleet
  import opened Grid
  import opened RenderJobs
  import opened Scanner
  import opened Tiling
  import FD = FrameDistribution

  /** Every chunk of the plan has its own row, and the chunks make up the range. */
  ghost predicate Planned(rows: seq<Job>, plan: seq<FD.Assignment>, range: seq<int>) {
    && Stepped(plan) && |plan| <= |rows|
    && (forall i :: 0 <= i < |plan| ==> rows[i].chunkIndex == i)
    && (forall f :: f in range <==> exists c :: 0 <= c < |plan| && f in FramesOf(plan[c]))
  }

  lemma PlannedLasts(t: Table, t': Table, plan: seq<FD.Assignment>, range: seq<int>)
    requires Planned(t.rows, plan, range) && Extends(t, t')
    ensures Planned(t'.rows, plan, range)
  {
  }

  class FleetManager {
    var rows: seq<Job>
    var calls: seq<Call>
    ghost var origins: seq<int>
    /** The frames whose output exists, and every row version that was ever there to be read. */
    ghost var rendered: set<int>
    ghost var seen: set<(nat, Job)>
    ghost var plan: seq<FD.Assignment>
    ghost var range: seq<int>

    ghost function Contents(): Table
      reads this
    {
      Table(rows, calls, origins)
    }

    ghost function Here(): World
      reads this
    {
      World(Contents(), rendered, seen)
    }

    ghost predicate Valid()
      reads this
    {
      WorldInv(Here(), plan) && Versions(Contents()) <= seen && Planned(rows, plan, range)
    }

    /** What the object promises at any time: every frame of the range is rendered or owed by all rows of its chunk. */
    lemma NothingLost()
      requires Valid()
      ensures AccountsFor(Here(), range)
    {
      InvAccounts(Here(), plan, range);
    }

    constructor ()
      ensures Valid() && Contents() == Table([], [], []) && range == []
    {
      rows, calls, origins, rendered, seen, plan, range := [], [], [], {}, {}, [], [];
    }

    // -------------------------------------------------------------------------
    // Pieces of the events
    // -------------------------------------------------------------------------

    method SetJobStatus(id: nat, status: Status)
      modifies this`rows
      ensures Contents() == SetStatus(old(Contents()), id, status)
    {
      if id < |rows| {
        rows := rows[id := rows[id].(status := status)];
      }
    }

    method Insert(job: Job) returns (id: nat)
      modifies this`rows, this`calls, this`origins
      ensures id == |old(rows)|
      ensures Contents() == Inserted(old(Contents()), job)
    {
      id := |rows|;
      rows := rows + [job];
      origins := origins + [job.frameStart];
      calls := calls + [Call(id, job.frameStart, job.frameEnd, job.frameStep)];
    }

    method Retry(s: Snapshot, throws: bool) returns (ok: bool)
      requires s.id < |rows|
      modifies this`rows, this`calls
      ensures Contents() == Retried(old(Contents()), s)
      ensures ok == !throws
    {
      var start := s.row.RemainingStart();
      var nextAttempt := s.row.attempt + 1;
      rows := rows[s.id := rows[s.id].(status := Pending, attempt := nextAttempt, rendered := 0, frameStart := start)];
      calls := calls + [Call(s.id, start, s.row.frameEnd, s.row.frameStep)];
      ok := !throws;
    }

    method DispatchFailover(s: Snapshot, machine: FD.Machine, throws: bool) returns (id: nat)
      requires s.id < |rows|
      modifies this`rows, this`calls, this`origins
      ensures Contents() == FailedOver(old(Contents()), s, machine, throws)
      ensures id == |old(rows)|
    {
      SetJobStatus(s.id, Failed);
      var start, end, step := s.row.RemainingStart(), s.row.frameEnd, s.row.frameStep;
      var row := rows[s.id];
      var total := (end - start) / step + 1;
      var job := Job(machine.id, Pending, start, end, step, 0, total, 0, row.maxRetries, row.chunkIndex);
      id := Insert(job);
      if throws {
        SetJobStatus(id, Failed);
        assert rows == old(rows)[s.id := old(rows)[s.id].(status := Failed)] + [job.(status := Failed)];
      }
    }

    /** Retry, else fail over, else give up. */
    method Decide(s: Snapshot, a: Answers) returns (result: Option<nat>)
      modifies this`rows, this`calls, this`origins
      ensures (Contents(), result) == FailureHandled(old(Contents()), s, a)
    {
      if s.id >= |rows| {
        return None;
      }
      if s.row.Remaining().None? {
        SetJobStatus(s.id, Done);
        return None;
      }
      if s.row.CanRetry() {
        var ok := Retry(s, a.retryThrows);
        if ok {
          return Some(s.id);
        }
      }
      var candidate := ChooseFailover(a.candidates, s.row.machine, s.kind);
      if candidate.Some? {
        var id := DispatchFailover(s, candidate.value, a.failoverThrows);
        return Some(id);
      }
      SetJobStatus(s.id, Failed);
      return None;
    }

    // -------------------------------------------------------------------------
    // Events
    // -------------------------------------------------------------------------

    /** What an event changes here, and that it keeps what the object promises. */
    twostate predicate Did(e: Event)
      reads this
    {
      Here() == Next(old(Here()), e) && plan == old(plan) && range == old(range)
    }

    /** An event that may happen keeps the object valid. */
    twostate lemma DidKeeps(e: Event)
      requires old(Valid()) && Enabled(old(Here()), e, plan) && Did(e)
      ensures Valid()
    {
      NextKeeps(old(Here()), e, plan);
      PlannedLasts(old(Contents()), Contents(), plan, range);
    }

    /** If the event may happen, a valid object is valid afterwards. */
    twostate predicate Allowed(e: Event)
      reads this
    {
      old(Valid()) && Enabled(old(Here()), e, old(plan)) ==> Valid()
    }

    twostate lemma DidAllowed(e: Event)
      requires Did(e)
      ensures Allowed(e)
    {
      if old(Valid()) && Enabled(old(Here()), e, plan) { DidKeeps(e); }
    }

    /** Orchestrator.handle_failure, on a row as somebody read it. */
    method HandleFailure(s: Snapshot, a: Answers) returns (result: Option<nat>)
      requires Valid() && (s.id, s.row) in seen
      modifies this
      ensures (Contents(), result) == FailureHandled(old(Contents()), s, a)
      ensures Did(Event.HandleFailure(s, a)) && Valid()
    {
      result := Decide(s, a);
      seen := seen + Versions(Contents());
      DidKeeps(Event.HandleFailure(s, a));
    }

    /** A row is failed or cancelled without further ado: mark_failed, a stuck row, a cancelled group. */
    method GiveUp(id: nat, status: Status)
      requires Valid() && (status.Failed? || status.Cancelled?)
      modifies this
      ensures Contents() == SetStatus(old(Contents()), id, status)
      ensures Did(Event.GiveUp(id, status)) && Valid()
    {
      SetJobStatus(id, status);
      seen := seen + Versions(Contents());
      DidKeeps(Event.GiveUp(id, status));
    }

    /** A row that was read as complete by its counts is done. */
    method MarkComplete(id: nat, read: Job)
      requires Valid() && (id, read) in seen && read.IsCompleteByFrames()
      modifies this
      ensures Contents() == Completed(old(Contents()), id, read.total)
      ensures Did(Event.MarkComplete(id, read)) && Valid()
    {
      if id < |rows| {
        rows := rows[id := rows[id].(status := Done, rendered := read.total)];
      }
      seen := seen + Versions(Contents());
      DidKeeps(Event.MarkComplete(id, read));
    }

    /** dispatch_all.  On an empty table the tasks become the plan; the tasks of another confirmation are added to the rows of
        the one before. */
    method DispatchAll(tasks: seq<FD.PlannedTask>, maxRetries: nat, ghost whole: seq<int>)
      requires forall i :: 0 <= i < |tasks| ==> tasks[i].share.frameStep >= 1
      modifies this
      ensures Contents() == DispatchedAll(old(Contents()), tasks, maxRetries)
      ensures old(Contents()) == Table([], [], []) && IsPlan(tasks, whole) ==>
        Valid() && plan == Shares(tasks) && range == whole && rendered == {} && seen == Versions(Contents())
    {
      for i := 0 to |tasks|
        invariant DispatchedAll(Contents(), tasks[i..], maxRetries) == DispatchedAll(old(Contents()), tasks, maxRetries)
      {
        var a := tasks[i].share;
        var job := Job(a.machine.id, Pending, a.frameStart, a.frameEnd, a.frameStep, 0, a.totalFrames, 0,
                       maxRetries, tasks[i].chunkIndex);
        assert tasks[i..][0] == tasks[i] && tasks[i..][1..] == tasks[i + 1..];
        var _ := Insert(job);
      }
      plan, range, rendered, seen := Shares(tasks), whole, {}, Versions(Contents());
      if old(Contents()) == Table([], [], []) && IsPlan(tasks, whole) {
        assert tasks[0..] == tasks;
        DispatchKeeps(Table([], [], []), tasks, 0, maxRetries, plan);
      }
    }
  }

  /** The tasks are the numbered chunks of a whole range. */
  ghost predicate IsPlan(tasks: seq<FD.PlannedTask>, whole: seq<int>) {
    && Stepped(Shares(tasks)) && Exact(Shares(tasks))
    && (forall i :: 0 <= i < |tasks| ==> tasks[i].chunkIndex == i)
    && (forall f :: f in whole <==> exists c :: 0 <= c < |tasks| && f in FramesOf(Shares(tasks)[c]))
  }

  /** Orchestrator.plan, then Orchestrator.execute. */
  method PlanAndExecute(fleet: FleetManager, start: int, end: int, step: Step, totalFrames: int, machines: seq<FD.Machine>,
                        round: real -> int, cfg: FD.Config, maxRetries: nat)
    modifies fleet
    ensures var tasks := FD.Planned(totalFrames, start, end, step, machines, round, cfg);
      (forall i :: 0 <= i < |tasks| ==> tasks[i].share.frameStep >= 1)
      && fleet.Contents() == DispatchedAll(old(fleet.Contents()), tasks, maxRetries)
    ensures old(fleet.Contents()) == Table([], [], []) ==>
      fleet.Here() == Launched(totalFrames, start, end, step, machines, round, cfg, maxRetries)
    ensures old(fleet.Contents()) == Table([], [], []) && machines != [] ==>
      fleet.Valid() && fleet.range == Frames(start, end, step)
  {
    var tasks := FD.Plan(start, end, step, totalFrames, machines, round, cfg);
    PlanTiles(totalFrames, start, end, step, machines, round, cfg);
    assert forall i :: 0 <= i < |tasks| ==> tasks[i].share == Shares(tasks)[i];
    ghost var whole := if machines == [] then [] else Frames(start, end, step);
    if machines != [] {
      PlanPartitions(totalFrames, start, end, step, machines, round, cfg);
    }
    assert IsPlan(tasks, whole);
    hide FD.Planned, IsPlan;
    fleet.DispatchAll(tasks, maxRetries, whole);
  }

  // ---------------------------------------------------------------------------
  // The routes workers report to: read the row, then store
  // ---------------------------------------------------------------------------

  /** PUT /jobs/{id}/progress, from the row as it was read on.  It keeps a valid object valid if the chunk is rendered up to
      the stored count. */
  method StoreProgress(fleet: FleetManager, id: nat, read: Job, reported: nat, total: Option<nat>)
    modifies fleet
    ensures fleet.Contents() == ProgressStored(old(fleet.Contents()), id, read, reported, total)
    ensures fleet.Did(Report(id, read, reported, total)) && fleet.Allowed(Report(id, read, reported, total))
  {
    if id < |fleet.rows| && read.Active() {
      if read.status.Pending? { fleet.SetJobStatus(id, Running); }
      var nextTotal := if total.Some? then Max(read.total, total.value) else read.total;
      var nextRendered: nat := Max(read.rendered, reported);
      if nextTotal > 0 { nextRendered := Min(nextRendered, nextTotal); }
      fleet.rows := fleet.rows[id := fleet.rows[id].(total := nextTotal, rendered := nextRendered)];
      assert fleet.rows == old(fleet.rows)[id := fleet.rows[id]];
    }
    fleet.seen := fleet.seen + Versions(fleet.Contents());
    fleet.DidAllowed(Report(id, read, reported, total));
  }

  /** PUT /jobs/{id}/status with status done: a row read as terminal is only recovered, on evidence of its files. */
  method StoreDone(fleet: FleetManager, id: nat, read: Job, files: nat)
    modifies fleet
    ensures fleet.Contents() == if read.Active() then FinishStored(old(fleet.Contents()), id, read)
                                else LateDoneStored(old(fleet.Contents()), id, read, files)
    ensures var e := if read.Active() then Finish(id, read) else LateDone(id, read, files);
      fleet.Did(e) && fleet.Allowed(e)
  {
    if id < |fleet.rows| {
      if read.Active() {
        var rendered := read.rendered;
        if read.total > 0 { rendered := read.total; }
        fleet.rows := fleet.rows[id := fleet.rows[id].(status := Done, rendered := rendered)];
      } else if IsEvidence(read, files) {
        Recover(fleet, id, read);
      }
    }
    fleet.seen := fleet.seen + Versions(fleet.Contents());
    fleet.DidAllowed(if read.Active() then Finish(id, read) else LateDone(id, read, files));
  }

  /** PUT /jobs/{id}/status with status failed: the failure is stored, then handled unless the group takes no new jobs. */
  method StoreFailed(fleet: FleetManager, id: nat, read: Job, blocked: bool, kind: FD.MachineType, a: Answers)
    modifies fleet
    ensures fleet.Contents() == if blocked then FailureStored(old(fleet.Contents()), id, read)
                                else FailureStoredAndHandled(old(fleet.Contents()), id, read, kind, a)
    ensures var e := if blocked then BlockedFailure(id, read) else ReportFailure(id, read, kind, a);
      fleet.Did(e) && fleet.Allowed(e)
  {
    if id < |fleet.rows| && read.Active() {
      fleet.rows := fleet.rows[id := fleet.rows[id].(status := Failed, rendered := read.rendered)];
      if !blocked {
        var _ := fleet.Decide(Snapshot(id, read, kind), a);
      }
    }
    fleet.seen := fleet.seen + Versions(fleet.Contents());
    fleet.DidAllowed(if blocked then BlockedFailure(id, read) else ReportFailure(id, read, kind, a));
  }

  /** POST /jobs/{id}/register-outputs, with the number of files the row then has. */
  method StoreOutputs(fleet: FleetManager, id: nat, read: Job, files: nat)
    modifies fleet
    ensures fleet.Contents() == Registered(old(fleet.Contents()), id, read, files)
    ensures fleet.Did(Register(id, read, files)) && fleet.Allowed(Register(id, read, files))
  {
    if id < |fleet.rows| {
      if IsEvidence(read, files) {
        Recover(fleet, id, read);
      } else {
        fleet.rows := fleet.rows[id := fleet.rows[id].(rendered := CountWithFiles(read, files))];
      }
    }
    fleet.seen := fleet.seen + Versions(fleet.Contents());
    fleet.DidAllowed(Register(id, read, files));
  }

  /** _mark_job_done_from_completion_evidence, once there is evidence. */
  method Recover(fleet: FleetManager, id: nat, read: Job)
    requires id < |fleet.rows| && read.total > 0
    modifies fleet`rows
    ensures fleet.Contents() == Recovered(old(fleet.Contents()), id, read)
  {
    fleet.rows := fleet.rows[id := fleet.rows[id].(status := Done, rendered := read.total)];
    ghost var now := fleet.rows;
    for j := 0 to |fleet.rows|
      invariant |fleet.rows| == |now|
      invariant forall i :: 0 <= i < |now| ==>
        fleet.rows[i] == if i < j && i != id && now[i].Active() && IsWithin(now[i], read) then now[i].(status := Cancelled)
                         else now[i]
    {
      if j != id && fleet.rows[j].Active() && IsWithin(fleet.rows[j], read) {
        fleet.rows := fleet.rows[j := fleet.rows[j].(status := Cancelled)];
      }
    }
  }
}
