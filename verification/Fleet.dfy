/** The job table of one render group and every way the scheduler changes it: dispatch, same-row retry,
    failover to another machine, and the decision between them when a job fails. */
module Fleet {
  import opened Grid
  import opened RenderJobs
  import FD = FrameDistribution

  /** One dispatch handed to a machine's provider; a disabled provider ignores it. */
  datatype Call = Call(job: nat, frameStart: int, frameEnd: int, frameStep: Step)

  /** The rows, the provider calls so far, and for every row the frame it was created to start at. */
  datatype Table = Table(rows: seq<Job>, calls: seq<Call>, origins: seq<int>) {
    ghost predicate Valid() { |origins| == |rows| }
  }

  /** A job as some earlier query returned it; the row may have changed since. */
  datatype Snapshot = Snapshot(id: nat, row: Job, kind: FD.MachineType)

  /** What the outside world answers during one failure: does the retry dispatch throw, which machines are
      available (largest first), does the failover dispatch throw. */
  datatype Answers = Answers(retryThrows: bool, candidates: seq<FD.Machine>, failoverThrows: bool)

  // ---------------------------------------------------------------------------
  // Choosing the machine to fail over to
  // ---------------------------------------------------------------------------

  function Others(candidates: seq<FD.Machine>, failed: string): (pool: seq<FD.Machine>)
    ensures forall m :: m in pool <==> m in candidates && m.id != failed
  {
    if candidates == [] then []
    else (if candidates[0].id != failed then [candidates[0]] else []) + Others(candidates[1..], failed)
  }

  predicate KindIn(m: FD.Machine, vast: bool, modal: bool, desktop: bool) {
    match m.kind
    case VastServerless => vast
    case ModalServerless => modal
    case Desktop(_) => desktop
  }

  function OfKind(pool: seq<FD.Machine>, vast: bool, modal: bool, desktop: bool): (r: seq<FD.Machine>)
    ensures forall m :: m in r <==> m in pool && KindIn(m, vast, modal, desktop)
  {
    if pool == [] then []
    else (if KindIn(pool[0], vast, modal, desktop) then [pool[0]] else []) + OfKind(pool[1..], vast, modal, desktop)
  }

  function First(ms: seq<FD.Machine>): Option<FD.Machine> {
    if ms == [] then None else Some(ms[0])
  }

  function ChooseFailover(candidates: seq<FD.Machine>, failed: string, kind: FD.MachineType): Option<FD.Machine> {
    var pool := Others(candidates, failed);
    if pool == [] then None
    else
      var serverless, desktops := OfKind(pool, true, true, false), OfKind(pool, false, false, true);
      var vast := OfKind(serverless, true, false, false);
      match kind
      case ModalServerless =>
        if vast != [] then First(vast)
        else
          var nonModal := OfKind(serverless, true, false, true);
          if nonModal != [] then First(nonModal) else First(desktops)
      case VastServerless =>
        if vast != [] then First(vast) else First(desktops)
      case Desktop(_) =>
        if serverless != [] then (if vast != [] then First(vast) else First(serverless))
        else First(pool)
  }

  /** The choice is an available machine other than the failed one.  A failed serverless job goes to Vast if it
      can and otherwise to a desktop, never to Modal; a failed desktop job goes to Vast, else Modal, else a desktop.
      There is a choice exactly when such a machine is available. */
  lemma FailoverPreference(candidates: seq<FD.Machine>, failed: string, kind: FD.MachineType)
    ensures var r := ChooseFailover(candidates, failed, kind);
      && (r.Some? ==> r.value in candidates && r.value.id != failed)
      && ((exists m :: m in candidates && m.id != failed && m.kind.VastServerless?) ==> r.Some? && r.value.kind.VastServerless?)
      && (r.Some? && r.value.kind.ModalServerless? ==> kind.Desktop?)
      && (r.Some? && r.value.kind.Desktop? && kind.Desktop? ==>
            forall m :: m in candidates && m.id != failed ==> m.kind.Desktop?)
      && (r.None? <==> forall m :: m in candidates && m.id != failed ==> m.kind.ModalServerless? && !kind.Desktop?)
  {
    var pool := Others(candidates, failed);
    if pool != [] {
      var serverless, desktops := OfKind(pool, true, true, false), OfKind(pool, false, false, true);
      var vast := OfKind(serverless, true, false, false);
      assert pool[0] in pool;
      assert vast != [] ==> vast[0] in vast;
      assert desktops != [] ==> desktops[0] in desktops;
      assert serverless != [] ==> serverless[0] in serverless;
    }
  }

  // ---------------------------------------------------------------------------
  // Row changes
  // ---------------------------------------------------------------------------

  function SetStatus(t: Table, id: nat, status: Status): Table {
    if id < |t.rows| then t.(rows := t.rows[id := t.rows[id].(status := status)]) else t
  }

  function DispatchedAll(t: Table, tasks: seq<FD.PlannedTask>, maxRetries: nat): Table
    requires forall i :: 0 <= i < |tasks| ==> tasks[i].share.frameStep >= 1
    decreases |tasks|
  {
    if tasks == [] then t
    else
      var a := tasks[0].share;
      var job := Job(a.machine.id, Pending, a.frameStart, a.frameEnd, a.frameStep, 0, a.totalFrames, 0, maxRetries,
                     tasks[0].chunkIndex);
      DispatchedAll(Inserted(t, job), tasks[1..], maxRetries)
  }

  /** A new row, sent to its provider. */
  function Inserted(t: Table, job: Job): Table {
    Table(t.rows + [job], t.calls + [Call(|t.rows|, job.frameStart, job.frameEnd, job.frameStep)],
          t.origins + [job.frameStart])
  }

  /** The same row again, from the first unrendered frame; its total stays as it was. */
  function Retried(t: Table, s: Snapshot): Table
    requires s.id < |t.rows|
  {
    var row := t.rows[s.id].(status := Pending, attempt := s.row.attempt + 1, rendered := 0,
                             frameStart := s.row.RemainingStart());
    t.(rows := t.rows[s.id := row],
       calls := t.calls + [Call(s.id, s.row.RemainingStart(), s.row.frameEnd, s.row.frameStep)])
  }

  /** The old row is failed and a new row takes over the unrendered tail. */
  function FailedOver(t: Table, s: Snapshot, machine: FD.Machine, throws: bool): Table
    requires s.id < |t.rows|
  {
    var start, end, step := s.row.RemainingStart(), s.row.frameEnd, s.row.frameStep;
    var row := t.rows[s.id];
    var job := Job(machine.id, if throws then Failed else Pending, start, end, step, 0,
                   (end - start) / step + 1, 0, row.maxRetries, row.chunkIndex);
    Inserted(SetStatus(t, s.id, Failed), job)
  }

  /** Fail over if there is a machine to fail over to, else give up. */
  function HandedOver(t: Table, s: Snapshot, a: Answers): (Table, Option<nat>)
    requires s.id < |t.rows|
  {
    match ChooseFailover(a.candidates, s.row.machine, s.kind)
    case Some(machine) => (FailedOver(t, s, machine, a.failoverThrows), Some(|t.rows|))
    case None => (SetStatus(t, s.id, Failed), None)
  }

  /** Orchestrator.handle_failure: retry, else fail over, else give up.  Also returns the row now responsible. */
  function FailureHandled(t: Table, s: Snapshot, a: Answers): (Table, Option<nat>) {
    if s.id >= |t.rows| then (t, None)
    else if s.row.Remaining().None? then (SetStatus(t, s.id, Done), None)
    else if !s.row.CanRetry() then HandedOver(t, s, a)
    else if !a.retryThrows then (Retried(t, s), Some(s.id))
    else HandedOver(Retried(t, s), s, a)
  }

  // ---------------------------------------------------------------------------
  // What workers report
  // ---------------------------------------------------------------------------

  /** The counts a progress report stores, computed from the row as it was read: they never go down, and the rendered count
      is capped by a positive total. */
  function CountsAfter(read: Job, rendered: nat, total: Option<nat>): (r: (int, nat))
    ensures r.0 >= read.total
  {
    var nextTotal := if total.Some? then Max(read.total, total.value) else read.total;
    var most: nat := if read.rendered >= rendered then read.rendered else rendered;
    (nextTotal, if nextTotal > 0 && nextTotal < most then nextTotal else most)
  }

  /** PUT /jobs/{id}/progress, decided on the row as it was read and stored over the row as it is. */
  function ProgressStored(t: Table, id: nat, read: Job, rendered: nat, total: Option<nat>): Table {
    if id >= |t.rows| || !read.Active() then t
    else
      var row, counts := t.rows[id], CountsAfter(read, rendered, total);
      t.(rows := t.rows[id := row.(status := if read.status.Pending? then Running else row.status,
                                   total := counts.0, rendered := counts.1)])
  }

  /** PUT /jobs/{id}/status with status done, when the row as it was read is not terminal. */
  function FinishStored(t: Table, id: nat, read: Job): Table {
    if id >= |t.rows| || !read.Active() then t
    else t.(rows := t.rows[id := t.rows[id].(status := Done, rendered := if read.total > 0 then read.total else read.rendered)])
  }

  /** The first half of the same with status failed: the row takes the status, and the count that was read. */
  function FailureStored(t: Table, id: nat, read: Job): Table {
    if id >= |t.rows| || !read.Active() then t
    else t.(rows := t.rows[id := t.rows[id].(status := Failed, rendered := read.rendered)])
  }

  /** Both halves: the failure is handled on the row as it was read. */
  function FailureStoredAndHandled(t: Table, id: nat, read: Job, kind: FD.MachineType, a: Answers): Table {
    if id >= |t.rows| || !read.Active() then t
    else FailureHandled(FailureStored(t, id, read), Snapshot(id, read, kind), a).0
  }

  /** The rendered count a registration of outputs stores, from the row as it was read and the number of files it then has:
      a retry clears the count and keeps the files. */
  function CountWithFiles(read: Job, files: nat): nat {
    var counted: nat := if read.total > 0 then Min(read.total, files) else 0;
    if read.rendered >= counted then read.rendered else counted
  }

  /** The files and counts prove that the row is complete. */
  predicate IsEvidence(read: Job, files: nat) {
    read.total > 0 && !read.status.Cancelled? && CountWithFiles(read, files) >= read.total
  }

  /** The row becomes done whatever it is by now, and active rows within the range it was read with are cancelled. */
  function Recovered(t: Table, id: nat, read: Job): Table
    requires id < |t.rows| && read.total > 0
  {
    var rows := t.rows[id := t.rows[id].(status := Done, rendered := read.total)];
    t.(rows := seq(|rows|, i requires 0 <= i < |rows| =>
                     if i != id && rows[i].Active() && IsWithin(rows[i], read) then rows[i].(status := Cancelled) else rows[i]))
  }

  predicate IsWithin(row: Job, read: Job) { row.frameStart >= read.frameStart && row.frameEnd <= read.frameEnd }

  /** POST /jobs/{id}/register-outputs. */
  function Registered(t: Table, id: nat, read: Job, files: nat): Table {
    if id >= |t.rows| then t
    else if IsEvidence(read, files) then Recovered(t, id, read)
    else t.(rows := t.rows[id := t.rows[id].(rendered := CountWithFiles(read, files))])
  }

  /** PUT /jobs/{id}/status with status done, when the row as it was read is terminal already. */
  function LateDoneStored(t: Table, id: nat, read: Job, files: nat): Table {
    if id >= |t.rows| || read.Active() || !IsEvidence(read, files) then t else Recovered(t, id, read)
  }

  /** Progress, done and failed, when nothing happens between reading and storing. */
  function Progressed(t: Table, id: nat, rendered: nat, total: Option<nat>): Table {
    if id >= |t.rows| then t else ProgressStored(t, id, t.rows[id], rendered, total)
  }

  function Finished(t: Table, id: nat): Table {
    if id >= |t.rows| then t else FinishStored(t, id, t.rows[id])
  }

  function FailureReported(t: Table, id: nat, kind: FD.MachineType, a: Answers): Table {
    if id >= |t.rows| then t else FailureStoredAndHandled(t, id, t.rows[id], kind, a)
  }

  /** A poll claims a pending row. */
  function Claimed(t: Table, id: nat): Table {
    if id < |t.rows| && t.rows[id].status.Pending? then SetStatus(t, id, Running) else t
  }
}
