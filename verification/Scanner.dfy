/** The failover scanner's passes over one group.  Each pass walks the rows as one query returned them, while
    earlier passes (and anybody else) may already have changed the table. */
module Scanner {
  import opened Grid
  import opened RenderJobs
  import opened Fleet
  import FD = FrameDistribution

  const MAX_FAILURES := 5

  type Machines = map<string, FD.MachineType>

  predicate OnServerless(job: Job, machines: Machines) {
    job.machine in machines && FD.IsServerless(machines[job.machine])
  }

  predicate OnDesktop(job: Job, machines: Machines) {
    job.machine in machines && !FD.IsServerless(machines[job.machine])
  }

  /** A serverless row nobody picked up in time. */
  predicate StuckPending(job: Job, machines: Machines, stuck: bool) {
    job.status.Pending? && OnServerless(job, machines) && stuck
  }

  /** A row left running by a desktop that went offline. */
  predicate Abandoned(job: Job, machines: Machines, offline: bool) {
    job.status.Running? && OnDesktop(job, machines) && offline
  }

  function Completed(t: Table, id: nat, total: nat): Table {
    if id < |t.rows| then t.(rows := t.rows[id := t.rows[id].(status := Done, rendered := total)]) else t
  }

  // ---------------------------------------------------------------------------
  // Serverless rows stuck pending, or running with every frame rendered
  // ---------------------------------------------------------------------------

  function OrphanScanned(t: Table, i: nat, job: Job, machines: Machines, stuck: bool): Table {
    if !job.Active() || !OnServerless(job, machines) then t
    else if job.status.Running? && job.IsCompleteByFrames() then Completed(t, i, job.total)
    else if job.status.Pending? && stuck then SetStatus(t, i, Failed)
    else t
  }

  function OrphansScanned(t: Table, jobs: seq<Job>, i: nat, machines: Machines, stuck: nat -> bool): Table
    requires i <= |jobs|
    decreases |jobs| - i
  {
    if i == |jobs| then t
    else OrphansScanned(OrphanScanned(t, i, jobs[i], machines, stuck(i)), jobs, i + 1, machines, stuck)
  }

  // ---------------------------------------------------------------------------
  // Running rows of desktops that went offline
  // ---------------------------------------------------------------------------

  function DesktopScanned(t: Table, i: nat, job: Job, machines: Machines, offline: bool, a: Answers): Table {
    if !job.status.Running? || !OnDesktop(job, machines) || !offline then t
    else
      var t' := SetStatus(t, i, Failed);
      if job.Remaining().None? then t' else FailureHandled(t', Snapshot(i, job, machines[job.machine]), a).0
  }

  function DesktopsScanned(t: Table, jobs: seq<Job>, i: nat, machines: Machines, offline: nat -> bool,
                           answers: nat -> Answers): Table
    requires i <= |jobs|
    decreases |jobs| - i
  {
    if i == |jobs| then t
    else DesktopsScanned(DesktopScanned(t, i, jobs[i], machines, offline(i), answers(i)), jobs, i + 1, machines,
                         offline, answers)
  }

  // ---------------------------------------------------------------------------
  // Failed serverless rows
  // ---------------------------------------------------------------------------

  function Range(job: Job): (int, int) {
    (job.frameStart, job.frameEnd)
  }

  /** How many of the first n rows failed on exactly this range. */
  function FailedOn(jobs: seq<Job>, n: nat, range: (int, int)): nat
    requires n <= |jobs|
  {
    if n == 0 then 0
    else FailedOn(jobs, n - 1, range) + (if jobs[n - 1].status.Failed? && Range(jobs[n - 1]) == range then 1 else 0)
  }

  /** The ranges of the first n rows that have not failed. */
  function CoveredBy(jobs: seq<Job>, n: nat): (r: set<(int, int)>)
    requires n <= |jobs|
    ensures forall range :: range in r <==> exists i :: 0 <= i < n && !jobs[i].status.Failed? && Range(jobs[i]) == range
  {
    set i | 0 <= i < n && !jobs[i].status.Failed? :: Range(jobs[i])
  }

  predicate Retryable(jobs: seq<Job>, job: Job, machines: Machines, covered: set<(int, int)>) {
    && job.status.Failed?
    && OnServerless(job, machines)
    && job.Remaining().Some?
    && job.Remaining().value !in covered
    && FailedOn(jobs, |jobs|, Range(job)) < MAX_FAILURES
  }

  /** One row of the retry pass; a handled failure covers the range it took over for the rest of the pass. */
  function RetryScanned(t: Table, jobs: seq<Job>, i: nat, machines: Machines, a: Answers, covered: set<(int, int)>)
    : (Table, set<(int, int)>)
    requires i < |jobs|
  {
    var job := jobs[i];
    if !Retryable(jobs, job, machines, covered) then (t, covered)
    else
      var (t', result) := FailureHandled(t, Snapshot(i, job, machines[job.machine]), a);
      (t', if result.Some? then covered + {job.Remaining().value} else covered)
  }

  function RetriesScanned(t: Table, jobs: seq<Job>, i: nat, machines: Machines, answers: nat -> Answers,
                          covered: set<(int, int)>): Table
    requires i <= |jobs|
    decreases |jobs| - i
  {
    if i == |jobs| then t
    else
      var (t', covered') := RetryScanned(t, jobs, i, machines, answers(i), covered);
      RetriesScanned(t', jobs, i + 1, machines, answers, covered')
  }

  // ---------------------------------------------------------------------------
  // Active rows of a failed or cancelled group
  // ---------------------------------------------------------------------------

  function TerminalScanned(t: Table, i: nat, job: Job, group: Status): Table {
    if !job.Active() then t
    else if job.IsCompleteByFrames() then Completed(t, i, job.total)
    else SetStatus(t, i, group)
  }

  function TerminalsScanned(t: Table, jobs: seq<Job>, i: nat, group: Status): Table
    requires i <= |jobs|
    decreases |jobs| - i
  {
    if i == |jobs| then t
    else TerminalsScanned(TerminalScanned(t, i, jobs[i], group), jobs, i + 1, group)
  }

  /** One tick on a pending or running group: three passes over one snapshot. */
  function Ticked(t: Table, jobs: seq<Job>, machines: Machines, stuck: nat -> bool, offline: nat -> bool,
                  desktopAnswers: nat -> Answers, retryAnswers: nat -> Answers): Table
  {
    var t1 := OrphansScanned(t, jobs, 0, machines, stuck);
    var t2 := DesktopsScanned(t1, jobs, 0, machines, offline, desktopAnswers);
    RetriesScanned(t2, jobs, 0, machines, retryAnswers, CoveredBy(jobs, |jobs|))
  }

  /** What the scanner is told about one tick. */
  datatype TickInputs = TickInputs(machines: Machines, stuck: nat -> bool, offline: nat -> bool,
                                   desktopAnswers: nat -> Answers, retryAnswers: nat -> Answers)

  /** A tick whose snapshot is the table as it is. */
  function FreshTick(t: Table, x: TickInputs): Table {
    Ticked(t, t.rows, x.machines, x.stuck, x.offline, x.desktopAnswers, x.retryAnswers)
  }
}
