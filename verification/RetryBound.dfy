/** Rows and dispatches per range.  A tick of the scanner adds rows to a range; as long as the range's failed rows rendered
    nothing and no other range runs into it, it never has more than five rows and every dispatch spends one unit of a
    fixed budget.  Without that there is no bound, and none for failures handled from a worker's callback. */
module RetryBound {
  import opened Grid
  import opened RenderJobs
  import opened Fleet
  import opened Scanner
  import opened Tiling
  import C = Conservation
  import FD = FrameDistribution

  type Span = (int, int)

  function RowsOn(rows: seq<Job>, span: Span): nat {
    if rows == [] then 0
    else RowsOn(rows[..|rows| - 1], span) + (if Range(rows[|rows| - 1]) == span then 1 else 0)
  }

  /** First attempts and retries recorded by the rows of a range. */
  function Attempts(rows: seq<Job>, span: Span): nat {
    if rows == [] then 0
    else Attempts(rows[..|rows| - 1], span)
         + (if Range(rows[|rows| - 1]) == span then 1 + rows[|rows| - 1].attempt else 0)
  }

  function CallsFor(calls: seq<Call>, span: Span): nat {
    if calls == [] then 0
    else CallsFor(calls[..|calls| - 1], span)
         + (if (calls[|calls| - 1].frameStart, calls[|calls| - 1].frameEnd) == span then 1 else 0)
  }

  /** What is left of a row, as a range. */
  function Tail(row: Job): Span { (row.RemainingStart(), row.frameEnd) }

  function One(b: bool): nat { if b then 1 else 0 }

  lemma {:induction false} UpdateSums(rows: seq<Job>, i: nat, v: Job, span: Span)
    requires i < |rows|
    ensures RowsOn(rows[i := v], span) == RowsOn(rows, span) - One(Range(rows[i]) == span) + One(Range(v) == span)
    ensures Attempts(rows[i := v], span)
      == Attempts(rows, span) - (if Range(rows[i]) == span then 1 + rows[i].attempt else 0)
         + (if Range(v) == span then 1 + v.attempt else 0)
  {
    var n := |rows| - 1;
    if i == n {
      assert rows[i := v][..n] == rows[..n];
    } else {
      UpdateSums(rows[..n], i, v, span);
      assert rows[i := v][..n] == rows[..n][i := v];
    }
  }

  lemma AppendSums(rows: seq<Job>, v: Job, span: Span)
    ensures RowsOn(rows + [v], span) == RowsOn(rows, span) + (if Range(v) == span then 1 else 0)
    ensures Attempts(rows + [v], span) == Attempts(rows, span) + (if Range(v) == span then 1 + v.attempt else 0)
  {
    assert (rows + [v])[..|rows|] == rows;
  }

  lemma AppendCalls(calls: seq<Call>, c: Call, span: Span)
    ensures CallsFor(calls + [c], span) == CallsFor(calls, span) + (if (c.frameStart, c.frameEnd) == span then 1 else 0)
  {
    assert (calls + [c])[..|calls|] == calls;
  }

  /** Every dispatch on the range is recorded as an attempt of one of its rows. */
  ghost predicate Pays(t: Table, t': Table, span: Span) {
    CallsFor(t'.calls, span) - CallsFor(t.calls, span) == Attempts(t'.rows, span) - Attempts(t.rows, span)
  }

  /** Every row of the range has m retries, of which it used some. */
  ghost predicate Budgeted(rows: seq<Job>, span: Span, m: nat) {
    forall i :: 0 <= i < |rows| && Range(rows[i]) == span ==> rows[i].maxRetries == m && rows[i].attempt <= m
  }

  // ---------------------------------------------------------------------------
  // One failure
  // ---------------------------------------------------------------------------

  /** Handling this failure inserts a row. */
  predicate Inserts(row: Job, kind: FD.MachineType, a: Answers) {
    !(row.CanRetry() && !a.retryThrows) && ChooseFailover(a.candidates, row.machine, kind).Some?
  }

  /** By how much it changes the number of rows on the range. */
  function RowDelta(row: Job, kind: FD.MachineType, a: Answers, span: Span): int {
    (if row.CanRetry() then One(Tail(row) == span) - One(Range(row) == span) else 0)
    + One(Inserts(row, kind, a) && Tail(row) == span)
  }

  lemma StatusSums(t: Table, id: nat, status: Status, span: Span, m: nat)
    ensures var t' := SetStatus(t, id, status);
      && RowsOn(t'.rows, span) == RowsOn(t.rows, span) && Pays(t, t', span) && |t'.rows| == |t.rows|
      && (Budgeted(t.rows, span, m) ==> Budgeted(t'.rows, span, m))
  {
    if id < |t.rows| { UpdateSums(t.rows, id, t.rows[id].(status := status), span); }
  }

  /** A row up to its status. */
  predicate SameRow(row: Job, v: Job) { row.(status := v.status) == v }

  lemma RetrySums(t: Table, s: Snapshot, span: Span, m: nat)
    requires s.id < |t.rows| && SameRow(t.rows[s.id], s.row) && s.row.CanRetry()
    ensures var t' := Retried(t, s);
      && RowsOn(t'.rows, span) == RowsOn(t.rows, span) + One(Tail(s.row) == span) - One(Range(s.row) == span)
      && ((Range(s.row) == span <==> Tail(s.row) == span) ==>
            Pays(t, t', span) && (Budgeted(t.rows, span, m) ==> Budgeted(t'.rows, span, m)))
  {
    var t' := Retried(t, s);
    UpdateSums(t.rows, s.id, t'.rows[s.id], span);
    AppendCalls(t.calls, t'.calls[|t.calls|], span);
    assert t'.calls == t.calls + [t'.calls[|t.calls|]];
  }

  lemma FailoverSums(t: Table, s: Snapshot, machine: FD.Machine, throws: bool, span: Span, m: nat)
    requires s.id < |t.rows| && t.rows[s.id].maxRetries == s.row.maxRetries
    ensures var t' := FailedOver(t, s, machine, throws);
      && RowsOn(t'.rows, span) == RowsOn(t.rows, span) + One(Tail(s.row) == span) && Pays(t, t', span)
      && (Budgeted(t.rows, span, m) && (Tail(s.row) == span ==> s.row.maxRetries == m) ==> Budgeted(t'.rows, span, m))
  {
    var t1, t' := SetStatus(t, s.id, Failed), FailedOver(t, s, machine, throws);
    StatusSums(t, s.id, Failed, span, m);
    var job := t'.rows[|t.rows|];
    assert t'.rows == t1.rows + [job] && Range(job) == Tail(s.row) && job.maxRetries == t.rows[s.id].maxRetries;
    AppendSums(t1.rows, job, span);
    AppendCalls(t1.calls, t'.calls[|t.calls|], span);
    assert t'.calls == t1.calls + [t'.calls[|t.calls|]];
  }

  lemma HandOverSums(t: Table, s: Snapshot, a: Answers, span: Span, m: nat)
    requires s.id < |t.rows| && t.rows[s.id].maxRetries == s.row.maxRetries
    ensures var t', choice := HandedOver(t, s, a).0, ChooseFailover(a.candidates, s.row.machine, s.kind);
      && RowsOn(t'.rows, span) == RowsOn(t.rows, span) + One(choice.Some? && Tail(s.row) == span) && Pays(t, t', span)
      && (Budgeted(t.rows, span, m) && (Tail(s.row) == span ==> s.row.maxRetries == m) ==> Budgeted(t'.rows, span, m))
  {
    hide FailedOver;
    var choice := ChooseFailover(a.candidates, s.row.machine, s.kind);
    if choice.Some? {
      FailoverSums(t, s, choice.value, a.failoverThrows, span, m);
    } else {
      StatusSums(t, s.id, Failed, span, m);
    }
  }

  /** One handled failure: how many rows it adds to any range; and a range that the failed row neither enters nor leaves
      pays for its dispatches. */
  lemma FailureSums(t: Table, s: Snapshot, a: Answers, span: Span, m: nat)
    requires s.id < |t.rows| && SameRow(t.rows[s.id], s.row) && s.row.Remaining().Some?
    ensures var t' := FailureHandled(t, s, a).0;
      && RowsOn(t'.rows, span) == RowsOn(t.rows, span) + RowDelta(s.row, s.kind, a, span)
      && ((Range(s.row) == span <==> Tail(s.row) == span) ==>
            Pays(t, t', span) && (Budgeted(t.rows, span, m) ==> Budgeted(t'.rows, span, m)))
  {
    hide HandedOver, ChooseFailover;
    if Range(s.row) == span && Budgeted(t.rows, span, m) {
      assert Range(t.rows[s.id]) == span;
    }
    if !s.row.CanRetry() {
      HandOverSums(t, s, a, span, m);
    } else {
      RetrySums(t, s, span, m);
      HandOverSums(Retried(t, s), s, a, span, m);
    }
  }

  /** Who else it touches, and when it says that the range is taken care of. */
  lemma FailureFrame(t: Table, s: Snapshot, a: Answers)
    requires s.id < |t.rows| && s.row.Remaining().Some?
    ensures var (t', result) := FailureHandled(t, s, a);
      && |t'.rows| >= |t.rows|
      && (forall k :: 0 <= k < |t.rows| && k != s.id ==> t'.rows[k] == t.rows[k])
      && (result.Some? <==> (s.row.CanRetry() && !a.retryThrows) || Inserts(s.row, s.kind, a))
  {
  }

  // ---------------------------------------------------------------------------
  // One tick
  // ---------------------------------------------------------------------------

  /** The row is one the retry pass looks at. */
  predicate FailedServerless(row: Job, machines: Machines) { row.status.Failed? && OnServerless(row, machines) }

  /** The failed rows of the range rendered nothing, no other failed row has the range as its tail, and no row running on a
      desktop that went offline has it as range or tail. */
  ghost predicate Undisturbed(rows: seq<Job>, x: TickInputs, span: Span) {
    && (forall i :: 0 <= i < |rows| && FailedServerless(rows[i], x.machines) && rows[i].Remaining().Some? ==>
          (Range(rows[i]) == span <==> Tail(rows[i]) == span))
    && (forall i :: 0 <= i < |rows| && Abandoned(rows[i], x.machines, x.offline(i)) ==>
          Range(rows[i]) != span && Tail(rows[i]) != span)
  }

  /** From t to t' the range got no row and paid for its dispatches. */
  ghost predicate Kept(t: Table, t': Table, span: Span, m: nat) {
    RowsOn(t'.rows, span) == RowsOn(t.rows, span) && Pays(t, t', span) && Budgeted(t'.rows, span, m)
  }

  /** A row replaced by one of the same range and attempt. */
  lemma UpdateKept(t: Table, id: nat, v: Job, span: Span, m: nat)
    requires Budgeted(t.rows, span, m) && id < |t.rows|
    requires Range(v) == Range(t.rows[id]) && v.attempt == t.rows[id].attempt && v.maxRetries == t.rows[id].maxRetries
    ensures Kept(t, t.(rows := t.rows[id := v]), span, m)
  {
    UpdateSums(t.rows, id, v, span);
    assert Range(v) == span ==> Range(t.rows[id]) == span;
  }

  lemma {:induction false} OrphansKept(t: Table, jobs: seq<Job>, i: nat, machines: Machines, stuck: nat -> bool, span: Span,
                                       m: nat)
    requires i <= |jobs| && Budgeted(t.rows, span, m)
    ensures var t' := OrphansScanned(t, jobs, i, machines, stuck);
      && Kept(t, t', span, m) && |t'.rows| == |t.rows|
      && forall k :: 0 <= k < |t.rows| && (k >= |jobs| || !(jobs[k].Active() && OnServerless(jobs[k], machines))) ==>
           t'.rows[k] == t.rows[k]
    decreases |jobs| - i
  {
    if i < |jobs| {
      var t1 := OrphanScanned(t, i, jobs[i], machines, stuck(i));
      if t1 != t { UpdateKept(t, i, t1.rows[i], span, m); }
      assert t1 == t || t1 == t.(rows := t.rows[i := t1.rows[i]]);
      OrphansKept(t1, jobs, i + 1, machines, stuck, span, m);
    }
  }

  lemma DesktopKept(t: Table, i: nat, job: Job, machines: Machines, offline: bool, a: Answers, span: Span, m: nat)
    requires i < |t.rows| && Budgeted(t.rows, span, m)
    requires Abandoned(job, machines, offline) ==> t.rows[i] == job && Range(job) != span && Tail(job) != span
    ensures var t' := DesktopScanned(t, i, job, machines, offline, a);
      && Kept(t, t', span, m) && |t'.rows| >= |t.rows|
      && forall k :: 0 <= k < |t.rows| && (k != i || !Abandoned(job, machines, offline)) ==> t'.rows[k] == t.rows[k]
  {
    if Abandoned(job, machines, offline) {
      var t1 := SetStatus(t, i, Failed);
      StatusSums(t, i, Failed, span, m);
      if job.Remaining().Some? {
        var s := Snapshot(i, job, machines[job.machine]);
        hide FailureHandled, RowsOn, Attempts, CallsFor;
        FailureSums(t1, s, a, span, m);
        FailureFrame(t1, s, a);
      }
    }
  }

  lemma {:induction false} DesktopsKept(t: Table, jobs: seq<Job>, i: nat, machines: Machines, offline: nat -> bool,
                                        answers: nat -> Answers, span: Span, m: nat)
    requires i <= |jobs| <= |t.rows| && Budgeted(t.rows, span, m)
    requires forall k :: i <= k < |jobs| && Abandoned(jobs[k], machines, offline(k)) ==>
      t.rows[k] == jobs[k] && Range(jobs[k]) != span && Tail(jobs[k]) != span
    ensures var t' := DesktopsScanned(t, jobs, i, machines, offline, answers);
      && Kept(t, t', span, m) && |t'.rows| >= |t.rows|
      && forall k :: 0 <= k < |jobs| && !Abandoned(jobs[k], machines, offline(k)) ==> t'.rows[k] == t.rows[k]
    decreases |jobs| - i
  {
    if i < |jobs| {
      DesktopKept(t, i, jobs[i], machines, offline(i), answers(i), span, m);
      hide DesktopScanned, RowsOn, Attempts, CallsFor, Abandoned;
      DesktopsKept(DesktopScanned(t, i, jobs[i], machines, offline(i), answers(i)), jobs, i + 1, machines, offline, answers,
                   span, m);
    }
  }

  /** If no row of the range is alive, its rows are exactly its failed rows. */
  lemma {:induction false} AllFailed(jobs: seq<Job>, n: nat, span: Span)
    requires n <= |jobs| && forall i :: 0 <= i < n && Range(jobs[i]) == span ==> jobs[i].status.Failed?
    ensures RowsOn(jobs[..n], span) == FailedOn(jobs, n, span)
  {
    if n > 0 {
      AllFailed(jobs, n - 1, span);
      assert jobs[..n][..n - 1] == jobs[..n - 1];
    }
  }

  /** What holds of a range between two rows of the retry pass: if it is not covered yet, it has no rows but failed ones. */
  ghost predicate Midway(t: Table, jobs: seq<Job>, i: nat, machines: Machines, covered: set<Span>, span: Span, m: nat) {
    && i <= |jobs| <= |t.rows| && Budgeted(t.rows, span, m)
    && (forall k :: i <= k < |jobs| && jobs[k].status.Failed? ==> t.rows[k] == jobs[k])
    && (forall k :: 0 <= k < |jobs| && FailedServerless(jobs[k], machines) && jobs[k].Remaining().Some? ==>
          (Range(jobs[k]) == span <==> Tail(jobs[k]) == span))
    && RowsOn(t.rows, span) <= MAX_FAILURES
    && (span !in covered ==> RowsOn(t.rows, span) <= FailedOn(jobs, |jobs|, span))
  }

  lemma ScanStepPays(t: Table, jobs: seq<Job>, i: nat, machines: Machines, a: Answers, covered: set<Span>, span: Span, m: nat)
    requires i < |jobs| && Midway(t, jobs, i, machines, covered, span, m)
    ensures var (t', covered') := RetryScanned(t, jobs, i, machines, a, covered);
      Midway(t', jobs, i + 1, machines, covered', span, m) && Pays(t, t', span)
  {
    var job := jobs[i];
    if Retryable(jobs, job, machines, covered) {
      var s := Snapshot(i, job, machines[job.machine]);
      hide FailureHandled, RowsOn, Attempts, CallsFor, FailedOn;
      FailureSums(t, s, a, span, m);
      FailureFrame(t, s, a);
      assert job.Remaining().value == Tail(job);
    }
  }

  lemma {:induction false} PassPays(t: Table, jobs: seq<Job>, i: nat, machines: Machines, answers: nat -> Answers,
                                    covered: set<Span>, span: Span, m: nat)
    requires Midway(t, jobs, i, machines, covered, span, m)
    ensures var t' := RetriesScanned(t, jobs, i, machines, answers, covered);
      && Budgeted(t'.rows, span, m) && Pays(t, t', span) && RowsOn(t'.rows, span) <= MAX_FAILURES
    decreases |jobs| - i
  {
    if i < |jobs| {
      ScanStepPays(t, jobs, i, machines, answers(i), covered, span, m);
      hide RetryScanned, Midway;
      var (t', covered') := RetryScanned(t, jobs, i, machines, answers(i), covered);
      PassPays(t', jobs, i + 1, machines, answers, covered', span, m);
    }
  }

  /** An undisturbed range: after a whole tick, with any answers, it still has at most five rows, and the tick's dispatches on
      it are attempts of its rows. */
  lemma TickBounded(t: Table, x: TickInputs, span: Span, m: nat)
    requires Budgeted(t.rows, span, m) && RowsOn(t.rows, span) <= MAX_FAILURES && Undisturbed(t.rows, x, span)
    ensures var t' := FreshTick(t, x);
      && Budgeted(t'.rows, span, m) && Pays(t, t', span) && RowsOn(t'.rows, span) <= MAX_FAILURES
  {
    var jobs, covered := t.rows, CoveredBy(t.rows, |t.rows|);
    OrphansKept(t, jobs, 0, x.machines, x.stuck, span, m);
    var t1 := OrphansScanned(t, jobs, 0, x.machines, x.stuck);
    DesktopsKept(t1, jobs, 0, x.machines, x.offline, x.desktopAnswers, span, m);
    var t2 := DesktopsScanned(t1, jobs, 0, x.machines, x.offline, x.desktopAnswers);
    if span !in covered {
      AllFailed(jobs, |jobs|, span);
      assert jobs[..|jobs|] == jobs;
    }
    PassPays(t2, jobs, 0, x.machines, x.retryAnswers, covered, span, m);
  }

  // ---------------------------------------------------------------------------
  // Runs: workers and the scanner taking turns
  // ---------------------------------------------------------------------------

  datatype Step =
    | Claim(id: nat)
    | Report(id: nat, rendered: nat, total: Option<nat>)
    | Finish(id: nat)
    | StatusChange(id: nat, status: Status)
    | ScannerTick(inputs: TickInputs)

  function Next(t: Table, step: Step): Table {
    match step
    case Claim(id) => Claimed(t, id)
    case Report(id, n, total) => Progressed(t, id, n, total)
    case Finish(id) => Finished(t, id)
    case StatusChange(id, status) => SetStatus(t, id, status)
    case ScannerTick(x) => FreshTick(t, x)
  }

  ghost function After(t: Table, steps: seq<Step>): Table {
    if steps == [] then t else Next(After(t, steps[..|steps| - 1]), steps[|steps| - 1])
  }

  lemma WorkerKept(t: Table, step: Step, span: Span, m: nat)
    requires Budgeted(t.rows, span, m) && !step.ScannerTick?
    ensures Kept(t, Next(t, step), span, m)
  {
    var t' := Next(t, step);
    if step.id < |t.rows| {
      UpdateKept(t, step.id, t'.rows[step.id], span, m);
      assert t' == t || t' == t.(rows := t.rows[step.id := t'.rows[step.id]]);
    }
  }

  /** Every tick of the run finds the range undisturbed. */
  ghost predicate NeverDisturbed(t: Table, steps: seq<Step>, span: Span) {
    forall n :: 0 <= n < |steps| && steps[n].ScannerTick? ==> Undisturbed(After(t, steps[..n]).rows, steps[n].inputs, span)
  }

  lemma {:induction false} RunPays(t: Table, steps: seq<Step>, span: Span, m: nat)
    requires Budgeted(t.rows, span, m) && RowsOn(t.rows, span) <= MAX_FAILURES && NeverDisturbed(t, steps, span)
    ensures var t' := After(t, steps);
      && Budgeted(t'.rows, span, m) && Pays(t, t', span) && RowsOn(t'.rows, span) <= MAX_FAILURES
  {
    if steps != [] {
      var first, last := steps[..|steps| - 1], steps[|steps| - 1];
      forall n | 0 <= n < |first| && first[n].ScannerTick?
        ensures Undisturbed(After(t, first[..n]).rows, first[n].inputs, span)
      {
        assert first[..n] == steps[..n] && first[n] == steps[n];
      }
      RunPays(t, first, span, m);
      var before := After(t, first);
      hide Undisturbed, Budgeted, RowsOn, Attempts, CallsFor;
      if last.ScannerTick? {
        TickBounded(before, last.inputs, span, m);
      } else {
        WorkerKept(before, last, span, m);
      }
    }
  }

  lemma {:induction false} AttemptsBounded(rows: seq<Job>, span: Span, m: nat)
    requires Budgeted(rows, span, m)
    ensures Attempts(rows, span) <= RowsOn(rows, span) * (m + 1)
  {
    if rows != [] {
      var before := rows[..|rows| - 1];
      AttemptsBounded(before, span, m);
      assert (RowsOn(before, span) + 1) * (m + 1) == RowsOn(before, span) * (m + 1) + (m + 1);
    }
  }

  /** Retries end.  From at most one row on a range, after any number of claims, progress and done reports on any rows, status
      changes of any kind and whole ticks of the scanner with any answers, as long as no tick finds the range disturbed:
      at most five rows, every dispatch is an attempt recorded by one of them, and so at most 5 * (m + 1) dispatches. */
  lemma RetriesEnd(t: Table, steps: seq<Step>, span: Span, m: nat)
    requires Budgeted(t.rows, span, m) && NeverDisturbed(t, steps, span)
    requires RowsOn(t.rows, span) <= 1 && CallsFor(t.calls, span) == Attempts(t.rows, span)
    ensures var t' := After(t, steps);
      && RowsOn(t'.rows, span) <= 5
      && CallsFor(t'.calls, span) == Attempts(t'.rows, span) <= 5 * (m + 1)
  {
    RunPays(t, steps, span, m);
    var t' := After(t, steps);
    AttemptsBounded(t'.rows, span, m);
    MulGrows(RowsOn(t'.rows, span), 5, m + 1);
  }

  lemma MulGrows(a: nat, b: nat, k: nat)
    requires a <= b
    ensures a * k <= b * k
  {
    assert b * k - a * k == (b - a) * k;
  }

  // ---------------------------------------------------------------------------
  // Every non-empty chunk of a dispatched plan starts that way, and no other row runs into it
  // ---------------------------------------------------------------------------

  lemma {:induction false} DispatchCounts(t: Table, tasks: seq<FD.PlannedTask>, m: nat, span: Span)
    requires forall i :: 0 <= i < |tasks| ==> tasks[i].share.frameStep >= 1
    requires Budgeted(t.rows, span, m) && CallsFor(t.calls, span) == Attempts(t.rows, span)
    ensures var t', n := DispatchedAll(t, tasks, m), Occurrences(tasks, span);
      && Budgeted(t'.rows, span, m)
      && CallsFor(t'.calls, span) == Attempts(t'.rows, span)
      && RowsOn(t'.rows, span) == RowsOn(t.rows, span) + n
    decreases |tasks|
  {
    if tasks != [] {
      var a := tasks[0].share;
      var job := Job(a.machine.id, Pending, a.frameStart, a.frameEnd, a.frameStep, 0, a.totalFrames, 0, m, tasks[0].chunkIndex);
      AppendSums(t.rows, job, span);
      AppendCalls(t.calls, Call(|t.rows|, job.frameStart, job.frameEnd, job.frameStep), span);
      DispatchCounts(Inserted(t, job), tasks[1..], m, span);
    }
  }

  function Occurrences(tasks: seq<FD.PlannedTask>, span: Span): nat {
    if tasks == [] then 0
    else (if (tasks[0].share.frameStart, tasks[0].share.frameEnd) == span then 1 else 0) + Occurrences(tasks[1..], span)
  }

  lemma {:induction false} OccursOnce(tasks: seq<FD.PlannedTask>, span: Span, c: nat)
    requires c < |tasks| && (tasks[c].share.frameStart, tasks[c].share.frameEnd) == span
    requires forall i :: 0 <= i < |tasks| && i != c ==> (tasks[i].share.frameStart, tasks[i].share.frameEnd) != span
    ensures Occurrences(tasks, span) == 1
  {
    if c == 0 {
      OccursNever(tasks[1..], span);
    } else {
      OccursOnce(tasks[1..], span, c - 1);
    }
  }

  lemma {:induction false} OccursNever(tasks: seq<FD.PlannedTask>, span: Span)
    requires forall i :: 0 <= i < |tasks| ==> (tasks[i].share.frameStart, tasks[i].share.frameEnd) != span
    ensures Occurrences(tasks, span) == 0
  {
    if tasks != [] { OccursNever(tasks[1..], span); }
  }

  lemma SpanIsUnique(chunks: seq<FD.Assignment>, i: nat, c: nat)
    requires Stepped(chunks) && Exact(chunks) && i < |chunks| && c < |chunks| && i != c
    requires forall i, j, f, g ::
      0 <= i < j < |chunks| && f in FramesOf(chunks[i]) && g in FramesOf(chunks[j]) ==> f < g
    requires chunks[c].totalFrames >= 1
    ensures (chunks[i].frameStart, chunks[i].frameEnd) != (chunks[c].frameStart, chunks[c].frameEnd)
  {
    assert chunks[c].totalFrames == |FramesOf(chunks[c])|;
    StartIsCovered(chunks[c]);
    if chunks[i].frameStart <= chunks[i].frameEnd { StartIsCovered(chunks[i]); }
  }

  lemma StartIsCovered(a: FD.Assignment)
    requires a.frameStep >= 1 && a.frameStart <= a.frameEnd
    ensures a.frameStart in FramesOf(a)
  {
    assert FramesOf(a)[0] == a.frameStart;
  }

  /** With every planned frame counted as rendered, the invariant of the job table says only where rows lie. */
  ghost function Everything(plan: seq<FD.Assignment>): (r: set<int>)
    requires Stepped(plan)
    ensures forall c, f :: 0 <= c < |plan| && f in FramesOf(plan[c]) ==> f in r
  {
    set c, f | 0 <= c < |plan| && f in FramesOf(plan[c]) :: f
  }

  lemma StepPlaces(t: Table, step: Step, plan: seq<FD.Assignment>)
    requires Stepped(plan) && C.Inv(t, plan, Everything(plan))
    ensures C.Inv(Next(t, step), plan, Everything(plan))
  {
    var all := Everything(plan);
    if !step.ScannerTick? && step.id < |t.rows| { assert C.FaithfulAt(t, step.id, t.rows[step.id], plan, all); }
    match step
    case Claim(id) => C.SetStatusKeeps(t, id, Running, plan, all);
    case Report(id, n, total) =>
      if id < |t.rows| && t.rows[id].Active() { C.ProgressKeepsIff(t, id, t.rows[id], n, total, plan, all); }
    case Finish(id) =>
      if id < |t.rows| && t.rows[id].Active() {
        C.RangeIsChunk(t, id, plan, all);
        C.FinishKeepsIff(t, id, t.rows[id], plan, all);
      }
    case StatusChange(id, status) =>
      if id < |t.rows| { C.UpdateKeeps(t, id, t.rows[id].(status := status), plan, all); }
    case ScannerTick(x) =>
      forall i | 0 <= i < |t.rows| ensures C.FaithfulAt(t, i, t.rows[i], plan, all) { }
      C.TickKeeps(t, t.rows, x.machines, x.stuck, x.offline, x.desktopAnswers, x.retryAnswers, plan, all);
  }

  lemma {:induction false} RunPlaces(t: Table, steps: seq<Step>, plan: seq<FD.Assignment>)
    requires Stepped(plan) && C.Inv(t, plan, Everything(plan))
    ensures C.Inv(After(t, steps), plan, Everything(plan))
  {
    if steps != [] {
      RunPlaces(t, steps[..|steps| - 1], plan);
      StepPlaces(After(t, steps[..|steps| - 1]), steps[|steps| - 1], plan);
    }
  }

  /** A row whose tail is a whole non-empty chunk has that chunk as its range. */
  lemma OnlyItsOwnTail(t: Table, plan: seq<FD.Assignment>, c: nat, i: nat)
    requires Stepped(plan) && C.Inv(t, plan, Everything(plan))
    requires forall i, j, f, g :: 0 <= i < j < |plan| && f in FramesOf(plan[i]) && g in FramesOf(plan[j]) ==> f < g
    requires c < |plan| && FramesOf(plan[c]) != [] && i < |t.rows|
    requires Tail(t.rows[i]) == (plan[c].frameStart, plan[c].frameEnd)
    ensures Range(t.rows[i]) == Tail(t.rows[i])
  {
    var row := t.rows[i];
    assert C.FaithfulAt(t, i, row, plan, Everything(plan));
    var a, b := plan[row.chunkIndex], plan[c];
    C.TailAligned(row, t.origins[i], plan, Everything(plan));
    C.AlignedTrans(a.frameStart, t.origins[i], row.frameStart, a.frameStep);
    StartIsCovered(b);
    var k: nat :| C.At(a.frameStart, k, a.frameStep) == row.RemainingStart();
    var n: nat :| C.At(a.frameStart, n, a.frameStep) == row.frameStart;
    assert k * a.frameStep >= 0 && n * a.frameStep >= 0 && row.rendered * row.frameStep >= 0;
    if row.chunkIndex != c {
      StartIsCovered(a);
      OnItsGrid(a.frameStart, k, a.frameEnd, a.frameStep);
    }
  }

  lemma OnItsGrid(a: int, k: nat, end: int, step: int)
    requires step >= 1 && C.At(a, k, step) <= end
    ensures C.At(a, k, step) in Frames(a, end, step)
  {
    var x := C.At(a, k, step);
    assert Frames(x, end, step)[0] == x;
    C.TailContains(a, k, end, step, x);
  }

  /** At every tick of the run the failed serverless rows of the range rendered nothing, and none of its rows is running on a
      desktop that went offline. */
  ghost predicate Fruitless(t: Table, steps: seq<Step>, span: Span) {
    forall n :: 0 <= n < |steps| && steps[n].ScannerTick? ==>
      var rows, x := After(t, steps[..n]).rows, steps[n].inputs;
      forall i :: 0 <= i < |rows| && Range(rows[i]) == span ==>
        (FailedServerless(rows[i], x.machines) ==> rows[i].rendered == 0) && !Abandoned(rows[i], x.machines, x.offline(i))
  }

  lemma FruitlessIsUndisturbed(t: Table, steps: seq<Step>, plan: seq<FD.Assignment>, c: nat)
    requires Stepped(plan) && C.Inv(t, plan, Everything(plan))
    requires forall i, j, f, g :: 0 <= i < j < |plan| && f in FramesOf(plan[i]) && g in FramesOf(plan[j]) ==> f < g
    requires c < |plan| && FramesOf(plan[c]) != []
    requires Fruitless(t, steps, (plan[c].frameStart, plan[c].frameEnd))
    ensures NeverDisturbed(t, steps, (plan[c].frameStart, plan[c].frameEnd))
  {
    var span := (plan[c].frameStart, plan[c].frameEnd);
    forall n | 0 <= n < |steps| && steps[n].ScannerTick?
      ensures Undisturbed(After(t, steps[..n]).rows, steps[n].inputs, span)
    {
      RunPlaces(t, steps[..n], plan);
      var now, x := After(t, steps[..n]), steps[n].inputs;
      forall i | 0 <= i < |now.rows| && Tail(now.rows[i]) == span ensures Range(now.rows[i]) == span {
        OnlyItsOwnTail(now, plan, c, i);
      }
    }
  }

  ghost predicate EndsFor(t: Table, chunk: FD.Assignment, m: nat) {
    var span := (chunk.frameStart, chunk.frameEnd);
    RowsOn(t.rows, span) <= 5 && CallsFor(t.calls, span) <= 5 * (m + 1)
  }

  lemma ChunkEnds(t: Table, tasks: seq<FD.PlannedTask>, m: nat, c: nat, steps: seq<Step>)
    requires forall i :: 0 <= i < |tasks| ==> tasks[i].share.frameStep >= 1
    requires Stepped(Shares(tasks)) && Exact(Shares(tasks))
    requires var chunks := Shares(tasks); (forall i, j, f, g ::
      0 <= i < j < |chunks| && f in FramesOf(chunks[i]) && g in FramesOf(chunks[j]) ==> f < g)
    requires c < |tasks| && tasks[c].share.totalFrames >= 1
    requires t == DispatchedAll(Table([], [], []), tasks, m) && C.Inv(t, Shares(tasks), Everything(Shares(tasks)))
    requires Fruitless(t, steps, (tasks[c].share.frameStart, tasks[c].share.frameEnd))
    ensures EndsFor(After(t, steps), tasks[c].share, m)
  {
    var span, plan := (tasks[c].share.frameStart, tasks[c].share.frameEnd), Shares(tasks);
    forall i | 0 <= i < |tasks| && i != c ensures (tasks[i].share.frameStart, tasks[i].share.frameEnd) != span {
      SpanIsUnique(plan, i, c);
    }
    OccursOnce(tasks, span, c);
    DispatchCounts(Table([], [], []), tasks, m, span);
    assert plan[c] == tasks[c].share && plan[c].totalFrames == |FramesOf(plan[c])|;
    FruitlessIsUndisturbed(t, steps, plan, c);
    hide C.Inv, Fruitless, NeverDisturbed, FramesOf;
    RetriesEnd(t, steps, span, m);
  }

  /** The bound for every chunk with a frame, of every plan, after any run of workers and scanner in which that chunk is
      fruitless; what happens on the other chunks does not matter. */
  lemma PlannedChunksEnd(totalFrames: int, start: int, end: int, step: RenderJobs.Step, machines: seq<FD.Machine>,
                         round: real -> int, cfg: FD.Config, m: nat, steps: seq<Step>)
    requires machines != []
    ensures var tasks := FD.Planned(totalFrames, start, end, step, machines, round, cfg);
      var t := C.Launched(totalFrames, start, end, step, machines, round, cfg, m).table;
      forall c :: 0 <= c < |tasks| && tasks[c].share.totalFrames >= 1
                  && Fruitless(t, steps, (tasks[c].share.frameStart, tasks[c].share.frameEnd)) ==>
        EndsFor(After(t, steps), tasks[c].share, m)
  {
    PlanTiles(totalFrames, start, end, step, machines, round, cfg);
    PlanPartitions(totalFrames, start, end, step, machines, round, cfg);
    var tasks := FD.Planned(totalFrames, start, end, step, machines, round, cfg);
    var plan := Shares(tasks);
    var t := C.Launched(totalFrames, start, end, step, machines, round, cfg, m).table;
    assert forall i :: 0 <= i < |tasks| ==> tasks[i].share == plan[i];
    C.LaunchKeeps(totalFrames, start, end, step, machines, round, cfg, m);
    MoreRendered(t, plan);
    forall c | 0 <= c < |tasks| && tasks[c].share.totalFrames >= 1
               && Fruitless(t, steps, (tasks[c].share.frameStart, tasks[c].share.frameEnd))
      ensures EndsFor(After(t, steps), tasks[c].share, m)
    {
      ChunkEnds(t, tasks, m, c, steps);
    }
  }

  lemma MoreRendered(t: Table, plan: seq<FD.Assignment>)
    requires Stepped(plan) && C.Inv(t, plan, {})
    ensures C.Inv(t, plan, Everything(plan))
  {
    forall i | 0 <= i < |t.rows| ensures C.FaithfulAt(t, i, t.rows[i], plan, Everything(plan)) {
      assert C.FaithfulAt(t, i, t.rows[i], plan, {});
    }
  }
}
