/** No frame is ever lost: in every run of dispatches, worker reports, registered outputs, retries, failovers and scanner
    steps, in any order and with decisions taken on rows as they were at any earlier moment, each planned frame is rendered
    or still lies in the unrendered tail of every row of its chunk.  What a report or a registration must say of the row for
    that is stated exactly. */
module Conservation {
  import opened Grid
  import opened RenderJobs
  import opened Fleet
  import opened Scanner
  import opened Tiling
  import FD = FrameDistribution

  // ---------------------------------------------------------------------------
  // Alignment with a grid
  // ---------------------------------------------------------------------------

  function At(a: int, k: int, step: int): int { a + k * step }

  ghost predicate Aligned(a: int, x: int, step: int) {
    exists k: nat :: At(a, k, step) == x
  }

  lemma AlignedSelf(a: int, step: int)
    ensures Aligned(a, a, step)
  {
    assert At(a, 0, step) == a;
  }

  lemma AlignedFurther(a: int, x: int, n: nat, step: int)
    requires Aligned(a, x, step)
    ensures Aligned(a, At(x, n, step), step)
  {
    var k: nat :| At(a, k, step) == x;
    assert a + k * step + n * step == a + (k + n) * step;
    assert At(a, k + n, step) == At(x, n, step);
  }

  lemma AlignedTrans(a: int, b: int, c: int, step: int)
    requires Aligned(a, b, step) && Aligned(b, c, step)
    ensures Aligned(a, c, step)
  {
    var n: nat :| At(b, n, step) == c;
    AlignedFurther(a, b, n, step);
  }

  /** The tail of a grid from one of its own points on. */
  lemma {:induction false} TailContains(a: int, k: nat, end: int, step: int, f: int)
    requires step >= 1
    ensures var x := At(a, k, step);
      && (f in Frames(a, end, step) && f >= x ==> f in Frames(x, end, step))
      && (f in Frames(x, end, step) ==> f in Frames(a, end, step))
    decreases k
  {
    if k > 0 {
      assert a + step + (k - 1) * step == a + k * step;
      assert At(a + step, k - 1, step) == At(a, k, step);
      TailContains(a + step, k - 1, end, step, f);
      assert (k - 1) * step >= 0;
      if a > end {
        FramesBounded(At(a, k, step), end, step);
      }
    }
  }

  /** A range advanced by at least its own count is used up. */
  lemma {:induction false} PastTheEnd(start: int, end: int, step: int, n: nat)
    requires step >= 1 && n >= Count(start, end, step)
    ensures start + n * step > end
    decreases n
  {
    if start <= end {
      CountStep(start, end, step);
      PastTheEnd(start + step, end, step, n - 1);
      assert start + step + (n - 1) * step == start + n * step;
    } else {
      assert n * step >= 0;
    }
  }

  lemma {:induction false} CountShrinks(a: int, k: nat, end: int, step: int)
    requires step >= 1
    ensures Count(At(a, k, step), end, step) <= Count(a, end, step)
    decreases k
  {
    if k > 0 {
      CountShrinks(a + step, k - 1, end, step);
      assert a + step + (k - 1) * step == a + k * step;
      if a <= end { CountStep(a, end, step); }
    }
  }

  // ---------------------------------------------------------------------------
  // The invariant
  // ---------------------------------------------------------------------------

  /** A row version that tells the truth about its planned chunk: it ends where the chunk ends, its unrendered tail
      starts on the chunk's grid, every chunk frame before that tail is rendered, its total is at least the
      length of the range it was created with, and if it says done the whole chunk is rendered. */
  ghost predicate Faithful(v: Job, origin: int, plan: seq<FD.Assignment>, rendered: set<int>) {
    && v.chunkIndex < |plan|
    && var c := plan[v.chunkIndex];
    && c.frameStep >= 1
    && v.frameEnd == c.frameEnd && v.frameStep == c.frameStep
    && Aligned(c.frameStart, origin, c.frameStep)
    && Aligned(origin, v.frameStart, c.frameStep)
    && v.total >= Count(origin, c.frameEnd, c.frameStep)
    && (forall f :: f in FramesOf(c) && f < v.RemainingStart() ==> f in rendered)
    && (v.status.Done? ==> forall f :: f in FramesOf(c) ==> f in rendered)
  }

  ghost predicate FaithfulAt(t: Table, i: nat, v: Job, plan: seq<FD.Assignment>, rendered: set<int>)
    requires t.Valid()
  {
    i < |t.rows| && v.chunkIndex == t.rows[i].chunkIndex && Faithful(v, t.origins[i], plan, rendered)
  }

  /** A call asks for the tail of the chunk of the row it serves, from a point of the chunk's grid. */
  ghost predicate PlannedCall(t: Table, call: Call, plan: seq<FD.Assignment>) {
    && call.job < |t.rows| && t.rows[call.job].chunkIndex < |plan|
    && var c := plan[t.rows[call.job].chunkIndex];
       call.frameEnd == c.frameEnd && call.frameStep == c.frameStep && Aligned(c.frameStart, call.frameStart, c.frameStep)
  }

  ghost predicate Inv(t: Table, plan: seq<FD.Assignment>, rendered: set<int>) {
    && t.Valid()
    && (forall i :: 0 <= i < |t.rows| ==> FaithfulAt(t, i, t.rows[i], plan, rendered))
    && (forall k :: 0 <= k < |t.calls| ==> PlannedCall(t, t.calls[k], plan))
  }

  /** The table only ever grows, and no row changes chunk or origin. */
  ghost predicate Extends(t: Table, t': Table) {
    && t.Valid() && t'.Valid() && |t.rows| <= |t'.rows|
    && (forall i :: 0 <= i < |t.rows| ==> t'.origins[i] == t.origins[i] && t'.rows[i].chunkIndex == t.rows[i].chunkIndex)
  }

  lemma FaithfulLasts(t: Table, t': Table, i: nat, v: Job, plan: seq<FD.Assignment>, rendered: set<int>, more: set<int>)
    requires Extends(t, t') && rendered <= more && FaithfulAt(t, i, v, plan, rendered)
    ensures FaithfulAt(t', i, v, plan, more)
  {
  }

  lemma CompleteMeansRendered(v: Job, origin: int, plan: seq<FD.Assignment>, rendered: set<int>)
    requires Faithful(v, origin, plan, rendered) && (v.rendered >= v.total || v.Remaining().None?)
    ensures forall f :: f in FramesOf(plan[v.chunkIndex]) ==> f in rendered
  {
    var c := plan[v.chunkIndex];
    if v.rendered >= v.total {
      var k: nat :| At(origin, k, c.frameStep) == v.frameStart;
      CountShrinks(origin, k, c.frameEnd, c.frameStep);
      PastTheEnd(v.frameStart, v.frameEnd, v.frameStep, v.rendered);
    }
    FramesBounded(c.frameStart, c.frameEnd, c.frameStep);
  }

  // ---------------------------------------------------------------------------
  // Every single change keeps it
  // ---------------------------------------------------------------------------

  /** Replacing one row by a faithful version of it. */
  lemma UpdateKeeps(t: Table, id: nat, v: Job, plan: seq<FD.Assignment>, rendered: set<int>)
    requires Inv(t, plan, rendered) && FaithfulAt(t, id, v, plan, rendered)
    ensures var t' := t.(rows := t.rows[id := v]);
      Inv(t', plan, rendered) && Extends(t, t')
  {
    var t' := t.(rows := t.rows[id := v]);
    forall k | 0 <= k < |t'.calls| ensures PlannedCall(t', t'.calls[k], plan) {
      assert PlannedCall(t, t.calls[k], plan);
    }
    forall i | 0 <= i < |t'.rows| ensures FaithfulAt(t', i, t'.rows[i], plan, rendered) {
      assert FaithfulAt(t, i, t.rows[i], plan, rendered);
    }
  }

  lemma SetStatusKeeps(t: Table, id: nat, status: Status, plan: seq<FD.Assignment>, rendered: set<int>)
    requires Inv(t, plan, rendered) && !status.Done?
    ensures Inv(SetStatus(t, id, status), plan, rendered) && Extends(t, SetStatus(t, id, status))
  {
    if id < |t.rows| {
      assert FaithfulAt(t, id, t.rows[id], plan, rendered);
      UpdateKeeps(t, id, t.rows[id].(status := status), plan, rendered);
    }
  }

  /** Marking a row done on the evidence of any faithful version of it. */
  lemma DoneKeeps(t: Table, id: nat, v: Job, count: nat, plan: seq<FD.Assignment>, rendered: set<int>)
    requires Inv(t, plan, rendered) && FaithfulAt(t, id, v, plan, rendered)
    requires v.rendered >= v.total || v.Remaining().None?
    ensures Inv(SetStatus(t, id, Done), plan, rendered) && Extends(t, SetStatus(t, id, Done))
    ensures Inv(Completed(t, id, count), plan, rendered) && Extends(t, Completed(t, id, count))
  {
    CompleteMeansRendered(v, t.origins[id], plan, rendered);
    assert FaithfulAt(t, id, t.rows[id], plan, rendered);
    UpdateKeeps(t, id, t.rows[id].(status := Done), plan, rendered);
    UpdateKeeps(t, id, t.rows[id].(status := Done, rendered := count), plan, rendered);
  }

  lemma CallKeeps(t: Table, call: Call, plan: seq<FD.Assignment>, rendered: set<int>)
    requires Inv(t, plan, rendered) && PlannedCall(t, call, plan)
    ensures var t' := t.(calls := t.calls + [call]); Inv(t', plan, rendered) && Extends(t, t')
  {
    var t' := t.(calls := t.calls + [call]);
    forall k | 0 <= k < |t'.calls| ensures PlannedCall(t', t'.calls[k], plan) {
      if k < |t.calls| { assert PlannedCall(t, t.calls[k], plan); }
    }
    forall i | 0 <= i < |t'.rows| ensures FaithfulAt(t', i, t'.rows[i], plan, rendered) {
      assert FaithfulAt(t, i, t.rows[i], plan, rendered);
    }
  }

  lemma InsertKeeps(t: Table, job: Job, plan: seq<FD.Assignment>, rendered: set<int>)
    requires Inv(t, plan, rendered) && Faithful(job, job.frameStart, plan, rendered)
    ensures Inv(Inserted(t, job), plan, rendered) && Extends(t, Inserted(t, job))
  {
    var t' := Inserted(t, job);
    forall k | 0 <= k < |t'.calls| ensures PlannedCall(t', t'.calls[k], plan) {
      if k < |t.calls| { assert PlannedCall(t, t.calls[k], plan); }
    }
    forall i | 0 <= i < |t'.rows| ensures FaithfulAt(t', i, t'.rows[i], plan, rendered) {
      if i < |t.rows| { assert FaithfulAt(t, i, t.rows[i], plan, rendered); }
    }
  }

  lemma TailAligned(v: Job, origin: int, plan: seq<FD.Assignment>, rendered: set<int>)
    requires Faithful(v, origin, plan, rendered)
    ensures var c := plan[v.chunkIndex];
      Aligned(origin, v.RemainingStart(), c.frameStep) && Aligned(c.frameStart, v.RemainingStart(), c.frameStep)
  {
    var c := plan[v.chunkIndex];
    AlignedFurther(origin, v.frameStart, v.rendered, c.frameStep);
    assert At(v.frameStart, v.rendered, c.frameStep) == v.RemainingStart();
    AlignedTrans(c.frameStart, origin, v.RemainingStart(), c.frameStep);
  }

  lemma RetryKeeps(t: Table, s: Snapshot, plan: seq<FD.Assignment>, rendered: set<int>)
    requires Inv(t, plan, rendered) && FaithfulAt(t, s.id, s.row, plan, rendered)
    ensures Inv(Retried(t, s), plan, rendered) && Extends(t, Retried(t, s))
  {
    assert FaithfulAt(t, s.id, t.rows[s.id], plan, rendered);
    TailAligned(s.row, t.origins[s.id], plan, rendered);
    var row := t.rows[s.id].(status := Pending, attempt := s.row.attempt + 1, rendered := 0,
                             frameStart := s.row.RemainingStart());
    assert row.RemainingStart() == s.row.RemainingStart();
    UpdateKeeps(t, s.id, row, plan, rendered);
    CallKeeps(t.(rows := t.rows[s.id := row]),
              Call(s.id, s.row.RemainingStart(), s.row.frameEnd, s.row.frameStep), plan, rendered);
  }

  lemma FailoverKeeps(t: Table, s: Snapshot, machine: FD.Machine, throws: bool, plan: seq<FD.Assignment>, rendered: set<int>)
    requires Inv(t, plan, rendered) && FaithfulAt(t, s.id, s.row, plan, rendered) && s.row.Remaining().Some?
    ensures Inv(FailedOver(t, s, machine, throws), plan, rendered) && Extends(t, FailedOver(t, s, machine, throws))
  {
    SetStatusKeeps(t, s.id, Failed, plan, rendered);
    var t1 := SetStatus(t, s.id, Failed);
    TailAligned(s.row, t.origins[s.id], plan, rendered);
    var start, end, step := s.row.RemainingStart(), s.row.frameEnd, s.row.frameStep;
    AlignedSelf(start, step);
    var job := Job(machine.id, if throws then Failed else Pending, start, end, step, 0,
                   (end - start) / step + 1, 0, t.rows[s.id].maxRetries, t.rows[s.id].chunkIndex);
    assert job.RemainingStart() == start;
    InsertKeeps(t1, job, plan, rendered);
  }

  /** Handling a failure keeps the invariant whatever earlier version of the row the decision is based on. */
  lemma FailureHandledKeeps(t: Table, s: Snapshot, a: Answers, plan: seq<FD.Assignment>, rendered: set<int>)
    requires Inv(t, plan, rendered) && FaithfulAt(t, s.id, s.row, plan, rendered)
    ensures var t' := FailureHandled(t, s, a).0; Inv(t', plan, rendered) && Extends(t, t')
  {
    if s.row.Remaining().None? {
      DoneKeeps(t, s.id, s.row, 0, plan, rendered);
    } else {
      RetryKeeps(t, s, plan, rendered);
      var t' := if s.row.CanRetry() then Retried(t, s) else t;
      FaithfulLasts(t, t', s.id, s.row, plan, rendered, rendered);
      SetStatusKeeps(t', s.id, Failed, plan, rendered);
      var choice := ChooseFailover(a.candidates, s.row.machine, s.kind);
      if choice.Some? {
        FailoverKeeps(t', s, choice.value, a.failoverThrows, plan, rendered);
      }
    }
  }

  // ---------------------------------------------------------------------------
  // Exactly which reports keep it
  // ---------------------------------------------------------------------------

  /** Storing another version of a row keeps the invariant exactly if that version is faithful. */
  lemma UpdateKeepsIff(t: Table, id: nat, v: Job, plan: seq<FD.Assignment>, rendered: set<int>)
    requires Inv(t, plan, rendered) && id < |t.rows| && v.chunkIndex == t.rows[id].chunkIndex
    ensures var t' := t.(rows := t.rows[id := v]);
      Extends(t, t') && (Inv(t', plan, rendered) <==> Faithful(v, t.origins[id], plan, rendered))
  {
    var t' := t.(rows := t.rows[id := v]);
    if Inv(t', plan, rendered) { assert FaithfulAt(t', id, t'.rows[id], plan, rendered); }
    if Faithful(v, t.origins[id], plan, rendered) { UpdateKeeps(t, id, v, plan, rendered); }
  }

  /** The row's chunk is rendered up to this many frames from the row's present start. */
  ghost predicate RenderedUpTo(t: Table, id: nat, count: nat, plan: seq<FD.Assignment>, rendered: set<int>) {
    id < |t.rows| && t.rows[id].chunkIndex < |plan| && plan[t.rows[id].chunkIndex].frameStep >= 1 ==>
      forall f :: f in FramesOf(plan[t.rows[id].chunkIndex]) && f < At(t.rows[id].frameStart, count, t.rows[id].frameStep)
        ==> f in rendered
  }

  /** A progress report, stored at whatever later moment, keeps the invariant exactly if the chunk is rendered up to the
      capped count, counted from where the row starts when it is stored. */
  lemma ProgressKeepsIff(t: Table, id: nat, read: Job, claimed: nat, total: Option<nat>, plan: seq<FD.Assignment>,
                         rendered: set<int>)
    requires Inv(t, plan, rendered) && FaithfulAt(t, id, read, plan, rendered) && read.Active()
    ensures Extends(t, ProgressStored(t, id, read, claimed, total))
    ensures Inv(ProgressStored(t, id, read, claimed, total), plan, rendered)
      <==> RenderedUpTo(t, id, CountsAfter(read, claimed, total).1, plan, rendered)
  {
    var t' := ProgressStored(t, id, read, claimed, total);
    assert FaithfulAt(t, id, t.rows[id], plan, rendered);
    assert t'.rows[id].RemainingStart() == At(t.rows[id].frameStart, CountsAfter(read, claimed, total).1, t.rows[id].frameStep);
    UpdateKeepsIff(t, id, t'.rows[id], plan, rendered);
    assert t' == t.(rows := t.rows[id := t'.rows[id]]);
  }

  /** The row's whole present range is rendered. */
  ghost predicate TrulyFinished(t: Table, id: nat, rendered: set<int>) {
    id < |t.rows| ==>
      forall f :: f in Frames(t.rows[id].frameStart, t.rows[id].frameEnd, t.rows[id].frameStep) ==> f in rendered
  }

  /** With a faithful row, a rendered range means a rendered chunk. */
  lemma RangeIsChunk(t: Table, id: nat, plan: seq<FD.Assignment>, rendered: set<int>)
    requires Inv(t, plan, rendered) && id < |t.rows|
    ensures t.rows[id].chunkIndex < |plan| && plan[t.rows[id].chunkIndex].frameStep >= 1
    ensures TrulyFinished(t, id, rendered) <==> forall f :: f in FramesOf(plan[t.rows[id].chunkIndex]) ==> f in rendered
  {
    var row := t.rows[id];
    assert FaithfulAt(t, id, row, plan, rendered);
    var c := plan[row.chunkIndex];
    AlignedTrans(c.frameStart, t.origins[id], row.frameStart, c.frameStep);
    var k: nat :| At(c.frameStart, k, c.frameStep) == row.frameStart;
    assert row.rendered * row.frameStep >= 0;
    forall f ensures f in FramesOf(c) && f >= row.frameStart ==> f in Frames(row.frameStart, row.frameEnd, row.frameStep) {
      TailContains(c.frameStart, k, c.frameEnd, c.frameStep, f);
    }
    forall f | f in Frames(row.frameStart, row.frameEnd, row.frameStep) ensures f in FramesOf(c) {
      TailContains(c.frameStart, k, c.frameEnd, c.frameStep, f);
    }
  }

  /** A done callback, stored at whatever later moment, keeps the invariant exactly if the row's range at that moment is
      rendered. */
  lemma FinishKeepsIff(t: Table, id: nat, read: Job, plan: seq<FD.Assignment>, rendered: set<int>)
    requires Inv(t, plan, rendered) && FaithfulAt(t, id, read, plan, rendered) && read.Active()
    ensures Extends(t, FinishStored(t, id, read))
    ensures Inv(FinishStored(t, id, read), plan, rendered) <==> TrulyFinished(t, id, rendered)
  {
    var t' := FinishStored(t, id, read);
    RangeIsChunk(t, id, plan, rendered);
    assert FaithfulAt(t, id, t.rows[id], plan, rendered);
    UpdateKeepsIff(t, id, t'.rows[id], plan, rendered);
    assert t' == t.(rows := t.rows[id := t'.rows[id]]);
  }

  /** A failed callback stores the count it read, which keeps the invariant exactly if the chunk is rendered up to it from
      where the row starts by then. */
  lemma FailureKeepsIff(t: Table, id: nat, read: Job, plan: seq<FD.Assignment>, rendered: set<int>)
    requires Inv(t, plan, rendered) && FaithfulAt(t, id, read, plan, rendered) && read.Active()
    ensures Extends(t, FailureStored(t, id, read))
    ensures Inv(FailureStored(t, id, read), plan, rendered) <==> RenderedUpTo(t, id, read.rendered, plan, rendered)
  {
    var t' := FailureStored(t, id, read);
    assert FaithfulAt(t, id, t.rows[id], plan, rendered);
    assert t'.rows[id].RemainingStart() == At(t.rows[id].frameStart, read.rendered, t.rows[id].frameStep);
    UpdateKeepsIff(t, id, t'.rows[id], plan, rendered);
    assert t' == t.(rows := t.rows[id := t'.rows[id]]);
  }

  lemma FailureReportKeeps(t: Table, id: nat, read: Job, kind: FD.MachineType, a: Answers, plan: seq<FD.Assignment>,
                           rendered: set<int>)
    requires Inv(t, plan, rendered) && FaithfulAt(t, id, read, plan, rendered)
    requires read.Active() ==> RenderedUpTo(t, id, read.rendered, plan, rendered)
    ensures var t' := FailureStoredAndHandled(t, id, read, kind, a); Inv(t', plan, rendered) && Extends(t, t')
  {
    if read.Active() {
      FailureKeepsIff(t, id, read, plan, rendered);
      FaithfulLasts(t, FailureStored(t, id, read), id, read, plan, rendered, rendered);
      FailureHandledKeeps(FailureStored(t, id, read), Snapshot(id, read, kind), a, plan, rendered);
    }
  }

  // ---------------------------------------------------------------------------
  // Registered outputs
  // ---------------------------------------------------------------------------

  /** A row is recovered to done exactly truthfully if its range is rendered; cancelling the rows within does no harm. */
  lemma RecoveredKeepsIff(t: Table, id: nat, read: Job, plan: seq<FD.Assignment>, rendered: set<int>)
    requires Inv(t, plan, rendered) && id < |t.rows| && read.total > 0
    ensures Extends(t, Recovered(t, id, read))
    ensures Inv(Recovered(t, id, read), plan, rendered) <==> TrulyFinished(t, id, rendered)
  {
    var v := t.rows[id].(status := Done, rendered := read.total);
    var t1, t' := t.(rows := t.rows[id := v]), Recovered(t, id, read);
    RangeIsChunk(t, id, plan, rendered);
    assert FaithfulAt(t, id, t.rows[id], plan, rendered);
    UpdateKeepsIff(t, id, v, plan, rendered);
    if Inv(t', plan, rendered) { assert FaithfulAt(t', id, t'.rows[id], plan, rendered); }
    if Inv(t1, plan, rendered) { CancelledKeeps(t1, t', plan, rendered); }
  }

  /** Rows that are cancelled keep it. */
  lemma CancelledKeeps(t: Table, t': Table, plan: seq<FD.Assignment>, rendered: set<int>)
    requires Inv(t, plan, rendered) && t'.calls == t.calls && t'.origins == t.origins && |t'.rows| == |t.rows|
    requires forall i :: 0 <= i < |t.rows| ==> t'.rows[i] == t.rows[i] || t'.rows[i] == t.rows[i].(status := Cancelled)
    ensures Inv(t', plan, rendered) && Extends(t, t')
  {
    forall i | 0 <= i < |t'.rows| ensures FaithfulAt(t', i, t'.rows[i], plan, rendered) {
      assert FaithfulAt(t, i, t.rows[i], plan, rendered);
    }
    forall k | 0 <= k < |t'.calls| ensures PlannedCall(t', t'.calls[k], plan) {
      assert PlannedCall(t, t.calls[k], plan);
    }
  }

  /** What a registration claims of the row at the moment it is stored. */
  ghost predicate RegistrationHolds(t: Table, id: nat, read: Job, files: nat, plan: seq<FD.Assignment>, rendered: set<int>) {
    if IsEvidence(read, files) then TrulyFinished(t, id, rendered)
    else RenderedUpTo(t, id, CountWithFiles(read, files), plan, rendered)
  }

  lemma DoneIsFinished(t: Table, id: nat, plan: seq<FD.Assignment>, rendered: set<int>)
    requires Inv(t, plan, rendered) && id < |t.rows| && t.rows[id].status.Done?
    ensures TrulyFinished(t, id, rendered)
  {
    RangeIsChunk(t, id, plan, rendered);
    assert FaithfulAt(t, id, t.rows[id], plan, rendered);
  }

  /** A registration of outputs keeps the invariant exactly if, with all files there, the row's range is rendered, and
      otherwise the chunk is rendered up to the number of files, counted from where the row starts by then. */
  lemma RegisterKeepsIff(t: Table, id: nat, read: Job, files: nat, plan: seq<FD.Assignment>, rendered: set<int>)
    requires Inv(t, plan, rendered) && FaithfulAt(t, id, read, plan, rendered)
    ensures Extends(t, Registered(t, id, read, files))
    ensures Inv(Registered(t, id, read, files), plan, rendered)
      <==> RegistrationHolds(t, id, read, files, plan, rendered)
  {
    if IsEvidence(read, files) {
      RecoveredKeepsIff(t, id, read, plan, rendered);
    } else {
      var t', count := Registered(t, id, read, files), CountWithFiles(read, files);
      if t.rows[id].status.Done? { DoneIsFinished(t, id, plan, rendered); }
      RangeIsChunk(t, id, plan, rendered);
      assert FaithfulAt(t, id, t.rows[id], plan, rendered);
      assert t'.rows[id].RemainingStart() == At(t.rows[id].frameStart, count, t.rows[id].frameStep);
      UpdateKeepsIff(t, id, t'.rows[id], plan, rendered);
    }
  }

  // ---------------------------------------------------------------------------
  // The scanner's passes keep it, on any snapshot taken earlier
  // ---------------------------------------------------------------------------

  ghost predicate FaithfulSnapshot(t: Table, jobs: seq<Job>, plan: seq<FD.Assignment>, rendered: set<int>)
    requires t.Valid()
  {
    forall i :: 0 <= i < |jobs| ==> FaithfulAt(t, i, jobs[i], plan, rendered)
  }

  lemma SnapshotLasts(t: Table, t': Table, jobs: seq<Job>, plan: seq<FD.Assignment>, rendered: set<int>)
    requires Extends(t, t') && FaithfulSnapshot(t, jobs, plan, rendered)
    ensures FaithfulSnapshot(t', jobs, plan, rendered)
  {
    forall i | 0 <= i < |jobs| ensures FaithfulAt(t', i, jobs[i], plan, rendered) {
      assert FaithfulAt(t, i, jobs[i], plan, rendered);
    }
  }

  lemma {:induction false} OrphansKeep(t: Table, jobs: seq<Job>, i: nat, machines: Machines, stuck: nat -> bool,
                                       plan: seq<FD.Assignment>, rendered: set<int>)
    requires Inv(t, plan, rendered) && FaithfulSnapshot(t, jobs, plan, rendered) && i <= |jobs|
    ensures var t' := OrphansScanned(t, jobs, i, machines, stuck);
      Inv(t', plan, rendered) && FaithfulSnapshot(t', jobs, plan, rendered)
    decreases |jobs| - i
  {
    if i < |jobs| {
      assert FaithfulAt(t, i, jobs[i], plan, rendered);
      SetStatusKeeps(t, i, Failed, plan, rendered);
      if jobs[i].IsCompleteByFrames() {
        DoneKeeps(t, i, jobs[i], jobs[i].total, plan, rendered);
      }
      var t' := OrphanScanned(t, i, jobs[i], machines, stuck(i));
      SnapshotLasts(t, t', jobs, plan, rendered);
      OrphansKeep(t', jobs, i + 1, machines, stuck, plan, rendered);
    }
  }

  lemma {:induction false} DesktopsKeep(t: Table, jobs: seq<Job>, i: nat, machines: Machines, offline: nat -> bool,
                                        answers: nat -> Answers, plan: seq<FD.Assignment>, rendered: set<int>)
    requires Inv(t, plan, rendered) && FaithfulSnapshot(t, jobs, plan, rendered) && i <= |jobs|
    ensures var t' := DesktopsScanned(t, jobs, i, machines, offline, answers);
      Inv(t', plan, rendered) && FaithfulSnapshot(t', jobs, plan, rendered)
    decreases |jobs| - i
  {
    if i < |jobs| {
      assert FaithfulAt(t, i, jobs[i], plan, rendered);
      var t' := DesktopScanned(t, i, jobs[i], machines, offline(i), answers(i));
      if t' != t {
        SetStatusKeeps(t, i, Failed, plan, rendered);
        var t1 := SetStatus(t, i, Failed);
        FaithfulLasts(t, t1, i, jobs[i], plan, rendered, rendered);
        FailureHandledKeeps(t1, Snapshot(i, jobs[i], machines[jobs[i].machine]), answers(i), plan, rendered);
      }
      SnapshotLasts(t, t', jobs, plan, rendered);
      DesktopsKeep(t', jobs, i + 1, machines, offline, answers, plan, rendered);
    }
  }

  lemma {:induction false} RetriesKeep(t: Table, jobs: seq<Job>, i: nat, machines: Machines, answers: nat -> Answers,
                                       covered: set<(int, int)>, plan: seq<FD.Assignment>, rendered: set<int>)
    requires Inv(t, plan, rendered) && FaithfulSnapshot(t, jobs, plan, rendered) && i <= |jobs|
    ensures var t' := RetriesScanned(t, jobs, i, machines, answers, covered);
      Inv(t', plan, rendered) && FaithfulSnapshot(t', jobs, plan, rendered)
    decreases |jobs| - i
  {
    if i < |jobs| {
      assert FaithfulAt(t, i, jobs[i], plan, rendered);
      var (t', covered') := RetryScanned(t, jobs, i, machines, answers(i), covered);
      if Retryable(jobs, jobs[i], machines, covered) {
        FailureHandledKeeps(t, Snapshot(i, jobs[i], machines[jobs[i].machine]), answers(i), plan, rendered);
      }
      SnapshotLasts(t, t', jobs, plan, rendered);
      RetriesKeep(t', jobs, i + 1, machines, answers, covered', plan, rendered);
    }
  }

  lemma {:induction false} TerminalsKeep(t: Table, jobs: seq<Job>, i: nat, group: Status,
                                         plan: seq<FD.Assignment>, rendered: set<int>)
    requires Inv(t, plan, rendered) && FaithfulSnapshot(t, jobs, plan, rendered) && i <= |jobs|
    requires group.Failed? || group.Cancelled?
    ensures Inv(TerminalsScanned(t, jobs, i, group), plan, rendered)
    decreases |jobs| - i
  {
    if i < |jobs| {
      assert FaithfulAt(t, i, jobs[i], plan, rendered);
      SetStatusKeeps(t, i, group, plan, rendered);
      if jobs[i].IsCompleteByFrames() {
        DoneKeeps(t, i, jobs[i], jobs[i].total, plan, rendered);
      }
      var t' := TerminalScanned(t, i, jobs[i], group);
      SnapshotLasts(t, t', jobs, plan, rendered);
      TerminalsKeep(t', jobs, i + 1, group, plan, rendered);
    }
  }

  /** A whole tick keeps the invariant, even when its snapshot of the rows is out of date. */
  lemma TickKeeps(t: Table, jobs: seq<Job>, machines: Machines, stuck: nat -> bool, offline: nat -> bool,
                  desktopAnswers: nat -> Answers, retryAnswers: nat -> Answers,
                  plan: seq<FD.Assignment>, rendered: set<int>)
    requires Inv(t, plan, rendered) && FaithfulSnapshot(t, jobs, plan, rendered)
    ensures Inv(Ticked(t, jobs, machines, stuck, offline, desktopAnswers, retryAnswers), plan, rendered)
  {
    var t1 := OrphansScanned(t, jobs, 0, machines, stuck);
    OrphansKeep(t, jobs, 0, machines, stuck, plan, rendered);
    DesktopsKeep(t1, jobs, 0, machines, offline, desktopAnswers, plan, rendered);
    var t2 := DesktopsScanned(t1, jobs, 0, machines, offline, desktopAnswers);
    RetriesKeep(t2, jobs, 0, machines, retryAnswers, CoveredBy(jobs, |jobs|), plan, rendered);
  }

  // ---------------------------------------------------------------------------
  // Runs
  // ---------------------------------------------------------------------------

  /** What workers, providers and the scheduler do to one row.  The scanner's passes and the orchestrator act on snapshots. */
  datatype Event =
    | FrameRendered(frame: int)
    | Claim(id: nat)
    | Report(id: nat, read: Job, rendered: nat, total: Option<nat>)
    | Finish(id: nat, read: Job)
    | ReportFailure(id: nat, read: Job, kind: FD.MachineType, answers: Answers)
    | BlockedFailure(id: nat, read: Job)
    | Register(id: nat, read: Job, files: nat)
    | LateDone(id: nat, read: Job, files: nat)
    | HandleFailure(snapshot: Snapshot, answers: Answers)
    | MarkComplete(id: nat, seen: Job)
    | GiveUp(id: nat, status: Status)

  /** The table, the frames whose output exists, and every row version anybody may have read. */
  datatype World = World(table: Table, rendered: set<int>, seen: set<(nat, Job)>)

  ghost function Versions(t: Table): set<(nat, Job)> {
    set i | 0 <= i < |t.rows| :: (i, t.rows[i])
  }

  /** Every event but a rendered frame and a claim acts on some version of the row that was read at any earlier moment.  The
      only assumption about workers is what their reports say of the row at the moment they are stored. */
  ghost predicate Enabled(w: World, e: Event, plan: seq<FD.Assignment>) {
    match e
    case FrameRendered(_) => true
    case Claim(_) => true
    case Report(id, v, n, total) =>
      (id, v) in w.seen && (v.Active() ==> RenderedUpTo(w.table, id, CountsAfter(v, n, total).1, plan, w.rendered))
    case Finish(id, v) => (id, v) in w.seen && (v.Active() ==> TrulyFinished(w.table, id, w.rendered))
    case ReportFailure(id, v, _, _) =>
      (id, v) in w.seen && (v.Active() ==> RenderedUpTo(w.table, id, v.rendered, plan, w.rendered))
    case BlockedFailure(id, v) =>
      (id, v) in w.seen && (v.Active() ==> RenderedUpTo(w.table, id, v.rendered, plan, w.rendered))
    case Register(id, v, files) => (id, v) in w.seen && RegistrationHolds(w.table, id, v, files, plan, w.rendered)
    case LateDone(id, v, files) =>
      (id, v) in w.seen && (!v.Active() && IsEvidence(v, files) ==> TrulyFinished(w.table, id, w.rendered))
    case HandleFailure(s, _) => (s.id, s.row) in w.seen
    case MarkComplete(id, v) => (id, v) in w.seen && v.IsCompleteByFrames()
    case GiveUp(_, status) => status.Failed? || status.Cancelled?
  }

  ghost function Changed(t: Table, e: Event): Table {
    match e
    case FrameRendered(_) => t
    case Claim(id) => Claimed(t, id)
    case Report(id, v, n, total) => ProgressStored(t, id, v, n, total)
    case Finish(id, v) => FinishStored(t, id, v)
    case ReportFailure(id, v, kind, a) => FailureStoredAndHandled(t, id, v, kind, a)
    case BlockedFailure(id, v) => FailureStored(t, id, v)
    case Register(id, v, files) => Registered(t, id, v, files)
    case LateDone(id, v, files) => LateDoneStored(t, id, v, files)
    case HandleFailure(s, a) => FailureHandled(t, s, a).0
    case MarkComplete(id, v) => Completed(t, id, if v.total >= 0 then v.total else 0)
    case GiveUp(id, status) => SetStatus(t, id, status)
  }

  ghost function Next(w: World, e: Event): World {
    var t' := Changed(w.table, e);
    World(t', if e.FrameRendered? then w.rendered + {e.frame} else w.rendered, w.seen + Versions(t'))
  }

  ghost predicate Runs(w: World, events: seq<Event>, plan: seq<FD.Assignment>)
    decreases |events|
  {
    events == [] || (Enabled(w, events[0], plan) && Runs(Next(w, events[0]), events[1..], plan))
  }

  ghost function After(w: World, events: seq<Event>): World
    decreases |events|
  {
    if events == [] then w else After(Next(w, events[0]), events[1..])
  }

  ghost predicate WorldInv(w: World, plan: seq<FD.Assignment>) {
    && Inv(w.table, plan, w.rendered)
    && (forall i, v :: (i, v) in w.seen ==> FaithfulAt(w.table, i, v, plan, w.rendered))
  }

  lemma ChangeKeeps(w: World, e: Event, plan: seq<FD.Assignment>)
    requires WorldInv(w, plan) && Enabled(w, e, plan)
    ensures Inv(Changed(w.table, e), plan, w.rendered) && Extends(w.table, Changed(w.table, e))
  {
    var t := w.table;
    hide Registered, Recovered, FailureHandled, SetStatus, Completed, Faithful, PlannedCall,
      RenderedUpTo, TrulyFinished, RegistrationHolds, CountWithFiles, CountsAfter;
    match e
    case FrameRendered(_) =>
    case Claim(id) => SetStatusKeeps(t, id, Running, plan, w.rendered);
    case Report(id, v, n, total) => if v.Active() { ProgressKeepsIff(t, id, v, n, total, plan, w.rendered); }
    case Finish(id, v) => if v.Active() { FinishKeepsIff(t, id, v, plan, w.rendered); }
    case ReportFailure(id, v, kind, a) => FailureReportKeeps(t, id, v, kind, a, plan, w.rendered);
    case BlockedFailure(id, v) => if v.Active() { FailureKeepsIff(t, id, v, plan, w.rendered); }
    case Register(id, v, files) =>
      RegisterKeepsIff(t, id, v, files, plan, w.rendered);
    case LateDone(id, v, files) =>
      if !v.Active() && IsEvidence(v, files) { RecoveredKeepsIff(t, id, v, plan, w.rendered); }
    case HandleFailure(s, a) => FailureHandledKeeps(t, s, a, plan, w.rendered);
    case MarkComplete(id, v) => DoneKeeps(t, id, v, v.total, plan, w.rendered);
    case GiveUp(id, status) => SetStatusKeeps(t, id, status, plan, w.rendered);
  }

  lemma NextKeeps(w: World, e: Event, plan: seq<FD.Assignment>)
    requires WorldInv(w, plan) && Enabled(w, e, plan)
    ensures WorldInv(Next(w, e), plan) && Extends(w.table, Next(w, e).table)
  {
    ChangeKeeps(w, e, plan);
    var w' := Next(w, e);
    assert w.rendered <= w'.rendered;
    forall i | 0 <= i < |w'.table.rows| ensures FaithfulAt(w'.table, i, w'.table.rows[i], plan, w'.rendered) {
      assert FaithfulAt(w'.table, i, w'.table.rows[i], plan, w.rendered);
    }
    forall k | 0 <= k < |w'.table.calls| ensures PlannedCall(w'.table, w'.table.calls[k], plan) {
    }
    forall i, v | (i, v) in w'.seen ensures FaithfulAt(w'.table, i, v, plan, w'.rendered) {
      if (i, v) in w.seen {
        FaithfulLasts(w.table, w'.table, i, v, plan, w.rendered, w'.rendered);
      }
    }
  }

  lemma {:induction false} RunKeeps(w: World, events: seq<Event>, plan: seq<FD.Assignment>)
    requires WorldInv(w, plan) && Runs(w, events, plan)
    ensures WorldInv(After(w, events), plan)
    ensures Extends(w.table, After(w, events).table)
    decreases |events|
  {
    if events != [] {
      NextKeeps(w, events[0], plan);
      RunKeeps(Next(w, events[0]), events[1..], plan);
    }
  }

  // ---------------------------------------------------------------------------
  // Dispatching a plan establishes it
  // ---------------------------------------------------------------------------

  lemma {:induction false} DispatchKeeps(t: Table, tasks: seq<FD.PlannedTask>, from: nat, maxRetries: nat,
                                         plan: seq<FD.Assignment>)
    requires plan == Shares(tasks) && Stepped(plan) && Exact(plan)
    requires forall i :: 0 <= i < |tasks| ==> tasks[i].chunkIndex == i
    requires Inv(t, plan, {}) && from <= |tasks| && |t.rows| == from
    requires forall i :: 0 <= i < from ==> t.rows[i].chunkIndex == i
    ensures (forall i :: 0 <= i < |tasks| - from ==> tasks[from..][i].share.frameStep >= 1)
    ensures var t' := DispatchedAll(t, tasks[from..], maxRetries);
      && Inv(t', plan, {})
      && |t'.rows| == |tasks|
      && forall i :: 0 <= i < |tasks| ==> t'.rows[i].chunkIndex == i
    decreases |tasks| - from
  {
    assert forall i :: 0 <= i < |tasks| - from ==> tasks[from..][i].share == plan[from + i];
    if from < |tasks| {
      var c := plan[from];
      var job := Job(c.machine.id, Pending, c.frameStart, c.frameEnd, c.frameStep, 0, c.totalFrames, 0, maxRetries, from);
      AlignedSelf(c.frameStart, c.frameStep);
      FramesLength(c.frameStart, c.frameEnd, c.frameStep);
      FramesBounded(c.frameStart, c.frameEnd, c.frameStep);
      assert job.RemainingStart() == c.frameStart;
      InsertKeeps(t, job, plan, {});
      assert tasks[from..][1..] == tasks[from + 1..];
      DispatchKeeps(Inserted(t, job), tasks, from + 1, maxRetries, plan);
    }
  }

  /** What the invariant says about one planned frame. */
  lemma FrameAccountedFor(t: Table, plan: seq<FD.Assignment>, rendered: set<int>, j: nat, f: int)
    requires Inv(t, plan, rendered) && j < |t.rows|
    requires t.rows[j].chunkIndex < |plan| && plan[t.rows[j].chunkIndex].frameStep >= 1
    requires f in FramesOf(plan[t.rows[j].chunkIndex])
    ensures f in rendered || (!t.rows[j].status.Done? && f in t.rows[j].RemainingFrames())
  {
    var row := t.rows[j];
    assert FaithfulAt(t, j, row, plan, rendered);
    var c := plan[row.chunkIndex];
    TailAligned(row, t.origins[j], plan, rendered);
    var k: nat :| At(c.frameStart, k, c.frameStep) == row.RemainingStart();
    TailContains(c.frameStart, k, c.frameEnd, c.frameStep, f);
  }

  /** The world right after a plan for the range has been made and dispatched. */
  ghost function Launched(totalFrames: int, start: int, end: int, step: Step, machines: seq<FD.Machine>,
                          round: real -> int, cfg: FD.Config, maxRetries: nat): World
  {
    PlanTiles(totalFrames, start, end, step, machines, round, cfg);
    var tasks := FD.Planned(totalFrames, start, end, step, machines, round, cfg);
    assert forall i :: 0 <= i < |tasks| ==> tasks[i].share == Shares(tasks)[i];
    var t := DispatchedAll(Table([], [], []), tasks, maxRetries);
    World(t, {}, Versions(t))
  }

  lemma LaunchKeeps(totalFrames: int, start: int, end: int, step: Step, machines: seq<FD.Machine>,
                    round: real -> int, cfg: FD.Config, maxRetries: nat)
    ensures var tasks := FD.Planned(totalFrames, start, end, step, machines, round, cfg);
      var w := Launched(totalFrames, start, end, step, machines, round, cfg, maxRetries);
      && WorldInv(w, Shares(tasks))
      && |w.table.rows| == |tasks|
      && forall i :: 0 <= i < |tasks| ==> w.table.rows[i].chunkIndex == i
  {
    PlanTiles(totalFrames, start, end, step, machines, round, cfg);
    var tasks := FD.Planned(totalFrames, start, end, step, machines, round, cfg);
    assert tasks[0..] == tasks;
    DispatchKeeps(Table([], [], []), tasks, 0, maxRetries, Shares(tasks));
  }

  /** Chunk c still has a row, and frame f is rendered or owed by every row of the chunk, none of them done. */
  ghost predicate OwesOrHas(w: World, c: nat, f: int) {
    && (exists j :: 0 <= j < |w.table.rows| && w.table.rows[j].chunkIndex == c)
    && (f in w.rendered
        || forall j :: 0 <= j < |w.table.rows| && w.table.rows[j].chunkIndex == c ==>
             !w.table.rows[j].status.Done? && f in w.table.rows[j].RemainingFrames())
  }

  lemma FrameOwedOrHad(w: World, plan: seq<FD.Assignment>, c: nat, f: int)
    requires WorldInv(w, plan) && Stepped(plan) && c < |plan| && f in FramesOf(plan[c])
    requires c < |w.table.rows| && w.table.rows[c].chunkIndex == c
    ensures OwesOrHas(w, c, f)
  {
    forall j | 0 <= j < |w.table.rows| && w.table.rows[j].chunkIndex == c
      ensures f in w.rendered || (!w.table.rows[j].status.Done? && f in w.table.rows[j].RemainingFrames())
    {
      FrameAccountedFor(w.table, plan, w.rendered, j, f);
    }
  }

  lemma CallStaysInPlan(w: World, plan: seq<FD.Assignment>, call: Call, f: int)
    requires WorldInv(w, plan) && Stepped(plan) && call in w.table.calls
    requires f in Frames(call.frameStart, call.frameEnd, call.frameStep)
    ensures exists c :: 0 <= c < |plan| && f in FramesOf(plan[c])
  {
    var k :| 0 <= k < |w.table.calls| && w.table.calls[k] == call;
    assert PlannedCall(w.table, w.table.calls[k], plan);
    var c := plan[w.table.rows[call.job].chunkIndex];
    var m: nat :| At(c.frameStart, m, c.frameStep) == call.frameStart;
    TailContains(c.frameStart, m, c.frameEnd, c.frameStep, f);
  }

  /** Every frame of the range is rendered or owed, and providers are only asked for frames of the range. */
  ghost predicate AccountsFor(w: World, range: seq<int>) {
    && (forall f :: f in range ==> exists c: nat :: OwesOrHas(w, c, f))
    && (forall call, f :: call in w.table.calls && f in Frames(call.frameStart, call.frameEnd, call.frameStep)
          ==> f in range)
  }

  lemma InvAccounts(w: World, plan: seq<FD.Assignment>, range: seq<int>)
    requires WorldInv(w, plan) && Stepped(plan)
    requires |plan| <= |w.table.rows| && forall i :: 0 <= i < |plan| ==> w.table.rows[i].chunkIndex == i
    requires forall f :: f in range <==> exists c :: 0 <= c < |plan| && f in FramesOf(plan[c])
    ensures AccountsFor(w, range)
  {
    forall f | f in range ensures exists c: nat :: OwesOrHas(w, c, f) {
      var c :| 0 <= c < |plan| && f in FramesOf(plan[c]);
      FrameOwedOrHad(w, plan, c, f);
    }
    forall call, f | call in w.table.calls && f in Frames(call.frameStart, call.frameEnd, call.frameStep)
      ensures f in range
    {
      CallStaysInPlan(w, plan, call, f);
    }
  }

  /** The conservation theorem.  Plan a range on any machines, dispatch it, and let any run of events follow: every
      frame of the range belongs to a chunk that still has a row, and is either rendered or, for EVERY row of that
      chunk, in the tail the row has yet to render - and then none of those rows is done.  The calls made to
      providers never ask for a frame outside the range. */
  lemma NothingIsLost(totalFrames: int, start: int, end: int, step: Step, machines: seq<FD.Machine>,
                      round: real -> int, cfg: FD.Config, maxRetries: nat, events: seq<Event>)
    requires machines != []
    requires Runs(Launched(totalFrames, start, end, step, machines, round, cfg, maxRetries), events,
                  Shares(FD.Planned(totalFrames, start, end, step, machines, round, cfg)))
    ensures AccountsFor(After(Launched(totalFrames, start, end, step, machines, round, cfg, maxRetries), events),
                        Frames(start, end, step))
  {
    var plan := Shares(FD.Planned(totalFrames, start, end, step, machines, round, cfg));
    var w0 := Launched(totalFrames, start, end, step, machines, round, cfg, maxRetries);
    PlanTiles(totalFrames, start, end, step, machines, round, cfg);
    PlanPartitions(totalFrames, start, end, step, machines, round, cfg);
    LaunchKeeps(totalFrames, start, end, step, machines, round, cfg, maxRetries);
    RunKeeps(w0, events, plan);
    InvAccounts(After(w0, events), plan, Frames(start, end, step));
  }

  // ---------------------------------------------------------------------------
  // Why reports must be about the row's current range
  // ---------------------------------------------------------------------------

  /** A worker that outlives a retry and keeps counting from the old start makes the scheduler mark a row done
      whose last frames nobody rendered: rows 1..10, four rendered, retried from 5; the old worker reports six. */
  lemma OutlivedWorkerLosesFrames(a: Answers, kind: FD.MachineType)
    requires !a.retryThrows
    ensures var row := Job("m", Running, 1, 10, 1, 4, 10, 0, 1, 0);
      var t1 := FailureHandled(Table([row], [], [1]), Snapshot(0, row, kind), a).0;
      var t2 := Progressed(t1, 0, 6, None);
      var t3 := FailureHandled(t2, Snapshot(0, t2.rows[0], kind), a).0;
      && t1.rows[0].Remaining() == Some((5, 10))
      && |t3.rows| == 1 && t3.rows[0].status.Done?
      && t3.calls == [Call(0, 5, 10, 1)]
  {
  }
}
