/** What the scheduler does with failures, stated on the rows: retries are used up first, then the job moves on once; and with
    help the passes of the scanner leave a live row on every tail they may take. */
module Retries {
  import opened RenderJobs
  import opened Fleet
  import opened Scanner
  import opened RetryBound
  import opened RowGrowth
  import opened GroupStatus
  import FD = FrameDistribution

  // ---------------------------------------------------------------------------
  // One row failing again and again
  // ---------------------------------------------------------------------------

  /** The table after n failures of one row, each handled on the row as it is then. */
  ghost function AfterFailures(t: Table, id: nat, kind: FD.MachineType, answers: nat -> Answers, n: nat): Table {
    if n == 0 then t
    else
      var before := AfterFailures(t, id, kind, answers, n - 1);
      if id >= |before.rows| then before
      else FailureHandled(before, Snapshot(id, before.rows[id], kind), answers(n - 1)).0
  }

  /** As long as attempts are left and retries do not throw, every failure is a retry: the row is pending again from its first
      unrendered frame, with one attempt more; there is one dispatch of that tail for each failure, and no other row. */
  lemma {:induction false} RetriesComeFirst(t: Table, id: nat, kind: FD.MachineType, answers: nat -> Answers, n: nat)
    requires id < |t.rows| && t.rows[id].attempt + n <= t.rows[id].maxRetries
    requires t.rows[id].frameStart + t.rows[id].rendered * t.rows[id].frameStep <= t.rows[id].frameEnd
    requires forall k: nat :: k < n ==> !answers(k).retryThrows
    ensures var row, t' := t.rows[id], AfterFailures(t, id, kind, answers, n);
      var start := row.frameStart + row.rendered * row.frameStep;
      && |t'.rows| == |t.rows| && (forall j :: 0 <= j < |t.rows| && j != id ==> t'.rows[j] == t.rows[j])
      && (n > 0 ==>
            t'.rows[id] == row.(status := Pending, attempt := row.attempt + n, rendered := 0, frameStart := start))
      && |t'.calls| == |t.calls| + n && t.calls <= t'.calls
      && (forall k :: |t.calls| <= k < |t'.calls| ==> t'.calls[k] == Call(id, start, row.frameEnd, row.frameStep))
  {
    if n > 0 {
      RetriesComeFirst(t, id, kind, answers, n - 1);
      var before := AfterFailures(t, id, kind, answers, n - 1);
      assert before.rows[id].RemainingStart() == t.rows[id].frameStart + t.rows[id].rendered * t.rows[id].frameStep;
      OneRetry(before, id, kind, answers(n - 1));
    }
  }

  lemma OneRetry(t: Table, id: nat, kind: FD.MachineType, a: Answers)
    requires id < |t.rows| && t.rows[id].attempt < t.rows[id].maxRetries && !a.retryThrows
    requires t.rows[id].RemainingStart() <= t.rows[id].frameEnd
    ensures var row, t' := t.rows[id], FailureHandled(t, Snapshot(id, t.rows[id], kind), a).0;
      && t'.rows == t.rows[id := row.(status := Pending, attempt := row.attempt + 1, rendered := 0,
                                      frameStart := row.RemainingStart())]
      && t'.calls == t.calls + [Call(id, row.RemainingStart(), row.frameEnd, row.frameStep)]
  {
    hide HandedOver;
  }

  /** There is a machine the job may go to: another one, and not Modal if the job was on a serverless machine. */
  ghost predicate SomewhereToGo(candidates: seq<FD.Machine>, row: Job, kind: FD.MachineType) {
    exists m :: m in candidates && m.id != row.machine && (m.kind.ModalServerless? ==> kind.Desktop?)
  }

  /** What moving on is: the row is failed, and one new row with the whole tail, fresh attempts and an exact total is dispatched
      to a machine from the list. */
  ghost predicate MovesOn(t: Table, t': Table, id: nat, a: Answers)
    requires id < |t.rows|
  {
    var row, start := t.rows[id], t.rows[id].frameStart + t.rows[id].rendered * t.rows[id].frameStep;
    && |t'.rows| == |t.rows| + 1 && t'.rows[..|t.rows|] == t.rows[id := row.(status := Failed)]
    && var heir := t'.rows[|t.rows|];
       && (exists m :: m in a.candidates && m.id != row.machine && heir.machine == m.id)
       && heir == Job(heir.machine, if a.failoverThrows then Failed else Pending, start, row.frameEnd, row.frameStep, 0,
                      (row.frameEnd - start) / row.frameStep + 1, 0, row.maxRetries, row.chunkIndex)
       && t'.calls == t.calls + [Call(|t.rows|, start, row.frameEnd, row.frameStep)]
  }

  lemma FailedOverMovesOn(t: Table, id: nat, kind: FD.MachineType, a: Answers, m: FD.Machine)
    requires id < |t.rows| && m in a.candidates && m.id != t.rows[id].machine
    ensures MovesOn(t, FailedOver(t, Snapshot(id, t.rows[id], kind), m, a.failoverThrows), id, a)
  {
    var t' := FailedOver(t, Snapshot(id, t.rows[id], kind), m, a.failoverThrows);
    assert t'.rows[..|t.rows|] == t.rows[id := t.rows[id].(status := Failed)];
  }

  lemma ChosenIff(candidates: seq<FD.Machine>, row: Job, kind: FD.MachineType)
    ensures var r := ChooseFailover(candidates, row.machine, kind);
      && (r.Some? <==> SomewhereToGo(candidates, row, kind))
      && (r.Some? ==> r.value in candidates && r.value.id != row.machine)
  {
    FailoverPreference(candidates, row.machine, kind);
  }

  /** With no attempts left a failure moves the job on, if there is somewhere to go.  Otherwise the row is failed and that is
      all. */
  lemma ThenItMovesOn(t: Table, id: nat, kind: FD.MachineType, a: Answers)
    requires id < |t.rows| && t.rows[id].attempt >= t.rows[id].maxRetries
    requires t.rows[id].frameStart + t.rows[id].rendered * t.rows[id].frameStep <= t.rows[id].frameEnd
    ensures var row, t' := t.rows[id], FailureHandled(t, Snapshot(id, t.rows[id], kind), a).0;
      if SomewhereToGo(a.candidates, row, kind) then MovesOn(t, t', id, a)
      else t'.rows == t.rows[id := row.(status := Failed)] && t'.calls == t.calls
  {
    var row := t.rows[id];
    hide ChooseFailover, MovesOn, FailedOver, SomewhereToGo;
    ChosenIff(a.candidates, row, kind);
    assert row.RemainingStart() <= row.frameEnd;
    var choice := ChooseFailover(a.candidates, row.machine, kind);
    if choice.Some? { FailedOverMovesOn(t, id, kind, a, choice.value); }
  }

  /** Both together: with m retries of which none throws, failures 1 to m are retries of the same row, and failure m + 1 moves
      the job on or ends it. */
  lemma EveryRetryIsUsed(t: Table, id: nat, kind: FD.MachineType, answers: nat -> Answers)
    requires id < |t.rows| && t.rows[id].attempt == 0
    requires t.rows[id].frameStart + t.rows[id].rendered * t.rows[id].frameStep <= t.rows[id].frameEnd
    requires forall k: nat :: k < t.rows[id].maxRetries ==> !answers(k).retryThrows
    ensures var m := t.rows[id].maxRetries;
      var last := AfterFailures(t, id, kind, answers, m);
      var t' := AfterFailures(t, id, kind, answers, m + 1);
      && |last.rows| == |t.rows| && last.rows[id].attempt == m && |last.calls| == |t.calls| + m
      && (m > 0 ==> last.rows[id].status.Pending?)
      && if SomewhereToGo(answers(m).candidates, t.rows[id], kind) then MovesOn(last, t', id, answers(m))
         else t'.rows == last.rows[id := last.rows[id].(status := Failed)] && t'.calls == last.calls
  {
    var m := t.rows[id].maxRetries;
    RetriesComeFirst(t, id, kind, answers, m);
    var last := AfterFailures(t, id, kind, answers, m);
    assert 0 * t.rows[id].frameStep == 0;
    hide FailureHandled, MovesOn;
    ThenItMovesOn(last, id, kind, answers(m));
  }

  /** Which machine it is: the first one listed of the kind that is chosen. */
  lemma FirstIsTaken(candidates: seq<FD.Machine>, failed: string, kind: FD.MachineType)
    ensures var r := ChooseFailover(candidates, failed, kind);
      r.Some? ==> FirstSuch(candidates, failed, r.value)
  {
    var pool := Others(candidates, failed);
    if pool != [] {
      KindOfKind(pool, true, true, false, true, false, false);
      KindOfKind(pool, true, true, false, true, false, true);
      AllOfKind(pool);
      hide OfKind, Others;
      FirstOf(candidates, failed, true, false, false);
      FirstOf(candidates, failed, true, true, false);
      FirstOf(candidates, failed, true, true, true);
      FirstOf(candidates, failed, false, false, true);
      FirstOf(candidates, failed, true, false, true);
    }
  }

  /** The first candidate of its kind that is not the failed machine. */
  ghost predicate FirstSuch(candidates: seq<FD.Machine>, failed: string, m: FD.Machine) {
    exists i :: 0 <= i < |candidates| && candidates[i] == m
      && forall j :: 0 <= j < i ==> candidates[j].id == failed || !SameKind(candidates[j], m)
  }

  predicate SameKind(a: FD.Machine, b: FD.Machine) {
    a.kind.ModalServerless? == b.kind.ModalServerless? && a.kind.VastServerless? == b.kind.VastServerless?
  }

  lemma {:induction false} AllOfKind(pool: seq<FD.Machine>)
    ensures OfKind(pool, true, true, true) == pool
  {
    if pool != [] { AllOfKind(pool[1..]); }
  }

  lemma OfKindStep(x: FD.Machine, rest: seq<FD.Machine>, v: bool, m: bool, d: bool)
    ensures OfKind([x] + rest, v, m, d)
      == if KindIn(x, v, m, d) then [x] + OfKind(rest, v, m, d) else OfKind(rest, v, m, d)
  {
    assert ([x] + rest)[1..] == rest;
    assert [] + OfKind(rest, v, m, d) == OfKind(rest, v, m, d);
  }

  lemma OthersStep(x: FD.Machine, rest: seq<FD.Machine>, failed: string)
    ensures Others([x] + rest, failed) == if x.id != failed then [x] + Others(rest, failed) else Others(rest, failed)
  {
    assert ([x] + rest)[1..] == rest;
    assert [] + Others(rest, failed) == Others(rest, failed);
  }

  /** Selecting twice is selecting what both select. */
  lemma {:induction false} KindOfKind(pool: seq<FD.Machine>, v: bool, m: bool, d: bool, v': bool, m': bool, d': bool)
    ensures OfKind(OfKind(pool, v, m, d), v', m', d') == OfKind(pool, v && v', m && m', d && d')
  {
    if pool != [] {
      var x, rest := pool[0], pool[1..];
      assert pool == [x] + rest;
      KindOfKind(rest, v, m, d, v', m', d');
      hide OfKind;
      OfKindStep(x, rest, v, m, d);
      OfKindStep(x, OfKind(rest, v, m, d), v', m', d');
      OfKindStep(x, rest, v && v', m && m', d && d');
    }
  }

  /** The first of some kinds among the others comes before every other such candidate. */
  lemma FirstOf(candidates: seq<FD.Machine>, failed: string, v: bool, m: bool, d: bool)
    ensures var chosen := OfKind(Others(candidates, failed), v, m, d);
      chosen != [] ==> FirstIn(candidates, failed, v, m, d, chosen[0])
  {
    if OfKind(Others(candidates, failed), v, m, d) != [] {
      var i := WhereFirst(candidates, failed, v, m, d);
    }
  }

  ghost predicate FirstIn(candidates: seq<FD.Machine>, failed: string, v: bool, m: bool, d: bool, x: FD.Machine) {
    exists i :: 0 <= i < |candidates| && candidates[i] == x
      && forall j :: 0 <= j < i ==> candidates[j].id == failed || !KindIn(candidates[j], v, m, d)
  }

  lemma {:induction false} WhereFirst(candidates: seq<FD.Machine>, failed: string, v: bool, m: bool, d: bool) returns (i: nat)
    requires OfKind(Others(candidates, failed), v, m, d) != []
    ensures i < |candidates| && candidates[i] == OfKind(Others(candidates, failed), v, m, d)[0]
    ensures forall j :: 0 <= j < i ==> candidates[j].id == failed || !KindIn(candidates[j], v, m, d)
  {
    hide OfKind, Others, KindIn;
    NoneOfNone(failed, v, m, d);
    var x, rest := candidates[0], candidates[1..];
    assert candidates == [x] + rest;
    OthersStep(x, rest, failed);
    OfKindStep(x, Others(rest, failed), v, m, d);
    if x.id != failed && KindIn(x, v, m, d) {
      i := 0;
    } else {
      var k := WhereFirst(rest, failed, v, m, d);
      i := k + 1;
      forall j | 0 <= j < i ensures candidates[j].id == failed || !KindIn(candidates[j], v, m, d) {
        if j > 0 { assert candidates[j] == rest[j - 1]; }
      }
    }
  }

  lemma NoneOfNone(failed: string, v: bool, m: bool, d: bool)
    ensures OfKind(Others([], failed), v, m, d) == []
  {
  }

  // ---------------------------------------------------------------------------
  // The retry pass takes every tail
  // ---------------------------------------------------------------------------

  /** The retry dispatch works, and so does the dispatch to another machine, of which there is one. */
  ghost predicate Helpful(a: Answers, row: Job, kind: FD.MachineType) {
    !a.retryThrows && !a.failoverThrows && SomewhereToGo(a.candidates, row, kind)
  }

  /** Some row that has not failed has this range. */
  ghost predicate Alive(rows: seq<Job>, range: Span) {
    exists r :: 0 <= r < |rows| && !rows[r].status.Failed? && (rows[r].frameStart, rows[r].frameEnd) == range
  }

  /** The failed rows of a range among some rows. */
  function FailuresOf(rows: seq<Job>, range: Span): nat {
    if rows == [] then 0
    else FailuresOf(rows[..|rows| - 1], range)
         + (if rows[|rows| - 1].status.Failed? && (rows[|rows| - 1].frameStart, rows[|rows| - 1].frameEnd) == range then 1 else 0)
  }

  lemma {:induction false} FailuresAreCounted(jobs: seq<Job>, n: nat, range: Span)
    requires n <= |jobs|
    ensures FailedOn(jobs, n, range) == FailuresOf(jobs[..n], range)
  {
    if n > 0 {
      FailuresAreCounted(jobs, n - 1, range);
      assert jobs[..n][..n - 1] == jobs[..n - 1];
    }
  }

  /** Row r has not failed and has this range. */
  predicate IsLive(rows: seq<Job>, r: nat, range: Span) {
    r < |rows| && !rows[r].status.Failed? && (rows[r].frameStart, rows[r].frameEnd) == range
  }

  /** A handled failure with help leaves a live row on exactly the tail: the failed row itself, or a new one. */
  lemma HelpMakesAlive(t: Table, s: Snapshot, a: Answers)
    requires s.id < |t.rows| && t.rows[s.id].frameEnd == s.row.frameEnd
    requires s.row.Remaining().Some? && Helpful(a, s.row, s.kind)
    ensures var (t', result) := FailureHandled(t, s, a);
      && result.Some? && IsLive(t'.rows, result.value, s.row.Remaining().value)
      && (result.value == s.id || result.value == |t.rows|)
      && |t'.rows| >= |t.rows| && forall j :: 0 <= j < |t.rows| && j != s.id ==> t'.rows[j] == t.rows[j]
  {
    FailoverPreference(a.candidates, s.row.machine, s.kind);
    hide ChooseFailover;
    var m :| m in a.candidates && m.id != s.row.machine && (m.kind.ModalServerless? ==> s.kind.Desktop?);
  }

  /** Live rows of ranges that are covered, between two rows of the pass. */
  ghost predicate CoveredAlive(t: Table, jobs: seq<Job>, i: nat, covered: set<Span>) {
    && i <= |jobs| <= |t.rows|
    && (forall k :: i <= k < |jobs| ==> t.rows[k] == jobs[k])
    && (forall range :: range in covered ==> Alive(t.rows, range))
  }

  lemma LiveIsAlive(rows: seq<Job>, r: nat, range: Span)
    requires IsLive(rows, r, range)
    ensures Alive(rows, range)
  {
    assert !rows[r].status.Failed? && (rows[r].frameStart, rows[r].frameEnd) == range;
  }

  lemma AliveStays(t: Table, t': Table, i: nat, range: Span)
    requires |t'.rows| >= |t.rows| && i < |t.rows| && t.rows[i].status.Failed? && Alive(t.rows, range)
    requires forall j :: 0 <= j < |t.rows| && j != i ==> t'.rows[j] == t.rows[j]
    ensures Alive(t'.rows, range)
  {
    var r :| 0 <= r < |t.rows| && !t.rows[r].status.Failed? && (t.rows[r].frameStart, t.rows[r].frameEnd) == range;
    assert t'.rows[r] == t.rows[r];
  }

  lemma RowTaken(t: Table, jobs: seq<Job>, i: nat, machines: Machines, a: Answers, covered: set<Span>)
    requires i < |jobs| && CoveredAlive(t, jobs, i, covered)
    requires jobs[i].machine in machines ==> Helpful(a, jobs[i], machines[jobs[i].machine])
    ensures var (t', covered') := RetryScanned(t, jobs, i, machines, a, covered);
      && CoveredAlive(t', jobs, i + 1, covered') && covered <= covered'
      && |t'.rows| >= |t.rows| && (forall k :: 0 <= k < |t.rows| && k != i ==> t'.rows[k] == t.rows[k])
      && (!Eligible(jobs, i, machines) ==> t' == t)
      && (Eligible(jobs, i, machines) ==> Tail(jobs[i]) in covered')
  {
    var job := jobs[i];
    if Retryable(jobs, job, machines, covered) {
      var s := Snapshot(i, job, machines[job.machine]);
      HelpMakesAlive(t, s, a);
      hide FailureHandled, Alive, FailedOn;
      var (t', result) := FailureHandled(t, s, a);
      LiveIsAlive(t'.rows, result.value, Tail(job));
      assert job.Remaining().value == Tail(job);
      forall range | range in covered ensures Alive(t'.rows, range) { AliveStays(t, t', i, range); }
    }
  }

  lemma CoveredIsAlive(t: Table, jobs: seq<Job>, i: nat, covered: set<Span>)
    requires CoveredAlive(t, jobs, i, covered)
    ensures i <= |jobs| <= |t.rows| && forall range :: range in covered ==> Alive(t.rows, range)
  {
    hide Alive;
  }

  lemma {:induction false} PassTakes(t: Table, jobs: seq<Job>, i: nat, machines: Machines, answers: nat -> Answers,
                                     covered: set<Span>, k: nat)
    requires CoveredAlive(t, jobs, i, covered) && k < |jobs|
    requires forall n :: i <= n < |jobs| && jobs[n].machine in machines ==>
      Helpful(answers(n), jobs[n], machines[jobs[n].machine])
    requires k < i && Eligible(jobs, k, machines) ==> Tail(jobs[k]) in covered
    ensures var t' := RetriesScanned(t, jobs, i, machines, answers, covered);
      && |t'.rows| >= |t.rows|
      && (Eligible(jobs, k, machines) ==> Alive(t'.rows, Tail(jobs[k])))
      && (!Eligible(jobs, k, machines) || k < i ==> t'.rows[k] == t.rows[k])
    decreases |jobs| - i
  {
    hide RetryScanned, Alive, Eligible, Helpful, CoveredAlive, Tail;
    CoveredIsAlive(t, jobs, i, covered);
    if i < |jobs| {
      RowTaken(t, jobs, i, machines, answers(i), covered);
      var (t', covered') := RetryScanned(t, jobs, i, machines, answers(i), covered);
      PassTakes(t', jobs, i + 1, machines, answers, covered', k);
    }
  }

  /** A serverless row that failed with frames left, on a range that failed fewer than five times. */
  predicate MayBeRetried(rows: seq<Job>, k: nat, machines: Machines)
    requires k < |rows|
  {
    var row := rows[k];
    && row.status.Failed? && row.machine in machines && !machines[row.machine].Desktop?
    && row.frameStart + row.rendered * row.frameStep <= row.frameEnd
    && FailuresOf(rows, (row.frameStart, row.frameEnd)) < 5
  }

  /** With help the retry pass leaves a live row on the tail of every row that may be retried, and no other row is touched. */
  lemma EveryTailIsTaken(t: Table, machines: Machines, answers: nat -> Answers, k: nat)
    requires k < |t.rows|
    requires forall n :: 0 <= n < |t.rows| && t.rows[n].machine in machines ==>
      Helpful(answers(n), t.rows[n], machines[t.rows[n].machine])
    ensures var row := t.rows[k];
      var t' := RetriesScanned(t, t.rows, 0, machines, answers, CoveredBy(t.rows, |t.rows|));
      && |t'.rows| >= |t.rows|
      && (MayBeRetried(t.rows, k, machines) ==>
            Alive(t'.rows, (row.frameStart + row.rendered * row.frameStep, row.frameEnd)))
      && (!MayBeRetried(t.rows, k, machines) ==> t'.rows[k] == row)
  {
    var jobs, row := t.rows, t.rows[k];
    forall range | range in CoveredBy(jobs, |jobs|) ensures Alive(t.rows, range) {
      var i :| 0 <= i < |jobs| && !jobs[i].status.Failed? && Range(jobs[i]) == range;
      assert (t.rows[i].frameStart, t.rows[i].frameEnd) == range;
    }
    FailuresAreCounted(jobs, |jobs|, (row.frameStart, row.frameEnd));
    assert jobs[..|jobs|] == jobs;
    assert Eligible(jobs, k, machines) <==> MayBeRetried(jobs, k, machines);
    hide Helpful, Alive, Eligible, MayBeRetried, CoveredBy;
    PassTakes(t, jobs, 0, machines, answers, CoveredBy(jobs, |jobs|), k);
  }

  // ---------------------------------------------------------------------------
  // Offline desktops: every tail is taken
  // ---------------------------------------------------------------------------

  /** The rest of the pass leaves alone the rows it is past, and the new ones. */
  lemma {:induction false} DesktopsLeave(t: Table, jobs: seq<Job>, i: nat, machines: Machines, offline: nat -> bool,
                                         answers: nat -> Answers, r: nat)
    requires i <= |jobs| <= |t.rows| && r < |t.rows| && (r < i || r >= |jobs|)
    ensures var t' := DesktopsScanned(t, jobs, i, machines, offline, answers); |t'.rows| >= |t.rows| && t'.rows[r] == t.rows[r]
    decreases |jobs| - i
  {
    if i < |jobs| {
      DesktopTouchesOnly(t, i, jobs[i], machines, offline(i), answers(i), r);
      hide DesktopScanned;
      DesktopsLeave(DesktopScanned(t, i, jobs[i], machines, offline(i), answers(i)), jobs, i + 1, machines, offline, answers, r);
    }
  }

  lemma DesktopTouchesOnly(t: Table, i: nat, job: Job, machines: Machines, offline: bool, a: Answers, r: nat)
    requires i < |t.rows| && r < |t.rows| && r != i
    ensures var t' := DesktopScanned(t, i, job, machines, offline, a); |t'.rows| >= |t.rows| && t'.rows[r] == t.rows[r]
  {
    if OnDesktop(job, machines) {
      FailureTouchesOnly(SetStatus(t, i, Failed), Snapshot(i, job, machines[job.machine]), a, r);
      hide FailureHandled;
    }
  }

  /** A row that a desktop gone offline left running. */
  predicate IsAbandoned(row: Job, machines: Machines, offline: bool) {
    row.status.Running? && row.machine in machines && machines[row.machine].Desktop? && offline
  }

  lemma AbandonedRow(t: Table, i: nat, machines: Machines, a: Answers)
    requires i < |t.rows| && IsAbandoned(t.rows[i], machines, true) && Helpful(a, t.rows[i], machines[t.rows[i].machine])
    ensures var row, t' := t.rows[i], DesktopScanned(t, i, t.rows[i], machines, true, a);
      && |t'.rows| >= |t.rows|
      && match row.Remaining()
         case None => t'.rows[i] == row.(status := Failed)
         case Some(tail) => exists r :: (r == i || r == |t.rows|) && IsLive(t'.rows, r, tail)
  {
    hide FailureHandled, Helpful, IsLive;
    if t.rows[i].Remaining().Some? {
      HelpMakesAlive(SetStatus(t, i, Failed), Snapshot(i, t.rows[i], machines[t.rows[i].machine]), a);
    }
  }

  lemma {:induction false} AbandonedTaken(t: Table, jobs: seq<Job>, i: nat, machines: Machines, offline: nat -> bool,
                                          answers: nat -> Answers, k: nat)
    requires i <= k < |jobs| <= |t.rows| && t.rows[k] == jobs[k] && IsAbandoned(jobs[k], machines, offline(k))
    requires Helpful(answers(k), jobs[k], machines[jobs[k].machine])
    ensures var row, t' := jobs[k], DesktopsScanned(t, jobs, i, machines, offline, answers);
      && |t'.rows| >= |t.rows|
      && match row.Remaining()
         case None => t'.rows[k] == row.(status := Failed)
         case Some(tail) => exists r :: 0 <= r < |t'.rows| && IsLive(t'.rows, r, tail)
    decreases k - i
  {
    hide DesktopScanned, Helpful, IsAbandoned, IsLive;
    var t1 := DesktopScanned(t, i, jobs[i], machines, offline(i), answers(i));
    if i < k {
      DesktopTouchesOnly(t, i, jobs[i], machines, offline(i), answers(i), k);
      AbandonedTaken(t1, jobs, i + 1, machines, offline, answers, k);
    } else {
      AbandonedLeft(t, jobs, i, machines, offline, answers);
    }
  }

  lemma AbandonedLeft(t: Table, jobs: seq<Job>, i: nat, machines: Machines, offline: nat -> bool, answers: nat -> Answers)
    requires i < |jobs| <= |t.rows| && t.rows[i] == jobs[i] && IsAbandoned(jobs[i], machines, offline(i))
    requires Helpful(answers(i), jobs[i], machines[jobs[i].machine])
    ensures var row, t' := jobs[i], DesktopsScanned(t, jobs, i, machines, offline, answers);
      && |t'.rows| >= |t.rows|
      && match row.Remaining()
         case None => t'.rows[i] == row.(status := Failed)
         case Some(tail) => exists r :: 0 <= r < |t'.rows| && IsLive(t'.rows, r, tail)
  {
    hide DesktopScanned, Helpful;
    var t1 := DesktopScanned(t, i, jobs[i], machines, offline(i), answers(i));
    AbandonedRow(t, i, machines, answers(i));
    match jobs[i].Remaining()
    case None => DesktopsLeave(t1, jobs, i + 1, machines, offline, answers, i);
    case Some(tail) =>
      var r :| (r == i || r == |t.rows|) && IsLive(t1.rows, r, tail);
      DesktopsLeave(t1, jobs, i + 1, machines, offline, answers, r);
      assert IsLive(DesktopsScanned(t1, jobs, i + 1, machines, offline, answers).rows, r, tail);
  }

  /** With help, the pass over desktops leaves a live row on the unrendered tail of every row a desktop gone offline left running;
      one with nothing left is failed. */
  lemma EveryAbandonedTailIsTaken(t: Table, machines: Machines, offline: nat -> bool, answers: nat -> Answers, k: nat)
    requires k < |t.rows| && IsAbandoned(t.rows[k], machines, offline(k))
    requires Helpful(answers(k), t.rows[k], machines[t.rows[k].machine])
    ensures var row, t' := t.rows[k], DesktopsScanned(t, t.rows, 0, machines, offline, answers);
      var start := row.frameStart + row.rendered * row.frameStep;
      && |t'.rows| >= |t.rows|
      && if start > row.frameEnd then t'.rows[k] == row.(status := Failed)
         else exists r :: 0 <= r < |t'.rows| && !t'.rows[r].status.Failed?
                          && (t'.rows[r].frameStart, t'.rows[r].frameEnd) == (start, row.frameEnd)
  {
    AbandonedTaken(t, t.rows, 0, machines, offline, answers, k);
    hide DesktopsScanned, Helpful, IsAbandoned;
    var row := t.rows[k];
    var rows := DesktopsScanned(t, t.rows, 0, machines, offline, answers).rows;
    assert row.RemainingStart() == row.frameStart + row.rendered * row.frameStep;
    if row.Remaining().Some? {
      var r :| 0 <= r < |rows| && IsLive(rows, r, row.Remaining().value);
      assert !rows[r].status.Failed?;
    }
  }
}
