/** The status of a render group as it is recomputed from its rows, and which passes leave done rows alone. */
module GroupStatus {
  import opened RenderJobs
  import opened Fleet
  import opened Scanner
  import FD = FrameDistribution

  datatype Group = GroupPending | GroupRunning | GroupDone | GroupFailed | GroupCancelled

  function Statuses(rows: seq<Job>): (r: seq<Status>)
    ensures |r| == |rows| && forall i :: 0 <= i < |rows| ==> r[i] == rows[i].status
  {
    seq(|rows|, i requires 0 <= i < |rows| => rows[i].status)
  }

  predicate AnyIs(statuses: seq<Status>, s: Status) { exists i :: 0 <= i < |statuses| && statuses[i] == s }

  predicate AllAre(statuses: seq<Status>, s: Status) {
    statuses != [] && forall i :: 0 <= i < |statuses| ==> statuses[i] == s
  }

  predicate NoneActive(statuses: seq<Status>) { !AnyIs(statuses, Pending) && !AnyIs(statuses, Running) }

  predicate AllFramesRendered(totalFrames: int, totalRendered: int) {
    totalFrames > 0 && totalRendered >= totalFrames
  }

  /** compute_group_status: the new status and whether to store it. */
  function ComputeGroupStatus(current: Group, statuses: seq<Status>, totalFrames: int, totalRendered: int): (Group, bool) {
    var complete := NoneActive(statuses) && AnyIs(statuses, Done) && AllFramesRendered(totalFrames, totalRendered);
    if current.GroupCancelled? || current.GroupFailed? then
      if complete then (GroupDone, true) else (current, false)
    else if AllAre(statuses, Done) || complete then (GroupDone, !current.GroupDone?)
    else if AnyIs(statuses, Running) then (GroupRunning, current.GroupPending?)
    else if NoneActive(statuses) && AllAre(statuses, Failed) then (GroupFailed, true)
    else (current, false)
  }

  /** While a row is active the group is never stored as done or failed; what is stored is running over pending, and that as
      soon as a row is running. */
  lemma ActiveRowsKeepTheGroupOpen(current: Group, statuses: seq<Status>, totalFrames: int, totalRendered: int)
    requires !NoneActive(statuses)
    ensures var (status, store) := ComputeGroupStatus(current, statuses, totalFrames, totalRendered);
      && (store <==> current.GroupPending? && exists i :: 0 <= i < |statuses| && statuses[i].Running?)
      && (store ==> status.GroupRunning?)
  {
    assert AnyIs(statuses, Running) <==> exists i :: 0 <= i < |statuses| && statuses[i].Running?;
  }

  /** A group is stored as failed exactly when it is not failed or cancelled already and every row failed. */
  lemma FailsIffEveryRowFailed(current: Group, statuses: seq<Status>, totalFrames: int, totalRendered: int)
    ensures var (status, store) := ComputeGroupStatus(current, statuses, totalFrames, totalRendered);
      store && status.GroupFailed? <==> !current.GroupFailed? && !current.GroupCancelled? && AllAre(statuses, Failed)
  {
    if AllAre(statuses, Failed) {
      assert statuses[0] == Failed;
    }
  }

  /** The frames get_status counts: every row that has not failed, capped by its own total, capped by the group's. */
  function RowFrames(row: Job): int {
    if row.total > 0 && row.total < row.rendered then row.total else row.rendered
  }

  function SumRendered(rows: seq<Job>): int {
    if rows == [] then 0 else (if rows[0].status.Failed? then 0 else RowFrames(rows[0])) + SumRendered(rows[1..])
  }

  function TotalRendered(rows: seq<Job>, totalFrames: int): int {
    var sum := SumRendered(rows);
    if totalFrames < sum then totalFrames else sum
  }

  // ---------------------------------------------------------------------------
  // A done row stays as it is
  // ---------------------------------------------------------------------------

  /** Only the row a decision is about, and rows added after, can change. */
  lemma FailureTouchesOnly(t: Table, s: Snapshot, a: Answers, i: nat)
    requires i < |t.rows| && i != s.id
    ensures var t' := FailureHandled(t, s, a).0; |t.rows| <= |t'.rows| && t'.rows[i] == t.rows[i]
  {
  }

  /** A decision taken on an out-of-date snapshot takes a done row out of done exactly when the snapshot had
      frames left. */
  lemma StaleDecisionRevives(t: Table, s: Snapshot, a: Answers)
    requires s.id < |t.rows| && t.rows[s.id].status.Done?
    ensures !FailureHandled(t, s, a).0.rows[s.id].status.Done? <==> s.row.Remaining().Some?
  {
  }

  lemma {:induction false} OrphansKeepDone(t: Table, jobs: seq<Job>, i: nat, machines: Machines, stuck: nat -> bool, k: nat)
    requires i <= |jobs| && k < |jobs| <= |t.rows| && jobs[k].status.Done?
    ensures var t' := OrphansScanned(t, jobs, i, machines, stuck); |t'.rows| == |t.rows| && t'.rows[k] == t.rows[k]
    decreases |jobs| - i
  {
    if i < |jobs| {
      OrphansKeepDone(OrphanScanned(t, i, jobs[i], machines, stuck(i)), jobs, i + 1, machines, stuck, k);
    }
  }

  lemma {:induction false} DesktopsKeepDone(t: Table, jobs: seq<Job>, i: nat, machines: Machines, offline: nat -> bool,
                                            answers: nat -> Answers, k: nat)
    requires i <= |jobs| && k < |jobs| <= |t.rows| && jobs[k].status.Done?
    ensures var t' := DesktopsScanned(t, jobs, i, machines, offline, answers);
      |t'.rows| >= |t.rows| && t'.rows[k] == t.rows[k]
    decreases |jobs| - i
  {
    if i < |jobs| {
      var t' := DesktopScanned(t, i, jobs[i], machines, offline(i), answers(i));
      if t' != t && jobs[i].Remaining().Some? {
        FailureTouchesOnly(SetStatus(t, i, Failed), Snapshot(i, jobs[i], machines[jobs[i].machine]), answers(i), k);
      }
      DesktopsKeepDone(t', jobs, i + 1, machines, offline, answers, k);
    }
  }

  lemma {:induction false} RetriesKeepDone(t: Table, jobs: seq<Job>, i: nat, machines: Machines, answers: nat -> Answers,
                                           covered: set<(int, int)>, k: nat)
    requires i <= |jobs| && k < |jobs| <= |t.rows| && jobs[k].status.Done?
    ensures var t' := RetriesScanned(t, jobs, i, machines, answers, covered);
      |t'.rows| >= |t.rows| && t'.rows[k] == t.rows[k]
    decreases |jobs| - i
  {
    if i < |jobs| {
      var (t', covered') := RetryScanned(t, jobs, i, machines, answers(i), covered);
      if Retryable(jobs, jobs[i], machines, covered) {
        FailureTouchesOnly(t, Snapshot(i, jobs[i], machines[jobs[i].machine]), answers(i), k);
      }
      RetriesKeepDone(t', jobs, i + 1, machines, answers, covered', k);
    }
  }

  lemma {:induction false} TerminalsKeepDone(t: Table, jobs: seq<Job>, i: nat, group: Status, k: nat)
    requires i <= |jobs| && k < |jobs| <= |t.rows| && jobs[k].status.Done?
    ensures var t' := TerminalsScanned(t, jobs, i, group); |t'.rows| == |t.rows| && t'.rows[k] == t.rows[k]
    decreases |jobs| - i
  {
    if i < |jobs| { TerminalsKeepDone(TerminalScanned(t, i, jobs[i], group), jobs, i + 1, group, k); }
  }
}
