/** What the scanner's passes achieve, row by row, when their snapshot is the table itself. */
module ScanEffects {
  import opened RenderJobs
  import opened Fleet
  import opened Scanner

  // ---------------------------------------------------------------------------
  // Orphans
  // ---------------------------------------------------------------------------

  /** A pass only touches the rows it walks over, each by its own decision. */
  lemma {:induction false} OrphanRow(t: Table, jobs: seq<Job>, i: nat, machines: Machines, stuck: nat -> bool, k: nat)
    requires i <= |jobs| == |t.rows| && k < |jobs| && (k >= i ==> t.rows[k] == jobs[k])
    ensures var r := OrphansScanned(t, jobs, i, machines, stuck);
      && |r.rows| == |t.rows| && r.calls == t.calls
      && r.rows[k] == if k < i then t.rows[k] else OrphanScanned(Table([jobs[k]], [], []), 0, jobs[k], machines, stuck(k)).rows[0]
    decreases |jobs| - i
  {
    if i < |jobs| { OrphanRow(OrphanScanned(t, i, jobs[i], machines, stuck(i)), jobs, i + 1, machines, stuck, k); }
  }

  /** After the pass every running serverless row whose counts are complete is done with all its frames, every pending one that
      is stuck is failed, all other rows are as they were, and no provider was called. */
  lemma OrphansAreSettled(t: Table, machines: Machines, stuck: nat -> bool, k: nat)
    requires k < |t.rows|
    ensures var r, row := OrphansScanned(t, t.rows, 0, machines, stuck), t.rows[k];
      var serverless := row.machine in machines && !machines[row.machine].Desktop?;
      && |r.rows| == |t.rows| && r.calls == t.calls
      && r.rows[k] == if serverless && row.status.Running? && row.total > 0 && row.rendered >= row.total
                      then row.(status := Done, rendered := row.total)
                      else if serverless && row.status.Pending? && stuck(k) then row.(status := Failed)
                      else row
  {
    OrphanRow(t, t.rows, 0, machines, stuck, k);
  }

  // ---------------------------------------------------------------------------
  // Terminal groups
  // ---------------------------------------------------------------------------

  lemma {:induction false} TerminalRow(t: Table, jobs: seq<Job>, i: nat, group: Status, k: nat)
    requires i <= |jobs| == |t.rows| && k < |jobs| && (k >= i ==> t.rows[k] == jobs[k])
    ensures var r := TerminalsScanned(t, jobs, i, group);
      && |r.rows| == |t.rows| && r.calls == t.calls
      && r.rows[k] == if k < i then t.rows[k] else TerminalScanned(Table([jobs[k]], [], []), 0, jobs[k], group).rows[0]
    decreases |jobs| - i
  {
    if i < |jobs| { TerminalRow(TerminalScanned(t, i, jobs[i], group), jobs, i + 1, group, k); }
  }

  /** After the pass over a failed or cancelled group no row is active: pending and running rows complete by their counts are done
      with all their frames, the others took the group's status, and rows that were not active are as they were. */
  lemma TerminalGroupsHaveNoActiveRow(t: Table, group: Status, k: nat)
    requires k < |t.rows| && (group.Failed? || group.Cancelled?)
    ensures var r, row := TerminalsScanned(t, t.rows, 0, group), t.rows[k];
      && |r.rows| == |t.rows| && r.calls == t.calls && !r.rows[k].Active()
      && r.rows[k] == if !row.status.Pending? && !row.status.Running? then row
                      else if row.total > 0 && row.rendered >= row.total then row.(status := Done, rendered := row.total)
                      else row.(status := group)
  {
    TerminalRow(t, t.rows, 0, group, k);
  }

  // ---------------------------------------------------------------------------
  // Offline desktops
  // ---------------------------------------------------------------------------

  /** Handling one row's failure leaves that row pending with one attempt more, or failed; the row now responsible has
      exactly the unrendered tail as its range; no other row changes. */
  lemma FailureMovesOn(t: Table, s: Snapshot, a: Answers)
    requires s.id < |t.rows| && t.rows[s.id].status.Failed? && s.row.Remaining().Some?
    ensures var (t', result) := FailureHandled(t, s, a);
      && |t'.rows| >= |t.rows| && (forall j :: 0 <= j < |t.rows| && j != s.id ==> t'.rows[j] == t.rows[j])
      && (t'.rows[s.id].status.Failed? || (t'.rows[s.id].status.Pending? && t'.rows[s.id].attempt == s.row.attempt + 1))
      && (result.Some? && t.rows[s.id].frameEnd == s.row.frameEnd ==>
            result.value < |t'.rows| && Range(t'.rows[result.value]) == s.row.Remaining().value)
  {
  }

  lemma {:induction false} DesktopRow(t: Table, jobs: seq<Job>, i: nat, machines: Machines, offline: nat -> bool,
                                      answers: nat -> Answers, k: nat)
    requires i <= |jobs| <= |t.rows| && k < |jobs| && (k >= i ==> t.rows[k] == jobs[k])
    ensures var r := DesktopsScanned(t, jobs, i, machines, offline, answers);
      && |r.rows| >= |t.rows|
      && (k < i ==> r.rows[k] == t.rows[k])
      && (k >= i && !(jobs[k].status.Running? && OnDesktop(jobs[k], machines) && offline(k)) ==> r.rows[k] == t.rows[k])
      && (k >= i && jobs[k].status.Running? && OnDesktop(jobs[k], machines) && offline(k) ==>
            r.rows[k].status.Failed?
            || (r.rows[k].status.Pending? && r.rows[k].attempt == jobs[k].attempt + 1))
    decreases |jobs| - i
  {
    if i < |jobs| {
      var job := jobs[i];
      if job.status.Running? && OnDesktop(job, machines) && offline(i) && job.Remaining().Some? {
        FailureMovesOn(SetStatus(t, i, Failed), Snapshot(i, job, machines[job.machine]), answers(i));
      }
      hide FailureHandled;
      DesktopRow(DesktopScanned(t, i, job, machines, offline(i), answers(i)), jobs, i + 1, machines, offline, answers, k);
    }
  }

  /** After the pass no row that was running on an offline desktop is still running: it is failed, or pending for another
      attempt of its own; every other row is as it was. */
  lemma OfflineDesktopsAreReleased(t: Table, machines: Machines, offline: nat -> bool, answers: nat -> Answers, k: nat)
    requires k < |t.rows|
    ensures var r, row := DesktopsScanned(t, t.rows, 0, machines, offline, answers), t.rows[k];
      && k < |r.rows|
      && (row.status.Running? && OnDesktop(row, machines) && offline(k) ==>
            r.rows[k].status.Failed? || (r.rows[k].status.Pending? && r.rows[k].attempt == row.attempt + 1))
      && (!(row.status.Running? && OnDesktop(row, machines) && offline(k)) ==> r.rows[k] == row)
  {
    DesktopRow(t, t.rows, 0, machines, offline, answers, k);
  }
}
