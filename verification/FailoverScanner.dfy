/** The failover scanner's passes, with the loops of the source, on the object that owns the table.  Every row a pass changes
    is an event on some version of that row read earlier, so every pass keeps what the object promises. */
module FailoverScanning {
  import opened Conservation
  import opened Fleet
  import opened FleetManagement
  import opened RenderJobs
  import opened Scanner
  import FD = FrameDistribution

  class FailoverScanner {
    const fleet: FleetManager

    constructor (fleet: FleetManager)
      ensures this.fleet == fleet
    {
      this.fleet := fleet;
    }

    /** Every row of the snapshot was there to be read at some time. */
    ghost predicate WasRead(jobs: seq<Job>)
      reads fleet
    {
      forall i :: 0 <= i < |jobs| ==> (i, jobs[i]) in fleet.seen
    }

    /** The object is valid and about the same plan and range. */
    twostate predicate Keeps()
      reads fleet
    {
      && fleet.Valid() && fleet.plan == old(fleet.plan) && fleet.range == old(fleet.range)
      && fleet.rendered == old(fleet.rendered) && old(fleet.seen) <= fleet.seen
    }

    method ScanOrphans(jobs: seq<Job>, machines: Machines, stuck: nat -> bool)
      requires fleet.Valid() && WasRead(jobs)
      modifies fleet
      ensures fleet.Contents() == OrphansScanned(old(fleet.Contents()), jobs, 0, machines, stuck)
      ensures Keeps()
    {
      for i := 0 to |jobs|
        invariant OrphansScanned(fleet.Contents(), jobs, i, machines, stuck)
               == OrphansScanned(old(fleet.Contents()), jobs, 0, machines, stuck)
        invariant Keeps()
      {
        var job := jobs[i];
        if !job.Active() { continue; }
        if job.machine !in machines || !FD.IsServerless(machines[job.machine]) { continue; }
        if job.status.Running? && job.total > 0 && job.rendered >= job.total {
          fleet.MarkComplete(i, job);
          continue;
        }
        if job.status.Pending? {
          if !stuck(i) { continue; }
          fleet.GiveUp(i, Failed);
        }
      }
    }

    method ScanStaleDesktop(jobs: seq<Job>, machines: Machines, offline: nat -> bool, answers: nat -> Answers)
      requires fleet.Valid() && WasRead(jobs)
      modifies fleet
      ensures fleet.Contents() == DesktopsScanned(old(fleet.Contents()), jobs, 0, machines, offline, answers)
      ensures Keeps()
    {
      for i := 0 to |jobs|
        invariant DesktopsScanned(fleet.Contents(), jobs, i, machines, offline, answers)
               == DesktopsScanned(old(fleet.Contents()), jobs, 0, machines, offline, answers)
        invariant Keeps()
      {
        var job := jobs[i];
        if !job.status.Running? { continue; }
        if job.machine !in machines { continue; }
        if FD.IsServerless(machines[job.machine]) { continue; }
        if !offline(i) { continue; }
        fleet.GiveUp(i, Failed);
        if job.Remaining().Some? {
          var _ := fleet.HandleFailure(Snapshot(i, job, machines[job.machine]), answers(i));
        }
      }
    }

    /** The ranges of rows that have not failed, and how often each range failed. */
    static method CountRanges(jobs: seq<Job>) returns (covered: set<(int, int)>, failedCounts: map<(int, int), nat>)
      ensures covered == CoveredBy(jobs, |jobs|)
      ensures forall range :: FailedOn(jobs, |jobs|, range) == if range in failedCounts then failedCounts[range] else 0
    {
      covered, failedCounts := {}, map[];
      for i := 0 to |jobs|
        invariant covered == CoveredBy(jobs, i)
        invariant forall range ::
          FailedOn(jobs, i, range) == if range in failedCounts then failedCounts[range] else 0
      {
        var range := Range(jobs[i]);
        if jobs[i].status.Failed? {
          failedCounts := failedCounts[range := 1 + if range in failedCounts then failedCounts[range] else 0];
        } else {
          covered := covered + {range};
        }
      }
    }

    /** One row of the retry pass. */
    method RetryRow(jobs: seq<Job>, i: nat, machines: Machines, a: Answers, covered: set<(int, int)>,
                    failedCounts: map<(int, int), nat>) returns (nowCovered: set<(int, int)>)
      requires fleet.Valid() && WasRead(jobs) && i < |jobs|
      requires forall range :: FailedOn(jobs, |jobs|, range) == if range in failedCounts then failedCounts[range] else 0
      modifies fleet
      ensures (fleet.Contents(), nowCovered) == RetryScanned(old(fleet.Contents()), jobs, i, machines, a, covered)
      ensures Keeps()
    {
      hide FailureHandled;
      var job := jobs[i];
      nowCovered := covered;
      if !job.status.Failed? { return; }
      if job.machine !in machines || !FD.IsServerless(machines[job.machine]) { return; }
      if job.Remaining().None? { return; }
      if job.Remaining().value in covered { return; }
      var count := if Range(job) in failedCounts then failedCounts[Range(job)] else 0;
      if count >= MAX_FAILURES { return; }
      var result := fleet.HandleFailure(Snapshot(i, job, machines[job.machine]), a);
      if result.Some? {
        nowCovered := covered + {job.Remaining().value};
      }
    }

    method ScanServerlessRetries(jobs: seq<Job>, machines: Machines, answers: nat -> Answers)
      requires fleet.Valid() && WasRead(jobs)
      modifies fleet
      ensures fleet.Contents()
           == RetriesScanned(old(fleet.Contents()), jobs, 0, machines, answers, CoveredBy(jobs, |jobs|))
      ensures Keeps()
    {
      hide RetryScanned;
      var covered, failedCounts := CountRanges(jobs);
      for i := 0 to |jobs|
        invariant RetriesScanned(fleet.Contents(), jobs, i, machines, answers, covered)
               == RetriesScanned(old(fleet.Contents()), jobs, 0, machines, answers, CoveredBy(jobs, |jobs|))
        invariant Keeps()
      {
        covered := RetryRow(jobs, i, machines, answers(i), covered, failedCounts);
      }
    }

    /** The pass over a failed or cancelled group. */
    method ScanTerminalGroupOrphans(group: Status)
      requires fleet.Valid() && (group.Failed? || group.Cancelled?)
      modifies fleet
      ensures fleet.Contents() == TerminalsScanned(old(fleet.Contents()), old(fleet.rows), 0, group)
      ensures Keeps() && AccountsFor(fleet.Here(), fleet.range)
    {
      var jobs := fleet.rows;
      for i := 0 to |jobs|
        invariant TerminalsScanned(fleet.Contents(), jobs, i, group)
               == TerminalsScanned(old(fleet.Contents()), jobs, 0, group)
        invariant Keeps() && WasRead(jobs)
      {
        var job := jobs[i];
        if !job.Active() { continue; }
        if job.total > 0 && job.rendered >= job.total {
          fleet.MarkComplete(i, job);
        } else {
          fleet.GiveUp(i, group);
        }
      }
      fleet.NothingLost();
    }

    /** One tick on a pending or running group.  After it every frame of the range is still rendered or owed. */
    method Tick(machines: Machines, stuck: nat -> bool, offline: nat -> bool, desktopAnswers: nat -> Answers,
                retryAnswers: nat -> Answers)
      requires fleet.Valid()
      modifies fleet
      ensures fleet.Contents() == Ticked(old(fleet.Contents()), old(fleet.rows), machines, stuck, offline,
                                         desktopAnswers, retryAnswers)
      ensures Keeps() && AccountsFor(fleet.Here(), fleet.range)
    {
      var jobs := fleet.rows;
      assert WasRead(jobs);
      ScanOrphans(jobs, machines, stuck);
      ScanStaleDesktop(jobs, machines, offline, desktopAnswers);
      ScanServerlessRetries(jobs, machines, retryAnswers);
      fleet.NothingLost();
    }
  }
}
