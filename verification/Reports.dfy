/** What workers' reports do to the rows, each decided on the row as it is then. */
module Reports {
  import opened Grid
  import opened RenderJobs
  import opened Fleet

  // ---------------------------------------------------------------------------
  // Progress
  // ---------------------------------------------------------------------------

  /** A reported count, and a reported total if there is one. */
  datatype Report = Report(rendered: nat, total: Option<nat>)

  /** The table after progress reports on one row. */
  function AfterReports(t: Table, id: nat, reports: seq<Report>): Table
    decreases reports
  {
    if reports == [] then t
    else AfterReports(Progressed(t, id, reports[0].rendered, reports[0].total), id, reports[1..])
  }

  function Larger(a: nat, b: nat): nat { if a < b then b else a }

  function LargestCount(counted: nat, reports: seq<Report>): nat
    decreases reports
  {
    if reports == [] then counted else LargestCount(Larger(counted, reports[0].rendered), reports[1..])
  }

  function LargestTotal(total: nat, reports: seq<Report>): nat
    decreases reports
  {
    if reports == [] then total
    else LargestTotal(if reports[0].total.Some? then Larger(total, reports[0].total.value) else total, reports[1..])
  }

  lemma {:induction false} LargestTotalGrows(total: nat, reports: seq<Report>)
    ensures LargestTotal(total, reports) >= total
    decreases reports
  {
    if reports != [] {
      LargestTotalGrows(if reports[0].total.Some? then Larger(total, reports[0].total.value) else total, reports[1..]);
    }
  }

  lemma {:induction false} LargestCountGrows(counted: nat, reports: seq<Report>)
    ensures LargestCount(counted, reports) >= counted
    decreases reports
  {
    if reports != [] { LargestCountGrows(Larger(counted, reports[0].rendered), reports[1..]); }
  }

  /** Capping early changes nothing. */
  lemma {:induction false} CappedCount(total: nat, counted: nat, reports: seq<Report>)
    ensures Capped(total, LargestCount(Capped(total, counted), reports)) == Capped(total, LargestCount(counted, reports))
    decreases reports
  {
    if reports != [] {
      var r := reports[0].rendered;
      CappedCount(total, Larger(counted, r), reports[1..]);
      CappedCount(total, Larger(Capped(total, counted), r), reports[1..]);
      assert Capped(total, Larger(Capped(total, counted), r)) == Capped(total, Larger(counted, r));
    }
  }

  function Capped(total: nat, n: nat): nat { if total < n then total else n }

  /** A pending or running row whose count is within a positive total. */
  predicate CanReport(row: Job) {
    (row.status.Pending? || row.status.Running?) && 0 < row.total && row.rendered <= row.total
  }

  /** Reports in any number and order: a pending row is running, the total is the largest there was, the count never goes down and
      never passes the total, and while the total stays it is the largest count reported, capped; nothing else changes. */
  lemma {:induction false} ReportsKeepTheLargest(t: Table, id: nat, reports: seq<Report>)
    requires id < |t.rows| && CanReport(t.rows[id]) && reports != []
    ensures var row, t' := t.rows[id], AfterReports(t, id, reports);
      && |t'.rows| == |t.rows|
      && var row' := t'.rows[id];
      && t' == t.(rows := t.rows[id := row.(status := Running, total := LargestTotal(row.total, reports),
                                            rendered := row'.rendered)])
      && row.rendered <= row'.rendered <= row'.total
      && (row'.total == row.total ==> row'.rendered == Capped(row.total, LargestCount(row.rendered, reports)))
    decreases reports
  {
    var row, report, rest := t.rows[id], reports[0], reports[1..];
    var t1 := Progressed(t, id, report.rendered, report.total);
    var row1 := t1.rows[id];
    assert row1.rendered == Capped(row1.total, Larger(row.rendered, report.rendered));
    assert t1 == t.(rows := t.rows[id := row.(status := Running, total := row1.total, rendered := row1.rendered)]);
    hide Progressed, Larger;
    if rest == [] {
      assert LargestCount(row.rendered, reports) == Larger(row.rendered, report.rendered);
    } else {
      ReportsKeepTheLargest(t1, id, rest);
      LargestTotalGrows(row1.total, rest);
      CappedCount(row.total, Larger(row.rendered, report.rendered), rest);
      assert t1.rows[id := AfterReports(t1, id, rest).rows[id]] == t.rows[id := AfterReports(t1, id, rest).rows[id]];
    }
  }

  // ---------------------------------------------------------------------------
  // Registrations
  // ---------------------------------------------------------------------------

  /** What becomes of another row when this one is recovered: cancelled if it is active and within its range. */
  function BesideRecovered(row: Job, other: Job): Job {
    if (other.status.Pending? || other.status.Running?) && row.frameStart <= other.frameStart && other.frameEnd <= row.frameEnd
    then other.(status := Cancelled) else other
  }

  /** A registration after which the row has all its files, or whose row already counted all its frames, completes the row unless
      it is cancelled: it is done with its total, and of the other rows exactly the active ones within its range are cancelled.
      Otherwise only the count changes: it is at least the files there are, as far as the total goes, and never goes down. */
  lemma RegistrationCompletesOrCounts(t: Table, id: nat, files: nat)
    requires id < |t.rows|
    ensures var row, t' := t.rows[id], Registered(t, id, t.rows[id], files);
      && |t'.rows| == |t.rows| && t'.calls == t.calls && t'.origins == t.origins
      && if row.total > 0 && !row.status.Cancelled? && (row.rendered >= row.total || files >= row.total) then
           && t'.rows[id] == row.(status := Done, rendered := row.total)
           && forall k :: 0 <= k < |t.rows| && k != id ==> t'.rows[k] == BesideRecovered(row, t.rows[k])
         else
           && t'.rows[id] == row.(rendered := t'.rows[id].rendered)
           && t'.rows[id].rendered == Max(row.rendered, if row.total > 0 then Min(row.total, files) else 0)
           && forall k :: 0 <= k < |t.rows| && k != id ==> t'.rows[k] == t.rows[k]
  {
    var row := t.rows[id];
    assert IsEvidence(row, files) <==>
      row.total > 0 && !row.status.Cancelled? && (row.rendered >= row.total || files >= row.total);
  }

  /** A done report on a pending or running row counts all its frames. */
  lemma DoneCountsAll(t: Table, id: nat)
    requires id < |t.rows| && (t.rows[id].status.Pending? || t.rows[id].status.Running?)
    ensures var row, t' := t.rows[id], Finished(t, id);
      && t'.rows[id].status.Done? && (row.total > 0 ==> t'.rows[id].rendered == row.total)
      && t' == t.(rows := t.rows[id := row.(status := Done, rendered := t'.rows[id].rendered)])
  {
    assert t.rows[id].Active();
  }
}
