/** How fast a range gains rows.  One tick of the scanner: exactly when it can leave more than five.  Many ticks, or many
    failures reported by workers: no bound. */
module RowGrowth {
  import opened RenderJobs
  import opened Fleet
  import opened Scanner
  import opened RetryBound
  import FD = FrameDistribution

  // ---------------------------------------------------------------------------
  // A range fed by another one
  // ---------------------------------------------------------------------------

  /** A row that failed after four of its ten frames, and its n takeovers, all failed at once. */
  function Heirs(n: nat): seq<Job> { seq(n, _ => Job("u", Failed, 5, 10, 1, 0, 6, 0, 0, 0)) }

  function FeederAndHeirs(n: nat): seq<Job> { [Job("v", Failed, 1, 10, 1, 4, 10, 0, 0, 0)] + Heirs(n) }

  function TwoVast(): seq<FD.Machine> {
    [FD.Machine("v", FD.VastServerless, 1.0), FD.Machine("u", FD.VastServerless, 1.0)]
  }

  /** Both machines always there, nothing throws. */
  function Calm(): TickInputs {
    TickInputs(map["v" := FD.VastServerless, "u" := FD.VastServerless], _ => false, _ => false,
               _ => Answers(false, TwoVast(), false), _ => Answers(false, TwoVast(), false))
  }

  /** n times: a tick, and the row it added fails. */
  function Rounds(n: nat): seq<RetryBound.Step> {
    if n == 0 then [] else Rounds(n - 1) + [ScannerTick(Calm()), StatusChange(n, Failed)]
  }

  lemma UIsChosen(a: Answers)
    requires a.candidates == TwoVast()
    ensures ChooseFailover(a.candidates, "v", FD.VastServerless) == Some(TwoVast()[1])
  {
    var v, u := TwoVast()[0], TwoVast()[1];
    assert [v, u][1..] == [u] && [u][1..] == [];
    assert Others([u], "v") == [u];
    assert Others([v, u], "v") == [u];
    assert OfKind([u], true, true, false) == [u] && OfKind([u], true, false, false) == [u];
  }

  lemma {:induction false} NothingActive(t: Table, jobs: seq<Job>, i: nat, x: TickInputs)
    requires i <= |jobs| && forall k :: 0 <= k < |jobs| ==> jobs[k].status.Failed?
    ensures OrphansScanned(t, jobs, i, x.machines, x.stuck) == t
    ensures DesktopsScanned(t, jobs, i, x.machines, x.offline, x.desktopAnswers) == t
    decreases |jobs| - i
  {
    if i < |jobs| { NothingActive(t, jobs, i + 1, x); }
  }

  /** Rows whose tails are covered are left alone. */
  lemma {:induction false} CoveredAreLeft(t: Table, jobs: seq<Job>, i: nat, x: TickInputs, covered: set<Span>)
    requires i <= |jobs| && forall k :: i <= k < |jobs| ==> Tail(jobs[k]) in covered
    ensures RetriesScanned(t, jobs, i, x.machines, x.retryAnswers, covered) == t
    decreases |jobs| - i
  {
    if i < |jobs| { CoveredAreLeft(t, jobs, i + 1, x, covered); }
  }

  lemma {:induction false} NoneFailedOnTheFeeder(n: nat, k: nat)
    requires k <= n + 1
    ensures FailedOn(FeederAndHeirs(n), k, (1, 10)) <= 1
  {
    if k > 0 { NoneFailedOnTheFeeder(n, k - 1); }
    if k == 1 { assert FailedOn(FeederAndHeirs(n), 0, (1, 10)) == 0; }
    if k > 1 { assert FeederAndHeirs(n)[k - 1] == Heirs(n)[k - 2]; }
  }

  /** The feeder is handed to u, which covers its tail. */
  lemma FeederHandedOver(t: Table, n: nat)
    requires t.rows == FeederAndHeirs(n)
    ensures var (t1, covered) := RetryScanned(t, t.rows, 0, Calm().machines, Calm().retryAnswers(0), {});
      t1.rows == t.rows + [Heirs(n + 1)[n].(status := Pending)] && covered == {(5, 10)}
  {
    var jobs, x := t.rows, Calm();
    NoneFailedOnTheFeeder(n, n + 1);
    assert jobs[0].RemainingStart() == 5 && Retryable(jobs, jobs[0], x.machines, {});
    UIsChosen(x.retryAnswers(0));
    hide ChooseFailover;
    assert SetStatus(t, 0, Failed).rows == t.rows;
  }

  lemma OneRound(t: Table, n: nat)
    requires t.rows == FeederAndHeirs(n)
    ensures FreshTick(t, Calm()).rows == FeederAndHeirs(n) + [Heirs(n + 1)[n].(status := Pending)]
  {
    var jobs, x := t.rows, Calm();
    forall k | 0 <= k < |jobs| ensures jobs[k].status.Failed? && (k > 0 ==> Tail(jobs[k]) == (5, 10)) {
      if k > 0 { assert jobs[k] == Heirs(n)[k - 1]; }
    }
    NothingActive(t, jobs, 0, x);
    assert CoveredBy(jobs, |jobs|) == {};
    FeederHandedOver(t, n);
    hide RetryScanned;
    var (t1, covered) := RetryScanned(t, jobs, 0, x.machines, x.retryAnswers(0), {});
    CoveredAreLeft(t1, jobs, 1, x, covered);
  }

  lemma {:induction false} HeirsCount(n: nat, k: nat)
    requires k <= n + 1
    ensures RowsOn(FeederAndHeirs(n)[..k], (5, 10)) == if k == 0 then 0 else k - 1
  {
    if k > 0 {
      HeirsCount(n, k - 1);
      assert FeederAndHeirs(n)[..k][..k - 1] == FeederAndHeirs(n)[..k - 1];
      if k > 1 { assert FeederAndHeirs(n)[k - 1] == Heirs(n)[k - 2]; }
    }
  }

  lemma AfterTwo(t: Table, before: seq<RetryBound.Step>, a: RetryBound.Step, b: RetryBound.Step)
    ensures After(t, before + [a, b]) == Next(Next(After(t, before), a), b)
  {
    assert (before + [a, b])[..|before| + 1] == before + [a];
    assert (before + [a])[..|before|] == before;
  }

  lemma HeirFails(t: Table, n: nat)
    requires t.rows == FeederAndHeirs(n)
    ensures SetStatus(FreshTick(t, Calm()), n + 1, Failed).rows == FeederAndHeirs(n + 1)
  {
    OneRound(t, n);
    hide FreshTick;
  }

  lemma RoundAfterRounds(t: Table, n: nat)
    requires After(t, Rounds(n)).rows == FeederAndHeirs(n)
    ensures After(t, Rounds(n + 1)).rows == FeederAndHeirs(n + 1)
  {
    AfterTwo(t, Rounds(n), ScannerTick(Calm()), StatusChange(n + 1, Failed));
    HeirFails(After(t, Rounds(n)), n);
    hide FreshTick, After, FeederAndHeirs, Calm;
  }

  /** One failed row with progress, two Vast machines: n ticks, each followed by the failure of the row it added, leave n rows
      on the range 5..10.  The cap counts the failures of 1..10, the range of the row that is handed over every time, and that
      one never failed again. */
  lemma {:induction false} ScansAreUnbounded(n: nat)
    ensures var t := After(Table(FeederAndHeirs(0), [], [1]), Rounds(n));
      t.rows == FeederAndHeirs(n) && RowsOn(t.rows, (5, 10)) == n
  {
    if n > 0 {
      ScansAreUnbounded(n - 1);
      RoundAfterRounds(Table(FeederAndHeirs(0), [], [1]), n - 1);
    }
    HeirsCount(n, n + 1);
    assert FeederAndHeirs(n)[..n + 1] == FeederAndHeirs(n);
  }

  // ---------------------------------------------------------------------------
  // Exactly how many rows one tick can add to a range
  // ---------------------------------------------------------------------------

  /** A row the retry pass hands over unless its tail is covered by then. */
  predicate Eligible(jobs: seq<Job>, i: nat, machines: Machines)
    requires i < |jobs|
  {
    FailedServerless(jobs[i], machines) && jobs[i].Remaining().Some? && FailedOn(jobs, |jobs|, Range(jobs[i])) < MAX_FAILURES
  }

  predicate Feeds(jobs: seq<Job>, i: nat, machines: Machines, span: Span)
    requires i < |jobs|
  {
    Eligible(jobs, i, machines) && Tail(jobs[i]) == span
  }

  /** The rows from i on whose tail is the range, and those among them that a retry moves there from another range. */
  function Feeders(jobs: seq<Job>, i: nat, machines: Machines, span: Span): nat
    requires i <= |jobs|
    decreases |jobs| - i
  {
    if i == |jobs| then 0 else One(Feeds(jobs, i, machines, span)) + Feeders(jobs, i + 1, machines, span)
  }

  predicate Moves(row: Job, span: Span) { row.CanRetry() && Range(row) != span }

  function Movers(jobs: seq<Job>, i: nat, machines: Machines, span: Span): nat
    requires i <= |jobs|
    decreases |jobs| - i
  {
    if i == |jobs| then 0
    else One(Feeds(jobs, i, machines, span) && Moves(jobs[i], span)) + Movers(jobs, i + 1, machines, span)
  }

  /** The most the retry pass can add: every mover moves in, and one new row. */
  function FeedGain(jobs: seq<Job>, i: nat, machines: Machines, span: Span, covered: set<Span>): nat
    requires i <= |jobs|
  {
    if span in covered || Feeders(jobs, i, machines, span) == 0 then 0 else Movers(jobs, i, machines, span) + 1
  }

  /** The least it must take away: of the rows with one and the same other tail, the first moves out if it is a retry of a row
      of the range. */
  function Losses(jobs: seq<Job>, i: nat, machines: Machines, span: Span, covered: set<Span>): nat
    requires i <= |jobs|
    decreases |jobs| - i
  {
    if i == |jobs| then 0
    else if !Eligible(jobs, i, machines) || Tail(jobs[i]) in covered || Tail(jobs[i]) == span
      then Losses(jobs, i + 1, machines, span, covered)
    else One(jobs[i].CanRetry() && Range(jobs[i]) == span)
         + Losses(jobs, i + 1, machines, span, covered + {Tail(jobs[i])})
  }

  lemma {:induction false} MoreCoveredLosesLess(jobs: seq<Job>, i: nat, machines: Machines, span: Span, covered: set<Span>,
                                                more: set<Span>)
    requires i <= |jobs| && covered <= more
    ensures Losses(jobs, i, machines, span, more) <= Losses(jobs, i, machines, span, covered)
    decreases |jobs| - i
  {
    if i < |jobs| {
      var tail := Tail(jobs[i]);
      if !Eligible(jobs, i, machines) || tail in covered || tail == span {
        MoreCoveredLosesLess(jobs, i + 1, machines, span, covered, more);
      } else {
        MoreCoveredLosesLess(jobs, i + 1, machines, span, covered + {tail}, more + {tail});
        assert tail in more ==> more + {tail} == more;
      }
    }
  }

  /** Whether the range itself is covered makes no difference to the losses. */
  lemma {:induction false} OwnCoverIsNoLoss(jobs: seq<Job>, i: nat, machines: Machines, span: Span, covered: set<Span>)
    requires i <= |jobs|
    ensures Losses(jobs, i, machines, span, covered + {span}) == Losses(jobs, i, machines, span, covered)
    decreases |jobs| - i
  {
    if i < |jobs| {
      OwnCoverIsNoLoss(jobs, i + 1, machines, span, covered);
      OwnCoverIsNoLoss(jobs, i + 1, machines, span, covered + {Tail(jobs[i])});
      assert covered + {span} + {Tail(jobs[i])} == covered + {Tail(jobs[i])} + {span};
    }
  }

  /** What the retry pass relies on at row i: the failed rows ahead are as the snapshot has them. */
  ghost predicate Ahead(t: Table, jobs: seq<Job>, i: nat) {
    i <= |jobs| <= |t.rows| && forall k :: i <= k < |jobs| && jobs[k].status.Failed? ==> t.rows[k] == jobs[k]
  }

  function Net(jobs: seq<Job>, i: nat, machines: Machines, span: Span, covered: set<Span>): int
    requires i <= |jobs|
  {
    FeedGain(jobs, i, machines, span, covered) - Losses(jobs, i, machines, span, covered)
  }

  /** What one row of the retry pass does to the count and to the set of covered ranges. */
  function Scan(jobs: seq<Job>, i: nat, machines: Machines, a: Answers, covered: set<Span>, span: Span): (int, set<Span>)
    requires i < |jobs|
  {
    if !Eligible(jobs, i, machines) || Tail(jobs[i]) in covered then (0, covered)
    else
      var job, kind := jobs[i], machines[jobs[i].machine];
      (RowDelta(job, kind, a, span),
       if (job.CanRetry() && !a.retryThrows) || Inserts(job, kind, a) then covered + {Tail(job)} else covered)
  }

  lemma RowScanned(t: Table, jobs: seq<Job>, i: nat, machines: Machines, a: Answers, covered: set<Span>, span: Span)
    requires i < |jobs| && Ahead(t, jobs, i)
    ensures var (t', covered') := RetryScanned(t, jobs, i, machines, a, covered);
      var (delta, more) := Scan(jobs, i, machines, a, covered, span);
      Ahead(t', jobs, i + 1) && RowsOn(t'.rows, span) == RowsOn(t.rows, span) + delta && covered' == more
  {
    var job := jobs[i];
    if Retryable(jobs, job, machines, covered) {
      var s := Snapshot(i, job, machines[job.machine]);
      hide FailureHandled, RowsOn, FailedOn, Attempts, CallsFor;
      FailureSums(t, s, a, span, 0);
      FailureFrame(t, s, a);
      assert job.Remaining().value == Tail(job);
    }
  }

  lemma ScanWithinNet(jobs: seq<Job>, i: nat, machines: Machines, a: Answers, covered: set<Span>, span: Span)
    requires i < |jobs|
    ensures var (delta, more) := Scan(jobs, i, machines, a, covered, span);
      delta + Net(jobs, i + 1, machines, span, more) <= Net(jobs, i, machines, span, covered)
  {
    hide Eligible, Inserts;
    MoreCoveredLosesLess(jobs, i + 1, machines, span, covered, covered + {Tail(jobs[i])});
    OwnCoverIsNoLoss(jobs, i + 1, machines, span, covered);
  }

  lemma {:induction false} PassAddsAtMost(t: Table, jobs: seq<Job>, i: nat, machines: Machines, answers: nat -> Answers,
                                          covered: set<Span>, span: Span)
    requires Ahead(t, jobs, i)
    ensures RowsOn(RetriesScanned(t, jobs, i, machines, answers, covered).rows, span)
      <= RowsOn(t.rows, span) + Net(jobs, i, machines, span, covered)
    decreases |jobs| - i
  {
    if i < |jobs| {
      RowScanned(t, jobs, i, machines, answers(i), covered, span);
      ScanWithinNet(jobs, i, machines, answers(i), covered, span);
      hide RetryScanned, RowsOn, Scan, Net;
      var (t', covered') := RetryScanned(t, jobs, i, machines, answers(i), covered);
      PassAddsAtMost(t', jobs, i + 1, machines, answers, covered', span);
    }
  }

  /** A Vast machine that is not this one. */
  function Another(machine: string): FD.Machine { FD.Machine(machine + "+", FD.VastServerless, 1.0) }

  lemma AnotherIsChosen(machine: string, kind: FD.MachineType)
    ensures ChooseFailover([Another(machine)], machine, kind).Some?
  {
    FailoverPreference([Another(machine)], machine, kind);
    assert Another(machine) in [Another(machine)] && |machine + "+"| != |machine|;
  }

  /** The answers that add most: every retry throws, and then there is another machine, except for the rows that feed the range
      before the last one that does. */
  function Worst(jobs: seq<Job>, machines: Machines, span: Span, i: nat): Answers {
    if i >= |jobs| || (Feeds(jobs, i, machines, span) && Feeders(jobs, i + 1, machines, span) > 0)
      then Answers(true, [], false)
    else Answers(true, [Another(jobs[i].machine)], false)
  }

  lemma {:induction false} MoversFeed(jobs: seq<Job>, i: nat, machines: Machines, span: Span)
    requires i <= |jobs|
    ensures Movers(jobs, i, machines, span) <= Feeders(jobs, i, machines, span)
    decreases |jobs| - i
  {
    if i < |jobs| { MoversFeed(jobs, i + 1, machines, span); }
  }

  lemma WorstReachesNet(jobs: seq<Job>, i: nat, machines: Machines, covered: set<Span>, span: Span)
    requires i < |jobs|
    ensures var (delta, more) := Scan(jobs, i, machines, Worst(jobs, machines, span, i), covered, span);
      delta + Net(jobs, i + 1, machines, span, more) == Net(jobs, i, machines, span, covered)
  {
    if jobs[i].machine in machines {
      AnotherIsChosen(jobs[i].machine, machines[jobs[i].machine]);
      assert ChooseFailover([], jobs[i].machine, machines[jobs[i].machine]) == None;
    }
    hide FailedOn, ChooseFailover;
    MoversFeed(jobs, i + 1, machines, span);
    OwnCoverIsNoLoss(jobs, i + 1, machines, span, covered);
  }

  lemma {:induction false} WorstPass(t: Table, jobs: seq<Job>, i: nat, machines: Machines, covered: set<Span>, span: Span)
    requires Ahead(t, jobs, i)
    ensures RowsOn(RetriesScanned(t, jobs, i, machines, (k: nat) => Worst(jobs, machines, span, k), covered).rows, span)
      == RowsOn(t.rows, span) + Net(jobs, i, machines, span, covered)
    decreases |jobs| - i
  {
    var answers := (k: nat) => Worst(jobs, machines, span, k);
    if i < |jobs| {
      RowScanned(t, jobs, i, machines, answers(i), covered, span);
      WorstReachesNet(jobs, i, machines, covered, span);
      hide RetryScanned, RowsOn, Scan, Net, Worst;
      var (t', covered') := RetryScanned(t, jobs, i, machines, answers(i), covered);
      WorstPass(t', jobs, i + 1, machines, covered', span);
    }
  }

  // ---------------------------------------------------------------------------
  // The pass over offline desktops, and a whole tick
  // ---------------------------------------------------------------------------

  /** The most one abandoned row can add: it moves in and is handed over as well, or it moves out. */
  function AbandonedGain(row: Job, span: Span): int {
    if row.Remaining().None? then 0
    else if row.CanRetry() then 2 * One(Tail(row) == span) - One(Range(row) == span)
    else One(Tail(row) == span)
  }

  function DesktopGain(jobs: seq<Job>, i: nat, machines: Machines, offline: nat -> bool, span: Span): int
    requires i <= |jobs|
    decreases |jobs| - i
  {
    if i == |jobs| then 0
    else (if Abandoned(jobs[i], machines, offline(i)) then AbandonedGain(jobs[i], span) else 0)
         + DesktopGain(jobs, i + 1, machines, offline, span)
  }

  /** The desktop pass relies on the abandoned rows ahead, and leaves the failed ones alone. */
  ghost predicate AsRead(t: Table, jobs: seq<Job>, i: nat, machines: Machines, offline: nat -> bool) {
    && i <= |jobs| <= |t.rows|
    && (forall k :: i <= k < |jobs| && Abandoned(jobs[k], machines, offline(k)) ==> t.rows[k] == jobs[k])
    && (forall k :: 0 <= k < |jobs| && jobs[k].status.Failed? ==> t.rows[k] == jobs[k])
  }

  lemma AbandonedAdds(t: Table, i: nat, job: Job, machines: Machines, a: Answers, span: Span)
    requires i < |t.rows| && t.rows[i] == job && Abandoned(job, machines, true)
    ensures var t' := DesktopScanned(t, i, job, machines, true, a);
      && |t'.rows| >= |t.rows| && (forall k :: 0 <= k < |t.rows| && k != i ==> t'.rows[k] == t.rows[k])
      && RowsOn(t'.rows, span) == RowsOn(t.rows, span)
           + (if job.Remaining().Some? then RowDelta(job, machines[job.machine], a, span) else 0)
  {
    var t1 := SetStatus(t, i, Failed);
    StatusSums(t, i, Failed, span, 0);
    if job.Remaining().Some? {
      var s := Snapshot(i, job, machines[job.machine]);
      hide FailureHandled, RowsOn, Attempts, CallsFor, RowDelta;
      FailureSums(t1, s, a, span, 0);
      FailureFrame(t1, s, a);
    }
  }

  lemma DesktopRowAdds(t: Table, jobs: seq<Job>, i: nat, machines: Machines, offline: nat -> bool, a: Answers, span: Span)
    requires i < |jobs| && AsRead(t, jobs, i, machines, offline)
    ensures var t' := DesktopScanned(t, i, jobs[i], machines, offline(i), a);
      && AsRead(t', jobs, i + 1, machines, offline)
      && RowsOn(t'.rows, span) == RowsOn(t.rows, span)
           + (if Abandoned(jobs[i], machines, offline(i)) && jobs[i].Remaining().Some?
                then RowDelta(jobs[i], machines[jobs[i].machine], a, span) else 0)
  {
    hide RowsOn, RowDelta, FailureHandled;
    if Abandoned(jobs[i], machines, offline(i)) { AbandonedAdds(t, i, jobs[i], machines, a, span); }
  }

  lemma {:induction false} DesktopsAddAtMost(t: Table, jobs: seq<Job>, i: nat, machines: Machines, offline: nat -> bool,
                                             answers: nat -> Answers, span: Span)
    requires AsRead(t, jobs, i, machines, offline)
    ensures var t' := DesktopsScanned(t, jobs, i, machines, offline, answers);
      && Ahead(t', jobs, 0)
      && RowsOn(t'.rows, span) <= RowsOn(t.rows, span) + DesktopGain(jobs, i, machines, offline, span)
    decreases |jobs| - i
  {
    if i < |jobs| {
      DesktopRowAdds(t, jobs, i, machines, offline, answers(i), span);
      hide DesktopScanned, RowsOn, Abandoned, AsRead;
      DesktopsAddAtMost(DesktopScanned(t, i, jobs[i], machines, offline(i), answers(i)), jobs, i + 1, machines, offline, answers,
                        span);
    }
  }

  /** Every retry throws, and then there is another machine. */
  function WorstForDesktops(jobs: seq<Job>, i: nat): Answers {
    Answers(true, if i < |jobs| then [Another(jobs[i].machine)] else [], false)
  }

  lemma WorstAbandoned(jobs: seq<Job>, i: nat, kind: FD.MachineType, span: Span)
    requires i < |jobs| && jobs[i].Remaining().Some?
    ensures RowDelta(jobs[i], kind, WorstForDesktops(jobs, i), span) == AbandonedGain(jobs[i], span)
  {
    AnotherIsChosen(jobs[i].machine, kind);
    hide ChooseFailover;
  }

  lemma {:induction false} WorstDesktops(t: Table, jobs: seq<Job>, i: nat, machines: Machines, offline: nat -> bool, span: Span)
    requires AsRead(t, jobs, i, machines, offline)
    ensures var t' := DesktopsScanned(t, jobs, i, machines, offline, (k: nat) => WorstForDesktops(jobs, k));
      && Ahead(t', jobs, 0)
      && RowsOn(t'.rows, span) == RowsOn(t.rows, span) + DesktopGain(jobs, i, machines, offline, span)
    decreases |jobs| - i
  {
    var answers := (k: nat) => WorstForDesktops(jobs, k);
    if i < |jobs| {
      DesktopRowAdds(t, jobs, i, machines, offline, answers(i), span);
      if Abandoned(jobs[i], machines, offline(i)) && jobs[i].Remaining().Some? {
        WorstAbandoned(jobs, i, machines[jobs[i].machine], span);
      }
      hide DesktopScanned, RowsOn, AsRead, RowDelta, WorstForDesktops;
      WorstDesktops(DesktopScanned(t, i, jobs[i], machines, offline(i), answers(i)), jobs, i + 1, machines, offline, span);
    }
  }

  /** The most rows one tick can leave on a range, from the rows it starts with. */
  function MostRows(rows: seq<Job>, machines: Machines, offline: nat -> bool, span: Span): int {
    RowsOn(rows, span) + DesktopGain(rows, 0, machines, offline, span)
    + Net(rows, 0, machines, span, CoveredBy(rows, |rows|))
  }

  lemma AfterOrphans(t: Table, machines: Machines, stuck: nat -> bool, offline: nat -> bool, span: Span)
    ensures var t1 := OrphansScanned(t, t.rows, 0, machines, stuck);
      AsRead(t1, t.rows, 0, machines, offline) && RowsOn(t1.rows, span) == RowsOn(t.rows, span)
  {
    OrphansAddNone(t, t.rows, 0, machines, stuck, span);
  }

  lemma {:induction false} OrphansAddNone(t: Table, jobs: seq<Job>, i: nat, machines: Machines, stuck: nat -> bool, span: Span)
    requires i <= |jobs| <= |t.rows|
    ensures var t' := OrphansScanned(t, jobs, i, machines, stuck);
      && RowsOn(t'.rows, span) == RowsOn(t.rows, span) && |t'.rows| == |t.rows|
      && forall k :: 0 <= k < |jobs| && !(jobs[k].Active() && OnServerless(jobs[k], machines)) ==> t'.rows[k] == t.rows[k]
    decreases |jobs| - i
  {
    if i < |jobs| {
      var t1 := OrphanScanned(t, i, jobs[i], machines, stuck(i));
      if t1 != t { UpdateSums(t.rows, i, t1.rows[i], span); }
      assert t1 == t || t1 == t.(rows := t.rows[i := t1.rows[i]]);
      OrphansAddNone(t1, jobs, i + 1, machines, stuck, span);
    }
  }

  lemma TickAtMost(t: Table, machines: Machines, stuck: nat -> bool, offline: nat -> bool, desktop: nat -> Answers,
                   retry: nat -> Answers, span: Span)
    ensures RowsOn(Ticked(t, t.rows, machines, stuck, offline, desktop, retry).rows, span)
      <= MostRows(t.rows, machines, offline, span)
  {
    var jobs := t.rows;
    AfterOrphans(t, machines, stuck, offline, span);
    hide RowsOn, Net, DesktopGain, CoveredBy;
    var t1 := OrphansScanned(t, jobs, 0, machines, stuck);
    DesktopsAddAtMost(t1, jobs, 0, machines, offline, desktop, span);
    var t2 := DesktopsScanned(t1, jobs, 0, machines, offline, desktop);
    PassAddsAtMost(t2, jobs, 0, machines, retry, CoveredBy(jobs, |jobs|), span);
  }

  lemma WorstTick(t: Table, machines: Machines, stuck: nat -> bool, offline: nat -> bool, span: Span)
    ensures RowsOn(Ticked(t, t.rows, machines, stuck, offline, (k: nat) => WorstForDesktops(t.rows, k),
                          (k: nat) => Worst(t.rows, machines, span, k)).rows, span)
      == MostRows(t.rows, machines, offline, span)
  {
    var jobs := t.rows;
    AfterOrphans(t, machines, stuck, offline, span);
    hide RowsOn, Net, DesktopGain, CoveredBy;
    var t1 := OrphansScanned(t, jobs, 0, machines, stuck);
    WorstDesktops(t1, jobs, 0, machines, offline, span);
    var t2 := DesktopsScanned(t1, jobs, 0, machines, offline, (k: nat) => WorstForDesktops(jobs, k));
    WorstPass(t2, jobs, 0, machines, CoveredBy(jobs, |jobs|), span);
  }

  /** One tick, all answers: the range has at most `limit` rows afterwards, whatever the outside world answers, exactly if the
      number computed from the rows before is at most `limit`. */
  lemma TickStaysIff(t: Table, machines: Machines, stuck: nat -> bool, offline: nat -> bool, span: Span, limit: int)
    ensures (forall desktop, retry :: RowsOn(Ticked(t, t.rows, machines, stuck, offline, desktop, retry).rows, span) <= limit)
      <==> MostRows(t.rows, machines, offline, span) <= limit
  {
    hide RowsOn, MostRows, Ticked;
    forall desktop, retry
      ensures RowsOn(Ticked(t, t.rows, machines, stuck, offline, desktop, retry).rows, span)
        <= MostRows(t.rows, machines, offline, span)
    {
      TickAtMost(t, machines, stuck, offline, desktop, retry, span);
    }
    WorstTick(t, machines, stuck, offline, span);
  }

  // ---------------------------------------------------------------------------
  // Failures reported by workers are not counted
  // ---------------------------------------------------------------------------

  /** A row without retries left fails over on every report, and the new row can do the same. */
  ghost function Bounced(t: Table, n: nat, kind: FD.MachineType, a: Answers): Table {
    if n == 0 then t
    else
      var before := Bounced(t, n - 1, kind, a);
      if before.rows == [] then before else FailureReported(before, |before.rows| - 1, kind, a)
  }

  ghost predicate LastIsFresh(t: Table) {
    && t.rows != []
    && var row := t.rows[|t.rows| - 1];
       row.status.Pending? && row.rendered == 0 && row.attempt >= row.maxRetries && row.maxRetries == 0
       && Range(row) == (1, 10)
  }

  lemma BounceAdds(t: Table, kind: FD.MachineType, a: Answers)
    requires LastIsFresh(t) && !a.failoverThrows
    requires ChooseFailover(a.candidates, t.rows[|t.rows| - 1].machine, kind).Some?
    ensures var t' := FailureReported(t, |t.rows| - 1, kind, a);
      && LastIsFresh(t') && RowsOn(t'.rows, (1, 10)) == RowsOn(t.rows, (1, 10)) + 1
      && t'.rows[|t'.rows| - 1].machine
           == ChooseFailover(a.candidates, t.rows[|t.rows| - 1].machine, kind).value.id
  {
    var id := |t.rows| - 1;
    var last := t.rows[id];
    assert last.RemainingStart() == 1;
    var t1, t' := SetStatus(t, id, Failed), FailureReported(t, id, kind, a);
    UpdateSums(t.rows, id, last.(status := Failed), (1, 10));
    assert SetStatus(t1, id, Failed) == t1;
    assert t'.rows == t1.rows + [t'.rows[|t.rows|]];
    AppendSums(t1.rows, t'.rows[|t.rows|], (1, 10));
  }

  /** With two Vast machines always available, n reported failures of one row without retries leave n + 1 rows on
      the same range: only the retry pass counts failures. */
  lemma {:induction false} ReportedFailuresAreUnbounded(n: nat, v: FD.Machine, u: FD.Machine)
    requires v.id != u.id && v.kind.VastServerless? && u.kind.VastServerless?
    ensures var row := Job(v.id, Pending, 1, 10, 1, 0, 10, 0, 0, 0);
      var t := Bounced(Table([row], [Call(0, 1, 10, 1)], [1]), n, FD.VastServerless, Answers(false, [v, u], false));
      LastIsFresh(t) && RowsOn(t.rows, (1, 10)) == n + 1
  {
    var row := Job(v.id, Pending, 1, 10, 1, 0, 10, 0, 0, 0);
    var a := Answers(false, [v, u], false);
    var t0 := Table([row], [Call(0, 1, 10, 1)], [1]);
    if n == 0 {
      assert [row] == [] + [row];
      AppendSums([], row, (1, 10));
    } else {
      ReportedFailuresAreUnbounded(n - 1, v, u);
      var t := Bounced(t0, n - 1, FD.VastServerless, a);
      FailoverPreference([v, u], t.rows[|t.rows| - 1].machine, FD.VastServerless);
      assert v in [v, u] && u in [v, u];
      BounceAdds(t, FD.VastServerless, a);
    }
  }
}
