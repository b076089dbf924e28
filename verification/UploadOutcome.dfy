/** The promises of the multipart upload, over every interleaving of its workers. */
module UploadOutcome {
  import opened Grid
  import opened RenderJobs
  import opened MultipartUpload
  import opened UploadBatches
  import opened UploadSafety

  predicate AllStopped(s: State) { forall i :: 0 <= i < |s.workers| ==> s.workers[i].Stopped? }

  predicate SomeThrowing(s: State) { exists i :: 0 <= i < |s.workers| && s.workers[i].Throwing? }

  ghost predicate WellSent(c: Config, s: State) {
    && !s.failed && s.past.broken == {} && AllStopped(s) && AllStored(c, s)
    && s.completed == Some(PartList(s.etags, c.totalParts))
  }

  /** A part given up is an error, seen or about to be seen; `complete` goes out only when all is well. */
  ghost predicate Outcome(c: Config, s: State) {
    && |s.workers| >= 1
    && (s.past.broken != {} ==> s.failed || SomeThrowing(s))
    && (s.completed.Some? ==> WellSent(c, s))
  }

  lemma OutcomeInner(c: Config, s: State, s': State, w: nat)
    requires Outcome(c, s) && Proper(c, s, s', w)
    ensures Outcome(c, s')
  {
    hide WorkerBacked, CacheIssued, WorkerCounts, Grows, HasPut, KeepsUrls;
    assert !s.workers[w].Stopped?;
    assert s.completed.None?;
    if s'.workers[w].Throwing? {
      assert SomeThrowing(s');
    } else if SomeThrowing(s) {
      var i :| 0 <= i < |s.workers| && s.workers[i].Throwing?;
      assert i != w && s'.workers[i].Throwing?;
    }
  }

  lemma OutcomeStarts(c: Config, s: State, s': State, w: nat)
    requires Outcome(c, s) && Starts(c, s, s', w) && s.workers[w].Ready?
    ensures Outcome(c, s')
  {
    hide WorkerCounts;
    assert !s.workers[w].Stopped?;
    assert s.completed.None?;
    if SomeThrowing(s) {
      var i :| 0 <= i < |s.workers| && s.workers[i].Throwing?;
      assert i != w && s'.workers[i].Throwing?;
    }
  }

  lemma OutcomeStore(c: Config, s: State, w: nat)
    requires Outcome(c, s) && w < |s.workers| && s.workers[w].Sent?
    ensures Outcome(c, Stored(c, s, w))
  {
    var s1 := WithEtag(s, w);
    var s2 := Moved(s1, w, Ready);
    BeginOverwrites(c, s1, w);
    BeginStarts(c, s2, w);
    assert !s.workers[w].Stopped?;
    if SomeThrowing(s) {
      var i :| 0 <= i < |s.workers| && s.workers[i].Throwing?;
      assert i != w && s2.workers[i].Throwing?;
    }
    hide Begun;
    OutcomeStarts(c, s2, Begun(c, s2, w), w);
  }

  lemma OutcomeBegin(c: Config, s: State, w: nat)
    requires Outcome(c, s) && w < |s.workers| && s.workers[w].Ready?
    ensures Outcome(c, Begun(c, s, w))
  {
    BeginStarts(c, s, w);
    hide Begun, Outcome;
    OutcomeStarts(c, s, Begun(c, s, w), w);
  }

  lemma OutcomeGiveUp(c: Config, s: State, w: nat)
    requires Outcome(c, s) && w < |s.workers| && s.workers[w].Throwing?
    ensures Outcome(c, GivenUp(s, w))
  {
    assert !s.workers[w].Stopped?;
  }

  lemma OutcomeSame(c: Config, s: State, s': State)
    requires Outcome(c, s) && s'.workers == s.workers && s'.etags == s.etags && s'.failed == s.failed
    requires s'.past.broken == s.past.broken && s'.completed == s.completed
    ensures Outcome(c, s')
  {
  }

  lemma OutcomeComplete(c: Config, s: State)
    requires Outcome(c, s) && AllStopped(s)
    ensures Outcome(c, Completed(c, s))
  {
    assert !SomeThrowing(s);
  }

  lemma OutcomeKept(c: Config, s: State, ev: Event)
    requires Outcome(c, s) && Enabled(c, s, ev)
    ensures Outcome(c, After(c, s, ev))
  {
    hide Outcome, Begun, Stored, GivenUp, Completed, Size;
    if IsInner(ev) {
      InnerIsProper(c, s, ev);
      hide After;
      OutcomeInner(c, s, After(c, s, ev), ev.w);
    } else {
      match ev
      case GiveUp(w) => OutcomeGiveUp(c, s, w);
      case Run(w) => OutcomeBegin(c, s, w);
      case Store(w) => OutcomeStore(c, s, w);
      case Answer(_, _) => OutcomeSame(c, s, After(c, s, ev));
      case Refuse(_) => OutcomeSame(c, s, After(c, s, ev));
      case Complete => OutcomeComplete(c, s);
    }
  }

  /** Everything the interleavings keep. */
  ghost predicate Safe(c: Config, s: State) {
    Claims(c, s) && Backed(c, s) && Accounted(c, s) && Batched(c, s) && Outcome(c, s)
  }

  lemma {:induction false} NoneReady(c: Config, workers: seq<Worker>)
    requires forall i :: 0 <= i < |workers| ==> workers[i] == Ready
    ensures Bytes(workers) == 0 && HeldSizes(c, workers) == 0
  {
    if workers != [] {
      assert forall i :: 0 <= i < |workers[1..]| ==> workers[1..][i] == workers[i + 1];
      NoneReady(c, workers[1..]);
    }
  }

  lemma {:induction false} NothingFinished(c: Config, n: nat)
    ensures Finished(c, map[], n) == 0 && Excess(c, map[], n) == 0
  {
    if n > 0 { NothingFinished(c, n - 1); }
  }

  lemma InitialIsSafe(c: Config)
    requires Valid(c)
    ensures Safe(c, Initial(c))
  {
    NoneReady(c, Initial(c).workers);
    NothingFinished(c, c.totalParts);
    UnclaimedFits(c, 1);
    hide Unclaimed, Finished, Bytes, HeldSizes, Excess;
    assert EndOf(c, 0) == 0;
  }

  lemma SafeKept(c: Config, s: State, ev: Event)
    requires Safe(c, s) && Enabled(c, s, ev)
    ensures Safe(c, After(c, s, ev))
  {
    hide Claims, Backed, Accounted, Batched, Outcome, After, Enabled;
    ClaimsKept(c, s, ev);
    BackedKept(c, s, ev);
    AccountedKept(c, s, ev);
    BatchedKept(c, s, ev);
    OutcomeKept(c, s, ev);
  }

  lemma {:induction false} RunIsSafe(c: Config, s: State, events: seq<Event>, s': State)
    requires Safe(c, s) && Reaches(c, s, events, s')
    ensures Safe(c, s')
    decreases |events|
  {
    hide Safe, After, Enabled;
    if events != [] {
      SafeKept(c, s, events[0]);
      RunIsSafe(c, After(c, s, events[0]), events[1..], s');
    }
  }

  // ---------------------------------------------------------------------------
  // What is promised
  // ---------------------------------------------------------------------------

  /** `complete` lists parts 1 to totalParts in order, each with the etag the storage gave for that part's own slice at a
      URL issued for that part; and the slices are the file exactly when the parts cover it. */
  lemma CompleteIsRight(c: Config, events: seq<Event>, s: State)
    requires Valid(c) && Reaches(c, Initial(c), events, s) && s.completed.Some?
    ensures |s.completed.value| == c.totalParts
    ensures forall i :: 0 <= i < c.totalParts ==>
      s.completed.value[i].0 == i + 1 && HasPut(c, s, i + 1, s.completed.value[i].1)
    ensures Joined(c, c.totalParts) == c.file <==> c.totalParts * c.partSize >= |c.file|
  {
    InitialIsSafe(c);
    RunIsSafe(c, Initial(c), events, s);
    PartsMakeTheFileIff(c);
  }

  lemma {:induction false} BrokenGrows(c: Config, s: State, events: seq<Event>, s': State)
    requires Reaches(c, s, events, s')
    ensures s.past.broken <= s'.past.broken
    decreases |events|
  {
    if events != [] {
      BrokenStep(c, s, events[0]);
      hide After, Enabled;
      BrokenGrows(c, After(c, s, events[0]), events[1..], s');
    }
  }

  lemma BrokenStep(c: Config, s: State, ev: Event)
    requires Enabled(c, s, ev)
    ensures s.past.broken <= After(c, s, ev).past.broken
  {
    hide Begun, Completed, IsFull, WorkerBacked, WorkerCounts, CacheIssued;
    if IsInner(ev) {
      InnerIsProper(c, s, ev);
      hide After;
    } else {
      match ev
      case Run(w) => BeginStarts(c, s, w);
      case Store(w) => BeginStarts(c, WithEtag(s, w), w);
      case Complete => assert Completed(c, s).past.broken == s.past.broken by { CompletedKeepsBroken(c, s); }
      case _ =>
    }
  }

  lemma CompletedKeepsBroken(c: Config, s: State)
    ensures Completed(c, s).past.broken == s.past.broken
  {
  }

  /** Once a part has failed all three attempts, `complete` is never sent, however the workers go on. */
  lemma NoCompleteAfterFailure(c: Config, events: seq<Event>, s: State, more: seq<Event>, s': State)
    requires Valid(c) && Reaches(c, Initial(c), events, s) && s.past.broken != {}
    requires Reaches(c, s, more, s')
    ensures s'.completed.None? && (AllStopped(s') ==> s'.failed)
  {
    InitialIsSafe(c);
    RunIsSafe(c, Initial(c), events, s);
    RunIsSafe(c, s, more, s');
    BrokenGrows(c, s, more, s');
    var p :| p in s.past.broken;
    assert p in s'.past.broken;
  }

  // ---------------------------------------------------------------------------
  // The byte counter
  // ---------------------------------------------------------------------------

  /** The last attempt of every stored part had steady progress reports. */
  predicate StoredSteadily(s: State) {
    forall p :: p in s.past.tallies ==> s.past.tallies[p].steady
  }

  /** So do the attempts under way, and those that just ended. */
  predicate RunningSteadily(s: State) {
    forall i :: 0 <= i < |s.workers| && (s.workers[i].Sending? || s.workers[i].Lost? || s.workers[i].Sent?) ==>
      s.workers[i].steady
  }

  lemma {:induction false} ExcessIsOvercount(c: Config, s: State, n: nat)
    requires Tallied(c, s)
    ensures Excess(c, s.past.tallies, n) >= 0
    ensures Excess(c, s.past.tallies, n) == 0
      <==> forall p: Part :: p <= n && p in s.past.tallies ==> s.past.tallies[p].steady
  {
    hide Size;
    if n > 0 { ExcessIsOvercount(c, s, n - 1); }
  }

  lemma {:induction false} RunningFits(c: Config, workers: seq<Worker>)
    requires AllCount(c, workers)
    requires forall i :: 0 <= i < |workers| && (workers[i].Sending? || workers[i].Lost? || workers[i].Sent?) ==>
      workers[i].steady
    ensures Bytes(workers) <= HeldSizes(c, workers)
  {
    if workers != [] {
      assert WorkerCounts(c, workers[0]);
      hide Size;
      assert forall i :: 0 <= i < |workers[1..]| ==> workers[1..][i] == workers[i + 1];
      RunningFits(c, workers[1..]);
    }
  }

  lemma {:induction false} NothingRunning(workers: seq<Worker>)
    requires forall i :: 0 <= i < |workers| ==> workers[i].Stopped?
    ensures Bytes(workers) == 0
  {
    if workers != [] {
      assert forall i :: 0 <= i < |workers[1..]| ==> workers[1..][i] == workers[i + 1];
      NothingRunning(workers[1..]);
    }
  }

  lemma {:induction false} FinishedIsEnd(c: Config, etags: map<Part, string>, n: nat)
    requires forall p: Part :: p <= n ==> p in etags
    ensures Finished(c, etags, n) == EndOf(c, n)
  {
    if n > 0 {
      FinishedIsEnd(c, etags, n - 1);
      EndsGrow(c, n - 1);
    }
  }

  /** In every run the counter is exactly the finished parts, what they were counted for beyond their sizes, and the running
      attempts.  It is the finished parts and the running attempts alone exactly when the stored attempts were steady. */
  lemma BytesAreExact(c: Config, events: seq<Event>, s: State)
    requires Valid(c) && Reaches(c, Initial(c), events, s)
    ensures var finished, excess := Finished(c, s.etags, c.totalParts), Excess(c, s.past.tallies, c.totalParts);
      && s.uploadedBytes == finished + excess + Bytes(s.workers) && excess >= 0
      && (s.uploadedBytes == finished + Bytes(s.workers) <==> StoredSteadily(s))
  {
    InitialIsSafe(c);
    RunIsSafe(c, Initial(c), events, s);
    ExcessIsOvercount(c, s, c.totalParts);
    hide Size, Finished, Excess, Backed, Batched, Outcome;
    forall p | p in s.past.tallies ensures p <= c.totalParts {
      assert p in s.etags;
    }
  }

  /** While stored and running attempts are steady the counter never leaves 0 to the file's size, whatever happened in
      attempts that failed and were taken back. */
  lemma BytesAreRight(c: Config, events: seq<Event>, s: State)
    requires Valid(c) && Reaches(c, Initial(c), events, s) && StoredSteadily(s) && RunningSteadily(s)
    ensures 0 <= s.uploadedBytes <= |c.file|
  {
    BytesAreExact(c, events, s);
    InitialIsSafe(c);
    RunIsSafe(c, Initial(c), events, s);
    RunningFits(c, s.workers);
  }

  /** A completed upload whose parts cover the file counted no more than the file exactly when all stored attempts were
      steady, and then exactly the file. */
  lemma FinalBytesIff(c: Config, events: seq<Event>, s: State)
    requires Valid(c) && Reaches(c, Initial(c), events, s) && s.completed.Some?
    ensures s.uploadedBytes == EndOf(c, c.totalParts) + Excess(c, s.past.tallies, c.totalParts)
    ensures c.totalParts * c.partSize >= |c.file| ==>
      && (s.uploadedBytes <= |c.file| <==> StoredSteadily(s))
      && (s.uploadedBytes == |c.file| <==> StoredSteadily(s))
  {
    BytesAreExact(c, events, s);
    InitialIsSafe(c);
    RunIsSafe(c, Initial(c), events, s);
    NothingRunning(s.workers);
    FinishedIsEnd(c, s.etags, c.totalParts);
  }

  /** No part is held twice, or held when stored; and when all workers have returned without error, every part is stored:
      a missing etag never stops an upload that had no error. */
  lemma ClaimsAreRight(c: Config, events: seq<Event>, s: State)
    requires Valid(c) && Reaches(c, Initial(c), events, s)
    ensures HeldApart(s.workers) && HoldSound(s.workers, s.etags, s.next)
    ensures !s.failed && AllStopped(s) ==> AllStored(c, s)
  {
    InitialIsSafe(c);
    RunIsSafe(c, Initial(c), events, s);
    if !s.failed && AllStopped(s) {
      assert s.workers[0].Stopped?;
      forall p: Part | p <= c.totalParts ensures p in s.etags && s.etags[p] != "" {
        assert !Holds(s.workers, p);
        assert HasPut(c, s, p, s.etags[p]);
      }
    }
  }

  /** When every response is full, no batch is requested twice, and a completed upload requested every batch. */
  lemma BatchesAreRight(c: Config, events: seq<Event>, s: State)
    requires Valid(c) && Reaches(c, Initial(c), events, s) && s.past.full
    ensures NoRepeat(s.fetches)
    ensures s.completed.Some? ==> forall p: Part :: p <= c.totalParts ==> Requested(s.fetches, BatchStart(p))
  {
    InitialIsSafe(c);
    RunIsSafe(c, Initial(c), events, s);
    hide BatchStart;
    if s.completed.Some? {
      forall p: Part | p <= c.totalParts ensures Requested(s.fetches, BatchStart(p)) {
        assert p in s.etags;
      }
    }
  }

  // ---------------------------------------------------------------------------
  // A run that overcounts
  // ---------------------------------------------------------------------------

  /** Eight bytes in one part of the least size there is. */
  function SmallUpload(): Config { Config([0, 0, 0, 0, 0, 0, 0, 0], MIN_PART_SIZE, 1) }

  lemma SmallSize()
    ensures Size(SmallUpload(), 1) == 8
  {
    assert EndOf(SmallUpload(), 0) == 0 && EndOf(SmallUpload(), 1) == 8;
  }

  /** The first part is claimed, its URL fetched, and its first attempt sent. */
  lemma SmallStarts() returns (events: seq<Event>, s: State)
    ensures Reaches(SmallUpload(), Initial(SmallUpload()), events, s)
    ensures s.workers == [Sending(1, "u", 1, 0, 0, true)] && s.next == 2 && !s.failed && s.completed.None?
    ensures s.uploadedBytes == 0 && s.etags == map[]
  {
    var c := SmallUpload();
    var s0 := Initial(c);
    assert s0.workers == [Ready];
    hide IsFull, Size;
    ReachesNext(c, s0, [], s0, Run(0));
    var s1 := After(c, s0, Run(0));
    assert s1.workers == [Waiting(1, 0)] && s1.fetches == [Fetch(1, Open)];
    var urls: map<int, string> := map[1 := "u"];
    ReachesNext(c, s0, [] + [Run(0)], s1, Answer(0, urls));
    var s2 := After(c, s1, Answer(0, urls));
    ReachesNext(c, s0, [] + [Run(0)] + [Answer(0, urls)], s2, Await(0));
    var s3 := After(c, s2, Await(0));
    assert s3.workers == [HasUrl(1, "u")];
    ReachesNext(c, s0, [] + [Run(0)] + [Answer(0, urls)] + [Await(0)], s3, Start(0));
    events := [] + [Run(0)] + [Answer(0, urls)] + [Await(0)] + [Start(0)];
    s := After(c, s3, Start(0));
  }

  /** All eight bytes are reported, then none, then all again. */
  lemma SmallRestarts() returns (events: seq<Event>, s: State)
    ensures Reaches(SmallUpload(), Initial(SmallUpload()), events, s)
    ensures s.workers == [Sending(1, "u", 1, 8, 16, false)] && s.next == 2 && !s.failed && s.completed.None?
    ensures s.uploadedBytes == 16 && s.etags == map[]
  {
    var c := SmallUpload();
    var s0 := Initial(c);
    SmallSize();
    hide Size;
    var first, s1 := SmallStarts();
    ReachesNext(c, s0, first, s1, Progress(0, 8));
    var s2 := After(c, s1, Progress(0, 8));
    ReachesNext(c, s0, first + [Progress(0, 8)], s2, Progress(0, 0));
    var s3 := After(c, s2, Progress(0, 0));
    ReachesNext(c, s0, first + [Progress(0, 8)] + [Progress(0, 0)], s3, Progress(0, 8));
    events := first + [Progress(0, 8)] + [Progress(0, 0)] + [Progress(0, 8)];
    s := After(c, s3, Progress(0, 8));
  }

  /** The part is accepted and its etag stored. */
  lemma SmallStores() returns (events: seq<Event>, s: State)
    ensures Reaches(SmallUpload(), Initial(SmallUpload()), events, s)
    ensures s.workers == [Stopped] && !s.failed && s.completed.None? && s.uploadedBytes == 16 && s.etags == map[1 := "e"]
  {
    var c := SmallUpload();
    var s0 := Initial(c);
    SmallSize();
    hide Size, Slice;
    var sent, s1 := SmallRestarts();
    ReachesNext(c, s0, sent, s1, Load(0, true, "e"));
    var s2 := After(c, s1, Load(0, true, "e"));
    assert s2.workers == [Sent(1, "e", 16, false)];
    ReachesNext(c, s0, sent + [Load(0, true, "e")], s2, Store(0));
    events := sent + [Load(0, true, "e")] + [Store(0)];
    s := After(c, s2, Store(0));
  }

  /** The bound needs steady reports: a report that goes back is not taken back, and what follows is counted again.  This
      upload of eight bytes completes with sixteen counted. */
  lemma RestartedProgressOvercounts() returns (events: seq<Event>, s: State)
    ensures Reaches(SmallUpload(), Initial(SmallUpload()), events, s)
    ensures |SmallUpload().file| == 8 && s.completed.Some? && s.uploadedBytes == 16
  {
    var c := SmallUpload();
    var stored, s1 := SmallStores();
    hide Reaches;
    ReachesNext(c, Initial(c), stored, s1, Complete);
    assert AllStored(c, s1);
    events := stored + [Complete];
    s := After(c, s1, Complete);
  }
}
