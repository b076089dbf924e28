/** How long a part is, how often it is tried, and how many workers and parts a request there are. */
module UploadAttempts {
  import opened Grid
  import opened MultipartUpload
  import opened UploadSafety

  // ---------------------------------------------------------------------------
  // Slices and batches
  // ---------------------------------------------------------------------------

  /** Part n is the bytes from (n - 1) * partSize on: partSize of them, the rest of the file if that is less, none past it. */
  lemma SliceOfPart(c: Config, n: Part)
    ensures var start, slice := (n - 1) * c.partSize, Slice(c, n);
      && |slice| == Max(0, Min(c.partSize, |c.file| - start))
      && forall i :: 0 <= i < |slice| ==> slice[i] == c.file[start + i]
  {
    assert n * c.partSize == (n - 1) * c.partSize + c.partSize;
    var a, b := (n - 1) * c.partSize, n * c.partSize;
    assert EndOf(c, n - 1) == Min(|c.file|, a) && EndOf(c, n) == Min(|c.file|, b);
  }

  /** A part's batch is the sixteen parts, or as many as there are, from one more than a multiple of sixteen. */
  lemma BatchIsSixteen(c: Config, part: Part, p: int)
    ensures var b := BatchStart(part);
      b % 16 == 1 && b <= part < b + 16 && (InBatch(c, p, b) <==> b <= p < b + 16 && p <= c.totalParts)
  {
    var b := BatchStart(part);
    var q := (part - 1) / 16;
    assert b == q * 16 + 1;
    if b <= p < b + 16 { DivUnique(p - 1, 16, q, p - b); }
  }

  // ---------------------------------------------------------------------------
  // Attempts
  // ---------------------------------------------------------------------------

  /** How many attempts of a worker have failed since it last got a URL. */
  function FailedAttempts(events: seq<Event>, w: nat): nat {
    if events == [] then 0
    else
      var before, last := events[..|events| - 1], events[|events| - 1];
      if last == Start(w) then 0 else FailedAttempts(before, w) + if last == Catch(w) then 1 else 0
  }

  predicate CountsAttempts(wk: Worker, failed: nat) {
    match wk
    case Sending(_, _, attempt, _, _, _) => attempt == failed + 1 <= 3
    case Lost(_, _, attempt, _, _) => attempt == failed + 1 <= 3
    case Sleeping(_, _, attempt) => attempt == failed <= 2
    case _ => true
  }

  ghost predicate AttemptsCounted(s: State, events: seq<Event>) {
    forall w :: 0 <= w < |s.workers| ==> CountsAttempts(s.workers[w], FailedAttempts(events, w))
  }

  lemma OneMore(events: seq<Event>, ev: Event, w: nat)
    ensures FailedAttempts(events + [ev], w)
      == if ev == Start(w) then 0 else FailedAttempts(events, w) + if ev == Catch(w) then 1 else 0
  {
    assert (events + [ev])[..|events|] == events;
  }

  /** Only worker w goes on, and its attempt is still the count of the failed ones and one. */
  predicate KeepsCount(s: State, s': State, w: nat, failed: nat, failed': nat) {
    && w < |s.workers| && |s'.workers| == |s.workers| && s'.workers == s.workers[w := s'.workers[w]]
    && (CountsAttempts(s.workers[w], failed) ==> CountsAttempts(s'.workers[w], failed'))
  }

  lemma BeginKeepsCount(c: Config, s: State, w: nat, failed: nat)
    requires w < |s.workers|
    ensures KeepsCount(s, Begun(c, s, w), w, failed, failed)
  {
    hide BatchStart;
  }

  lemma StoreKeepsCount(c: Config, s: State, w: nat, failed: nat)
    requires w < |s.workers| && s.workers[w].Sent?
    ensures KeepsCount(s, Stored(c, s, w), w, failed, failed)
  {
    BeginKeepsCount(c, WithEtag(s, w), w, failed);
    hide Begun;
  }

  lemma AwaitedHasUrlOrThrows(s: State, w: nat)
    requires w < |s.workers| && s.workers[w].Waiting? && s.workers[w].fetch < |s.fetches|
    ensures var s' := Awaited(s, w); |s'.workers| == |s.workers| && (s'.workers[w].HasUrl? || s'.workers[w].Throwing?)
  {
    hide BatchStart;
  }

  lemma AwaitKeepsCount(c: Config, s: State, w: nat, failed: nat)
    requires Enabled(c, s, Await(w))
    ensures KeepsCount(s, Awaited(s, w), w, failed, failed)
  {
    hide Awaited, WorkerCounts, WorkerBacked, CacheIssued, Grows, KeepsUrls;
    AwaitProper(c, s, w);
    AwaitedHasUrlOrThrows(s, w);
  }

  lemma LoadKeepsCount(c: Config, s: State, w: nat, ok: bool, etag: string, failed: nat)
    requires w < |s.workers| && s.workers[w].Sending?
    ensures KeepsCount(s, Loaded(c, s, w, ok, etag), w, failed, failed)
  {
    hide Slice, Size;
  }

  lemma SendKeepsCount(c: Config, s: State, w: nat, loaded: nat, failed: nat)
    requires w < |s.workers|
    ensures s.workers[w].HasUrl? ==> KeepsCount(s, Started(s, w), w, failed, 0)
    ensures s.workers[w].Sending? ==> KeepsCount(s, Progressed(c, s, w, loaded), w, failed, failed)
    ensures s.workers[w].Sending? ==> KeepsCount(s, Errored(s, w), w, failed, failed)
    ensures s.workers[w].Sleeping? ==> KeepsCount(s, Woken(s, w), w, failed, failed)
    ensures s.workers[w].Throwing? ==> KeepsCount(s, GivenUp(s, w), w, failed, failed)
  {
    hide Slice, Size;
  }

  lemma CatchKeepsCount(s: State, w: nat, failed: nat)
    requires w < |s.workers| && s.workers[w].Lost?
    ensures KeepsCount(s, Caught(s, w), w, failed, failed + 1)
  {
  }

  predicate IsWorkers(ev: Event) { !ev.Answer? && !ev.Refuse? && !ev.Complete? }

  lemma SectionKeepsCount(c: Config, s: State, ev: Event, failed: nat)
    requires Enabled(c, s, ev) && IsWorkers(ev)
    ensures KeepsCount(s, After(c, s, ev), ev.w, failed, if ev.Start? then 0 else failed + if ev.Catch? then 1 else 0)
  {
    hide KeepsCount, Awaited, Started, Progressed, Loaded, Errored, Caught, Woken, Begun, Stored, GivenUp, Completed;
    match ev
    case Run(w) => BeginKeepsCount(c, s, w, failed);
    case Await(w) => AwaitKeepsCount(c, s, w, failed);
    case Start(w) => SendKeepsCount(c, s, w, 0, failed);
    case Progress(w, loaded) => SendKeepsCount(c, s, w, loaded, failed);
    case Load(w, ok, etag) => LoadKeepsCount(c, s, w, ok, etag, failed);
    case Fail(w) => SendKeepsCount(c, s, w, 0, failed);
    case Catch(w) => CatchKeepsCount(s, w, failed);
    case Wake(w) => SendKeepsCount(c, s, w, 0, failed);
    case Store(w) => StoreKeepsCount(c, s, w, failed);
    case GiveUp(w) => SendKeepsCount(c, s, w, 0, failed);
  }

  lemma {:induction false} AttemptsKept(c: Config, s: State, events: seq<Event>, ev: Event)
    requires Enabled(c, s, ev) && AttemptsCounted(s, events)
    ensures |After(c, s, ev).workers| == |s.workers| && AttemptsCounted(After(c, s, ev), events + [ev])
  {
    if IsWorkers(ev) { SectionKeepsCount(c, s, ev, FailedAttempts(events, ev.w)); }
    assert !IsWorkers(ev) ==> After(c, s, ev).workers == s.workers;
    hide After, Enabled, CountsAttempts, FailedAttempts;
    forall w | 0 <= w < |s.workers| ensures CountsAttempts(After(c, s, ev).workers[w], FailedAttempts(events + [ev], w)) {
      OneMore(events, ev, w);
      assert CountsAttempts(s.workers[w], FailedAttempts(events, w));
    }
  }

  lemma {:induction false} RunCountsAttempts(c: Config, s: State, past: seq<Event>, events: seq<Event>, s': State)
    requires Reaches(c, s, events, s') && AttemptsCounted(s, past) && |s.workers| >= 1
    ensures |s'.workers| == |s.workers| && AttemptsCounted(s', past + events)
    decreases |events|
  {
    hide After, Enabled, AttemptsCounted;
    if events == [] {
      assert past + events == past;
    } else {
      AttemptsKept(c, s, past, events[0]);
      RunCountsAttempts(c, After(c, s, events[0]), past + [events[0]], events[1..], s');
      assert past + [events[0]] + events[1..] == past + events;
    }
  }

  /** There are never more than four workers. */
  lemma FourWorkers(c: Config, events: seq<Event>, s: State)
    requires Valid(c) && Reaches(c, Initial(c), events, s)
    ensures |s.workers| == Min(4, c.totalParts)
  {
    RunCountsAttempts(c, Initial(c), [], events, s);
  }

  /** In every interleaving a part whose attempt fails is tried again after the first and the second failure, and given up after
      the third. */
  lemma ThreeAttempts(c: Config, events: seq<Event>, s: State, w: nat)
    requires Valid(c) && Reaches(c, Initial(c), events, s) && Enabled(c, s, Catch(w))
    ensures var s', part, failed := After(c, s, Catch(w)), s.workers[w].part, FailedAttempts(events + [Catch(w)], w);
      && 1 <= failed <= 3
      && (failed < 3 ==> s'.workers[w].Sleeping? && s'.workers[w].part == part && s'.past.broken == s.past.broken)
      && (failed == 3 ==> s'.workers[w] == Throwing(part) && s'.past.broken == s.past.broken + {part})
  {
    RunCountsAttempts(c, Initial(c), [], events, s);
    assert [] + events == events;
    OneMore(events, Catch(w), w);
    hide Reaches, FailedAttempts;
    assert CountsAttempts(s.workers[w], FailedAttempts(events, w));
  }
}
