/** The uploader with the variables its closures share.  Every public method is one section between two awaits and adds its
    event to the run so far, so that what holds of every interleaving holds of the object. */
module Uploader {
  import opened Grid
  import opened MultipartUpload
  import opened RenderJobs
  import opened UploadOutcome
  import opened UploadSafety

  // ---------------------------------------------------------------------------
  // The events that change most
  // ---------------------------------------------------------------------------

  lemma AnswerHappens(c: Config, events: seq<Event>, s: State, fetch: nat, urls: map<int, string>)
    requires Reaches(c, Initial(c), events, s)
    requires fetch < |s.fetches| && s.fetches[fetch].status.Open?
    ensures Reaches(c, Initial(c), events + [Answer(fetch, urls)], Answered(c, s, fetch, urls))
  {
    hide Reaches, Answered, Awaited, Loaded, Caught, Stored, Progressed, Begun, Completed;
    ReachesNext(c, Initial(c), events, s, Answer(fetch, urls));
  }

  lemma AwaitHappens(c: Config, events: seq<Event>, s: State, w: nat)
    requires Reaches(c, Initial(c), events, s)
    requires w < |s.workers| && s.workers[w].Waiting? && s.workers[w].fetch < |s.fetches|
      && !s.fetches[s.workers[w].fetch].status.Open?
    ensures Reaches(c, Initial(c), events + [Await(w)], Awaited(s, w))
  {
    hide Reaches, Answered, Awaited, Loaded, Caught, Stored, Progressed, Begun, Completed;
    ReachesNext(c, Initial(c), events, s, Await(w));
  }

  lemma LoadHappens(c: Config, events: seq<Event>, s: State, w: nat, ok: bool, etag: string)
    requires Reaches(c, Initial(c), events, s)
    requires w < |s.workers| && s.workers[w].Sending?
    ensures Reaches(c, Initial(c), events + [Load(w, ok, etag)], Loaded(c, s, w, ok, etag))
  {
    hide Reaches, Answered, Awaited, Loaded, Caught, Stored, Progressed, Begun, Completed;
    ReachesNext(c, Initial(c), events, s, Load(w, ok, etag));
  }

  /** What a finished request changes, field by field. */
  lemma LoadedFields(c: Config, s: State, w: nat, ok: bool, etag: string)
    requires w < |s.workers| && s.workers[w].Sending?
    ensures var wk := s.workers[w];
      var rest: nat := if wk.loaded < Size(c, wk.part) then Size(c, wk.part) - wk.loaded else 0;
      Loaded(c, s, w, ok, etag)
      == if ok && etag != "" then
           s.(uploadedBytes := s.uploadedBytes + rest,
              workers := s.workers[w := Sent(wk.part, etag, wk.bytes + rest, wk.steady)],
              past := s.past.(puts := s.past.puts + [Put(wk.part, wk.url, Slice(c, wk.part), etag)]))
         else
           s.(uploadedBytes := s.uploadedBytes + rest,
              workers := s.workers[w := Lost(wk.part, wk.url, wk.attempt, wk.bytes + rest, wk.steady)])
  {
    hide Size, Slice;
  }

  lemma CatchHappens(c: Config, events: seq<Event>, s: State, w: nat)
    requires Reaches(c, Initial(c), events, s)
    requires w < |s.workers| && s.workers[w].Lost?
    ensures Reaches(c, Initial(c), events + [Catch(w)], Caught(s, w))
  {
    hide Reaches, Answered, Awaited, Loaded, Caught, Stored, Progressed, Begun, Completed;
    ReachesNext(c, Initial(c), events, s, Catch(w));
  }

  /** What a caught attempt changes, field by field. */
  lemma CaughtFields(s: State, w: nat)
    requires w < |s.workers| && s.workers[w].Lost?
    ensures var wk := s.workers[w];
      Caught(s, w)
      == if wk.attempt < ATTEMPTS then
           s.(uploadedBytes := s.uploadedBytes - wk.bytes,
              workers := s.workers[w := Sleeping(wk.part, wk.url, wk.attempt)])
         else
           s.(uploadedBytes := s.uploadedBytes - wk.bytes, workers := s.workers[w := Throwing(wk.part)],
              past := s.past.(broken := s.past.broken + {wk.part}))
  {
  }

  lemma StoreHappens(c: Config, events: seq<Event>, s: State, w: nat)
    requires Reaches(c, Initial(c), events, s)
    requires w < |s.workers| && s.workers[w].Sent?
    ensures Reaches(c, Initial(c), events + [Store(w)], Stored(c, s, w))
  {
    hide Reaches, Answered, Awaited, Loaded, Caught, Stored, Progressed, Begun, Completed;
    ReachesNext(c, Initial(c), events, s, Store(w));
  }

  lemma ProgressHappens(c: Config, events: seq<Event>, s: State, w: nat, loaded: nat)
    requires Reaches(c, Initial(c), events, s)
    requires w < |s.workers| && s.workers[w].Sending?
    ensures Reaches(c, Initial(c), events + [Progress(w, loaded)], Progressed(c, s, w, loaded))
  {
    hide Reaches, Answered, Awaited, Loaded, Caught, Stored, Progressed, Begun, Completed;
    ReachesNext(c, Initial(c), events, s, Progress(w, loaded));
  }

  class Upload {
    const c: Config
    var uploadedBytes: int
    var nextPartNumber: Part
    var firstError: bool
    var etags: map<Part, string>
    var partUrlCache: map<int, string>
    var batchInFlight: map<nat, nat>
    var promises: seq<Fetch>
    var workers: seq<Worker>
    var sentParts: Option<seq<(Part, string)>>
    ghost var past: Past
    ghost var events: seq<Event>

    ghost function Contents(): State
      reads this
    {
      State(uploadedBytes, nextPartNumber, firstError, etags, partUrlCache, batchInFlight, promises, workers, sentParts,
            past)
    }

    /** The object is where the events so far have taken it. */
    ghost predicate Valid()
      reads this
    {
      MultipartUpload.Valid(c) && Reaches(c, Initial(c), events, Contents())
    }

    /** Part size and count as the server proposed them, with the source's floors. */
    constructor (file: Blob, partSizeHint: nat, totalPartsHint: nat)
      ensures c == Config(file, Max(5 * 1024 * 1024, partSizeHint), Max(1, totalPartsHint))
      ensures Valid() && Contents() == Initial(c) && events == []
    {
      c := Config(file, Max(MIN_PART_SIZE, partSizeHint), Max(1, totalPartsHint));
      uploadedBytes, nextPartNumber, firstError := 0, 1, false;
      etags, partUrlCache, batchInFlight, promises := map[], map[], map[], [];
      workers := seq(Min(CONCURRENCY, Max(1, totalPartsHint)), _ => Ready);
      sentParts := None;
      past, events := Past({}, [], {}, true, map[]), [];
    }

    method ClaimNextPart() returns (n: Option<Part>)
      modifies this`nextPartNumber
      ensures n == if firstError || old(nextPartNumber) > c.totalParts then None else Some(old(nextPartNumber))
      ensures nextPartNumber == if n.Some? then old(nextPartNumber) + 1 else old(nextPartNumber)
    {
      if firstError || nextPartNumber > c.totalParts { return None; }
      n := Some(nextPartNumber);
      nextPartNumber := nextPartNumber + 1;
    }

    /** ensurePartUrl, up to its first await. */
    method EnsurePartUrl(w: nat, part: Part)
      requires w < |workers|
      modifies this`promises, this`batchInFlight, this`workers
      ensures Contents() == Asked(old(Contents()), w, part)
    {
      if part in partUrlCache {
        workers := workers[w := HasUrl(part, partUrlCache[part])];
        return;
      }
      var batchStart := BatchStart(part);
      if batchStart !in batchInFlight {
        batchInFlight := batchInFlight[batchStart := |promises|];
        promises := promises + [Fetch(batchStart, Open)];
      }
      workers := workers[w := Waiting(part, batchInFlight[batchStart])];
    }

    /** A worker's loop from its top to its first await. */
    method GoRound(w: nat)
      requires w < |workers|
      modifies this`nextPartNumber, this`promises, this`batchInFlight, this`workers
      ensures Contents() == Begun(c, old(Contents()), w)
    {
      var n := ClaimNextPart();
      if n.None? {
        workers := workers[w := Stopped];
      } else {
        EnsurePartUrl(w, n.value);
      }
    }

    /** A worker starts. */
    method RunWorker(w: nat)
      requires Valid()
      requires w < |workers| && workers[w].Ready?
      modifies this`nextPartNumber, this`promises, this`batchInFlight, this`workers, this`events
      ensures Contents() == Begun(c, old(Contents()), w)
      ensures Valid() && events == old(events) + [Run(w)]
    {
      assert Reaches(c, Initial(c), events + [Run(w)], Begun(c, Contents(), w)) by {
        ReachesNext(c, Initial(c), events, Contents(), Run(w));
      }
      hide Reaches, After, Enabled;
      events := events + [Run(w)];
      GoRound(w);
    }

    method ReceiveUrls(f: nat, urls: map<int, string>)
      requires Valid()
      requires f < |promises| && promises[f].status.Open?
      modifies this`partUrlCache, this`promises, this`past, this`events
      ensures Contents() == Answered(c, old(Contents()), f, urls)
      ensures Valid() && events == old(events) + [Answer(f, urls)]
    {
      hide Reaches, After, Enabled, IsFull;
      AnswerHappens(c, events, Contents(), f, urls);
      past := past.(issued := past.issued + urls.Items, full := past.full && IsFull(c, promises[f].batch, urls));
      partUrlCache, promises := partUrlCache + urls, promises[f := Fetch(promises[f].batch, Fulfilled)];
      events := events + [Answer(f, urls)];
    }

    method RefuseUrls(f: nat)
      requires Valid()
      requires f < |promises| && promises[f].status.Open?
      modifies this`promises, this`past, this`events
      ensures Contents() == Refused(old(Contents()), f)
      ensures Valid() && events == old(events) + [Refuse(f)]
    {
      assert Reaches(c, Initial(c), events + [Refuse(f)], Refused(Contents(), f)) by {
        ReachesNext(c, Initial(c), events, Contents(), Refuse(f));
      }
      hide Reaches, After, Enabled;
      events := events + [Refuse(f)];
      past := past.(full := false);
      promises := promises[f := Fetch(promises[f].batch, Rejected)];
    }

    /** ensurePartUrl after its await: forget the request, take the URL or throw. */
    method ResumeWithUrl(w: nat)
      requires Valid()
      requires w < |workers| && workers[w].Waiting? && workers[w].fetch < |promises|
      requires !promises[workers[w].fetch].status.Open?
      modifies this`partUrlCache, this`batchInFlight, this`workers, this`events
      ensures Contents() == Awaited(old(Contents()), w)
      ensures Valid() && events == old(events) + [Await(w)]
    {
      hide Reaches, After, Enabled, BatchStart;
      AwaitHappens(c, events, Contents(), w);
      events := events + [Await(w)];
      var part: Part, pending := workers[w].part, workers[w].fetch;
      var batchStart := BatchStart(part);
      if batchStart in batchInFlight && batchInFlight[batchStart] == pending {
        batchInFlight := batchInFlight - {batchStart};
      }
      if promises[pending].status.Rejected? || part !in partUrlCache || partUrlCache[part] == "" {
        workers := workers[w := Throwing(part)];
      } else {
        workers := workers[w := HasUrl(part, partUrlCache[part])];
        partUrlCache := partUrlCache - {part as int};
      }
    }

    method SendFirstAttempt(w: nat)
      requires Valid()
      requires w < |workers| && workers[w].HasUrl?
      modifies this`workers, this`events
      ensures Contents() == Started(old(Contents()), w)
      ensures Valid() && events == old(events) + [Start(w)]
    {
      assert Reaches(c, Initial(c), events + [Start(w)], Started(Contents(), w)) by {
        ReachesNext(c, Initial(c), events, Contents(), Start(w));
      }
      hide Reaches, After, Enabled;
      events := events + [Start(w)];
      workers := workers[w := Sending(workers[w].part, workers[w].url, 1, 0, 0, true)];
    }

    method OnProgress(w: nat, loaded: nat)
      requires Valid()
      requires w < |workers| && workers[w].Sending?
      modifies this`uploadedBytes, this`workers, this`events
      ensures Contents() == Progressed(c, old(Contents()), w, loaded)
      ensures Valid() && events == old(events) + [Progress(w, loaded)]
    {
      hide Reaches, After, Enabled;
      ProgressHappens(c, events, Contents(), w, loaded);
      events := events + [Progress(w, loaded)];
      var wk := workers[w];
      var delta := Max(0, loaded - wk.loaded);
      workers := workers[w := wk.(loaded := loaded, bytes := wk.bytes + delta,
                                 steady := wk.steady && IsSteady(c, wk, loaded))];
      uploadedBytes := uploadedBytes + delta;
    }

    method OnLoad(w: nat, ok: bool, etag: string)
      requires Valid()
      requires w < |workers| && workers[w].Sending?
      modifies this`uploadedBytes, this`workers, this`past, this`events
      ensures Contents() == Loaded(c, old(Contents()), w, ok, etag)
      ensures Valid() && events == old(events) + [Load(w, ok, etag)]
    {
      hide Reaches, After, Enabled, Slice, Size, Loaded;
      LoadHappens(c, events, Contents(), w, ok, etag);
      LoadedFields(c, Contents(), w, ok, etag);
      var wk := workers[w];
      var rest := if wk.loaded < Size(c, wk.part) then Size(c, wk.part) - wk.loaded else 0;
      uploadedBytes, events := uploadedBytes + rest, events + [Load(w, ok, etag)];
      if ok && etag != "" {
        workers := workers[w := Sent(wk.part, etag, wk.bytes + rest, wk.steady)];
        past := past.(puts := past.puts + [Put(wk.part, wk.url, Slice(c, wk.part), etag)]);
      } else {
        workers := workers[w := Lost(wk.part, wk.url, wk.attempt, wk.bytes + rest, wk.steady)];
      }
    }

    method OnError(w: nat)
      requires Valid()
      requires w < |workers| && workers[w].Sending?
      modifies this`workers, this`events
      ensures Contents() == Errored(old(Contents()), w)
      ensures Valid() && events == old(events) + [Fail(w)]
    {
      assert Reaches(c, Initial(c), events + [Fail(w)], Errored(Contents(), w)) by {
        ReachesNext(c, Initial(c), events, Contents(), Fail(w));
      }
      hide Reaches, After, Enabled;
      events := events + [Fail(w)];
      workers := workers[w := Lost(workers[w].part, workers[w].url, workers[w].attempt, workers[w].bytes,
                                 workers[w].steady)];
    }

    /** The catch of one attempt. */
    method CatchAttempt(w: nat)
      requires Valid()
      requires w < |workers| && workers[w].Lost?
      modifies this`uploadedBytes, this`workers, this`past, this`events
      ensures Contents() == Caught(old(Contents()), w)
      ensures Valid() && events == old(events) + [Catch(w)]
    {
      hide Reaches, After, Enabled, Caught;
      CatchHappens(c, events, Contents(), w);
      CaughtFields(Contents(), w);
      var wk := workers[w];
      uploadedBytes, events := uploadedBytes - wk.bytes, events + [Catch(w)];
      if wk.attempt < ATTEMPTS {
        workers := workers[w := Sleeping(wk.part, wk.url, wk.attempt)];
      } else {
        workers, past := workers[w := Throwing(wk.part)], past.(broken := past.broken + {wk.part});
      }
    }

    method SendNextAttempt(w: nat)
      requires Valid()
      requires w < |workers| && workers[w].Sleeping?
      modifies this`workers, this`events
      ensures Contents() == Woken(old(Contents()), w)
      ensures Valid() && events == old(events) + [Wake(w)]
    {
      assert Reaches(c, Initial(c), events + [Wake(w)], Woken(Contents(), w)) by {
        ReachesNext(c, Initial(c), events, Contents(), Wake(w));
      }
      hide Reaches, After, Enabled;
      events := events + [Wake(w)];
      workers := workers[w := Sending(workers[w].part, workers[w].url, workers[w].attempt + 1, 0, 0, true)];
    }

    method StoreEtag(w: nat)
      requires Valid()
      requires w < |workers| && workers[w].Sent?
      modifies this`etags, this`past, this`nextPartNumber, this`promises, this`batchInFlight, this`workers, this`events
      ensures Contents() == Stored(c, old(Contents()), w)
      ensures Valid() && events == old(events) + [Store(w)]
    {
      hide Reaches, After, Enabled;
      StoreHappens(c, events, Contents(), w);
      events := events + [Store(w)];
      past := past.(tallies := past.tallies[workers[w].part := Tally(workers[w].bytes, workers[w].steady)]);
      etags := etags[workers[w].part := workers[w].etag];
      GoRound(w);
    }

    /** The catch of a worker. */
    method CatchPart(w: nat)
      requires Valid()
      requires w < |workers| && workers[w].Throwing?
      modifies this`firstError, this`workers, this`events
      ensures Contents() == GivenUp(old(Contents()), w)
      ensures Valid() && events == old(events) + [GiveUp(w)]
    {
      assert Reaches(c, Initial(c), events + [GiveUp(w)], GivenUp(Contents(), w)) by {
        ReachesNext(c, Initial(c), events, Contents(), GiveUp(w));
      }
      hide Reaches, After, Enabled;
      events := events + [GiveUp(w)];
      if !firstError { firstError := true; }
      workers := workers[w := Stopped];
    }

    /** After all workers have returned: collect the parts and complete, or leave it to the abort. */
    method Finish() returns (ok: bool)
      requires Valid()
      requires sentParts.None? && forall i :: 0 <= i < |workers| ==> workers[i].Stopped?
      modifies this`sentParts, this`events
      ensures Contents() == Completed(c, old(Contents()))
      ensures Valid() && events == old(events) + [Complete]
      ensures ok == sentParts.Some? == !firstError
      ensures ok ==> |sentParts.value| == c.totalParts && forall i :: 0 <= i < c.totalParts ==>
        sentParts.value[i].0 == i + 1 && HasPut(c, Contents(), i + 1, sentParts.value[i].1)
      ensures ok && c.totalParts * c.partSize >= |c.file| ==>
        Joined(c, c.totalParts) == c.file && (uploadedBytes == |c.file| <==> StoredSteadily(Contents()))
    {
      hide Reaches;
      ReachesNext(c, Initial(c), events, Contents(), Complete);
      ClaimsAreRight(c, events, Contents());
      events := events + [Complete];
      ok := SendParts();
      if ok {
        CompleteIsRight(c, events, Contents());
        FinalBytesIff(c, events, Contents());
      }
    }

    /** Collect the parts, and send them unless there was an error or an etag is missing. */
    method SendParts() returns (ok: bool)
      requires sentParts.None?
      modifies this`sentParts
      ensures Contents() == Completed(c, old(Contents()))
      ensures ok == sentParts.Some? == (!firstError && AllStored(c, Contents()))
    {
      if firstError { return false; }
      var completedParts: seq<(Part, string)> := [];
      for i := 0 to c.totalParts
        invariant Contents() == old(Contents())
        invariant forall p: Part :: p <= i ==> p in etags && etags[p] != ""
        invariant completedParts == PartList(etags, i)
      {
        if i + 1 !in etags || etags[i + 1] == "" {
          assert !AllStored(c, Contents());
          return false;
        }
        completedParts := completedParts + [(i + 1, etags[i + 1])];
      }
      assert AllStored(c, Contents());
      sentParts := Some(completedParts);
      return true;
    }
  }
}
