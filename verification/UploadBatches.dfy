/** URL batches: when every response is full, no batch is requested twice. */
module UploadBatches {
  import opened Grid
  import opened MultipartUpload
  import opened UploadSafety

  ghost predicate Requested(fetches: seq<Fetch>, batch: nat) {
    exists f :: f in fetches && f.batch == batch
  }

  /** Requests in flight, and the requests workers wait for, are the right ones. */
  predicate Linked(s: State) {
    && (forall b :: b in s.inFlight ==> s.inFlight[b] < |s.fetches| && s.fetches[s.inFlight[b]].batch == b)
    && (forall i :: 0 <= i < |s.workers| ==> WaitsRight(s, s.workers[i]))
  }

  predicate WaitsRight(s: State, wk: Worker) {
    wk.Waiting? ==> wk.fetch < |s.fetches| && s.fetches[wk.fetch].batch == BatchStart(wk.part)
  }

  predicate NoRepeat(fetches: seq<Fetch>) {
    forall i, j :: 0 <= i < j < |fetches| ==> fetches[i].batch != fetches[j].batch
  }

  predicate OpenInFlight(s: State) {
    forall k :: 0 <= k < |s.fetches| && s.fetches[k].status.Open? ==>
      s.fetches[k].batch in s.inFlight && s.inFlight[s.fetches[k].batch] == k
  }

  /** The URLs a response brought wait in the cache until their parts are claimed. */
  ghost predicate Supplied(c: Config, s: State) {
    forall k, p: Part :: 0 <= k < |s.fetches| && !s.fetches[k].status.Open? && InBatch(c, p, s.fetches[k].batch) ==>
      p < s.next || p in s.cache
  }

  ghost predicate CacheRequested(s: State) {
    forall p :: p in s.cache ==> p >= 1 && Requested(s.fetches, BatchStart(p))
  }

  ghost predicate ClaimsRequested(s: State) {
    forall p: Part :: p < s.next ==> Requested(s.fetches, BatchStart(p))
  }

  ghost predicate Once(c: Config, s: State) {
    NoRepeat(s.fetches) && OpenInFlight(s) && Supplied(c, s) && CacheRequested(s) && ClaimsRequested(s)
  }

  ghost predicate Batched(c: Config, s: State) {
    Linked(s) && (s.past.full ==> Once(c, s))
  }

  /** A worker that does not wait for URLs moves. */
  lemma BatchedMove(c: Config, s: State, s': State, w: nat)
    requires Batched(c, s) && w < |s.workers| && |s'.workers| == |s.workers|
    requires s'.workers == s.workers[w := s'.workers[w]] && !s'.workers[w].Waiting?
    requires s'.fetches == s.fetches && s'.inFlight == s.inFlight && s'.cache == s.cache
    requires s'.next == s.next && s'.past.full == s.past.full
    ensures Batched(c, s')
  {
  }

  lemma RequestedGrows(fetches: seq<Fetch>, f: Fetch, batch: nat)
    ensures Requested(fetches, batch) ==> Requested(fetches + [f], batch)
    ensures Requested(fetches + [f], f.batch)
  {
    if Requested(fetches, batch) {
      var g :| g in fetches && g.batch == batch;
      assert g in fetches + [f];
    }
    assert f in fetches + [f];
  }

  /** The part is cached: no request. */
  lemma CachedClaim(c: Config, s: State, w: nat)
    requires Batched(c, s) && w < |s.workers| && s.next <= c.totalParts && s.next as int in s.cache
    ensures Batched(c, Moved(s.(next := s.next + 1), w, HasUrl(s.next, s.cache[s.next])))
  {
  }

  /** The batch is in flight: wait for it. */
  lemma WaitingClaim(c: Config, s: State, w: nat)
    requires Batched(c, s) && w < |s.workers| && s.next <= c.totalParts && BatchStart(s.next) in s.inFlight
    ensures Batched(c, Moved(s.(next := s.next + 1), w, Waiting(s.next, s.inFlight[BatchStart(s.next)])))
  {
    hide BatchStart;
    var b := BatchStart(s.next);
    if s.past.full { assert s.fetches[s.inFlight[b]] in s.fetches; }
  }

  /** Neither: then the batch was never requested. */
  lemma NeverRequested(c: Config, s: State)
    requires Batched(c, s) && s.past.full && s.next <= c.totalParts
    requires s.next as int !in s.cache && BatchStart(s.next) !in s.inFlight
    ensures !Requested(s.fetches, BatchStart(s.next))
  {
    hide BatchStart;
    forall k | 0 <= k < |s.fetches| ensures s.fetches[k].batch != BatchStart(s.next) {
      assert InBatch(c, s.next, BatchStart(s.next));
    }
  }

  /** The state after asking for the batch of the next part. */
  function WithRequest(s: State, w: nat): State
    requires w < |s.workers|
  {
    var b, id := BatchStart(s.next), |s.fetches|;
    Moved(s.(next := s.next + 1, fetches := s.fetches + [Fetch(b, Open)], inFlight := s.inFlight[b := id]), w,
          Waiting(s.next, id))
  }

  lemma RequestOnce(c: Config, s: State, w: nat)
    requires Batched(c, s) && s.past.full && w < |s.workers| && s.next <= c.totalParts
    requires s.next as int !in s.cache && BatchStart(s.next) !in s.inFlight
    ensures Once(c, WithRequest(s, w))
  {
    NeverRequested(c, s);
    hide BatchStart;
    var b := BatchStart(s.next);
    var f := Fetch(b, Open);
    var s' := WithRequest(s, w);
    forall i, j | 0 <= i < j < |s'.fetches| ensures s'.fetches[i].batch != s'.fetches[j].batch {
      assert s'.fetches[i] == s.fetches[i] && s.fetches[i] in s.fetches;
    }
    forall p | p in s'.cache ensures p >= 1 && Requested(s'.fetches, BatchStart(p)) {
      RequestedGrows(s.fetches, f, BatchStart(p));
    }
    forall p: Part | p < s'.next ensures Requested(s'.fetches, BatchStart(p)) {
      RequestedGrows(s.fetches, f, BatchStart(p));
    }
  }

  lemma RequestLinked(c: Config, s: State, w: nat)
    requires Batched(c, s) && w < |s.workers|
    ensures Linked(WithRequest(s, w))
  {
    hide BatchStart;
    var s' := WithRequest(s, w);
    forall i | 0 <= i < |s'.workers| ensures WaitsRight(s', s'.workers[i]) {
      if i != w { assert WaitsRight(s, s.workers[i]); }
    }
  }

  lemma BatchedBegin(c: Config, s: State, w: nat)
    requires Batched(c, s) && w < |s.workers|
    ensures Batched(c, Begun(c, s, w))
  {
    if s.failed || s.next > c.totalParts {
      BatchedMove(c, s, Begun(c, s, w), w);
    } else {
      hide BatchStart, Batched, Linked, Once;
      if s.next as int in s.cache {
        CachedClaim(c, s, w);
      } else if BatchStart(s.next) in s.inFlight {
        WaitingClaim(c, s, w);
      } else {
        assert Begun(c, s, w) == WithRequest(s, w);
        RequestLinked(c, s, w);
        if s.past.full { RequestOnce(c, s, w); }
        assert WithRequest(s, w).past.full == s.past.full;
        IsBatched(c, WithRequest(s, w));
      }
    }
  }

  lemma IsBatched(c: Config, s: State)
    requires Linked(s) && (s.past.full ==> Once(c, s))
    ensures Batched(c, s)
  {
  }

  lemma SettledBatches(fetches: seq<Fetch>, k: nat, status: Settled, batch: nat)
    requires k < |fetches| && Requested(fetches, batch)
    ensures Requested(fetches[k := Fetch(fetches[k].batch, status)], batch)
  {
    var f :| f in fetches && f.batch == batch;
    var i :| 0 <= i < |fetches| && fetches[i] == f;
    assert fetches[k := Fetch(fetches[k].batch, status)][i].batch == batch;
  }

  lemma SettleLinked(c: Config, s: State, s': State, k: nat, status: Settled)
    requires Linked(s) && k < |s.fetches| && s'.fetches == s.fetches[k := Fetch(s.fetches[k].batch, status)]
    requires s'.inFlight == s.inFlight && s'.workers == s.workers
    ensures Linked(s')
  {
    hide BatchStart;
    forall i | 0 <= i < |s'.workers| ensures WaitsRight(s', s'.workers[i]) {
      assert WaitsRight(s, s.workers[i]);
    }
  }

  lemma BatchedAnswer(c: Config, s: State, k: nat, urls: map<int, string>)
    requires Batched(c, s) && k < |s.fetches|
    ensures Batched(c, Answered(c, s, k, urls))
  {
    hide BatchStart;
    var s' := Answered(c, s, k, urls);
    SettleLinked(c, s, s', k, Fulfilled);
    if s'.past.full {
      forall p | p in s'.cache ensures p >= 1 && Requested(s'.fetches, BatchStart(p)) {
        if p in urls {
          assert s'.fetches[k] in s'.fetches;
        } else {
          SettledBatches(s.fetches, k, Fulfilled, BatchStart(p));
        }
      }
      forall p: Part | p < s'.next ensures Requested(s'.fetches, BatchStart(p)) {
        SettledBatches(s.fetches, k, Fulfilled, BatchStart(p));
      }
    }
  }

  lemma BatchedRefuse(c: Config, s: State, k: nat)
    requires Batched(c, s) && k < |s.fetches|
    ensures Batched(c, Refused(s, k))
  {
    SettleLinked(c, s, Refused(s, k), k, Rejected);
  }

  /** A settled request may be forgotten, and a claimed part's URL be used up. */
  lemma OnceUsed(c: Config, s: State, s': State, part: Part, fetch: nat)
    requires Once(c, s) && part < s.next && fetch < |s.fetches| && !s.fetches[fetch].status.Open?
    requires s'.fetches == s.fetches && s'.next == s.next
    requires forall b :: b in s.inFlight && s.inFlight[b] != fetch ==> b in s'.inFlight && s'.inFlight[b] == s.inFlight[b]
    requires s'.cache.Keys <= s.cache.Keys && forall p :: p in s.cache && p != part ==> p in s'.cache
    ensures Once(c, s')
  {
    hide BatchStart, Requested;
    forall k | 0 <= k < |s.fetches| && s.fetches[k].status.Open?
      ensures s.fetches[k].batch in s'.inFlight && s'.inFlight[s.fetches[k].batch] == k
    {
      assert s.inFlight[s.fetches[k].batch] == k;
    }
    forall p | p in s'.cache ensures p >= 1 && Requested(s'.fetches, BatchStart(p)) {
      assert p in s.cache;
    }
  }

  lemma AwaitLinked(s: State, w: nat)
    requires Linked(s) && w < |s.workers| && s.workers[w].Waiting? && s.workers[w].fetch < |s.fetches|
    ensures Linked(Awaited(s, w))
  {
    hide BatchStart;
    var s' := Awaited(s, w);
    assert !s'.workers[w].Waiting?;
    forall i | 0 <= i < |s'.workers| ensures WaitsRight(s', s'.workers[i]) {
      if i != w { assert WaitsRight(s, s.workers[i]); }
    }
  }

  lemma AwaitOnce(c: Config, s: State, w: nat)
    requires Once(c, s) && Enabled(c, s, Await(w)) && s.workers[w].part < s.next
    ensures Once(c, Awaited(s, w))
  {
    hide BatchStart, Once;
    OnceUsed(c, s, Awaited(s, w), s.workers[w].part, s.workers[w].fetch);
  }

  lemma BatchedAwait(c: Config, s: State, w: nat)
    requires Batched(c, s) && Claims(c, s) && Enabled(c, s, Await(w))
    ensures Batched(c, Awaited(s, w))
  {
    assert Held(s.workers[w]) < s.next;
    assert Awaited(s, w).past.full == s.past.full;
    hide Awaited, Linked, Once, Claims;
    AwaitLinked(s, w);
    if s.past.full { AwaitOnce(c, s, w); }
  }

  lemma BatchedSame(c: Config, s: State, s': State)
    requires Batched(c, s) && s'.workers == s.workers
    requires s'.fetches == s.fetches && s'.inFlight == s.inFlight && s'.cache == s.cache
    requires s'.next == s.next && s'.past.full == s.past.full
    ensures Batched(c, s')
  {
  }

  lemma BatchedStore(c: Config, s: State, w: nat)
    requires Batched(c, s) && w < |s.workers| && s.workers[w].Sent?
    ensures Batched(c, Stored(c, s, w))
  {
    hide Begun, Batched;
    var s1 := WithEtag(s, w);
    BatchedSame(c, s, s1);
    BatchedBegin(c, s1, w);
  }

  lemma BatchedPlain(c: Config, s: State, s': State, w: nat)
    requires Batched(c, s) && Proper(c, s, s', w) && !s.workers[w].Waiting?
    ensures Batched(c, s')
  {
    hide Batched, WorkerBacked, WorkerCounts, CacheIssued, Grows;
    BatchedMove(c, s, s', w);
  }

  lemma EnabledInner(c: Config, s: State, ev: Event)
    requires Enabled(c, s, ev) && IsInner(ev)
    ensures ev.w < |s.workers| && (s.workers[ev.w].Waiting? ==> ev.Await?)
  {
    hide Size;
  }

  lemma BatchedKept(c: Config, s: State, ev: Event)
    requires Batched(c, s) && Claims(c, s) && Enabled(c, s, ev)
    ensures Batched(c, After(c, s, ev))
  {
    hide Batched, Claims, Begun, Stored, Awaited, Answered, Refused, IsFull, AllStored;
    if IsInner(ev) && !ev.Await? {
      InnerIsProper(c, s, ev);
      EnabledInner(c, s, ev);
      hide After, Enabled;
      BatchedPlain(c, s, After(c, s, ev), ev.w);
    } else {
      match ev
      case Await(w) => BatchedAwait(c, s, w);
      case GiveUp(w) => BatchedMove(c, s, After(c, s, ev), w);
      case Run(w) => BatchedBegin(c, s, w);
      case Store(w) => BatchedStore(c, s, w);
      case Answer(k, urls) => BatchedAnswer(c, s, k, urls);
      case Refuse(k) => BatchedRefuse(c, s, k);
      case Complete => BatchedSame(c, s, After(c, s, ev));
    }
  }
}
