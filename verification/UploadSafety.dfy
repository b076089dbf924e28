/** What every interleaving of the upload workers keeps. */
module UploadSafety {
  import opened Grid
  import opened RenderJobs
  import opened MultipartUpload

  // ---------------------------------------------------------------------------
  // One worker's section
  // ---------------------------------------------------------------------------

  /** The part a worker holds; 0 for none. */
  function Held(wk: Worker): nat {
    if wk.Ready? || wk.Stopped? then 0 else wk.part
  }

  /** The bytes a worker's running attempt has added. */
  function BytesOf(wk: Worker): nat {
    if wk.Sending? || wk.Lost? || wk.Sent? then wk.bytes else 0
  }

  /** How an attempt's count relates to what it has sent: it is exact while reports are steady, and too high from the first
      report on that is not. */
  predicate WorkerCounts(c: Config, wk: Worker) {
    match wk
    case Sending(part, _, _, loaded, bytes, steady) => bytes >= loaded && (steady <==> bytes == loaded <= Size(c, part))
    case Lost(part, _, _, bytes, steady) => steady ==> bytes <= Size(c, part)
    case Sent(part, _, bytes, steady) => bytes >= Size(c, part) && (steady <==> bytes == Size(c, part))
    case _ => true
  }

  /** The storage accepted the part's own slice, at a URL issued for that part, and answered with this etag. */
  ghost predicate HasPut(c: Config, s: State, part: Part, etag: string) {
    etag != "" && exists put :: put in s.past.puts && put.part == part && put.etag == etag && put.blob == Slice(c, part)
                                && (part as int, put.url) in s.past.issued
  }

  ghost predicate WorkerBacked(c: Config, s: State, wk: Worker) {
    match wk
    case HasUrl(part, url) => (part as int, url) in s.past.issued
    case Sending(part, url, _, _, _, _) => (part as int, url) in s.past.issued
    case Lost(part, url, _, _, _) => (part as int, url) in s.past.issued
    case Sleeping(part, url, _) => (part as int, url) in s.past.issued
    case Sent(part, etag, _, _) => HasPut(c, s, part, etag)
    case _ => true
  }

  ghost predicate CacheIssued(s: State) {
    forall p :: p in s.cache ==> (p, s.cache[p]) in s.past.issued
  }

  /** Nothing issued, stored or given up is ever forgotten. */
  predicate Grows(s: State, s': State) {
    s.past.issued <= s'.past.issued && s.past.puts <= s'.past.puts && s.past.broken <= s'.past.broken
  }

  /** Events after which the worker goes on with the part it holds. */
  predicate IsInner(ev: Event) {
    ev.Await? || ev.Start? || ev.Progress? || ev.Load? || ev.Fail? || ev.Catch? || ev.Wake?
  }

  predicate GoesOn(s: State, s': State, w: nat) {
    && w < |s.workers| && |s'.workers| == |s.workers| && s'.workers == s.workers[w := s'.workers[w]]
    && Held(s.workers[w]) != 0 && Held(s'.workers[w]) == Held(s.workers[w])
    && s'.next == s.next && s'.failed == s.failed && s'.etags == s.etags && s'.fetches == s.fetches
    && s'.completed == s.completed && s'.past.issued == s.past.issued && s'.past.tallies == s.past.tallies
  }

  /** The URL bookkeeping changes only when a wait for URLs ends. */
  predicate KeepsUrls(s: State, s': State) {
    s'.cache == s.cache && s'.inFlight == s.inFlight && s'.past.full == s.past.full
  }

  /** What such a section does: the worker keeps its part, its count is exact, its URL and etag stay backed, and giving
      the part up shows. */
  ghost predicate Proper(c: Config, s: State, s': State, w: nat) {
    && GoesOn(s, s', w)
    && Grows(s, s')
    && !s'.workers[w].Waiting? && (!s.workers[w].Waiting? ==> KeepsUrls(s, s'))
    && !s.workers[w].Throwing? && (s'.past.broken == s.past.broken || s'.workers[w].Throwing?)
    && (CacheIssued(s) ==> CacheIssued(s'))
    && (CacheIssued(s) && WorkerBacked(c, s, s.workers[w]) ==> WorkerBacked(c, s', s'.workers[w]))
    && (WorkerCounts(c, s.workers[w]) ==>
          && WorkerCounts(c, s'.workers[w])
          && s'.uploadedBytes == s.uploadedBytes - BytesOf(s.workers[w]) + BytesOf(s'.workers[w]))
  }

  lemma SuppliedProper(c: Config, s: State, w: nat)
    requires Enabled(c, s, Await(w)) && Awaited(s, w).workers[w].HasUrl?
    ensures Proper(c, s, Awaited(s, w), w)
  {
    var s' := Awaited(s, w);
    hide BatchStart;
    assert s'.workers == s.workers[w := s'.workers[w]];
  }

  lemma UnsuppliedProper(c: Config, s: State, w: nat)
    requires Enabled(c, s, Await(w)) && Awaited(s, w).workers[w].Throwing?
    ensures Proper(c, s, Awaited(s, w), w)
  {
    var s' := Awaited(s, w);
    hide BatchStart;
    assert s'.workers == s.workers[w := s'.workers[w]];
  }

  lemma AwaitProper(c: Config, s: State, w: nat)
    requires Enabled(c, s, Await(w))
    ensures Proper(c, s, Awaited(s, w), w)
  {
    hide Proper;
    if Awaited(s, w).workers[w].HasUrl? { SuppliedProper(c, s, w); } else { UnsuppliedProper(c, s, w); }
  }

  lemma StartProper(c: Config, s: State, w: nat)
    requires Enabled(c, s, Start(w))
    ensures Proper(c, s, Started(s, w), w)
  {
  }

  lemma ProgressProper(c: Config, s: State, w: nat, loaded: nat)
    requires Enabled(c, s, Progress(w, loaded))
    ensures Proper(c, s, Progressed(c, s, w, loaded), w)
  {
  }

  lemma AcceptedProper(c: Config, s: State, w: nat, etag: string)
    requires Enabled(c, s, Load(w, true, etag)) && etag != ""
    ensures Proper(c, s, Loaded(c, s, w, true, etag), w)
  {
    var wk, s' := s.workers[w], Loaded(c, s, w, true, etag);
    if WorkerBacked(c, s, wk) {
      assert Put(wk.part, wk.url, Slice(c, wk.part), etag) == s'.past.puts[|s.past.puts|];
      assert HasPut(c, s', wk.part, etag);
    }
    hide Slice, HasPut;
  }

  lemma LoadProper(c: Config, s: State, w: nat, ok: bool, etag: string)
    requires Enabled(c, s, Load(w, ok, etag))
    ensures Proper(c, s, Loaded(c, s, w, ok, etag), w)
  {
    if ok && etag != "" {
      AcceptedProper(c, s, w, etag);
    } else {
      hide Slice, HasPut;
    }
  }

  lemma FailProper(c: Config, s: State, w: nat)
    requires Enabled(c, s, Fail(w))
    ensures Proper(c, s, Errored(s, w), w)
  {
  }

  lemma RetryProper(c: Config, s: State, w: nat)
    requires Enabled(c, s, Catch(w)) && s.workers[w].attempt < ATTEMPTS
    ensures Proper(c, s, Caught(s, w), w)
  {
  }

  lemma LastCatchProper(c: Config, s: State, w: nat)
    requires Enabled(c, s, Catch(w)) && s.workers[w].attempt >= ATTEMPTS
    ensures Proper(c, s, Caught(s, w), w)
  {
  }

  lemma CatchProper(c: Config, s: State, w: nat)
    requires Enabled(c, s, Catch(w))
    ensures Proper(c, s, Caught(s, w), w)
  {
    hide Proper, Caught;
    if s.workers[w].attempt < ATTEMPTS { RetryProper(c, s, w); } else { LastCatchProper(c, s, w); }
  }

  lemma WakeProper(c: Config, s: State, w: nat)
    requires Enabled(c, s, Wake(w))
    ensures Proper(c, s, Woken(s, w), w)
  {
  }

  lemma InnerIsProper(c: Config, s: State, ev: Event)
    requires Enabled(c, s, ev) && IsInner(ev)
    ensures Proper(c, s, After(c, s, ev), ev.w)
  {
    hide Proper, Awaited, Started, Progressed, Loaded, Errored, Caught, Woken, Size, Begun, Stored, GivenUp, Answered,
      Refused, Completed;
    match ev
    case Await(w) => AwaitProper(c, s, w);
    case Start(w) => StartProper(c, s, w);
    case Progress(w, loaded) => ProgressProper(c, s, w, loaded);
    case Load(w, ok, etag) => LoadProper(c, s, w, ok, etag);
    case Fail(w) => FailProper(c, s, w);
    case Catch(w) => CatchProper(c, s, w);
    case Wake(w) => WakeProper(c, s, w);
  }

  // ---------------------------------------------------------------------------
  // Claims: every part claimed so far is stored or held by exactly one worker, unless the upload has failed
  // ---------------------------------------------------------------------------

  predicate HeldApart(workers: seq<Worker>) {
    forall i, j :: 0 <= i < j < |workers| && Held(workers[i]) != 0 ==> Held(workers[i]) != Held(workers[j])
  }

  predicate Holds(workers: seq<Worker>, part: Part) {
    exists i :: 0 <= i < |workers| && Held(workers[i]) == part
  }

  predicate HoldSound(workers: seq<Worker>, etags: map<Part, string>, next: Part) {
    forall i :: 0 <= i < |workers| && Held(workers[i]) != 0 ==>
      Held(workers[i]) < next && Held(workers[i]) as Part !in etags
  }

  ghost predicate Claims(c: Config, s: State) {
    && s.next <= c.totalParts + 1
    && (forall p :: p in s.etags ==> p < s.next)
    && HoldSound(s.workers, s.etags, s.next)
    && HeldApart(s.workers)
    && (!s.failed ==> forall p: Part :: p < s.next && p !in s.etags ==> Holds(s.workers, p))
    && (!s.failed ==> forall i :: 0 <= i < |s.workers| && s.workers[i].Stopped? ==> s.next > c.totalParts)
  }

  /** A worker goes on with the part it holds. */
  lemma ClaimsMove(c: Config, s: State, s': State, w: nat, wk: Worker)
    requires Claims(c, s) && w < |s.workers| && Held(wk) == Held(s.workers[w])
    requires wk.Stopped? && !s.failed ==> s.next > c.totalParts
    requires s'.workers == s.workers[w := wk] && s'.next == s.next && s'.failed == s.failed && s'.etags == s.etags
    ensures Claims(c, s')
  {
    forall p: Part | !s.failed && p < s.next && p !in s.etags ensures Holds(s'.workers, p) {
      assert Holds(s.workers, p);
      var i :| 0 <= i < |s.workers| && Held(s.workers[i]) == p;
      assert Held(s'.workers[i]) == p;
    }
  }

  /** A worker without a part claims the next one. */
  lemma ClaimsNext(c: Config, s: State, s': State, w: nat, wk: Worker)
    requires Claims(c, s) && w < |s.workers| && s.workers[w].Ready? && s.next <= c.totalParts && Held(wk) == s.next
    requires s'.workers == s.workers[w := wk] && s'.next == s.next + 1 && s'.failed == s.failed && s'.etags == s.etags
    ensures Claims(c, s')
  {
    forall p: Part | !s.failed && p < s'.next && p !in s.etags ensures Holds(s'.workers, p) {
      if p == s.next {
        assert Held(s'.workers[w]) == p;
      } else {
        assert Holds(s.workers, p);
        var i :| 0 <= i < |s.workers| && Held(s.workers[i]) == p;
        assert Held(s'.workers[i]) == p;
      }
    }
  }

  /** What the top of the loop does to everything but the URL bookkeeping. */
  predicate Starts(c: Config, s: State, s': State, w: nat) {
    && w < |s.workers| && |s'.workers| == |s.workers| && s'.workers == s.workers[w := s'.workers[w]]
    && s'.failed == s.failed && s'.etags == s.etags && s'.uploadedBytes == s.uploadedBytes
    && BytesOf(s'.workers[w]) == 0 && WorkerCounts(c, s'.workers[w]) && !s'.workers[w].Throwing?
    && s'.completed == s.completed && s'.past == s.past
    && if s.failed || s.next > c.totalParts then s'.workers[w].Stopped? && s'.next == s.next
       else Held(s'.workers[w]) == s.next && s'.next == s.next + 1
  }

  lemma BeginStarts(c: Config, s: State, w: nat)
    requires w < |s.workers|
    ensures Starts(c, s, Begun(c, s, w), w)
  {
  }

  lemma ClaimsBegin(c: Config, s: State, w: nat)
    requires Claims(c, s) && w < |s.workers| && s.workers[w].Ready?
    ensures Claims(c, Begun(c, s, w))
  {
    BeginStarts(c, s, w);
    hide Claims, Begun;
    var s' := Begun(c, s, w);
    if s.failed || s.next > c.totalParts {
      ClaimsMove(c, s, s', w, Stopped);
    } else {
      ClaimsNext(c, s, s', w, s'.workers[w]);
    }
  }

  /** Storing an etag is finishing the part and standing at the top of the loop again. */
  lemma ClaimsStore(c: Config, s: State, w: nat)
    requires Claims(c, s) && w < |s.workers| && s.workers[w].Sent?
    ensures Claims(c, Moved(WithEtag(s, w), w, Ready))
  {
    var etags := WithEtag(s, w).etags;
    var s' := Moved(WithEtag(s, w), w, Ready);
    forall p: Part | !s.failed && p < s'.next && p !in etags ensures Holds(s'.workers, p) {
      assert Holds(s.workers, p);
      var i :| 0 <= i < |s.workers| && Held(s.workers[i]) == p;
      assert Held(s'.workers[i]) == p;
    }
    forall i | 0 <= i < |s'.workers| && Held(s'.workers[i]) != 0 ensures Held(s'.workers[i]) as Part !in etags {
      assert i != w;
    }
  }

  lemma BeginOverwrites(c: Config, s: State, w: nat)
    requires w < |s.workers|
    ensures Begun(c, Moved(s, w, Ready), w) == Begun(c, s, w)
  {
    var wk := Begun(c, s, w).workers[w];
    assert s.workers[w := Ready][w := wk] == s.workers[w := wk];
  }

  lemma ClaimsSame(c: Config, s: State, s': State)
    requires Claims(c, s)
    requires s'.workers == s.workers && s'.next == s.next && s'.failed == s.failed && s'.etags == s.etags
    ensures Claims(c, s')
  {
  }

  lemma ClaimsGiveUp(c: Config, s: State, w: nat)
    requires Claims(c, s) && w < |s.workers|
    ensures Claims(c, GivenUp(s, w))
  {
  }

  lemma ClaimsInner(c: Config, s: State, s': State, w: nat)
    requires Claims(c, s) && GoesOn(s, s', w)
    ensures Claims(c, s')
  {
    hide Claims;
    ClaimsMove(c, s, s', w, s'.workers[w]);
  }

  lemma ClaimsStored(c: Config, s: State, w: nat)
    requires Claims(c, s) && w < |s.workers| && s.workers[w].Sent?
    ensures Claims(c, Stored(c, s, w))
  {
    hide Claims, Begun;
    ClaimsStore(c, s, w);
    var s1 := WithEtag(s, w);
    BeginOverwrites(c, s1, w);
    ClaimsBegin(c, Moved(s1, w, Ready), w);
  }

  lemma ClaimsKept(c: Config, s: State, ev: Event)
    requires Claims(c, s) && Enabled(c, s, ev)
    ensures Claims(c, After(c, s, ev))
  {
    hide Claims, Begun, GivenUp, Stored, IsFull, AllStored;
    if IsInner(ev) {
      InnerIsProper(c, s, ev);
      hide After;
      ClaimsInner(c, s, After(c, s, ev), ev.w);
    } else {
      match ev
      case GiveUp(w) => ClaimsGiveUp(c, s, w);
      case Run(w) => ClaimsBegin(c, s, w);
      case Store(w) => ClaimsStored(c, s, w);
      case Answer(_, _) => ClaimsSame(c, s, After(c, s, ev));
      case Refuse(_) => ClaimsSame(c, s, After(c, s, ev));
      case Complete => ClaimsSame(c, s, After(c, s, ev));
    }
  }

  // ---------------------------------------------------------------------------
  // Provenance: etags come from accepted bodies, and bodies are the part's own slice sent to a URL issued for the part
  // ---------------------------------------------------------------------------

  ghost predicate EtagsBacked(c: Config, s: State) {
    forall p :: p in s.etags ==> HasPut(c, s, p, s.etags[p])
  }

  ghost predicate Backed(c: Config, s: State) {
    && CacheIssued(s)
    && EtagsBacked(c, s)
    && forall i :: 0 <= i < |s.workers| ==> WorkerBacked(c, s, s.workers[i])
  }

  lemma HasPutGrows(c: Config, s: State, s': State, part: Part, etag: string)
    requires HasPut(c, s, part, etag) && Grows(s, s')
    ensures HasPut(c, s', part, etag)
  {
    var put :| put in s.past.puts && put.part == part && put.etag == etag && put.blob == Slice(c, part)
               && (part as int, put.url) in s.past.issued;
    assert put in s'.past.puts;
  }

  lemma WorkerBackedGrows(c: Config, s: State, s': State, wk: Worker)
    requires WorkerBacked(c, s, wk) && Grows(s, s')
    ensures WorkerBacked(c, s', wk)
  {
    if wk.Sent? { HasPutGrows(c, s, s', wk.part, wk.etag); }
  }

  lemma EtagsGrow(c: Config, s: State, s': State)
    requires EtagsBacked(c, s) && Grows(s, s') && s'.etags == s.etags
    ensures EtagsBacked(c, s')
  {
    forall p | p in s.etags ensures HasPut(c, s', p, s.etags[p]) {
      HasPutGrows(c, s, s', p, s.etags[p]);
    }
  }

  /** One worker moves; the rest only sees more. */
  lemma BackedMove(c: Config, s: State, s': State, w: nat)
    requires Backed(c, s) && w < |s.workers| && Grows(s, s') && CacheIssued(s') && EtagsBacked(c, s')
    requires |s'.workers| == |s.workers| && s'.workers == s.workers[w := s'.workers[w]]
    requires WorkerBacked(c, s', s'.workers[w])
    ensures Backed(c, s')
  {
    hide WorkerBacked, Grows, CacheIssued, EtagsBacked;
    forall i | 0 <= i < |s'.workers| ensures WorkerBacked(c, s', s'.workers[i]) {
      if i != w { WorkerBackedGrows(c, s, s', s.workers[i]); }
    }
  }

  lemma BackedAnswer(c: Config, s: State, fetch: nat, urls: map<int, string>)
    requires Backed(c, s) && fetch < |s.fetches|
    ensures Backed(c, Answered(c, s, fetch, urls))
  {
    hide WorkerBacked, HasPut, IsFull;
    var s' := Answered(c, s, fetch, urls);
    EtagsGrow(c, s, s');
    forall i | 0 <= i < |s.workers| ensures WorkerBacked(c, s', s.workers[i]) {
      WorkerBackedGrows(c, s, s', s.workers[i]);
    }
    forall p | p in s'.cache ensures (p, s'.cache[p]) in s'.past.issued {
      if p in urls { assert (p, urls[p]) in urls.Items; }
    }
  }

  lemma BackedBegin(c: Config, s: State, w: nat)
    requires Backed(c, s) && w < |s.workers|
    ensures Backed(c, Begun(c, s, w))
  {
    hide HasPut;
    var s' := Begun(c, s, w);
    EtagsGrow(c, s, s');
    BackedMove(c, s, s', w);
  }

  lemma BackedStore(c: Config, s: State, w: nat)
    requires Backed(c, s) && w < |s.workers| && s.workers[w].Sent?
    ensures Backed(c, Stored(c, s, w))
  {
    hide Begun;
    var wk := s.workers[w];
    var s1 := WithEtag(s, w);
    assert WorkerBacked(c, s, wk);
    forall p | p in s1.etags ensures HasPut(c, s1, p, s1.etags[p]) {
      HasPutGrows(c, s, s1, p, s1.etags[p]);
    }
    BackedMove(c, s, s1, w);
    BackedBegin(c, s1, w);
  }

  lemma BackedInner(c: Config, s: State, s': State, w: nat)
    requires Backed(c, s) && Proper(c, s, s', w)
    ensures Backed(c, s')
  {
    hide HasPut, WorkerBacked, CacheIssued, Grows, WorkerCounts;
    EtagsGrow(c, s, s');
    BackedMove(c, s, s', w);
  }

  lemma BackedRest(c: Config, s: State, s': State)
    requires Backed(c, s) && Grows(s, s') && s'.cache == s.cache && s'.etags == s.etags
    requires s'.workers == s.workers
    ensures Backed(c, s')
  {
    hide WorkerBacked, HasPut;
    EtagsGrow(c, s, s');
    forall i | 0 <= i < |s.workers| ensures WorkerBacked(c, s', s.workers[i]) {
      WorkerBackedGrows(c, s, s', s.workers[i]);
    }
  }

  lemma BackedGiveUp(c: Config, s: State, w: nat)
    requires Backed(c, s) && w < |s.workers|
    ensures Backed(c, GivenUp(s, w))
  {
    hide HasPut;
    EtagsGrow(c, s, GivenUp(s, w));
    BackedMove(c, s, GivenUp(s, w), w);
  }

  lemma BackedKept(c: Config, s: State, ev: Event)
    requires Backed(c, s) && Enabled(c, s, ev)
    ensures Backed(c, After(c, s, ev))
  {
    hide Backed, Begun, GivenUp, Stored, Loaded, IsFull, AllStored;
    if IsInner(ev) {
      InnerIsProper(c, s, ev);
      hide After;
      BackedInner(c, s, After(c, s, ev), ev.w);
    } else {
      match ev
      case GiveUp(w) => BackedGiveUp(c, s, w);
      case Run(w) => BackedBegin(c, s, w);
      case Store(w) => BackedStore(c, s, w);
      case Answer(f, urls) => BackedAnswer(c, s, f, urls);
      case Refuse(_) => BackedRest(c, s, After(c, s, ev));
      case Complete => BackedRest(c, s, After(c, s, ev));
    }
  }

  // ---------------------------------------------------------------------------
  // Bytes: what is shown as uploaded is what finished parts and running attempts account for
  // ---------------------------------------------------------------------------

  function Bytes(workers: seq<Worker>): nat {
    if workers == [] then 0 else BytesOf(workers[0]) + Bytes(workers[1..])
  }

  /** The size of the part a worker holds. */
  function SizeHeld(c: Config, wk: Worker): nat {
    if Held(wk) == 0 then 0 else Size(c, Held(wk))
  }

  function HeldSizes(c: Config, workers: seq<Worker>): nat {
    if workers == [] then 0 else SizeHeld(c, workers[0]) + HeldSizes(c, workers[1..])
  }

  lemma {:induction false} BytesUpdate(workers: seq<Worker>, w: nat, wk: Worker)
    requires w < |workers|
    ensures Bytes(workers[w := wk]) == Bytes(workers) - BytesOf(workers[w]) + BytesOf(wk)
  {
    hide BytesOf;
    if w > 0 {
      BytesUpdate(workers[1..], w - 1, wk);
      assert workers[w := wk][1..] == workers[1..][w - 1 := wk];
    } else {
      assert workers[w := wk][1..] == workers[1..];
    }
  }

  lemma {:induction false} HeldUpdate(c: Config, workers: seq<Worker>, w: nat, wk: Worker)
    requires w < |workers|
    ensures HeldSizes(c, workers[w := wk]) == HeldSizes(c, workers) - SizeHeld(c, workers[w]) + SizeHeld(c, wk)
  {
    hide SizeHeld;
    if w > 0 {
      HeldUpdate(c, workers[1..], w - 1, wk);
      assert workers[w := wk][1..] == workers[1..][w - 1 := wk];
    } else {
      assert workers[w := wk][1..] == workers[1..];
    }
  }

  /** The sizes of finished parts among the first n. */
  function Finished(c: Config, etags: map<Part, string>, n: nat): nat {
    if n == 0 then 0 else Finished(c, etags, n - 1) + if n in etags then Size(c, n) else 0
  }

  lemma {:induction false} FinishedAdds(c: Config, etags: map<Part, string>, part: Part, etag: string, n: nat)
    requires part !in etags
    ensures Finished(c, etags[part := etag], n) == Finished(c, etags, n) + if part <= n then Size(c, part) else 0
  {
    hide Size;
    if n > 0 { FinishedAdds(c, etags, part, etag, n - 1); }
  }

  /** What the stored ones among the first n parts were counted for beyond their sizes. */
  function Excess(c: Config, tallies: map<Part, Tally>, n: nat): int {
    if n == 0 then 0 else Excess(c, tallies, n - 1) + if n in tallies then tallies[n].bytes - Size(c, n) else 0
  }

  lemma {:induction false} ExcessAdds(c: Config, tallies: map<Part, Tally>, part: Part, tally: Tally, n: nat)
    requires part !in tallies
    ensures Excess(c, tallies[part := tally], n)
         == Excess(c, tallies, n) + if part <= n then tally.bytes - Size(c, part) else 0
  {
    hide Size;
    if n > 0 { ExcessAdds(c, tallies, part, tally, n - 1); }
  }

  /** The sizes of the parts not claimed yet. */
  function Unclaimed(c: Config, next: Part): nat
    decreases c.totalParts - next
  {
    if next > c.totalParts then 0 else Size(c, next) + Unclaimed(c, next + 1)
  }

  lemma {:induction false} UnclaimedFits(c: Config, next: Part)
    ensures Unclaimed(c, next) <= |c.file| - EndOf(c, next - 1)
    decreases c.totalParts - next
  {
    if next <= c.totalParts {
      UnclaimedFits(c, next + 1);
      EndsGrow(c, next - 1);
    }
  }

  predicate AllCount(c: Config, workers: seq<Worker>) {
    forall i :: 0 <= i < |workers| ==> WorkerCounts(c, workers[i])
  }

  /** Every stored part was counted at least for its size, and for no more exactly if its reports were steady. */
  predicate Tallied(c: Config, s: State) {
    && s.past.tallies.Keys == s.etags.Keys
    && forall p :: p in s.past.tallies ==>
         s.past.tallies[p].bytes >= Size(c, p) && (s.past.tallies[p].steady <==> s.past.tallies[p].bytes == Size(c, p))
  }

  /** The counter is finished parts, their excess and running attempts; finished, held and unclaimed parts fit the file. */
  predicate Accounted(c: Config, s: State) {
    && AllCount(c, s.workers)
    && Tallied(c, s)
    && s.uploadedBytes == Finished(c, s.etags, c.totalParts) + Excess(c, s.past.tallies, c.totalParts) + Bytes(s.workers)
    && Finished(c, s.etags, c.totalParts) + HeldSizes(c, s.workers) + Unclaimed(c, s.next) <= |c.file|
  }

  /** One worker's move changes the counter by as much as the worker's own count. */
  lemma AccountedMove(c: Config, s: State, s': State, w: nat, wk: Worker)
    requires Accounted(c, s) && w < |s.workers| && WorkerCounts(c, wk)
    requires s'.workers == s.workers[w := wk] && s'.next == s.next && s'.etags == s.etags
    requires s'.past.tallies == s.past.tallies
    requires s'.uploadedBytes == s.uploadedBytes - BytesOf(s.workers[w]) + BytesOf(wk)
    requires SizeHeld(c, wk) <= SizeHeld(c, s.workers[w])
    ensures Accounted(c, s')
  {
    hide WorkerCounts, BytesOf, SizeHeld, Finished, Unclaimed, Excess, Size;
    BytesUpdate(s.workers, w, wk);
    HeldUpdate(c, s.workers, w, wk);
  }

  lemma AccountedInner(c: Config, s: State, s': State, w: nat)
    requires Accounted(c, s) && Proper(c, s, s', w)
    ensures Accounted(c, s')
  {
    assert WorkerCounts(c, s.workers[w]);
    hide Accounted, Size, WorkerCounts, WorkerBacked, CacheIssued, Grows;
    AccountedMove(c, s, s', w, s'.workers[w]);
  }

  lemma AccountedBegin(c: Config, s: State, w: nat)
    requires Accounted(c, s) && w < |s.workers| && s.workers[w].Ready?
    ensures Accounted(c, Begun(c, s, w))
  {
    BeginStarts(c, s, w);
    hide Size, Finished, Begun, WorkerCounts, Excess;
    var s' := Begun(c, s, w);
    BytesUpdate(s.workers, w, s'.workers[w]);
    HeldUpdate(c, s.workers, w, s'.workers[w]);
  }

  lemma TalliedStore(c: Config, s: State, w: nat)
    requires Tallied(c, s) && w < |s.workers| && s.workers[w].Sent? && WorkerCounts(c, s.workers[w])
    ensures Tallied(c, WithEtag(s, w))
  {
    hide Size;
  }

  lemma AllCountUpdate(c: Config, workers: seq<Worker>, w: nat, wk: Worker)
    requires AllCount(c, workers) && w < |workers| && WorkerCounts(c, wk)
    ensures AllCount(c, workers[w := wk])
  {
    hide WorkerCounts;
  }

  /** What is known of a part about to be stored. */
  lemma AboutToStore(c: Config, s: State, w: nat)
    requires Accounted(c, s) && Claims(c, s) && w < |s.workers| && s.workers[w].Sent?
    ensures WorkerCounts(c, s.workers[w]) && s.workers[w].part <= c.totalParts
    ensures s.workers[w].part !in s.etags && s.workers[w].part !in s.past.tallies
  {
    hide Size, Finished, Excess;
    assert Held(s.workers[w]) < s.next;
    assert s.past.tallies.Keys == s.etags.Keys;
  }

  lemma AccountedStore(c: Config, s: State, w: nat)
    requires Accounted(c, s) && Claims(c, s) && w < |s.workers| && s.workers[w].Sent?
    ensures Accounted(c, Moved(WithEtag(s, w), w, Ready))
  {
    var wk := s.workers[w];
    AboutToStore(c, s, w);
    hide Size, Unclaimed, Claims, WorkerCounts, Tallied, Finished, Excess, AllCount;
    assert WorkerCounts(c, Ready) by { ReadyCounts(c); }
    TalliedStore(c, s, w);
    AllCountUpdate(c, s.workers, w, Ready);
    BytesUpdate(s.workers, w, Ready);
    HeldUpdate(c, s.workers, w, Ready);
    FinishedAdds(c, s.etags, wk.part, wk.etag, c.totalParts);
    ExcessAdds(c, s.past.tallies, wk.part, Tally(wk.bytes, wk.steady), c.totalParts);
    TalliedSame(c, WithEtag(s, w), Moved(WithEtag(s, w), w, Ready));
  }

  lemma ReadyCounts(c: Config)
    ensures WorkerCounts(c, Ready)
  {
  }

  lemma TalliedSame(c: Config, s: State, s': State)
    requires Tallied(c, s) && s'.etags == s.etags && s'.past.tallies == s.past.tallies
    ensures Tallied(c, s')
  {
    hide Size;
  }

  lemma AccountedStored(c: Config, s: State, w: nat)
    requires Accounted(c, s) && Claims(c, s) && w < |s.workers| && s.workers[w].Sent?
    ensures Accounted(c, Stored(c, s, w))
  {
    hide Accounted, Claims, Begun;
    AccountedStore(c, s, w);
    BeginOverwrites(c, WithEtag(s, w), w);
    AccountedBegin(c, Moved(WithEtag(s, w), w, Ready), w);
  }

  lemma AccountedGiveUp(c: Config, s: State, w: nat)
    requires Accounted(c, s) && w < |s.workers| && s.workers[w].Throwing?
    ensures Accounted(c, GivenUp(s, w))
  {
    hide Accounted, Size;
    AccountedMove(c, s, GivenUp(s, w), w, Stopped);
  }

  lemma AccountedSame(c: Config, s: State, s': State)
    requires Accounted(c, s) && s'.workers == s.workers && s'.next == s.next && s'.etags == s.etags
    requires s'.uploadedBytes == s.uploadedBytes && s'.past.tallies == s.past.tallies
    ensures Accounted(c, s')
  {
    hide Size, Finished, Excess, Unclaimed, AllCount, Bytes, HeldSizes;
  }

  lemma AccountedKept(c: Config, s: State, ev: Event)
    requires Accounted(c, s) && Claims(c, s) && Enabled(c, s, ev)
    ensures Accounted(c, After(c, s, ev))
  {
    hide Accounted, Claims, Begun, GivenUp, Stored, Loaded, IsFull, AllStored;
    if IsInner(ev) {
      InnerIsProper(c, s, ev);
      hide After;
      AccountedInner(c, s, After(c, s, ev), ev.w);
    } else {
      match ev
      case GiveUp(w) => AccountedGiveUp(c, s, w);
      case Run(w) => AccountedBegin(c, s, w);
      case Store(w) => AccountedStored(c, s, w);
      case Answer(_, _) => AccountedSame(c, s, After(c, s, ev));
      case Refuse(_) => AccountedSame(c, s, After(c, s, ev));
      case Complete => AccountedSame(c, s, After(c, s, ev));
    }
  }
}
