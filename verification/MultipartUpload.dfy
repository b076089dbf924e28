/** The multipart uploader: up to four workers that interleave wherever the code awaits. */
module MultipartUpload {
  import opened Grid
  import opened RenderJobs

  const MIN_PART_SIZE := 5 * 1024 * 1024
  const CONCURRENCY := 4
  const BATCH_SIZE := 16
  const ATTEMPTS := 3

  type Blob = seq<bv8>

  datatype Config = Config(file: Blob, partSize: nat, totalParts: nat)

  predicate Valid(c: Config) { c.partSize >= 1 && c.totalParts >= 1 }

  // ---------------------------------------------------------------------------
  // Slices
  // ---------------------------------------------------------------------------

  /** Where part n ends; part n starts where part n - 1 ends. */
  function EndOf(c: Config, n: nat): (e: nat)
    ensures e <= |c.file|
  {
    Min(|c.file|, n * c.partSize)
  }

  lemma EndsGrow(c: Config, n: nat)
    ensures EndOf(c, n) <= EndOf(c, n + 1)
  {
  }

  /** file.slice of part n: empty past the end of the file. */
  function Slice(c: Config, n: nat): Blob
    requires n >= 1
  {
    EndsGrow(c, n - 1);
    c.file[EndOf(c, n - 1)..EndOf(c, n)]
  }

  function Size(c: Config, n: nat): nat
    requires n >= 1
  {
    |Slice(c, n)|
  }

  /** Parts 1 to n, put together. */
  function Joined(c: Config, n: nat): Blob {
    if n == 0 then [] else Joined(c, n - 1) + Slice(c, n)
  }

  lemma {:induction false} JoinedIsPrefix(c: Config, n: nat)
    ensures Joined(c, n) == c.file[..EndOf(c, n)]
  {
    if n > 0 {
      JoinedIsPrefix(c, n - 1);
      EndsGrow(c, n - 1);
    }
  }

  /** The parts make up the file exactly when they are long enough together. */
  lemma PartsMakeTheFileIff(c: Config)
    ensures Joined(c, c.totalParts) == c.file <==> c.totalParts * c.partSize >= |c.file|
  {
    JoinedIsPrefix(c, c.totalParts);
  }

  // ---------------------------------------------------------------------------
  // State
  // ---------------------------------------------------------------------------

  type Part = p: nat | p >= 1 witness 1

  datatype Settled = Open | Fulfilled | Rejected

  /** One request for the URLs of a batch of parts: the promise the workers await. */
  datatype Fetch = Fetch(batch: nat, status: Settled)

  /** Where a worker stands between two atomic sections. */
  datatype Worker =
    | Ready                                                                    // at the top of its loop
    | Waiting(part: Part, fetch: nat)                                          // awaits the URLs of a batch
    | HasUrl(part: Part, url: string)                                          // awaits the return of ensurePartUrl
    | Sending(part: Part, url: string, attempt: nat, loaded: nat, bytes: nat, steady: bool)  // an attempt is under way
    | Lost(part: Part, url: string, attempt: nat, bytes: nat, steady: bool)    // it failed and is not yet caught
    | Sleeping(part: Part, url: string, attempt: nat)                          // waits before the next attempt
    | Sent(part: Part, etag: string, bytes: nat, steady: bool)                 // it succeeded and is not yet stored
    | Throwing(part: Part)                                                     // an error on its way out of the part
    | Stopped

  /** A part body the storage accepted. */
  datatype Put = Put(part: Part, url: string, blob: Blob, etag: string)

  /** What a stored part's last attempt added to the counter, and whether its progress reports were steady. */
  datatype Tally = Tally(bytes: nat, steady: bool)

  /** What was issued, accepted, given up and counted so far, and whether every response was full. */
  datatype Past = Past(issued: set<(int, string)>, puts: seq<Put>, broken: set<Part>, full: bool, tallies: map<Part, Tally>)

  /** The variables the closures share, and the past for the statements about it. */
  datatype State = State(
    uploadedBytes: int, next: Part, failed: bool, etags: map<Part, string>, cache: map<int, string>,
    inFlight: map<nat, nat>, fetches: seq<Fetch>, workers: seq<Worker>, completed: Option<seq<(Part, string)>>, past: Past)

  function Initial(c: Config): State {
    var none: set<Part> := {};
    State(0, 1, false, map[], map[], map[], [], seq(Min(CONCURRENCY, c.totalParts), _ => Ready), None,
          Past({}, [], none, true, map[]))
  }

  function BatchStart(part: Part): (b: nat)
    ensures 1 <= b <= part < b + BATCH_SIZE
  {
    (part - 1) / BATCH_SIZE * BATCH_SIZE + 1
  }

  predicate InBatch(c: Config, part: int, batch: nat) {
    1 <= part <= c.totalParts && BatchStart(part) == batch
  }

  /** A response with a URL for every part asked for, and no others. */
  ghost predicate IsFull(c: Config, batch: nat, urls: map<int, string>) {
    forall p: int :: (p in urls <==> InBatch(c, p, batch)) && (p in urls ==> urls[p] != "")
  }

  // ---------------------------------------------------------------------------
  // Atomic sections
  // ---------------------------------------------------------------------------

  function Moved(s: State, w: nat, wk: Worker): State
    requires w < |s.workers|
  {
    s.(workers := s.workers[w := wk])
  }

  /** ensurePartUrl up to its first await. */
  function Asked(s: State, w: nat, part: Part): State
    requires w < |s.workers|
  {
    var b := BatchStart(part);
    if part in s.cache then Moved(s, w, HasUrl(part, s.cache[part]))
    else if b in s.inFlight then Moved(s, w, Waiting(part, s.inFlight[b]))
    else
      var id := |s.fetches|;
      Moved(s.(fetches := s.fetches + [Fetch(b, Open)], inFlight := s.inFlight[b := id]), w, Waiting(part, id))
  }

  /** The worker's loop from its top: stop, or claim the next part and ask for its URL. */
  function Begun(c: Config, s: State, w: nat): State
    requires w < |s.workers|
  {
    if s.failed || s.next > c.totalParts then Moved(s, w, Stopped)
    else Asked(s.(next := s.next + 1), w, s.next)
  }

  /** The response to a batch request arrives. */
  ghost function Answered(c: Config, s: State, fetch: nat, urls: map<int, string>): State
    requires fetch < |s.fetches|
  {
    s.(cache := s.cache + urls, fetches := s.fetches[fetch := Fetch(s.fetches[fetch].batch, Fulfilled)],
       past := s.past.(issued := s.past.issued + urls.Items,
                       full := s.past.full && IsFull(c, s.fetches[fetch].batch, urls)))
  }

  /** A batch request fails. */
  function Refused(s: State, fetch: nat): State
    requires fetch < |s.fetches|
  {
    s.(fetches := s.fetches[fetch := Fetch(s.fetches[fetch].batch, Rejected)], past := s.past.(full := false))
  }

  /** ensurePartUrl after its await. */
  function Awaited(s: State, w: nat): State
    requires w < |s.workers| && s.workers[w].Waiting? && s.workers[w].fetch < |s.fetches|
  {
    var part, fetch := s.workers[w].part, s.workers[w].fetch;
    var b := BatchStart(part);
    var s1 := if b in s.inFlight && s.inFlight[b] == fetch then s.(inFlight := s.inFlight - {b}) else s;
    if s.fetches[fetch].status.Rejected? || part !in s.cache || s.cache[part] == "" then Moved(s1, w, Throwing(part))
    else Moved(s1.(cache := s.cache - {part as int}), w, HasUrl(part, s.cache[part]))
  }

  function Started(s: State, w: nat): State
    requires w < |s.workers| && s.workers[w].HasUrl?
  {
    Moved(s, w, Sending(s.workers[w].part, s.workers[w].url, 1, 0, 0, true))
  }

  /** A progress report that neither goes back nor passes the size of the part. */
  predicate IsSteady(c: Config, wk: Worker, loaded: nat)
    requires wk.Sending?
  {
    wk.loaded <= loaded <= Size(c, wk.part)
  }

  /** onprogress: only growth is counted. */
  function Progressed(c: Config, s: State, w: nat, loaded: nat): State
    requires w < |s.workers| && s.workers[w].Sending?
  {
    var wk := s.workers[w];
    var delta := Max(0, loaded - wk.loaded);
    Moved(s.(uploadedBytes := s.uploadedBytes + delta), w,
          wk.(loaded := loaded, bytes := wk.bytes + delta, steady := wk.steady && IsSteady(c, wk, loaded)))
  }

  /** onload: what progress events left out is counted, then the status and the etag decide. */
  function Loaded(c: Config, s: State, w: nat, ok: bool, etag: string): State
    requires w < |s.workers| && s.workers[w].Sending?
  {
    var wk := s.workers[w];
    var rest := Max(0, Size(c, wk.part) - wk.loaded);
    var s1 := s.(uploadedBytes := s.uploadedBytes + rest);
    if ok && etag != "" then
      var put := Put(wk.part, wk.url, Slice(c, wk.part), etag);
      Moved(s1.(past := s.past.(puts := s.past.puts + [put])), w, Sent(wk.part, etag, wk.bytes + rest, wk.steady))
    else Moved(s1, w, Lost(wk.part, wk.url, wk.attempt, wk.bytes + rest, wk.steady))
  }

  /** onerror. */
  function Errored(s: State, w: nat): State
    requires w < |s.workers| && s.workers[w].Sending?
  {
    var wk := s.workers[w];
    Moved(s, w, Lost(wk.part, wk.url, wk.attempt, wk.bytes, wk.steady))
  }

  /** The catch of one attempt: take its bytes back, then wait for another attempt or give the part up. */
  function Caught(s: State, w: nat): State
    requires w < |s.workers| && s.workers[w].Lost?
  {
    var wk := s.workers[w];
    var s1 := s.(uploadedBytes := s.uploadedBytes - wk.bytes);
    if wk.attempt < ATTEMPTS then Moved(s1, w, Sleeping(wk.part, wk.url, wk.attempt))
    else Moved(s1.(past := s.past.(broken := s.past.broken + {wk.part})), w, Throwing(wk.part))
  }

  function Woken(s: State, w: nat): State
    requires w < |s.workers| && s.workers[w].Sleeping?
  {
    var wk := s.workers[w];
    Moved(s, w, Sending(wk.part, wk.url, wk.attempt + 1, 0, 0, true))
  }

  /** The etag stored under its part. */
  function WithEtag(s: State, w: nat): State
    requires w < |s.workers| && s.workers[w].Sent?
  {
    var wk := s.workers[w];
    s.(etags := s.etags[wk.part := wk.etag],
       past := s.past.(tallies := s.past.tallies[wk.part := Tally(wk.bytes, wk.steady)]))
  }

  /** The etag is stored, and the loop goes round. */
  function Stored(c: Config, s: State, w: nat): State
    requires w < |s.workers| && s.workers[w].Sent?
  {
    Begun(c, WithEtag(s, w), w)
  }

  /** The catch of the worker: the first error is kept, and the worker returns. */
  function GivenUp(s: State, w: nat): State
    requires w < |s.workers|
  {
    Moved(s.(failed := true), w, Stopped)
  }

  /** The list sent with `complete`. */
  function PartList(etags: map<Part, string>, n: nat): (parts: seq<(Part, string)>)
    requires forall p: Part :: p <= n ==> p in etags
    ensures |parts| == n && forall i :: 0 <= i < n ==> parts[i] == (i + 1, etags[i + 1])
  {
    if n == 0 then [] else PartList(etags, n - 1) + [(n, etags[n])]
  }

  ghost predicate AllStored(c: Config, s: State) {
    forall p: Part :: p <= c.totalParts ==> p in s.etags && s.etags[p] != ""
  }

  /** After all workers have returned: `complete`, unless there was an error or an etag is missing. */
  ghost function Completed(c: Config, s: State): State {
    if s.failed || !AllStored(c, s) then s else s.(completed := Some(PartList(s.etags, c.totalParts)))
  }

  // ---------------------------------------------------------------------------
  // Runs
  // ---------------------------------------------------------------------------

  datatype Event =
    | Run(w: nat) | Answer(fetch: nat, urls: map<int, string>) | Refuse(fetch: nat) | Await(w: nat) | Start(w: nat)
    | Progress(w: nat, loaded: nat) | Load(w: nat, ok: bool, etag: string) | Fail(w: nat) | Catch(w: nat) | Wake(w: nat)
    | Store(w: nat) | GiveUp(w: nat) | Complete

  /** What can happen next. */
  predicate Enabled(c: Config, s: State, ev: Event) {
    match ev
    case Run(w) => w < |s.workers| && s.workers[w].Ready?
    case Answer(f, _) => f < |s.fetches| && s.fetches[f].status.Open?
    case Refuse(f) => f < |s.fetches| && s.fetches[f].status.Open?
    case Await(w) => w < |s.workers| && s.workers[w].Waiting? && s.workers[w].fetch < |s.fetches|
                     && !s.fetches[s.workers[w].fetch].status.Open?
    case Start(w) => w < |s.workers| && s.workers[w].HasUrl?
    case Progress(w, _) => w < |s.workers| && s.workers[w].Sending?
    case Load(w, _, _) => w < |s.workers| && s.workers[w].Sending?
    case Fail(w) => w < |s.workers| && s.workers[w].Sending?
    case Catch(w) => w < |s.workers| && s.workers[w].Lost?
    case Wake(w) => w < |s.workers| && s.workers[w].Sleeping?
    case Store(w) => w < |s.workers| && s.workers[w].Sent?
    case GiveUp(w) => w < |s.workers| && s.workers[w].Throwing?
    case Complete => s.completed.None? && forall i :: 0 <= i < |s.workers| ==> s.workers[i].Stopped?
  }

  ghost function After(c: Config, s: State, ev: Event): State
    requires Enabled(c, s, ev)
  {
    match ev
    case Run(w) => Begun(c, s, w)
    case Answer(f, urls) => Answered(c, s, f, urls)
    case Refuse(f) => Refused(s, f)
    case Await(w) => Awaited(s, w)
    case Start(w) => Started(s, w)
    case Progress(w, loaded) => Progressed(c, s, w, loaded)
    case Load(w, ok, etag) => Loaded(c, s, w, ok, etag)
    case Fail(w) => Errored(s, w)
    case Catch(w) => Caught(s, w)
    case Wake(w) => Woken(s, w)
    case Store(w) => Stored(c, s, w)
    case GiveUp(w) => GivenUp(s, w)
    case Complete => Completed(c, s)
  }

  /** A state some interleaving leads to. */
  ghost predicate Reaches(c: Config, from: State, events: seq<Event>, to: State)
    decreases |events|
  {
    if events == [] then from == to
    else Enabled(c, from, events[0]) && Reaches(c, After(c, from, events[0]), events[1..], to)
  }

  /** One more event at the end of a run. */
  lemma {:induction false} ReachesNext(c: Config, from: State, events: seq<Event>, s: State, ev: Event)
    requires Reaches(c, from, events, s) && Enabled(c, s, ev)
    ensures Reaches(c, from, events + [ev], After(c, s, ev))
    decreases |events|
  {
    hide After, Enabled;
    if events == [] {
      assert ([] + [ev])[1..] == [] && ([] + [ev])[0] == ev;
      assert Reaches(c, After(c, s, ev), [], After(c, s, ev));
    } else {
      ReachesNext(c, After(c, from, events[0]), events[1..], s, ev);
      assert (events + [ev])[1..] == events[1..] + [ev];
    }
  }
}
