/** The watchdog that kills a render when graphics errors persist without progress. */
module EglWatchdog {
  import opened RenderJobs

  /** What happens to the watchdog, with the clock's reading; Stop comes from the render ending. */
  datatype Event = Wedge(at: real, line: string) | Progress(at: real) | Poll(at: real) | Stop(at: real)

  /** The fields of the object: when the grace timer was armed, by which line, and whether the thread still polls. */
  datatype State = State(armedAt: Option<real>, line: string, fired: bool, stopped: bool)

  function Next(s: State, ev: Event, window: real): State {
    match ev
    case Wedge(at, line) => if s.armedAt.Some? then s else s.(armedAt := Some(at), line := line)
    case Progress(_) => if s.armedAt.None? then s else s.(armedAt := None, line := "")
    case Poll(at) =>
      if s.fired || s.stopped || s.armedAt.None? || at - s.armedAt.value < window then s else s.(fired := true)
    case Stop(_) => s.(stopped := true)
  }

  /** The state a history leads to. */
  function After(history: seq<Event>, window: real): State {
    if history == [] then State(None, "", false, false)
    else Next(After(history[..|history| - 1], window), history[|history| - 1], window)
  }

  class Watchdog {
    const window: real
    var firstErrorAt: Option<real>
    var firstErrorLine: string
    var fired: bool
    var stopped: bool

    function Contents(): State
      reads this
    {
      State(firstErrorAt, firstErrorLine, fired, stopped)
    }

    constructor (window: real)
      ensures this.window == window && Contents() == After([], window)
    {
      this.window := window;
      firstErrorAt, firstErrorLine, fired, stopped := None, "", false, false;
    }

    method NoteWedgePattern(now: real, line: string)
      modifies this`firstErrorAt, this`firstErrorLine
      ensures Contents() == Next(old(Contents()), Wedge(now, line), window)
    {
      if firstErrorAt.Some? { return; }
      firstErrorAt := Some(now);
      firstErrorLine := line;
    }

    method NoteProgress(now: real)
      modifies this`firstErrorAt, this`firstErrorLine
      ensures Contents() == Next(old(Contents()), Progress(now), window)
    {
      if firstErrorAt.None? { return; }
      firstErrorAt := None;
      firstErrorLine := "";
    }

    /** One round of the polling thread; true when it kills the render. */
    method PollOnce(now: real) returns (kill: bool)
      modifies this`fired
      ensures Contents() == Next(old(Contents()), Poll(now), window)
      ensures kill == (fired && !old(fired))
    {
      if fired || stopped { return false; }
      if firstErrorAt.None? { return false; }
      var elapsed := now - firstErrorAt.value;
      if elapsed < window { return false; }
      fired := true;
      return true;
    }

    method StopPolling(now: real)
      modifies this`stopped
      ensures Contents() == Next(old(Contents()), Stop(now), window)
    {
      stopped := true;
    }
  }

  // ---------------------------------------------------------------------------
  // The history the single timestamp stands for
  // ---------------------------------------------------------------------------

  /** The clock never goes back. */
  predicate Ordered(history: seq<Event>) {
    forall i, j :: 0 <= i <= j < |history| ==> history[i].at <= history[j].at
  }

  /** Entry i is a wedge with no progress after it. */
  predicate IsOpen(history: seq<Event>, i: nat) {
    i < |history| && history[i].Wedge? && forall j :: i < j < |history| ==> !history[j].Progress?
  }

  /** Some wedge since the last progress is at least a window old. */
  predicate Overdue(history: seq<Event>, now: real, window: real) {
    exists i :: 0 <= i < |history| && IsOpen(history, i) && now - history[i].at >= window
  }

  predicate IsStopped(history: seq<Event>) { exists i :: 0 <= i < |history| && history[i].Stop? }

  lemma OpenEarlier(history: seq<Event>, ev: Event, i: nat)
    requires i < |history|
    ensures IsOpen(history + [ev], i) <==> IsOpen(history, i) && !ev.Progress?
  {
    var longer := history + [ev];
    assert longer[|history|] == ev;
    assert forall j :: 0 <= j < |history| ==> longer[j] == history[j];
  }

  lemma {:induction false} StoppedByStop(history: seq<Event>, window: real)
    ensures After(history, window).stopped <==> IsStopped(history)
  {
    if history != [] {
      var before, ev := history[..|history| - 1], history[|history| - 1];
      StoppedByStop(before, window);
      if IsStopped(before) {
        var i :| 0 <= i < |before| && before[i].Stop?;
        assert history[i].Stop?;
      }
    }
  }

  predicate NoneOpen(history: seq<Event>) { forall i :: 0 <= i < |history| ==> !IsOpen(history, i) }

  /** Entry i is the first open wedge, and the state's timestamp and line are its own. */
  predicate ArmedBy(history: seq<Event>, s: State, i: nat) {
    && i < |history| && IsOpen(history, i) && s.armedAt == Some(history[i].at) && s.line == history[i].line
    && forall j :: 0 <= j < i ==> !IsOpen(history, j)
  }

  lemma ArmedLonger(history: seq<Event>, ev: Event, s: State, i: nat)
    requires ArmedBy(history, s, i) && !ev.Progress?
    ensures ArmedBy(history + [ev], s, i)
  {
    forall j | 0 <= j <= i ensures IsOpen(history + [ev], j) <==> IsOpen(history, j) {
      OpenEarlier(history, ev, j);
    }
  }

  lemma NoneOpenLonger(history: seq<Event>, ev: Event)
    requires ev.Progress? || (NoneOpen(history) && !ev.Wedge?)
    ensures NoneOpen(history + [ev])
  {
    forall i | 0 <= i < |history| + 1 ensures !IsOpen(history + [ev], i) {
      if i < |history| { OpenEarlier(history, ev, i); }
    }
  }

  lemma FirstWedge(history: seq<Event>, ev: Event, s: State)
    requires NoneOpen(history) && ev.Wedge? && s.armedAt == Some(ev.at) && s.line == ev.line
    ensures ArmedBy(history + [ev], s, |history|)
  {
    forall j | 0 <= j < |history| ensures !IsOpen(history + [ev], j) {
      OpenEarlier(history, ev, j);
    }
  }

  /** The timestamp is the time, and the line the line, of the first wedge since the last progress; without one the timer
      is not armed. */
  lemma {:induction false} ArmedByFirstOpen(history: seq<Event>, window: real) returns (i: nat)
    ensures var s := After(history, window);
      if s.armedAt.None? then NoneOpen(history) else ArmedBy(history, s, i)
  {
    i := 0;
    if history != [] {
      var before, ev := history[..|history| - 1], history[|history| - 1];
      i := ArmedByFirstOpen(before, window);
      var was, s := After(before, window), After(history, window);
      assert history == before + [ev];
      hide IsOpen, NoneOpen, ArmedBy, After;
      if ev.Progress? || (was.armedAt.None? && !ev.Wedge?) {
        NoneOpenLonger(before, ev);
      } else if was.armedAt.Some? {
        ArmedLonger(before, ev, was, i);
        SameArm(history, was, s, i);
      } else {
        FirstWedge(before, ev, s);
        i := |before|;
      }
    }
  }

  lemma SameArm(history: seq<Event>, s: State, s': State, i: nat)
    requires ArmedBy(history, s, i) && s'.armedAt == s.armedAt && s'.line == s.line
    ensures ArmedBy(history, s', i)
  {
  }

  /** On a clock that never goes back, an armed timer is overdue exactly when some open wedge is. */
  lemma ArmedIsOldest(history: seq<Event>, window: real, now: real)
    requires Ordered(history)
    ensures var s := After(history, window);
      s.armedAt.Some? && now - s.armedAt.value >= window <==> Overdue(history, now, window)
  {
    var s := After(history, window);
    var i := ArmedByFirstOpen(history, window);
    if Overdue(history, now, window) {
      var k :| 0 <= k < |history| && IsOpen(history, k) && now - history[k].at >= window;
      assert i <= k;
    }
  }

  /** A live watchdog fires at a poll exactly when some wedge since the last progress is at least a window old. */
  lemma FiresIff(history: seq<Event>, now: real, window: real)
    requires Ordered(history) && !After(history, window).fired && !IsStopped(history)
    ensures After(history + [Poll(now)], window).fired <==> Overdue(history, now, window)
  {
    StoppedByStop(history, window);
    ArmedIsOldest(history, window, now);
    assert (history + [Poll(now)])[..|history|] == history;
  }

  /** Poll k of the history kills the render. */
  predicate FiresAt(history: seq<Event>, k: nat, window: real) {
    k < |history| && After(history[..k + 1], window).fired && !After(history[..k], window).fired
  }

  lemma {:induction false} FiredStays(history: seq<Event>, k: nat, window: real)
    requires k <= |history| && After(history[..k], window).fired
    ensures After(history, window).fired
  {
    if k < |history| {
      var before := history[..|history| - 1];
      assert before[..k] == history[..k];
      FiredStays(before, k, window);
    } else {
      assert history[..k] == history;
    }
  }

  /** It fires at most once in any history. */
  lemma FiresAtMostOnce(history: seq<Event>, i: nat, k: nat, window: real)
    requires FiresAt(history, i, window) && FiresAt(history, k, window)
    ensures i == k
  {
    if i < k {
      assert history[..k][..i + 1] == history[..i + 1];
      FiredStays(history[..k], i + 1, window);
    } else if k < i {
      assert history[..i][..k + 1] == history[..k + 1];
      FiredStays(history[..i], k + 1, window);
    }
  }

  /** A poll of a thread that was not stopped before it, at a moment when a wedge was overdue. */
  predicate Due(history: seq<Event>, k: nat, window: real) {
    k < |history| && history[k].Poll? && !IsStopped(history[..k]) && Overdue(history[..k], history[k].at, window)
  }

  predicate SomeDue(history: seq<Event>, window: real) {
    exists k :: 0 <= k < |history| && Due(history, k, window)
  }

  lemma DueLonger(history: seq<Event>, ev: Event, window: real)
    ensures SomeDue(history + [ev], window) <==> SomeDue(history, window) || Due(history + [ev], |history|, window)
  {
    var longer := history + [ev];
    forall k | 0 <= k < |history| ensures Due(longer, k, window) <==> Due(history, k, window) {
      assert longer[..k] == history[..k];
    }
    if SomeDue(history, window) {
      var k :| 0 <= k < |history| && Due(history, k, window);
      assert Due(longer, k, window);
    }
  }

  /** Over a whole history: the render was killed exactly when some poll before the stop found an overdue wedge. */
  lemma {:induction false} FiredIff(history: seq<Event>, window: real)
    requires Ordered(history)
    ensures After(history, window).fired <==> SomeDue(history, window)
  {
    if history != [] {
      var last := |history| - 1;
      var before, ev := history[..last], history[last];
      FiredIff(before, window);
      StoppedByStop(before, window);
      ArmedIsOldest(before, window, ev.at);
      assert history == before + [ev];
      DueLonger(before, ev, window);
      hide SomeDue, Overdue, IsStopped, Ordered;
    }
  }
}
