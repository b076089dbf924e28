/** The two-level frame split: machines share a stepped range in proportion to their power
    scores, then every serverless share is split again over parallel workers. */
module FrameDistribution {
  import opened Grid

  datatype MachineType = ModalServerless | VastServerless | Desktop(name: string)

  /** `score` is the machine's power score, any number: nothing below depends on its formula. */
  datatype Machine = Machine(id: string, kind: MachineType, score: real)

  /** What the provider strategies read from the environment. */
  datatype Config = Config(modalWorkers: int, vastWorkers: int)

  datatype Assignment = Assignment(machine: Machine, frameStart: int, frameEnd: int, frameStep: int,
                                   totalFrames: int, powerScore: real)

  datatype PlannedTask = PlannedTask(share: Assignment, chunkIndex: nat)

  function IsServerless(kind: MachineType): bool { !kind.Desktop? }

  function MinFrames(kind: MachineType): (n: int)
    ensures n >= 2
  {
    match kind
    case ModalServerless => 5
    case VastServerless => 10
    case Desktop(_) => 2
  }

  function WorkersPerEndpoint(kind: MachineType, cfg: Config): int {
    match kind
    case ModalServerless => cfg.modalWorkers
    case VastServerless => cfg.vastWorkers
    case Desktop(_) => 1
  }

  // ---------------------------------------------------------------------------
  // Ranking: a stable sort by descending score
  // ---------------------------------------------------------------------------

  function InsertRanked(m: Machine, ranked: seq<Machine>): seq<Machine> {
    if ranked == [] then [m]
    else if m.score >= ranked[0].score then [m] + ranked
    else [ranked[0]] + InsertRanked(m, ranked[1..])
  }

  function Ranked(ms: seq<Machine>): seq<Machine> {
    if ms == [] then [] else InsertRanked(ms[0], Ranked(ms[1..]))
  }

  ghost predicate Descending(ms: seq<Machine>) {
    forall i, j :: 0 <= i < j < |ms| ==> ms[i].score >= ms[j].score
  }

  /** The machines of one score, in order. */
  ghost function WithScore(ms: seq<Machine>, score: real): seq<Machine> {
    if ms == [] then []
    else (if ms[0].score == score then [ms[0]] else []) + WithScore(ms[1..], score)
  }

  lemma {:induction false} InsertRankedSame(m: Machine, ranked: seq<Machine>)
    ensures multiset(InsertRanked(m, ranked)) == multiset([m]) + multiset(ranked)
  {
    if ranked != [] && m.score < ranked[0].score {
      InsertRankedSame(m, ranked[1..]);
      assert ranked == [ranked[0]] + ranked[1..];
    }
  }

  lemma {:induction false} InsertRankedDescending(m: Machine, ranked: seq<Machine>)
    requires Descending(ranked)
    ensures Descending(InsertRanked(m, ranked))
  {
    if ranked != [] && m.score < ranked[0].score {
      InsertRankedDescending(m, ranked[1..]);
      InsertRankedSame(m, ranked[1..]);
      var r := InsertRanked(m, ranked[1..]);
      forall k | 0 <= k < |r| ensures ranked[0].score >= r[k].score {
        assert r[k] in multiset(r);
        assert r[k] == m || r[k] in ranked[1..];
      }
    }
  }

  lemma {:induction false} InsertRankedStable(m: Machine, ranked: seq<Machine>, score: real)
    ensures WithScore(InsertRanked(m, ranked), score) == WithScore([m] + ranked, score)
  {
    assert ([m] + ranked)[1..] == ranked;
    if ranked != [] && m.score < ranked[0].score {
      var rest, r := ranked[1..], InsertRanked(m, ranked[1..]);
      InsertRankedStable(m, rest, score);
      assert ([m] + rest)[1..] == rest;
      assert ([ranked[0]] + r)[1..] == r;
    }
  }

  /** Ranked is the stable descending sort: same machines, higher scores first,
      and machines of equal score keep their order. */
  lemma {:induction false} RankedIsStableSort(ms: seq<Machine>, score: real)
    ensures Descending(Ranked(ms))
    ensures multiset(Ranked(ms)) == multiset(ms)
    ensures WithScore(Ranked(ms), score) == WithScore(ms, score)
  {
    if ms != [] {
      RankedIsStableSort(ms[1..], score);
      InsertRankedSame(ms[0], Ranked(ms[1..]));
      InsertRankedDescending(ms[0], Ranked(ms[1..]));
      InsertRankedStable(ms[0], Ranked(ms[1..]), score);
      assert ms == [ms[0]] + ms[1..];
      assert ([ms[0]] + Ranked(ms[1..]))[1..] == Ranked(ms[1..]);
    }
  }

  // ---------------------------------------------------------------------------
  // Limiting the machines to what the frame budget can justify
  // ---------------------------------------------------------------------------

  function Kept(ranked: seq<Machine>, remaining: int): seq<Machine> {
    if ranked == [] then []
    else if remaining >= MinFrames(ranked[0].kind)
      then [ranked[0]] + Kept(ranked[1..], remaining - MinFrames(ranked[0].kind))
    else Kept(ranked[1..], remaining)
  }

  function Limited(ms: seq<Machine>, totalFrames: int): seq<Machine> {
    var ranked := Ranked(ms);
    var kept := Kept(ranked, totalFrames);
    if kept != [] || ranked == [] then kept else ranked[..1]
  }

  method LimitMachines(machines: seq<Machine>, totalFrames: int) returns (r: seq<Machine>)
    ensures r == Limited(machines, totalFrames)
  {
    if machines == [] {
      return [];
    }
    var ranked := Ranked(machines);
    r := [];
    var remaining := totalFrames;
    for i := 0 to |ranked|
      invariant r + Kept(ranked[i..], remaining) == Kept(ranked, totalFrames)
    {
      var minFrames := MinFrames(ranked[i].kind);
      ghost var before := r;
      if remaining >= minFrames {
        r := r + [ranked[i]];
        remaining := remaining - minFrames;
        assert before + ([ranked[i]] + Kept(ranked[i..][1..], remaining)) == r + Kept(ranked[i..][1..], remaining);
      }
      assert ranked[i..][1..] == ranked[i + 1..];
    }
    if r == [] && ranked != [] {
      r := ranked[..1];
    }
  }

  function Demand(ms: seq<Machine>): int {
    if ms == [] then 0 else MinFrames(ms[0].kind) + Demand(ms[1..])
  }

  /** The kept machines fit the budget. */
  lemma {:induction false} KeptFits(ranked: seq<Machine>, remaining: int)
    ensures Demand(Kept(ranked, remaining)) <= remaining || Kept(ranked, remaining) == []
  {
    if ranked != [] {
      var m, rest := ranked[0], ranked[1..];
      if remaining >= MinFrames(m.kind) {
        KeptFits(rest, remaining - MinFrames(m.kind));
        assert ([m] + Kept(rest, remaining - MinFrames(m.kind)))[1..] == Kept(rest, remaining - MinFrames(m.kind));
      } else {
        KeptFits(rest, remaining);
      }
    }
  }

  lemma {:induction false} KeptAmong(ranked: seq<Machine>, remaining: int)
    ensures multiset(Kept(ranked, remaining)) <= multiset(ranked)
  {
    if ranked != [] {
      assert ranked == [ranked[0]] + ranked[1..];
      KeptAmong(ranked[1..], remaining - MinFrames(ranked[0].kind));
      KeptAmong(ranked[1..], remaining);
    }
  }

  lemma {:induction false} KeptDescending(ranked: seq<Machine>, remaining: int)
    requires Descending(ranked)
    ensures Descending(Kept(ranked, remaining))
  {
    if ranked != [] {
      var rest, left := ranked[1..], remaining - MinFrames(ranked[0].kind);
      KeptDescending(rest, left);
      KeptDescending(rest, remaining);
      KeptAmong(rest, left);
      var tail := Kept(rest, left);
      forall k | 0 <= k < |tail| ensures ranked[0].score >= tail[k].score {
        assert tail[k] in multiset(tail);
        assert tail[k] in rest;
      }
    }
  }

  /** Every copy of a machine left out would overrun the budget. */
  lemma {:induction false} KeptMaximal(ranked: seq<Machine>, remaining: int, m: Machine)
    requires multiset(ranked)[m] > multiset(Kept(ranked, remaining))[m]
    ensures Demand(Kept(ranked, remaining)) + MinFrames(m.kind) > remaining
  {
    var first, rest := ranked[0], ranked[1..];
    assert ranked == [first] + rest;
    if remaining >= MinFrames(first.kind) {
      var left := remaining - MinFrames(first.kind);
      var tail := Kept(rest, left);
      assert ([first] + tail)[1..] == tail;
      assert multiset([first] + tail) == multiset([first]) + multiset(tail);
      KeptMaximal(rest, left, m);
    } else if multiset(rest)[m] > multiset(Kept(rest, remaining))[m] {
      KeptMaximal(rest, remaining, m);
    } else {
      assert m == first;
      if Kept(rest, remaining) != [] { DemandPositive(Kept(rest, remaining)); }
    }
  }

  lemma {:induction false} DemandPositive(ms: seq<Machine>)
    ensures Demand(ms) >= 0
  {
    if ms != [] { DemandPositive(ms[1..]); }
  }

  /** What the limiter returns: at least one machine when there is any, strongest first, drawn from
      the given ones; either their minimum demands fit the budget and no left-out machine would
      still fit, or no machine fits at all and only the strongest is kept. */
  lemma LimiterFitsAndIsMaximal(ms: seq<Machine>, totalFrames: int)
    ensures var r := Limited(ms, totalFrames);
      && (r == [] <==> ms == [])
      && Descending(r)
      && multiset(r) <= multiset(ms)
      && (|| (Demand(r) <= totalFrames
              && forall m :: multiset(ms)[m] > multiset(r)[m] ==> Demand(r) + MinFrames(m.kind) > totalFrames)
          || (|r| == 1
              && (forall m :: m in ms ==> totalFrames < MinFrames(m.kind) && r[0].score >= m.score))
          || ms == [])
  {
    RankedIsStableSort(ms, 0.0);
    var ranked := Ranked(ms);
    assert |ranked| == |multiset(ranked)| == |multiset(ms)| == |ms|;
    KeptFits(ranked, totalFrames);
    KeptAmong(ranked, totalFrames);
    KeptDescending(ranked, totalFrames);
    var kept := Kept(ranked, totalFrames);
    forall m | multiset(ms)[m] > multiset(kept)[m] ensures Demand(kept) + MinFrames(m.kind) > totalFrames {
      KeptMaximal(ranked, totalFrames, m);
    }
    if kept == [] && ranked != [] {
      forall m | m in ms ensures totalFrames < MinFrames(m.kind) && ranked[0].score >= m.score {
        assert m in multiset(ms);
        assert m in ranked;
      }
      assert ranked[0] in multiset(ranked);
    }
  }

  function HowMany(ms: seq<Machine>, which: MachineType -> bool): nat {
    if ms == [] then 0 else (if which(ms[0].kind) then 1 else 0) + HowMany(ms[1..], which)
  }

  /** A Modal machine asks for 5 frames, a Vast machine for 10, a desktop for 2. */
  lemma {:induction false} DemandInFrames(ms: seq<Machine>)
    ensures Demand(ms) == 5 * HowMany(ms, (k: MachineType) => k.ModalServerless?)
      + 10 * HowMany(ms, (k: MachineType) => k.VastServerless?) + 2 * HowMany(ms, (k: MachineType) => k.Desktop?)
  {
    if ms != [] { DemandInFrames(ms[1..]); }
  }

  /** The machines with at least a score, in order. */
  function AtLeast(ms: seq<Machine>, score: real): seq<Machine> {
    if ms == [] then []
    else (if ms[0].score >= score then [ms[0]] else []) + AtLeast(ms[1..], score)
  }

  /** After the machines that are at least as strong, no copy left out would fit. */
  lemma {:induction false} KeptByRank(ranked: seq<Machine>, remaining: int, m: Machine)
    requires Descending(ranked) && multiset(ranked)[m] > multiset(Kept(ranked, remaining))[m]
    ensures Demand(AtLeast(Kept(ranked, remaining), m.score)) + MinFrames(m.kind) > remaining
  {
    var first, rest := ranked[0], ranked[1..];
    assert ranked == [first] + rest;
    assert first.score >= m.score by {
      assert m in multiset(ranked);
      assert m in ranked;
    }
    if remaining >= MinFrames(first.kind) {
      var left := remaining - MinFrames(first.kind);
      var tail := Kept(rest, left);
      assert ([first] + tail)[1..] == tail;
      assert multiset([first] + tail) == multiset([first]) + multiset(tail);
      KeptByRank(rest, left, m);
      assert ([first] + AtLeast(tail, m.score))[1..] == AtLeast(tail, m.score);
    } else if multiset(rest)[m] > multiset(Kept(rest, remaining))[m] {
      KeptByRank(rest, remaining, m);
    } else {
      assert m == first;
      DemandPositive(AtLeast(Kept(rest, remaining), m.score));
    }
  }

  /** Weaker machines never take the frames of a stronger one: what is left over after the kept machines of at least its score
      is too little for a machine left out, unless a single machine is kept that nothing was enough for. */
  lemma StrongerComeFirst(ms: seq<Machine>, totalFrames: int, m: Machine)
    requires multiset(ms)[m] > multiset(Limited(ms, totalFrames))[m]
    ensures var kept := Limited(ms, totalFrames);
      || Demand(AtLeast(kept, m.score)) + MinFrames(m.kind) > totalFrames
      || (|kept| == 1 && totalFrames < MinFrames(kept[0].kind) && totalFrames < MinFrames(m.kind))
  {
    RankedIsStableSort(ms, 0.0);
    LimiterFitsAndIsMaximal(ms, totalFrames);
    var ranked := Ranked(ms);
    if Kept(ranked, totalFrames) != [] {
      KeptByRank(ranked, totalFrames, m);
    } else {
      assert m in multiset(ms) && m in ms;
      assert ranked[0] in multiset(ranked);
    }
  }

  // ---------------------------------------------------------------------------
  // Sharing a range over machines
  // ---------------------------------------------------------------------------

  function Scores(ms: seq<Machine>): (s: seq<real>)
    ensures |s| == |ms| && forall i :: 0 <= i < |ms| ==> s[i] == ms[i].score
  {
    seq(|ms|, i requires 0 <= i < |ms| => ms[i].score)
  }

  function Sum(xs: seq<real>): real {
    if xs == [] then 0.0 else xs[0] + Sum(xs[1..])
  }

  /** The scores actually used: all equal when they do not add up to anything positive. */
  function Weights(ms: seq<Machine>): (w: seq<real>)
    ensures |w| == |ms|
  {
    if Sum(Scores(ms)) <= 0.0 then seq(|ms|, _ => 1.0) else Scores(ms)
  }

  function WeightTotal(ms: seq<Machine>): (t: real)
    ensures ms != [] ==> t > 0.0
  {
    var total := Sum(Scores(ms));
    if total <= 0.0 then |ms| as real else total
  }

  /** A machine's exact proportional number of frames. */
  function Quota(totalFrames: int, weight: real, weightTotal: real): real
    requires weightTotal > 0.0
  {
    var share := weight / weightTotal;
    totalFrames as real * share
  }

  function Quotas(ms: seq<Machine>, totalFrames: int): (q: seq<real>)
    ensures |q| == |ms|
    ensures forall i :: 0 <= i < |ms| ==> q[i] == Quota(totalFrames, Weights(ms)[i], WeightTotal(ms))
  {
    seq(|ms|, i requires 0 <= i < |ms| => Quota(totalFrames, Weights(ms)[i], WeightTotal(ms)))
  }

  /** Hand out consecutive chunks: each machine but the last takes its rounded quota (at least one
      frame, never past the end), the last takes the rest. */
  function Spread(ms: seq<Machine>, weights: seq<real>, quotas: seq<real>, round: real -> int,
                  current: int, end: int, step: int): seq<Assignment>
    requires step >= 1 && |ms| == |weights| == |quotas|
    decreases |ms|
  {
    if ms == [] then []
    else
      var chunkEnd := if |ms| == 1 then end else Cut(current, end, step, Max(1, round(quotas[0])));
      [Assignment(ms[0], current, chunkEnd, step, Count(current, chunkEnd, step), weights[0])]
      + Spread(ms[1..], weights[1..], quotas[1..], round, chunkEnd + step, end, step)
  }

  function Distributed(totalFrames: int, start: int, end: int, step: int, machines: seq<Machine>,
                       round: real -> int): seq<Assignment>
    requires step >= 1
  {
    var ms := Limited(machines, totalFrames);
    Spread(ms, Weights(ms), Quotas(ms, totalFrames), round, start, end, step)
  }

  method DistributeFrames(totalFrames: int, start: int, end: int, step: int, machines: seq<Machine>,
                          round: real -> int) returns (r: seq<Assignment>)
    requires step >= 1
    ensures r == Distributed(totalFrames, start, end, step, machines, round)
  {
    r := [];
    var ms := LimitMachines(machines, totalFrames);
    if ms == [] {
      return;
    }
    var weights, weightTotal := Scores(ms), Sum(Scores(ms));
    if weightTotal <= 0.0 {
      weightTotal := |ms| as real;
      weights := seq(|ms|, _ => 1.0);
    }
    assert weights == Weights(ms) && weightTotal == WeightTotal(ms);
    ghost var quotas := Quotas(ms, totalFrames);
    var current := start;
    for i := 0 to |ms|
      invariant r + Spread(ms[i..], weights[i..], quotas[i..], round, current, end, step)
             == Spread(ms, weights, quotas, round, start, end, step)
    {
      var chunkEnd;
      if i == |ms| - 1 {
        chunkEnd := end;
      } else {
        var chunkFrames := Max(1, round(Quota(totalFrames, weights[i], weightTotal)));
        assert quotas[i] == Quota(totalFrames, weights[i], weightTotal);
        chunkEnd := Cut(current, end, step, chunkFrames);
      }
      var a := Assignment(ms[i], current, chunkEnd, step, Count(current, chunkEnd, step), weights[i]);
      SpreadStep(r, a, ms, weights, quotas, round, current, chunkEnd, end, step, i);
      r := r + [a];
      current := chunkEnd + step;
    }
  }

  lemma SpreadStep(r: seq<Assignment>, a: Assignment, ms: seq<Machine>, weights: seq<real>, quotas: seq<real>,
                   round: real -> int, current: int, chunkEnd: int, end: int, step: int, i: nat)
    requires step >= 1 && |ms| == |weights| == |quotas| && i < |ms|
    requires chunkEnd == if i == |ms| - 1 then end else Cut(current, end, step, Max(1, round(quotas[i])))
    requires a == Assignment(ms[i], current, chunkEnd, step, Count(current, chunkEnd, step), weights[i])
    ensures r + Spread(ms[i..], weights[i..], quotas[i..], round, current, end, step)
         == (r + [a]) + Spread(ms[i + 1..], weights[i + 1..], quotas[i + 1..], round, chunkEnd + step, end, step)
  {
    assert ms[i..][1..] == ms[i + 1..] && weights[i..][1..] == weights[i + 1..] && quotas[i..][1..] == quotas[i + 1..];
    var tail := Spread(ms[i + 1..], weights[i + 1..], quotas[i + 1..], round, chunkEnd + step, end, step);
    assert Spread(ms[i..], weights[i..], quotas[i..], round, current, end, step) == [a] + tail;
    assert r + ([a] + tail) == (r + [a]) + tail;
  }

  // ---------------------------------------------------------------------------
  // Expanding serverless shares over parallel workers
  // ---------------------------------------------------------------------------

  function MaxWorkers(totalFrames: int, requested: int, minFrames: int): int
    requires minFrames >= 1
  {
    if requested <= 1 || totalFrames <= 0 then 1
    else Max(1, Min(requested, totalFrames / minFrames))
  }

  /** How many workers an assignment is split over; 1 means it stays whole. */
  function WorkerCount(a: Assignment, cfg: Config): int {
    var kind := a.machine.kind;
    if !IsServerless(kind) || a.totalFrames <= 1 then 1
    else MaxWorkers(a.totalFrames, WorkersPerEndpoint(kind, cfg), MinFrames(kind))
  }

  /** The sub-assignments of workers w, w+1, ..., workers-1, starting at frame `current`. */
  function SubChunks(a: Assignment, workers: int, perWorker: int, w: int, current: int): seq<Assignment>
    requires a.frameStep >= 1 && w <= workers
    decreases workers - w
  {
    if w == workers || current > a.frameEnd then []
    else
      var subEnd := if w == workers - 1 then a.frameEnd else Cut(current, a.frameEnd, a.frameStep, perWorker);
      var subTotal := Count(current, subEnd, a.frameStep);
      if subTotal <= 0 then []
      else [a.(frameStart := current, frameEnd := subEnd, totalFrames := subTotal)]
           + SubChunks(a, workers, perWorker, w + 1, subEnd + a.frameStep)
  }

  function FramesPerWorker(a: Assignment, cfg: Config): int {
    var n := WorkerCount(a, cfg);
    if n <= 1 then a.totalFrames else Max(1, a.totalFrames / n)
  }

  function ExpandedOne(a: Assignment, cfg: Config): seq<Assignment>
    requires a.frameStep >= 1
  {
    if WorkerCount(a, cfg) <= 1 then [a]
    else SubChunks(a, WorkerCount(a, cfg), FramesPerWorker(a, cfg), 0, a.frameStart)
  }

  function Expanded(assignments: seq<Assignment>, cfg: Config): seq<Assignment>
    requires forall a :: a in assignments ==> a.frameStep >= 1
  {
    if assignments == [] then []
    else ExpandedOne(assignments[0], cfg) + Expanded(assignments[1..], cfg)
  }

  method ExpandServerless(assignments: seq<Assignment>, cfg: Config) returns (r: seq<Assignment>)
    requires forall a :: a in assignments ==> a.frameStep >= 1
    ensures r == Expanded(assignments, cfg)
  {
    r := [];
    for i := 0 to |assignments|
      invariant r + Expanded(assignments[i..], cfg) == Expanded(assignments, cfg)
    {
      var a := assignments[i];
      ghost var before := r;
      assert assignments[i..][1..] == assignments[i + 1..];
      var subs := ExpandOne(a, cfg);
      r := r + subs;
      assert (before + ExpandedOne(a, cfg)) + Expanded(assignments[i + 1..], cfg)
          == before + (ExpandedOne(a, cfg) + Expanded(assignments[i + 1..], cfg));
    }
  }

  method ExpandOne(a: Assignment, cfg: Config) returns (subs: seq<Assignment>)
    requires a.frameStep >= 1
    ensures subs == ExpandedOne(a, cfg)
  {
    var kind := a.machine.kind;
    if !IsServerless(kind) {
      return [a];
    }
    var effective := WorkersPerEndpoint(kind, cfg);
    if effective <= 1 || a.totalFrames <= 1 {
      return [a];
    }
    var workers := MaxWorkers(a.totalFrames, effective, MinFrames(kind));
    if workers <= 1 {
      return [a];
    }
    subs := SplitOverWorkers(a, workers, Max(1, a.totalFrames / workers));
  }

  method SplitOverWorkers(a: Assignment, workers: int, perWorker: int) returns (subs: seq<Assignment>)
    requires a.frameStep >= 1 && workers >= 0
    ensures subs == SubChunks(a, workers, perWorker, 0, a.frameStart)
  {
    subs := [];
    var current := a.frameStart;
    var w := 0;
    while w < workers
      invariant 0 <= w <= workers
      invariant subs + SubChunks(a, workers, perWorker, w, current) == SubChunks(a, workers, perWorker, 0, a.frameStart)
    {
      if current > a.frameEnd { break; }
      var subEnd := if w == workers - 1 then a.frameEnd
                    else Cut(current, a.frameEnd, a.frameStep, perWorker);
      var subTotal := Count(current, subEnd, a.frameStep);
      if subTotal <= 0 { break; }
      var sub := a.(frameStart := current, frameEnd := subEnd, totalFrames := subTotal);
      assert subs + ([sub] + SubChunks(a, workers, perWorker, w + 1, subEnd + a.frameStep))
          == (subs + [sub]) + SubChunks(a, workers, perWorker, w + 1, subEnd + a.frameStep);
      subs := subs + [sub];
      current := subEnd + a.frameStep;
      w := w + 1;
    }
  }

  // ---------------------------------------------------------------------------
  // Orchestrator.plan: both splits, then chunk numbers
  // ---------------------------------------------------------------------------

  lemma SpreadSteps(ms: seq<Machine>, weights: seq<real>, quotas: seq<real>, round: real -> int,
                    current: int, end: int, step: int)
    requires step >= 1 && |ms| == |weights| == |quotas|
    ensures forall a :: a in Spread(ms, weights, quotas, round, current, end, step) ==> a.frameStep == step
    decreases |ms|
  {
    if ms != [] {
      var chunkEnd := if |ms| == 1 then end else Cut(current, end, step, Max(1, round(quotas[0])));
      SpreadSteps(ms[1..], weights[1..], quotas[1..], round, chunkEnd + step, end, step);
    }
  }

  function Numbered(chunks: seq<Assignment>): (r: seq<PlannedTask>)
    ensures |r| == |chunks|
    ensures forall i :: 0 <= i < |r| ==> r[i].share == chunks[i] && r[i].chunkIndex == i
  {
    seq(|chunks|, i requires 0 <= i < |chunks| => PlannedTask(chunks[i], i))
  }

  ghost function Planned(totalFrames: int, start: int, end: int, step: int, machines: seq<Machine>,
                   round: real -> int, cfg: Config): seq<PlannedTask>
    requires step >= 1
  {
    var ms := Limited(machines, totalFrames);
    SpreadSteps(ms, Weights(ms), Quotas(ms, totalFrames), round, start, end, step);
    Numbered(Expanded(Distributed(totalFrames, start, end, step, machines, round), cfg))
  }

  method Plan(start: int, end: int, step: int, totalFrames: int, machines: seq<Machine>,
              round: real -> int, cfg: Config) returns (tasks: seq<PlannedTask>)
    requires step >= 1
    ensures tasks == Planned(totalFrames, start, end, step, machines, round, cfg)
  {
    var raw := DistributeFrames(totalFrames, start, end, step, machines, round);
    ghost var ms := Limited(machines, totalFrames);
    SpreadSteps(ms, Weights(ms), Quotas(ms, totalFrames), round, start, end, step);
    raw := ExpandServerless(raw, cfg);
    tasks := [];
    for i := 0 to |raw|
      invariant |tasks| == i
      invariant forall k :: 0 <= k < i ==> tasks[k] == PlannedTask(raw[k], k)
    {
      tasks := tasks + [PlannedTask(raw[i], i)];
    }
  }
}
