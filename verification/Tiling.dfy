/** What the two splits preserve: the planned chunks are the range itself, cut into consecutive pieces. */
module Tiling {
  import opened Grid
  import opened FrameDistribution

  /** The frames an assignment stands for. */
  function FramesOf(a: Assignment): seq<int>
    requires a.frameStep >= 1
  {
    Frames(a.frameStart, a.frameEnd, a.frameStep)
  }

  ghost predicate Stepped(chunks: seq<Assignment>) {
    forall i :: 0 <= i < |chunks| ==> chunks[i].frameStep >= 1
  }

  function Covered(chunks: seq<Assignment>): seq<int>
    requires Stepped(chunks)
  {
    if chunks == [] then [] else FramesOf(chunks[0]) + Covered(chunks[1..])
  }

  /** The recorded total is the chunk's own number of frames. */
  ghost predicate Exact(chunks: seq<Assignment>)
    requires Stepped(chunks)
  {
    forall i :: 0 <= i < |chunks| ==> chunks[i].totalFrames == |FramesOf(chunks[i])|
  }

  lemma {:induction false} CoveredConcat(xs: seq<Assignment>, ys: seq<Assignment>)
    requires Stepped(xs) && Stepped(ys)
    ensures Stepped(xs + ys)
    ensures Covered(xs + ys) == Covered(xs) + Covered(ys)
  {
    if xs == [] {
      assert xs + ys == ys;
    } else {
      CoveredConcat(xs[1..], ys);
      assert (xs + ys)[1..] == xs[1..] + ys;
    }
  }

  lemma {:induction false} SpreadTiles(ms: seq<Machine>, weights: seq<real>, quotas: seq<real>, round: real -> int,
                                       current: int, end: int, step: int)
    requires step >= 1 && |ms| == |weights| == |quotas|
    ensures var chunks := Spread(ms, weights, quotas, round, current, end, step);
      && Stepped(chunks)
      && |chunks| == |ms|
      && (forall i :: 0 <= i < |ms| ==> chunks[i].machine == ms[i] && chunks[i].frameStep == step)
      && (ms != [] ==> Covered(chunks) == Frames(current, end, step))
      && Exact(chunks)
    decreases |ms|
  {
    if ms != [] {
      var k := Max(1, round(quotas[0]));
      var chunkEnd := if |ms| == 1 then end else Cut(current, end, step, k);
      SpreadTiles(ms[1..], weights[1..], quotas[1..], round, chunkEnd + step, end, step);
      FramesLength(current, chunkEnd, step);
      var rest := Spread(ms[1..], weights[1..], quotas[1..], round, chunkEnd + step, end, step);
      var chunks := Spread(ms, weights, quotas, round, current, end, step);
      assert chunks[1..] == rest;
      if |ms| > 1 {
        SplitAt(current, end, step, k);
      }
    }
  }

  lemma {:induction false} SubChunksTile(a: Assignment, workers: int, perWorker: int, w: int, current: int)
    requires a.frameStep >= 1 && w < workers && perWorker >= 1
    ensures var subs := SubChunks(a, workers, perWorker, w, current);
      && Stepped(subs)
      && Covered(subs) == Frames(current, a.frameEnd, a.frameStep)
      && Exact(subs)
      && (forall i :: 0 <= i < |subs| ==> subs[i].machine == a.machine && subs[i].frameStep == a.frameStep)
    decreases workers - w
  {
    if current <= a.frameEnd {
      var subEnd := if w == workers - 1 then a.frameEnd else Cut(current, a.frameEnd, a.frameStep, perWorker);
      var rest := SubChunks(a, workers, perWorker, w + 1, subEnd + a.frameStep);
      if w < workers - 1 {
        SplitAt(current, a.frameEnd, a.frameStep, perWorker);
        CutReaches(current, a.frameEnd, a.frameStep, perWorker);
        SubChunksTile(a, workers, perWorker, w + 1, subEnd + a.frameStep);
      }
      FramesLength(current, subEnd, a.frameStep);
      var subs := SubChunks(a, workers, perWorker, w, current);
      assert subs[1..] == rest;
    }
  }

  lemma CutReaches(start: int, end: int, step: int, k: int)
    requires step >= 1 && k >= 1 && start <= end
    ensures start <= Cut(start, end, step, k)
    ensures Count(start, Cut(start, end, step, k), step) >= 1
  {
    if k > 1 { CutShift(start, end, step, k); }
    CountStep(start, Cut(start, end, step, k), step);
  }

  lemma ExpandedOneTiles(a: Assignment, cfg: Config)
    requires a.frameStep >= 1
    ensures var subs := ExpandedOne(a, cfg);
      && Stepped(subs)
      && Covered(subs) == FramesOf(a)
      && (a.totalFrames == |FramesOf(a)| ==> Exact(subs))
      && (forall i :: 0 <= i < |subs| ==> subs[i].machine == a.machine && subs[i].frameStep == a.frameStep)
  {
    if WorkerCount(a, cfg) > 1 {
      SubChunksTile(a, WorkerCount(a, cfg), FramesPerWorker(a, cfg), 0, a.frameStart);
    } else {
      assert ExpandedOne(a, cfg) == [a];
      assert Covered([a]) == FramesOf(a) + Covered([]);
    }
  }

  /** Serverless expansion keeps the covered frames, whatever totals the assignments record. */
  lemma {:induction false} ExpandedTiles(chunks: seq<Assignment>, cfg: Config, step: int)
    requires step >= 1
    requires forall a :: a in chunks ==> a.frameStep == step
    ensures var r := Expanded(chunks, cfg);
      && Stepped(chunks) && Stepped(r)
      && Covered(r) == Covered(chunks)
      && (Exact(chunks) ==> Exact(r))
      && (forall i :: 0 <= i < |r| ==> r[i].frameStep == step)
  {
    if chunks != [] {
      ExpandedOneTiles(chunks[0], cfg);
      ExpandedTiles(chunks[1..], cfg, step);
      CoveredConcat(ExpandedOne(chunks[0], cfg), Expanded(chunks[1..], cfg));
    }
  }

  function Shares(tasks: seq<PlannedTask>): (r: seq<Assignment>)
    ensures |r| == |tasks|
  {
    seq(|tasks|, i requires 0 <= i < |tasks| => tasks[i].share)
  }

  /** Planning loses and repeats no frame: with any machine at all the chunks, read in order, are exactly
      the stepped range; every recorded total is its chunk's frame count; chunks are numbered from 0.
      The scores and the rounding are arbitrary. */
  lemma PlanTiles(totalFrames: int, start: int, end: int, step: int, machines: seq<Machine>,
                  round: real -> int, cfg: Config)
    requires step >= 1
    ensures var tasks := Planned(totalFrames, start, end, step, machines, round, cfg);
      var chunks := Shares(tasks);
      && (machines == [] ==> tasks == [])
      && Stepped(chunks)
      && (machines != [] ==> Covered(chunks) == Frames(start, end, step))
      && Exact(chunks)
      && (forall i :: 0 <= i < |tasks| ==> tasks[i].chunkIndex == i && chunks[i].frameStep == step)
  {
    LimiterFitsAndIsMaximal(machines, totalFrames);
    var ms := Limited(machines, totalFrames);
    SpreadTiles(ms, Weights(ms), Quotas(ms, totalFrames), round, start, end, step);
    var raw := Distributed(totalFrames, start, end, step, machines, round);
    ExpandedTiles(raw, cfg, step);
    assert Shares(Planned(totalFrames, start, end, step, machines, round, cfg)) == Expanded(raw, cfg);
  }

  /** A sequence of chunks that reads as a strictly increasing list of frames is disjoint and in order. */
  lemma {:induction false} CoveredOrdered(chunks: seq<Assignment>, i: nat, j: nat, f: int, g: int)
    requires Stepped(chunks) && i < j < |chunks|
    requires forall p, q :: 0 <= p < q < |Covered(chunks)| ==> Covered(chunks)[p] < Covered(chunks)[q]
    requires f in FramesOf(chunks[i]) && g in FramesOf(chunks[j])
    ensures f < g
  {
    var head, tail := FramesOf(chunks[0]), Covered(chunks[1..]);
    assert Covered(chunks) == head + tail;
    if i == 0 {
      CoveredContains(chunks[1..], j - 1, g);
      var p :| 0 <= p < |head| && head[p] == f;
      var q :| 0 <= q < |tail| && tail[q] == g;
      assert Covered(chunks)[p] < Covered(chunks)[|head| + q];
    } else {
      forall p, q | 0 <= p < q < |tail| ensures tail[p] < tail[q] {
        assert Covered(chunks)[|head| + p] < Covered(chunks)[|head| + q];
      }
      CoveredOrdered(chunks[1..], i - 1, j - 1, f, g);
    }
  }

  lemma {:induction false} CoveredContains(chunks: seq<Assignment>, i: nat, f: int)
    requires Stepped(chunks) && i < |chunks| && f in FramesOf(chunks[i])
    ensures f in Covered(chunks)
  {
    if i > 0 { CoveredContains(chunks[1..], i - 1, f); }
  }

  lemma {:induction false} CoveredComesFrom(chunks: seq<Assignment>, f: int) returns (i: nat)
    requires Stepped(chunks) && f in Covered(chunks)
    ensures i < |chunks| && f in FramesOf(chunks[i])
  {
    if f in FramesOf(chunks[0]) {
      i := 0;
    } else {
      i := CoveredComesFrom(chunks[1..], f);
      i := i + 1;
    }
  }

  /** Every frame of the range belongs to exactly one planned chunk, chunks hold no other frame, and a
      lower-numbered chunk holds only smaller frames. */
  lemma PlanPartitions(totalFrames: int, start: int, end: int, step: int, machines: seq<Machine>,
                       round: real -> int, cfg: Config)
    requires step >= 1 && machines != []
    ensures var chunks := Shares(Planned(totalFrames, start, end, step, machines, round, cfg));
      && Stepped(chunks)
      && (forall f :: f in Frames(start, end, step) <==> exists i :: 0 <= i < |chunks| && f in FramesOf(chunks[i]))
      && (forall i, j, f, g :: 0 <= i < j < |chunks| && f in FramesOf(chunks[i]) && g in FramesOf(chunks[j]) ==> f < g)
  {
    PlanTiles(totalFrames, start, end, step, machines, round, cfg);
    FramesBounded(start, end, step);
    var chunks := Shares(Planned(totalFrames, start, end, step, machines, round, cfg));
    forall f | f in Covered(chunks) ensures exists i :: 0 <= i < |chunks| && f in FramesOf(chunks[i]) {
      var i := CoveredComesFrom(chunks, f);
    }
    forall i, f | 0 <= i < |chunks| && f in FramesOf(chunks[i]) ensures f in Covered(chunks) {
      CoveredContains(chunks, i, f);
    }
    forall i, j, f, g | 0 <= i < j < |chunks| && f in FramesOf(chunks[i]) && g in FramesOf(chunks[j]) ensures f < g {
      CoveredOrdered(chunks, i, j, f, g);
    }
  }

  // ---------------------------------------------------------------------------
  // Sizes of the expanded chunks
  // ---------------------------------------------------------------------------

  function Times(k: int, p: int): int
    decreases k
  {
    if k <= 0 then 0 else p + Times(k - 1, p)
  }

  lemma {:induction false} TimesIsProduct(k: nat, p: int)
    ensures Times(k, p) == k * p
  {
    if k > 0 {
      TimesIsProduct(k - 1, p);
      assert k * p == (k - 1) * p + p;
    }
  }

  lemma {:induction false} TimesAtLeast(k: int, p: int)
    requires p >= 1
    ensures Times(k, p) >= 0 && (k >= 1 ==> Times(k, p) >= p)
    decreases k
  {
    if k > 0 { TimesAtLeast(k - 1, p); }
  }

  lemma {:induction false} SubChunkSizes(a: Assignment, workers: int, perWorker: int, w: int, current: int, left: int)
    requires a.frameStep >= 1 && 0 <= w < workers && perWorker >= 1
    requires left == Count(current, a.frameEnd, a.frameStep) >= Times(workers - w, perWorker)
    ensures var subs := SubChunks(a, workers, perWorker, w, current);
      && |subs| == workers - w
      && (forall i :: 0 <= i < |subs| - 1 ==> subs[i].totalFrames == perWorker)
      && subs[|subs| - 1].totalFrames == left - Times(workers - w - 1, perWorker)
    decreases workers - w
  {
    TimesAtLeast(workers - w, perWorker);
    var subs := SubChunks(a, workers, perWorker, w, current);
    if w < workers - 1 {
      var subEnd := Cut(current, a.frameEnd, a.frameStep, perWorker);
      CutCount(current, a.frameEnd, a.frameStep, perWorker);
      var rest := SubChunks(a, workers, perWorker, w + 1, subEnd + a.frameStep);
      SubChunkSizes(a, workers, perWorker, w + 1, subEnd + a.frameStep, left - perWorker);
      SubChunksSplit(a, workers, perWorker, w, current, subEnd, perWorker);
    } else {
      assert SubChunks(a, workers, perWorker, workers, a.frameEnd + a.frameStep) == [];
    }
  }

  lemma SubChunksSplit(a: Assignment, workers: int, perWorker: int, w: int, current: int, subEnd: int, total: int)
    requires a.frameStep >= 1 && w < workers - 1 && current <= a.frameEnd
    requires subEnd == Cut(current, a.frameEnd, a.frameStep, perWorker)
    requires total == Count(current, subEnd, a.frameStep) >= 1
    ensures SubChunks(a, workers, perWorker, w, current)
         == [a.(frameStart := current, frameEnd := subEnd, totalFrames := total)]
            + SubChunks(a, workers, perWorker, w + 1, subEnd + a.frameStep)
  {
  }

  /** When an assignment is split and how: a Modal or Vast share of which two configured workers can have 5 or 10 frames each
      goes to as many workers as can; every one gets at least that, all but the last the same number, and the last fewer
      than workers more.  Any other share stays whole. */
  lemma ExpansionSizes(a: Assignment, cfg: Config)
    requires a.frameStep >= 1 && a.totalFrames == |FramesOf(a)|
    ensures var subs, t := ExpandedOne(a, cfg), a.totalFrames;
      var n := match a.machine.kind
               case ModalServerless => Min(cfg.modalWorkers, t / 5)
               case VastServerless => Min(cfg.vastWorkers, t / 10)
               case Desktop(_) => 1;
      && (n < 2 ==> subs == [a])
      && (n >= 2 ==>
            && |subs| == n
            && (forall i :: 0 <= i < n ==> subs[i].totalFrames >= if a.machine.kind.ModalServerless? then 5 else 10)
            && (forall i :: 0 <= i < n - 1 ==> subs[i].totalFrames == t / n)
            && t / n <= subs[n - 1].totalFrames < t / n + n)
  {
    hide SubChunks, FramesOf;
    if WorkerCount(a, cfg) > 1 { SplitSizes(a, cfg); }
  }

  lemma SplitSizes(a: Assignment, cfg: Config)
    requires a.frameStep >= 1 && a.totalFrames == |FramesOf(a)| && WorkerCount(a, cfg) > 1
    ensures var subs, n, p := ExpandedOne(a, cfg), WorkerCount(a, cfg), FramesPerWorker(a, cfg);
      && |subs| == n
      && (forall i :: 0 <= i < n ==> subs[i].totalFrames >= MinFrames(a.machine.kind))
      && (forall i :: 0 <= i < n - 1 ==> subs[i].totalFrames == p)
      && p <= subs[n - 1].totalFrames < p + n
  {
    var n, p, t, min := WorkerCount(a, cfg), FramesPerWorker(a, cfg), a.totalFrames, MinFrames(a.machine.kind);
    FramesLength(a.frameStart, a.frameEnd, a.frameStep);
    DivBounds(t, min, n);
    assert n * p == p * n && p * n <= t < p * n + n by { assert t == n * (t / n) + t % n; }
    TimesIsProduct(n, p);
    SubChunkSizes(a, n, p, 0, a.frameStart, t);
    TimesIsProduct(n - 1, p);
    assert (n - 1) * p == n * p - p;
  }

  lemma DivBounds(t: int, min: int, n: int)
    requires min >= 1 && 1 <= n <= t / min
    ensures min <= t / n
  {
    assert t == min * (t / min) + t % min;
    MulLe(min, n, t / min);
    assert t == n * (t / n) + t % n;
    assert n * (t / n + 1) == n * (t / n) + n && n * min == min * n;
    if t / n < min {
      MulLe(n, t / n + 1, min);
      assert false;
    }
  }

  lemma MulLe(k: int, a: int, b: int)
    requires k >= 0 && a <= b
    ensures k * a <= k * b
  {
    assert k * b - k * a == k * (b - a);
  }
}
