/** How close each machine's chunk comes to its proportional share, over exact rationals. */
module Fairness {
  import opened Grid
  import opened FrameDistribution
  import opened Tiling

  /** A rounding that never moves a number by more than a half. */
  ghost predicate Nearest(round: real -> int) {
    forall x: real :: -0.5 <= round(x) as real - x <= 0.5
  }

  /** Python's built-in round: to the nearest integer, halves to the even one. */
  function HalfEven(x: real): int {
    var below := x.Floor;
    var part := x - below as real;
    if part < 0.5 then below
    else if part > 0.5 then below + 1
    else if below % 2 == 0 then below else below + 1
  }

  lemma HalfEvenIsNearest()
    ensures Nearest(HalfEven)
  {
  }

  function AtLeastOne(i: nat): real {
    if i == 0 then 1.0 else i as real
  }

  /** Some shares are already handed out and `left` frames remain for the machines i, i+1, ...: if left is not
      too far from the sum of their quotas, no chunk is too far from its own quota. */
  lemma {:induction false} SpreadFair(ms: seq<Machine>, weights: seq<real>, quotas: seq<real>, round: real -> int,
                                      current: int, end: int, step: int, i: nat)
    requires step >= 1 && |ms| == |weights| == |quotas| && Nearest(round)
    requires forall k :: 0 <= k < |quotas| ==> quotas[k] >= 0.0
    requires Count(current, end, step) as real >= Sum(quotas) - i as real
    requires Count(current, end, step) == 0 || Count(current, end, step) as real <= Sum(quotas) + i as real / 2.0
    ensures var chunks := Spread(ms, weights, quotas, round, current, end, step);
      && |chunks| == |ms|
      && forall k :: 0 <= k < |ms| ==>
           -AtLeastOne(i + k) <= chunks[k].totalFrames as real - quotas[k] <= AtLeastOne(i + k)
    decreases |ms|
  {
    if |ms| == 1 {
      assert Sum(quotas) == quotas[0] + Sum(quotas[1..]);
      var chunks := Spread(ms, weights, quotas, round, current, end, step);
      assert chunks[0].totalFrames == Count(current, end, step);
    } else if |ms| > 1 {
      var k := Max(1, round(quotas[0]));
      var chunkEnd := Cut(current, end, step, k);
      CutCount(current, end, step, k);
      assert -0.5 <= round(quotas[0]) as real - quotas[0] <= 0.5;
      SumNonNegative(quotas[1..]);
      SpreadFair(ms[1..], weights[1..], quotas[1..], round, chunkEnd + step, end, step, i + 1);
      var chunks, rest := Spread(ms, weights, quotas, round, current, end, step),
        Spread(ms[1..], weights[1..], quotas[1..], round, chunkEnd + step, end, step);
      assert chunks[1..] == rest;
      forall j | 0 < j < |ms|
        ensures -AtLeastOne(i + j) <= chunks[j].totalFrames as real - quotas[j] <= AtLeastOne(i + j)
      {
        assert chunks[j] == rest[j - 1] && quotas[j] == quotas[1..][j - 1];
        assert i + 1 + (j - 1) == i + j;
      }
    }
  }

  lemma {:induction false} SumNonNegative(xs: seq<real>)
    requires forall k :: 0 <= k < |xs| ==> xs[k] >= 0.0
    ensures Sum(xs) >= 0.0
  {
    if xs != [] { SumNonNegative(xs[1..]); }
  }

  lemma {:induction false} SumQuotas(quotas: seq<real>, weights: seq<real>, t: int, total: real)
    requires |quotas| == |weights| && total > 0.0
    requires forall k :: 0 <= k < |quotas| ==> quotas[k] == Quota(t, weights[k], total)
    ensures Sum(quotas) == Quota(t, Sum(weights), total)
  {
    if quotas == [] {
      assert 0.0 / total == 0.0;
    } else {
      SumQuotas(quotas[1..], weights[1..], t, total);
      QuotaAdds(t, weights[0], Sum(weights[1..]), total);
    }
  }

  lemma QuotaAdds(t: int, a: real, b: real, total: real)
    requires total > 0.0
    ensures Quota(t, a + b, total) == Quota(t, a, total) + Quota(t, b, total)
  {
    assert (a + b) / total == a / total + b / total;
  }

  lemma {:induction false} SumOnes(n: nat)
    ensures Sum(seq(n, _ => 1.0)) == n as real
  {
    if n > 0 {
      assert seq(n, _ => 1.0)[1..] == seq(n - 1, _ => 1.0);
      SumOnes(n - 1);
    }
  }

  /** The quotas are nonnegative and add up to all the frames. */
  lemma QuotasAddUp(ms: seq<Machine>, t: nat)
    requires ms != []
    requires forall m :: m in ms ==> m.score >= 0.0
    ensures Sum(Quotas(ms, t)) == t as real
    ensures forall k :: 0 <= k < |ms| ==> Quotas(ms, t)[k] >= 0.0
  {
    var weights, total := Weights(ms), WeightTotal(ms);
    if Sum(Scores(ms)) <= 0.0 { SumOnes(|ms|); }
    assert Sum(weights) == total;
    SumQuotas(Quotas(ms, t), weights, t, total);
    SelfQuota(t, total);
    forall k | 0 <= k < |ms| ensures Quotas(ms, t)[k] >= 0.0 {
      assert ms[k] in ms;
      QuotaNonNegative(t, weights[k], total);
    }
  }

  lemma SelfQuota(t: int, total: real)
    requires total > 0.0
    ensures Quota(t, total, total) == t as real
  {
    var share := total / total;
    assert share * total == total;
    assert (share - 1.0) * total == 0.0;
    assert share == 1.0;
  }

  lemma QuotaNonNegative(t: nat, w: real, total: real)
    requires w >= 0.0 && total > 0.0
    ensures Quota(t, w, total) >= 0.0
  {
    assert w / total >= 0.0;
  }

  function ScoreSum(ms: seq<Machine>): real {
    if ms == [] then 0.0 else ms[0].score + ScoreSum(ms[1..])
  }

  /** What t frames come to for machine i: in proportion to its score if the scores add up to something, else the same for all. */
  function FairShare(ms: seq<Machine>, t: nat, i: nat): real
    requires i < |ms|
  {
    if ScoreSum(ms) > 0.0 then t as real * ms[i].score / ScoreSum(ms) else t as real / |ms| as real
  }

  lemma {:induction false} ScoresAddUp(ms: seq<Machine>)
    ensures Sum(Scores(ms)) == ScoreSum(ms)
  {
    if ms != [] {
      ScoresAddUp(ms[1..]);
      assert Scores(ms)[1..] == Scores(ms[1..]);
    }
  }

  lemma ShareOfProduct(t: real, w: real, total: real)
    requires total > 0.0
    ensures t * (w / total) == t * w / total
  {
    var share := w / total;
    assert share * total == w;
    assert (t * share) * total == t * w;
  }

  lemma QuotaIsFairShare(ms: seq<Machine>, t: nat, i: nat)
    requires i < |ms|
    ensures Quotas(ms, t)[i] == FairShare(ms, t, i)
  {
    ScoresAddUp(ms);
    QuotaIsProduct(t, Weights(ms)[i], WeightTotal(ms));
    hide Quota;
    if ScoreSum(ms) <= 0.0 {
      assert Weights(ms)[i] == 1.0 && WeightTotal(ms) == |ms| as real;
      assert t as real * 1.0 == t as real;
    }
  }

  lemma QuotaIsProduct(t: int, w: real, total: real)
    requires total > 0.0
    ensures Quota(t, w, total) == t as real * w / total
  {
    ShareOfProduct(t as real, w, total);
  }

  /** Machine i of those kept, strongest first, gets chunk i, and its frames are within max(1, i) of its share: in proportion to
      its score, or an equal part if no score is positive.  A single machine gets everything. */
  lemma SharesAreFair(start: int, end: int, step: int, machines: seq<Machine>, round: real -> int)
    requires step >= 1 && Nearest(round)
    requires forall m :: m in machines ==> m.score >= 0.0
    ensures var t := Count(start, end, step);
      var ms, chunks := Limited(machines, t), Distributed(t, start, end, step, machines, round);
      && |chunks| == |ms|
      && (forall i :: 0 <= i < |ms| ==> chunks[i].machine == ms[i])
      && (forall i :: 0 <= i < |ms| ==>
           -AtLeastOne(i) <= chunks[i].totalFrames as real - FairShare(ms, t, i) <= AtLeastOne(i))
      && (|ms| == 1 ==> chunks[0].totalFrames == t)
  {
    var t := Count(start, end, step);
    var ms := Limited(machines, t);
    LimiterFitsAndIsMaximal(machines, t);
    if ms != [] {
      forall m | m in ms ensures m.score >= 0.0 {
        assert m in multiset(ms);
        assert m in multiset(machines);
      }
      LimitedSharesAreFair(start, end, step, ms, round);
      SpreadTiles(ms, Weights(ms), Quotas(ms, t), round, start, end, step);
      forall i | 0 <= i < |ms| ensures Quotas(ms, t)[i] == FairShare(ms, t, i) { QuotaIsFairShare(ms, t, i); }
    }
  }

  lemma LimitedSharesAreFair(start: int, end: int, step: int, ms: seq<Machine>, round: real -> int)
    requires step >= 1 && Nearest(round) && ms != []
    requires forall m :: m in ms ==> m.score >= 0.0
    ensures var t := Count(start, end, step);
      var chunks := Spread(ms, Weights(ms), Quotas(ms, t), round, start, end, step);
      && |chunks| == |ms|
      && (forall i :: 0 <= i < |ms| ==>
           -AtLeastOne(i) <= chunks[i].totalFrames as real - Quotas(ms, t)[i] <= AtLeastOne(i))
      && (|ms| == 1 ==> chunks[0].totalFrames == t)
  {
    var t := Count(start, end, step);
    QuotasAddUp(ms, t);
    SpreadFair(ms, Weights(ms), Quotas(ms, t), round, start, end, step, 0);
  }

  // ---------------------------------------------------------------------------
  // When does every kept machine get a frame?
  // ---------------------------------------------------------------------------

  /** The frames asked for by all machines but the last. */
  function Requested(quotas: seq<real>, round: real -> int): int {
    if |quotas| <= 1 then 0 else Max(1, round(quotas[0])) + Requested(quotas[1..], round)
  }

  lemma {:induction false} RequestedNonNegative(quotas: seq<real>, round: real -> int)
    ensures Requested(quotas, round) >= 0
  {
    if |quotas| > 1 { RequestedNonNegative(quotas[1..], round); }
  }

  predicate NoneEmpty(chunks: seq<Assignment>) {
    forall i :: 0 <= i < |chunks| ==> chunks[i].totalFrames >= 1
  }

  /** No chunk is empty exactly when the rounded quotas before the last leave a frame over. */
  lemma {:induction false} NoEmptyChunkIff(ms: seq<Machine>, weights: seq<real>, quotas: seq<real>,
                                           round: real -> int, current: int, end: int, step: int)
    requires step >= 1 && |ms| == |weights| == |quotas| && ms != []
    ensures NoneEmpty(Spread(ms, weights, quotas, round, current, end, step))
      <==> Requested(quotas, round) < Count(current, end, step)
    decreases |ms|
  {
    var chunks := Spread(ms, weights, quotas, round, current, end, step);
    if |ms| == 1 {
      assert Spread(ms[1..], weights[1..], quotas[1..], round, end + step, end, step) == [];
      assert chunks == [Assignment(ms[0], current, end, step, Count(current, end, step), weights[0])];
      assert |chunks| == 1 && chunks[0].totalFrames == Count(current, end, step);
      assert Requested(quotas, round) == 0;
    } else {
      var k := Max(1, round(quotas[0]));
      var chunkEnd := Cut(current, end, step, k);
      CutCount(current, end, step, k);
      var rest := Spread(ms[1..], weights[1..], quotas[1..], round, chunkEnd + step, end, step);
      NoEmptyChunkIff(ms[1..], weights[1..], quotas[1..], round, chunkEnd + step, end, step);
      RequestedNonNegative(quotas[1..], round);
      assert chunks[0].totalFrames == Min(k, Count(current, end, step));
      assert chunks[1..] == rest;
      if NoneEmpty(chunks) {
        forall i | 0 <= i < |rest| ensures rest[i].totalFrames >= 1 {
          assert rest[i] == chunks[i + 1];
        }
      }
    }
  }

  /** Rounding can use the range up early: seven frames over scores 1, 1, 0 leave the third machine none. */
  lemma AKeptMachineCanGetNothing()
    ensures var ms := [Machine("a", Desktop("windows"), 1.0), Machine("b", Desktop("windows"), 1.0),
                       Machine("c", Desktop("windows"), 0.0)];
      && Limited(ms, 7) == ms
      && var chunks := Distributed(7, 1, 7, 1, ms, HalfEven);
         |chunks| == 3 && chunks[0].totalFrames == 4 && chunks[1].totalFrames == 3 && chunks[2].totalFrames == 0
  {
    var a, b, c := Machine("a", Desktop("windows"), 1.0), Machine("b", Desktop("windows"), 1.0),
      Machine("c", Desktop("windows"), 0.0);
    var ms := [a, b, c];
    assert ms[1..] == [b, c] && [b, c][1..] == [c] && [c][1..] == [];
    assert Ranked([c]) == [c];
    assert Ranked([b, c]) == [b, c];
    assert Ranked(ms) == ms;
    assert Kept([c], 3) == [c];
    assert Kept([b, c], 5) == [b, c];
    assert Kept(ms, 7) == ms;
    var s := Scores(ms);
    assert s == [1.0, 1.0, 0.0] && s[1..] == [1.0, 0.0] && s[1..][1..] == [0.0] && s[1..][1..][1..] == [];
    assert Sum([0.0]) == 0.0 && Sum([1.0, 0.0]) == 1.0 && Sum(s) == 2.0;
    var q := Quotas(ms, 7);
    assert q == [3.5, 3.5, 0.0] by { assert 7.0 * (1.0 / 2.0) == 3.5 && 7.0 * (0.0 / 2.0) == 0.0; }
    assert HalfEven(3.5) == 4;
    assert Cut(1, 7, 1, 4) == 4 && Cut(5, 7, 1, 4) == 7;
    assert q[1..] == [3.5, 0.0] && q[1..][1..] == [0.0];
    var w := Weights(ms);
    assert |Spread([c], w[1..][1..], [0.0], HalfEven, 8, 7, 1)| == 1;
    var tail := Spread([b, c], w[1..], [3.5, 0.0], HalfEven, 5, 7, 1);
    assert tail[0].totalFrames == 3 && tail[1].totalFrames == 0;
  }

  // ---------------------------------------------------------------------------
  // A plan worked out
  // ---------------------------------------------------------------------------

  /** Two equal desktops. */
  function TwoDesktops(): seq<Machine> {
    [Machine("a", Desktop("windows"), 1.0), Machine("b", Desktop("windows"), 1.0)]
  }

  lemma TwoDesktopsShare()
    ensures var ms := TwoDesktops();
      Limited(ms, 4) == ms && Weights(ms) == [1.0, 1.0] && Quotas(ms, 4) == [2.0, 2.0]
  {
    var ms := TwoDesktops();
    var a, b := ms[0], ms[1];
    assert ms[1..] == [b] && [b][1..] == [];
    assert Ranked([b]) == [b];
    assert Ranked(ms) == ms;
    assert Kept([b], 2) == [b];
    assert Kept(ms, 4) == ms;
    var s := Scores(ms);
    assert s == [1.0, 1.0] && s[1..] == [1.0] && s[1..][1..] == [];
    assert Sum([1.0]) == 1.0 && Sum(s) == 2.0;
    assert Quotas(ms, 4) == [2.0, 2.0] by { assert 4.0 * (1.0 / 2.0) == 2.0; }
  }

  /** Four frames on two equal desktops are planned as two and two. */
  lemma TwoDesktopsPlan(start: int, step: int, cfg: Config)
    requires step >= 1
    ensures var ms := TwoDesktops();
      Shares(Planned(4, start, start + 3 * step, step, ms, HalfEven, cfg))
        == [Assignment(ms[0], start, start + step, step, 2, 1.0),
            Assignment(ms[1], start + 2 * step, start + 3 * step, step, 2, 1.0)]
  {
    var ms, end := TwoDesktops(), start + 3 * step;
    TwoDesktopsShare();
    var raw := Distributed(4, start, end, step, ms, HalfEven);
    assert HalfEven(2.0) == 2 && Cut(start, end, step, 2) == start + step;
    DivUnique(step, step, 1, 0);
    assert ms[1..] == [ms[1]] && [1.0, 1.0][1..] == [1.0] && [2.0, 2.0][1..] == [2.0];
    assert raw == [Assignment(ms[0], start, start + step, step, 2, 1.0), Assignment(ms[1], start + 2 * step, end, step, 2, 1.0)];
    assert raw[1..][1..] == [];
    assert Expanded(raw[1..], cfg) == [raw[1]];
    assert Expanded(raw, cfg) == raw;
    assert Shares(Planned(4, start, end, step, ms, HalfEven, cfg)) == raw;
  }

  /** Four frames on one desktop are one chunk. */
  lemma OneDesktopPlan(cfg: Config)
    ensures var m := TwoDesktops()[0];
      Shares(Planned(4, 1, 4, 1, [m], HalfEven, cfg)) == [Assignment(m, 1, 4, 1, 4, 1.0)]
  {
    var m := TwoDesktops()[0];
    assert [m][1..] == [];
    assert Ranked([m]) == [m];
    assert Kept([m], 4) == [m] by { assert Kept([], 2) == [] && [m] + [] == [m]; }
    assert Limited([m], 4) == [m];
    assert Scores([m]) == [1.0] && Weights([m]) == [1.0] by { assert [1.0][1..] == [] && Sum([1.0]) == 1.0; }
    var raw := Distributed(4, 1, 4, 1, [m], HalfEven);
    assert Count(1, 4, 1) == 4;
    assert |Spread([m][1..], Weights([m])[1..], Quotas([m], 4)[1..], HalfEven, 5, 4, 1)| == 0;
    assert raw == [Assignment(m, 1, 4, 1, 4, 1.0)];
    assert raw[1..] == [];
    assert Expanded(raw, cfg) == raw;
    assert Shares(Planned(4, 1, 4, 1, [m], HalfEven, cfg)) == raw;
  }
}
