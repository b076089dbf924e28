/** The preflight runner: ordered steps that only run when the steps they depend on went well. */
module Preflight {
  import opened RenderJobs

  datatype StepStatus = Waiting | Underway | Passed | Broken | Skipped | Warning

  datatype StepDef = StepDef(id: string, dependsOn: seq<string>, required: bool, hasAction: bool)

  /** What a step's check and its fix action answer when they are called. */
  datatype Outcome = Outcome(checkPasses: bool, actionPasses: bool)

  datatype CallKind = Check | Action

  /** A call of a check or an action, with the statuses of all steps at that moment. */
  datatype Call = Call(step: nat, kind: CallKind, statuses: seq<StepStatus>)

  datatype Trace = Trace(statuses: seq<StepStatus>, calls: seq<Call>)

  // ---------------------------------------------------------------------------
  // One run, as a function of the outcomes
  // ---------------------------------------------------------------------------

  predicate IsFine(s: StepStatus) { s.Passed? || s.Warning? }

  /** The last step with an id: the one the runner's dictionary holds. */
  function IndexOf(defs: seq<StepDef>, id: string): (r: Option<nat>)
    ensures r.Some? ==> r.value < |defs| && defs[r.value].id == id
  {
    if defs == [] then None
    else if defs[|defs| - 1].id == id then Some(|defs| - 1)
    else IndexOf(defs[..|defs| - 1], id)
  }

  predicate DependencyFine(defs: seq<StepDef>, statuses: seq<StepStatus>, id: string)
    requires |statuses| == |defs|
  {
    IndexOf(defs, id).Some? && IsFine(statuses[IndexOf(defs, id).value])
  }

  predicate DepsFine(defs: seq<StepDef>, statuses: seq<StepStatus>, i: nat)
    requires |statuses| == |defs| && i < |defs|
  {
    forall id :: id in defs[i].dependsOn ==> DependencyFine(defs, statuses, id)
  }

  function Resolved(def: StepDef, passed: bool): StepStatus {
    if passed then Passed else if def.required then Broken else Warning
  }

  /** Step i: skipped, settled by its check, or settled by its action. */
  function StepDone(defs: seq<StepDef>, outcomes: seq<Outcome>, i: nat, t: Trace): (r: Trace)
    requires |t.statuses| == |defs| == |outcomes| && i < |defs|
    ensures |r.statuses| == |defs|
  {
    var def, o := defs[i], outcomes[i];
    if !DepsFine(defs, t.statuses, i) then t.(statuses := t.statuses[i := Skipped])
    else
      var running := t.statuses[i := Underway];
      var checked := t.calls + [Call(i, Check, running)];
      if o.checkPasses || !def.hasAction then Trace(running[i := Resolved(def, o.checkPasses)], checked)
      else Trace(running[i := Resolved(def, o.actionPasses)], checked + [Call(i, Action, running)])
  }

  /** The steps from i on. */
  function RunFrom(defs: seq<StepDef>, outcomes: seq<Outcome>, i: nat, t: Trace): (r: Trace)
    requires |t.statuses| == |defs| == |outcomes| && i <= |defs|
    ensures |r.statuses| == |defs|
    decreases |defs| - i
  {
    if i == |defs| then t else RunFrom(defs, outcomes, i + 1, StepDone(defs, outcomes, i, t))
  }

  function Fresh(defs: seq<StepDef>): Trace {
    Trace(seq(|defs|, _ => Waiting), [])
  }

  function Run(defs: seq<StepDef>, outcomes: seq<Outcome>): (r: Trace)
    requires |outcomes| == |defs|
    ensures |r.statuses| == |defs|
  {
    RunFrom(defs, outcomes, 0, Fresh(defs))
  }

  predicate AllFine(statuses: seq<StepStatus>) {
    forall i :: 0 <= i < |statuses| ==> IsFine(statuses[i])
  }

  // ---------------------------------------------------------------------------
  // The runner
  // ---------------------------------------------------------------------------

  class Step {
    const def: StepDef
    var status: StepStatus

    constructor (def: StepDef)
      ensures this.def == def
    {
      this.def := def;
      status := Waiting;
    }
  }

  class PreflightRunner {
    const steps: seq<Step>
    const stepMap: map<string, Step>

    /** Distinct step objects, found by their ids. */
    ghost predicate Valid() {
      && (forall i, j :: 0 <= i < j < |steps| ==> steps[i] != steps[j])
      && forall id :: (id in stepMap <==> IndexOf(Defs(), id).Some?)
                      && (id in stepMap ==> stepMap[id] == steps[IndexOf(Defs(), id).value])
    }

    function Defs(): (defs: seq<StepDef>)
      ensures |defs| == |steps|
    {
      seq(|steps|, i requires 0 <= i < |steps| => steps[i].def)
    }

    function Statuses(): (s: seq<StepStatus>)
      reads steps
      ensures |s| == |steps|
    {
      seq(|steps|, i requires 0 <= i < |steps| reads steps => steps[i].status)
    }

    constructor (steps: seq<Step>)
      requires forall i, j :: 0 <= i < j < |steps| ==> steps[i] != steps[j]
      ensures Valid() && this.steps == steps
    {
      this.steps := steps;
      var m: map<string, Step> := map[];
      ghost var defs := seq(|steps|, i requires 0 <= i < |steps| => steps[i].def);
      for k := 0 to |steps|
        invariant forall id :: (id in m <==> IndexOf(defs[..k], id).Some?)
                               && (id in m ==> m[id] == steps[IndexOf(defs[..k], id).value])
      {
        m := m[steps[k].def.id := steps[k]];
        assert defs[..k + 1][..k] == defs[..k];
      }
      assert defs[..|steps|] == defs;
      stepMap := m;
      new;
      assert Defs() == defs;
    }

    /** _deps_passed. */
    method DepsPassed(i: nat) returns (ok: bool)
      requires Valid() && i < |steps|
      ensures ok == DepsFine(Defs(), Statuses(), i)
    {
      var deps := steps[i].def.dependsOn;
      for k := 0 to |deps|
        invariant forall j :: 0 <= j < k ==> DependencyFine(Defs(), Statuses(), deps[j])
      {
        assert deps[k] in Defs()[i].dependsOn;
        if deps[k] !in stepMap || !IsFine(stepMap[deps[k]].status) { return false; }
      }
      return true;
    }

    /** Set one step's status; the others keep theirs. */
    method SetStatus(i: nat, status: StepStatus)
      requires Valid() && i < |steps|
      modifies steps[i]
      ensures Statuses() == old(Statuses())[i := status]
    {
      steps[i].status := status;
    }

    method Reset()
      requires Valid()
      modifies steps
      ensures Statuses() == Fresh(Defs()).statuses
    {
      for k := 0 to |steps|
        invariant forall j :: 0 <= j < k ==> Statuses()[j] == Waiting
      {
        SetStatus(k, Waiting);
      }
    }

    /** One pass of the loop: what step i does, and the calls it makes. */
    method RunStep(i: nat, o: Outcome) returns (ghost calls: seq<Call>)
      requires Valid() && i < |steps|
      modifies steps[i]
      ensures forall outcomes: seq<Outcome>, made: seq<Call> :: |outcomes| == |steps| && outcomes[i] == o ==>
        Trace(Statuses(), made + calls) == StepDone(Defs(), outcomes, i, Trace(old(Statuses()), made))
    {
      var def := steps[i].def;
      calls := [];
      var ok := DepsPassed(i);
      if !ok {
        SetStatus(i, Skipped);
        assert forall made: seq<Call> :: made + [] == made;
        return;
      }
      SetStatus(i, Underway);
      calls := [Call(i, Check, Statuses())];
      if o.checkPasses {
        SetStatus(i, Passed);
        return;
      }
      if !def.hasAction {
        SetStatus(i, if def.required then Broken else Warning);
        return;
      }
      ghost var checks := calls;
      calls := calls + [Call(i, Action, Statuses())];
      assert forall made: seq<Call> :: (made + checks) + [Call(i, Action, Statuses())] == made + calls;
      SetStatus(i, if o.actionPasses then Passed else if def.required then Broken else Warning);
    }

    /** run: True when no step ended failed or skipped. */
    method RunAll(outcomes: seq<Outcome>) returns (ok: bool, ghost calls: seq<Call>)
      requires Valid() && |outcomes| == |steps|
      modifies steps
      ensures Trace(Statuses(), calls) == Run(Defs(), outcomes)
      ensures ok == AllFine(Statuses())
    {
      Reset();
      calls := [];
      for i := 0 to |steps|
        invariant RunFrom(Defs(), outcomes, i, Trace(Statuses(), calls)) == Run(Defs(), outcomes)
      {
        ghost var before := calls;
        ghost var made := RunStep(i, outcomes[i]);
        calls := before + made;
      }
      for i := 0 to |steps|
        invariant forall j :: 0 <= j < i ==> IsFine(Statuses()[j])
      {
        assert Statuses()[i] == steps[i].status;
        if !IsFine(steps[i].status) { return false, calls; }
      }
      return true, calls;
    }
  }

  // ---------------------------------------------------------------------------
  // What a run guarantees
  // ---------------------------------------------------------------------------

  /** A step's status after a run started at i, for a step before i, is what it was. */
  lemma {:induction false} LeavesEarlier(defs: seq<StepDef>, outcomes: seq<Outcome>, i: nat, t: Trace, j: nat)
    requires |t.statuses| == |defs| == |outcomes| && j < i <= |defs|
    ensures RunFrom(defs, outcomes, i, t).statuses[j] == t.statuses[j]
    decreases |defs| - i
  {
    if i < |defs| { LeavesEarlier(defs, outcomes, i + 1, StepDone(defs, outcomes, i, t), j); }
  }

  /** Every step ends in one of four ways: required ones never in a warning, others never failed. */
  predicate Settled(def: StepDef, s: StepStatus) {
    s.Passed? || s.Skipped? || (if def.required then s.Broken? else s.Warning?)
  }

  lemma {:induction false} AllSettle(defs: seq<StepDef>, outcomes: seq<Outcome>, i: nat, t: Trace, j: nat)
    requires |t.statuses| == |defs| == |outcomes| && i <= j < |defs|
    ensures Settled(defs[j], RunFrom(defs, outcomes, i, t).statuses[j])
    decreases |defs| - i
  {
    var next := StepDone(defs, outcomes, i, t);
    if i == j { LeavesEarlier(defs, outcomes, i + 1, next, j); } else { AllSettle(defs, outcomes, i + 1, next, j); }
  }

  predicate RequiredPassed(defs: seq<StepDef>, statuses: seq<StepStatus>)
    requires |statuses| == |defs|
  {
    forall i :: 0 <= i < |defs| && defs[i].required ==> statuses[i].Passed?
  }

  predicate NoneSkipped(statuses: seq<StepStatus>) {
    forall i :: 0 <= i < |statuses| ==> !statuses[i].Skipped?
  }

  /** For any list of steps, run returns True exactly when every required step passed and no step was skipped. */
  lemma TrueIffRequiredPassedNoneSkipped(defs: seq<StepDef>, outcomes: seq<Outcome>)
    requires |outcomes| == |defs|
    ensures var s := Run(defs, outcomes).statuses;
      AllFine(s) <==> RequiredPassed(defs, s) && NoneSkipped(s)
  {
    var s := Run(defs, outcomes).statuses;
    forall j | 0 <= j < |defs| ensures Settled(defs[j], s[j]) {
      AllSettle(defs, outcomes, 0, Fresh(defs), j);
    }
  }

  // ---------------------------------------------------------------------------
  // For which lists is the result about required steps?
  // ---------------------------------------------------------------------------

  /** The outcomes of a run in which every check passes. */
  function AllPass(n: nat): (outcomes: seq<Outcome>)
    ensures |outcomes| == n && forall i :: 0 <= i < n ==> outcomes[i] == Outcome(true, true)
  {
    seq(n, _ => Outcome(true, true))
  }

  /** A condition on the list alone: with every check passing, nothing is skipped, or some required step is. */
  predicate SkipsNothingOrARequired(defs: seq<StepDef>) {
    var s := Run(defs, AllPass(|defs|)).statuses;
    NoneSkipped(s) || exists i :: 0 <= i < |defs| && defs[i].required && s[i].Skipped?
  }

  /** Whatever is fine in one run is fine in the other. */
  predicate FineIn(s: seq<StepStatus>, best: seq<StepStatus>) {
    |s| == |best| && forall i :: 0 <= i < |s| && IsFine(s[i]) ==> IsFine(best[i])
  }

  lemma FineDeps(defs: seq<StepDef>, s: seq<StepStatus>, best: seq<StepStatus>, i: nat)
    requires |s| == |defs| && i < |defs| && FineIn(s, best) && DepsFine(defs, s, i)
    ensures DepsFine(defs, best, i)
  {
    forall id | id in defs[i].dependsOn ensures DependencyFine(defs, best, id) {
      assert DependencyFine(defs, s, id);
    }
  }

  /** No run gets further than the one in which every check passes. */
  lemma {:induction false} PassingIsBest(defs: seq<StepDef>, outcomes: seq<Outcome>, i: nat, t: Trace, best: Trace)
    requires |t.statuses| == |defs| == |outcomes| && i <= |defs| && FineIn(t.statuses, best.statuses)
    ensures FineIn(RunFrom(defs, outcomes, i, t).statuses, RunFrom(defs, AllPass(|defs|), i, best).statuses)
    decreases |defs| - i
  {
    if i < |defs| {
      if DepsFine(defs, t.statuses, i) { FineDeps(defs, t.statuses, best.statuses, i); }
      hide DepsFine;
      PassingIsBest(defs, outcomes, i + 1, StepDone(defs, outcomes, i, t), StepDone(defs, AllPass(|defs|), i, best));
    }
  }

  /** A run whose required steps all pass gets as far as it, if nothing is skipped there. */
  lemma {:induction false} PassingIsReached(defs: seq<StepDef>, outcomes: seq<Outcome>, i: nat, t: Trace, best: Trace)
    requires |t.statuses| == |defs| == |outcomes| && i <= |defs|
    requires FineIn(best.statuses, t.statuses)
    requires NoneSkipped(RunFrom(defs, AllPass(|defs|), i, best).statuses)
    requires RequiredPassed(defs, RunFrom(defs, outcomes, i, t).statuses)
    ensures FineIn(RunFrom(defs, AllPass(|defs|), i, best).statuses, RunFrom(defs, outcomes, i, t).statuses)
    decreases |defs| - i
  {
    if i < |defs| {
      var next, bestNext := StepDone(defs, outcomes, i, t), StepDone(defs, AllPass(|defs|), i, best);
      LeavesEarlier(defs, outcomes, i + 1, next, i);
      LeavesEarlier(defs, AllPass(|defs|), i + 1, bestNext, i);
      assert DepsFine(defs, best.statuses, i);
      FineDeps(defs, best.statuses, t.statuses, i);
      hide DepsFine;
      PassingIsReached(defs, outcomes, i + 1, next, bestNext);
    }
  }

  /** With every check passing, a step ends passed or skipped. */
  lemma PassedOrSkipped(defs: seq<StepDef>, i: nat)
    requires i < |defs|
    ensures var s := Run(defs, AllPass(|defs|)).statuses[i]; s.Passed? || s.Skipped?
  {
    PassedOrSkippedFrom(defs, 0, Fresh(defs), i);
  }

  lemma {:induction false} PassedOrSkippedFrom(defs: seq<StepDef>, i: nat, t: Trace, j: nat)
    requires |t.statuses| == |defs| && i <= j < |defs|
    ensures var s := RunFrom(defs, AllPass(|defs|), i, t).statuses[j]; s.Passed? || s.Skipped?
    decreases |defs| - i
  {
    var next := StepDone(defs, AllPass(|defs|), i, t);
    if i == j {
      LeavesEarlier(defs, AllPass(|defs|), i + 1, next, j);
    } else {
      PassedOrSkippedFrom(defs, i + 1, next, j);
    }
  }

  /** run's result is about required steps, for all check and action outcomes. */
  ghost predicate ResultIsAboutRequired(defs: seq<StepDef>) {
    forall outcomes: seq<Outcome> :: |outcomes| == |defs| ==>
      var s := Run(defs, outcomes).statuses; (AllFine(s) <==> RequiredPassed(defs, s))
  }

  lemma RequiredSkippedFails(defs: seq<StepDef>, outcomes: seq<Outcome>, r: nat)
    requires |outcomes| == |defs| && r < |defs| && defs[r].required
    requires Run(defs, AllPass(|defs|)).statuses[r].Skipped?
    ensures var s := Run(defs, outcomes).statuses; !AllFine(s) && !RequiredPassed(defs, s)
  {
    PassingIsBest(defs, outcomes, 0, Fresh(defs), Fresh(defs));
    assert !IsFine(Run(defs, outcomes).statuses[r]);
  }

  lemma NothingSkippedIsEnough(defs: seq<StepDef>, outcomes: seq<Outcome>)
    requires |outcomes| == |defs| && NoneSkipped(Run(defs, AllPass(|defs|)).statuses)
    ensures var s := Run(defs, outcomes).statuses; (AllFine(s) <==> RequiredPassed(defs, s))
  {
    TrueIffRequiredPassedNoneSkipped(defs, outcomes);
    if RequiredPassed(defs, Run(defs, outcomes).statuses) {
      PassingIsReached(defs, outcomes, 0, Fresh(defs), Fresh(defs));
      forall i | 0 <= i < |defs| ensures IsFine(Run(defs, outcomes).statuses[i]) {
        PassedOrSkipped(defs, i);
      }
    }
  }

  /** Exactly for which lists the documented result holds, for all outcomes: with every check passing, nothing is skipped or
      some required step is. */
  lemma AboutRequiredIff(defs: seq<StepDef>)
    ensures ResultIsAboutRequired(defs) <==> SkipsNothingOrARequired(defs)
  {
    var best := Run(defs, AllPass(|defs|)).statuses;
    if !SkipsNothingOrARequired(defs) {
      forall i | 0 <= i < |defs| && defs[i].required ensures best[i].Passed? {
        PassedOrSkipped(defs, i);
      }
      assert RequiredPassed(defs, best);
      TrueIffRequiredPassedNoneSkipped(defs, AllPass(|defs|));
      assert !AllFine(best);
    } else {
      forall outcomes: seq<Outcome> | |outcomes| == |defs|
        ensures var s := Run(defs, outcomes).statuses; (AllFine(s) <==> RequiredPassed(defs, s))
      {
        if NoneSkipped(best) {
          NothingSkippedIsEnough(defs, outcomes);
        } else {
          var r :| 0 <= r < |defs| && defs[r].required && best[r].Skipped?;
          RequiredSkippedFails(defs, outcomes, r);
        }
      }
    }
  }

  predicate UniqueIds(defs: seq<StepDef>) {
    forall i, j :: 0 <= i < j < |defs| ==> defs[i].id != defs[j].id
  }

  /** Ids are unique and every dependency names an earlier step. */
  predicate WellOrdered(defs: seq<StepDef>) {
    UniqueIds(defs)
    && forall i, id :: 0 <= i < |defs| && id in defs[i].dependsOn ==> IndexOf(defs, id).Some? && IndexOf(defs, id).value < i
  }

  /** A skipped step had a dependency that did not go well, at the time of its turn. */
  lemma {:induction false} SkippedFor(defs: seq<StepDef>, outcomes: seq<Outcome>, i: nat, t: Trace, j: nat)
    returns (id: string)
    requires |t.statuses| == |defs| == |outcomes| && i <= j < |defs| && WellOrdered(defs)
    requires RunFrom(defs, outcomes, i, t).statuses[j].Skipped?
    ensures id in defs[j].dependsOn && !IsFine(RunFrom(defs, outcomes, i, t).statuses[IndexOf(defs, id).value])
    decreases |defs| - i
  {
    var next := StepDone(defs, outcomes, i, t);
    if i == j {
      LeavesEarlier(defs, outcomes, i + 1, next, j);
      assert !DepsFine(defs, t.statuses, i);
      id :| id in defs[i].dependsOn && !DependencyFine(defs, t.statuses, id);
      LeavesEarlier(defs, outcomes, i, t, IndexOf(defs, id).value);
    } else {
      id := SkippedFor(defs, outcomes, i + 1, next, j);
    }
  }

  /** Behind every skipped step there is a required step that failed or was skipped. */
  lemma {:induction false} SkippedMeansRequiredFailed(defs: seq<StepDef>, outcomes: seq<Outcome>, j: nat)
    requires |outcomes| == |defs| && WellOrdered(defs) && j < |defs|
    requires !IsFine(Run(defs, outcomes).statuses[j])
    ensures !RequiredPassed(defs, Run(defs, outcomes).statuses)
    decreases j
  {
    AllSettle(defs, outcomes, 0, Fresh(defs), j);
    if Run(defs, outcomes).statuses[j].Skipped? {
      var id := SkippedFor(defs, outcomes, 0, Fresh(defs), j);
      SkippedMeansRequiredFailed(defs, outcomes, IndexOf(defs, id).value);
    }
  }

  /** With unique ids and dependencies on earlier steps, run returns True exactly when every required step passed. */
  lemma TrueIffRequiredPassed(defs: seq<StepDef>, outcomes: seq<Outcome>)
    requires |outcomes| == |defs| && WellOrdered(defs)
    ensures var s := Run(defs, outcomes).statuses;
      AllFine(s) <==> RequiredPassed(defs, s)
  {
    TrueIffRequiredPassedNoneSkipped(defs, outcomes);
    var s := Run(defs, outcomes).statuses;
    if RequiredPassed(defs, s) && !NoneSkipped(s) {
      var j :| 0 <= j < |s| && s[j].Skipped?;
      SkippedMeansRequiredFailed(defs, outcomes, j);
    }
  }

  /** Without that order the result is not about required steps: an optional step with an unknown dependency. */
  lemma UnknownDependencyBlocks()
    ensures var defs := [StepDef("a", ["b"], false, false)];
      var s := Run(defs, [Outcome(true, true)]).statuses;
      RequiredPassed(defs, s) && !AllFine(s)
  {
    var defs := [StepDef("a", ["b"], false, false)];
    var t := Fresh(defs);
    assert defs[..0] == [];
    assert IndexOf(defs, "b") == None;
    assert "b" in defs[0].dependsOn;
    assert !DepsFine(defs, t.statuses, 0);
    var done := StepDone(defs, [Outcome(true, true)], 0, t);
    assert RunFrom(defs, [Outcome(true, true)], 1, done) == done;
    assert done.statuses[0] == Skipped;
    assert Run(defs, [Outcome(true, true)]) == done;
  }

  // ---------------------------------------------------------------------------
  // The result, on the list and the outcomes alone
  // ---------------------------------------------------------------------------

  /** A step that is not skipped goes well when its check passes, or else its action does. */
  predicate Succeeds(def: StepDef, o: Outcome) {
    o.checkPasses || (def.hasAction && o.actionPasses)
  }

  lemma {:induction false} PassedIffFrom(defs: seq<StepDef>, outcomes: seq<Outcome>, i: nat, t: Trace, j: nat)
    requires |t.statuses| == |defs| == |outcomes| && i <= j < |defs|
    ensures var s := RunFrom(defs, outcomes, i, t).statuses[j];
      s.Passed? <==> !s.Skipped? && (outcomes[j].checkPasses || (defs[j].hasAction && outcomes[j].actionPasses))
    decreases |defs| - i
  {
    hide DepsFine;
    var next := StepDone(defs, outcomes, i, t);
    if i == j { LeavesEarlier(defs, outcomes, i + 1, next, j); } else { PassedIffFrom(defs, outcomes, i + 1, next, j); }
  }

  /** A step ends passed exactly when it is not skipped and its check passed, or it has an action and that passed. */
  lemma PassedIff(defs: seq<StepDef>, outcomes: seq<Outcome>, j: nat)
    requires |outcomes| == |defs| && j < |defs|
    ensures var s := Run(defs, outcomes).statuses[j];
      s.Passed? <==> !s.Skipped? && (outcomes[j].checkPasses || (defs[j].hasAction && outcomes[j].actionPasses))
  {
    PassedIffFrom(defs, outcomes, 0, Fresh(defs), j);
  }

  /** Every dependency is the id of an earlier step, and of no step from its own on. */
  ghost predicate LooksBack(defs: seq<StepDef>) {
    forall i, id :: 0 <= i < |defs| && id in defs[i].dependsOn ==> IsEarlier(defs, i, id)
  }

  ghost predicate IsEarlier(defs: seq<StepDef>, i: nat, id: string) {
    && (exists k :: 0 <= k < i && k < |defs| && defs[k].id == id)
    && (forall k :: i <= k < |defs| ==> defs[k].id != id)
  }

  lemma {:induction false} IndexIsLast(defs: seq<StepDef>, id: string)
    ensures match IndexOf(defs, id)
            case None => forall k :: 0 <= k < |defs| ==> defs[k].id != id
            case Some(last) => forall k :: last < k < |defs| ==> defs[k].id != id
  {
    if defs != [] { IndexIsLast(defs[..|defs| - 1], id); }
  }

  lemma {:induction false} ForwardIsSkipped(defs: seq<StepDef>, outcomes: seq<Outcome>, i: nat, t: Trace, j: nat, id: string)
    requires |t.statuses| == |defs| == |outcomes| && i <= j < |defs| && id in defs[j].dependsOn && !IsEarlier(defs, j, id)
    requires forall k :: i <= k < |defs| ==> t.statuses[k].Waiting?
    ensures RunFrom(defs, outcomes, i, t).statuses[j].Skipped?
    decreases |defs| - i
  {
    var next := StepDone(defs, outcomes, i, t);
    if i == j {
      IndexIsLast(defs, id);
      assert !DependencyFine(defs, t.statuses, id);
      LeavesEarlier(defs, outcomes, i + 1, next, j);
    } else {
      ForwardIsSkipped(defs, outcomes, i + 1, next, j, id);
    }
  }

  lemma {:induction false} FineSoFar(defs: seq<StepDef>, outcomes: seq<Outcome>, i: nat, t: Trace)
    requires |t.statuses| == |defs| == |outcomes| && i <= |defs| && LooksBack(defs)
    requires forall j :: 0 <= j < |defs| && defs[j].required ==> Succeeds(defs[j], outcomes[j])
    requires forall j :: 0 <= j < i ==> IsFine(t.statuses[j])
    ensures AllFine(RunFrom(defs, outcomes, i, t).statuses)
    decreases |defs| - i
  {
    if i < |defs| {
      forall id | id in defs[i].dependsOn ensures DependencyFine(defs, t.statuses, id) {
        assert IsEarlier(defs, i, id);
        IndexIsLast(defs, id);
      }
      hide LooksBack;
      FineSoFar(defs, outcomes, i + 1, StepDone(defs, outcomes, i, t));
    }
  }

  /** For every list and all outcomes: run returns True exactly when every dependency looks back and every required step's check
      or action passed. */
  lemma TrueIffRequiredSucceeded(defs: seq<StepDef>, outcomes: seq<Outcome>)
    requires |outcomes| == |defs|
    ensures AllFine(Run(defs, outcomes).statuses) <==>
      LooksBack(defs) && forall j :: 0 <= j < |defs| && defs[j].required ==> Succeeds(defs[j], outcomes[j])
  {
    var s := Run(defs, outcomes).statuses;
    if AllFine(s) {
      TrueIffRequiredPassedNoneSkipped(defs, outcomes);
      forall j | 0 <= j < |defs| && defs[j].required ensures Succeeds(defs[j], outcomes[j]) {
        PassedIff(defs, outcomes, j);
      }
      forall i, id | 0 <= i < |defs| && id in defs[i].dependsOn ensures IsEarlier(defs, i, id) {
        if !IsEarlier(defs, i, id) { ForwardIsSkipped(defs, outcomes, 0, Fresh(defs), i, id); }
      }
    } else if LooksBack(defs) && forall j :: 0 <= j < |defs| && defs[j].required ==> Succeeds(defs[j], outcomes[j]) {
      FineSoFar(defs, outcomes, 0, Fresh(defs));
    }
  }

  predicate CallsFine(defs: seq<StepDef>, calls: seq<Call>) {
    forall c :: c in calls ==> c.step < |defs| && |c.statuses| == |defs| && DepsFine(defs, c.statuses, c.step)
  }

  /** Marking a step as running cannot hurt its own dependencies: it is not among them. */
  lemma RunningKeepsDeps(defs: seq<StepDef>, statuses: seq<StepStatus>, i: nat)
    requires |statuses| == |defs| && i < |defs| && !IsFine(statuses[i]) && DepsFine(defs, statuses, i)
    ensures DepsFine(defs, statuses[i := Underway], i)
  {
    forall id | id in defs[i].dependsOn ensures DependencyFine(defs, statuses[i := Underway], id) {
      assert DependencyFine(defs, statuses, id);
    }
  }

  /** No check and no action runs unless all dependencies of its step are passed or warning at that moment. */
  lemma {:induction false} CallsFollowDeps(defs: seq<StepDef>, outcomes: seq<Outcome>, i: nat, t: Trace)
    requires |t.statuses| == |defs| == |outcomes| && i <= |defs|
    requires (forall j :: i <= j < |defs| ==> t.statuses[j].Waiting?) && CallsFine(defs, t.calls)
    ensures CallsFine(defs, RunFrom(defs, outcomes, i, t).calls)
    decreases |defs| - i
  {
    if i < |defs| {
      if DepsFine(defs, t.statuses, i) { RunningKeepsDeps(defs, t.statuses, i); }
      CallsFollowDeps(defs, outcomes, i + 1, StepDone(defs, outcomes, i, t));
    }
  }

  lemma EveryCallFollowsDeps(defs: seq<StepDef>, outcomes: seq<Outcome>)
    requires |outcomes| == |defs|
    ensures CallsFine(defs, Run(defs, outcomes).calls)
  {
    CallsFollowDeps(defs, outcomes, 0, Fresh(defs));
  }

  /** A step's check is called exactly when it is not skipped, and its action exactly when the check failed. */
  lemma {:induction false} CalledIff(defs: seq<StepDef>, outcomes: seq<Outcome>, i: nat, t: Trace, j: nat)
    requires |t.statuses| == |defs| == |outcomes| && i <= j < |defs|
    requires forall c :: c in t.calls ==> c.step < i
    ensures var r := RunFrom(defs, outcomes, i, t);
      && ((exists c :: c in r.calls && c.step == j && c.kind.Check?) <==> !r.statuses[j].Skipped?)
      && ((exists c :: c in r.calls && c.step == j && c.kind.Action?)
          <==> !r.statuses[j].Skipped? && !outcomes[j].checkPasses && defs[j].hasAction)
    decreases |defs| - i
  {
    var next := StepDone(defs, outcomes, i, t);
    if i < j {
      CalledIff(defs, outcomes, i + 1, next, j);
    } else {
      LeavesEarlier(defs, outcomes, i + 1, next, j);
      CallsOfLater(defs, outcomes, i + 1, next, j);
      if DepsFine(defs, t.statuses, i) {
        var running := t.statuses[i := Underway];
        assert next.calls[|t.calls|] == Call(i, Check, running);
        if !outcomes[i].checkPasses && defs[i].hasAction {
          assert next.calls[|t.calls| + 1] == Call(i, Action, running);
        }
      }
    }
  }

  /** Later steps add no call of step j. */
  lemma {:induction false} CallsOfLater(defs: seq<StepDef>, outcomes: seq<Outcome>, i: nat, t: Trace, j: nat)
    requires |t.statuses| == |defs| == |outcomes| && j < i <= |defs|
    ensures forall c :: c in RunFrom(defs, outcomes, i, t).calls && c.step == j <==> c in t.calls && c.step == j
    decreases |defs| - i
  {
    if i < |defs| { CallsOfLater(defs, outcomes, i + 1, StepDone(defs, outcomes, i, t), j); }
  }

  /** No check or action of a skipped step runs; every other step's check does, and its action exactly when that fails. */
  lemma SkippedStepsDoNothing(defs: seq<StepDef>, outcomes: seq<Outcome>, j: nat)
    requires |outcomes| == |defs| && j < |defs|
    ensures var r := Run(defs, outcomes);
      && ((exists c :: c in r.calls && c.step == j && c.kind.Check?) <==> !r.statuses[j].Skipped?)
      && ((exists c :: c in r.calls && c.step == j && c.kind.Action?)
          <==> !r.statuses[j].Skipped? && !outcomes[j].checkPasses && defs[j].hasAction)
  {
    CalledIff(defs, outcomes, 0, Fresh(defs), j);
  }
}
