/** internal/probe: pairing plans with candidates, and what a probe record certifies. */
module ProbeRunner {
  import opened Common
  import opened Text
  import opened Model
  import opened Check

  datatype Target = Target(candidateIndex: nat, candidate: Candidate, plan: ProbePlan)

  datatype TargetError = PlanOutOfRange | DuplicatePlan | MissingPlan

  const CONTRACT_EVIDENCE := EvidenceRef("contract_probe_not_executed", "contract")

  // ---------------------------------------------------------------- targets

  predicate InRangeAndDistinct(plans: seq<ProbePlan>, candidates: nat) {
    && (forall k | 0 <= k < |plans| :: 0 <= plans[k].candidateIndex < candidates)
    && (forall k, l | 0 <= k < l < |plans| :: plans[k].candidateIndex != plans[l].candidateIndex)
  }

  predicate Covered(plans: seq<ProbePlan>, index: int) {
    exists k | 0 <= k < |plans| :: plans[k].candidateIndex == index
  }

  ghost function RangeSet(n: nat): (s: set<int>)
    ensures forall i :: i in s <==> 0 <= i < n
    ensures |s| == n
  {
    if n == 0 then {} else RangeSet(n - 1) + {n - 1}
  }

  ghost function IndexSet(plans: seq<ProbePlan>): set<int> {
    set k | 0 <= k < |plans| :: plans[k].candidateIndex
  }

  lemma {:induction false} IndexSetSize(plans: seq<ProbePlan>)
    requires forall k, l | 0 <= k < l < |plans| :: plans[k].candidateIndex != plans[l].candidateIndex
    ensures |IndexSet(plans)| == |plans|
  {
    if plans == [] {
      assert IndexSet(plans) == {};
    } else {
      var n := |plans| - 1;
      var front := plans[..n];
      IndexSetSize(front);
      assert forall k | 0 <= k < n :: front[k] == plans[k];
      assert IndexSet(plans) == IndexSet(front) + {plans[n].candidateIndex};
    }
  }

  /** As many plans as candidates, in range and distinct: no candidate can be left without a plan. */
  lemma PlansCoverCandidates(plans: seq<ProbePlan>, candidates: nat)
    requires |plans| == candidates && InRangeAndDistinct(plans, candidates)
    ensures forall i | 0 <= i < candidates :: Covered(plans, i)
  {
    var indices, all := IndexSet(plans), RangeSet(candidates);
    IndexSetSize(plans);
    assert indices <= all;
    assert |all - indices| == |all| - |indices|;
    forall i | 0 <= i < candidates ensures Covered(plans, i) {
      assert i in all && i !in all - indices;
      assert i in indices;
    }
  }

  /** buildTargets of the probe package: target `i` is candidate `i` with the plan that names it. */
  method BuildTargets(candidates: seq<Candidate>, plans: seq<ProbePlan>) returns (r: Result<seq<Target>, TargetError>)
    ensures r.Ok? <==> InRangeAndDistinct(plans, |candidates|) && forall i | 0 <= i < |candidates| :: Covered(plans, i)
    ensures r.Ok? ==> |r.value| == |candidates| && forall i | 0 <= i < |candidates| ::
      && r.value[i].candidateIndex == i && r.value[i].candidate == candidates[i]
      && r.value[i].plan in plans && r.value[i].plan.candidateIndex == i
    ensures |candidates| == |plans| ==> r != Err(MissingPlan)
  {
    var indexed := IndexPlans(plans, |candidates|);
    if indexed.Err? {
      return Err(indexed.error);
    }
    var plansByIndex := indexed.value;
    if |candidates| == |plans| {
      PlansCoverCandidates(plans, |candidates|);
    }
    var targets: seq<Target> := [];
    for index := 0 to |candidates|
      invariant |targets| == index
      invariant forall i | 0 <= i < index ::
        && targets[i].candidateIndex == i && targets[i].candidate == candidates[i]
        && targets[i].plan in plans && targets[i].plan.candidateIndex == i && Covered(plans, i)
    {
      if index !in plansByIndex {
        assert !Covered(plans, index);
        return Err(MissingPlan);
      }
      targets := targets + [Target(index, candidates[index], plans[plansByIndex[index]])];
    }
    return Ok(targets);
  }

  /** The first loop of buildTargets: the plan of each candidate index, unless one is out of range or taken. */
  method IndexPlans(plans: seq<ProbePlan>, candidates: nat) returns (r: Result<map<int, nat>, TargetError>)
    ensures r.Ok? <==> InRangeAndDistinct(plans, candidates)
    ensures r.Ok? ==> forall i :: i in r.value <==> Covered(plans, i)
    ensures r.Ok? ==> forall i | i in r.value :: r.value[i] < |plans| && plans[r.value[i]].candidateIndex == i
    ensures r.Err? ==> r.error != MissingPlan
    ensures r == Err(PlanOutOfRange) ==> exists plan | plan in plans :: !(0 <= plan.candidateIndex < candidates)
    ensures r == Err(DuplicatePlan) ==>
      exists k, l | 0 <= k < l < |plans| :: plans[k].candidateIndex == plans[l].candidateIndex
  {
    var plansByIndex: map<int, nat> := map[];
    for k := 0 to |plans|
      invariant forall l | 0 <= l < k :: 0 <= plans[l].candidateIndex < candidates
      invariant forall l, m | 0 <= l < m < k :: plans[l].candidateIndex != plans[m].candidateIndex
      invariant forall l | 0 <= l < k :: plans[l].candidateIndex in plansByIndex
      invariant forall i | i in plansByIndex :: plansByIndex[i] < k && plans[plansByIndex[i]].candidateIndex == i
    {
      var candidateIndex := plans[k].candidateIndex;
      if candidateIndex < 0 || candidateIndex >= candidates {
        return Err(PlanOutOfRange);
      }
      if candidateIndex in plansByIndex {
        return Err(DuplicatePlan);
      }
      plansByIndex := plansByIndex[candidateIndex := k];
    }
    forall i | Covered(plans, i) ensures i in plansByIndex {
    }
    return Ok(plansByIndex);
  }

  // ---------------------------------------------------------------- one target

  datatype ExecutionOutcome = NotExecuted(failure: Failure) | NoExecutionResult | Executed

  /** Everything a probe run meets outside the modelled code, target by target. */
  datatype World = World(
    table: PredicateTable,
    prepareFails: nat -> bool,
    materialize: (nat, ProbePlan) -> Result<Inputs, Failure>,
    execute: (nat, Candidate, Inputs) -> ExecutionOutcome,
    checkCanceledAtStart: nat -> bool,
    checkCanceled: nat -> Canceled,
    check: nat -> CheckRun)

  function FailedProbe(index: int, inputs: Inputs, verify: VerifySpec, reason: Reason): Probe {
    Probe(index, false, inputs, verify, [], reason)
  }

  /** What a passed record certifies about its verify spec. */
  predicate Certified(verify: VerifySpec, evidence: seq<EvidenceRef>, table: PredicateTable) {
    && ValidSpec(verify, table) && verify.level != L0
    && (verify.method_ == Execute ==> EvidenceFor(verify.checks, evidence) && evidence != [])
    && (verify.method_ == Contract ==> evidence == [CONTRACT_EVIDENCE])
  }

  predicate HonestProbe(p: Probe, table: PredicateTable) {
    p.passed ==> Certified(p.verify, p.evidence, table)
  }

  /** Neither the materializer, the executor nor a check reports an invalid-probe-input error of its own. */
  ghost predicate NeverStructural(world: World) {
    && (forall i, plan :: world.materialize(i, plan).Err? ==> !world.materialize(i, plan).error.structural)
    && (forall i, c, inputs :: world.execute(i, c, inputs).NotExecuted? ==> !world.execute(i, c, inputs).failure.structural)
    && (forall i, k, check :: world.check(i)(k, check).Err? ==> !world.check(i)(k, check).error.structural)
  }

  /** The candidate really executed at turn `i`, and every check of the record's spec passed on it. */
  predicate ReallyChecked(i: nat, candidate: Candidate, world: World, p: Probe) {
    && world.execute(i, candidate, p.inputs) == Executed
    && Passes(p.verify.checks, world.check(i), world.checkCanceled(i))
  }

  /** When probing a candidate under a plan passes. */
  predicate Passing(i: nat, candidate: Candidate, plan: ProbePlan, world: World) {
    var inputs := world.materialize(i, plan);
    && !world.prepareFails(i) && inputs.Ok? && ValidSpec(plan.verify, world.table) && plan.verify.level != L0
    && (plan.verify.method_ == Execute ==>
         && world.execute(i, candidate, inputs.value) == Executed && !world.checkCanceledAtStart(i)
         && Passes(plan.verify.checks, world.check(i), world.checkCanceled(i)))
  }

  /** The record of a candidate under a plan: about both, passed exactly when probing passes, with the inputs used. */
  predicate RecordFor(p: Probe, i: nat, candidate: Candidate, plan: ProbePlan, world: World) {
    && p.candidateIndex == i && p.verify == plan.verify
    && (p.passed <==> Passing(i, candidate, plan, world))
    && (p.passed ==> world.materialize(i, plan) == Ok(p.inputs))
  }

  /** The reason a record gives. */
  predicate ReasonFits(reason: Reason, i: nat, candidate: Candidate, plan: ProbePlan, world: World) {
    var inputs, verify := world.materialize(i, plan), plan.verify;
    reason ==
      if world.prepareFails(i) || inputs.Err? then MaterializeFailed
      else if !ValidSpec(verify, world.table) then PlanInvalid
      else if verify.level == L0 then LevelIsL0
      else if verify.method_ == Contract then ContractRecorded
      else match world.execute(i, candidate, inputs.value)
        case NotExecuted(f) => (if f.deadline then ExecutionTimeout else ExecutionFailed)
        case NoExecutionResult => ExecutionFailed
        case Executed => if Passing(i, candidate, plan, world) then ChecksPassed else VerificationFailed
  }

  /** Probing the candidate meets an invalid-probe-input error, which ends the whole run. */
  ghost predicate StopsRun(i: nat, candidate: Candidate, plan: ProbePlan, world: World) {
    var inputs, verify := world.materialize(i, plan), plan.verify;
    !world.prepareFails(i) &&
    if inputs.Err? then inputs.error.structural
    else
      ValidSpec(verify, world.table) && verify.level != L0 && verify.method_ == Execute &&
      match world.execute(i, candidate, inputs.value)
      case NotExecuted(f) => f.structural
      case NoExecutionResult => false
      case Executed =>
        !world.checkCanceledAtStart(i) && FailsStructurally(verify.checks, world.check(i), world.checkCanceled(i))
  }

  method RunTarget(target: Target, world: World) returns (p: Probe, failure: Option<Failure>)
    ensures ReasonFits(p.reason, target.candidateIndex, target.candidate, target.plan, world)
    ensures failure.Some? && failure.value.structural <==>
      StopsRun(target.candidateIndex, target.candidate, target.plan, world)
    ensures RecordFor(p, target.candidateIndex, target.candidate, target.plan, world)
    ensures HonestProbe(p, world.table)
    ensures p.passed ==> failure == None
    ensures p.passed && p.verify.method_ == Execute ==> ReallyChecked(target.candidateIndex, target.candidate, world, p)
    ensures !p.passed ==> p.evidence == []
    ensures p.passed && p.verify.method_ == Contract ==> p.evidence == [EvidenceRef("contract_probe_not_executed", "contract")]
    ensures failure.Some? && failure.value.structural ==> !NeverStructural(world)
  {
    var i, verify := target.candidateIndex, target.plan.verify;
    if world.prepareFails(i) {
      return FailedProbe(i, map[], verify, MaterializeFailed), Some(PLAIN_FAILURE);
    }
    var materialized := world.materialize(i, target.plan);
    if materialized.Err? {
      return FailedProbe(i, map[], verify, MaterializeFailed), Some(materialized.error);
    }
    var inputs := materialized.value;
    if !ValidSpec(verify, world.table) {
      return FailedProbe(i, inputs, verify, PlanInvalid), Some(PLAIN_FAILURE);
    }
    if verify.level == L0 {
      return Probe(i, false, inputs, verify, [], LevelIsL0), None;
    }
    if verify.method_ == Contract {
      return Probe(i, true, inputs, verify, [CONTRACT_EVIDENCE], ContractRecorded), None;
    }
    p, failure := ExecuteAndCheck(target, inputs, world);
  }

  method ExecuteAndCheck(target: Target, inputs: Inputs, world: World) returns (p: Probe, failure: Option<Failure>)
    requires ValidSpec(target.plan.verify, world.table)
    requires target.plan.verify.method_ == Execute && target.plan.verify.level != L0
    ensures p.candidateIndex == target.candidateIndex && p.verify == target.plan.verify && p.inputs == inputs
    ensures !p.passed ==> p.evidence == []
    ensures match world.execute(target.candidateIndex, target.candidate, inputs)
      case NotExecuted(f) => p.reason == (if f.deadline then ExecutionTimeout else ExecutionFailed) && failure == Some(f)
      case NoExecutionResult => p.reason == ExecutionFailed && failure == Some(PLAIN_FAILURE)
      case Executed =>
        && p.reason == (if p.passed then ChecksPassed else VerificationFailed)
        && (failure.Some? && failure.value.structural <==>
              !world.checkCanceledAtStart(target.candidateIndex)
              && FailsStructurally(target.plan.verify.checks, world.check(target.candidateIndex), world.checkCanceled(target.candidateIndex)))
    ensures p.passed <==> failure == None
    ensures p.passed <==>
      ReallyChecked(target.candidateIndex, target.candidate, world, p) && !world.checkCanceledAtStart(target.candidateIndex)
    ensures HonestProbe(p, world.table)
    ensures failure.Some? && failure.value.structural ==> !NeverStructural(world)
  {
    var i, verify := target.candidateIndex, target.plan.verify;
    match world.execute(i, target.candidate, inputs)
    case NotExecuted(f) =>
      var reason := if f.deadline then ExecutionTimeout else ExecutionFailed;
      return FailedProbe(i, inputs, verify, reason), Some(f);
    case NoExecutionResult =>
      return FailedProbe(i, inputs, verify, ExecutionFailed), Some(PLAIN_FAILURE);
    case Executed =>
      var checked := RunChecks(verify, world.table, world.check(i), world.checkCanceledAtStart(i), world.checkCanceled(i));
      if checked.Err? {
        return FailedProbe(i, inputs, verify, VerificationFailed), Some(checked.error);
      }
      return Probe(i, true, inputs, verify, checked.value, ChecksPassed), None;
  }

  // ---------------------------------------------------------------- all targets

  datatype ProbeError = LengthMismatch | BadTargets(error: TargetError) | Structural

  /** Record `i` is about candidate `i`, under the spec planned for candidate `i`; a pass is certified, and under
      the execute method it means that this very candidate was executed and passed every check. */
  predicate RecordOf(p: Probe, i: nat, candidates: seq<Candidate>, plans: seq<ProbePlan>, world: World)
    requires i < |candidates|
  {
    && p.candidateIndex == i
    && (exists plan | plan in plans :: plan.candidateIndex == i && RecordFor(p, i, candidates[i], plan, world))
    && HonestProbe(p, world.table)
    && (p.passed && p.verify.method_ == Execute ==> ReallyChecked(i, candidates[i], world, p))
  }

  ghost predicate StopsAt(i: nat, candidates: seq<Candidate>, plans: seq<ProbePlan>, world: World)
    requires i < |candidates|
  {
    exists plan | plan in plans :: plan.candidateIndex == i && StopsRun(i, candidates[i], plan, world)
  }

  lemma OnePlanStops(plans: seq<ProbePlan>, plan: ProbePlan, i: nat, candidates: seq<Candidate>, world: World)
    requires i < |candidates| && InRangeAndDistinct(plans, |candidates|) && plan in plans && plan.candidateIndex == i
    ensures StopsAt(i, candidates, plans, world) <==> StopsRun(i, candidates[i], plan, world)
  {
    var k :| 0 <= k < |plans| && plans[k] == plan;
    forall other | other in plans && other.candidateIndex == i ensures other == plan {
      var l :| 0 <= l < |plans| && plans[l] == other;
    }
  }

  /** Runner.Run of the probe package, past the checks that its own collaborators are present. */
  method RunProbes(candidates: seq<Candidate>, plans: seq<ProbePlan>, world: World)
    returns (probes: seq<Probe>, error: Option<ProbeError>)
    ensures |candidates| != |plans| <==> error == Some(LengthMismatch)
    ensures |candidates| == |plans| ==>
      (InRangeAndDistinct(plans, |candidates|) <==> !(error.Some? && error.value.BadTargets?))
    ensures error.Some? && error.value != Structural ==> probes == []
    ensures error != Some(BadTargets(MissingPlan))
    ensures |probes| <= |candidates|
    ensures forall i | 0 <= i < |probes| :: RecordOf(probes[i], i, candidates, plans, world)
    ensures error.None? ==> |probes| == |candidates|
    ensures error == Some(Structural) ==> !NeverStructural(world)
    ensures error == Some(Structural) ==> probes != [] && StopsAt(|probes| - 1, candidates, plans, world)
    ensures forall i | 0 <= i < |probes| && (error.None? || i < |probes| - 1) :: !StopsAt(i, candidates, plans, world)
  {
    probes := [];
    if |candidates| != |plans| {
      return probes, Some(LengthMismatch);
    }
    var built := BuildTargets(candidates, plans);
    if InRangeAndDistinct(plans, |candidates|) {
      PlansCoverCandidates(plans, |candidates|);
    }
    if built.Err? {
      return probes, Some(BadTargets(built.error));
    }
    var targets := built.value;
    for index := 0 to |targets|
      invariant |probes| == index
      invariant forall i | 0 <= i < index :: RecordOf(probes[i], i, candidates, plans, world)
      invariant forall i | 0 <= i < index :: !StopsAt(i, candidates, plans, world)
    {
      OnePlanStops(plans, targets[index].plan, index, candidates, world);
      var p, failure := RunTarget(targets[index], world);
      probes := probes + [p];
      if failure.Some? && failure.value.structural {
        return probes, Some(Structural);
      }
    }
    return probes, None;
  }
}
