/** internal/proposal: the per-capability pipeline, the merge of pipeline results, and the final selection. */
module Proposal {
  import opened Common
  import opened Model
  import opened CanonicalText

  datatype CapabilityPlan = CapabilityPlan(
    capabilityID: string, description: string, confidence: string, sources: seq<string>)

  datatype Material = Material(candidateIndex: int, inputs: Inputs, fixtures: seq<Fixture>)

  datatype BindingOutput = BindingOutput(candidates: seq<Candidate>, materials: seq<Material>)

  /** The two stage runners a pipeline calls: whatever they answer, or their failure. */
  type BindingStage = CapabilityPlan -> Result<BindingOutput, string>
  type EvidenceStage = (CapabilityPlan, Candidate, nat, Material) -> Result<VerifySpec, string>

  datatype PipelineResult = PipelineResult(
    index: int, candidates: seq<Candidate>, plans: seq<ProbePlan>, failure: Option<string>)

  datatype ProposalResult = ProposalResult(candidates: seq<Candidate>, plans: seq<ProbePlan>)

  const CANDIDATE_SOURCE := "proposal"
  const PROMPT_VERSION := "proposal-cli-v1"
  const SCHEMA_VERSION := "proposal.v1"

  // ---------------------------------------------------------------- one pipeline

  /** enrichCandidate: records where a candidate came from; what it would execute is untouched. */
  function EnrichCandidate(c: Candidate, modelName: string): (r: Candidate)
    ensures r.providerID == c.providerID && r.capabilityID == c.capabilityID
    ensures r.description == c.description && r.execution == c.execution
  {
    var source := if c.source == "" then CANDIDATE_SOURCE else c.source;
    c.(source := source, provenance := Some(Provenance(source, PROMPT_VERSION, modelName, SCHEMA_VERSION)))
  }

  /** A candidate says where it comes from: its own source if it names one, and the model and versions that made it. */
  predicate Sourced(c: Candidate, named: string, modelName: string) {
    && c.source == (if named == "" then "proposal" else named)
    && c.provenance == Some(Provenance(c.source, "proposal-cli-v1", modelName, "proposal.v1"))
  }

  /** Candidate `i` of the pipeline of a plan, and its probe plan: the binding stage's `i`-th pair, and the evidence
      planned for exactly it. */
  predicate PlannedFor(
    plan: CapabilityPlan, out: BindingOutput, evidence: EvidenceStage, i: nat, c: Candidate, probePlan: ProbePlan)
    requires i < |out.candidates| && i < |out.materials|
  {
    var proposed, material := out.candidates[i], out.materials[i];
    && c.providerID == proposed.providerID && c.capabilityID == proposed.capabilityID
    && c.description == proposed.description && c.execution == proposed.execution
    && probePlan.inputs == material.inputs && probePlan.fixtures == material.fixtures
    && evidence(plan, proposed, i, material) == Ok(probePlan.verify)
  }

  /** Candidates and plans run in step, plan `i` naming candidate `i`. */
  predicate Aligned(candidates: seq<Candidate>, plans: seq<ProbePlan>) {
    |candidates| == |plans| && forall i | 0 <= i < |plans| :: plans[i].candidateIndex == i
  }

  predicate AllPlanned(plan: CapabilityPlan, out: BindingOutput, evidence: EvidenceStage, r: PipelineResult) {
    && |r.candidates| <= |out.candidates| == |out.materials|
    && Aligned(r.candidates, r.plans)
    && forall i | 0 <= i < |r.candidates| :: PlannedFor(plan, out, evidence, i, r.candidates[i], r.plans[i])
  }

  /** What the pipeline of a plan leaves: nothing but the error when the binding stage fails, otherwise the pairs up to
      the first evidence failure, which is then its error, or all of them. */
  predicate PipelineOf(plan: CapabilityPlan, index: int, binding: BindingStage, evidence: EvidenceStage, r: PipelineResult) {
    && r.index == index
    && (binding(plan).Err? ==> r == PipelineResult(index, [], [], Some(binding(plan).error)))
    && (binding(plan).Ok? ==>
         var out, done := binding(plan).value, |r.candidates|;
         && AllPlanned(plan, out, evidence, r)
         && (r.failure.None? ==> done == |out.candidates|)
         && (r.failure.Some? ==>
              && done < |out.candidates|
              && evidence(plan, out.candidates[done], done, out.materials[done]) == Err(r.failure.value)))
  }

  /** runCapabilityPipeline. The two lengths agree because the binding stage checks them before it answers. */
  method RunCapabilityPipeline(
    plan: CapabilityPlan, index: int, binding: BindingStage, evidence: EvidenceStage, modelName: string)
    returns (r: PipelineResult)
    requires binding(plan).Ok? ==> |binding(plan).value.candidates| == |binding(plan).value.materials|
    ensures PipelineOf(plan, index, binding, evidence, r)
    ensures forall i | 0 <= i < |r.candidates| :: Sourced(r.candidates[i], binding(plan).value.candidates[i].source, modelName)
  {
    r := PipelineResult(index, [], [], None);
    var bound := binding(plan);
    if bound.Err? {
      return r.(failure := Some(bound.error));
    }
    var out := bound.value;
    for i := 0 to |out.candidates|
      invariant r.index == index && r.failure == None && |r.candidates| == i
      invariant AllPlanned(plan, out, evidence, r)
      invariant forall j | 0 <= j < i :: Sourced(r.candidates[j], out.candidates[j].source, modelName)
    {
      var candidate, material := out.candidates[i], out.materials[i];
      var verify := evidence(plan, candidate, i, material);
      if verify.Err? {
        return r.(failure := Some(verify.error));
      }
      var planned := ProbePlan(|r.candidates|, material.inputs, material.fixtures, verify.value);
      r := r.(candidates := r.candidates + [EnrichCandidate(candidate, modelName)], plans := r.plans + [planned]);
    }
  }

  // ---------------------------------------------------------------- merging pipelines

  function Shifted(plans: seq<ProbePlan>, offset: int): (r: seq<ProbePlan>)
    ensures |r| == |plans|
    ensures forall i | 0 <= i < |plans| :: r[i] == plans[i].(candidateIndex := plans[i].candidateIndex + offset)
  {
    seq(|plans|, i requires 0 <= i < |plans| => plans[i].(candidateIndex := plans[i].candidateIndex + offset))
  }

  /** appendPipeline: the plans of a pipeline move up by the number of candidates already collected. */
  function Appended(result: ProposalResult, pipeline: PipelineResult): ProposalResult {
    ProposalResult(
      result.candidates + pipeline.candidates,
      result.plans + Shifted(pipeline.plans, |result.candidates|))
  }

  /** What the merge loop of Runner.Run has collected after these pipelines. */
  function Merged(pipelines: seq<PipelineResult>): ProposalResult {
    if pipelines == [] then ProposalResult([], [])
    else
      var before, last := Merged(pipelines[..|pipelines| - 1]), pipelines[|pipelines| - 1];
      if last.failure.Some? then before else Appended(before, last)
  }

  method MergePipelines(pipelines: seq<PipelineResult>) returns (r: ProposalResult)
    ensures r == Merged(pipelines)
  {
    r := ProposalResult([], []);
    for p := 0 to |pipelines|
      invariant r == Merged(pipelines[..p])
    {
      assert pipelines[..p + 1][..p] == pipelines[..p];
      var pipeline := pipelines[p];
      if pipeline.failure.None? {
        var offset := |r.candidates|;
        var plans := r.plans;
        for i := 0 to |pipeline.plans|
          invariant plans == r.plans + Shifted(pipeline.plans, offset)[..i]
        {
          plans := plans + [pipeline.plans[i].(candidateIndex := pipeline.plans[i].candidateIndex + offset)];
        }
        r := ProposalResult(r.candidates + pipeline.candidates, plans);
      }
    }
    assert pipelines[..|pipelines|] == pipelines;
  }

  predicate AllAligned(pipelines: seq<PipelineResult>) {
    forall p | 0 <= p < |pipelines| :: pipelines[p].failure.None? ==> Aligned(pipelines[p].candidates, pipelines[p].plans)
  }

  /** Position `j` of a merged result holds candidate `i` of pipeline `p` together with that candidate's own plan. */
  predicate CameFrom(pipelines: seq<PipelineResult>, merged: ProposalResult, j: nat, p: nat, i: nat) {
    && p < |pipelines| && pipelines[p].failure.None?
    && i < |pipelines[p].candidates| && i < |pipelines[p].plans|
    && j < |merged.candidates| && j < |merged.plans|
    && merged.candidates[j] == pipelines[p].candidates[i]
    && merged.plans[j] == pipelines[p].plans[i].(candidateIndex := j)
  }

  ghost predicate FromSome(pipelines: seq<PipelineResult>, merged: ProposalResult, j: nat) {
    exists p: nat, i: nat :: CameFrom(pipelines, merged, j, p, i)
  }

  /** Every merged pair is a pair of one successful pipeline; failed pipelines contribute nothing. */
  lemma {:induction false} MergedFrom(pipelines: seq<PipelineResult>)
    requires AllAligned(pipelines)
    ensures Aligned(Merged(pipelines).candidates, Merged(pipelines).plans)
    ensures forall j | 0 <= j < |Merged(pipelines).candidates| :: FromSome(pipelines, Merged(pipelines), j)
  {
    if pipelines != [] {
      var n := |pipelines| - 1;
      var front, last := pipelines[..n], pipelines[n];
      MergedFrom(front);
      var before, merged := Merged(front), Merged(pipelines);
      forall j | 0 <= j < |merged.candidates|
        ensures FromSome(pipelines, merged, j)
      {
        if j < |before.candidates| {
          assert FromSome(front, before, j);
          var p: nat, i: nat :| CameFrom(front, before, j, p, i);
          assert CameFrom(pipelines, merged, j, p, i);
        } else {
          assert CameFrom(pipelines, merged, j, n, j - |before.candidates|);
        }
      }
    }
  }

  /** Every pair of every successful pipeline is merged, at the position its offset gives. */
  lemma {:induction false} MergedKeeps(pipelines: seq<PipelineResult>, p: nat, i: nat)
    requires AllAligned(pipelines)
    requires p < |pipelines| && pipelines[p].failure.None? && i < |pipelines[p].candidates|
    ensures CameFrom(pipelines, Merged(pipelines), |Merged(pipelines[..p]).candidates| + i, p, i)
  {
    var n := |pipelines| - 1;
    var front := pipelines[..n];
    MergedFrom(front);
    if p < n {
      assert front[..p] == pipelines[..p];
      MergedKeeps(front, p, i);
    }
  }

  // ---------------------------------------------------------------- selection

  datatype SelectOptions = SelectOptions(providerID: string, limit: int)

  datatype SelectError = PlanOutOfRange | DuplicatePlan | MissingPlan | BadExecution

  /** CanonicalExecution: the JSON text of an execution, or nothing when it cannot be encoded. */
  type Canonical = Execution -> Option<string>

  function ExecutionIdentity(c: Candidate, canonical: string): string {
    c.providerID + "|" + c.capabilityID + "|" + canonical
  }

  function CapabilityKey(c: Candidate): string {
    c.providerID + "|" + c.capabilityID
  }

  predicate Matches(c: Candidate, options: SelectOptions) {
    options.providerID == "" || c.providerID == options.providerID
  }

  /** The first loop of selectResult: the first plan that is out of range or repeats an index. */
  function BadPlan(plans: seq<ProbePlan>, candidates: nat, from: nat := 0): Option<SelectError>
    requires from <= |plans|
    decreases |plans| - from
  {
    if from == |plans| then None
    else if !(0 <= plans[from].candidateIndex < candidates) then Some(PlanOutOfRange)
    else if exists k | 0 <= k < from :: plans[k].candidateIndex == plans[from].candidateIndex then Some(DuplicatePlan)
    else BadPlan(plans, candidates, from + 1)
  }

  predicate HasPlan(plans: seq<ProbePlan>, index: int) {
    exists k | 0 <= k < |plans| :: plans[k].candidateIndex == index
  }

  function PlanOf(plans: seq<ProbePlan>, index: int): (r: ProbePlan)
    requires HasPlan(plans, index)
    ensures r in plans && r.candidateIndex == index
  {
    if plans[0].candidateIndex == index then plans[0] else PlanOf(plans[1..], index)
  }

  /** The second loop of selectResult: the candidate positions it keeps from `at` on. */
  function Choose(
    result: ProposalResult, options: SelectOptions, canonical: Canonical,
    at: nat, identities: set<string>, keys: set<string>, taken: nat): Result<seq<nat>, SelectError>
    requires at <= |result.candidates|
    decreases |result.candidates| - at
  {
    if at == |result.candidates| then Ok([])
    else
      var c := result.candidates[at];
      if !Matches(c, options) then Choose(result, options, canonical, at + 1, identities, keys, taken)
      else if !HasPlan(result.plans, at) then Err(MissingPlan)
      else match canonical(c.execution)
        case None => Err(BadExecution)
        case Some(text) =>
          var identity, key := ExecutionIdentity(c, text), CapabilityKey(c);
          if identity in identities || key in keys then
            Choose(result, options, canonical, at + 1, identities, keys, taken)
          else if options.limit > 0 && taken >= options.limit then Ok([])
          else
            match Choose(result, options, canonical, at + 1, identities + {identity}, keys + {key}, taken + 1)
            case Err(error) => Err(error)
            case Ok(rest) => Ok([at] + rest)
  }

  predicate Choosable(result: ProposalResult, chosen: seq<nat>) {
    forall k | 0 <= k < |chosen| :: chosen[k] < |result.candidates| && HasPlan(result.plans, chosen[k])
  }

  /** The chosen candidates, each with its own plan renumbered to its new position. */
  function Picked(result: ProposalResult, chosen: seq<nat>): ProposalResult
    requires Choosable(result, chosen)
  {
    ProposalResult(
      seq(|chosen|, k requires 0 <= k < |chosen| => result.candidates[chosen[k]]),
      seq(|chosen|, k requires 0 <= k < |chosen| => PlanOf(result.plans, chosen[k]).(candidateIndex := k)))
  }

  /** What every choice satisfies, whatever the ids look like. */
  ghost predicate Chosen(
    result: ProposalResult, options: SelectOptions, canonical: Canonical,
    at: nat, identities: set<string>, keys: set<string>, taken: nat, chosen: seq<nat>)
  {
    && Choosable(result, chosen)
    && (forall k | 0 <= k < |chosen| :: at <= chosen[k] && Matches(result.candidates[chosen[k]], options)
          && canonical(result.candidates[chosen[k]].execution).Some?)
    && (forall k, l | 0 <= k < l < |chosen| :: chosen[k] < chosen[l]
          && CapabilityKey(result.candidates[chosen[k]]) != CapabilityKey(result.candidates[chosen[l]])
          && IdentityAt(result, canonical, chosen[k]) != IdentityAt(result, canonical, chosen[l]))
    && (forall k | 0 <= k < |chosen| :: CapabilityKey(result.candidates[chosen[k]]) !in keys
          && IdentityAt(result, canonical, chosen[k]) !in identities)
    && (options.limit > 0 && taken <= options.limit ==> taken + |chosen| <= options.limit)
  }

  ghost function IdentityAt(result: ProposalResult, canonical: Canonical, i: nat): string
    requires i < |result.candidates| && canonical(result.candidates[i].execution).Some?
  {
    ExecutionIdentity(result.candidates[i], canonical(result.candidates[i].execution).value)
  }

  /** Taking position `at` in front of a choice made after it. */
  lemma ChosenCons(
    result: ProposalResult, options: SelectOptions, canonical: Canonical,
    at: nat, identities: set<string>, keys: set<string>, taken: nat, rest: seq<nat>)
    requires at < |result.candidates| && HasPlan(result.plans, at)
    requires Matches(result.candidates[at], options) && canonical(result.candidates[at].execution).Some?
    requires CapabilityKey(result.candidates[at]) !in keys && IdentityAt(result, canonical, at) !in identities
    requires options.limit > 0 ==> taken < options.limit
    requires Chosen(result, options, canonical, at + 1,
      identities + {IdentityAt(result, canonical, at)}, keys + {CapabilityKey(result.candidates[at])}, taken + 1, rest)
    ensures Chosen(result, options, canonical, at, identities, keys, taken, [at] + rest)
  {
    var chosen := [at] + rest;
    assert forall k | 0 < k < |chosen| :: chosen[k] == rest[k - 1];
    assert Choosable(result, chosen);
  }

  /** Passing over position `at`. */
  lemma ChosenSkip(
    result: ProposalResult, options: SelectOptions, canonical: Canonical,
    at: nat, identities: set<string>, keys: set<string>, taken: nat, rest: seq<nat>)
    requires Chosen(result, options, canonical, at + 1, identities, keys, taken, rest)
    ensures Chosen(result, options, canonical, at, identities, keys, taken, rest)
  {
  }

  lemma {:induction false} ChooseChooses(
    result: ProposalResult, options: SelectOptions, canonical: Canonical,
    at: nat, identities: set<string>, keys: set<string>, taken: nat)
    requires at <= |result.candidates|
    ensures var r := Choose(result, options, canonical, at, identities, keys, taken);
      r.Ok? ==> Chosen(result, options, canonical, at, identities, keys, taken, r.value)
    decreases |result.candidates| - at
  {
    if at < |result.candidates| {
      var c := result.candidates[at];
      var skipped := Choose(result, options, canonical, at + 1, identities, keys, taken);
      ChooseChooses(result, options, canonical, at + 1, identities, keys, taken);
      if skipped.Ok? {
        ChosenSkip(result, options, canonical, at, identities, keys, taken, skipped.value);
      }
      if Matches(c, options) && HasPlan(result.plans, at) && canonical(c.execution).Some? {
        var identity, key := IdentityAt(result, canonical, at), CapabilityKey(c);
        var rest := Choose(result, options, canonical, at + 1, identities + {identity}, keys + {key}, taken + 1);
        ChooseChooses(result, options, canonical, at + 1, identities + {identity}, keys + {key}, taken + 1);
        if rest.Ok? && identity !in identities && key !in keys && !(options.limit > 0 && taken >= options.limit) {
          ChosenCons(result, options, canonical, at, identities, keys, taken, rest.value);
        }
      }
    }
  }

  /** selectResult as a function of its input. */
  function Select(result: ProposalResult, options: SelectOptions, canonical: Canonical): Result<ProposalResult, SelectError> {
    match BadPlan(result.plans, |result.candidates|)
    case Some(error) => Err(error)
    case None =>
      match Choose(result, options, canonical, 0, {}, {}, 0)
      case Err(error) => Err(error)
      case Ok(chosen) =>
        ChooseChooses(result, options, canonical, 0, {}, {}, 0);
        Ok(Picked(result, chosen))
  }

  lemma {:induction false} BadPlanNone(plans: seq<ProbePlan>, candidates: nat, from: nat)
    requires from <= |plans|
    ensures BadPlan(plans, candidates, from).None? <==>
      forall k | from <= k < |plans| :: 0 <= plans[k].candidateIndex < candidates
        && forall l | 0 <= l < k :: plans[l].candidateIndex != plans[k].candidateIndex
    decreases |plans| - from
  {
    if from < |plans| {
      BadPlanNone(plans, candidates, from + 1);
    }
  }

  /** The plans are refused for a reason they have. */
  lemma {:induction false} BadPlanIsReal(plans: seq<ProbePlan>, candidates: nat, from: nat)
    requires from <= |plans|
    ensures BadPlan(plans, candidates, from) == Some(PlanOutOfRange) ==>
      exists k | 0 <= k < |plans| :: !(0 <= plans[k].candidateIndex < candidates)
    ensures BadPlan(plans, candidates, from) == Some(DuplicatePlan) ==>
      exists k, l | 0 <= k < l < |plans| :: plans[k].candidateIndex == plans[l].candidateIndex
    ensures BadPlan(plans, candidates, from) in {None, Some(PlanOutOfRange), Some(DuplicatePlan)}
    decreases |plans| - from
  {
    if from < |plans| {
      BadPlanIsReal(plans, candidates, from + 1);
    }
  }

  lemma {:induction false} PlanOfUnique(plans: seq<ProbePlan>, k: nat)
    requires k < |plans| && forall l | 0 <= l < k :: plans[l].candidateIndex != plans[k].candidateIndex
    ensures HasPlan(plans, plans[k].candidateIndex) && PlanOf(plans, plans[k].candidateIndex) == plans[k]
  {
    if k > 0 {
      PlanOfUnique(plans[1..], k - 1);
    }
  }

  /** The plans by candidate index, or the first reason to reject them. */
  method IndexPlans(plans: seq<ProbePlan>, candidates: nat) returns (r: Result<map<int, ProbePlan>, SelectError>)
    ensures r.Err? <==> BadPlan(plans, candidates).Some?
    ensures r.Err? ==> BadPlan(plans, candidates) == Some(r.error)
    ensures r.Ok? ==> forall i :: (i in r.value <==> HasPlan(plans, i)) && (i in r.value ==> r.value[i] == PlanOf(plans, i))
  {
    var plansByCandidate: map<int, ProbePlan> := map[];
    for k := 0 to |plans|
      invariant BadPlan(plans, candidates) == BadPlan(plans, candidates, k)
      invariant forall i :: i in plansByCandidate <==> exists l | 0 <= l < k :: plans[l].candidateIndex == i
      invariant forall i | i in plansByCandidate :: HasPlan(plans, i) && plansByCandidate[i] == PlanOf(plans, i)
    {
      var plan := plans[k];
      if plan.candidateIndex < 0 || plan.candidateIndex >= candidates {
        return Err(PlanOutOfRange);
      }
      if plan.candidateIndex in plansByCandidate {
        return Err(DuplicatePlan);
      }
      PlanOfUnique(plans, k);
      plansByCandidate := plansByCandidate[plan.candidateIndex := plan];
    }
    return Ok(plansByCandidate);
  }

  method SelectResult(result: ProposalResult, options: SelectOptions, canonical: Canonical)
    returns (r: Result<ProposalResult, SelectError>)
    ensures r == Select(result, options, canonical)
  {
    var indexed := IndexPlans(result.plans, |result.candidates|);
    if indexed.Err? {
      return Err(indexed.error);
    }
    var plansByCandidate := indexed.value;
    var identities, keys: set<string> := {}, {};
    var selected := ProposalResult([], []);
    ghost var chosen: seq<nat> := [];
    ghost var whole := Choose(result, options, canonical, 0, {}, {}, 0);
    ChooseChooses(result, options, canonical, 0, {}, {}, 0);
    assert whole.Ok? ==> [] + whole.value == whole.value;
    for index := 0 to |result.candidates|
      invariant Choosable(result, chosen) && selected == Picked(result, chosen)
      invariant whole == Continued(chosen, Choose(result, options, canonical, index, identities, keys, |chosen|))
    {
      var candidate := result.candidates[index];
      var verdict := Examine(result, options, canonical, index, identities, keys, |selected.candidates|, plansByCandidate.Keys);
      match verdict
      case Pass =>
      case Refuse(error) => return Err(error);
      case Stop =>
        assert chosen + [] == chosen;
        break;
      case Take(identity, key) =>
        identities, keys := identities + {identity}, keys + {key};
        selected := ProposalResult(
          selected.candidates + [candidate],
          selected.plans + [plansByCandidate[index].(candidateIndex := |selected.candidates|)]);
        ContinuedOneMore(chosen, index, Choose(result, options, canonical, index + 1, identities, keys, |chosen| + 1));
        PickedOneMore(result, chosen, index);
        chosen := chosen + [index];
    }
    assert chosen + [] == chosen;
    return Ok(selected);
  }

  /** What the body of the second loop does with a candidate. */
  datatype Verdict = Pass | Refuse(error: SelectError) | Stop | Take(identity: string, key: string)

  method Examine(
    result: ProposalResult, options: SelectOptions, canonical: Canonical,
    index: nat, identities: set<string>, keys: set<string>, taken: nat, planned: set<int>)
    returns (v: Verdict)
    requires index < |result.candidates| && forall i :: i in planned <==> HasPlan(result.plans, i)
    ensures Choose(result, options, canonical, index, identities, keys, taken) ==
      match v
      case Pass => Choose(result, options, canonical, index + 1, identities, keys, taken)
      case Refuse(error) => Err(error)
      case Stop => Ok([])
      case Take(identity, key) =>
        var rest := Choose(result, options, canonical, index + 1, identities + {identity}, keys + {key}, taken + 1);
        if rest.Ok? then Ok([index] + rest.value) else rest
    ensures v.Take? ==> HasPlan(result.plans, index)
  {
    var candidate := result.candidates[index];
    if options.providerID != "" && candidate.providerID != options.providerID {
      return Pass;
    }
    if index !in planned {
      return Refuse(MissingPlan);
    }
    var text := canonical(candidate.execution);
    if text.None? {
      return Refuse(BadExecution);
    }
    var identity := ExecutionIdentity(candidate, text.value);
    if identity in identities {
      return Pass;
    }
    var capabilityKey := CapabilityKey(candidate);
    if capabilityKey in keys {
      return Pass;
    }
    if options.limit > 0 && taken >= options.limit {
      return Stop;
    }
    return Take(identity, capabilityKey);
  }

  ghost function Continued(chosen: seq<nat>, rest: Result<seq<nat>, SelectError>): Result<seq<nat>, SelectError> {
    if rest.Ok? then Ok(chosen + rest.value) else rest
  }

  lemma ContinuedOneMore(chosen: seq<nat>, at: nat, rest: Result<seq<nat>, SelectError>)
    ensures Continued(chosen, if rest.Ok? then Ok([at] + rest.value) else rest) == Continued(chosen + [at], rest)
  {
    assert rest.Ok? ==> chosen + ([at] + rest.value) == (chosen + [at]) + rest.value;
  }

  lemma PickedOneMore(result: ProposalResult, chosen: seq<nat>, at: nat)
    requires Choosable(result, chosen) && at < |result.candidates| && HasPlan(result.plans, at)
    ensures Choosable(result, chosen + [at])
    ensures Picked(result, chosen + [at]) == ProposalResult(
      Picked(result, chosen).candidates + [result.candidates[at]],
      Picked(result, chosen).plans + [PlanOf(result.plans, at).(candidateIndex := |chosen|)])
  {
  }

  // ---------------------------------------------------------------- what selection means

  /** Every candidate of the wanted provider has a plan and an encodable execution. */
  predicate Complete(result: ProposalResult, options: SelectOptions, canonical: Canonical) {
    forall i | 0 <= i < |result.candidates| && Matches(result.candidates[i], options) ::
      HasPlan(result.plans, i) && canonical(result.candidates[i].execution).Some?
  }

  /** Candidate `i` is the first of the wanted provider with its capability key. */
  predicate IsFirst(candidates: seq<Candidate>, options: SelectOptions, i: nat)
    requires i < |candidates|
  {
    && Matches(candidates[i], options)
    && forall j | 0 <= j < i && Matches(candidates[j], options) :: CapabilityKey(candidates[j]) != CapabilityKey(candidates[i])
  }

  /** All first positions from `at` on, in order. */
  function Firsts(candidates: seq<Candidate>, options: SelectOptions, at: nat): seq<nat>
    requires at <= |candidates|
    decreases |candidates| - at
  {
    if at == |candidates| then []
    else if IsFirst(candidates, options, at) then [at] + Firsts(candidates, options, at + 1)
    else Firsts(candidates, options, at + 1)
  }

  /** What fits of `s` after `taken` were taken; a limit of zero or less is no limit. */
  function Truncated(s: seq<nat>, limit: int, taken: nat := 0): seq<nat>
    requires limit > 0 ==> taken <= limit
  {
    if 0 < limit < taken + |s| then s[..limit - taken] else s
  }

  lemma TruncatedCons(x: nat, s: seq<nat>, limit: int, taken: nat)
    requires limit > 0 ==> taken <= limit
    ensures Truncated([x] + s, limit, taken)
      == if limit > 0 && taken == limit then [] else [x] + Truncated(s, limit, taken + 1)
  {
  }

  lemma {:induction false} FirstsExact(candidates: seq<Candidate>, options: SelectOptions, at: nat)
    requires at <= |candidates|
    ensures var f := Firsts(candidates, options, at);
      && (forall k, l | 0 <= k < l < |f| :: f[k] < f[l])
      && (forall i: nat :: i in f <==> at <= i < |candidates| && IsFirst(candidates, options, i))
    decreases |candidates| - at
  {
    if at < |candidates| {
      FirstsExact(candidates, options, at + 1);
      var rest := Firsts(candidates, options, at + 1);
      assert forall k | 0 <= k < |rest| :: rest[k] in rest;
    }
  }

  /** What is relied on of CanonicalExecution: it returns JSON text. */
  ghost predicate EncodesJSON(canonical: Canonical) {
    forall e: Execution :: canonical(e).Some? ==> JSONText(canonical(e).value)
  }

  /** An execution identity can be taken apart again, whatever the ids hold: equal identities mean equal capability
      keys and equal canonical executions. */
  lemma IdentityFaithful(c: Candidate, d: Candidate, x: string, y: string)
    requires JSONText(x) && JSONText(y)
    ensures ExecutionIdentity(c, x) == ExecutionIdentity(d, y) <==> CapabilityKey(c) == CapabilityKey(d) && x == y
  {
    KeyInFront(c, x);
    KeyInFront(d, y);
    if ExecutionIdentity(c, x) == ExecutionIdentity(d, y) {
      if |x| <= |y| {
        LastBarSplits(CapabilityKey(c), x, CapabilityKey(d), y);
      } else {
        LastBarSplits(CapabilityKey(d), y, CapabilityKey(c), x);
      }
    }
  }

  lemma KeyInFront(c: Candidate, x: string)
    ensures ExecutionIdentity(c, x) == CapabilityKey(c) + "|" + x
  {
  }

  /** The capability keys of the matching candidates before `at`. */
  ghost function KeySet(candidates: seq<Candidate>, options: SelectOptions, at: nat): set<string>
    requires at <= |candidates|
  {
    if at == 0 then {}
    else if Matches(candidates[at - 1], options) then KeySet(candidates, options, at - 1) + {CapabilityKey(candidates[at - 1])}
    else KeySet(candidates, options, at - 1)
  }

  /** The execution identities of the matching candidates before `at`. */
  ghost function IdentitySet(candidates: seq<Candidate>, options: SelectOptions, canonical: Canonical, at: nat): set<string>
    requires at <= |candidates|
  {
    if at == 0 then {}
    else
      var c, before := candidates[at - 1], IdentitySet(candidates, options, canonical, at - 1);
      if Matches(c, options) && canonical(c.execution).Some? then
        before + {ExecutionIdentity(c, canonical(c.execution).value)}
      else before
  }

  /** The two seen-sets after `at` positions. */
  ghost predicate SeenSoFar(
    candidates: seq<Candidate>, options: SelectOptions, canonical: Canonical,
    at: nat, identities: set<string>, keys: set<string>)
  {
    && at <= |candidates|
    && keys == KeySet(candidates, options, at)
    && identities <= IdentitySet(candidates, options, canonical, at)
  }

  lemma {:induction false} KeySetHas(candidates: seq<Candidate>, options: SelectOptions, at: nat, key: string)
    requires at <= |candidates|
    ensures key in KeySet(candidates, options, at) <==>
      exists j | 0 <= j < at :: Matches(candidates[j], options) && CapabilityKey(candidates[j]) == key
  {
    if at > 0 {
      KeySetHas(candidates, options, at - 1, key);
    }
  }

  lemma {:induction false} IdentitySetHas(
    candidates: seq<Candidate>, options: SelectOptions, canonical: Canonical, at: nat, identity: string)
    returns (j: nat)
    requires at <= |candidates| && identity in IdentitySet(candidates, options, canonical, at)
    ensures j < at && Matches(candidates[j], options) && canonical(candidates[j].execution).Some?
    ensures ExecutionIdentity(candidates[j], canonical(candidates[j].execution).value) == identity
  {
    if identity in IdentitySet(candidates, options, canonical, at - 1) {
      j := IdentitySetHas(candidates, options, canonical, at - 1, identity);
    } else {
      j := at - 1;
    }
  }

  /** The membership test for the key says exactly that the position is not a first one; the other test adds nothing. */
  lemma SkippedIffSeen(
    candidates: seq<Candidate>, options: SelectOptions, canonical: Canonical,
    at: nat, identities: set<string>, keys: set<string>, text: string)
    requires EncodesJSON(canonical) && SeenSoFar(candidates, options, canonical, at, identities, keys)
    requires at < |candidates| && Matches(candidates[at], options)
    requires canonical(candidates[at].execution) == Some(text)
    ensures IsFirst(candidates, options, at) <==>
      !(ExecutionIdentity(candidates[at], text) in identities || CapabilityKey(candidates[at]) in keys)
    ensures CapabilityKey(candidates[at]) in keys <==> !IsFirst(candidates, options, at)
  {
    var c := candidates[at];
    KeySetHas(candidates, options, at, CapabilityKey(c));
    if ExecutionIdentity(c, text) in identities {
      var j := IdentitySetHas(candidates, options, canonical, at, ExecutionIdentity(c, text));
      IdentityFaithful(candidates[j], c, canonical(candidates[j].execution).value, text);
    }
  }

  /** A position that is not first is passed over. */
  lemma ChoosePasses(
    result: ProposalResult, options: SelectOptions, canonical: Canonical,
    at: nat, identities: set<string>, keys: set<string>, taken: nat)
    requires EncodesJSON(canonical) && Complete(result, options, canonical)
    requires SeenSoFar(result.candidates, options, canonical, at, identities, keys)
    requires at < |result.candidates| && !IsFirst(result.candidates, options, at)
    ensures Choose(result, options, canonical, at, identities, keys, taken)
      == Choose(result, options, canonical, at + 1, identities, keys, taken)
    ensures SeenSoFar(result.candidates, options, canonical, at + 1, identities, keys)
  {
    var c := result.candidates[at];
    if Matches(c, options) {
      SkippedIffSeen(result.candidates, options, canonical, at, identities, keys, canonical(c.execution).value);
    }
  }

  /** A position whose keys are new is taken while there is room. */
  lemma ChooseTakes(
    result: ProposalResult, options: SelectOptions, canonical: Canonical,
    at: nat, identities: set<string>, keys: set<string>, taken: nat, text: string, rest: seq<nat>)
    requires at < |result.candidates| && Matches(result.candidates[at], options)
    requires HasPlan(result.plans, at) && canonical(result.candidates[at].execution) == Some(text)
    requires ExecutionIdentity(result.candidates[at], text) !in identities && CapabilityKey(result.candidates[at]) !in keys
    requires options.limit > 0 ==> taken <= options.limit
    requires var c := result.candidates[at];
      options.limit <= 0 || taken < options.limit ==>
        Choose(result, options, canonical, at + 1, identities + {ExecutionIdentity(c, text)}, keys + {CapabilityKey(c)}, taken + 1)
          == Ok(Truncated(rest, options.limit, taken + 1))
    ensures Choose(result, options, canonical, at, identities, keys, taken) == Ok(Truncated([at] + rest, options.limit, taken))
  {
    TruncatedCons(at, rest, options.limit, taken);
  }

  lemma {:induction false} ChooseFirsts(
    result: ProposalResult, options: SelectOptions, canonical: Canonical,
    at: nat, identities: set<string>, keys: set<string>, taken: nat)
    requires EncodesJSON(canonical) && Complete(result, options, canonical)
    requires SeenSoFar(result.candidates, options, canonical, at, identities, keys)
    requires options.limit > 0 ==> taken <= options.limit
    ensures Choose(result, options, canonical, at, identities, keys, taken)
      == Ok(Truncated(Firsts(result.candidates, options, at), options.limit, taken))
    decreases |result.candidates| - at
  {
    if at == |result.candidates| {
    } else if IsFirst(result.candidates, options, at) {
      var c := result.candidates[at];
      var text := canonical(c.execution).value;
      var rest := Firsts(result.candidates, options, at + 1);
      SkippedIffSeen(result.candidates, options, canonical, at, identities, keys, text);
      if options.limit <= 0 || taken < options.limit {
        ChooseFirsts(result, options, canonical, at + 1,
          identities + {ExecutionIdentity(c, text)}, keys + {CapabilityKey(c)}, taken + 1);
      }
      ChooseTakes(result, options, canonical, at, identities, keys, taken, text, rest);
    } else {
      ChoosePasses(result, options, canonical, at, identities, keys, taken);
      ChooseFirsts(result, options, canonical, at + 1, identities, keys, taken);
    }
  }

  /** With a plan and a text for every candidate selection raises no error. */
  lemma {:induction false} ChooseAnswers(
    result: ProposalResult, options: SelectOptions, canonical: Canonical,
    at: nat, identities: set<string>, keys: set<string>, taken: nat)
    requires at <= |result.candidates|
    requires forall j | 0 <= j < |result.candidates| ::
      HasPlan(result.plans, j) && canonical(result.candidates[j].execution).Some?
    ensures Choose(result, options, canonical, at, identities, keys, taken).Ok?
    decreases |result.candidates| - at
  {
    if at < |result.candidates| {
      var c := result.candidates[at];
      ChooseAnswers(result, options, canonical, at + 1, identities, keys, taken);
      ChooseAnswers(result, options, canonical, at + 1,
        identities + {ExecutionIdentity(c, canonical(c.execution).value)}, keys + {CapabilityKey(c)}, taken + 1);
    }
  }

  lemma SelectAnswers(result: ProposalResult, options: SelectOptions, canonical: Canonical)
    requires Aligned(result.candidates, result.plans)
    requires forall c | c in result.candidates :: canonical(c.execution).Some?
    ensures Select(result, options, canonical).Ok?
  {
    BadPlanNone(result.plans, |result.candidates|, 0);
    forall j | 0 <= j < |result.candidates| ensures HasPlan(result.plans, j) {
      assert result.plans[j].candidateIndex == j;
    }
    ChooseAnswers(result, options, canonical, 0, {}, {}, 0);
  }

  /** selectResult refines its simple reading: of the wanted provider's candidates keep the first per capability key,
      cut at the limit, renumber. The dedupe by execution identity adds nothing, whatever the ids look like. */
  lemma SelectIsFirstPerCapability(result: ProposalResult, options: SelectOptions, canonical: Canonical)
    requires BadPlan(result.plans, |result.candidates|).None?
    requires EncodesJSON(canonical) && Complete(result, options, canonical)
    ensures var chosen := Truncated(Firsts(result.candidates, options, 0), options.limit);
      Choosable(result, chosen) && Select(result, options, canonical) == Ok(Picked(result, chosen))
  {
    ChooseFirsts(result, options, canonical, 0, {}, {}, 0);
    ChooseChooses(result, options, canonical, 0, {}, {}, 0);
  }

  /** The wanted provider's candidates, or all of them when none is wanted. */
  predicate OfProvider(c: Candidate, providerID: string) {
    c.providerID == providerID || providerID == ""
  }

  predicate NamedByPlan(plans: seq<ProbePlan>, i: int) {
    exists plan | plan in plans :: plan.candidateIndex == i
  }

  lemma PlanNames(plans: seq<ProbePlan>, i: int)
    ensures HasPlan(plans, i) <==> NamedByPlan(plans, i)
  {
    if HasPlan(plans, i) {
      var k :| 0 <= k < |plans| && plans[k].candidateIndex == i;
      assert plans[k] in plans;
    }
  }

  /** A choice looked at every position up to its last one, and without a limit at all of them. */
  lemma {:induction false} ChooseLooksAt(
    result: ProposalResult, options: SelectOptions, canonical: Canonical,
    at: nat, identities: set<string>, keys: set<string>, taken: nat, i: nat)
    requires at <= i < |result.candidates| && OfProvider(result.candidates[i], options.providerID)
    requires var r := Choose(result, options, canonical, at, identities, keys, taken);
      r.Ok? && (options.limit <= 0 || exists k | 0 <= k < |r.value| :: i <= r.value[k])
    ensures HasPlan(result.plans, i) && canonical(result.candidates[i].execution).Some?
    decreases |result.candidates| - at
  {
    var r := Choose(result, options, canonical, at, identities, keys, taken);
    var c := result.candidates[at];
    if at < i {
      if Matches(c, options) {
        var identity, key := ExecutionIdentity(c, canonical(c.execution).value), CapabilityKey(c);
        if identity in identities || key in keys {
          ChooseLooksAt(result, options, canonical, at + 1, identities, keys, taken, i);
        } else {
          var rest := Choose(result, options, canonical, at + 1, identities + {identity}, keys + {key}, taken + 1);
          assert r == Ok([at] + rest.value);
          LaterInRest(at, rest.value, i, options.limit);
          ChooseLooksAt(result, options, canonical, at + 1, identities + {identity}, keys + {key}, taken + 1, i);
        }
      } else {
        ChooseLooksAt(result, options, canonical, at + 1, identities, keys, taken, i);
      }
    }
  }

  lemma LaterInRest(at: nat, rest: seq<nat>, i: nat, limit: int)
    requires at < i && (limit <= 0 || exists k | 0 <= k < |[at] + rest| :: i <= ([at] + rest)[k])
    ensures limit <= 0 || exists k | 0 <= k < |rest| :: i <= rest[k]
  {
    if limit > 0 {
      var k :| 0 <= k < |[at] + rest| && i <= ([at] + rest)[k];
      assert rest[k - 1] == ([at] + rest)[k];
    }
  }

  /** Why a choice fails: some candidate of the wanted provider has no plan, or no text. */
  lemma {:induction false} ChooseFails(
    result: ProposalResult, options: SelectOptions, canonical: Canonical,
    at: nat, identities: set<string>, keys: set<string>, taken: nat)
    returns (i: nat)
    requires at <= |result.candidates| && Choose(result, options, canonical, at, identities, keys, taken).Err?
    ensures at <= i < |result.candidates| && OfProvider(result.candidates[i], options.providerID)
    ensures match Choose(result, options, canonical, at, identities, keys, taken).error
      case MissingPlan => !HasPlan(result.plans, i)
      case BadExecution => HasPlan(result.plans, i) && canonical(result.candidates[i].execution).None?
      case _ => false
    decreases |result.candidates| - at
  {
    var c := result.candidates[at];
    if !Matches(c, options) {
      i := ChooseFails(result, options, canonical, at + 1, identities, keys, taken);
    } else if !HasPlan(result.plans, at) || canonical(c.execution).None? {
      i := at;
    } else {
      var identity, key := ExecutionIdentity(c, canonical(c.execution).value), CapabilityKey(c);
      if identity in identities || key in keys {
        i := ChooseFails(result, options, canonical, at + 1, identities, keys, taken);
      } else {
        i := ChooseFails(result, options, canonical, at + 1, identities + {identity}, keys + {key}, taken + 1);
      }
    }
  }

  /** Every plan names a candidate, no two the same. */
  predicate PlansInOrder(plans: seq<ProbePlan>, candidates: nat) {
    && (forall k | 0 <= k < |plans| :: 0 <= plans[k].candidateIndex < candidates)
    && (forall k, l | 0 <= k < l < |plans| :: plans[k].candidateIndex != plans[l].candidateIndex)
  }

  predicate PlannedAndEncodable(result: ProposalResult, options: SelectOptions, canonical: Canonical) {
    forall i | 0 <= i < |result.candidates| && OfProvider(result.candidates[i], options.providerID) ::
      NamedByPlan(result.plans, i) && canonical(result.candidates[i].execution).Some?
  }

  /** Without a limit, selection succeeds if and only if the plans are in order and every candidate it is about has a plan
      and a text; with one, that much is enough. */
  lemma SelectSucceedsIff(result: ProposalResult, options: SelectOptions, canonical: Canonical)
    ensures PlansInOrder(result.plans, |result.candidates|) && PlannedAndEncodable(result, options, canonical)
      ==> Select(result, options, canonical).Ok?
    ensures Select(result, options, canonical).Ok? ==> PlansInOrder(result.plans, |result.candidates|)
    ensures Select(result, options, canonical).Ok? && options.limit <= 0 ==> PlannedAndEncodable(result, options, canonical)
  {
    BadPlanNone(result.plans, |result.candidates|, 0);
    var r := Select(result, options, canonical);
    forall i: int ensures HasPlan(result.plans, i) <==> NamedByPlan(result.plans, i) {
      PlanNames(result.plans, i);
    }
    if BadPlan(result.plans, |result.candidates|).None? {
      if r.Err? {
        var i := ChooseFails(result, options, canonical, 0, {}, {}, 0);
      } else if options.limit <= 0 {
        forall i | 0 <= i < |result.candidates| && OfProvider(result.candidates[i], options.providerID)
          ensures NamedByPlan(result.plans, i) && canonical(result.candidates[i].execution).Some?
        {
          ChooseLooksAt(result, options, canonical, 0, {}, {}, 0, i);
        }
      }
    }
  }

  /** The first candidate of the wanted provider that shares the key of candidate `i`. */
  lemma {:induction false} FirstOfKey(candidates: seq<Candidate>, options: SelectOptions, i: nat) returns (j: nat)
    requires i < |candidates| && Matches(candidates[i], options)
    ensures j <= i && IsFirst(candidates, options, j) && CapabilityKey(candidates[j]) == CapabilityKey(candidates[i])
  {
    if IsFirst(candidates, options, i) {
      j := i;
    } else {
      var earlier :| 0 <= earlier < i && Matches(candidates[earlier], options)
        && CapabilityKey(candidates[earlier]) == CapabilityKey(candidates[i]);
      j := FirstOfKey(candidates, options, earlier);
    }
  }

  predicate SameKey(c: Candidate, d: Candidate) {
    c.providerID + "|" + c.capabilityID == d.providerID + "|" + d.capabilityID
  }

  lemma SelectionOfProvider(result: ProposalResult, options: SelectOptions, canonical: Canonical)
    requires Select(result, options, canonical).Ok?
    ensures forall c | c in Select(result, options, canonical).value.candidates :: OfProvider(c, options.providerID)
    ensures options.limit > 0 ==> |Select(result, options, canonical).value.candidates| <= options.limit
  {
    ChooseChooses(result, options, canonical, 0, {}, {}, 0);
    var s, chosen := Select(result, options, canonical).value, Choose(result, options, canonical, 0, {}, {}, 0).value;
    forall c | c in s.candidates ensures OfProvider(c, options.providerID) {
      var k :| 0 <= k < |s.candidates| && s.candidates[k] == c;
      assert Matches(result.candidates[chosen[k]], options);
    }
  }

  lemma CompleteMeans(result: ProposalResult, options: SelectOptions, canonical: Canonical)
    ensures Complete(result, options, canonical) <==> PlannedAndEncodable(result, options, canonical)
  {
    forall i: int ensures HasPlan(result.plans, i) <==> NamedByPlan(result.plans, i) {
      PlanNames(result.plans, i);
    }
  }

  lemma FirstIsSelected(result: ProposalResult, options: SelectOptions, canonical: Canonical, j: nat)
    requires EncodesJSON(canonical) && Select(result, options, canonical).Ok? && options.limit <= 0
    requires j < |result.candidates| && IsFirst(result.candidates, options, j)
    ensures result.candidates[j] in Select(result, options, canonical).value.candidates
  {
    SelectSucceedsIff(result, options, canonical);
    CompleteMeans(result, options, canonical);
    SelectIsFirstPerCapability(result, options, canonical);
    FirstsExact(result.candidates, options, 0);
    var chosen := Firsts(result.candidates, options, 0);
    assert j in chosen;
    var k :| 0 <= k < |chosen| && chosen[k] == j;
    assert Picked(result, chosen).candidates[k] == result.candidates[j];
  }

  /** What is selected is of the wanted provider; and without a limit each of its candidates is represented by one with
      its provider and capability ids. */
  lemma SelectionCovers(result: ProposalResult, options: SelectOptions, canonical: Canonical)
    requires EncodesJSON(canonical) && Select(result, options, canonical).Ok?
    ensures var s := Select(result, options, canonical).value;
      && (forall c | c in s.candidates :: OfProvider(c, options.providerID))
      && (options.limit <= 0 ==> forall i | 0 <= i < |result.candidates| && OfProvider(result.candidates[i], options.providerID) ::
            exists c | c in s.candidates :: SameKey(c, result.candidates[i]))
      && (options.limit > 0 ==> |s.candidates| <= options.limit)
  {
    SelectionOfProvider(result, options, canonical);
    if options.limit <= 0 {
      forall i | 0 <= i < |result.candidates| && OfProvider(result.candidates[i], options.providerID)
        ensures exists c | c in Select(result, options, canonical).value.candidates :: SameKey(c, result.candidates[i])
      {
        var j := FirstOfKey(result.candidates, options, i);
        FirstIsSelected(result, options, canonical, j);
        assert SameKey(result.candidates[j], result.candidates[i]);
      }
    }
  }

  /** Each selected pair is an input pair with the plan renumbered, in strictly increasing input order. */
  lemma SelectKeepsPairs(result: ProposalResult, options: SelectOptions, canonical: Canonical)
    returns (chosen: seq<nat>)
    requires Select(result, options, canonical).Ok?
    ensures var s := Select(result, options, canonical).value;
      && Aligned(s.candidates, s.plans) && |chosen| == |s.candidates|
      && (forall k, l | 0 <= k < l < |chosen| :: chosen[k] < chosen[l])
      && (forall k | 0 <= k < |chosen| :: chosen[k] < |result.candidates| && HasPlan(result.plans, chosen[k])
            && s.candidates[k] == result.candidates[chosen[k]]
            && s.plans[k] == PlanOf(result.plans, chosen[k]).(candidateIndex := k))
  {
    ChooseChooses(result, options, canonical, 0, {}, {}, 0);
    chosen := Choose(result, options, canonical, 0, {}, {}, 0).value;
  }

  /** The positions from `at` on. */
  function Onward(at: nat, n: nat): (r: seq<nat>)
    requires at <= n
    ensures |r| == n - at && forall k | 0 <= k < |r| :: r[k] == at + k
  {
    seq(n - at, k requires 0 <= k => at + k)
  }

  /** A choice of all positions, taken apart at its first. */
  lemma ChosenApart(
    result: ProposalResult, options: SelectOptions, canonical: Canonical,
    at: nat, identities: set<string>, keys: set<string>)
    requires at < |result.candidates|
    requires Chosen(result, options, canonical, at, identities, keys, at, Onward(at, |result.candidates|))
    ensures HasPlan(result.plans, at) && Matches(result.candidates[at], options)
    ensures canonical(result.candidates[at].execution).Some?
    ensures CapabilityKey(result.candidates[at]) !in keys && IdentityAt(result, canonical, at) !in identities
    ensures Chosen(result, options, canonical, at + 1, identities + {IdentityAt(result, canonical, at)},
      keys + {CapabilityKey(result.candidates[at])}, at + 1, Onward(at + 1, |result.candidates|))
  {
    var all, rest := Onward(at, |result.candidates|), Onward(at + 1, |result.candidates|);
    assert all[0] == at;
    assert forall k | 0 <= k < |rest| :: rest[k] == all[k + 1];
  }

  /** When nothing is left to drop, selection keeps everything. */
  lemma {:induction false} ChooseAll(
    result: ProposalResult, options: SelectOptions, canonical: Canonical,
    at: nat, identities: set<string>, keys: set<string>)
    requires at <= |result.candidates|
    requires Chosen(result, options, canonical, at, identities, keys, at, Onward(at, |result.candidates|))
    requires options.limit > 0 ==> |result.candidates| <= options.limit
    ensures Choose(result, options, canonical, at, identities, keys, at) == Ok(Onward(at, |result.candidates|))
    decreases |result.candidates| - at
  {
    if at < |result.candidates| {
      ChosenApart(result, options, canonical, at, identities, keys);
      ChooseAll(result, options, canonical, at + 1,
        identities + {IdentityAt(result, canonical, at)}, keys + {CapabilityKey(result.candidates[at])});
      assert Onward(at, |result.candidates|) == [at] + Onward(at + 1, |result.candidates|);
    }
  }

  lemma PickedIsChosen(result: ProposalResult, options: SelectOptions, canonical: Canonical, chosen: seq<nat>)
    requires Chosen(result, options, canonical, 0, {}, {}, 0, chosen)
    ensures var s, n := Picked(result, chosen), |chosen|;
      BadPlan(s.plans, n).None? && Chosen(s, options, canonical, 0, {}, {}, 0, Onward(0, n))
  {
    var s, n := Picked(result, chosen), |chosen|;
    BadPlanNone(s.plans, n, 0);
    forall k | 0 <= k < n ensures HasPlan(s.plans, k) {
      PlanOfUnique(s.plans, k);
    }
    PickedLike(result, s, options, canonical, chosen);
  }

  /** The same candidates in the same order, at the first positions. */
  lemma PickedLike(
    result: ProposalResult, s: ProposalResult, options: SelectOptions, canonical: Canonical, chosen: seq<nat>)
    requires Chosen(result, options, canonical, 0, {}, {}, 0, chosen)
    requires |s.candidates| == |chosen| && forall k | 0 <= k < |chosen| :: HasPlan(s.plans, k)
    requires forall k | 0 <= k < |chosen| :: s.candidates[k] == result.candidates[chosen[k]]
    ensures Chosen(s, options, canonical, 0, {}, {}, 0, Onward(0, |chosen|))
  {
    forall k | 0 <= k < |chosen|
      ensures canonical(s.candidates[k].execution).Some?
      ensures IdentityAt(s, canonical, k) == IdentityAt(result, canonical, chosen[k])
    {
    }
  }

  /** NormalizeResult is idempotent, for every input it accepts. */
  lemma SelectIdempotent(result: ProposalResult, options: SelectOptions, canonical: Canonical)
    requires Select(result, options, canonical).Ok?
    ensures var s := Select(result, options, canonical).value; Select(s, options, canonical) == Ok(s)
  {
    ChooseChooses(result, options, canonical, 0, {}, {}, 0);
    var chosen := Choose(result, options, canonical, 0, {}, {}, 0).value;
    var s, n := Picked(result, chosen), |chosen|;
    PickedIsChosen(result, options, canonical, chosen);
    ChooseAll(s, options, canonical, 0, {}, {});
    PickAll(s);
  }

  lemma PickAll(s: ProposalResult)
    requires Aligned(s.candidates, s.plans)
    ensures var all := Onward(0, |s.candidates|); Choosable(s, all) && Picked(s, all) == s
  {
    var all := Onward(0, |s.candidates|);
    forall k | 0 <= k < |all| ensures HasPlan(s.plans, all[k]) && PlanOf(s.plans, all[k]) == s.plans[k] {
      PlanOfUnique(s.plans, k);
    }
  }

  predicate BarFree(s: string) {
    '|' !in s
  }

  /** With a wanted provider, as every proposal has one, or with bar-free provider ids, a capability key stands for
      the provider and capability id it is made of. */
  lemma KeyIsPair(c: Candidate, d: Candidate, options: SelectOptions)
    requires Matches(c, options) && Matches(d, options)
    requires options.providerID != "" || (BarFree(c.providerID) && BarFree(d.providerID))
    ensures CapabilityKey(c) == CapabilityKey(d) <==> c.providerID == d.providerID && c.capabilityID == d.capabilityID
  {
    if CapabilityKey(c) == CapabilityKey(d) {
      var s := CapabilityKey(c);
      assert s[|c.providerID|] == '|' && s[|d.providerID|] == '|';
      assert forall i | 0 <= i < |c.providerID| :: s[i] == c.providerID[i];
      assert forall i | 0 <= i < |d.providerID| :: s[i] == d.providerID[i];
      assert |c.providerID| == |d.providerID|;
      assert c.providerID == s[..|c.providerID|] && c.capabilityID == s[|c.providerID| + 1..];
      assert d.providerID == s[..|d.providerID|] && d.capabilityID == s[|d.providerID| + 1..];
    }
  }
}
