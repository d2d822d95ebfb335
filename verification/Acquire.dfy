/** The acquire path end to end: stage outputs, pipelines, merge, selection, probes, promotion.
    Every hop renumbers or re-keys candidates; the theorems here compose all of them. */
module Acquire {
  import opened Common
  import opened Text
  import opened Model
  import opened Check
  import P = Proposal
  import Sched = Scheduler
  import opened ProbeRunner
  import opened Promote

  /** The stages an acquisition talks to. `started(i)` says whether the scheduler started plan `i` before the
      context was done; a plan it did not start counts as failed. */
  datatype Stages = Stages(
    plans: seq<P.CapabilityPlan>, started: nat -> bool,
    binding: P.BindingStage, evidence: P.EvidenceStage, modelName: string)

  predicate StageContract(stages: Stages) {
    forall plan | plan in stages.plans && stages.binding(plan).Ok? ::
      |stages.binding(plan).value.candidates| == |stages.binding(plan).value.materials|
  }

  /** Result slot `i` after the scheduler has finished. */
  predicate SlotOf(stages: Stages, i: nat, r: P.PipelineResult)
    requires i < |stages.plans|
  {
    if stages.started(i) then P.PipelineOf(stages.plans[i], i, stages.binding, stages.evidence, r)
    else r == P.PipelineResult(i, [], [], Some(CONTEXT_DONE))
  }

  const CONTEXT_DONE := "context done"

  predicate Slots(stages: Stages, pipelines: seq<P.PipelineResult>) {
    |pipelines| == |stages.plans| && forall i | 0 <= i < |pipelines| :: SlotOf(stages, i, pipelines[i])
  }

  method RunPipelines(stages: Stages) returns (pipelines: seq<P.PipelineResult>)
    requires StageContract(stages)
    ensures Slots(stages, pipelines)
  {
    pipelines := [];
    for i := 0 to |stages.plans|
      invariant |pipelines| == i
      invariant forall j | 0 <= j < i :: SlotOf(stages, j, pipelines[j])
    {
      var plan := stages.plans[i];
      assert plan in stages.plans;
      if stages.started(i) {
        var r := P.RunCapabilityPipeline(plan, i, stages.binding, stages.evidence, stages.modelName);
        pipelines := pipelines + [r];
      } else {
        pipelines := pipelines + [P.PipelineResult(i, [], [], Some(CONTEXT_DONE))];
      }
    }
  }

  // ---------------------------------------------------------------- the same, scheduled concurrently

  /** What the worker of plan `i` may store: a result of the pipeline above. */
  ghost predicate MayStore(stages: Stages, i: nat, r: P.PipelineResult) {
    i < |stages.plans| && P.PipelineOf(stages.plans[i], i, stages.binding, stages.evidence, r)
  }

  ghost function Answers(stages: Stages): Sched.Answers<P.PipelineResult> {
    (i: nat, r: P.PipelineResult) => MayStore(stages, i, r)
  }

  /** The result array read by the merge loop. */
  function ResultIn(slot: Sched.Slot<P.PipelineResult>, i: nat): P.PipelineResult {
    match slot
    case Stored(r) => r
    case _ => P.PipelineResult(i, [], [], Some(CONTEXT_DONE))
  }

  /** Whatever the interleaving and whenever the context is done: once the scheduler returns, its result array is one
      that `RunPipelines` describes, for the plans whose workers were started. So everything proved here of the
      result slots holds of the concurrent run. */
  lemma ScheduledSlots(
    stages: Stages, limit: nat, states: seq<Sched.State<P.PipelineResult>>, steps: seq<Sched.Step<P.PipelineResult>>)
    returns (pipelines: seq<P.PipelineResult>)
    requires Sched.Run(states, steps, |stages.plans|, limit, Answers(stages))
    requires var last := states[|steps|];
      && last.main == Sched.Returned && |last.workers| == |stages.plans|
      && forall i | 0 <= i < |stages.plans| :: stages.started(i) <==> last.workers[i] == Sched.Finished
    ensures Slots(stages, pipelines) && |states[|steps|].slots| == |pipelines|
    ensures forall i | 0 <= i < |pipelines| :: pipelines[i] == ResultIn(states[|steps|].slots[i], i)
  {
    var last, n := states[|steps|], |stages.plans|;
    Sched.ReturnedMeansDone(states, steps, n, limit, Answers(stages), |steps|);
    pipelines := seq(n, i requires 0 <= i < n => ResultIn(last.slots[i], i));
    forall i | 0 <= i < n ensures SlotOf(stages, i, pipelines[i]) {
      assert last.workers[i] == Sched.Finished ==> MayStore(stages, i, pipelines[i]);
    }
  }

  /** The pipeline of plan `p` succeeded: it was started, its binding stage answered `out`, and the evidence stage
      answered for every pair of it. One failing pair discards them all. */
  predicate PipelineSucceeds(stages: Stages, p: nat, out: P.BindingOutput) {
    && p < |stages.plans| && stages.started(p) && stages.binding(stages.plans[p]) == Ok(out)
    && |out.candidates| <= |out.materials|
    && forall j | 0 <= j < |out.candidates| ::
         stages.evidence(stages.plans[p], out.candidates[j], j, out.materials[j]).Ok?
  }

  /** Candidate and spec that one successful pipeline planned for each other. */
  predicate PlannedTogether(stages: Stages, c: Candidate, verify: VerifySpec, p: nat, i: nat) {
    && p < |stages.plans| && stages.binding(stages.plans[p]).Ok?
    && var out := stages.binding(stages.plans[p]).value;
       && PipelineSucceeds(stages, p, out) && i < |out.candidates|
       && out.candidates[i].execution == c.execution && out.candidates[i].description == c.description
       && out.candidates[i].providerID == c.providerID && out.candidates[i].capabilityID == c.capabilityID
       && stages.evidence(stages.plans[p], out.candidates[i], i, out.materials[i]) == Ok(verify)
  }

  /** A pipeline that left no error had every pair of its binding stage planned. */
  lemma NoFailureSucceeds(stages: Stages, p: nat, r: P.PipelineResult)
    requires p < |stages.plans| && SlotOf(stages, p, r) && r.failure.None?
    ensures stages.binding(stages.plans[p]).Ok?
    ensures var out := stages.binding(stages.plans[p]).value;
      PipelineSucceeds(stages, p, out) && |r.candidates| == |out.candidates|
  {
    var plan := stages.plans[p];
    var out := stages.binding(plan).value;
    assert P.AllPlanned(plan, out, stages.evidence, r);
    forall j | 0 <= j < |out.candidates|
      ensures stages.evidence(plan, out.candidates[j], j, out.materials[j]).Ok?
    {
      assert P.PlannedFor(plan, out, stages.evidence, j, r.candidates[j], r.plans[j]);
    }
  }

  /** The context of a proposal: what was selected out of which pipelines. */
  datatype Proposed = Proposed(
    stages: Stages, pipelines: seq<P.PipelineResult>, options: P.SelectOptions, canonical: P.Canonical,
    selected: P.ProposalResult)

  predicate ProposedFrom(x: Proposed) {
    && Slots(x.stages, x.pipelines)
    && P.Select(P.Merged(x.pipelines), x.options, x.canonical) == Ok(x.selected)
  }

  lemma SlotsAligned(stages: Stages, pipelines: seq<P.PipelineResult>)
    requires Slots(stages, pipelines)
    ensures P.AllAligned(pipelines)
  {
    forall p | 0 <= p < |pipelines| && pipelines[p].failure.None?
      ensures P.Aligned(pipelines[p].candidates, pipelines[p].plans)
    {
      assert SlotOf(stages, p, pipelines[p]);
    }
  }

  /** All renumbering composed: selected candidate `k` and plan `k` were planned for each other by one pipeline. */
  lemma SelectedPlannedTogether(x: Proposed, k: nat) returns (p: nat, i: nat)
    requires ProposedFrom(x) && k < |x.selected.candidates|
    ensures P.Aligned(x.selected.candidates, x.selected.plans)
    ensures PlannedTogether(x.stages, x.selected.candidates[k], x.selected.plans[k].verify, p, i)
    ensures var material := x.stages.binding(x.stages.plans[p]).value.materials[i];
      x.selected.plans[k].inputs == material.inputs && x.selected.plans[k].fixtures == material.fixtures
  {
    var merged := P.Merged(x.pipelines);
    SlotsAligned(x.stages, x.pipelines);
    P.MergedFrom(x.pipelines);
    var chosen := P.SelectKeepsPairs(merged, x.options, x.canonical);
    var j := chosen[k];
    assert P.FromSome(x.pipelines, merged, j);
    p, i :| P.CameFrom(x.pipelines, merged, j, p, i);
    P.PlanOfUnique(merged.plans, j);
    NoFailureSucceeds(x.stages, p, x.pipelines[p]);
  }

  /** A binding stored by this acquisition: some passed record `k` is about its candidate. */
  ghost predicate Earned(b: Binding, candidates: seq<Candidate>, plans: seq<ProbePlan>, probes: seq<Probe>, world: World, k: nat) {
    && k < |probes| && k < |candidates| && probes[k].passed
    && RecordOf(probes[k], k, candidates, plans, world)
    && BindingOf(b, candidates[k], probes[k])
  }

  lemma MadeIsEarned(
    candidates: seq<Candidate>, plans: seq<ProbePlan>, probes: seq<Probe>, world: World,
    ids: Identities, records: Records, made: seq<Capability>, promotions: seq<Promotion>, id: string, b: Binding)
    returns (k: nat)
    requires |probes| <= |candidates|
    requires forall i | 0 <= i < |probes| :: RecordOf(probes[i], i, candidates, plans, world)
    requires PassedInRange(candidates, probes)
    requires Reported(records, PassedTargets(candidates, probes), Decide(ids), made, promotions)
    requires MadeBy(made, id, b)
    ensures Earned(b, candidates, plans, probes, world, k) && b.capabilityID == id
  {
    var m :| 0 <= m < |made| && made[m].id == id && made[m].bindings == [b];
    var targets := PassedTargets(candidates, probes);
    var t := targets[m];
    assert ReportedAt(records, made[..m], t, Decide(ids), made[m], promotions[m]);
    assert t in targets;
    k := TargetRecord(candidates, plans, probes, world, t);
    DecidedBinding(t, ids, world.table, made[m]);
  }

  lemma DecidedBinding(t: PromotionTarget, ids: Identities, table: PredicateTable, next: Capability)
    requires t.probe.passed && HonestProbe(t.probe, table) && Decide(ids)(t) == Ok(next)
    ensures |next.bindings| == 1 && BindingOf(next.bindings[0], t.candidate, t.probe)
    ensures next.bindings[0].capabilityID == next.id
  {
    HonestProbePromotes(t.candidate, t.probe, ids, table);
    FreshIsSingle(t.candidate, t.probe, ids, table);
  }

  lemma TargetRecord(
    candidates: seq<Candidate>, plans: seq<ProbePlan>, probes: seq<Probe>, world: World, t: PromotionTarget)
    returns (k: nat)
    requires |probes| <= |candidates|
    requires forall i | 0 <= i < |probes| :: RecordOf(probes[i], i, candidates, plans, world)
    requires PassedInRange(candidates, probes) && t in PassedTargets(candidates, probes)
    ensures k < |probes| && t == PromotionTarget(k, candidates[k], probes[k]) && probes[k].passed
    ensures HonestProbe(t.probe, world.table)
  {
    TargetsPassed(candidates, probes);
    k :| 0 <= k < |probes| && probes[k] == t.probe;
    assert RecordOf(probes[k], k, candidates, plans, world);
  }

  lemma ProposedAligned(x: Proposed)
    requires ProposedFrom(x)
    ensures P.Aligned(x.selected.candidates, x.selected.plans)
  {
    var _ := P.SelectKeepsPairs(P.Merged(x.pipelines), x.options, x.canonical);
  }

  /** Some candidate was planned, and the selection raises no error. */
  predicate Selectable(pipelines: seq<P.PipelineResult>, options: P.SelectOptions, canonical: P.Canonical) {
    P.Merged(pipelines).candidates != [] && P.Select(P.Merged(pipelines), options, canonical).Ok?
  }

  /** Runner.Run of the proposal package. Without a surface or a capability stage result there is nothing to report;
      when the selection fails the merged candidates are reported, but a failed proposal is never probed. */
  method Propose(stages: Stages, stageFails: bool, options: P.SelectOptions, canonical: P.Canonical)
    returns (r: P.ProposalResult, ok: bool, ghost pipelines: seq<P.PipelineResult>, ghost x: Option<Proposed>)
    requires StageContract(stages)
    ensures stageFails ==> !ok && r == P.ProposalResult([], [])
    ensures !stageFails ==> Slots(stages, pipelines)
    ensures ok <==> x.Some?
    ensures ok <==> !stageFails && Selectable(pipelines, options, canonical)
    ensures !ok ==> r == if stageFails then P.ProposalResult([], []) else P.Merged(pipelines)
    ensures x.Some? ==> x.value.pipelines == pipelines && x.value.options == options && x.value.canonical == canonical
    ensures x.Some? ==> x.value.stages == stages && ProposedFrom(x.value) && r == x.value.selected
  {
    pipelines := [];
    if stageFails {
      return P.ProposalResult([], []), false, pipelines, None;
    }
    var results := RunPipelines(stages);
    pipelines := results;
    var merged := P.MergePipelines(results);
    if merged.candidates == [] {
      return merged, false, pipelines, None;
    }
    var selected := P.SelectResult(merged, options, canonical);
    if selected.Err? {
      return merged, false, pipelines, None;
    }
    return selected.value, true, pipelines, Some(Proposed(stages, results, options, canonical, selected.value));
  }

  lemma RecordsPromotable(candidates: seq<Candidate>, plans: seq<ProbePlan>, probes: seq<Probe>, world: World)
    requires |probes| <= |candidates|
    requires forall i | 0 <= i < |probes| :: RecordOf(probes[i], i, candidates, plans, world)
    ensures PassedInRange(candidates, probes) && PassedDistinct(probes)
    ensures forall p | p in probes :: HonestProbe(p, world.table)
  {
  }

  /** What can be said of any binding an acquisition added: one successful pipeline planned exactly this execution
      with exactly this spec, and under the execute method the execution ran and passed each check of that spec,
      leaving one piece of evidence per check. */
  lemma StoredBindingProvenance(x: Proposed, probes: seq<Probe>, world: World, b: Binding, k: nat)
    returns (p: nat, i: nat, c: Candidate)
    requires ProposedFrom(x)
    requires Earned(b, x.selected.candidates, x.selected.plans, probes, world, k)
    ensures b.verify.Some? && b.execution == c.execution
    ensures b.providerID == TrimSpace(c.providerID) && b.capabilityID == TrimSpace(c.capabilityID)
    ensures PlannedTogether(x.stages, c, b.verify.value, p, i)
    ensures b.verify.value.method_ == Execute ==>
      && ReallyChecked(k, c, world, probes[k]) && probes[k].verify == b.verify.value
      && |b.evidence| == |b.verify.value.checks| > 0
  {
    c := x.selected.candidates[k];
    p, i := SelectedPlannedTogether(x, k);
    var plans := x.selected.plans;
    var plan :| plan in plans && plan.candidateIndex == k && RecordFor(probes[k], k, c, plan, world);
    var j :| 0 <= j < |plans| && plans[j] == plan;
    assert j == k;
  }

  /** An added binding, with all that vouches for it: candidate `c`, planned as pair `i` of plan `p`, probed as record
      `k`. */
  ghost predicate Added(b: Binding, stages: Stages, world: World, c: Candidate, p: nat, i: nat, k: nat, probe: Probe) {
    && b.verify.Some? && b.execution == c.execution
    && b.providerID == TrimSpace(c.providerID) && b.capabilityID == TrimSpace(c.capabilityID)
    && PlannedTogether(stages, c, b.verify.value, p, i)
    && (b.verify.value.method_ == Execute ==>
         && ReallyChecked(k, c, world, probe) && probe.verify == b.verify.value
         && |b.evidence| == |b.verify.value.checks| > 0)
  }

  ghost predicate AddedInRun(b: Binding, stages: Stages, world: World) {
    exists c: Candidate, p: nat, i: nat, k: nat, probe: Probe :: Added(b, stages, world, c, p, i, k, probe)
  }

  lemma EarnedIsAdded(x: Proposed, probes: seq<Probe>, world: World, b: Binding, k: nat)
    requires ProposedFrom(x)
    requires Earned(b, x.selected.candidates, x.selected.plans, probes, world, k)
    ensures AddedInRun(b, x.stages, world)
  {
    var p, i, c := StoredBindingProvenance(x, probes, world, b, k);
    assert Added(b, x.stages, world, c, p, i, k, probes[k]);
  }
}
