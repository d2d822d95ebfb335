/** The first and the last hop of an acquisition put together: from the raw answers of the binding stage to the
    bindings of the catalog. */
module Provenance {
  import opened Common
  import opened Text
  import opened Model
  import opened Acquire
  import B = BindingStage
  import P = Proposal
  import ProbeRunner

  /** The binding stage as the pipelines see it: for each plan it asks a request, and passes on what Parse makes of the
      decoded answer. */
  datatype Asking = Asking(
    request: P.CapabilityPlan -> B.Request,
    decoded: P.CapabilityPlan -> Option<(seq<Candidate>, seq<P.Material>)>)

  ghost predicate FromParse(binding: P.BindingStage, asking: Asking) {
    forall plan: P.CapabilityPlan | binding(plan).Ok? ::
      B.Answers(asking.decoded(plan), asking.request(plan), binding(plan).value)
  }

  /** Parse answers pair candidates and materials, which is all the pipelines ask of the binding stage. */
  lemma ParsedStagesKeepContract(stages: Stages, asking: Asking)
    requires FromParse(stages.binding, asking)
    ensures StageContract(stages)
  {
    forall plan | plan in stages.plans && stages.binding(plan).Ok?
      ensures |stages.binding(plan).value.candidates| == |stages.binding(plan).value.materials|
    {
      assert B.Answers(asking.decoded(plan), asking.request(plan), stages.binding(plan).value);
    }
  }

  /** The binding is raw candidate `j` of the answer for plan `p`, whose pipeline succeeded, normalised; its spec is the
      evidence planned at position `i` for that candidate with the first material recorded for its raw position. */
  ghost predicate FromRaw(b: Binding, stages: Stages, asking: Asking, p: nat, i: nat, j: nat) {
    && p < |stages.plans| && stages.binding(stages.plans[p]).Ok? && asking.decoded(stages.plans[p]).Some?
    && var out := stages.binding(stages.plans[p]).value;
       var (raw, materials) := asking.decoded(stages.plans[p]).value;
       && PipelineSucceeds(stages, p, out) && i < |out.candidates|
       && j < |raw| && B.FirstMaterial(materials, j).Some? && b.verify.Some?
       && var c := B.NormalizeCandidate(raw[j], asking.request(stages.plans[p]));
          var material := B.NormalizeMaterial(B.FirstMaterial(materials, j).value.(candidateIndex := i));
          && out.candidates[i] == c && out.materials[i] == material && b.execution == c.execution
          && b.providerID == TrimSpace(c.providerID) && b.capabilityID == TrimSpace(c.capabilityID)
          && stages.evidence(stages.plans[p], c, i, material) == Ok(b.verify.value)
  }

  ghost predicate FromSomeRaw(b: Binding, stages: Stages, asking: Asking) {
    exists p: nat, i: nat, j: nat :: FromRaw(b, stages, asking, p, i, j)
  }

  /** Every binding an acquisition added goes back to one raw candidate of one answer. */
  lemma AddedFromRaw(b: Binding, stages: Stages, world: ProbeRunner.World, asking: Asking)
    requires FromParse(stages.binding, asking) && AddedInRun(b, stages, world)
    ensures FromSomeRaw(b, stages, asking)
  {
    var c: Candidate, p: nat, i: nat, k: nat, probe: Probe :| Added(b, stages, world, c, p, i, k, probe);
    var plan := stages.plans[p];
    var out := stages.binding(plan).value;
    assert B.Answers(asking.decoded(plan), asking.request(plan), out);
    var (raw, materials) := asking.decoded(plan).value;
    var j := B.KeptOf(raw, materials, asking.request(plan), |raw|)[i];
    assert B.Paired(raw, materials, asking.request(plan), j, i, out.candidates[i], out.materials[i]);
    assert FromRaw(b, stages, asking, p, i, j);
  }
}
