/** internal/proposal/binding/parse.go: the candidates an answer of the binding stage contributes, each paired with
    the first probe material recorded for its position. */
module BindingStage {
  import opened Common
  import opened Text
  import opened Model
  import opened StageTrace
  import P = Proposal

  /** The request, and the text functions of the library the stage relies on. */
  datatype Request = Request(
    providerID: string, plan: P.CapabilityPlan, maxCandidates: int,
    lower: string -> string, trimKind: Kind -> Kind, canonical: Execution -> Result<string, string>)

  datatype ParseError = NotJSON | NoMaterial | NoStdoutInput | BadStdoutInput | NoCandidates | Misaligned

  datatype Reason = NoReason | MissingIDs | NotCanonical | MissingMaterial | MissingStdout | InvalidStdout | Duplicate

  function NormalizeProviderID(id: string, lower: string -> string): string {
    var trimmed := TrimSpace(id);
    if lower(trimmed) == "optional" || lower(trimmed) == "same as request provider" then "" else trimmed
  }

  function NormalizeSpec(spec: map<string, Value>): map<string, Value> {
    if SPEC_STDOUT_PATH_INPUT in spec
      && (spec[SPEC_STDOUT_PATH_INPUT].Null? || (spec[SPEC_STDOUT_PATH_INPUT].Str? && Blank(spec[SPEC_STDOUT_PATH_INPUT].text)))
    then spec - {SPEC_STDOUT_PATH_INPUT} else spec
  }

  function OrElse(s: string, fallback: string): string {
    if s == "" then fallback else s
  }

  function NormalizeCandidate(c: Candidate, req: Request): Candidate {
    c.(providerID := OrElse(NormalizeProviderID(c.providerID, req.lower), req.providerID),
       capabilityID := OrElse(TrimSpace(c.capabilityID), req.plan.capabilityID),
       description := OrElse(TrimSpace(c.description), req.plan.description),
       source := TrimSpace(c.source),
       execution := Execution(req.trimKind(c.execution.kind), NormalizeSpec(c.execution.spec)))
  }

  function NormalizeMaterial(m: P.Material): P.Material {
    m.(fixtures := seq(|m.fixtures|, i requires 0 <= i < |m.fixtures| =>
         m.fixtures[i].(input := TrimSpace(m.fixtures[i].input), filename := TrimSpace(m.fixtures[i].filename))))
  }

  /** The first material recorded for raw position `i`. */
  function FirstMaterial(materials: seq<P.Material>, i: int): Option<P.Material> {
    if materials == [] then None
    else
      var before := FirstMaterial(materials[..|materials| - 1], i);
      if before.None? && materials[|materials| - 1].candidateIndex == i then Some(materials[|materials| - 1]) else before
  }

  lemma {:induction false} NoMaterialIff(materials: seq<P.Material>, i: int)
    ensures FirstMaterial(materials, i).None? <==> forall m | m in materials :: m.candidateIndex != i
  {
    if materials != [] {
      var n := |materials| - 1;
      NoMaterialIff(materials[..n], i);
      assert materials == materials[..n] + [materials[n]];
    }
  }

  lemma {:induction false} FirstMaterialAt(materials: seq<P.Material>, i: int) returns (j: int)
    requires FirstMaterial(materials, i).Some?
    ensures IsFirstFor(materials, i, j) && materials[j] == FirstMaterial(materials, i).value
  {
    var n := |materials| - 1;
    if FirstMaterial(materials[..n], i).Some? {
      j := FirstMaterialAt(materials[..n], i);
    } else {
      j := n;
      NoMaterialIff(materials[..n], i);
      assert forall l | 0 <= l < n :: materials[l] in materials[..n];
    }
  }

  lemma FirstMaterialIsFirst(materials: seq<P.Material>, i: int)
    ensures FirstMaterial(materials, i).None? <==> forall m | m in materials :: m.candidateIndex != i
    ensures FirstMaterial(materials, i).Some? ==>
      exists j :: IsFirstFor(materials, i, j) && materials[j] == FirstMaterial(materials, i).value
  {
    NoMaterialIff(materials, i);
    if FirstMaterial(materials, i).Some? {
      var j := FirstMaterialAt(materials, i);
    }
  }

  predicate IsFirstFor(materials: seq<P.Material>, i: int, j: int) {
    && 0 <= j < |materials| && materials[j].candidateIndex == i
    && forall l | 0 <= l < j :: materials[l].candidateIndex != i
  }

  method MaterialIndex(materials: seq<P.Material>) returns (r: map<int, P.Material>)
    ensures forall i :: i in r <==> i >= 0 && FirstMaterial(materials, i).Some?
    ensures forall i | i in r :: Some(r[i]) == FirstMaterial(materials, i)
  {
    r := map[];
    for k := 0 to |materials|
      invariant forall i :: i in r <==> i >= 0 && FirstMaterial(materials[..k], i).Some?
      invariant forall i | i in r :: Some(r[i]) == FirstMaterial(materials[..k], i)
    {
      assert materials[..k + 1][..k] == materials[..k];
      var material := materials[k];
      if material.candidateIndex >= 0 && material.candidateIndex !in r {
        r := r[material.candidateIndex := material];
      }
    }
    assert materials[..|materials|] == materials;
  }

  function StdoutPathInput(c: Candidate): Option<string> {
    if SPEC_STDOUT_PATH_INPUT in c.execution.spec && c.execution.spec[SPEC_STDOUT_PATH_INPUT].Str?
      && !Blank(c.execution.spec[SPEC_STDOUT_PATH_INPUT].text)
    then Some(TrimSpace(c.execution.spec[SPEC_STDOUT_PATH_INPUT].text)) else None
  }

  predicate MissingStdoutPathInput(c: Candidate, material: P.Material) {
    StdoutPathInput(c).Some? && StdoutPathInput(c).value !in material.inputs
  }

  predicate InvalidStdoutPathInput(c: Candidate, lower: string -> string) {
    var name := StdoutPathInput(c);
    name.Some? && (lower(name.value) == "source" || lower(name.value) == "input" || lower(name.value) == "stdin")
  }

  /** Why a normalised candidate cannot be used, before duplicates and the limit are looked at. */
  function Unusable(c: Candidate, material: Option<P.Material>, req: Request): Reason {
    if c.providerID == "" || c.capabilityID == "" || c.execution.kind.NoKind? then MissingIDs
    else if req.canonical(c.execution).Err? then NotCanonical
    else if material.None? then MissingMaterial
    else if MissingStdoutPathInput(c, material.value) then MissingStdout
    else if InvalidStdoutPathInput(c, req.lower) then InvalidStdout
    else NoReason
  }

  /** The text the stage dedupes by, for a normalised candidate that can be used. */
  function IdentityOf(c: Candidate, material: Option<P.Material>, req: Request): Mark<string> {
    if Unusable(c, material, req) == NoReason
    then In(c.providerID + "|" + c.capabilityID + "|" + req.canonical(c.execution).value) else Out(Skip)
  }

  function Identity(input: seq<Candidate>, materials: seq<P.Material>, req: Request, i: nat): Mark<string>
    requires i < |input|
  {
    IdentityOf(NormalizeCandidate(input[i], req), FirstMaterial(materials, i), req)
  }

  function Identities(input: seq<Candidate>, materials: seq<P.Material>, req: Request, n: nat): (r: seq<Mark<string>>)
    requires n <= |input|
    ensures |r| == n && forall i | 0 <= i < n :: r[i] == Identity(input, materials, req, i)
  {
    seq(n, i requires 0 <= i < n => Identity(input, materials, req, i))
  }

  /** Output position `k` comes from raw position `i`: that candidate, and the first material recorded for it. */
  predicate Paired(input: seq<Candidate>, materials: seq<P.Material>, req: Request, i: nat, k: nat, c: Candidate, m: P.Material)
    requires i < |input|
  {
    && c == NormalizeCandidate(input[i], req)
    && FirstMaterial(materials, i).Some?
    && m == NormalizeMaterial(FirstMaterial(materials, i).value.(candidateIndex := k))
  }

  predicate AllPaired(
    input: seq<Candidate>, materials: seq<P.Material>, req: Request, kept: seq<nat>, out: P.BindingOutput)
  {
    && |out.candidates| == |out.materials| == |kept|
    && forall k | 0 <= k < |kept| ::
         kept[k] < |input| && Paired(input, materials, req, kept[k], k, out.candidates[k], out.materials[k])
  }

  function KeptOf(input: seq<Candidate>, materials: seq<P.Material>, req: Request, n: nat): seq<nat>
    requires n <= |input|
  {
    Kept(Identities(input, materials, req, n), req.maxCandidates)
  }

  /** The loop after `n` raw candidates. */
  predicate After(
    input: seq<Candidate>, materials: seq<P.Material>, req: Request, n: nat,
    out: P.BindingOutput, seen: set<string>, items: seq<Decision>)
  {
    && n <= |input|
    && items == Decisions(Identities(input, materials, req, n), req.maxCandidates, Skip)
    && AllPaired(input, materials, req, KeptOf(input, materials, req, n), out)
    && SeenIs(Identities(input, materials, req, n), KeptOf(input, materials, req, n), seen)
  }

  function Extended(out: P.BindingOutput, c: Candidate, m: P.Material): P.BindingOutput {
    P.BindingOutput(out.candidates + [c], out.materials + [NormalizeMaterial(m.(candidateIndex := |out.candidates|))])
  }

  method Normalize(input: seq<Candidate>, materials: seq<P.Material>, req: Request)
    returns (out: P.BindingOutput, stage: Stage, reasons: set<Reason>)
    ensures AllPaired(input, materials, req, KeptOf(input, materials, req, |input|), out)
    ensures Tallied(stage) && |stage.items| == stage.raw == |input|
    ensures stage.items == Decisions(Identities(input, materials, req, |input|), req.maxCandidates, Skip)
    ensures stage.selected == stage.keep == |out.candidates|
    ensures stage.keep + stage.defer + stage.skip == stage.raw
    ensures Collected(input, materials, req, |input|, reasons)
  {
    var byRawIndex := MaterialIndex(materials);
    stage := NewStage(|input|);
    out, reasons := P.BindingOutput([], []), {};
    var seen: set<string> := {};
    for index := 0 to |input|
      invariant After(input, materials, req, index, out, seen, stage.items)
      invariant Tallied(stage) && |stage.items| == index && stage.raw == |input| && stage.keep == |out.candidates|
      invariant Collected(input, materials, req, index, reasons)
    {
      var candidate := NormalizeCandidate(input[index], req);
      CollectedMore(input, materials, req, index, reasons);
      var material := if index in byRawIndex then Some(byRawIndex[index]) else None;
      var reason, identity, decision := Weigh(candidate, material, req, seen, |out.candidates|);
      Advance(input, materials, req, index, out, seen, stage.items);
      if decision == Keep {
        seen := seen + {identity};
        out := Extended(out, candidate, material.value);
      } else if decision == Skip {
        reasons := reasons + {reason};
      }
      stage := Recorded(stage, decision);
    }
    ItemsConserved(stage);
    stage := stage.(selected := |out.candidates|);
  }

  function UnusableAt(input: seq<Candidate>, materials: seq<P.Material>, req: Request, i: nat): Reason
    requires i < |input|
  {
    Unusable(NormalizeCandidate(input[i], req), FirstMaterial(materials, i), req)
  }

  /** Some of the first `n` raw candidates cannot be used for this reason. */
  predicate SomeUnusable(input: seq<Candidate>, materials: seq<P.Material>, req: Request, n: nat, reason: Reason)
    requires n <= |input|
  {
    n > 0 && (SomeUnusable(input, materials, req, n - 1, reason) || UnusableAt(input, materials, req, n - 1) == reason)
  }

  /** The reasons collected over the first `n` raw candidates. */
  predicate Collected(input: seq<Candidate>, materials: seq<P.Material>, req: Request, n: nat, reasons: set<Reason>)
    requires n <= |input|
  {
    && (MissingMaterial in reasons <==> SomeUnusable(input, materials, req, n, MissingMaterial))
    && (MissingStdout in reasons <==> SomeUnusable(input, materials, req, n, MissingStdout))
    && (InvalidStdout in reasons <==> SomeUnusable(input, materials, req, n, InvalidStdout))
  }

  lemma CollectedMore(
    input: seq<Candidate>, materials: seq<P.Material>, req: Request, n: nat, reasons: set<Reason>)
    requires n < |input| && Collected(input, materials, req, n, reasons)
    ensures UnusableAt(input, materials, req, n) == NoReason ==>
      Collected(input, materials, req, n + 1, reasons) && Collected(input, materials, req, n + 1, reasons + {Duplicate})
    ensures Collected(input, materials, req, n + 1, reasons + {UnusableAt(input, materials, req, n)})
  {
  }

  /** What raw candidate `n` counts for: its identity is new and there is room. */
  predicate Taken(input: seq<Candidate>, materials: seq<P.Material>, req: Request, n: nat, seen: set<string>, count: nat)
    requires n < |input|
  {
    var id := Identity(input, materials, req, n);
    id.In? && id.value !in seen && !(0 < req.maxCandidates <= count)
  }

  lemma AdvanceTaken(
    input: seq<Candidate>, materials: seq<P.Material>, req: Request, n: nat,
    out: P.BindingOutput, seen: set<string>, items: seq<Decision>)
    requires n < |input| && After(input, materials, req, n, out, seen, items)
    requires Taken(input, materials, req, n, seen, |out.candidates|)
    ensures FirstMaterial(materials, n).Some?
    ensures After(input, materials, req, n + 1,
      Extended(out, NormalizeCandidate(input[n], req), FirstMaterial(materials, n).value),
      seen + {Identity(input, materials, req, n).value}, items + [Keep])
  {
    NextItems(input, materials, req, n, seen);
    NextKept(input, materials, req, n, seen);
    TakenPaired(input, materials, req, n, out, seen);
  }

  lemma TakenPaired(
    input: seq<Candidate>, materials: seq<P.Material>, req: Request, n: nat, out: P.BindingOutput, seen: set<string>)
    requires n < |input| && AllPaired(input, materials, req, KeptOf(input, materials, req, n), out)
    requires Taken(input, materials, req, n, seen, |out.candidates|)
    ensures FirstMaterial(materials, n).Some?
    ensures AllPaired(input, materials, req, KeptOf(input, materials, req, n) + [n],
      Extended(out, NormalizeCandidate(input[n], req), FirstMaterial(materials, n).value))
  {
    PairedSnoc(input, materials, req, KeptOf(input, materials, req, n), out, n);
  }

  lemma AdvancePassed(
    input: seq<Candidate>, materials: seq<P.Material>, req: Request, n: nat,
    out: P.BindingOutput, seen: set<string>, items: seq<Decision>)
    requires n < |input| && After(input, materials, req, n, out, seen, items)
    requires !Taken(input, materials, req, n, seen, |out.candidates|)
    ensures var id := Identity(input, materials, req, n);
      After(input, materials, req, n + 1, out, seen, items + [if id.Out? || id.value in seen then Skip else Defer])
  {
    NextItems(input, materials, req, n, seen);
    NextKept(input, materials, req, n, seen);
  }

  lemma Advance(
    input: seq<Candidate>, materials: seq<P.Material>, req: Request, n: nat,
    out: P.BindingOutput, seen: set<string>, items: seq<Decision>)
    requires n < |input| && After(input, materials, req, n, out, seen, items)
    ensures var id, material := Identity(input, materials, req, n), FirstMaterial(materials, n);
      if id.In? && id.value !in seen && !(0 < req.maxCandidates <= |out.candidates|) then
        && material.Some?
        && After(input, materials, req, n + 1,
             Extended(out, NormalizeCandidate(input[n], req), material.value), seen + {id.value}, items + [Keep])
      else
        After(input, materials, req, n + 1, out, seen, items + [if id.Out? || id.value in seen then Skip else Defer])
  {
    if Taken(input, materials, req, n, seen, |out.candidates|) {
      AdvanceTaken(input, materials, req, n, out, seen, items);
    } else {
      AdvancePassed(input, materials, req, n, out, seen, items);
    }
  }

  lemma NextItems(input: seq<Candidate>, materials: seq<P.Material>, req: Request, n: nat, seen: set<string>)
    requires n < |input| && SeenIs(Identities(input, materials, req, n), KeptOf(input, materials, req, n), seen)
    ensures var id := Identity(input, materials, req, n);
      Decisions(Identities(input, materials, req, n + 1), req.maxCandidates, Skip)
        == Decisions(Identities(input, materials, req, n), req.maxCandidates, Skip)
           + [if id.Out? then id.decision else if id.value in seen then Skip
              else if Full(KeptOf(input, materials, req, n), req.maxCandidates) then Defer else Keep]
  {
    IdentitiesSnoc(input, materials, req, n);
    DecisionsSnoc(Identities(input, materials, req, n), Identity(input, materials, req, n), req.maxCandidates, Skip, seen);
  }

  lemma NextKept(input: seq<Candidate>, materials: seq<P.Material>, req: Request, n: nat, seen: set<string>)
    requires n < |input| && SeenIs(Identities(input, materials, req, n), KeptOf(input, materials, req, n), seen)
    ensures var id, kept := Identity(input, materials, req, n), KeptOf(input, materials, req, n);
      var taken := id.In? && id.value !in seen && !Full(kept, req.maxCandidates);
      && KeptOf(input, materials, req, n + 1) == (if taken then kept + [n] else kept)
      && SeenIs(Identities(input, materials, req, n + 1), KeptOf(input, materials, req, n + 1),
           if taken then seen + {id.value} else seen)
  {
    IdentitiesSnoc(input, materials, req, n);
    KeptStep(Identities(input, materials, req, n), KeptOf(input, materials, req, n), seen,
      Identity(input, materials, req, n), req.maxCandidates);
  }

  /** The switch in the loop: unusable, duplicate, over the limit, or kept. */
  method Weigh(candidate: Candidate, material: Option<P.Material>, req: Request, seen: set<string>, taken: nat)
    returns (reason: Reason, identity: string, decision: Decision)
    ensures var id := IdentityOf(candidate, material, req);
      && (decision == Skip <==> id.Out? || id.value in seen)
      && (decision == Keep <==> id.In? && id.value !in seen && !(0 < req.maxCandidates <= taken))
      && (decision == Keep ==> identity == id.value && material.Some?)
      && (decision == Skip ==> reason == if id.Out? then Unusable(candidate, material, req) else Duplicate)
      && (id.Out? <==> Unusable(candidate, material, req) != NoReason)
  {
    reason, identity, decision := Unusable(candidate, material, req), "", Skip;
    if reason == NoReason {
      identity := candidate.providerID + "|" + candidate.capabilityID + "|" + req.canonical(candidate.execution).value;
      if identity in seen {
        reason := Duplicate;
      } else if req.maxCandidates > 0 && taken >= req.maxCandidates {
        decision := Defer;
      } else {
        decision := Keep;
      }
    }
  }

  lemma IdentitiesSnoc(input: seq<Candidate>, materials: seq<P.Material>, req: Request, n: nat)
    requires n < |input|
    ensures Identities(input, materials, req, n + 1) == Identities(input, materials, req, n) + [Identity(input, materials, req, n)]
  {
    Snoc(Identities(input, materials, req, n + 1), Identities(input, materials, req, n), Identity(input, materials, req, n));
  }

  lemma PairedSnoc(
    input: seq<Candidate>, materials: seq<P.Material>, req: Request, kept: seq<nat>, out: P.BindingOutput, i: nat)
    requires i < |input| && AllPaired(input, materials, req, kept, out) && FirstMaterial(materials, i).Some?
    ensures AllPaired(input, materials, req, kept + [i], P.BindingOutput(
      out.candidates + [NormalizeCandidate(input[i], req)],
      out.materials + [NormalizeMaterial(FirstMaterial(materials, i).value.(candidateIndex := |kept|))]))
  {
  }

  /** An answer of the stage: the kept candidates of what was decoded, with their materials. */
  predicate Answers(decoded: Option<(seq<Candidate>, seq<P.Material>)>, req: Request, out: P.BindingOutput) {
    decoded.Some? && AllPaired(decoded.value.0, decoded.value.1, req, KeptOf(decoded.value.0, decoded.value.1, req, |decoded.value.0|), out)
  }

  /** Parse: with any candidate kept the two lists agree in length, so the check of that after the loop never fires. */
  method Parse(decoded: Option<(seq<Candidate>, seq<P.Material>)>, req: Request)
    returns (r: Result<P.BindingOutput, ParseError>)
    ensures r.Ok? ==> Answers(decoded, req, r.value) && r.value.candidates != []
    ensures r.Ok? <==> decoded.Some? && AnyIn(Identities(decoded.value.0, decoded.value.1, req, |decoded.value.0|))
    ensures r != Err(Misaligned)
    ensures r == Err(NotJSON) <==> decoded.None?
    ensures r.Err? && decoded.Some? ==>
      var input, materials := decoded.value.0, decoded.value.1;
      r.error ==
        if SomeUnusable(input, materials, req, |input|, MissingMaterial) then NoMaterial
        else if SomeUnusable(input, materials, req, |input|, MissingStdout) then NoStdoutInput
        else if SomeUnusable(input, materials, req, |input|, InvalidStdout) then BadStdoutInput else NoCandidates
  {
    if decoded.None? {
      return Err(NotJSON);
    }
    var out, _, reasons := Normalize(decoded.value.0, decoded.value.1, req);
    AnyInKept(Identities(decoded.value.0, decoded.value.1, req, |decoded.value.0|), req.maxCandidates);
    if out.candidates == [] {
      if decoded.value.0 != [] && MissingMaterial in reasons {
        return Err(NoMaterial);
      }
      if decoded.value.0 != [] && MissingStdout in reasons {
        return Err(NoStdoutInput);
      }
      if decoded.value.0 != [] && InvalidStdout in reasons {
        return Err(BadStdoutInput);
      }
      return Err(NoCandidates);
    }
    if |out.materials| != |out.candidates| {
      return Err(Misaligned);
    }
    return Ok(out);
  }

  /** What a candidate leaves open is filled in from the request: the provider when it is blank or one of two
      placeholders, capability id and description when they are blank. An empty standard output entry is dropped. */
  lemma FilledIn(c: Candidate, req: Request)
    ensures var n := NormalizeCandidate(c, req);
      && n.providerID == (if Blank(c.providerID) || req.lower(TrimSpace(c.providerID)) in {"optional", "same as request provider"}
                          then req.providerID else TrimSpace(c.providerID))
      && n.capabilityID == (if Blank(c.capabilityID) then req.plan.capabilityID else TrimSpace(c.capabilityID))
      && n.description == (if Blank(c.description) then req.plan.description else TrimSpace(c.description))
      && n.execution.kind == req.trimKind(c.execution.kind)
      && (forall key | key != "stdout_path_input" ::
            (key in n.execution.spec <==> key in c.execution.spec)
            && (key in c.execution.spec ==> n.execution.spec[key] == c.execution.spec[key]))
      && ("stdout_path_input" in n.execution.spec <==>
            "stdout_path_input" in c.execution.spec
            && var entry := c.execution.spec["stdout_path_input"]; entry != Null && !(entry.Str? && Blank(entry.text)))
  {
  }

  /** A material is passed on with its inputs and file contents; the names in its fixtures are trimmed. */
  lemma MaterialCleaned(m: P.Material)
    ensures var n := NormalizeMaterial(m);
      && n.candidateIndex == m.candidateIndex && n.inputs == m.inputs && |n.fixtures| == |m.fixtures|
      && forall i | 0 <= i < |m.fixtures| ::
           && n.fixtures[i].input == TrimSpace(m.fixtures[i].input)
           && n.fixtures[i].filename == TrimSpace(m.fixtures[i].filename)
           && n.fixtures[i].content == m.fixtures[i].content
  {
  }

  /** The input a candidate's standard output goes to. */
  predicate WritesTo(c: Candidate, name: string) {
    && "stdout_path_input" in c.execution.spec && c.execution.spec["stdout_path_input"].Str?
    && name != "" && TrimSpace(c.execution.spec["stdout_path_input"].text) == name
  }

  /** Nothing is missing of raw candidate `i`, as filled in as `c`, with the first material `m` recorded for it. */
  ghost predicate Complete(c: Candidate, m: P.Material, req: Request) {
    && c.providerID != "" && c.capabilityID != "" && !c.execution.kind.NoKind? && req.canonical(c.execution).Ok?
    && forall name | WritesTo(c, name) :: name in m.inputs && req.lower(name) !in {"source", "input", "stdin"}
  }

  lemma CompleteIff(c: Candidate, m: P.Material, req: Request)
    ensures IdentityOf(c, Some(m), req).In? <==> Complete(c, m, req)
    ensures Complete(c, m, req) ==>
      IdentityOf(c, Some(m), req).value == c.providerID + "|" + c.capabilityID + "|" + req.canonical(c.execution).value
  {
    forall name ensures WritesTo(c, name) <==> StdoutPathInput(c) == Some(name) {
    }
    if Complete(c, m, req) && StdoutPathInput(c).Some? {
      assert WritesTo(c, StdoutPathInput(c).value);
    }
  }

  /** While there is room every complete candidate that has a material is answered, or one with its ids and execution
      is. */
  lemma CompleteIsAnswered(
    input: seq<Candidate>, materials: seq<P.Material>, req: Request, out: P.BindingOutput, i: nat, m: P.Material)
    requires AllPaired(input, materials, req, KeptOf(input, materials, req, |input|), out)
    requires i < |input| && FirstMaterial(materials, i) == Some(m) && Complete(NormalizeCandidate(input[i], req), m, req)
    ensures 0 < req.maxCandidates <= |out.candidates| || exists k | 0 <= k < |out.candidates| ::
      var c, d := out.candidates[k], NormalizeCandidate(input[i], req);
      req.canonical(c.execution).Ok?
      && c.providerID + "|" + c.capabilityID + "|" + req.canonical(c.execution).value
        == d.providerID + "|" + d.capabilityID + "|" + req.canonical(d.execution).value
  {
    var ids, kept := Identities(input, materials, req, |input|), KeptOf(input, materials, req, |input|);
    CompleteIff(NormalizeCandidate(input[i], req), m, req);
    assert ids[i] == Identity(input, materials, req, i);
    KeyIsKept(ids, req.maxCandidates, i);
    if !Full(kept, req.maxCandidates) {
      var k :| 0 <= k < |kept| && kept[k] < |ids| && ids[kept[k]] == ids[i];
      assert Paired(input, materials, req, kept[k], k, out.candidates[k], out.materials[k]);
      assert ids[kept[k]] == Identity(input, materials, req, kept[k]);
      CompleteIff(out.candidates[k], FirstMaterial(materials, kept[k]).value, req);
    }
  }

  /** What an answer of the stage looks like from outside: usable, pairwise different candidates, each with the first
      material recorded for its raw position, which has the input its stdout path names. */
  lemma AnswerIsUsable(input: seq<Candidate>, materials: seq<P.Material>, req: Request, out: P.BindingOutput, k: nat)
    requires AllPaired(input, materials, req, KeptOf(input, materials, req, |input|), out) && k < |out.candidates|
    ensures |out.materials| == |out.candidates| && out.materials[k].candidateIndex == k
    ensures var c := out.candidates[k];
      && c.providerID != "" && c.capabilityID != "" && !c.execution.kind.NoKind? && req.canonical(c.execution).Ok?
      && (StdoutPathInput(c).Some? ==>
            && StdoutPathInput(c).value in out.materials[k].inputs
            && req.lower(StdoutPathInput(c).value) !in {"source", "input", "stdin"})
    ensures forall l | k < l < |out.candidates| && req.canonical(out.candidates[l].execution).Ok? ::
      var c, d := out.candidates[k], out.candidates[l];
      (c.providerID, c.capabilityID, req.canonical(c.execution).value) != (d.providerID, d.capabilityID, req.canonical(d.execution).value)
    ensures 0 < req.maxCandidates ==> |out.candidates| <= req.maxCandidates
  {
    var ids, kept := Identities(input, materials, req, |input|), KeptOf(input, materials, req, |input|);
    KeptExact(ids, req.maxCandidates);
    assert ids[kept[k]].In? && ids[kept[k]] == Identity(input, materials, req, kept[k]);
    forall l | k < l < |out.candidates| && req.canonical(out.candidates[l].execution).Ok?
      ensures var c, d := out.candidates[k], out.candidates[l];
        (c.providerID, c.capabilityID, req.canonical(c.execution).value) != (d.providerID, d.capabilityID, req.canonical(d.execution).value)
    {
      assert ids[kept[k]] != ids[kept[l]] && ids[kept[l]].In? && ids[kept[l]] == Identity(input, materials, req, kept[l]);
    }
  }
}
