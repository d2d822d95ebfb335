/** internal/use/plan: caller inputs, the selector's patch and the generated target become the inputs of a run. */
module Planner {
  import opened Common
  import opened Text
  import opened Model
  import opened Selector

  datatype PlanError = InvalidPatch | MissingInput | ArtifactPathFailed

  /** A patch whose keys are trimmed, usable and free of caller inputs: what the selector hands over. */
  predicate CleanPatch(patch: Inputs, inputs: Inputs) {
    forall n | n in patch :: Trimmed(n) && n != "" && n != TARGET && !HasInput(inputs, n)
  }

  predicate KeptInputs(inputs: Inputs, merged: Inputs) {
    forall n | n in inputs && HasInput(inputs, n) :: n in merged && merged[n] == inputs[n]
  }

  /** The part of the patch under the keys in `done`. */
  function Part(patch: Inputs, done: set<string>): Inputs {
    map k | k in done && k in patch :: patch[k]
  }

  lemma PartOneMore(inputs: Inputs, patch: Inputs, done: set<string>, key: string)
    requires key in patch
    ensures inputs + Part(patch, done + {key}) == (inputs + Part(patch, done))[key := patch[key]]
  {
  }

  /** mergeInputs, walking the patch in any order. A clean patch is never refused and is merged as it is. */
  method MergeInputs(inputs: Inputs, patch: Inputs) returns (r: Result<Inputs, PlanError>)
    ensures CleanPatch(patch, inputs) ==> r == Ok(inputs + patch)
    ensures r.Ok? ==> KeptInputs(inputs, r.value)
    ensures r.Err? ==> r.error == InvalidPatch
    ensures r.Ok? ==> forall k | k in patch ::
      TrimSpace(k) != "" && TrimSpace(k) != "target" && !HasInput(inputs, TrimSpace(k))
  {
    var merged := inputs;
    var pending := patch.Keys;
    ghost var done: set<string> := {};
    MergedNone(inputs, patch);
    while pending != {}
      invariant done + pending == patch.Keys && done !! pending
      invariant MergedSoFar(inputs, patch, done, merged)
    {
      var key :| key in pending;
      var name := TrimSpace(key);
      if name == "" || name == TARGET || HasInput(merged, name) {
        RefusedNotClean(inputs, patch, done, merged, key);
        return Err(InvalidPatch);
      }
      MergedMore(inputs, patch, done, merged, key);
      merged := merged[name := patch[key]];
      pending := pending - {key};
      done := done + {key};
    }
    MergedAll(inputs, patch, done, merged);
    return Ok(merged);
  }

  lemma MergedNone(inputs: Inputs, patch: Inputs)
    ensures MergedSoFar(inputs, patch, {}, inputs)
  {
    assert Part(patch, {}) == map[];
    assert inputs + map[] == inputs;
  }

  lemma MergedAll(inputs: Inputs, patch: Inputs, done: set<string>, merged: Inputs)
    requires MergedSoFar(inputs, patch, done, merged) && done == patch.Keys
    ensures CleanPatch(patch, inputs) ==> merged == inputs + patch
  {
    assert Part(patch, done) == patch;
  }

  lemma RefusedNotClean(inputs: Inputs, patch: Inputs, done: set<string>, merged: Inputs, key: string)
    requires MergedSoFar(inputs, patch, done, merged) && key in patch && key !in done
    requires TrimSpace(key) == "" || TrimSpace(key) == TARGET || HasInput(merged, TrimSpace(key))
    ensures !CleanPatch(patch, inputs)
  {
    assert key !in Part(patch, done);
  }

  /** The loop after the keys in `done`. */
  ghost predicate MergedSoFar(inputs: Inputs, patch: Inputs, done: set<string>, merged: Inputs) {
    && KeptInputs(inputs, merged)
    && (forall k | k in done :: TrimSpace(k) != "" && TrimSpace(k) != "target" && !HasInput(inputs, TrimSpace(k)))
    && (CleanPatch(patch, inputs) ==> merged == inputs + Part(patch, done))
  }

  lemma MergedMore(inputs: Inputs, patch: Inputs, done: set<string>, merged: Inputs, key: string)
    requires MergedSoFar(inputs, patch, done, merged) && key in patch
    requires TrimSpace(key) != "" && TrimSpace(key) != TARGET && !HasInput(merged, TrimSpace(key))
    ensures MergedSoFar(inputs, patch, done + {key}, merged[TrimSpace(key) := patch[key]])
  {
    assert HasInput(inputs, TrimSpace(key)) ==> HasInput(merged, TrimSpace(key));
    if CleanPatch(patch, inputs) {
      PartOneMore(inputs, patch, done, key);
    }
  }

  /** The target fallback: a required target without a value becomes the artifact path, if there is one. */
  function WithTarget(inputs: Inputs, required: seq<string>, targetPath: Option<string>): (r: Option<Inputs>)
    ensures r.Some? ==> KeptInputs(inputs, r.value)
  {
    if TARGET !in required || HasInput(inputs, TARGET) then Some(inputs)
    else match targetPath
      case None => None
      case Some(path) => Some(inputs[TARGET := Str(path)])
  }

  /** Runner.Run of the planner. `targetPath` is the artifact path, or nothing when it cannot be prepared. */
  method PlanInputs(inputs: Inputs, required: seq<string>, patch: Inputs, targetPath: Option<string>)
    returns (r: Result<Inputs, PlanError>)
    ensures r.Ok? ==> HasInputs(r.value, required) && KeptInputs(inputs, r.value)
    ensures CleanPatch(patch, inputs) ==>
      var planned := WithTarget(inputs + patch, required, targetPath);
      && (r == Err(ArtifactPathFailed) <==> planned.None?)
      && (r == Err(MissingInput) <==> planned.Some? && !HasInputs(planned.value, required))
      && (r.Ok? <==> planned.Some? && HasInputs(planned.value, required))
      && (r.Ok? ==> r.value == planned.value)
      && r != Err(InvalidPatch)
    ensures CleanPatch(patch, inputs) && r.Ok? ==> Filled(r.value, inputs, patch, required, targetPath)
  {
    var merged := MergeInputs(inputs, patch);
    if merged.Err? {
      return Err(merged.error);
    }
    var planned := WithTarget(merged.value, required, targetPath);
    if planned.None? {
      return Err(ArtifactPathFailed);
    }
    var missing := MissingInputs(required, planned.value);
    if |missing| > 0 {
      assert missing[0] in missing;
      return Err(MissingInput);
    }
    if CleanPatch(patch, inputs) {
      TargetFilled(inputs, patch, required, targetPath);
    }
    return Ok(planned.value);
  }

  /** Name by name: the patch and the caller supply all but the target; that one is the path exactly when it is required
      and the caller left it open. */
  ghost predicate Filled(planned: Inputs, inputs: Inputs, patch: Inputs, required: seq<string>, targetPath: Option<string>) {
    && (forall n | n in planned && n != "target" ::
          if n in patch then planned[n] == patch[n] else n in inputs && planned[n] == inputs[n])
    && (forall n | n in inputs || n in patch :: n in planned)
    && (if "target" in required && !HasInput(inputs, "target")
        then targetPath.Some? && "target" in planned && planned["target"] == Str(targetPath.value)
        else "target" in planned <==> "target" in inputs)
    && ("target" in inputs && HasInput(inputs, "target") ==> planned["target"] == inputs["target"])
  }

  lemma TargetFilled(inputs: Inputs, patch: Inputs, required: seq<string>, targetPath: Option<string>)
    requires CleanPatch(patch, inputs)
    ensures var planned := WithTarget(inputs + patch, required, targetPath);
      planned.Some? ==> Filled(planned.value, inputs, patch, required, targetPath)
  {
    assert TARGET !in patch;
    assert HasInput(inputs + patch, TARGET) <==> HasInput(inputs, TARGET);
  }

  /** With a usable artifact path, planning a clean patch succeeds exactly when caller and patch together supply
      every required input other than the target. */
  lemma PlanCompleteIff(inputs: Inputs, required: seq<string>, path: string)
    requires path != ""
    ensures WithTarget(inputs, required, Some(path)).Some?
    ensures HasInputs(WithTarget(inputs, required, Some(path)).value, required) <==>
      forall n | n in required && n != TARGET :: HasInput(inputs, n)
  {
    var planned := WithTarget(inputs, required, Some(path)).value;
    forall n | n != TARGET ensures HasInput(planned, n) <==> HasInput(inputs, n) {
    }
    assert Str(path) != Str("");
    assert TARGET in required ==> HasInput(planned, TARGET);
  }
}
