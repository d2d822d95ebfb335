/** internal/run/resolve and internal/run: a formal run looks its binding up again and records what happened. */
module Resolver {
  import opened Common
  import opened Text
  import opened Model
  import opened ExecuteInputs
  import opened Selector
  import opened Check

  datatype ResolveRequest = ResolveRequest(bindingID: string, providerID: string, inputs: Inputs, minLevel: Level)

  datatype ResolveError = BindingNotFound | BadExecution(error: ExecError)

  predicate Eligible(b: Binding, req: ResolveRequest) {
    && b.state == Promoted
    && (TrimSpace(req.bindingID) != "" ==> b.id == TrimSpace(req.bindingID))
    && ProviderWanted(b.providerID, req.providerID)
    && (req.minLevel != NoLevel ==> b.verify.Some? && LevelRank(b.verify.value.level) >= LevelRank(req.minLevel))
  }

  /** What one binding is to a request. */
  datatype Look = Unfit | BadSpec(error: ExecError) | Lacking(required: seq<string>) | Ready(required: seq<string>)

  /** How the search looks at bindings. */
  type Eye = Binding -> Look

  ghost function LookAt(b: Binding, req: ResolveRequest): Look {
    if !Eligible(b, req) then Unfit
    else match RequiredNames(b.execution)
      case Err(error) => BadSpec(error)
      case Ok(required) => if HasInputs(req.inputs, required) then Ready(required) else Lacking(required)
  }

  ghost function EyeOf(req: ResolveRequest): Eye {
    (b: Binding) => LookAt(b, req)
  }

  method Inspect(b: Binding, req: ResolveRequest) returns (look: Look)
    ensures look == EyeOf(req)(b)
  {
    if !Eligible(b, req) {
      return Unfit;
    }
    var required := RequiredInputs(b.execution);
    match required
    case Err(error) => return BadSpec(error);
    case Ok(names) => return if HasInputs(req.inputs, names) then Ready(names) else Lacking(names);
  }

  datatype Resolution = Resolution(binding: Binding, required: seq<string>)

  /** None of the first `n` bindings ends the search. */
  predicate GoesOn(bindings: seq<Binding>, n: nat, eye: Eye)
    requires n <= |bindings|
  {
    forall j | 0 <= j < n :: eye(bindings[j]).Unfit? || eye(bindings[j]).Lacking?
  }

  predicate NoneFit(bindings: seq<Binding>, n: nat, eye: Eye)
    requires n <= |bindings|
  {
    forall j | 0 <= j < n :: eye(bindings[j]).Unfit?
  }

  /** The search ends at `i` with this result: a binding with all inputs there, or one whose requirements cannot be
      read; or, when nothing ends it, the first fit binding. */
  predicate EndsAt(bindings: seq<Binding>, eye: Eye, i: nat, r: Result<Resolution, ResolveError>)
    requires i < |bindings|
  {
    match eye(bindings[i])
    case Unfit => false
    case BadSpec(error) => GoesOn(bindings, i, eye) && r == Err(BadExecution(error))
    case Ready(required) => GoesOn(bindings, i, eye) && r == Ok(Resolution(bindings[i], required))
    case Lacking(required) =>
      GoesOn(bindings, |bindings|, eye) && NoneFit(bindings, i, eye) && r == Ok(Resolution(bindings[i], required))
  }

  /** What a search comes to: the first eligible binding whose inputs are all there, else the first eligible one. An
      eligible binding whose requirements cannot be read ends the search. */
  predicate Found(bindings: seq<Binding>, eye: Eye, r: Result<Resolution, ResolveError>) {
    if r == Err(BindingNotFound) then NoneFit(bindings, |bindings|, eye)
    else exists i | 0 <= i < |bindings| :: EndsAt(bindings, eye, i, r)
  }

  ghost predicate Resolved(bindings: seq<Binding>, req: ResolveRequest, r: Result<Resolution, ResolveError>) {
    Found(bindings, EyeOf(req), r)
  }

  /** That settles the result. */
  lemma ResolvedUnique(
    bindings: seq<Binding>, eye: Eye, r: Result<Resolution, ResolveError>, q: Result<Resolution, ResolveError>)
    requires Found(bindings, eye, r) && Found(bindings, eye, q)
    ensures r == q
  {
    if r != Err(BindingNotFound) && q != Err(BindingNotFound) {
      var i :| 0 <= i < |bindings| && EndsAt(bindings, eye, i, r);
      var j :| 0 <= j < |bindings| && EndsAt(bindings, eye, j, q);
      assert i == j;
    }
  }

  /** The loop after `n` bindings: nothing ended the search, and `first` is the first fit binding, at `at`. */
  predicate Searching(bindings: seq<Binding>, eye: Eye, n: nat, first: Option<Resolution>, at: nat) {
    && n <= |bindings| && GoesOn(bindings, n, eye)
    && match first
       case None => NoneFit(bindings, n, eye)
       case Some(r) => at < n && NoneFit(bindings, at, eye) && r.binding == bindings[at] && eye(bindings[at]) == Lacking(r.required)
  }

  lemma SearchingOn(bindings: seq<Binding>, eye: Eye, n: nat, first: Option<Resolution>, at: nat)
    requires Searching(bindings, eye, n, first, at) && n < |bindings|
    ensures eye(bindings[n]).Unfit? || (eye(bindings[n]).Lacking? && first.Some?) ==> Searching(bindings, eye, n + 1, first, at)
    ensures eye(bindings[n]).Lacking? && first.None? ==>
      Searching(bindings, eye, n + 1, Some(Resolution(bindings[n], eye(bindings[n]).required)), n)
    ensures eye(bindings[n]).BadSpec? ==> Found(bindings, eye, Err(BadExecution(eye(bindings[n]).error)))
    ensures eye(bindings[n]).Ready? ==> Found(bindings, eye, Ok(Resolution(bindings[n], eye(bindings[n]).required)))
  {
    match eye(bindings[n])
    case BadSpec(error) => assert EndsAt(bindings, eye, n, Err(BadExecution(error)));
    case Ready(required) => assert EndsAt(bindings, eye, n, Ok(Resolution(bindings[n], required)));
    case _ =>
  }

  lemma SearchOver(bindings: seq<Binding>, eye: Eye, first: Option<Resolution>, at: nat)
    requires Searching(bindings, eye, |bindings|, first, at)
    ensures Found(bindings, eye, if first.Some? then Ok(first.value) else Err(BindingNotFound))
  {
    if first.Some? {
      assert EndsAt(bindings, eye, at, Ok(first.value));
    }
  }

  /** A request and the binding it gets: promoted, the one asked for, from the provider asked for, at the level asked
      for. */
  predicate Serves(b: Binding, bindingID: string, providerID: string, minLevel: Level) {
    && b.state == Promoted
    && (Blank(bindingID) || b.id == TrimSpace(bindingID))
    && (Blank(providerID) || b.providerID == TrimSpace(providerID))
    && (minLevel == NoLevel || (b.verify.Some? && LevelRank(b.verify.value.level) >= LevelRank(minLevel)))
  }

  /** The result in the words of the request. It asks for exactly the inputs its execution refers to, and leaves one
      open only if every binding that serves does. */
  ghost predicate ServesRequest(bindings: seq<Binding>, req: ResolveRequest, r: Result<Resolution, ResolveError>) {
    && (r == Err(BindingNotFound) <==> forall b | b in bindings :: !Serves(b, req.bindingID, req.providerID, req.minLevel))
    && (r.Ok? ==>
         && r.value.binding in bindings && Serves(r.value.binding, req.bindingID, req.providerID, req.minLevel)
         && (forall n :: n in r.value.required <==> AsksFor(r.value.binding.execution, n))
         && (HasInputs(req.inputs, r.value.required) ||
             forall b | b in bindings && Serves(b, req.bindingID, req.providerID, req.minLevel) ::
               exists n :: AsksFor(b.execution, n) && !HasInput(req.inputs, n)))
  }

  lemma ResolvedServes(bindings: seq<Binding>, req: ResolveRequest, r: Result<Resolution, ResolveError>)
    requires Resolved(bindings, req, r)
    ensures ServesRequest(bindings, req, r)
  {
    forall b ensures EyeOf(req)(b).Unfit? <==> !Serves(b, req.bindingID, req.providerID, req.minLevel) {
    }
    if r == Err(BindingNotFound) {
      forall b | b in bindings ensures !Serves(b, req.bindingID, req.providerID, req.minLevel) {
        var j :| 0 <= j < |bindings| && bindings[j] == b;
      }
    } else {
      var i :| 0 <= i < |bindings| && EndsAt(bindings, EyeOf(req), i, r);
      assert bindings[i] in bindings;
      RequiredNamesMean(bindings[i].execution);
      if r.Ok? && !HasInputs(req.inputs, r.value.required) {
        forall b | b in bindings && Serves(b, req.bindingID, req.providerID, req.minLevel)
          ensures exists n :: AsksFor(b.execution, n) && !HasInput(req.inputs, n)
        {
          var j :| 0 <= j < |bindings| && bindings[j] == b;
          assert EyeOf(req)(bindings[j]).Lacking?;
          RequiredNamesMean(b.execution);
        }
      }
    }
  }

  /** Runner.Run of the resolver. */
  method Resolve(c: Capability, req: ResolveRequest) returns (r: Result<Resolution, ResolveError>)
    ensures Resolved(c.bindings, req, r)
    ensures ServesRequest(c.bindings, req, r)
  {
    r := Search(c, req);
    ResolvedServes(c.bindings, req, r);
  }

  method Search(c: Capability, req: ResolveRequest) returns (r: Result<Resolution, ResolveError>)
    ensures Resolved(c.bindings, req, r)
  {
    ghost var eye := EyeOf(req);
    var first: Option<Resolution> := None;
    ghost var at := 0;
    for i := 0 to |c.bindings|
      invariant Searching(c.bindings, eye, i, first, at)
    {
      SearchingOn(c.bindings, eye, i, first, at);
      var look := Inspect(c.bindings[i], req);
      match look
      case Unfit =>
      case BadSpec(error) =>
        return Err(BadExecution(error));
      case Ready(required) =>
        return Ok(Resolution(c.bindings[i], required));
      case Lacking(required) =>
        if first.None? {
          first := Some(Resolution(c.bindings[i], required));
          at := i;
        }
    }
    SearchOver(c.bindings, eye, first, at);
    return if first.Some? then Ok(first.value) else Err(BindingNotFound);
  }

  // ---------------------------------------------------------------- a formal run

  datatype RunRequest = RunRequest(
    capabilityID: string, bindingID: string, providerID: string, inputs: Inputs, verify: bool, minLevel: Level)

  datatype RunError =
    | CapabilityNotFound | BindingUnresolved | ProviderNotFound | InvalidRunInput | ExecutionFailure | VerificationFailure

  /** The durable record of a run: failed with an error, or succeeded. */
  datatype RunRecord = RunRecord(
    capabilityID: string, bindingID: string, providerID: string, inputs: Inputs,
    verified: bool, evidence: seq<EvidenceRef>, error: Option<RunError>)

  datatype Ran = RunFails | NoResult | Exited(code: int)

  /** What a run meets outside the modelled code. */
  datatype RunWorld = RunWorld(
    providers: set<string>,
    execute: (Execution, Inputs) -> Ran,
    table: PredicateTable,
    canceledAtStart: bool,
    canceled: Canceled,
    check: CheckRun)

  /** The record a formal run leaves: of the binding its look-up came to, or why it found none. */
  ghost predicate FormalRecord(
    records: map<string, Capability>, req: RunRequest, world: RunWorld,
    resolved: Result<Resolution, ResolveError>, record: RunRecord)
  {
    var id := TrimSpace(req.capabilityID);
    if id !in records then record == RunRecord(id, "", "", req.inputs, false, [], Some(CapabilityNotFound))
    else
      && Resolved(records[id].bindings, ResolveRequest(req.bindingID, req.providerID, req.inputs, req.minLevel), resolved)
      && match resolved
         case Err(_) => record == RunRecord(id, "", "", req.inputs, false, [], Some(BindingUnresolved))
         case Ok(r) => record.capabilityID == id && record.inputs == req.inputs && RanWith(record, r.binding, r.required, req, world)
  }

  /** The record names a stored binding that serves the request. */
  predicate RanServing(records: map<string, Capability>, req: RunRequest, record: RunRecord)
    requires record.capabilityID in records
  {
    exists b | b in records[record.capabilityID].bindings ::
      record.bindingID == b.id && record.providerID == b.providerID && Serves(b, req.bindingID, req.providerID, req.minLevel)
  }

  /** Runner.Run of the run package, from validation to the record that is saved; a request that names no capability
      leaves none. */
  method RunFormally(records: map<string, Capability>, req: RunRequest, world: RunWorld)
    returns (saved: Option<RunRecord>, ghost resolved: Result<Resolution, ResolveError>)
    ensures saved.None? <==> Blank(req.capabilityID)
    ensures saved.Some? ==>
      && saved.value.capabilityID == TrimSpace(req.capabilityID) && saved.value.inputs == req.inputs
      && (saved.value.error == Some(CapabilityNotFound) <==> saved.value.capabilityID !in records)
      && FormalRecord(records, req, world, resolved, saved.value)
      && (saved.value.error != Some(CapabilityNotFound) && saved.value.error != Some(BindingUnresolved) ==>
            RanServing(records, req, saved.value))
  {
    resolved := Err(BindingNotFound);
    if TrimSpace(req.capabilityID) == "" {
      return None, resolved;
    }
    var record := RunRecord(TrimSpace(req.capabilityID), "", "", req.inputs, false, [], None);
    if record.capabilityID !in records {
      return Some(record.(error := Some(CapabilityNotFound))), resolved;
    }
    var c := records[record.capabilityID];
    var resolve := ResolveRequest(req.bindingID, req.providerID, req.inputs, req.minLevel);
    var found := Resolve(c, resolve);
    resolved := found;
    if found.Err? {
      return Some(record.(error := Some(BindingUnresolved))), resolved;
    }
    record := RunBinding(record.capabilityID, found.value.binding, found.value.required, req, world);
    assert RanServing(records, req, record) by {
      assert found.value.binding in records[record.capabilityID].bindings;
    }
    return Some(record), resolved;
  }

  /** The verification of a run succeeds: there is a spec, it can be run, and every check passes. */
  predicate Verifies(b: Binding, world: RunWorld) {
    && b.verify.Some? && !world.canceledAtStart && Runnable(b.verify.value, world.table)
    && Passes(b.verify.value.checks, world.check, world.canceled)
  }

  /** The record left by running binding `b`: exactly which error, if any, and what verification means. */
  ghost predicate RanWith(record: RunRecord, b: Binding, required: seq<string>, req: RunRequest, world: RunWorld) {
    && record.bindingID == b.id && record.providerID == b.providerID
    && record.error != Some(CapabilityNotFound) && record.error != Some(BindingUnresolved)
    && (record.error == Some(ProviderNotFound) <==> b.providerID !in world.providers)
    && (record.error == Some(InvalidRunInput) <==> b.providerID in world.providers && !HasInputs(req.inputs, required))
    && (b.providerID in world.providers && HasInputs(req.inputs, required) ==>
          var ran := world.execute(b.execution, req.inputs);
          record.error ==
            if !ran.Exited? then Some(ExecutionFailure)
            else if req.verify then (if Verifies(b, world) then None else Some(VerificationFailure))
            else if ran.code != 0 then Some(ExecutionFailure) else None)
    && (record.verified <==> record.error.None? && req.verify)
    && (record.verified ==> b.verify.Some? && EvidenceFor(b.verify.value.checks, record.evidence))
    && (!record.verified ==> record.evidence == [])
  }

  /** A run succeeds exactly when its provider is known, all inputs are there, the execution ends, and then, when asked
      to verify, the spec is there and holds, and otherwise the exit code is zero. */
  lemma RunSucceedsIff(record: RunRecord, b: Binding, required: seq<string>, req: RunRequest, world: RunWorld)
    requires RanWith(record, b, required, req, world)
    ensures record.error == None <==>
      && b.providerID in world.providers
      && (forall n | n in required :: HasInput(req.inputs, n))
      && world.execute(b.execution, req.inputs).Exited?
      && (if req.verify then Verifies(b, world) else world.execute(b.execution, req.inputs) == Exited(0))
    ensures record.verified <==> record.error == None && req.verify
  {
  }

  /** The part of the run after its binding is resolved. */
  method RunBinding(capabilityID: string, b: Binding, required: seq<string>, req: RunRequest, world: RunWorld)
    returns (record: RunRecord)
    ensures record.capabilityID == capabilityID && record.inputs == req.inputs
    ensures RanWith(record, b, required, req, world)
  {
    record := RunRecord(capabilityID, b.id, b.providerID, req.inputs, false, [], None);
    if b.providerID !in world.providers {
      return record.(error := Some(ProviderNotFound));
    }
    var missing := MissingInputs(required, req.inputs);
    if |missing| > 0 {
      return record.(error := Some(InvalidRunInput));
    }
    var ran := world.execute(b.execution, req.inputs);
    if !ran.Exited? {
      return record.(error := Some(ExecutionFailure));
    }
    if req.verify {
      if b.verify.None? {
        return record.(error := Some(VerificationFailure));
      }
      var checked := RunChecks(b.verify.value, world.table, world.check, world.canceledAtStart, world.canceled);
      if checked.Err? {
        return record.(error := Some(VerificationFailure));
      }
      return record.(evidence := checked.value, verified := true);
    }
    if ran.code != 0 {
      return record.(error := Some(ExecutionFailure));
    }
  }
}
