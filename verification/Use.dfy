/** internal/use: an intent is matched to a promoted binding, its inputs are planned, and a formal run resolves
    that binding a second time. The theorems say the independent steps agree on one and the same stored binding. */
module Use {
  import opened Common
  import opened Text
  import opened Model
  import opened Orders
  import opened ExecuteInputs
  import opened Check
  import opened ProbeRunner
  import opened Promote
  import S = Selector
  import PL = Planner
  import R = Resolver

  datatype UseRequest = UseRequest(
    intent: string, inputs: Inputs, providerID: string, forceLLM: bool, verify: bool, minLevel: Level)

  datatype Outcome =
    | NoIntent
    | SelectionFailed(selectionError: S.SelectionError)
    | PlanFailed(planError: PL.PlanError)
    | Ran(selection: S.Selection, record: R.RunRecord)

  /** The listing a use starts from shows records of the catalog. */
  predicate Lists(capabilities: seq<Capability>, records: Records) {
    forall c | c in capabilities :: c.id in records && records[c.id] == c
  }

  lemma {:induction false} EntriesStored(capabilities: seq<Capability>, records: Records)
    requires Lists(capabilities, records)
    ensures forall e | e in S.Entries(capabilities) ::
      e.capabilityID in records && e.binding in records[e.capabilityID].bindings
      && e.description == records[e.capabilityID].description
  {
    if capabilities != [] {
      EntriesStored(capabilities[..|capabilities| - 1], records);
      assert capabilities[|capabilities| - 1] in capabilities;
    }
  }

  /** In a sound catalog, capability id and binding id name one binding: the ranking is unique. */
  lemma EntriesUnique(capabilities: seq<Capability>, records: Records, table: PredicateTable)
    requires Lists(capabilities, records) && SoundRecords(records, table)
    ensures S.UniqueEntries(S.Entries(capabilities))
  {
    EntriesStored(capabilities, records);
    forall e, f | e in S.Entries(capabilities) && f in S.Entries(capabilities)
      && e.capabilityID == f.capabilityID && e.binding.id == f.binding.id
      ensures e == f
    {
      SameIDSameBinding(records[e.capabilityID].bindings, e.binding, f.binding);
    }
  }

  lemma SameIDSameBinding(bindings: seq<Binding>, a: Binding, b: Binding)
    requires DistinctIDs(bindings) && a in bindings && b in bindings && a.id == b.id
    ensures a == b
  {
    var i :| 0 <= i < |bindings| && bindings[i] == a;
    var j :| 0 <= j < |bindings| && bindings[j] == b;
  }

  /** A ranked candidate is a stored, admissible binding whose requirements could be read. */
  lemma RankedIsStored(
    req: S.Request, tokens: S.Tokenizer, records: Records, ranking: seq<S.Scored>, c: S.Scored)
    requires Lists(req.capabilities, records)
    requires IsSortOf(S.Better, ranking, S.ScoreAll(S.Entries(req.capabilities), req, tokens)) && c in ranking
    ensures c.entry.capabilityID in records && c.entry.binding in records[c.entry.capabilityID].bindings
    ensures S.Admissible(c.entry.binding, req) && RequiredNames(c.entry.binding.execution) == Ok(c.required)
  {
    EntriesStored(req.capabilities, records);
    assert c in multiset(ranking);
    assert c in S.ScoreAll(S.Entries(req.capabilities), req, tokens);
  }

  /** Asked for the selected ids, the resolver finds that binding eligible and no other. */
  lemma OnlySelectedEligible(
    records: Records, table: PredicateTable, capabilityID: string, b: Binding, inputs: Inputs, level: Level)
    requires SoundRecords(records, table)
    requires capabilityID in records && b in records[capabilityID].bindings
    requires b.verify.Some? && LevelRank(b.verify.value.level) >= LevelRank(level)
    ensures forall d | d in records[capabilityID].bindings ::
      R.Eligible(d, R.ResolveRequest(b.id, b.providerID, inputs, level)) <==> d == b
  {
    assert ValidateBinding(capabilityID, b) && Trusted(b, table);
    forall d | d in records[capabilityID].bindings
      ensures R.Eligible(d, R.ResolveRequest(b.id, b.providerID, inputs, level)) <==> d == b
    {
      if d.id == b.id {
        SameIDSameBinding(records[capabilityID].bindings, d, b);
      }
    }
  }

  /** A stored binding of level L2 at least that was really executed: one piece of evidence for each of its checks, at
      least one. */
  predicate ProvenByExecution(b: Binding) {
    && b.verify.Some? && LevelRank(b.verify.value.level) >= 2 && b.verify.value.method_ == Execute
    && |b.evidence| == |b.verify.value.checks| > 0
  }

  /** A candidate that a use of some sound catalog has to choose from. */
  ghost predicate InReach(req: S.Request, tokens: S.Tokenizer, records: Records, table: PredicateTable, c: S.Scored) {
    && SoundRecords(records, table) && Lists(req.capabilities, records)
    && c in S.ScoreAll(S.Entries(req.capabilities), req, tokens)
  }

  lemma InReachProven(req: S.Request, tokens: S.Tokenizer, records: Records, table: PredicateTable, c: S.Scored)
    requires InReach(req, tokens, records, table, c) && LevelRank(S.EffectiveLevel(req.minLevel)) >= 2
    ensures ProvenByExecution(c.entry.binding)
  {
    EntriesStored(req.capabilities, records);
    assert c.entry in S.Entries(req.capabilities) && S.Admissible(c.entry.binding, req);
    TrustedProven(c.entry.binding, table);
  }

  lemma TrustedProven(b: Binding, table: PredicateTable)
    requires Trusted(b, table) && LevelRank(b.verify.value.level) >= 2
    ensures ProvenByExecution(b)
  {
  }

  predicate AllProven(ranking: seq<S.Scored>) {
    forall c | c in ranking :: ProvenByExecution(c.entry.binding)
  }

  lemma RankedProven(
    req: S.Request, tokens: S.Tokenizer, records: Records, table: PredicateTable, ranking: seq<S.Scored>)
    requires SoundRecords(records, table) && Lists(req.capabilities, records)
    requires IsSortOf(S.Better, ranking, S.ScoreAll(S.Entries(req.capabilities), req, tokens))
    ensures LevelRank(S.EffectiveLevel(req.minLevel)) >= 2 ==> AllProven(ranking)
  {
    if LevelRank(S.EffectiveLevel(req.minLevel)) >= 2 {
      forall c | c in ranking ensures ProvenByExecution(c.entry.binding) {
        assert c in multiset(ranking);
        InReachProven(req, tokens, records, table, c);
      }
    }
  }

  /** Exactly the minimum levels from L2 up, and the default, leave only bindings proven by execution to choose from.
      The tokenizer may be any that finds a token in some text. */
  lemma ContractOnlyExcludedIff(minLevel: Level, tokens: S.Tokenizer, text: string)
    requires text != "" && Trimmed(text) && tokens(text) != {}
    ensures LevelRank(S.EffectiveLevel(minLevel)) >= 2 <==>
      forall req: S.Request, records: Records, table: PredicateTable, c: S.Scored |
        req.minLevel == minLevel && InReach(req, tokens, records, table, c) :: ProvenByExecution(c.entry.binding)
  {
    if LevelRank(S.EffectiveLevel(minLevel)) < 2 {
      var req, records, table, c := ContractOnlyInReach(minLevel, tokens, text);
      assert InReach(req, tokens, records, table, c) && !ProvenByExecution(c.entry.binding);
    } else {
      forall req: S.Request, records: Records, table: PredicateTable, c: S.Scored |
        req.minLevel == minLevel && InReach(req, tokens, records, table, c)
        ensures ProvenByExecution(c.entry.binding)
      {
        InReachProven(req, tokens, records, table, c);
      }
    }
  }

  function ContractOnly(): Binding {
    Binding("b", "a.b", "p", BARE_COMMAND, Some(VerifySpec(L1, Contract, [])), [CONTRACT_EVIDENCE], Promoted)
  }

  /** A sound catalog with one binding, of level L1, that only its contract vouches for, and an intent that finds it. */
  lemma ContractOnlyInReach(minLevel: Level, tokens: S.Tokenizer, text: string)
    returns (req: S.Request, records: Records, table: PredicateTable, c: S.Scored)
    requires text != "" && Trimmed(text) && tokens(text) != {} && LevelRank(S.EffectiveLevel(minLevel)) < 2
    ensures req.minLevel == minLevel && InReach(req, tokens, records, table, c)
    ensures !ProvenByExecution(c.entry.binding)
  {
    table := _ => true;
    var capability := Capability("a.b", text, [ContractOnly()]);
    records := map["a.b" := capability];
    req := S.Request(text, map[], "", false, minLevel, [capability]);
    ContractOnlySound(text, table);
    c := ContractOnlyScored(S.Entry("a.b", text, ContractOnly()), req, tokens);
    OneBindingScored(capability, c.entry, c, req, tokens);
    OneRecord("a.b", capability, table);
  }

  lemma OneRecord(id: string, capability: Capability, table: PredicateTable)
    requires capability.id == id && SoundCapability(capability, table)
    ensures SoundRecords(map[id := capability], table) && Lists([capability], map[id := capability])
  {
  }

  lemma OneBindingScored(capability: Capability, e: S.Entry, c: S.Scored, req: S.Request, tokens: S.Tokenizer)
    requires req.capabilities == [capability] && |capability.bindings| == 1
    requires e == S.Entry(capability.id, capability.description, capability.bindings[0])
    requires S.Score(e, req, tokens) == Some(c)
    ensures S.ScoreAll(S.Entries(req.capabilities), req, tokens) == [c]
  {
    assert [capability][..0] == [] && S.EntriesOf(capability) == [e];
    assert S.Entries([capability]) == [e];
    S.ScoreOneMore([e], 0, req, tokens);
    assert [e][..1] == [e] && [e][..0] == [];
  }

  lemma ContractOnlyScored(e: S.Entry, req: S.Request, tokens: S.Tokenizer) returns (c: S.Scored)
    requires e.binding == ContractOnly() && e.description == req.intent && tokens(req.intent) != {}
    requires req.providerID == "" && LevelRank(S.EffectiveLevel(req.minLevel)) < 2
    ensures S.Score(e, req, tokens) == Some(c) && c.entry == e
  {
    BareCommandNeedsNothing();
    assert Blank("");
    assert tokens(req.intent) * tokens(req.intent) == tokens(req.intent);
    c := S.Score(e, req, tokens).value;
  }

  lemma ContractOnlySound(text: string, table: PredicateTable)
    requires text != "" && Trimmed(text)
    ensures SoundCapability(Capability("a.b", text, [ContractOnly()]), table)
  {
    LetterSolid("a.b");
    LetterSolid("b");
    LetterSolid("p");
    assert ValidCapabilityID("a.b") by {
      assert "a.b"[1] == '.';
    }
    assert CONTRACT_EVIDENCE.id[0] == 'c' && !Blank(CONTRACT_EVIDENCE.id);
    assert Trusted(ContractOnly(), table) && ValidateBinding("a.b", ContractOnly());
  }

  /** What a run started by `use` looks like: it ran the very binding that was selected. */
  ghost predicate RanSelected(
    out: Outcome, req: UseRequest, records: Records, world: R.RunWorld, ranking: seq<S.Scored>, topK: nat, c: S.Scored)
    requires out.Ran?
  {
    var b := c.entry.binding;
    && R.RanWith(out.record, b, c.required, RunRequestOf(req, c, out.record.inputs), world)
    && S.Selected(ranking, topK, req.inputs, out.selection, c)
    && c.entry.capabilityID in records && b in records[c.entry.capabilityID].bindings
    && out.record.capabilityID == c.entry.capabilityID
    && out.record.bindingID == b.id && out.record.providerID == b.providerID
    && (out.record.error.Some? ==>
          out.record.error.value !in {R.CapabilityNotFound, R.BindingUnresolved, R.InvalidRunInput})
    && PL.KeptInputs(req.inputs, out.record.inputs)
    && RequiredNames(b.execution) == Ok(c.required) && HasInputs(out.record.inputs, c.required)
    && (LevelRank(S.EffectiveLevel(req.minLevel)) >= 2 ==> ProvenByExecution(b))
    && (out.record.verified ==> b.verify.Some? && EvidenceFor(b.verify.value.checks, out.record.evidence))
  }

  /** The formal run of a selected candidate. */
  function RunRequestOf(req: UseRequest, c: S.Scored, inputs: Inputs): R.RunRequest {
    R.RunRequest(c.entry.capabilityID, c.entry.binding.id, c.entry.binding.providerID, inputs, req.verify,
      S.EffectiveLevel(req.minLevel))
  }

  /** A stored binding that the request, in its own words, has to consider. */
  predicate Fits(c: Capability, b: Binding, req: UseRequest, tokens: S.Tokenizer) {
    && b.state == Promoted
    && (Blank(req.providerID) || b.providerID == TrimSpace(req.providerID))
    && b.verify.Some? && LevelRank(b.verify.value.level) >= LevelRank(if req.minLevel == NoLevel then L2 else req.minLevel)
    && Readable(b.execution)
    && (tokens(c.id) + tokens(c.description)) * tokens(TrimSpace(req.intent)) != {}
  }

  ghost predicate Ranked(ranking: seq<S.Scored>, e: S.Entry) {
    exists s | s in ranking :: s.entry == e
  }

  /** The ranking holds exactly the bindings that fit. */
  lemma RankedIffFits(
    req: UseRequest, capabilities: seq<Capability>, tokens: S.Tokenizer, ranking: seq<S.Scored>, c: Capability, b: Binding)
    requires IsSortOf(S.Better, ranking,
      S.ScoreAll(S.Entries(capabilities), SelectorRequest(req, capabilities), tokens))
    requires c in capabilities && b in c.bindings
    ensures Ranked(ranking, S.Entry(c.id, c.description, b)) <==> Fits(c, b, req, tokens)
  {
    var request, e := SelectorRequest(req, capabilities), S.Entry(c.id, c.description, b);
    var scored := S.ScoreAll(S.Entries(capabilities), request, tokens);
    S.EntriesExact(capabilities, e);
    S.ScoredIffConsidered(e, request, tokens);
    if Fits(c, b, req, tokens) {
      S.ScoreAllComplete(S.Entries(capabilities), request, tokens, e);
      assert S.Score(e, request, tokens).value in multiset(ranking);
    }
    if s :| s in ranking && s.entry == e {
      assert s in multiset(ranking);
      assert s in scored;
    }
  }

  lemma RankedFits(
    req: UseRequest, capabilities: seq<Capability>, tokens: S.Tokenizer, ranking: seq<S.Scored>, s: S.Scored)
    requires IsSortOf(S.Better, ranking,
      S.ScoreAll(S.Entries(capabilities), SelectorRequest(req, capabilities), tokens))
    requires s in ranking && !Blank(req.providerID)
    ensures s.entry.binding.providerID == TrimSpace(req.providerID)
  {
    assert s in multiset(ranking);
    assert s in S.ScoreAll(S.Entries(capabilities), SelectorRequest(req, capabilities), tokens);
    S.ScoredIffConsidered(s.entry, SelectorRequest(req, capabilities), tokens);
  }

  /** normalizeRequest and the selector request built from it. */
  function SelectorRequest(req: UseRequest, capabilities: seq<Capability>): S.Request {
    S.Request(TrimSpace(req.intent), req.inputs, req.providerID, req.forceLLM, S.EffectiveLevel(req.minLevel), capabilities)
  }

  /** The second look-up comes to the selected binding, and nothing else. */
  lemma ResolvesToSelected(
    records: Records, table: PredicateTable, c: S.Scored, run: R.RunRequest, resolved: Result<R.Resolution, R.ResolveError>)
    requires SoundRecords(records, table)
    requires c.entry.capabilityID in records && c.entry.binding in records[c.entry.capabilityID].bindings
    requires c.entry.binding.verify.Some? && LevelRank(c.entry.binding.verify.value.level) >= LevelRank(run.minLevel)
    requires RequiredNames(c.entry.binding.execution) == Ok(c.required)
    requires run.bindingID == c.entry.binding.id && run.providerID == c.entry.binding.providerID
    requires R.Resolved(records[c.entry.capabilityID].bindings,
      R.ResolveRequest(run.bindingID, run.providerID, run.inputs, run.minLevel), resolved)
    ensures resolved == Ok(R.Resolution(c.entry.binding, c.required))
  {
    OnlySelectedEligible(records, table, c.entry.capabilityID, c.entry.binding, run.inputs, run.minLevel);
    var bindings := records[c.entry.capabilityID].bindings;
    assert forall i | 0 <= i < |bindings| :: bindings[i] in bindings;
  }

  /** The capability of a stored binding is found again under its trimmed id. */
  lemma StoredIsFound(records: Records, table: PredicateTable, id: string, b: Binding)
    requires SoundRecords(records, table) && id in records && b in records[id].bindings
    ensures TrimSpace(id) == id && !Blank(id) && Trusted(b, table)
  {
    assert ValidateBinding(id, b) && ValidCapabilityID(id);
    CapabilityIDTrimmed(id);
  }

  /** How a use goes on from its selection: it fails with it, or plans it, and runs exactly when the planned inputs,
      with the target fallback, are complete. */
  predicate Follows(out: Outcome, selected: Result<S.Selection, S.SelectionError>, req: UseRequest, targetPath: Option<string>) {
    match selected
    case Err(error) => out == SelectionFailed(error)
    case Ok(s) =>
      var planned := PL.WithTarget(req.inputs + s.patch, s.required, targetPath);
      if planned.None? then out == PlanFailed(PL.ArtifactPathFailed)
      else if !HasInputs(planned.value, s.required) then out == PlanFailed(PL.MissingInput)
      else out.Ran? && out.selection == s && out.record.inputs == planned.value
  }

  /** The ranking holds exactly the bindings that fit the request; a wanted provider is the only one in it. */
  ghost predicate RanksWhatFits(req: UseRequest, capabilities: seq<Capability>, tokens: S.Tokenizer, ranking: seq<S.Scored>) {
    && (forall c, b | c in capabilities && b in c.bindings ::
          Ranked(ranking, S.Entry(c.id, c.description, b)) <==> Fits(c, b, req, tokens))
    && (!Blank(req.providerID) ==> forall s | s in ranking :: s.entry.binding.providerID == TrimSpace(req.providerID))
  }

  lemma RankingFits(req: UseRequest, capabilities: seq<Capability>, tokens: S.Tokenizer, ranking: seq<S.Scored>)
    requires IsSortOf(S.Better, ranking,
      S.ScoreAll(S.Entries(capabilities), SelectorRequest(req, capabilities), tokens))
    ensures RanksWhatFits(req, capabilities, tokens, ranking)
  {
    forall c, b | c in capabilities && b in c.bindings
      ensures Ranked(ranking, S.Entry(c.id, c.description, b)) <==> Fits(c, b, req, tokens)
    {
      RankedIffFits(req, capabilities, tokens, ranking, c, b);
    }
    if !Blank(req.providerID) {
      forall s | s in ranking ensures s.entry.binding.providerID == TrimSpace(req.providerID) {
        RankedFits(req, capabilities, tokens, ranking, s);
      }
    }
  }

  /** Runner.Run of the use package over a sound catalog that does not change meanwhile, with any LLM:
      either selection or planning stops it, never because of the patch, or the formal run runs the selected
      binding with all required inputs and every caller input kept. */
  method UseIntent(
    req: UseRequest, records: Records, capabilities: seq<Capability>, tokens: S.Tokenizer,
    client: Option<S.Client>, topK: nat, targetPath: Option<string>, world: R.RunWorld, ghost table: PredicateTable)
    returns (out: Outcome, ghost ranking: seq<S.Scored>, ghost selected: Result<S.Selection, S.SelectionError>)
    requires SoundRecords(records, table) && Lists(capabilities, records)
    ensures out == NoIntent <==> Blank(req.intent)
    ensures !Blank(req.intent) ==>
      && IsSortOf(S.Better, ranking, S.ScoreAll(S.Entries(capabilities), SelectorRequest(req, capabilities), tokens))
      && S.Dispatched(selected, ranking, SelectorRequest(req, capabilities), client, topK)
      && Follows(out, selected, req, targetPath)
    ensures !Blank(req.intent) ==> RanksWhatFits(req, capabilities, tokens, ranking)
    ensures ranking != [] && req.forceLLM && client.Some? ==> DecidedByLLM(selected, req, ranking, topK, client.value)
    ensures out != PlanFailed(PL.InvalidPatch)
    ensures LevelRank(S.EffectiveLevel(req.minLevel)) >= 2 ==> AllProven(ranking)
    ensures out.Ran? ==> exists c :: RanSelected(out, req, records, world, ranking, topK, c)
    ensures out.Ran? && !Blank(req.providerID) ==> out.record.providerID == TrimSpace(req.providerID)
    ensures out.Ran? ==> (out.record.verified <==> req.verify && out.record.error.None?)
  {
    if TrimSpace(req.intent) == "" {
      return NoIntent, [], Err(S.NoMatch);
    }
    out, ranking, selected := SelectAndRun(req, records, capabilities, tokens, client, topK, targetPath, world, table);
    RankingFits(req, capabilities, tokens, ranking);
    Forced(selected, req, capabilities, ranking, topK, client);
    if out.Ran? {
      ghost var c :| RanSelected(out, req, records, world, ranking, topK, c);
      assert c in ranking;
    }
  }

  /** What the LLM answered, shown the first `topK` of the ranking, is what the selection follows. */
  ghost predicate DecidedByLLM(
    selected: Result<S.Selection, S.SelectionError>, req: UseRequest, ranking: seq<S.Scored>, topK: nat, client: S.Client)
  {
    var shown := if topK < |ranking| then ranking[..topK] else ranking;
    S.FollowsAnswer(selected, ranking, topK, req.inputs, client(shown))
  }

  lemma Forced(
    selected: Result<S.Selection, S.SelectionError>, req: UseRequest, capabilities: seq<Capability>,
    ranking: seq<S.Scored>, topK: nat, client: Option<S.Client>)
    requires S.Dispatched(selected, ranking, SelectorRequest(req, capabilities), client, topK)
    ensures ranking != [] && req.forceLLM && client.Some? ==> DecidedByLLM(selected, req, ranking, topK, client.value)
  {
  }

  /** Selection, planning and run. */
  method SelectAndRun(
    req: UseRequest, records: Records, capabilities: seq<Capability>, tokens: S.Tokenizer,
    client: Option<S.Client>, topK: nat, targetPath: Option<string>, world: R.RunWorld, ghost table: PredicateTable)
    returns (out: Outcome, ghost ranking: seq<S.Scored>, ghost selected: Result<S.Selection, S.SelectionError>)
    requires SoundRecords(records, table) && Lists(capabilities, records)
    ensures IsSortOf(S.Better, ranking, S.ScoreAll(S.Entries(capabilities), SelectorRequest(req, capabilities), tokens))
    ensures S.Dispatched(selected, ranking, SelectorRequest(req, capabilities), client, topK)
    ensures Follows(out, selected, req, targetPath)
    ensures out != NoIntent && out != PlanFailed(PL.InvalidPatch)
    ensures LevelRank(S.EffectiveLevel(req.minLevel)) >= 2 ==> AllProven(ranking)
    ensures out.Ran? ==> exists c :: RanSelected(out, req, records, world, ranking, topK, c)
  {
    var selectorRequest := SelectorRequest(req, capabilities);
    var selection;
    selection, ranking := S.Select(selectorRequest, tokens, client, topK);
    selected := selection;
    RankedProven(selectorRequest, tokens, records, table, ranking);
    if selection.Err? {
      return SelectionFailed(selection.error), ranking, selected;
    }
    ghost var c :| S.Selected(ranking, topK, req.inputs, selection.value, c);
    RankedIsStored(selectorRequest, tokens, records, ranking, c);
    out := PlanAndRun(req, records, selection.value, targetPath, world, table, ranking, topK, c);
  }

  /** The rest of that Run: plan the inputs, and run. */
  method PlanAndRun(
    req: UseRequest, records: Records, s: S.Selection, targetPath: Option<string>, world: R.RunWorld,
    ghost table: PredicateTable, ghost ranking: seq<S.Scored>, ghost topK: nat, ghost c: S.Scored)
    returns (out: Outcome)
    requires SoundRecords(records, table) && S.Selected(ranking, topK, req.inputs, s, c)
    requires c.entry.capabilityID in records && c.entry.binding in records[c.entry.capabilityID].bindings
    requires c.entry.binding.verify.Some?
    requires LevelRank(c.entry.binding.verify.value.level) >= LevelRank(S.EffectiveLevel(req.minLevel))
    requires RequiredNames(c.entry.binding.execution) == Ok(c.required)
    ensures Follows(out, Ok(s), req, targetPath) && out != PlanFailed(PL.InvalidPatch)
    ensures out.Ran? ==> RanSelected(out, req, records, world, ranking, topK, c)
  {
    var planned := PL.PlanInputs(req.inputs, s.required, s.patch, targetPath);
    if planned.Err? {
      return PlanFailed(planned.error);
    }
    var runRequest := R.RunRequest(
      s.capabilityID, s.bindingID, s.providerID, planned.value, req.verify, S.EffectiveLevel(req.minLevel));
    StoredIsFound(records, table, c.entry.capabilityID, c.entry.binding);
    var saved;
    ghost var resolved;
    saved, resolved := R.RunFormally(records, runRequest, world);
    out := Ran(s, saved.value);
    RanIsSelected(req, records, table, ranking, topK, s, c, runRequest, resolved, saved.value, world);
  }

  lemma RanIsSelected(
    req: UseRequest, records: Records, table: PredicateTable, ranking: seq<S.Scored>, topK: nat,
    s: S.Selection, c: S.Scored, run: R.RunRequest, resolved: Result<R.Resolution, R.ResolveError>,
    record: R.RunRecord, world: R.RunWorld)
    requires SoundRecords(records, table)
    requires S.Selected(ranking, topK, req.inputs, s, c)
    requires c.entry.capabilityID in records && c.entry.binding in records[c.entry.capabilityID].bindings
    requires c.entry.binding.verify.Some?
    requires LevelRank(c.entry.binding.verify.value.level) >= LevelRank(S.EffectiveLevel(req.minLevel))
    requires RequiredNames(c.entry.binding.execution) == Ok(c.required)
    requires run == RunRequestOf(req, c, record.inputs)
    requires HasInputs(run.inputs, c.required) && PL.KeptInputs(req.inputs, run.inputs)
    requires R.FormalRecord(records, run, world, resolved, record)
    ensures RanSelected(Ran(s, record), req, records, world, ranking, topK, c)
  {
    StoredIsFound(records, table, c.entry.capabilityID, c.entry.binding);
    ResolvesToSelected(records, table, c, run, resolved);
  }
}
