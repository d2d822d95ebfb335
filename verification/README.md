# CAL, modelled and proved in Dafny

CAL turns untrusted proposals into executable bindings, probes them locally, stores only what passed, and later
selects and reruns them. This project models that path and proves what it promises.

How the parts fit together:

- `Acquisition` is one acquisition run. It calls the real models of the stages: `Acquire` (proposal, with every
  renumbering of candidates), `ProbeRunner`, and `Promote` with its mutable `Catalog`; `TraceLog` holds the trace.
  `Acquisition.Runner.Run` ties progress, trace and catalog together: whatever the stages answer, whatever is canceled
  and wherever it stops.
- `Scheduler` and `Stream` are the two concurrent protocols, as step relations. Their theorems are about every state
  of every interleaving, and `Acquire.ScheduledSlots` carries the scheduler's result back to the acquisition.
- `Template`, `TemplateExact` and `ExecuteInputs` relate the placeholder scan, the sequential replacement and simultaneous
  substitution.
- `Selector`, `Planner`, `Resolver` and `Use` show that selection, planning and a second independent resolution agree
  on one stored binding, for any answer of the LLM.
- `Wire` is the event-stream text between server and client, a subset of the format in sections 9.2.5 and 9.2.6 of the
  WHATWG HTML Living Standard. `RotatingLog` is the log directory. `Lines` is the line and column cutting of text checks.
- `Provenance` puts the first hop, from raw answer to candidate, together with the last, the bindings of the catalog.
- `CapabilityStage`, `BindingStage`, `SurfaceStage` and `EvidenceStage` are the stage normalisers, over the shared
  `StageTrace`.

Code that updates state is a class or a loop here, proved against a specification function; the laws are lemmas about
that function. What lies outside (stage answers, executed programs, checks, the store's failures, the clock, the moment
a context is done) is an arbitrary function given to the method.

Where the code promises less than it seems to, the exact condition is proved instead:

- Having every required input does not always let an argument render. All complete inputs with plain texts do if and
  only if the argument has no literal double brace (`Template.CompleteInputsRenderIffSafe`). Given one call's inputs, the
  argument renders in every order of the map if and only if simultaneous substitution fills every placeholder and makes
  no double brace (`TemplateExact.WordKeysRenderIff`, or `TemplateExact.RendersInEveryOrderIff` when keys need not be
  words); so `{{a}}` fails on the text `{{` (`TemplateExact.BraceTextFails`). Outside of this even the map order shows
  (`Template.OrderMatters`).
- Local selection compares only the top two candidates, so a tie between capabilities is not always reported
  (`Selector.AmbiguousIff`, witness `Selector.TieNotReported`).
- Unlike a failed or canceled run, a completed one writes its trace under the caller's context, so a late cancellation
  leaves the trace running (`Acquisition.Runner.Run`, witness `Acquisition.CanceledLateHappens`).
- A use chooses among bindings proven by execution alone exactly when its minimum level is the default or at least L2
  (`Use.ContractOnlyExcludedIff`).
- Text filtered by lines splits into those lines again if and only if none of them ends in a CR
  (`Lines.FilteredLinesIff`, witness `Lines.FilteredLinesWithCR`).

Three pieces of the code turn out to do nothing:

- The dedupe of the proposal by execution identity, next to the one by capability key, drops nothing, whatever the ids
  hold (`Proposal.SelectIsFirstPerCapability`).
- The missing-plan branch of the probe targets and the length check of the binding stage are unreachable
  (`ProbeRunner.BuildTargets`, `BindingStage.Parse`).

## Model

| member | source | states |
|---|---|---|
| `Template.ScanShows` | internal/execute/inputs.go:15-47 | scanning an argument for placeholders loses nothing: printing the pieces gives the argument back |
| `Template.ReplaceFills` | internal/execute/inputs.go:105-110 | replacing one key in the text fills exactly the holes of that name, when no text before a hole can start another placeholder |
| `Template.AnyOrderFills` | internal/execute/inputs.go:105-110 | for every order of the keys, sequential replacement equals simultaneous substitution whenever that substitution leaves no two equal braces side by side |
| `Template.RenderedArg` | internal/execute/inputs.go:50-69 | under the same condition one rendered argument is order-free and passes the leftover-brace test if and only if every placeholder is a key |
| `Template.PlainFill` | internal/execute/inputs.go:50-69 | arguments without literal double braces and plain values meet that condition |
| `Template.UnsafeTemplateFails` | internal/execute/inputs.go:50-69 | an argument with a literal double brace fails to render on perfectly plain inputs, whatever the order |
| `Template.CompleteInputsRenderIffSafe` | internal/execute/inputs.go:15-69 | complete plain inputs always render an argument if and only if it holds no literal double brace: the exact domain of the promise behind RequiredInputs |
| `Template.OrderMatters` | internal/execute/inputs.go:105-110 | the concrete argument and inputs for which two key orders give different results |
| `Template.HolesAreOccurrences` | internal/execute/inputs.go:15-47 | a word is a placeholder of an argument if and only if the argument has it between double braces |
| `TemplateExact.ReplaceFillsAny` | internal/execute/inputs.go:105-110 | on any text one replacement is the filling of everything between double braces that has this name |
| `TemplateExact.RendersInEveryOrderIff` | internal/execute/inputs.go:50-69 | for any argument and any inputs with brace-free keys: it renders whatever the order if and only if simultaneous substitution of everything between double braces fills every hole and makes no double brace |
| `TemplateExact.WordKeysRenderIff` | internal/execute/inputs.go:15-69 | when all keys are words the same holds with the placeholders that RequiredInputs reports: a condition to check before the call |
| `TemplateExact.OddKeyRenders` | internal/execute/inputs.go:50-69 | a key that is no word can fill what the placeholder pattern does not match: `{{a b}}` renders although the scan sees literal braces |
| `TemplateExact.BraceTextFails` | internal/execute/inputs.go:50-69 | the safe argument `{{a}}` with its one input there does not always render: the text `{{` fails it |
| `ExecuteInputs.SortedNamesUnique` | internal/execute/inputs.go:15-47 | a set of names has only one sorted listing, so the map order inside RequiredInputs does not show |
| `ExecuteInputs.RequiredInputs` | internal/execute/inputs.go:15-103 | the list is, in ascending order, exactly the words between double braces in some argument and the name that the entry for the standard output trims to; it exists if and only if the execution is a command with string arguments and a usable such entry |
| `ExecuteInputs.ArgsAreArgs` | internal/execute/inputs.go:97-128 | the arguments of an execution are the strings of its entry in order, whichever way the list came to be |
| `ExecuteInputs.RenderArg` | internal/execute/inputs.go:105-110 | the loop applies one replacement per input key, each key once, in some order |
| `ExecuteInputs.RenderArgs` | internal/execute/inputs.go:50-69 | on success every argument is a reachable rendering without double braces; a failure means that some argument does not render in some order; on clean arguments the result is determined: simultaneous substitution if all placeholders are keys, the missing-input error otherwise |
| `ExecuteInputs.RequiredInputsSuffice` | internal/execute/inputs.go:15-110 | no missing required input plus safe templates and plain values imply the conditions under which RenderArgs succeeds |
| `Orders.SortUnique` | internal/use/select/candidate.go:132-142 | two sorted rearrangements of the same elements are equal when the order decides every pair: any correct sort gives the same sequence |
| `Orders.SortSlice` | internal/use/select/candidate.go:132-142 | a sort that returns a sorted rearrangement, for any weak order |
| `Proposal.RunCapabilityPipeline` | internal/proposal/pipeline.go:54-131 | pair i of a pipeline is the binding stage's pair i with the evidence planned for exactly it, and names its source and the model; the first evidence failure ends the pipeline with that error and no later pair |
| `Proposal.MergePipelines` | internal/proposal/runner.go:111-128 | the merge loop computes the specification Merged, with plan indices moved by the offset |
| `Proposal.MergedFrom` | internal/proposal/runner.go:111-128 | every merged pair is a pair of one successful pipeline, its plan renumbered to its merged position |
| `Proposal.MergedKeeps` | internal/proposal/runner.go:236-243 | every pair of every successful pipeline is merged, at the position its offset gives |
| `Proposal.SelectResult` | internal/proposal/select.go:28-79 | the loop with its maps, breaks and error returns computes the specification Select |
| `Proposal.ChooseChooses` | internal/proposal/select.go:50-77 | the kept positions strictly increase, match the provider, have a plan, and differ pairwise in capability key and execution identity; the limit holds |
| `CanonicalText.AfterBarNotJSON` | internal/model/ids.go:45-51 | what follows a bar of JSON text is never JSON text itself, because a bar stands inside a string |
| `Proposal.IdentityFaithful` | internal/proposal/select.go:81-91 | two execution identities are equal if and only if capability keys and canonical texts are, whatever the ids hold |
| `Proposal.SelectIsFirstPerCapability` | internal/proposal/select.go:28-91 | with complete plans, and for all ids, selection is: keep the provider's candidates, the first per capability key, cut at the limit, renumber; the execution dedupe adds nothing |
| `Proposal.KeyIsPair` | internal/proposal/select.go:89-91 | with a wanted provider, or bar-free provider ids, a capability key stands for its provider and capability id |
| `Proposal.SelectSucceedsIff` | internal/proposal/select.go:28-79 | without a limit selection succeeds if and only if the plans are in range and distinct and every candidate it is about has a plan and an encodable execution |
| `Proposal.SelectionCovers` | internal/proposal/select.go:50-79 | what is selected is of the wanted provider, or any when none is wanted; without a limit every such candidate is represented by one with its ids |
| `Proposal.SelectKeepsPairs` | internal/proposal/select.go:50-79 | each selected pair is an input pair with its plan renumbered to its position, by a strictly increasing map |
| `Proposal.SelectIdempotent` | internal/proposal/select.go:21-26 | NormalizeResult applied to its own result returns it unchanged |
| `Scheduler.EffectiveLimit` | internal/proposal/pipeline.go:32-35 | the limit is the wanted one where that lies between one and the number of plans, else that number |
| `Scheduler.StepInv` | internal/proposal/pipeline.go:23-52 | semaphore, wait group, worker stages and result slots stay consistent under every step |
| `Scheduler.AtMostLimitRunning` | internal/proposal/pipeline.go:23-52 | in every state of every interleaving at most limit pipelines run |
| `Scheduler.ReturnedMeansDone` | internal/proposal/pipeline.go:23-52 | on return every started worker has finished and every slot holds its own plan's result, or the context error of a plan never started, which needs a done context |
| `Scheduler.UncanceledRunIsMap` | internal/proposal/pipeline.go:23-52 | without cancellation the result array is the sequential map over the plans |
| `Scheduler.RunsAreBounded` | internal/proposal/pipeline.go:23-52 | no run has more than 5n + 3 steps |
| `Scheduler.NeverStuck` | internal/proposal/pipeline.go:23-52 | short of the return some step other than a cancellation is always possible |
| `Scheduler.MaximalRunReturns` | internal/proposal/pipeline.go:23-52 | a run that cannot be extended has returned |
| `Check.RunCheck` | internal/check/checker.go:132-149 | a passing check leaves one piece of evidence named after its position, subject and predicate |
| `Check.RunChecks` | internal/check/checker.go:96-130 | evidence comes back if and only if the spec is valid, of method execute, above L0, and every check passed before a cancellation; then there is exactly one piece per check, at least one, each with an id of its own; the failure is an invalid probe input exactly when the first failing check says so |
| `Check.IDsDiffer` | internal/check/checker.go:132-149 | evidence ids of checks at different positions differ |
| `Check.ValidCheckMeans` | internal/check/checker.go:151-179 | a check is valid if and only if it is a file check with an input, or one of the output or the exit code without, and its predicate and parameters are accepted |
| `Check.RunnableMeans` | internal/check/checker.go:68-110 | a spec can be run if and only if it is an execute spec of level L1, L2 or L3 with at least one check, all valid |
| `Check.ContractSpecMeans` | internal/check/checker.go:68-94 | of the other specs exactly the contract specs of level L0 or L1 are valid |
| `ProbeRunner.PlansCoverCandidates` | internal/probe/workdir.go:11-37 | pigeonhole: as many plans as candidates with distinct indices in range cover every candidate |
| `ProbeRunner.IndexPlans` | internal/probe/workdir.go:12-24 | the first loop indexes the plans if and only if all indices are in range and distinct |
| `ProbeRunner.BuildTargets` | internal/probe/workdir.go:11-37 | target i is candidate i with the plan naming it; the missing-plan error is unreachable when the lengths agree |
| `ProbeRunner.RunTarget` | internal/probe/runner.go:52-78 | a record passes if and only if the plan materialises, its spec is valid and above L0 and, under execute, the candidate ran and passed each check; a passed record is certified; the reason is the one of the step that decided |
| `ProbeRunner.ExecuteAndCheck` | internal/probe/runner.go:80-107 | the record passes if and only if the execution succeeded and every check passed; a deadline is told from another failure |
| `ProbeRunner.RunProbes` | internal/probe/runner.go:32-50 | record i carries index i and the spec planned for candidate i and passes exactly when probing that pair passes; the run stops early at the first invalid probe input and only there; else there is exactly one record per candidate |
| `Promote.RefusalIff` | internal/promote/runner.go:116-170 | a passed, certified probe leaves only the candidate's own fields as reasons to refuse |
| `Promote.HonestProbePromotes` | internal/promote/runner.go:116-170 | a probe that passed in probe.Run is never rejected for level, method or evidence: promotion succeeds if and only if the candidate is promotable |
| `Promote.MergeCapability` | internal/promote/runner.go:172-195 | the loops of the merge compute the specification Merge |
| `Promote.MergeUpserts` | internal/promote/runner.go:172-195 | merging replaces the binding with the promoted id in place or appends it; every other binding keeps value and position |
| `Promote.BindingIDFaithful` | internal/model/ids.go:38-62 | as long as the hash tells texts apart, two binding ids are equal if and only if capability, provider and canonical execution are |
| `Promote.ReasonIsReal` | internal/promote/runner.go:116-170 | the reason a target is rejected for is one it has |
| `Promote.MergeValid` | internal/promote/runner.go:172-195 | merging a promoted record into a stored one gives a valid record, so the save is never refused for its content |
| `Promote.MergeSound` | internal/promote/runner.go:172-195 | if every binding of both is certified, so is every binding of the merged record |
| `Promote.ApplySound` | internal/promote/runner.go:24-44 | any sequence of promotions keeps the catalog invariant: key equals id, records validate, binding ids are distinct, bindings are certified |
| `Promote.ApplyGrows` | internal/promote/runner.go:24-90 | over any sequence no binding id disappears or moves, other bindings keep their value, and a capability grows by exactly its created bindings |
| `Promote.ApplyProvenance` | internal/promote/runner.go:24-90 | every binding afterwards was there before or is the binding of one of the promotions |
| `Promote.ApplyStores` | internal/promote/runner.go:24-90 | a promotion that no later one overwrites is in the catalog |
| `Promote.DescriptionKept` | internal/promote/runner.go:172-175 | over any sequence of promotions no description is overwritten |
| `Promote.ReportedActions` | internal/promote/runner.go:59-90 | over a whole run each capability grows by exactly the number of its bindings reported as created |
| `Promote.FirstIsCreated` | internal/promote/runner.go:59-90 | a capability is reported as created by the first promotion of an id that was not there before, and by no other |
| `Promote.Catalog.GetCapability` | internal/store/capability.go:13-16 | reading a record validates it again |
| `Promote.Catalog.SaveCapability` | internal/store/capability.go:18-23 | a save validates, then writes the whole record or nothing |
| `Promote.Catalog.PromoteTarget` | internal/promote/runner.go:59-90 | one promotion of any target keeps the catalog valid; it succeeds if and only if the target is not rejected and the store works, with the error that applies otherwise; it changes nothing when it fails; what it reports is told by the catalog before and after: the ids, which of the two was new, and a description that is only ever filled in |
| `Promote.BuildPromotionTargets` | internal/promote/runner.go:92-114 | the targets are the passed probes in order with the candidates they name, or an error if and only if an index is out of range or repeated |
| `Promote.PassedAreTargets` | internal/promote/runner.go:92-114 | every passed probe is a target, once and in order |
| `Promote.PromoteTargets` | internal/promote/runner.go:33-43 | whatever the targets and wherever the loop stops, the promotions returned are exactly the saves performed, in order, and the catalog is what they made of it |
| `Promote.PromoteProbes` | internal/promote/runner.go:24-44 | the same for a whole promote run over any probe records, with the only reasons to stop early and the error for each |
| `Promote.HonestRunSound` | internal/promote/runner.go:24-44 | over probes that passed in probe.Run such a run stores only certified bindings, keeps the catalog invariant and rejects a target only for its candidate |
| `Acquire.RunPipelines` | internal/proposal/pipeline.go:23-104 | each result slot holds the pipeline of its own plan, or the context error of a plan never started |
| `Acquire.ScheduledSlots` | internal/proposal/pipeline.go:23-52 | every interleaving of the scheduler ends with a result array of that kind, so the theorems below hold of the concurrent run |
| `Acquire.Propose` | internal/proposal/runner.go:63-134 | the proposal runner succeeds if and only if its stages did, some pipeline gave a candidate and the selection raises no error; then it answers the selection, else what was merged |
| `Acquire.NoFailureSucceeds` | internal/proposal/pipeline.go:80-104 | a pipeline without an error had evidence planned for every pair of its binding stage |
| `Acquire.SelectedPlannedTogether` | internal/proposal/runner.go:111-128 | all renumbering composed: selected candidate k and plan k were planned for each other by one pipeline, which was started and whose evidence stage answered for every pair, and the plan has the inputs and fixtures of that pair |
| `Acquire.MadeIsEarned` | internal/promote/runner.go:59-114 | a binding a promotion stored is about one candidate whose probe record passed |
| `Acquire.StoredBindingProvenance` | internal/promote/runner.go:116-170 | a stored (execution, verify) pair is one that a single successful pipeline planned for that candidate; under execute it ran, passed every check and left one piece of evidence per check |
| `Acquire.EarnedIsAdded` | internal/promote/runner.go:116-170 | the same as one statement about the binding: planned by one successful pipeline, and under execute really checked |
| `Provenance.ParsedStagesKeepContract` | internal/proposal/binding/parse.go:29-51 | a binding stage that passes on what Parse answers keeps its two lists aligned, which is all the pipelines rely on |
| `Provenance.AddedFromRaw` | internal/proposal/binding/parse.go:53-109 | every binding an acquisition added goes back to one raw candidate of one answer, normalised, planned with the first material recorded for its raw position, in a pipeline that had evidence for every pair of that answer |
| `TraceLog.BuildTrace` | internal/tracelog/writer.go:73-99 | a usable id and start time are kept, blank ones become the clock's, and status, work and error are passed on |
| `TraceLog.Writer.Write` | internal/tracelog/writer.go:42-71 | stores the built trace or nothing: a done context, a failing store, an unnamed terminal trace and an id that is blank, a dot name or holds a separator are the only reasons for nothing |
| `Acquisition.EventsAt` | internal/acquisition/runner.go:57-186 | the reported events are the stages in their fixed order, each started and then closed with its ending |
| `Acquisition.Runner.StagesBeforeProbe` | internal/acquisition/runner.go:92-146 | catalog, observe and proposal stages: each started and closed once, stopping at the first that fails |
| `Acquisition.Runner.SavePromotions` | internal/acquisition/runner.go:171-181 | the promotions recorded in the run's state are exactly the saves performed, whether or not promotion then fails |
| `Acquisition.Runner.WriteTerminal` | internal/acquisition/runner.go:188-236 | the run is canceled if and only if a failed stage met a done context or a context error, failed for any other failure; Fail and Cancel are lost only to the store; Complete is lost if and only if the store fails or the context is done by then |
| `Acquisition.Runner.Run` | internal/acquisition/runner.go:52-236 | exactly one Start and, once it stored a trace, exactly one terminal call, last, with its id and start time; Completed if and only if all six stages succeeded; progress is a prefix of the six stages with only the last possibly unsuccessful; the trace left is the terminal one, or the running one if that was lost; its promotions are the saves performed, and every binding added was planned, probed and passed in this run; with nothing outside interfering, a run with a proposal and promotable candidates completes; if every stage succeeds and the context is done only by the last look, the trace stays running |
| `Acquisition.CanceledLateHappens` | internal/acquisition/runner.go:188-236 | the witness: a concrete request and surroundings in which every stage succeeds and the context is done only by the last look |
| `Acquisition.OutcomeAccounted` | internal/acquisition/runner.go:148-186 | every binding of the catalog after a run was there before or was planned by one successful pipeline and, under execute, really checked in this run; a sound catalog stays sound |
| `StageTrace.ItemsConserved` | internal/proposal/capability/parse.go:37-65 | keep plus defer plus skip equals the raw count |
| `StageTrace.KeptExact` | internal/proposal/surface/parse.go:55-83 | the kept positions increase, have pairwise different keys and respect the limit |
| `StageTrace.KeptComplete` | internal/proposal/surface/parse.go:55-83 | an item with a key is kept, or repeats a kept one before it, or came when all places were taken |
| `StageTrace.DecisionsExact` | internal/proposal/capability/parse.go:41-63 | each traced decision read against the final outcome: out, repetition, deferred only when full, kept |
| `StageTrace.KeptCounted` | internal/proposal/surface/parse.go:55-83 | where repetitions are skipped, selected equals keep |
| `CapabilityStage.NormalizeStrings` | internal/proposal/capability/parse.go:109-124 | trimmed values, blanks dropped, first occurrences in order |
| `CapabilityStage.NoDupOver` | internal/proposal/capability/parse.go:126-128 | removing repetitions before a merge does not change the merged list |
| `CapabilityStage.Normalize` | internal/proposal/capability/parse.go:29-67 | the selected plans are the first of each id up to the limit with the merged sources of their id; reused plus created equals selected; items are conserved |
| `CapabilityStage.SelectedMerged` | internal/proposal/capability/parse.go:29-67 | selected ids are valid and distinct; sources are duplicate-free, exactly those of all acceptable plans of the id, and all known surfaces |
| `CapabilityStage.AcceptableIsSelected` | internal/proposal/capability/parse.go:29-107 | while there is room the id of every raw plan with a valid id and at least one source, all shown, is selected, however confident the plan |
| `CapabilityStage.SelectedIsCleaned` | internal/proposal/capability/parse.go:69-75 | a selected plan has the id, description and confidence of an acceptable raw one, trimmed |
| `CapabilityStage.Parse` | internal/proposal/capability/parse.go:17-27 | the stage succeeds if and only if the answer decodes and some plan is acceptable |
| `BindingStage.MaterialIndex` | internal/proposal/binding/parse.go:159-171 | the index maps each non-negative raw position to the first material recorded for it |
| `BindingStage.FirstMaterialIsFirst` | internal/proposal/binding/parse.go:159-171 | that material has the position and no earlier one does |
| `BindingStage.Normalize` | internal/proposal/binding/parse.go:53-109 | candidates and materials stay aligned: output k is one raw candidate with the first material of its raw position, renumbered k; items are conserved; selected equals keep |
| `BindingStage.Parse` | internal/proposal/binding/parse.go:29-51 | success if and only if some candidate is usable; otherwise the error names the first of the three special reasons that any raw candidate was skipped for; the length-mismatch error after the loop is unreachable |
| `BindingStage.AnswerIsUsable` | internal/proposal/binding/parse.go:53-109 | every candidate answered is complete, pairwise different from the others, has the input its stdout path names, which is none of source, input and stdin, and the limit holds |
| `BindingStage.CompleteIsAnswered` | internal/proposal/binding/parse.go:53-109 | while there is room every complete candidate that has a material is answered, or one with its ids and execution is |
| `BindingStage.FilledIn` | internal/proposal/binding/parse.go:111-157 | provider, capability id and description left open are filled in from the request, placeholders for the provider included; an empty stdout entry is dropped, everything else kept |
| `SurfaceStage.Normalize` | internal/proposal/surface/parse.go:33-84 | the selected items are the first of each kind and lower-case name the policy allows, up to the limit; items are conserved; selected equals keep |
| `SurfaceStage.SelectedAllowed` | internal/proposal/surface/parse.go:55-83 | selected items are named, allowed by kind, name and patterns, and pairwise different in kind and lower-case name |
| `SurfaceStage.AllowedIsSelected` | internal/proposal/surface/parse.go:55-83 | while there is room every item that the policy allows and the answer does not defer or skip is represented by one of its kind and lower-case name |
| `SurfaceStage.SelectedIsCleaned` | internal/proposal/surface/parse.go:86-104 | a selected item is a raw one with trimmed texts and lower-case kind, a command when it names no kind, kept when it says nothing |
| `SurfaceStage.SaidIsTraced` | internal/proposal/surface/parse.go:55-83 | an item the answer itself defers or skips is traced as it says |
| `SurfaceStage.Parse` | internal/proposal/surface/parse.go:18-31 | success if and only if the answer decodes, the policy is usable and some item is kept |
| `EvidenceStage.Normalize` | internal/proposal/evidence/parse.go:28-66 | a check without subject, predicate or accepted parameters is dropped; of the others a file check is kept if and only if its input is one of the material, and any other check whatever its input; counters add up, and the level is the one the kept checks earn, not the one claimed |
| `EvidenceStage.PredicatesSorted` | internal/proposal/evidence/level.go:43-70 | the three strengths share no predicate and cover all 19 that the checker knows |
| `EvidenceStage.Parse` | internal/proposal/evidence/parse.go:16-26 | the stage fails if and only if the answer does not decode or is an execute spec without a usable check |
| `EvidenceStage.EarnedLevels` | internal/proposal/evidence/level.go:14-70 | an execute spec with one check of predicate contains, non_empty or exists earns L3, L2 or L1, and one without checks L0 |
| `EvidenceStage.DeriveLevel` | internal/proposal/evidence/level.go:14-70 | an execute spec earns L3 for one of the named semantic predicates, else L2 for an artifact predicate, else L1 for any check; contract specs are L1 |
| `EvidenceStage.UsableChecksExact` | internal/proposal/evidence/parse.go:28-66 | a check is kept if and only if it was proposed and is usable |
| `EvidenceStage.OnlyChecksCanFail` | internal/proposal/evidence/parse.go:16-26 | a parsed spec is later invalid only for what the checker's tables say of its checks |
| `Lines.SameLinesIff` | internal/check/predicate_text.go:314-324 | for all texts, comparing the joined lines compares the lines |
| `Lines.TextSplitsIntoLines` | internal/check/predicate_text.go:314-320 | a text of CR- and LF-free lines with any mixture of line ends splits into its lines minus the empty ones at the end |
| `Lines.LineEndsDoNotMatter` | internal/check/predicate_text.go:314-324 | two such texts compare equal if and only if they have the same lines up to trailing empty ones |
| `Lines.JoinSplits` | internal/check/predicate_text.go:314-320 | splitting joined lines gives them back minus trailing empty ones |
| `Lines.FilterLines` | internal/check/predicate_text.go:253-261 | the loop joins exactly the lines that contain the pattern |
| `Lines.ContainingInOrder` | internal/check/predicate_text.go:253-261 | those are all the lines that contain it, in order, and no other |
| `Lines.FilteredLinesIff` | internal/check/predicate_text.go:253-261 | for every text and pattern, filtered text splits into exactly the matching lines if and only if no matching line ends in a CR |
| `Lines.JoinSplitsIff` | internal/check/predicate_text.go:253-261 | LF-free lines survive joining and splitting if and only if none ends in a CR and the last is not empty |
| `Lines.FilteredLinesWithCR` | internal/check/predicate_text.go:253-261 | the witness: a text two of whose lines match, one of them ending in a CR, that does not split back |
| `Lines.DelimitedColumnByIndex` | internal/check/predicate_text.go:277-286 | the column cells of all lines that have one |
| `Lines.CellsExact` | internal/check/predicate_text.go:277-312 | one cell for each line long enough to have the column, in order, and none for another |
| `Lines.DelimitedColumnByHeader` | internal/check/predicate_text.go:288-312 | the cells under the first header whose trimmed text matches, or the error that says why there is none |
| `Lines.ColumnByIndexAndHeader` | internal/check/predicate_text.go:277-312 | when a header's first trimmed match is in a column, extraction by name succeeds, and extraction by number gives the header cell followed by what extraction by name gives |
| `Stream.QueueBounded` | internal/httpserver/sse.go:20-38 | in every state of every run the channel holds at most 64 messages |
| `Stream.StepInv` | internal/httpserver/sse.go:28-95 | the channel stays FIFO, in producer order with the terminal message last, and every emitted message is accounted for, under every step |
| `Stream.DeliveredInOrder` | internal/httpserver/sse.go:28-74 | in every interleaving the client sees each producer's messages in order, at most one terminal message and nothing after it |
| `Stream.DropsHaveCause` | internal/httpserver/sse.go:90-95 | a message is dropped only if its emitter's context, the client or the connection is gone |
| `Stream.NoSenderBlockedAfterExit` | internal/httpserver/sse.go:28-74 | after the consumer has left every blocked sender can go on |
| `Stream.NeverStuck` | internal/httpserver/sse.go:28-74 | short of the final state the stream has a step of its own |
| `Stream.ConnectedStreamCompletes` | internal/httpserver/sse.go:28-74 | a connected client with working writes gets exactly one terminal message, last, after every message of emitters that did not give up |
| `Stream.RunsAreBounded` | internal/httpserver/sse.go:28-74 | the messages to emit bound the length of every run |
| `Wire.ReadStream` | internal/cli/client/stream.go:56-83 | the loop over lines computes the specification ReadFrom |
| `Wire.PrintedAs` | internal/httpserver/sse.go:76-88 | an event is printed as an event line, a data line and a blank line |
| `Wire.LongLineStops` | internal/cli/client/stream.go:56-83 | a line of 65,536 characters or more ends the reading |
| `Wire.EventRead` | internal/httpserver/sse.go:76-88 | one printed event is read as exactly that event |
| `Wire.UnknownNameStops` | internal/cli/client/stream.go:85-114 | an event of a name the reader does not know ends the stream |
| `Wire.CRLFRead` | internal/cli/client/stream.go:56-83 | a carriage return before a line end makes no difference |
| `Wire.OtherLinePassed` | internal/cli/client/stream.go:56-83 | a line of another field is passed over |
| `Wire.PrintedIsDelivered` | internal/cli/client/stream.go:56-114 | reading any printed sequence hands over exactly those events up to the first that ends the stream |
| `Wire.StreamRoundTrip` | internal/cli/client/stream.go:56-114 | progress events followed by one result or error reach the handler exactly as printed, and the last payload decides the outcome |
| `Wire.ArrivedExactly` | internal/cli/client/stream.go:56-83 | the number of events counted as arrived in a cut text is exactly the number printed in full |
| `Wire.CutStreamDelivers` | internal/cli/client/stream.go:56-83 | wherever the connection is cut, exactly the events that arrived in full are handed over |
| `RotatingLog.AnyWritesKeepSuffix` | internal/logging/rotate.go:31-72 | after any sequence of writes the files, oldest to newest, are a suffix of all records with none split; at most maxFiles rotated files; size bounds; nothing lost before every slot is in use |
| `RotatingLog.RotationLosesOldest` | internal/logging/rotate.go:60-72 | a rotation with every slot in use forgets exactly the records of slot maxFiles |
| `RotatingLog.WroteTight` | internal/logging/rotate.go:46-58 | no file is empty, each is within the limit or holds one record, and each was closed only because the next record did not fit |
| `RotatingLog.FullDirectoryRetains` | internal/logging/rotate.go:46-58 | neighbouring files together exceed the limit, which bounds what a full directory retains from below |
| `RotatingLog.HoleMovesDown` | internal/logging/rotate.go:60-72 | one rename of the loop moves the free slot down by one, and the name it renames to is never in use |
| `RotatingLog.RotatingWriter.Rotate` | internal/logging/rotate.go:60-72 | the loop drops the oldest slot, moves every other up by one and frees the live slot |
| `RotatingLog.RotatingWriter.RotateIfNeeded` | internal/logging/rotate.go:46-58 | nothing happens while there is no live file or the record fits |
| `RotatingLog.RotatingWriter.Write` | internal/logging/rotate.go:31-44 | the directory after a write is exactly the one the specification function describes |
| `Selector.ScoreBinding` | internal/use/select/candidate.go:62-86 | scores an admissible binding as the specification Score says, and drops the others |
| `Selector.ScoredIffConsidered` | internal/use/select/candidate.go:62-79 | a binding is scored if and only if it is promoted, of the wanted provider, at the wanted level, readable, and some word of the intent names or describes its capability |
| `Selector.SuppliedInputsCount` | internal/use/select/candidate.go:80-81 | supplying more of the required inputs raises the score by exactly one for each |
| `Selector.MoreSuppliedRanksFirst` | internal/use/select/candidate.go:132-142 | of two candidates that the intent fits equally well the one with more of its required inputs supplied ranks first |
| `Selector.TokensCount` | internal/use/select/candidate.go:88-101 | one more word of the intent adds four points if the capability id has it and two if the description has it |
| `Selector.ProviderCounts` | internal/use/select/candidate.go:82-84 | asking for the provider of a binding adds four points |
| `Selector.Build` | internal/use/select/candidate.go:49-60 | the nested loops score the entries of all capabilities in order |
| `Selector.EntriesExact` | internal/use/select/candidate.go:49-60 | every binding of every capability is looked at, and nothing else |
| `Selector.BetterWeak` | internal/use/select/candidate.go:132-142 | the comparison is a weak order |
| `Selector.RankingUnique` | internal/use/select/candidate.go:49-142 | any arrangement of capabilities and bindings and any correct sort lead to the same ranking |
| `Selector.LocalChoiceMaximal` | internal/use/select/local.go:3-14 | the local choice has the maximal score and, among those, the first capability id, and within it the first binding id |
| `Selector.AmbiguousIff` | internal/use/select/local.go:3-14 | exactly when local selection reports ambiguity: another capability ties, and the first of the tied ones does so with a single binding |
| `Selector.TieNotReported` | internal/use/select/local.go:3-14 | the witness: a concrete request whose candidates rank so that another capability has the top score and local selection still answers |
| `Selector.IndexByID` | internal/use/select/llm.go:104-131 | the id map stands for the last shortlisted candidate of each binding id |
| `Selector.LastIsLast` | internal/use/select/llm.go:104-131 | a candidate whose id comes in no later candidate is the one its id stands for |
| `Selector.ValidateInputsPatch` | internal/use/select/llm.go:133-159 | a patch is accepted if and only if every trimmed key is a required, non-target input that the caller left open |
| `Selector.SelectWithLLM` | internal/use/select/llm.go:44-78 | for any answer: exactly the candidate it names among the top K with its validated patch, or exactly the error that fits; the LLM is blamed exactly when the call failed |
| `Selector.Select` | internal/use/select/runner.go:92-105 | no match if and only if nothing scored; the LLM decides when it is there and forced, or the best candidate lacks an input other than the target, or the second is within four points; else the local choice; every selection is a ranked candidate |
| `Planner.MergeInputs` | internal/use/plan/runner.go:60-76 | caller inputs are kept; a patch with an empty key, the target or a caller input is refused; a validated patch is merged and never refused |
| `Planner.PlanInputs` | internal/use/plan/runner.go:39-58 | success means every required input is present and every caller input kept; for a validated patch, exactly when the target fallback completes the inputs, and then name by name: patch and caller supply all but the target, which is the path exactly when it is required and left open |
| `Planner.PlanCompleteIff` | internal/use/plan/runner.go:39-58 | with a usable path the fallback completes the inputs if and only if all required inputs other than the target are there |
| `Resolver.Resolve` | internal/run/resolve/runner.go:43-97 | the first eligible binding with satisfied inputs, else the first eligible; an unreadable eligible one met before ends the search. In the words of the request: the binding found is promoted, the one, the provider and the level asked for, lists the inputs its execution refers to, and leaves one open only if every such binding does; not found if and only if there is none |
| `Resolver.ResolvedUnique` | internal/run/resolve/runner.go:43-97 | that settles the result: two results meeting the contract are equal |
| `Resolver.RunBinding` | internal/run/runner.go:86-156 | exactly which error, if any, a run of a resolved binding records; it is verified if and only if asked for and every check passed |
| `Resolver.RunSucceedsIff` | internal/run/runner.go:86-156 | a run succeeds if and only if its provider is known, all inputs are there, the execution ends, and then the spec holds when asked to verify, and else the exit code is zero |
| `Resolver.RunFormally` | internal/run/runner.go:55-185 | a formal run leaves no record if and only if the request names no capability; else its record is the missing capability, the unresolved binding, or exactly the run of the binding found, which is stored and serves the request |
| `Use.EntriesUnique` | internal/use/select/candidate.go:49-60 | in a sound catalog capability id and binding id name one binding |
| `Use.OnlySelectedEligible` | internal/run/resolve/runner.go:78-97 | asked for the selected ids, the resolver finds that binding eligible and no other |
| `Use.ResolvesToSelected` | internal/run/resolve/runner.go:43-97 | the look-up of a formal run comes to the selected binding and its required inputs, and to nothing else |
| `Use.ContractOnlyExcludedIff` | internal/use/runner.go:171-181 | over all sound catalogs and requests: everything a use has to choose from is proven by execution at L2 or above if and only if its minimum level is the default or at least L2 |
| `Use.UseIntent` | internal/use/runner.go:58-169 | with any LLM over a sound, unchanged catalog: a blank intent is refused; the ranking holds exactly the stored bindings that fit the request, of the wanted provider alone if one is wanted; a forced LLM that is there decides; the use follows its selection, fails to plan if and only if the inputs stay incomplete, never because of the patch, and otherwise runs the selected binding, of the wanted provider, with all inputs; from minimum level L2 up every ranked candidate is proven by execution |
| `Use.RankedIffFits` | internal/use/runner.go:78-92 | a stored binding is ranked if and only if it fits the request in its own words |
| `Use.PlanAndRun` | internal/use/runner.go:95-147 | from a selection to the record: planning error or run, exactly as the completeness of the planned inputs decides |
| `Use.RanIsSelected` | internal/run/runner.go:55-156 | the second, independent resolution agrees with the selection, so the run cannot fail with capability_not_found, binding_not_found or invalid_run_input |
| `Model.CapabilityIDMeans` | internal/model/ids.go:13-31 | a capability id is valid if and only if it is two non-empty words of lower-case letters and digits joined by one dot |
| `Model.RefusedForDefect` | internal/model/validate.go:23-75 | a capability record is refused if and only if it or one of its bindings has one of the named defects |
| `Model.CapabilityIDTrimmed` | internal/model/validate.go:23-40 | a valid capability id is trimmed, non-empty and bar-free |

## Left out

- Of the canonical text of an execution only its lexical shape as JSON (RFC 8259, section 7) is relied on; the encoder
  itself is not modelled.
- Strings are sequences of characters; the source works on UTF-8 bytes. The line limit of the stream reader is therefore
  counted in characters.
- Input keys that hold a brace, which can match across several placeholders; no placeholder has such a name.
- Timestamps, durations, messages and proposal diagnostics; of errors only the kind is kept.
- Checks that a runner or one of its collaborators is missing (nil), and a missing context.
- The step events inside the proposal stage; the progress of an acquisition is its stage events.
- Provider commands, LLM prompts and summaries, archives, hashing, base64 and JSON: their results are arbitrary values.
- Lower-casing is an arbitrary function in the stage normalisers, and so is the trimming of an execution kind.
- Concurrent promoters of one capability: the code takes no lock, so one promoter at a time is modelled.
- The catalog does not change between selecting and running; progress of a use, and store failures while its records are
  saved, are not modelled.
- Listing the store's directory while a temporary file is written: the store is a map whose save validates, then writes
  all or nothing.
- Errors of the file system inside the log writer, and its mutex: one write at a time, and each succeeds.
- Progress is emitted by goroutines that the run waits for; a producer that outlives its run is not modelled.
- Fairness: the protocol theorems say every run is bounded and never stuck short of its end, not how a scheduler picks.
- The binding stage edits the execution spec of a raw candidate in place; here the normalised candidate is a new value,
  so later readers of the raw answer are not modelled.
- Stage answers arrive decoded; a decoding failure is one value. Policies arrive normalised, patterns compiled.
- `delimitedColumn` decides by a number parser whether a column is an index or a header; both branches are modelled,
  the decision is not.
- The text, file, hash, archive and JSON predicates themselves, other than their line and column cutting.
- Provider loading, observation, the replay and rules stage runners, HTTP routing, CLI commands, configuration, daemon
  life cycle, evaluation metrics: no property of the kind proved here.
