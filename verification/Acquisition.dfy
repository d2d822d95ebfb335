/** internal/acquisition/runner.go: the six stages of an acquisition run, the progress it reports and the one trace
    it leaves behind, over the real proposal, probe and promotion of this model. */
module Acquisition {
  import opened Common
  import opened Text
  import opened Model
  import Check
  import P = Proposal
  import ProbeRunner
  import opened Promote
  import opened Acquire
  import opened TraceLog

  datatype Stage = EntryStage | CatalogStage | ObserveStage | ProposalStage | ProbeStage | PromoteStage

  const STAGES: seq<Stage> := [EntryStage, CatalogStage, ObserveStage, ProposalStage, ProbeStage, PromoteStage]

  datatype Ending = Success | Failure | Cancellation

  const SIX_SUCCESSES: seq<Ending> := [Success, Success, Success, Success, Success, Success]

  datatype Event = Started(stage: Stage) | Closed(stage: Stage, ending: Ending)

  /** What errors.Is can tell about an error: it wraps a context error or it does not. */
  datatype Fault = ContextFault | OtherFault

  /** An answer of a collaborator; `value` may be there although it failed, and be missing although it did not. */
  datatype Answer<T> = Answer(value: Option<T>, fault: Option<Fault>)

  /** Everything outside the run. `done(n)` is what the n-th look at the context sees. */
  datatype Outside = Outside(
    done: nat -> bool, stamp: nat -> Stamp, traceFails: nat -> bool, wraps: Stage -> Fault,
    load: Answer<string>, listFails: bool, observe: Answer<seq<string>>, stageFails: bool,
    stages: Stages, options: P.SelectOptions, canonical: P.Canonical,
    world: ProbeRunner.World, ids: Identities, weather: Weather)

  datatype Request = Request(providerID: string, workRoot: string, traceID: string)

  /** A context that is done stays done; clock readings make usable ids; the binding stage keeps its lists aligned. */
  ghost predicate Lawful(out: Outside) {
    && (forall i: nat, j: nat | i <= j && out.done(i) :: out.done(j))
    && (forall i: nat :: GoodStamp(out.stamp(i)))
    && StageContract(out.stages)
  }

  // ---------------------------------------------------------------- progress

  /** The events of stages `first`, `first + 1`, … that ended as listed: each is started and closed once, in order. */
  function EventsOf(first: nat, endings: seq<Ending>): seq<Event>
    requires first + |endings| <= |STAGES|
  {
    if endings == [] then []
    else
      var n := |endings| - 1;
      EventsOf(first, endings[..n]) + [Started(STAGES[first + n]), Closed(STAGES[first + n], endings[n])]
  }

  lemma EventsSnoc(first: nat, endings: seq<Ending>, ending: Ending)
    requires first + |endings| < |STAGES|
    ensures EventsOf(first, endings + [ending]) == EventsOf(first, endings)
      + [Started(STAGES[first + |endings|]), Closed(STAGES[first + |endings|], ending)]
  {
    assert (endings + [ending])[..|endings|] == endings;
  }

  lemma {:induction false} EventsConcat(base: seq<Event>, first: nat, a: seq<Ending>, b: seq<Ending>)
    requires first + |a| + |b| <= |STAGES|
    ensures base + EventsOf(first, a) + EventsOf(first + |a|, b) == base + EventsOf(first, a + b)
  {
    if b == [] {
      assert a + b == a;
      assert base + EventsOf(first, a) + [] == base + EventsOf(first, a);
    } else {
      var n := |b| - 1;
      var at := first + |a| + n;
      EventsConcat(base, first, a, b[..n]);
      assert (a + b)[..|a + b| - 1] == a + b[..n];
      Regroup(base + EventsOf(first, a), EventsOf(first + |a|, b[..n]), [Started(STAGES[at]), Closed(STAGES[at], b[n])]);
      Regroup(base, EventsOf(first, a + b[..n]), [Started(STAGES[at]), Closed(STAGES[at], b[n])]);
    }
  }

  /** Read back by position: the stages in their fixed order, each started and then closed, nothing in between. */
  lemma {:induction false} EventsAt(first: nat, endings: seq<Ending>, k: nat)
    requires first + |endings| <= |STAGES| && k < |endings|
    ensures |EventsOf(first, endings)| == 2 * |endings|
    ensures EventsOf(first, endings)[2 * k] == Started(STAGES[first + k])
    ensures EventsOf(first, endings)[2 * k + 1] == Closed(STAGES[first + k], endings[k])
  {
    var n := |endings| - 1;
    if n == 0 {
      FirstEvents(first, endings[0]);
      assert endings == [endings[0]];
    } else if k < n {
      EventsAt(first, endings[..n], k);
    } else {
      EventsAt(first, endings[..n], 0);
    }
  }

  /** Only the last stage reported may have ended without success. */
  predicate PrefixOfStages(endings: seq<Ending>) {
    forall i | 0 <= i < |endings| - 1 :: endings[i] == Success
  }

  /** A run of successes followed by the endings of the stages after it. */
  lemma EndingsJoined(base: seq<Event>, first: nat, a: seq<Ending>, b: seq<Ending>)
    requires first + |a| + |b| <= |STAGES| && b != []
    requires (forall i | 0 <= i < |a| :: a[i] == Success) && PrefixOfStages(b)
    ensures PrefixOfStages(a + b) && (a + b)[|a + b| - 1] == b[|b| - 1]
    ensures base + EventsOf(first, a) + EventsOf(first + |a|, b) == base + EventsOf(first, a + b)
  {
    EventsConcat(base, first, a, b);
  }

  // ---------------------------------------------------------------- one stage

  /** The fields a run fills stage by stage. */
  class State {
    var work: Work
    var plans: seq<ProbePlan>

    constructor ()
      ensures work == NO_WORK && plans == []
    {
      work := NO_WORK;
      plans := [];
    }
  }

  /** The stages under a trace: which were reported how, and which one failed, if any. */
  predicate Reached(
    out: Outside, looks: nat, base: seq<Event>, events: seq<Event>, endings: seq<Ending>, failed: Option<(Stage, Fault)>)
  {
    && 0 < |endings| <= 5 && PrefixOfStages(endings) && events == base + EventsOf(1, endings)
    && (if failed.None? then |endings| == 5 else failed.value.0 == STAGES[|endings|])
    && Closing(out, looks, if failed.None? then None else Some(failed.value.1), endings[|endings| - 1])
  }

  lemma {:induction false} ProbeReached(
    out: Outside, looks: nat, base: seq<Event>, events: seq<Event>, fault: Option<Fault>, ending: Ending)
    requires Closing(out, looks, fault, ending)
    requires events == base + EventsOf(1, [Success, Success, Success]) + [Started(ProbeStage), Closed(ProbeStage, ending)]
    ensures events == base + EventsOf(1, [Success, Success, Success, ending])
    ensures fault.Some? ==>
      Reached(out, looks, base, events, [Success, Success, Success, ending], Some((ProbeStage, fault.value)))
  {
    MoreEvents(base, 1, [Success, Success, Success], ending);
    assert [Success, Success, Success] + [ending] == [Success, Success, Success, ending];
  }

  lemma {:induction false} PromoteReached(
    out: Outside, looks: nat, base: seq<Event>, events: seq<Event>, fault: Option<Fault>, ending: Ending)
    requires Closing(out, looks, fault, ending)
    requires events == base + EventsOf(1, [Success, Success, Success, Success])
      + [Started(PromoteStage), Closed(PromoteStage, ending)]
    ensures Reached(out, looks, base, events, [Success, Success, Success, Success, ending],
      if fault.Some? then Some((PromoteStage, fault.value)) else None)
  {
    MoreEvents(base, 1, [Success, Success, Success, Success], ending);
    assert [Success, Success, Success, Success] + [ending] == [Success, Success, Success, Success, ending];
  }

  predicate LoadOk(out: Outside) {
    out.load.fault.None? && out.load.value.Some?
  }

  /** The trace can be started: the request is complete, the provider loads, and the first write goes through. */
  predicate Opens(req: Request, out: Outside, looks: nat) {
    && !Blank(req.providerID) && !Blank(req.workRoot) && LoadOk(out)
    && !out.done(looks) && !out.traceFails(0)
    && Storable(BuildTrace<Stage>(TraceRequest(TrimSpace(req.traceID), "", NO_WORK, None), Running, out.stamp(0)).id)
  }

  predicate ObserveOk(out: Outside) {
    out.observe.fault.None? && out.observe.value.Some?
  }

  /** How a stage closes: canceled when its error wraps a context error or the context is done by now. */
  predicate Closing(out: Outside, looks: nat, fault: Option<Fault>, ending: Ending) {
    && (ending == Success <==> fault.None?)
    && (ending == Cancellation ==> fault == Some(ContextFault) || (looks > 0 && out.done(looks - 1)))
  }

  class Runner {
    const tracer: Writer<Stage>
    const catalog: Catalog
    /** What the progress handler has been given. */
    var events: seq<Event>
    /** How often the run has looked at the context. */
    var looks: nat

    constructor (tracer: Writer<Stage>, catalog: Catalog)
      ensures this.tracer == tracer && this.catalog == catalog && events == []
    {
      this.tracer, this.catalog := tracer, catalog;
      events, looks := [], 0;
    }

    method ContextDone(out: Outside) returns (b: bool)
      modifies this`looks
      ensures looks == old(looks) + 1 && b == out.done(old(looks))
    {
      b := out.done(looks);
      looks := looks + 1;
    }

    /** The progress event that ends a stage, with progressStatus for its error. */
    method Close(stage: Stage, fault: Option<Fault>, missing: bool, out: Outside)
      returns (r: Option<Fault>, ghost ending: Ending)
      modifies this`events, this`looks
      ensures r == if fault.None? && missing then Some(OtherFault) else fault
      ensures events == old(events) + [Closed(stage, ending)]
      ensures ending == if fault.Some? then (if out.done(old(looks)) || fault.value == ContextFault then Cancellation else Failure)
        else if missing then Failure else Success
      ensures Closing(out, looks, r, ending)
      ensures r.None? ==> looks == old(looks)
    {
      r := fault;
      var shown := Success;
      if fault.Some? {
        var done := ContextDone(out);
        shown := if done || fault.value == ContextFault then Cancellation else Failure;
      } else if missing {
        r := Some(OtherFault);
        shown := Failure;
      }
      events := events + [Closed(stage, shown)];
      ending := shown;
    }

    method LoadProvider(out: Outside) returns (fault: Option<Fault>, ghost ending: Ending)
      modifies this`events, this`looks
      ensures events == old(events) + [Started(EntryStage), Closed(EntryStage, ending)]
      ensures Closing(out, looks, fault, ending)
      ensures fault.None? <==> LoadOk(out)
      ensures fault.None? ==> looks == old(looks)
    {
      events := events + [Started(EntryStage)];
      fault, ending := Close(EntryStage, out.load.fault, out.load.value.None?, out);
    }

    method ListCatalog(out: Outside) returns (fault: Option<Fault>, ghost ending: Ending)
      modifies this`events, this`looks
      ensures events == old(events) + [Started(CatalogStage), Closed(CatalogStage, ending)]
      ensures Closing(out, looks, fault, ending)
      ensures fault.None? <==> !out.done(old(looks)) && !out.listFails
      ensures fault.None? ==> looks == old(looks) + 1
    {
      events := events + [Started(CatalogStage)];
      var done := ContextDone(out);
      if done {
        events, fault, ending := events + [Closed(CatalogStage, Cancellation)], Some(ContextFault), Cancellation;
      } else if out.listFails {
        events, fault, ending := events + [Closed(CatalogStage, Failure)], Some(out.wraps(CatalogStage)), Failure;
      } else {
        events, fault, ending := events + [Closed(CatalogStage, Success)], None, Success;
      }
    }

    method ObserveProvider(st: State, out: Outside) returns (fault: Option<Fault>, ghost ending: Ending)
      modifies this`events, this`looks, st
      ensures events == old(events) + [Started(ObserveStage), Closed(ObserveStage, ending)]
      ensures Closing(out, looks, fault, ending)
      ensures fault.None? <==> ObserveOk(out)
      ensures fault.None? ==> looks == old(looks)
      ensures st.work == old(st.work).(observations := out.observe.value.GetOr(old(st.work).observations))
      ensures st.plans == old(st.plans)
    {
      events := events + [Started(ObserveStage)];
      if out.observe.value.Some? {
        st.work := st.work.(observations := out.observe.value.value);
      }
      fault, ending := Close(ObserveStage, out.observe.fault, out.observe.value.None?, out);
    }

    method ProposeCandidates(st: State, out: Outside)
      returns (fault: Option<Fault>, ghost ending: Ending, ghost pipelines: seq<P.PipelineResult>, ghost x: Option<Proposed>)
      requires StageContract(out.stages)
      modifies this`events, this`looks, st
      ensures events == old(events) + [Started(ProposalStage), Closed(ProposalStage, ending)]
      ensures Closing(out, looks, fault, ending)
      ensures !out.stageFails ==> Slots(out.stages, pipelines)
      ensures fault.None? <==> x.Some?
      ensures fault.None? ==> looks == old(looks)
      ensures fault.None? <==> !out.stageFails && Selectable(pipelines, out.options, out.canonical)
      ensures st.work == old(st.work).(candidates := st.work.candidates)
      ensures x.None? ==> st.work.candidates == if out.stageFails then [] else P.Merged(pipelines).candidates
      ensures x.Some? ==>
        && x.value.stages == out.stages && ProposedFrom(x.value)
        && st.work.candidates == x.value.selected.candidates && st.plans == x.value.selected.plans
        && P.Aligned(st.work.candidates, st.plans)
    {
      events := events + [Started(ProposalStage)];
      var proposed, ok;
      proposed, ok, pipelines, x := Propose(out.stages, out.stageFails, out.options, out.canonical);
      st.work := st.work.(candidates := proposed.candidates);
      st.plans := proposed.plans;
      if ok {
        ProposedAligned(x.value);
      }
      fault, ending := Close(ProposalStage, if ok then None else Some(out.wraps(ProposalStage)), false, out);
    }

    method ProbeCandidates(st: State, out: Outside) returns (fault: Option<Fault>, ghost ending: Ending)
      modifies this`events, this`looks, st
      ensures events == old(events) + [Started(ProbeStage), Closed(ProbeStage, ending)]
      ensures Closing(out, looks, fault, ending)
      ensures st.work == old(st.work).(probes := st.work.probes) && st.plans == old(st.plans)
      ensures Probed(st.work.candidates, st.plans, st.work.probes, out.world)
      ensures fault.None? ==> |st.work.probes| == |st.work.candidates|
      ensures fault.None? ==> looks == old(looks)
      ensures ProbeRunner.NeverStructural(out.world) && P.Aligned(st.work.candidates, st.plans) ==> fault.None?
    {
      events := events + [Started(ProbeStage)];
      var probes, error := ProbeRunner.RunProbes(st.work.candidates, st.plans, out.world);
      st.work := st.work.(probes := probes);
      fault, ending := Close(ProbeStage, if error.None? then None else Some(out.wraps(ProbeStage)), false, out);
    }

    /** The promoter, over the real catalog. What it returns is recorded before its error is looked at. */
    method SavePromotions(st: State, out: Outside) returns (error: Option<PromoteError>, ghost made: seq<Capability>)
      requires catalog.Valid()
      requires Probed(st.work.candidates, st.plans, st.work.probes, out.world)
      modifies st, catalog
      ensures st.work == old(st.work).(promotions := st.work.promotions) && st.plans == old(st.plans)
      ensures CalmWeather(out) && AllPromotable(st.work, out) ==> error.None?
      ensures catalog.Valid()
      ensures Saved(old(catalog.records), old(catalog.saves), catalog.records, catalog.saves, st.work, out, made)
    {
      ghost var before := catalog.records;
      RecordsPromotable(st.work.candidates, st.plans, st.work.probes, out.world);
      var promotions;
      promotions, error, made := PromoteProbes(catalog, st.work.candidates, st.work.probes, out.ids, out.weather);
      HonestRun(before, st.work, out, made, promotions);
      st.work := st.work.(promotions := promotions);
    }

    method PromoteCandidates(st: State, out: Outside) returns (fault: Option<Fault>, ghost ending: Ending, ghost made: seq<Capability>)
      requires catalog.Valid()
      requires Probed(st.work.candidates, st.plans, st.work.probes, out.world)
      modifies this`events, this`looks, st, catalog
      ensures events == old(events) + [Started(PromoteStage), Closed(PromoteStage, ending)]
      ensures Closing(out, looks, fault, ending)
      ensures st.work == old(st.work).(promotions := st.work.promotions) && st.plans == old(st.plans)
      ensures CalmWeather(out) && AllPromotable(st.work, out) ==> fault.None?
      ensures fault.None? ==> looks == old(looks)
      ensures catalog.Valid()
      ensures Saved(old(catalog.records), old(catalog.saves), catalog.records, catalog.saves, st.work, out, made)
    {
      events := events + [Started(PromoteStage)];
      var error;
      error, made := SavePromotions(st, out);
      var wrapped := if error == Some(PromoteError.Canceled) then ContextFault else out.wraps(PromoteStage);
      fault, ending := Close(PromoteStage, if error.None? then None else Some(wrapped), false, out);
    }

    /** The two stages that follow a successful proposal. */
    method ProbeAndPromote(st: State, out: Outside, ghost x: Proposed, ghost base: seq<Event>)
      returns (failed: Option<(Stage, Fault)>, ghost endings: seq<Ending>, ghost made: seq<Capability>)
      requires catalog.Valid() && st.work.promotions == []
      requires x.stages == out.stages && ProposedFrom(x)
      requires st.work.candidates == x.selected.candidates && st.plans == x.selected.plans
      requires P.Aligned(st.work.candidates, st.plans)
      requires events == base + EventsOf(1, [Success, Success, Success])
      modifies this`events, this`looks, st, catalog
      ensures Reached(out, looks, base, events, endings, failed)
      ensures Calm(out) && AllPromotable(st.work, out) ==> failed.None?
      ensures Smooth(out) ==> failed.None?
      ensures failed.None? ==> looks == old(looks)
      ensures catalog.Valid()
      ensures Outcome(old(catalog.records), old(catalog.saves), catalog.records, catalog.saves, st.work, out, made, Some(x))
    {
      var fault;
      ghost var ending;
      SmoothPromotable(out, x);
      fault, ending := ProbeCandidates(st, out);
      ProbeReached(out, looks, base, events, fault, ending);
      endings := [Success, Success, Success, ending];
      if fault.Some? {
        RecordsPromotable(st.work.candidates, st.plans, st.work.probes, out.world);
        NothingMade(catalog.records, catalog.saves, st.work, out, Some(x));
        return Some((ProbeStage, fault.value)), endings, [];
      }
      fault, ending, made := PromoteCandidates(st, out);
      PromoteReached(out, looks, base, events, fault, ending);
      endings := [Success, Success, Success, Success, ending];
      MadeAllEarned(old(catalog.records), old(catalog.saves), catalog.records, catalog.saves, st.work, out, made, x);
      failed := if fault.Some? then Some((PromoteStage, fault.value)) else None;
    }

    /** The stages up to a proposal. */
    method StagesBeforeProbe(st: State, out: Outside)
      returns (failed: Option<(Stage, Fault)>, ghost endings: seq<Ending>, ghost x: Option<Proposed>)
      requires StageContract(out.stages) && st.work == NO_WORK && st.plans == []
      modifies this`events, this`looks, st
      ensures 0 < |endings| <= 3 && (failed.None? <==> x.Some?)
      ensures failed.Some? ==> Reached(out, looks, old(events), events, endings, failed)
      ensures failed.None? ==> endings == [Success, Success, Success] && events == old(events) + EventsOf(1, endings)
      ensures failed.None? ==> looks == old(looks) + 1
      ensures Smooth(out) && !out.done(old(looks)) ==> failed.None?
      ensures |endings| >= 2 <==> !out.done(old(looks)) && !out.listFails
      ensures |endings| == 3 <==> !out.done(old(looks)) && !out.listFails && ObserveOk(out)
      ensures st.work.probes == [] && st.work.promotions == []
      ensures x.Some? ==>
        && x.value.stages == out.stages && ProposedFrom(x.value)
        && st.work.candidates == x.value.selected.candidates && st.plans == x.value.selected.plans
        && P.Aligned(st.work.candidates, st.plans)
    {
      ghost var ending;
      var fault;
      fault, ending := ListCatalog(out);
      endings, x := [ending], None;
      FirstEvents(1, ending);
      if fault.Some? {
        return Some((CatalogStage, fault.value)), endings, None;
      }
      fault, ending := ObserveProvider(st, out);
      MoreEvents(old(events), 1, endings, ending);
      endings := endings + [ending];
      if fault.Some? {
        return Some((ObserveStage, fault.value)), endings, None;
      }
      ghost var pipelines;
      fault, ending, pipelines, x := ProposeCandidates(st, out);
      SmoothSelectable(out, pipelines);
      MoreEvents(old(events), 1, endings, ending);
      endings := endings + [ending];
      failed := if fault.Some? then Some((ProposalStage, fault.value)) else None;
    }

    /** The five stages that run under a trace, up to the first that fails. */
    method RunStages(st: State, out: Outside)
      returns (failed: Option<(Stage, Fault)>, ghost endings: seq<Ending>, ghost made: seq<Capability>, ghost x: Option<Proposed>)
      requires StageContract(out.stages) && catalog.Valid()
      requires st.work == NO_WORK && st.plans == []
      modifies this`events, this`looks, st, catalog
      ensures Reached(out, looks, old(events), events, endings, failed)
      ensures Calm(out) && x.Some? && AllPromotable(st.work, out) ==> failed.None?
      ensures Calm(out) && !out.done(old(looks)) && x.None? ==> |endings| == 3
      ensures Smooth(out) && !out.done(old(looks)) ==> failed.None?
      ensures failed.None? ==> looks == old(looks) + 1
      ensures catalog.Valid()
      ensures Outcome(old(catalog.records), old(catalog.saves), catalog.records, catalog.saves, st.work, out, made, x)
    {
      failed, endings, x := StagesBeforeProbe(st, out);
      if failed.Some? {
        NothingMade(catalog.records, catalog.saves, st.work, out, x);
        return failed, endings, [], x;
      }
      failed, endings, made := ProbeAndPromote(st, out, x.value, old(events));
    }

    /** The terminal call. Fail and Cancel go out under a context that cannot be canceled, Complete does not. */
    method WriteTerminal(st: State, started: Trace<Stage>, failed: Option<(Stage, Fault)>, out: Outside)
      returns (written: Option<Trace<Stage>>, ghost status: TraceStatus)
      requires Trimmed(started.id) && Storable(started.id) && Trimmed(started.startedAt) && started.startedAt != ""
      modifies this`looks, tracer
      ensures looks == old(looks) + 1
      ensures status != Running && (status == Completed <==> failed.None?)
      ensures status == TraceStatus.Canceled <==> failed.Some? && (failed.value.1 == ContextFault || out.done(old(looks)))
      ensures status == Failed <==> failed.Some? && failed.value.1 != ContextFault && !out.done(old(looks))
      ensures tracer.calls == old(tracer.calls) + [Call(status, RequestOf(started, st.work, failed), written)]
      ensures written.None? <==> out.traceFails(1) || (status == Completed && out.done(old(looks)))
      ensures written.Some? ==> Continues(started, written.value, status, RequestOf(started, st.work, failed))
      ensures tracer.traces == if written.Some? then old(tracer.traces)[started.id := written.value] else old(tracer.traces)
    {
      assert !Blank(started.id) && started.id != "";
      var request := RequestOf(started, st.work, failed);
      var done := ContextDone(out);
      if failed.None? {
        written := tracer.Write(request, Completed, done, out.stamp(1), out.traceFails(1));
        status := Completed;
      } else if done || failed.value.1 == ContextFault {
        written := tracer.Write(request, TraceStatus.Canceled, false, out.stamp(1), out.traceFails(1));
        status := TraceStatus.Canceled;
      } else {
        written := tracer.Write(request, Failed, false, out.stamp(1), out.traceFails(1));
        status := Failed;
      }
    }

    /** The terminal call, after stages that ended as `rest` says. */
    method EndTrace(st: State, started: Trace<Stage>, failed: Option<(Stage, Fault)>, out: Outside, ghost rest: seq<Ending>)
      returns (trace: Option<Trace<Stage>>, failedStage: Option<Stage>, ghost last: Call<Stage>)
      requires Trimmed(started.id) && Storable(started.id) && Trimmed(started.startedAt) && started.startedAt != ""
      requires 0 < |rest| <= 5 && (if failed.None? then |rest| == 5 else failed.value.0 == STAGES[|rest|])
      requires Closing(out, looks, if failed.None? then None else Some(failed.value.1), rest[|rest| - 1])
      requires Lawful(out)
      modifies this`looks, tracer
      ensures Terminal(started, last, [Success] + rest) && looks == old(looks) + 1
      ensures tracer.calls == old(tracer.calls) + [last] && last.wrote == trace && last.request.work == st.work
      ensures trace.None? <==> out.traceFails(1) || (last.status == Completed && out.done(old(looks)))
      ensures tracer.traces == if trace.Some? then old(tracer.traces)[started.id := trace.value] else old(tracer.traces)
      ensures last.status == TraceStatus.Canceled <==>
        failed.Some? && (failed.value.1 == ContextFault || out.done(old(looks)))
      ensures failedStage == last.request.failedStage == if failed.Some? then Some(failed.value.0) else None
    {
      ghost var status;
      trace, status := WriteTerminal(st, started, failed, out);
      last := Call(status, RequestOf(started, st.work, failed), trace);
      TerminalTold(started, last, rest, failed);
      failedStage := if failed.Some? then Some(failed.value.0) else None;
    }

    /** The checks on the request, the entry stage, and Start. */
    method Open(req: Request, out: Outside)
      returns (started: Option<Trace<Stage>>, error: Option<RunError>, ghost endings: seq<Ending>, ghost calls: seq<Call<Stage>>)
      requires Lawful(out)
      modifies this`events, this`looks, tracer
      ensures error == Some(InvalidInput) <==> Blank(req.providerID) || Blank(req.workRoot)
      ensures error == Some(InvalidInput) <==> endings == []
      ensures |endings| <= 1 && events == old(events) + EventsOf(0, endings)
      ensures tracer.calls == old(tracer.calls) + calls
      ensures error.Some? <==> started.None?
      ensures started.Some? <==> Opens(req, out, old(looks))
      ensures started.Some? ==> started.value.status == Running && looks == old(looks) + 1
      ensures started.None? ==> error == ErrorOf(endings, calls) && TraceStory(calls, endings) && |calls| < 2 && tracer.traces == old(tracer.traces)
      ensures started.Some? ==>
        && endings == [Success] && |calls| == 1 && calls[0].status == Running && calls[0].wrote == started
        && Trimmed(started.value.id) && Storable(started.value.id)
        && Trimmed(started.value.startedAt) && started.value.startedAt != ""
        && tracer.traces == old(tracer.traces)[started.value.id := started.value]
    {
      assert events + [] == events && tracer.calls + [] == tracer.calls;
      if Blank(req.providerID) || Blank(req.workRoot) {
        return None, Some(InvalidInput), [], [];
      }
      var fault;
      ghost var ending;
      fault, ending := LoadProvider(out);
      endings := [ending];
      FirstEvents(0, ending);
      if fault.Some? {
        return None, Some(ProviderLoadFailed), endings, [];
      }
      var request := TraceRequest(TrimSpace(req.traceID), "", NO_WORK, None);
      var done := ContextDone(out);
      started := tracer.Write(request, Running, done, out.stamp(0), out.traceFails(0));
      calls := [Call(Running, request, started)];
      error := if started.None? then Some(TraceWriteFailed) else None;
    }

    /** Everything after Open stored a trace with the call `start`. */
    method Finish(
      ghost start: Call<Stage>, ghost events0: seq<Event>, ghost calls0: seq<Call<Stage>>, ghost traces0: map<string, Trace<Stage>>,
      started: Trace<Stage>, out: Outside)
      returns (trace: Option<Trace<Stage>>, failedStage: Option<Stage>, ghost endings: seq<Ending>, ghost last: Call<Stage>,
        ghost made: seq<Capability>, ghost work: Work, ghost x: Option<Proposed>)
      requires Lawful(out) && catalog.Valid()
      requires start.status == Running && start.wrote == Some(started)
      requires Trimmed(started.id) && Storable(started.id) && Trimmed(started.startedAt) && started.startedAt != ""
      requires events == events0 + EventsOf(0, [Success]) && tracer.calls == calls0 + [start]
      requires tracer.traces == traces0[started.id := started]
      modifies this`events, this`looks, tracer, catalog
      ensures Told(out, looks, start, last, endings, events0, events, calls0, tracer.calls, traces0, tracer.traces)
      ensures last.request.work == work && last.wrote == trace && last.request.failedStage == failedStage
      ensures Calm(out) && x.Some? && AllPromotable(work, out) ==> failedStage.None?
      ensures Calm(out) && !out.done(old(looks)) && x.None? ==> failedStage == Some(ProposalStage)
      ensures Smooth(out) && !out.done(old(looks)) ==> failedStage.None?
      ensures failedStage.None? ==> looks == old(looks) + 2
      ensures catalog.Valid()
      ensures Outcome(old(catalog.records), old(catalog.saves), catalog.records, catalog.saves, work, out, made, x)
    {
      var st := new State();
      var failed;
      ghost var rest;
      failed, rest, made, x := RunStages(st, out);
      trace, failedStage, last := EndTrace(st, started, failed, out, rest);
      Tell(out, looks, start, last, rest, events0, events, calls0, tracer.calls, traces0, tracer.traces);
      endings, work := [Success] + rest, st.work;
    }

    /** Run. `calls` are the trace calls it made, `endings` how the stages it reached ended. */
    method Run(req: Request, out: Outside)
      returns (trace: Option<Trace<Stage>>, error: Option<RunError>, ghost endings: seq<Ending>,
        ghost calls: seq<Call<Stage>>, ghost made: seq<Capability>, ghost work: Work, ghost x: Option<Proposed>)
      requires Lawful(out) && catalog.Valid()
      modifies this`events, this`looks, tracer, catalog
      ensures error == Some(InvalidInput) <==> Blank(req.providerID) || Blank(req.workRoot)
      ensures error == Some(InvalidInput) <==> endings == []
      ensures |endings| <= 6 && PrefixOfStages(endings) && events == old(events) + EventsOf(0, endings)
      ensures tracer.calls == old(tracer.calls) + calls && TraceStory(calls, endings)
      ensures |calls| == 2 ==>
        && looks > 0
        && (calls[1].wrote.None? <==> out.traceFails(1) || (calls[1].status == Completed && out.done(looks - 1)))
        && tracer.traces == old(tracer.traces)[calls[0].wrote.value.id := calls[1].wrote.GetOr(calls[0].wrote.value)]
        && calls[1].request.work == work && calls[1].wrote == trace
      ensures |calls| < 2 ==> trace.None? && error.Some? && made == [] && tracer.traces == old(tracer.traces)
      ensures error == ErrorOf(endings, calls)
      ensures |calls| == 2 <==> Opens(req, out, old(looks))
      ensures Calm(out) && |calls| == 2 ==> (x.Some? && AllPromotable(work, out) ==> calls[1].status == Completed)
      ensures Calm(out) && |calls| == 2 && !out.done(old(looks) + 1) && x.None? ==>
        calls[1].request.failedStage == Some(ProposalStage)
      ensures |calls| == 2 && Smooth(out) && !out.done(old(looks) + 1) ==> calls[1].status == Completed
      ensures |calls| == 2 && calls[1].status == Completed ==> looks == old(looks) + 3
      ensures |calls| == 2 ==> calls[0].wrote.value.status == Running
      ensures CanceledLate(req, out, old(looks)) ==>
        && endings == SIX_SUCCESSES && error == Some(TraceWriteFailed) && |calls| == 2
        && tracer.traces == old(tracer.traces)[calls[0].wrote.value.id := calls[0].wrote.value]
      ensures catalog.Valid()
      ensures Outcome(old(catalog.records), old(catalog.saves), catalog.records, catalog.saves, work, out, made, x)
      ensures Accounted(old(catalog.records), catalog.records, out)
      ensures SoundRecords(old(catalog.records), out.world.table) ==> SoundRecords(catalog.records, out.world.table)
    {
      trace, made, work, x := None, [], NO_WORK, None;
      var started;
      started, error, endings, calls := Open(req, out);
      if started.None? {
        NothingMade(catalog.records, catalog.saves, NO_WORK, out, None);
        return;
      }
      ghost var start, last := calls[0], calls[0];
      assert calls == [start];
      var failedStage;
      trace, failedStage, endings, last, made, work, x :=
        Finish(start, old(events), old(tracer.calls), old(tracer.traces), started.value, out);
      calls := [start, last];
      ErrorTold(start, last, endings);
      SuccessTold(start, last, endings);
      OutcomeAccounted(old(catalog.records), old(catalog.saves), catalog.records, catalog.saves, work, out, made, x);
      error := if trace.None? then Some(TraceWriteFailed) else if failedStage.Some? then Some(StageFailed(failedStage.value)) else None;
    }
  }

  ghost predicate CalmWeather(out: Outside) {
    forall i: nat :: !out.weather.canceled(i) && !out.weather.loadFails(i) && !out.weather.saveFails(i)
  }

  /** Nothing outside interferes with the stages: no failing listing, observation, stage or store, no canceled
      promotion, no probe input refused. Only a done context, the proposal and the candidates it made can still fail
      such a run. */
  ghost predicate Calm(out: Outside) {
    && !out.listFails && ObserveOk(out) && ProbeRunner.NeverStructural(out.world) && CalmWeather(out)
  }

  /** The stages behind a proposal all answer: every plan has candidates, all with evidence, all promotable. */
  ghost predicate AllAnswer(out: Outside) {
    && !out.stageFails && out.stages.plans != []
    && forall p: nat | p < |out.stages.plans| :: PlanAnswers(out, p)
  }

  predicate PlanAnswers(out: Outside, p: nat)
    requires p < |out.stages.plans|
  {
    var plan := out.stages.plans[p];
    && out.stages.binding(plan).Ok?
    && var answer := out.stages.binding(plan).value;
       && PipelineSucceeds(out.stages, p, answer) && answer.candidates != []
       && forall c | c in answer.candidates :: out.canonical(c.execution).Some? && Promotable(c, out.ids)
  }

  /** Nothing can fail the stages but a context done when the catalog is listed. */
  ghost predicate Smooth(out: Outside) {
    Calm(out) && AllAnswer(out)
  }

  lemma SlotAnswers(out: Outside, p: nat, r: P.PipelineResult)
    requires p < |out.stages.plans| && PlanAnswers(out, p) && SlotOf(out.stages, p, r)
    ensures r.failure.None? && r.candidates != []
    ensures forall c | c in r.candidates :: out.canonical(c.execution).Some?
  {
    var plan := out.stages.plans[p];
    var answer := out.stages.binding(plan).value;
    assert r.failure.None?;
    forall c | c in r.candidates ensures out.canonical(c.execution).Some? {
      var i :| 0 <= i < |r.candidates| && r.candidates[i] == c;
      assert P.PlannedFor(plan, answer, out.stages.evidence, i, r.candidates[i], r.plans[i]);
      assert answer.candidates[i] in answer.candidates;
    }
  }

  lemma SmoothSelectable(out: Outside, pipelines: seq<P.PipelineResult>)
    ensures AllAnswer(out) && Slots(out.stages, pipelines) ==> Selectable(pipelines, out.options, out.canonical)
  {
    if AllAnswer(out) && Slots(out.stages, pipelines) {
      var merged := P.Merged(pipelines);
      SlotsAligned(out.stages, pipelines);
      forall p: nat | p < |pipelines|
        ensures pipelines[p].failure.None? && pipelines[p].candidates != []
        ensures forall c | c in pipelines[p].candidates :: out.canonical(c.execution).Some?
      {
        SlotAnswers(out, p, pipelines[p]);
      }
      P.MergedKeeps(pipelines, 0, 0);
      P.MergedFrom(pipelines);
      forall j | 0 <= j < |merged.candidates| ensures out.canonical(merged.candidates[j].execution).Some? {
        assert P.FromSome(pipelines, merged, j);
        var p: nat, i: nat :| P.CameFrom(pipelines, merged, j, p, i);
        assert pipelines[p].candidates[i] in pipelines[p].candidates;
      }
      P.SelectAnswers(merged, out.options, out.canonical);
    }
  }

  lemma SmoothPromotable(out: Outside, x: Proposed)
    requires x.stages == out.stages && ProposedFrom(x)
    ensures AllAnswer(out) ==> forall c | c in x.selected.candidates :: Promotable(c, out.ids)
  {
    if AllAnswer(out) {
      forall c | c in x.selected.candidates ensures Promotable(c, out.ids) {
        var k :| 0 <= k < |x.selected.candidates| && x.selected.candidates[k] == c;
        var p, i := SelectedPlannedTogether(x, k);
        assert PlanAnswers(out, p);
        var planned := out.stages.binding(out.stages.plans[p]).value.candidates;
        assert planned[i] in planned;
      }
    }
  }

  /** Every stage of the run succeeds and only then, before the last look, is the context done. */
  ghost predicate CanceledLate(req: Request, out: Outside, looks: nat) {
    && Lawful(out) && Smooth(out) && Opens(req, out, looks)
    && !out.done(looks + 1) && out.done(looks + 2)
  }

  function LateCandidate(): Candidate {
    Candidate("p", "a.b", "d", "", None, Execution(CLI, map[SPEC_ARGS := Strings([])]))
  }

  /** One plan with one candidate, planned a contract spec. */
  function LateStages(): Stages {
    Stages([P.CapabilityPlan("a.b", "d", "", [])], _ => true,
      _ => Ok(P.BindingOutput([LateCandidate()], [P.Material(0, map[], [])])),
      (_, _, _, _) => Ok(VerifySpec(L1, Contract, [])), "m")
  }

  lemma LateCandidatePromotable(ids: Identities)
    requires ids.canonical(LateCandidate().execution).Some?
    ensures Promotable(LateCandidate(), ids)
  {
    LetterSolid("p");
    LetterSolid("d");
    LetterSolid("a.b");
    assert "a.b"[1] == '.';
    assert ValidCapabilityID("a.b");
  }

  /** A world where nothing fails, and whose context is done from the third look on. */
  function LateOutside(): Outside {
    var world := ProbeRunner.World(
      _ => true, _ => false, (_, _) => Ok(map[]), (_, _, _) => ProbeRunner.NoExecutionResult,
      _ => false, _ => _ => false, _ => (_, _) => Ok(""));
    Outside(n => n >= 2, _ => Stamp("t", "s"), _ => false, _ => OtherFault,
      Answer(Some("p"), None), false, Answer(Some([]), None), false,
      LateStages(), P.SelectOptions("", 0), _ => Some("{}"),
      world, Identities(_ => Some("{}"), _ => []), Weather(_ => false, _ => false, _ => false))
  }

  lemma LateSmooth()
    ensures Smooth(LateOutside())
  {
    LateCandidatePromotable(LateOutside().ids);
    assert PlanAnswers(LateOutside(), 0);
  }

  /** Such a run exists. */
  lemma CanceledLateHappens()
    ensures CanceledLate(Request("p", "w", "t"), LateOutside(), 0)
  {
    LateSmooth();
    LetterSolid("p");
    LetterSolid("w");
    LetterSolid("t");
    LetterSolid("s");
    assert Storable("t");
  }

  /** Every candidate with a passed probe can be promoted. */
  predicate AllPromotable(work: Work, out: Outside) {
    forall p | p in work.probes && p.passed && 0 <= p.candidateIndex < |work.candidates| ::
      Promotable(work.candidates[p.candidateIndex], out.ids)
  }

  lemma HonestRun(records: Records, work: Work, out: Outside, made: seq<Capability>, promotions: seq<Promotion>)
    requires PassedInRange(work.candidates, work.probes)
    requires forall p | p in work.probes :: ProbeRunner.HonestProbe(p, out.world.table)
    requires var targets := PassedTargets(work.candidates, work.probes);
      && Reported(records, targets, Decide(out.ids), made, promotions)
      && (|made| < |targets| ==> StopsAt(targets[|made|], |made|, out.ids, out.weather))
    ensures AllSingle(made, out.world.table)
    ensures CalmWeather(out) && AllPromotable(work, out) ==> |made| == |PassedTargets(work.candidates, work.probes)|
  {
    TargetsPassed(work.candidates, work.probes);
    var targets := PassedTargets(work.candidates, work.probes);
    HonestRunSound(records, targets, out.ids, made, promotions, out.world.table);
    if |made| < |targets| {
      assert targets[|made|] in targets;
    }
  }

  /** The error a caller sees: why the run never got a trace, that its trace could not be written, or the stage that failed. */
  function ErrorOf(endings: seq<Ending>, calls: seq<Call<Stage>>): Option<RunError> {
    if endings == [] then Some(InvalidInput)
    else if calls == [] then Some(ProviderLoadFailed)
    else if |calls| == 1 || calls[1].wrote.None? then Some(TraceWriteFailed)
    else if calls[1].request.failedStage.Some? then Some(StageFailed(calls[1].request.failedStage.value))
    else None
  }

  datatype RunError = InvalidInput | ProviderLoadFailed | TraceWriteFailed | StageFailed(stage: Stage)

  /** traceRequest: the identity the started trace was given, and everything the stages have produced. */
  function RequestOf(started: Trace<Stage>, work: Work, failed: Option<(Stage, Fault)>): TraceRequest<Stage> {
    TraceRequest(started.id, started.startedAt, work, if failed.Some? then Some(failed.value.0) else None)
  }

  lemma ErrorTold(start: Call<Stage>, last: Call<Stage>, endings: seq<Ending>)
    requires endings != []
    ensures ErrorOf(endings, [start, last]) == if last.wrote.None? then Some(TraceWriteFailed)
      else if last.request.failedStage.Some? then Some(StageFailed(last.request.failedStage.value)) else None
  {
  }

  lemma SuccessTold(start: Call<Stage>, last: Call<Stage>, endings: seq<Ending>)
    requires |endings| > 1 && |endings| <= |STAGES| && PrefixOfStages(endings) && TraceStory([start, last], endings)
    ensures last.status == Completed ==> endings == SIX_SUCCESSES
  {
  }

  /** A stored terminal record continues the started one: same id, same start, the given work. */
  predicate Continues(started: Trace<Stage>, last: Trace<Stage>, status: TraceStatus, request: TraceRequest<Stage>) {
    && last.id == started.id && last.startedAt == started.startedAt && last.status == status
    && last.work == request.work && last.failedStage == request.failedStage
  }

  /** The second and last call of a run whose trace was started. */
  predicate Terminal(started: Trace<Stage>, last: Call<Stage>, endings: seq<Ending>)
    requires 0 < |endings| <= |STAGES|
  {
    var n := |endings|;
    && last.status != Running
    && (last.status == Completed <==> n == |STAGES| && endings[n - 1] == Success)
    && (endings[n - 1] == Cancellation ==> last.status == TraceStatus.Canceled)
    && last.request.traceID == started.id && last.request.startedAt == started.startedAt
    && last.request.failedStage == (if last.status == Completed then None else Some(STAGES[n - 1]))
    && (last.wrote.Some? ==> Continues(started, last.wrote.value, last.status, last.request))
  }

  /** No call before the provider is loaded; then one Start; and if that stored a trace, exactly one terminal call. */
  predicate TraceStory(calls: seq<Call<Stage>>, endings: seq<Ending>)
    requires |endings| <= |STAGES|
  {
    if endings == [] || endings[0] != Success then calls == []
    else
      && 1 <= |calls| <= 2 && calls[0].status == Running
      && (|calls| == 2 <==> calls[0].wrote.Some?)
      && (|calls| == 2 <==> |endings| > 1)
      && (|calls| == 2 ==> Terminal(calls[0].wrote.value, calls[1], endings))
  }

  lemma TerminalTold(started: Trace<Stage>, last: Call<Stage>, rest: seq<Ending>, failed: Option<(Stage, Fault)>)
    requires 0 < |rest| < |STAGES|
    requires if failed.None? then |rest| == 5 else failed.value.0 == STAGES[|rest|]
    requires rest[|rest| - 1] == Success <==> failed.None?
    requires last.status != Running && (last.status == Completed <==> failed.None?)
    requires rest[|rest| - 1] == Cancellation ==> last.status == TraceStatus.Canceled
    requires last.request == RequestOf(started, last.request.work, failed)
    requires last.wrote.Some? ==> Continues(started, last.wrote.value, last.status, last.request)
    ensures Terminal(started, last, [Success] + rest)
  {
  }

  lemma StoryTold(start: Call<Stage>, last: Call<Stage>, rest: seq<Ending>)
    requires start.status == Running && start.wrote.Some? && 0 < |rest| < |STAGES| && PrefixOfStages(rest)
    requires Terminal(start.wrote.value, last, [Success] + rest)
    ensures TraceStory([start, last], [Success] + rest)
  {
  }

  lemma Overwritten<K, V>(m: map<K, V>, k: K, first: V, second: Option<V>)
    ensures (if second.Some? then m[k := first][k := second.value] else m[k := first]) == m[k := second.GetOr(first)]
  {
  }

  /** Progress, calls and stored traces of a run whose trace was started. */
  ghost predicate Told(
    out: Outside, looks: nat, start: Call<Stage>, last: Call<Stage>, endings: seq<Ending>,
    events0: seq<Event>, events: seq<Event>, calls0: seq<Call<Stage>>, calls: seq<Call<Stage>>,
    traces0: map<string, Trace<Stage>>, traces: map<string, Trace<Stage>>)
  {
    && start.wrote.Some? && looks > 0
    && 1 < |endings| <= |STAGES| && PrefixOfStages(endings) && TraceStory([start, last], endings)
    && events == events0 + EventsOf(0, endings)
    && calls == calls0 + [start, last]
    && (last.wrote.None? <==> out.traceFails(1) || (last.status == Completed && out.done(looks - 1)))
    && traces == traces0[start.wrote.value.id := last.wrote.GetOr(start.wrote.value)]
  }

  lemma {:induction false} Tell(
    out: Outside, looks: nat, start: Call<Stage>, last: Call<Stage>, rest: seq<Ending>,
    events0: seq<Event>, events: seq<Event>, calls0: seq<Call<Stage>>, calls: seq<Call<Stage>>,
    traces0: map<string, Trace<Stage>>, traces: map<string, Trace<Stage>>)
    requires start.status == Running && start.wrote.Some? && looks > 0
    requires 0 < |rest| <= 5 && PrefixOfStages(rest) && Terminal(start.wrote.value, last, [Success] + rest)
    requires events == events0 + EventsOf(0, [Success]) + EventsOf(1, rest)
    requires calls == calls0 + [start] + [last]
    requires last.wrote.None? <==> out.traceFails(1) || (last.status == Completed && out.done(looks - 1))
    requires var started := traces0[start.wrote.value.id := start.wrote.value];
      traces == if last.wrote.Some? then started[start.wrote.value.id := last.wrote.value] else started
    ensures Told(out, looks, start, last, [Success] + rest, events0, events, calls0, calls, traces0, traces)
  {
    EndingsJoined(events0, 0, [Success], rest);
    Regroup(calls0, [start], [last]);
    StoryTold(start, last, rest);
    Overwritten(traces0, start.wrote.value.id, start.wrote.value, last.wrote);
  }

  lemma FirstEvents(first: nat, ending: Ending)
    requires first < |STAGES|
    ensures EventsOf(first, [ending]) == [Started(STAGES[first]), Closed(STAGES[first], ending)]
  {
    EventsSnoc(first, [], ending);
    assert [] + [ending] == [ending];
  }

  lemma MoreEvents(base: seq<Event>, first: nat, endings: seq<Ending>, ending: Ending)
    requires first + |endings| < |STAGES|
    ensures base + EventsOf(first, endings + [ending]) == base + EventsOf(first, endings)
      + [Started(STAGES[first + |endings|]), Closed(STAGES[first + |endings|], ending)]
  {
    EventsSnoc(first, endings, ending);
  }

  lemma NothingMade(records: Records, saves: seq<Capability>, work: Work, out: Outside, x: Option<Proposed>)
    requires PassedInRange(work.candidates, work.probes) && work.promotions == []
    requires x.Some? ==> x.value.stages == out.stages && ProposedFrom(x.value)
    ensures Outcome(records, saves, records, saves, work, out, [], x)
  {
    assert saves + [] == saves;
  }

  /** What a run did to the catalog: it saved what `work` reports, and every binding it added was planned, probed and
      passed in this run. */
  ghost predicate Outcome(
    records0: Records, saves0: seq<Capability>, records: Records, saves: seq<Capability>,
    work: Work, out: Outside, made: seq<Capability>, x: Option<Proposed>)
  {
    && Saved(records0, saves0, records, saves, work, out, made)
    && (x.None? ==> made == [])
    && (x.Some? ==> x.value.stages == out.stages && ProposedFrom(x.value) && AllEarned(made, x.value, work.probes, out.world))
  }

  ghost predicate AllEarned(made: seq<Capability>, x: Proposed, probes: seq<Probe>, world: ProbeRunner.World) {
    forall id, b | MadeBy(made, id, b) :: EarnedSomewhere(b, x.selected.candidates, x.selected.plans, probes, world)
  }

  ghost predicate EarnedSomewhere(
    b: Binding, candidates: seq<Candidate>, plans: seq<ProbePlan>, probes: seq<Probe>, world: ProbeRunner.World)
  {
    exists k: nat :: Earned(b, candidates, plans, probes, world, k)
  }

  /** Every binding of the catalog was there before or was planned, probed and passed in this run. */
  ghost predicate Accounted(records0: Records, records: Records, out: Outside) {
    forall id, b | b in BindingsOf(records, id) :: b in BindingsOf(records0, id) || AddedInRun(b, out.stages, out.world)
  }

  lemma OutcomeAccounted(
    records0: Records, saves0: seq<Capability>, records: Records, saves: seq<Capability>,
    work: Work, out: Outside, made: seq<Capability>, x: Option<Proposed>)
    requires Outcome(records0, saves0, records, saves, work, out, made, x)
    ensures Accounted(records0, records, out)
    ensures SoundRecords(records0, out.world.table) ==> SoundRecords(records, out.world.table)
  {
    if SoundRecords(records0, out.world.table) {
      ApplySound(records0, made, out.world.table);
    }
    forall id, b | b in BindingsOf(records, id) && b !in BindingsOf(records0, id)
      ensures AddedInRun(b, out.stages, out.world)
    {
      ApplyProvenance(records0, made, id, b);
      assert x.Some? && EarnedSomewhere(b, x.value.selected.candidates, x.value.selected.plans, work.probes, out.world);
      var k: nat :| Earned(b, x.value.selected.candidates, x.value.selected.plans, work.probes, out.world, k);
      EarnedIsAdded(x.value, work.probes, out.world, b, k);
    }
  }

  lemma MadeAllEarned(
    records0: Records, saves0: seq<Capability>, records: Records, saves: seq<Capability>,
    work: Work, out: Outside, made: seq<Capability>, x: Proposed)
    requires Saved(records0, saves0, records, saves, work, out, made)
    requires x.stages == out.stages && ProposedFrom(x) && x.selected.candidates == work.candidates
    requires Probed(work.candidates, x.selected.plans, work.probes, out.world)
    ensures Outcome(records0, saves0, records, saves, work, out, made, Some(x))
  {
    var plans := x.selected.plans;
    forall id, b | MadeBy(made, id, b)
      ensures EarnedSomewhere(b, work.candidates, plans, work.probes, out.world)
    {
      var k := MadeIsEarned(work.candidates, plans, work.probes, out.world, out.ids, records0, made, work.promotions, id, b);
    }
  }

  /** The probe stage's records, one for each of the first candidates. */
  predicate Probed(candidates: seq<Candidate>, plans: seq<ProbePlan>, probes: seq<Probe>, world: ProbeRunner.World) {
    && |probes| <= |candidates|
    && forall i | 0 <= i < |probes| :: ProbeRunner.RecordOf(probes[i], i, candidates, plans, world)
  }

  /** The promotions in `work` are those of the first passed probes, and exactly the saves performed, in order. */
  ghost predicate Saved(
    records0: Records, saves0: seq<Capability>, records: Records, saves: seq<Capability>,
    work: Work, out: Outside, made: seq<Capability>)
  {
    && AllSingle(made, out.world.table)
    && records == ApplyAll(records0, made)
    && saves == saves0 + SavesOf(records0, made)
    && PassedInRange(work.candidates, work.probes)
    && Reported(records0, PassedTargets(work.candidates, work.probes), Decide(out.ids), made, work.promotions)
  }
}
