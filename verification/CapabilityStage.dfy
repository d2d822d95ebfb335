/** internal/proposal/capability/parse.go: the capability plans of a stage answer, merged by capability id. */
module CapabilityStage {
  import opened Common
  import opened Text
  import opened Model
  import opened StageTrace
  import opened Proposal

  datatype Request = Request(surfaceIDs: seq<string>, catalogIDs: seq<string>, maxPlans: int, lower: string -> string)

  // ---------------------------------------------------------------- string lists

  /** The trimmed values that are not blank. */
  function Solid(values: seq<string>): seq<string> {
    if values == [] then []
    else
      var last := TrimSpace(values[|values| - 1]);
      Solid(values[..|values| - 1]) + if last == "" then [] else [last]
  }

  /** The first occurrence of each value. */
  function NoDup(values: seq<string>): seq<string> {
    if values == [] then []
    else
      var front, last := values[..|values| - 1], values[|values| - 1];
      if last in front then NoDup(front) else NoDup(front) + [last]
  }

  predicate Distinct(values: seq<string>) {
    forall i, j | 0 <= i < j < |values| :: values[i] != values[j]
  }

  lemma {:induction false} NoDupExact(values: seq<string>)
    ensures Distinct(NoDup(values)) && forall v :: v in NoDup(values) <==> v in values
  {
    if values != [] {
      var front, last := values[..|values| - 1], values[|values| - 1];
      assert values == front + [last];
      NoDupExact(front);
      assert forall i | 0 <= i < |NoDup(front)| :: NoDup(front)[i] in NoDup(front);
    }
  }

  /** Removing repetitions early changes nothing. */
  lemma {:induction false} NoDupOver(a: seq<string>, b: seq<string>)
    ensures NoDup(NoDup(a) + b) == NoDup(a + b)
  {
    NoDupExact(a);
    if b == [] {
      assert NoDup(a) + b == NoDup(a) && a + b == a;
      NoDupFixed(NoDup(a));
    } else {
      var front, last := b[..|b| - 1], b[|b| - 1];
      assert (a + b)[..|a + b| - 1] == a + front && (NoDup(a) + b)[..|NoDup(a) + b| - 1] == NoDup(a) + front;
      NoDupOver(a, front);
    }
  }

  lemma {:induction false} NoDupFixed(values: seq<string>)
    requires Distinct(values)
    ensures NoDup(values) == values
  {
    if values != [] {
      NoDupFixed(values[..|values| - 1]);
    }
  }

  predicate AllSolid(values: seq<string>) {
    forall v | v in values :: Trimmed(v) && v != ""
  }

  lemma {:induction false} SolidFixed(values: seq<string>)
    requires AllSolid(values)
    ensures Solid(values) == values
  {
    if values != [] {
      var front, last := values[..|values| - 1], values[|values| - 1];
      assert last in values && TrimSpace(last) == last;
      FrontSolid(values);
      SolidFixed(front);
      assert Solid(values) == Solid(front) + [last];
    }
  }

  lemma FrontSolid(values: seq<string>)
    requires AllSolid(values) && values != []
    ensures AllSolid(values[..|values| - 1])
  {
    forall v | v in values[..|values| - 1] ensures v in values {
    }
  }

  lemma {:induction false} SolidIsSolid(values: seq<string>)
    ensures AllSolid(Solid(values))
  {
    if values != [] {
      SolidIsSolid(values[..|values| - 1]);
    }
  }

  lemma SolidSnoc(values: seq<string>, k: nat)
    requires k < |values|
    ensures Solid(values[..k + 1]) == if TrimSpace(values[k]) == "" then Solid(values[..k]) else Solid(values[..k]) + [TrimSpace(values[k])]
  {
    assert values[..k + 1][..k] == values[..k];
  }

  lemma NoDupSnoc(values: seq<string>, value: string)
    ensures NoDup(values + [value]) == if value in values then NoDup(values) else NoDup(values) + [value]
  {
    assert (values + [value])[..|values|] == values;
  }

  method NormalizeStrings(values: seq<string>) returns (result: seq<string>)
    ensures result == NoDup(Solid(values))
  {
    result := [];
    var seen: set<string> := {};
    for k := 0 to |values|
      invariant result == NoDup(Solid(values[..k]))
      invariant forall v :: v in seen <==> v in Solid(values[..k])
    {
      var value := TrimSpace(values[k]);
      SolidSnoc(values, k);
      NoDupSnoc(Solid(values[..k]), value);
      if value == "" || value in seen {
        continue;
      }
      seen := seen + {value};
      result := result + [value];
    }
    assert values[..|values|] == values;
  }

  // ---------------------------------------------------------------- plans

  function NormalizePlan(plan: CapabilityPlan, lower: string -> string): (r: CapabilityPlan)
  {
    CapabilityPlan(lower(TrimSpace(plan.capabilityID)), TrimSpace(plan.description),
      lower(TrimSpace(plan.confidence)), NoDup(Solid(plan.sources)))
  }

  predicate Known(req: Request, id: string) {
    id != "" && id in req.surfaceIDs
  }

  predicate ValidSources(ids: seq<string>, req: Request) {
    ids != [] && forall id | id in ids :: Known(req, id)
  }

  /** Plans are merged by capability id; a plan without a valid id or with a source nobody showed is out. */
  function MarkOf(plan: CapabilityPlan, req: Request): Mark<string> {
    if plan.capabilityID != "" && ValidCapabilityID(plan.capabilityID) && ValidSources(plan.sources, req)
    then In(plan.capabilityID) else Out(Skip)
  }

  function Plans(input: seq<CapabilityPlan>, req: Request, n: nat): (r: seq<CapabilityPlan>)
    requires n <= |input|
    ensures |r| == n && forall i | 0 <= i < n :: r[i] == NormalizePlan(input[i], req.lower)
  {
    seq(n, i requires 0 <= i < n => NormalizePlan(input[i], req.lower))
  }

  function Marks(plans: seq<CapabilityPlan>, req: Request): (r: seq<Mark<string>>)
    ensures |r| == |plans| && forall i | 0 <= i < |plans| :: r[i] == MarkOf(plans[i], req)
  {
    seq(|plans|, i requires 0 <= i < |plans| => MarkOf(plans[i], req))
  }

  /** The sources of all plans that go by `id`, in order. */
  function SourcesOf(plans: seq<CapabilityPlan>, req: Request, id: string): seq<string> {
    if plans == [] then []
    else
      var last := plans[|plans| - 1];
      SourcesOf(plans[..|plans| - 1], req, id) + if MarkOf(last, req) == In(id) then last.sources else []
  }

  /** The selected plan for the id of position `i`: that plan, with the sources of every plan of its id. */
  function MergedPlan(plans: seq<CapabilityPlan>, req: Request, i: nat): CapabilityPlan
    requires i < |plans|
  {
    plans[i].(sources := NoDup(SourcesOf(plans, req, plans[i].capabilityID)))
  }

  function KeptOf(plans: seq<CapabilityPlan>, req: Request): seq<nat> {
    Kept(Marks(plans, req), req.maxPlans)
  }

  predicate AllMerged(plans: seq<CapabilityPlan>, req: Request, kept: seq<nat>, selected: seq<CapabilityPlan>) {
    && |selected| == |kept|
    && forall k | 0 <= k < |kept| :: kept[k] < |plans| && selected[k] == MergedPlan(plans, req, kept[k])
  }

  function IDsOf(selected: seq<CapabilityPlan>): (r: seq<string>)
    ensures |r| == |selected| && forall k | 0 <= k < |selected| :: r[k] == selected[k].capabilityID
  {
    seq(|selected|, k requires 0 <= k < |selected| => selected[k].capabilityID)
  }

  function CountIn(ids: seq<string>, known: seq<string>): nat {
    if ids == [] then 0 else CountIn(ids[..|ids| - 1], known) + if ids[|ids| - 1] in known then 1 else 0
  }

  predicate Located(selected: seq<CapabilityPlan>, byID: map<string, nat>) {
    forall id | id in byID :: byID[id] < |selected| && selected[byID[id]].capabilityID == id
  }

  /** The loop after the given normalised plans. */
  predicate After(plans: seq<CapabilityPlan>, req: Request, selected: seq<CapabilityPlan>, byID: map<string, nat>, items: seq<Decision>) {
    && items == Decisions(Marks(plans, req), req.maxPlans, Keep)
    && AllMerged(plans, req, KeptOf(plans, req), selected)
    && SeenIs(Marks(plans, req), KeptOf(plans, req), byID.Keys)
    && Located(selected, byID)
  }

  predicate NormalSources(plans: seq<CapabilityPlan>) {
    forall i | 0 <= i < |plans| :: AllSolid(plans[i].sources) && Distinct(plans[i].sources)
  }

  method Normalize(input: seq<CapabilityPlan>, req: Request)
    returns (selected: seq<CapabilityPlan>, stage: Stage, reused: nat, created: nat)
    ensures var plans := Plans(input, req, |input|);
      && AllMerged(plans, req, KeptOf(plans, req), selected)
      && stage.items == Decisions(Marks(plans, req), req.maxPlans, Keep)
    ensures Tallied(stage) && |stage.items| == stage.raw == |input| && stage.selected == |selected|
    ensures stage.keep + stage.defer + stage.skip == stage.raw
    ensures reused + created == |selected| && reused == CountIn(IDsOf(selected), req.catalogIDs)
  {
    stage := NewStage(|input|);
    selected, reused, created := [], 0, 0;
    var byID: map<string, nat> := map[];
    for index := 0 to |input|
      invariant After(Plans(input, req, index), req, selected, byID, stage.items)
      invariant Tallied(stage) && |stage.items| == index && stage.raw == |input|
      invariant reused + created == |selected| && reused == CountIn(IDsOf(selected), req.catalogIDs)
    {
      var plan := NormalizePlan(input[index], req.lower);
      PlansSnoc(input, req, index);
      Advance(Plans(input, req, index), plan, req, selected, byID, stage.items);
      var before, decision := |selected|, Skip;
      selected, byID, decision := Take(plan, req, selected, byID);
      if |selected| > before {
        if plan.capabilityID in req.catalogIDs {
          reused := reused + 1;
        } else {
          created := created + 1;
        }
      }
      stage := Recorded(stage, decision);
    }
    ItemsConserved(stage);
    stage := stage.(selected := |selected|);
  }

  /** The switch in the loop: out, merged into the plan of the same id, over the limit, or selected. */
  method Take(plan: CapabilityPlan, req: Request, selected: seq<CapabilityPlan>, byID: map<string, nat>)
    returns (selected': seq<CapabilityPlan>, byID': map<string, nat>, decision: Decision)
    requires Located(selected, byID)
    ensures Turn(selected', byID', decision) == Next(plan, req, selected, byID)
    ensures if |selected'| > |selected| then
      CountIn(IDsOf(selected'), req.catalogIDs) == CountIn(IDsOf(selected), req.catalogIDs) + if plan.capabilityID in req.catalogIDs then 1 else 0
      else CountIn(IDsOf(selected'), req.catalogIDs) == CountIn(IDsOf(selected), req.catalogIDs)
    ensures |selected| <= |selected'| <= |selected| + 1
  {
    selected', byID', decision := selected, byID, Skip;
    if MarkOf(plan, req).In? {
      decision := Keep;
      if plan.capabilityID in byID {
        var existing := byID[plan.capabilityID];
        var merged := NormalizeStrings(selected[existing].sources + plan.sources);
        selected' := selected[existing := selected[existing].(sources := merged)];
        assert IDsOf(selected') == IDsOf(selected);
      } else if req.maxPlans > 0 && |selected| >= req.maxPlans {
        decision := Defer;
      } else {
        byID' := byID[plan.capabilityID := |selected|];
        selected' := selected + [plan];
        assert IDsOf(selected')[..|selected|] == IDsOf(selected);
      }
    }
  }

  lemma PlansSnoc(input: seq<CapabilityPlan>, req: Request, n: nat)
    requires n < |input|
    ensures Plans(input, req, n + 1) == Plans(input, req, n) + [NormalizePlan(input[n], req.lower)]
    ensures NormalSources(Plans(input, req, n + 1))
  {
    Snoc(Plans(input, req, n + 1), Plans(input, req, n), NormalizePlan(input[n], req.lower));
    forall i | 0 <= i <= n ensures var s := NormalizePlan(input[i], req.lower).sources; AllSolid(s) && Distinct(s) {
      SolidIsSolid(input[i].sources);
      NoDupExact(Solid(input[i].sources));
    }
  }

  lemma MarksSnoc(plans: seq<CapabilityPlan>, plan: CapabilityPlan, req: Request)
    ensures Marks(plans + [plan], req) == Marks(plans, req) + [MarkOf(plan, req)]
  {
  }

  lemma SourcesSnoc(plans: seq<CapabilityPlan>, plan: CapabilityPlan, req: Request, id: string)
    ensures SourcesOf(plans + [plan], req, id)
      == if MarkOf(plan, req) == In(id) then SourcesOf(plans, req, id) + plan.sources else SourcesOf(plans, req, id)
  {
    assert (plans + [plan])[..|plans|] == plans;
  }

  /** Sources come from plans that go by the id, and all of those contribute. */
  lemma {:induction false} SourcesExact(plans: seq<CapabilityPlan>, req: Request, id: string, source: string)
    ensures source in SourcesOf(plans, req, id) <==>
      exists i | 0 <= i < |plans| :: MarkOf(plans[i], req) == In(id) && source in plans[i].sources
  {
    if plans != [] {
      var n := |plans| - 1;
      SourcesExact(plans[..n], req, id, source);
      if source in SourcesOf(plans[..n], req, id) {
        var i :| 0 <= i < n && MarkOf(plans[..n][i], req) == In(id) && source in plans[..n][i].sources;
        assert MarkOf(plans[i], req) == In(id) && source in plans[i].sources;
      } else {
        assert forall i | 0 <= i < n :: plans[..n][i] == plans[i];
      }
    }
  }

  lemma {:induction false} SourcesSolid(plans: seq<CapabilityPlan>, req: Request, id: string)
    requires NormalSources(plans)
    ensures AllSolid(SourcesOf(plans, req, id))
  {
    if plans != [] {
      assert NormalSources(plans[..|plans| - 1]);
      SourcesSolid(plans[..|plans| - 1], req, id);
    }
  }

  lemma NoSources(plans: seq<CapabilityPlan>, req: Request, id: string)
    requires In(id) !in Marks(plans, req)
    ensures SourcesOf(plans, req, id) == []
  {
    assert forall i | 0 <= i < |plans| :: Marks(plans, req)[i] == MarkOf(plans[i], req) && Marks(plans, req)[i] in Marks(plans, req);
    if SourcesOf(plans, req, id) != [] {
      SourcesExact(plans, req, id, SourcesOf(plans, req, id)[0]);
    }
  }

  /** mergeStrings brings a merged plan up to date with one more plan of its id. */
  lemma MergeStringsMerges(plans: seq<CapabilityPlan>, plan: CapabilityPlan, req: Request, id: string)
    requires NormalSources(plans) && AllSolid(plan.sources) && MarkOf(plan, req) == In(id)
    ensures NoDup(Solid(NoDup(SourcesOf(plans, req, id)) + plan.sources)) == NoDup(SourcesOf(plans + [plan], req, id))
  {
    var sources := SourcesOf(plans, req, id);
    SourcesSolid(plans, req, id);
    NoDupExact(sources);
    SolidFixed(NoDup(sources) + plan.sources);
    NoDupOver(sources, plan.sources);
    SourcesSnoc(plans, plan, req, id);
  }

  function Updated(selected: seq<CapabilityPlan>, at: nat, sources: seq<string>): seq<CapabilityPlan>
    requires at < |selected|
  {
    selected[at := selected[at].(sources := sources)]
  }

  /** One turn of the loop. */
  datatype Turn = Turn(selected: seq<CapabilityPlan>, byID: map<string, nat>, decision: Decision)

  function Next(plan: CapabilityPlan, req: Request, selected: seq<CapabilityPlan>, byID: map<string, nat>): Turn
    requires Located(selected, byID)
  {
    var id := plan.capabilityID;
    if MarkOf(plan, req).Out? then Turn(selected, byID, Skip)
    else if id in byID then Turn(Updated(selected, byID[id], NoDup(Solid(selected[byID[id]].sources + plan.sources))), byID, Keep)
    else if 0 < req.maxPlans <= |selected| then Turn(selected, byID, Defer)
    else Turn(selected + [plan], byID[id := |selected|], Keep)
  }

  lemma NextLocated(plan: CapabilityPlan, req: Request, selected: seq<CapabilityPlan>, byID: map<string, nat>)
    requires Located(selected, byID)
    ensures var t := Next(plan, req, selected, byID); Located(t.selected, t.byID)
  {
  }

  predicate Taken(plan: CapabilityPlan, req: Request, seen: set<string>, count: nat) {
    MarkOf(plan, req).In? && MarkOf(plan, req).value !in seen && !(0 < req.maxPlans <= count)
  }

  lemma MoreKept(plans: seq<CapabilityPlan>, plan: CapabilityPlan, req: Request, seen: set<string>)
    requires SeenIs(Marks(plans, req), KeptOf(plans, req), seen)
    ensures var taken := Taken(plan, req, seen, |KeptOf(plans, req)|);
      && KeptOf(plans + [plan], req) == (if taken then KeptOf(plans, req) + [|plans|] else KeptOf(plans, req))
      && SeenIs(Marks(plans + [plan], req), KeptOf(plans + [plan], req),
           if taken then seen + {MarkOf(plan, req).value} else seen)
  {
    MarksSnoc(plans, plan, req);
    KeptStep(Marks(plans, req), KeptOf(plans, req), seen, MarkOf(plan, req), req.maxPlans);
  }

  lemma NextKeys(plan: CapabilityPlan, req: Request, selected: seq<CapabilityPlan>, byID: map<string, nat>)
    requires Located(selected, byID)
    ensures var t, taken := Next(plan, req, selected, byID), Taken(plan, req, byID.Keys, |selected|);
      && t.byID.Keys == (if taken then byID.Keys + {MarkOf(plan, req).value} else byID.Keys)
      && |t.selected| == |selected| + if taken then 1 else 0
  {
  }

  lemma NextSeen(
    plans: seq<CapabilityPlan>, plan: CapabilityPlan, req: Request, selected: seq<CapabilityPlan>, byID: map<string, nat>)
    requires |selected| == |KeptOf(plans, req)| && Located(selected, byID)
    requires SeenIs(Marks(plans, req), KeptOf(plans, req), byID.Keys)
    ensures var t := Next(plan, req, selected, byID);
      && SeenIs(Marks(plans + [plan], req), KeptOf(plans + [plan], req), t.byID.Keys)
      && KeptOf(plans + [plan], req) == if |t.selected| > |selected| then KeptOf(plans, req) + [|plans|] else KeptOf(plans, req)
  {
    MoreKept(plans, plan, req, byID.Keys);
    NextKeys(plan, req, selected, byID);
  }

  lemma NextDecided(
    plans: seq<CapabilityPlan>, plan: CapabilityPlan, req: Request, selected: seq<CapabilityPlan>, byID: map<string, nat>)
    requires |selected| == |KeptOf(plans, req)| && Located(selected, byID)
    requires SeenIs(Marks(plans, req), KeptOf(plans, req), byID.Keys)
    ensures Decisions(Marks(plans + [plan], req), req.maxPlans, Keep)
      == Decisions(Marks(plans, req), req.maxPlans, Keep) + [Next(plan, req, selected, byID).decision]
  {
    MarksSnoc(plans, plan, req);
    DecisionsSnoc(Marks(plans, req), MarkOf(plan, req), req.maxPlans, Keep, byID.Keys);
  }

  lemma Advance(
    plans: seq<CapabilityPlan>, plan: CapabilityPlan, req: Request,
    selected: seq<CapabilityPlan>, byID: map<string, nat>, items: seq<Decision>)
    requires After(plans, req, selected, byID, items) && NormalSources(plans + [plan])
    ensures var t := Next(plan, req, selected, byID); After(plans + [plan], req, t.selected, t.byID, items + [t.decision])
  {
    NextLocated(plan, req, selected, byID);
    NextSeen(plans, plan, req, selected, byID);
    NextDecided(plans, plan, req, selected, byID);
    MergedSnoc(plans, plan, req, KeptOf(plans, req), selected, byID);
  }

  /** Selected plan `k` goes by the key of its position, and no other does. */
  lemma SelectedIDs(plans: seq<CapabilityPlan>, req: Request, selected: seq<CapabilityPlan>, k: nat)
    requires AllMerged(plans, req, KeptOf(plans, req), selected) && k < |selected|
    ensures Marks(plans, req)[KeptOf(plans, req)[k]] == In(selected[k].capabilityID)
    ensures forall l | 0 <= l < |selected| && l != k :: selected[l].capabilityID != selected[k].capabilityID
  {
    var marks, kept := Marks(plans, req), KeptOf(plans, req);
    KeptExact(marks, req.maxPlans);
    assert forall l | 0 <= l < |selected| ::
        marks[kept[l]].In? && marks[kept[l]] == MarkOf(plans[kept[l]], req) && selected[l].capabilityID == plans[kept[l]].capabilityID;
    forall l | 0 <= l < |selected| && l != k ensures selected[l].capabilityID != selected[k].capabilityID {
      assert marks[kept[l]] != marks[kept[k]];
    }
  }

  lemma MergedStable(plans: seq<CapabilityPlan>, plan: CapabilityPlan, req: Request, i: nat)
    requires i < |plans| && MarkOf(plan, req) != In(plans[i].capabilityID)
    ensures MergedPlan(plans + [plan], req, i) == MergedPlan(plans, req, i)
  {
    SourcesSnoc(plans, plan, req, plans[i].capabilityID);
  }

  lemma AllStable(plans: seq<CapabilityPlan>, plan: CapabilityPlan, req: Request, kept: seq<nat>, selected: seq<CapabilityPlan>)
    requires AllMerged(plans, req, kept, selected)
    requires forall k | 0 <= k < |selected| :: MarkOf(plan, req) != In(selected[k].capabilityID)
    ensures AllMerged(plans + [plan], req, kept, selected)
  {
    forall k | 0 <= k < |kept| ensures selected[k] == MergedPlan(plans + [plan], req, kept[k]) {
      MergedStable(plans, plan, req, kept[k]);
    }
  }

  lemma AllUpdated(
    plans: seq<CapabilityPlan>, plan: CapabilityPlan, req: Request, kept: seq<nat>, selected: seq<CapabilityPlan>, at: nat)
    requires kept == KeptOf(plans, req) && AllMerged(plans, req, kept, selected) && NormalSources(plans + [plan])
    requires at < |selected| && MarkOf(plan, req) == In(selected[at].capabilityID)
    ensures AllMerged(plans + [plan], req, kept, Updated(selected, at, NoDup(Solid(selected[at].sources + plan.sources))))
  {
    var more, id := plans + [plan], selected[at].capabilityID;
    var after := Updated(selected, at, NoDup(Solid(selected[at].sources + plan.sources)));
    SelectedIDs(plans, req, selected, at);
    PartsNormal(plans, plan);
    MergeStringsMerges(plans, plan, req, id);
    forall k | 0 <= k < |kept| ensures after[k] == MergedPlan(more, req, kept[k]) {
      if k != at {
        MergedStable(plans, plan, req, kept[k]);
      }
    }
  }

  lemma PartsNormal(plans: seq<CapabilityPlan>, plan: CapabilityPlan)
    requires NormalSources(plans + [plan])
    ensures NormalSources(plans) && AllSolid(plan.sources) && Distinct(plan.sources)
  {
    assert (plans + [plan])[|plans|] == plan;
    assert forall i | 0 <= i < |plans| :: (plans + [plan])[i] == plans[i];
  }

  /** The first plan of an id keeps just its own sources. */
  lemma FirstMerged(plans: seq<CapabilityPlan>, plan: CapabilityPlan, req: Request)
    requires Distinct(plan.sources)
    requires MarkOf(plan, req).In? && MarkOf(plan, req) !in Marks(plans, req)
    ensures MergedPlan(plans + [plan], req, |plans|) == plan
  {
    NoSources(plans, req, plan.capabilityID);
    SourcesSnoc(plans, plan, req, plan.capabilityID);
    assert [] + plan.sources == plan.sources;
    NoDupFixed(plan.sources);
  }

  lemma AllExtended(plans: seq<CapabilityPlan>, plan: CapabilityPlan, req: Request, kept: seq<nat>, selected: seq<CapabilityPlan>)
    requires AllMerged(plans, req, kept, selected) && Distinct(plan.sources)
    requires MarkOf(plan, req).In? && MarkOf(plan, req) !in Marks(plans, req)
    requires forall k | 0 <= k < |selected| :: MarkOf(plan, req) != In(selected[k].capabilityID)
    ensures AllMerged(plans + [plan], req, kept + [|plans|], selected + [plan])
  {
    AllStable(plans, plan, req, kept, selected);
    FirstMerged(plans, plan, req);
  }

  /** A key not seen yet belongs to no selected plan, and while there is room to no plan at all. */
  lemma UnseenIsNew(
    plans: seq<CapabilityPlan>, req: Request, selected: seq<CapabilityPlan>, seen: set<string>, id: string)
    requires AllMerged(plans, req, KeptOf(plans, req), selected)
    requires SeenIs(Marks(plans, req), KeptOf(plans, req), seen) && id !in seen
    ensures forall k | 0 <= k < |selected| :: selected[k].capabilityID != id
    ensures !Full(KeptOf(plans, req), req.maxPlans) ==> In(id) !in Marks(plans, req)
  {
    forall k | 0 <= k < |selected| ensures selected[k].capabilityID != id {
      SelectedIDs(plans, req, selected, k);
    }
    RepeatsIffSeen(Marks(plans, req), KeptOf(plans, req), seen, id);
    if !Full(KeptOf(plans, req), req.maxPlans) {
      RepeatsIffOccurred(Marks(plans, req), In(id), req.maxPlans);
    }
  }

  lemma MergedSnoc(
    plans: seq<CapabilityPlan>, plan: CapabilityPlan, req: Request,
    kept: seq<nat>, selected: seq<CapabilityPlan>, byID: map<string, nat>)
    requires kept == KeptOf(plans, req) && AllMerged(plans, req, kept, selected)
    requires SeenIs(Marks(plans, req), kept, byID.Keys) && Located(selected, byID) && NormalSources(plans + [plan])
    ensures var more, id := plans + [plan], plan.capabilityID;
      if MarkOf(plan, req).In? && id in byID then
        AllMerged(more, req, kept, Updated(selected, byID[id], NoDup(Solid(selected[byID[id]].sources + plan.sources))))
      else if MarkOf(plan, req).In? && !Full(kept, req.maxPlans) then AllMerged(more, req, kept + [|plans|], selected + [plan])
      else AllMerged(more, req, kept, selected)
  {
    PartsNormal(plans, plan);
    var id := plan.capabilityID;
    if MarkOf(plan, req).Out? {
      AllStable(plans, plan, req, kept, selected);
    } else if id in byID {
      AllUpdated(plans, plan, req, kept, selected, byID[id]);
    } else {
      UnseenIsNew(plans, req, selected, byID.Keys, id);
      if Full(kept, req.maxPlans) {
        AllStable(plans, plan, req, kept, selected);
      } else {
        AllExtended(plans, plan, req, kept, selected);
      }
    }
  }

  datatype ParseError = NotJSON | NoCapabilities

  method Parse(decoded: Option<seq<CapabilityPlan>>, req: Request) returns (r: Result<seq<CapabilityPlan>, ParseError>)
    ensures r.Ok? <==> decoded.Some? && AnyIn(Marks(Plans(decoded.value, req, |decoded.value|), req))
    ensures r.Ok? ==> var plans := Plans(decoded.value, req, |decoded.value|); AllMerged(plans, req, KeptOf(plans, req), r.value)
    ensures r == Err(NotJSON) <==> decoded.None?
  {
    if decoded.None? {
      return Err(NotJSON);
    }
    var selected, _, _, _ := Normalize(decoded.value, req);
    AnyInKept(Marks(Plans(decoded.value, req, |decoded.value|), req), req.maxPlans);
    return if selected == [] then Err(NoCapabilities) else Ok(selected);
  }

  /** A value is listed exactly when some raw one trims to it and it is not empty. */
  lemma {:induction false} SolidExact(values: seq<string>, v: string)
    ensures v in Solid(values) <==> v != "" && exists u | u in values :: TrimSpace(u) == v
  {
    if values != [] {
      var front, last := values[..|values| - 1], values[|values| - 1];
      assert values == front + [last];
      SolidExact(front, v);
    }
  }

  /** A raw plan with a valid id whose sources, at least one, were all shown. How confident it is does not matter. */
  predicate Acceptable(raw: CapabilityPlan, req: Request) {
    && ValidCapabilityID(req.lower(TrimSpace(raw.capabilityID)))
    && (exists u | u in raw.sources :: !Blank(u))
    && (forall u | u in raw.sources && !Blank(u) :: TrimSpace(u) in req.surfaceIDs)
  }

  lemma AcceptableIff(raw: CapabilityPlan, req: Request)
    ensures MarkOf(NormalizePlan(raw, req.lower), req)
      == if Acceptable(raw, req) then In(req.lower(TrimSpace(raw.capabilityID))) else Out(Skip)
  {
    var plan := NormalizePlan(raw, req.lower);
    NoDupExact(Solid(raw.sources));
    forall v ensures v in plan.sources <==> v != "" && exists u | u in raw.sources :: TrimSpace(u) == v {
      SolidExact(raw.sources, v);
    }
    if ValidCapabilityID(plan.capabilityID) {
      CapabilityIDTrimmed(plan.capabilityID);
    }
    if plan.sources != [] {
      assert plan.sources[0] in plan.sources;
    }
    if u :| u in raw.sources && !Blank(u) {
      assert TrimSpace(u) in plan.sources;
    }
    if ValidSources(plan.sources, req) {
      forall u | u in raw.sources && !Blank(u) ensures TrimSpace(u) in req.surfaceIDs {
        assert TrimSpace(u) in plan.sources;
      }
    }
  }

  /** While there is room the id of every acceptable plan is selected; and what is selected is a cleaned raw plan, the
      first of its id, but for its sources. */
  lemma AcceptableIsSelected(input: seq<CapabilityPlan>, req: Request, selected: seq<CapabilityPlan>, i: nat)
    requires var plans := Plans(input, req, |input|); AllMerged(plans, req, KeptOf(plans, req), selected)
    requires i < |input| && Acceptable(input[i], req)
    ensures 0 < req.maxPlans <= |selected| ||
      exists k | 0 <= k < |selected| :: selected[k].capabilityID == req.lower(TrimSpace(input[i].capabilityID))
  {
    var plans := Plans(input, req, |input|);
    var marks := Marks(plans, req);
    AcceptableIff(input[i], req);
    KeyIsKept(marks, req.maxPlans, i);
    if !Full(KeptOf(plans, req), req.maxPlans) {
      var k :| 0 <= k < |KeptOf(plans, req)| && KeptOf(plans, req)[k] < |marks| && marks[KeptOf(plans, req)[k]] == marks[i];
      SelectedIDs(plans, req, selected, k);
    }
  }

  lemma SelectedIsCleaned(input: seq<CapabilityPlan>, req: Request, selected: seq<CapabilityPlan>, k: nat)
    requires var plans := Plans(input, req, |input|); AllMerged(plans, req, KeptOf(plans, req), selected)
    requires k < |selected|
    ensures exists raw | raw in input ::
      && Acceptable(raw, req)
      && selected[k].capabilityID == req.lower(TrimSpace(raw.capabilityID))
      && selected[k].description == TrimSpace(raw.description) && selected[k].confidence == req.lower(TrimSpace(raw.confidence))
  {
    var plans := Plans(input, req, |input|);
    var at := KeptOf(plans, req)[k];
    KeptExact(Marks(plans, req), req.maxPlans);
    AcceptableIff(input[at], req);
    assert input[at] in input;
  }

  predicate Contributes(plan: CapabilityPlan, req: Request, id: string, source: string) {
    MarkOf(plan, req) == In(id) && source in plan.sources
  }

  predicate SomeContributes(plans: seq<CapabilityPlan>, req: Request, id: string, source: string) {
    exists i | 0 <= i < |plans| :: Contributes(plans[i], req, id, source)
  }

  /** A selected plan from outside: a valid id that no other selected plan has, and as sources, without repetition,
      exactly the sources of all acceptable plans of that id, every one a surface that was shown. */
  lemma SelectedMerged(plans: seq<CapabilityPlan>, req: Request, selected: seq<CapabilityPlan>, k: nat)
    requires AllMerged(plans, req, KeptOf(plans, req), selected) && k < |selected|
    ensures ValidCapabilityID(selected[k].capabilityID)
    ensures forall l | 0 <= l < |selected| && l != k :: selected[l].capabilityID != selected[k].capabilityID
    ensures Distinct(selected[k].sources) && selected[k].sources != []
    ensures forall v :: v in selected[k].sources <==> SomeContributes(plans, req, selected[k].capabilityID, v)
    ensures forall v | v in selected[k].sources :: Known(req, v)
    ensures 0 < req.maxPlans ==> |selected| <= req.maxPlans
  {
    var id, at := selected[k].capabilityID, KeptOf(plans, req)[k];
    SelectedIDs(plans, req, selected, k);
    KeptExact(Marks(plans, req), req.maxPlans);
    assert MarkOf(plans[at], req) == In(id);
    NoDupExact(SourcesOf(plans, req, id));
    forall v ensures v in selected[k].sources <==> SomeContributes(plans, req, id, v) {
      SourcesExact(plans, req, id, v);
      assert SomeContributes(plans, req, id, v) <==>
        exists i | 0 <= i < |plans| :: MarkOf(plans[i], req) == In(id) && v in plans[i].sources by {
        assert forall i | 0 <= i < |plans| :: Contributes(plans[i], req, id, v) <==> (MarkOf(plans[i], req) == In(id) && v in plans[i].sources);
      }
    }
    assert Contributes(plans[at], req, id, plans[at].sources[0]);
    assert plans[at].sources[0] in selected[k].sources;
  }
}
