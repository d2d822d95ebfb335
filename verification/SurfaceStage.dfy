/** internal/proposal/surface/parse.go: which of the surface items a stage answers are looked at further. */
module SurfaceStage {
  import opened Common
  import opened Text
  import opened StageTrace

  /** `said` is the decision the answer gives, `None` when it gives none of the three. */
  datatype Item = Item(id: string, kind: string, name: string, description: string, usage: string, said: Option<Decision>)

  /** The policy after its names are normalised and its patterns compiled, and the lower-casing of the library. */
  datatype Policy = Policy(
    valid: bool, compiles: bool, kinds: set<string>, skipNames: set<string>, skips: string -> bool,
    maxItems: int, lower: string -> string)

  datatype ParseError = NotJSON | BadPolicy | NothingKept

  function NormalizeItem(item: Item, lower: string -> string): (r: Item)
    ensures r.said.Some?
  {
    var kind := lower(TrimSpace(item.kind));
    Item(TrimSpace(item.id), if kind == "" then "command" else kind, TrimSpace(item.name),
      TrimSpace(item.description), TrimSpace(item.usage), Some(item.said.GetOr(Keep)))
  }

  /** What a normalised item is in for: the answer's own decision, then the policy, then kind and lower-case name. */
  function MarkOf(item: Item, policy: Policy): Mark<string>
    requires item.said.Some?
  {
    if item.id == "" || item.name == "" then Out(Skip)
    else if item.said.value != Keep then Out(item.said.value)
    else if item.kind !in policy.kinds || policy.lower(item.name) in policy.skipNames || policy.skips(item.name) then Out(Skip)
    else In(item.kind + "\0" + policy.lower(item.name))
  }

  function Marks(input: seq<Item>, policy: Policy, n: nat): (r: seq<Mark<string>>)
    requires n <= |input|
    ensures |r| == n && forall i | 0 <= i < n :: r[i] == MarkOf(NormalizeItem(input[i], policy.lower), policy)
  {
    seq(n, i requires 0 <= i < n => MarkOf(NormalizeItem(input[i], policy.lower), policy))
  }

  /** The items at the given positions, normalised. */
  predicate Picked(input: seq<Item>, policy: Policy, kept: seq<nat>, selected: seq<Item>) {
    && |selected| == |kept|
    && forall k | 0 <= k < |kept| :: kept[k] < |input| && selected[k] == NormalizeItem(input[kept[k]], policy.lower)
  }

  predicate After(input: seq<Item>, policy: Policy, n: nat, selected: seq<Item>, seen: set<string>, items: seq<Decision>) {
    && n <= |input|
    && var marks := Marks(input, policy, n);
       && items == Decisions(marks, policy.maxItems, Skip)
       && Picked(input, policy, Kept(marks, policy.maxItems), selected)
       && SeenIs(marks, Kept(marks, policy.maxItems), seen)
  }

  method Normalize(input: seq<Item>, policy: Policy) returns (selected: seq<Item>, stage: Stage)
    ensures var marks := Marks(input, policy, |input|);
      && Picked(input, policy, Kept(marks, policy.maxItems), selected)
      && stage.items == Decisions(marks, policy.maxItems, Skip)
    ensures Tallied(stage) && |stage.items| == stage.raw == |input|
    ensures stage.selected == stage.keep == |selected|
    ensures stage.keep + stage.defer + stage.skip == stage.raw
  {
    stage := NewStage(|input|);
    selected := [];
    var seen: set<string> := {};
    for index := 0 to |input|
      invariant After(input, policy, index, selected, seen, stage.items)
      invariant Tallied(stage) && |stage.items| == index && stage.raw == |input| && stage.keep == |selected|
    {
      var item := NormalizeItem(input[index], policy.lower);
      Advance(input, policy, index, selected, seen, stage.items);
      var mark := MarkOf(item, policy);
      var decision := Keep;
      if mark.Out? {
        decision := mark.decision;
      } else if mark.value in seen {
        decision := Skip;
      } else if policy.maxItems > 0 && |selected| >= policy.maxItems {
        decision := Defer;
      } else {
        seen := seen + {mark.value};
        selected := selected + [item];
      }
      stage := Recorded(stage, decision);
    }
    ItemsConserved(stage);
    stage := stage.(selected := |selected|);
  }

  lemma MarksSnoc(input: seq<Item>, policy: Policy, n: nat)
    requires n < |input|
    ensures Marks(input, policy, n + 1) == Marks(input, policy, n) + [MarkOf(NormalizeItem(input[n], policy.lower), policy)]
  {
    Snoc(Marks(input, policy, n + 1), Marks(input, policy, n), MarkOf(NormalizeItem(input[n], policy.lower), policy));
  }

  lemma PickedSnoc(input: seq<Item>, policy: Policy, kept: seq<nat>, selected: seq<Item>, n: nat)
    requires n < |input| && Picked(input, policy, kept, selected)
    ensures Picked(input, policy, kept + [n], selected + [NormalizeItem(input[n], policy.lower)])
  {
  }

  lemma Advance(input: seq<Item>, policy: Policy, n: nat, selected: seq<Item>, seen: set<string>, items: seq<Decision>)
    requires n < |input| && After(input, policy, n, selected, seen, items)
    ensures var item := NormalizeItem(input[n], policy.lower);
      var mark := MarkOf(item, policy);
      if mark.Out? then mark.decision != Keep && After(input, policy, n + 1, selected, seen, items + [mark.decision])
      else if mark.value in seen then After(input, policy, n + 1, selected, seen, items + [Skip])
      else if 0 < policy.maxItems <= |selected| then After(input, policy, n + 1, selected, seen, items + [Defer])
      else After(input, policy, n + 1, selected + [item], seen + {mark.value}, items + [Keep])
  {
    var marks, mark := Marks(input, policy, n), MarkOf(NormalizeItem(input[n], policy.lower), policy);
    MarksSnoc(input, policy, n);
    PickedSnoc(input, policy, Kept(marks, policy.maxItems), selected, n);
    KeptStep(marks, Kept(marks, policy.maxItems), seen, mark, policy.maxItems);
    DecisionsSnoc(marks, mark, policy.maxItems, Skip, seen);
  }

  method Parse(decoded: Option<seq<Item>>, policy: Policy) returns (r: Result<seq<Item>, ParseError>)
    ensures r.Ok? <==> decoded.Some? && policy.valid && policy.compiles && AnyIn(Marks(decoded.value, policy, |decoded.value|))
    ensures r.Ok? ==>
      Picked(decoded.value, policy, Kept(Marks(decoded.value, policy, |decoded.value|), policy.maxItems), r.value)
    ensures r == Err(NotJSON) <==> decoded.None?
    ensures r == Err(BadPolicy) <==> decoded.Some? && !(policy.valid && policy.compiles)
  {
    if decoded.None? {
      return Err(NotJSON);
    }
    if !policy.valid || !policy.compiles {
      return Err(BadPolicy);
    }
    var selected, _ := Normalize(decoded.value, policy);
    AnyInKept(Marks(decoded.value, policy, |decoded.value|), policy.maxItems);
    return if selected == [] then Err(NothingKept) else Ok(selected);
  }

  lemma SelectedMark(input: seq<Item>, policy: Policy, selected: seq<Item>, k: nat)
    requires Picked(input, policy, Kept(Marks(input, policy, |input|), policy.maxItems), selected) && k < |selected|
    ensures var marks := Marks(input, policy, |input|);
      var kept := Kept(marks, policy.maxItems);
      kept[k] < |marks| && marks[kept[k]].In? && selected[k].said.Some? && marks[kept[k]] == MarkOf(selected[k], policy)
  {
    KeptExact(Marks(input, policy, |input|), policy.maxItems);
  }

  /** A selected item is a raw item with its texts trimmed, its kind in lower case, a command when it names none, and
      kept when it says nothing itself. */
  predicate CleanedFrom(item: Item, raw: Item, lower: string -> string) {
    && item.id == TrimSpace(raw.id) && item.name == TrimSpace(raw.name)
    && item.description == TrimSpace(raw.description) && item.usage == TrimSpace(raw.usage)
    && item.kind == (if lower(TrimSpace(raw.kind)) == "" then "command" else lower(TrimSpace(raw.kind)))
    && raw.said in {None, Some(Keep)}
  }

  lemma SelectedIsCleaned(input: seq<Item>, policy: Policy, selected: seq<Item>, k: nat)
    requires Picked(input, policy, Kept(Marks(input, policy, |input|), policy.maxItems), selected) && k < |selected|
    ensures exists raw | raw in input :: CleanedFrom(selected[k], raw, policy.lower)
  {
    var kept := Kept(Marks(input, policy, |input|), policy.maxItems);
    SelectedMark(input, policy, selected, k);
    assert CleanedFrom(selected[k], input[kept[k]], policy.lower);
  }

  /** The policy has nothing against the item, and the answer neither defers nor skips it. */
  predicate Allowed(raw: Item, policy: Policy) {
    var kind := policy.lower(TrimSpace(raw.kind));
    && !Blank(raw.id) && !Blank(raw.name) && raw.said in {None, Some(Keep)}
    && (if kind == "" then "command" else kind) in policy.kinds
    && policy.lower(TrimSpace(raw.name)) !in policy.skipNames && !policy.skips(TrimSpace(raw.name))
  }

  /** While there is room every allowed item is represented by one of its kind and lower-case name. */
  lemma AllowedIsSelected(input: seq<Item>, policy: Policy, selected: seq<Item>, i: nat)
    requires Picked(input, policy, Kept(Marks(input, policy, |input|), policy.maxItems), selected)
    requires i < |input| && Allowed(input[i], policy)
    ensures var said := policy.lower(TrimSpace(input[i].kind));
      var kind := if said == "" then "command" else said;
      0 < policy.maxItems <= |selected| || exists k | 0 <= k < |selected| ::
        selected[k].kind + "\0" + policy.lower(selected[k].name) == kind + "\0" + policy.lower(TrimSpace(input[i].name))
  {
    var marks := Marks(input, policy, |input|);
    var kept := Kept(marks, policy.maxItems);
    AllowedMark(input[i], policy);
    KeyIsKept(marks, policy.maxItems, i);
    if !Full(kept, policy.maxItems) {
      var k :| 0 <= k < |kept| && kept[k] < |marks| && marks[kept[k]] == marks[i];
      SelectedKey(input, policy, selected, k);
    }
  }

  lemma AllowedMark(raw: Item, policy: Policy)
    requires Allowed(raw, policy)
    ensures var said := policy.lower(TrimSpace(raw.kind));
      MarkOf(NormalizeItem(raw, policy.lower), policy)
        == In((if said == "" then "command" else said) + "\0" + policy.lower(TrimSpace(raw.name)))
  {
  }

  lemma SelectedKey(input: seq<Item>, policy: Policy, selected: seq<Item>, k: nat)
    requires Picked(input, policy, Kept(Marks(input, policy, |input|), policy.maxItems), selected) && k < |selected|
    ensures var marks := Marks(input, policy, |input|);
      var kept := Kept(marks, policy.maxItems);
      kept[k] < |marks| && marks[kept[k]] == In(selected[k].kind + "\0" + policy.lower(selected[k].name))
  {
    SelectedMark(input, policy, selected, k);
  }

  /** An item the answer itself defers or skips is traced as it says. */
  lemma SaidIsTraced(input: seq<Item>, policy: Policy, i: nat)
    requires i < |input| && !Blank(input[i].id) && !Blank(input[i].name) && input[i].said in {Some(Defer), Some(Skip)}
    ensures Decisions(Marks(input, policy, |input|), policy.maxItems, Skip)[i] == input[i].said.value
  {
    DecisionsExact(Marks(input, policy, |input|), policy.maxItems, Skip, i);
  }

  /** The selected items from outside: named, allowed by the policy, no two of the same kind and lower-case name, in
      input order, within the limit. */
  lemma SelectedAllowed(input: seq<Item>, policy: Policy, selected: seq<Item>, k: nat)
    requires Picked(input, policy, Kept(Marks(input, policy, |input|), policy.maxItems), selected) && k < |selected|
    ensures var item := selected[k];
      && item.id != "" && item.name != "" && item.kind in policy.kinds && item.said == Some(Keep)
      && policy.lower(item.name) !in policy.skipNames && !policy.skips(item.name)
    ensures forall l | k < l < |selected| ::
      (selected[k].kind, policy.lower(selected[k].name)) != (selected[l].kind, policy.lower(selected[l].name))
    ensures 0 < policy.maxItems ==> |selected| <= policy.maxItems
  {
    var marks := Marks(input, policy, |input|);
    var kept := Kept(marks, policy.maxItems);
    KeptExact(marks, policy.maxItems);
    SelectedMark(input, policy, selected, k);
    forall l | k < l < |selected|
      ensures (selected[k].kind, policy.lower(selected[k].name)) != (selected[l].kind, policy.lower(selected[l].name))
    {
      SelectedMark(input, policy, selected, l);
      assert marks[kept[k]] != marks[kept[l]];
    }
  }
}
