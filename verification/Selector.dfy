/** internal/use/select: scoring promoted bindings against an intent and choosing one, locally or with an LLM
    whose answer is an arbitrary value. */
module Selector {
  import opened Common
  import opened Text
  import opened Model
  import opened Orders
  import opened ExecuteInputs

  /** One promoted binding in its capability: what the nested loops of Build walk over. */
  datatype Entry = Entry(capabilityID: string, description: string, binding: Binding)

  datatype Scored = Scored(entry: Entry, required: seq<string>, missing: seq<string>, score: int)

  /** Lower-casing and splitting into `[a-z0-9]+` tokens. Any function will do. */
  type Tokenizer = string -> set<string>

  datatype Request = Request(
    intent: string, inputs: Inputs, providerID: string, forceLLM: bool, minLevel: Level, capabilities: seq<Capability>)

  const SCORE_ID_TOKEN := 4
  const SCORE_DESC_TOKEN := 2
  const SCORE_PROVIDER_HINT := 4
  const LLM_SCORE_GAP := 4
  const TARGET := "target"

  // ---------------------------------------------------------------- scoring

  function Missing(required: seq<string>, inputs: Inputs): (r: seq<string>)
    ensures |r| <= |required|
    ensures r == [] <==> forall n | n in required :: HasInput(inputs, n)
    ensures forall n | n in r :: n in required && !HasInput(inputs, n)
  {
    if required == [] then []
    else
      var last := required[|required| - 1];
      var before := Missing(required[..|required| - 1], inputs);
      assert forall n | n in required :: n == last || n in required[..|required| - 1];
      if HasInput(inputs, last) then before else before + [last]
  }

  /** The missingInputs loop, the same in the selector, the planner and the run. */
  method MissingInputs(required: seq<string>, inputs: Inputs) returns (missing: seq<string>)
    ensures missing == Missing(required, inputs)
  {
    missing := [];
    for i := 0 to |required|
      invariant missing == Missing(required[..i], inputs)
    {
      assert required[..i + 1][..i] == required[..i];
      if !HasInput(inputs, required[i]) {
        missing := missing + [required[i]];
      }
    }
    assert required[..|required|] == required;
  }

  function IntentScore(entry: Entry, intent: set<string>, tokens: Tokenizer): nat {
    SCORE_ID_TOKEN * |tokens(entry.capabilityID) * intent| + SCORE_DESC_TOKEN * |tokens(entry.description) * intent|
  }

  function EffectiveLevel(level: Level): Level {
    if level == NoLevel then L2 else level
  }

  predicate ProviderWanted(providerID: string, wanted: string) {
    TrimSpace(wanted) != "" ==> providerID == TrimSpace(wanted)
  }

  /** The filters of scoreBinding that do not depend on the intent. */
  predicate Admissible(b: Binding, req: Request) {
    && b.state == Promoted
    && ProviderWanted(b.providerID, req.providerID)
    && b.verify.Some? && LevelRank(b.verify.value.level) >= LevelRank(EffectiveLevel(req.minLevel))
  }

  /** scoreBinding, given the score of the intent and the inputs the execution requires. */
  function ScoreWith(entry: Entry, req: Request, intent: nat, required: Result<seq<string>, ExecError>): Option<Scored> {
    if !Admissible(entry.binding, req) || required.Err? || intent == 0 then None
    else
      var missing := Missing(required.value, req.inputs);
      Some(Scored(entry, required.value, missing, intent + (|required.value| - |missing|) + ProviderHint(req.providerID)))
  }

  function ProviderHint(providerID: string): nat {
    if TrimSpace(providerID) != "" then SCORE_PROVIDER_HINT else 0
  }

  ghost function Score(entry: Entry, req: Request, tokens: Tokenizer): Option<Scored> {
    ScoreWith(entry, req, IntentScore(entry, tokens(req.intent), tokens), RequiredNames(entry.binding.execution))
  }

  method ScoreBinding(entry: Entry, req: Request, tokens: Tokenizer) returns (r: Option<Scored>)
    ensures r == Score(entry, req, tokens)
  {
    if !Admissible(entry.binding, req) {
      return None;
    }
    var required := RequiredInputs(entry.binding.execution);
    var intent := IntentScore(entry, tokens(req.intent), tokens);
    r := ScoreRequired(entry, req, intent, required);
  }

  method ScoreRequired(entry: Entry, req: Request, intent: nat, required: Result<seq<string>, ExecError>)
    returns (r: Option<Scored>)
    requires Admissible(entry.binding, req)
    ensures r == ScoreWith(entry, req, intent, required)
  {
    if required.Err? {
      return None;
    }
    var score: int := intent;
    if score == 0 {
      return None;
    }
    var missing := MissingInputs(required.value, req.inputs);
    score := score + |required.value| - |missing|;
    if TrimSpace(req.providerID) != "" {
      score := score + SCORE_PROVIDER_HINT;
    }
    return Some(Scored(entry, required.value, missing, score));
  }

  // ---------------------------------------------------------------- what a score counts

  /** How many of the names have a value among the inputs. */
  function Supplied(names: seq<string>, inputs: Inputs): nat {
    if names == [] then 0
    else Supplied(names[..|names| - 1], inputs) + if HasInput(inputs, names[|names| - 1]) then 1 else 0
  }

  lemma {:induction false} SuppliedOrMissing(required: seq<string>, inputs: Inputs)
    ensures Supplied(required, inputs) + |Missing(required, inputs)| == |required|
  {
    if required != [] {
      SuppliedOrMissing(required[..|required| - 1], inputs);
    }
  }

  /** What a binding must have to be considered at all: it is promoted, of the wanted provider, at the wanted level, its
      requirements can be read, and a word of the intent names or describes its capability. */
  predicate Considered(entry: Entry, req: Request, tokens: Tokenizer) {
    var b := entry.binding;
    && b.state == Promoted
    && (Blank(req.providerID) || b.providerID == TrimSpace(req.providerID))
    && b.verify.Some? && LevelRank(b.verify.value.level) >= LevelRank(if req.minLevel == NoLevel then L2 else req.minLevel)
    && Readable(b.execution)
    && (tokens(entry.capabilityID) + tokens(entry.description)) * tokens(req.intent) != {}
  }

  lemma ScoredIffConsidered(entry: Entry, req: Request, tokens: Tokenizer)
    ensures Score(entry, req, tokens).Some? <==> Considered(entry, req, tokens)
  {
    RequiredNamesMean(entry.binding.execution);
    var intent := tokens(req.intent);
    var byID, byText := tokens(entry.capabilityID) * intent, tokens(entry.description) * intent;
    assert (tokens(entry.capabilityID) + tokens(entry.description)) * intent == byID + byText;
    assert IntentScore(entry, intent, tokens) == 0 <==> byID == {} && byText == {};
  }

  /** Supplying more of the required inputs raises the score by one for each. */
  lemma SuppliedInputsCount(entry: Entry, req: Request, more: Inputs, tokens: Tokenizer)
    requires Score(entry, req, tokens).Some?
    ensures Score(entry, req.(inputs := more), tokens).Some?
    ensures var c, d := Score(entry, req, tokens).value, Score(entry, req.(inputs := more), tokens).value;
      && c.required == d.required
      && d.score - c.score == Supplied(c.required, more) - Supplied(c.required, req.inputs)
  {
    var required := Score(entry, req, tokens).value.required;
    SuppliedOrMissing(required, req.inputs);
    SuppliedOrMissing(required, more);
  }

  /** Of two candidates that the intent fits equally well the one with more of its required inputs supplied ranks
      first. */
  lemma MoreSuppliedRanksFirst(a: Entry, b: Entry, req: Request, tokens: Tokenizer)
    requires Score(a, req, tokens).Some? && Score(b, req, tokens).Some?
    requires IntentScore(a, tokens(req.intent), tokens) == IntentScore(b, tokens(req.intent), tokens)
    requires Supplied(Score(a, req, tokens).value.required, req.inputs) > Supplied(Score(b, req, tokens).value.required, req.inputs)
    ensures Better(Score(a, req, tokens).value, Score(b, req, tokens).value)
  {
    SuppliedOrMissing(Score(a, req, tokens).value.required, req.inputs);
    SuppliedOrMissing(Score(b, req, tokens).value.required, req.inputs);
  }

  /** One more word of the intent is worth four points if the capability id has it and two if the description has it. */
  lemma TokensCount(entry: Entry, req: Request, intent: string, word: string, tokens: Tokenizer)
    requires tokens(intent) == tokens(req.intent) + {word} && word !in tokens(req.intent)
    requires Score(entry, req, tokens).Some?
    ensures Score(entry, req.(intent := intent), tokens).Some?
    ensures Score(entry, req.(intent := intent), tokens).value.score - Score(entry, req, tokens).value.score
      == (if word in tokens(entry.capabilityID) then 4 else 0) + (if word in tokens(entry.description) then 2 else 0)
  {
    OneMoreCommon(tokens(entry.capabilityID), tokens(req.intent), word);
    OneMoreCommon(tokens(entry.description), tokens(req.intent), word);
  }

  lemma OneMoreCommon(s: set<string>, t: set<string>, x: string)
    requires x !in t
    ensures |s * (t + {x})| == |s * t| + if x in s then 1 else 0
  {
    assert s * (t + {x}) == s * t + if x in s then {x} else {};
  }

  /** Asking for the binding's own provider is worth four points. */
  lemma ProviderCounts(entry: Entry, req: Request, tokens: Tokenizer, wanted: string)
    requires Blank(req.providerID) && !Blank(wanted) && TrimSpace(wanted) == entry.binding.providerID
    requires Score(entry, req, tokens).Some?
    ensures Score(entry, req.(providerID := wanted), tokens).Some?
    ensures Score(entry, req.(providerID := wanted), tokens).value.score == Score(entry, req, tokens).value.score + 4
  {
  }

  // ---------------------------------------------------------------- all candidates

  function EntriesOf(c: Capability): seq<Entry> {
    seq(|c.bindings|, i requires 0 <= i < |c.bindings| => Entry(c.id, c.description, c.bindings[i]))
  }

  function Entries(capabilities: seq<Capability>): seq<Entry> {
    if capabilities == [] then []
    else Entries(capabilities[..|capabilities| - 1]) + EntriesOf(capabilities[|capabilities| - 1])
  }

  ghost function ScoreAll(entries: seq<Entry>, req: Request, tokens: Tokenizer): (r: seq<Scored>)
    ensures forall c | c in r :: c.entry in entries && Score(c.entry, req, tokens) == Some(c)
  {
    if entries == [] then []
    else
      var last := entries[|entries| - 1];
      var before := ScoreAll(entries[..|entries| - 1], req, tokens);
      match Score(last, req, tokens)
      case None => before
      case Some(c) => before + [c]
  }

  lemma ScoreAllComplete(entries: seq<Entry>, req: Request, tokens: Tokenizer, e: Entry)
    requires e in entries && Score(e, req, tokens).Some?
    ensures Score(e, req, tokens).value in ScoreAll(entries, req, tokens)
  {
    var i :| 0 <= i < |entries| && entries[i] == e;
    InThree(entries, i);
    ScoreAllConcat(entries[..i] + [e], entries[i + 1..], req, tokens);
    ScoreAllConcat(entries[..i], [e], req, tokens);
    ScoreOne(e, req, tokens);
    InMiddle(ScoreAll(entries[..i], req, tokens), Score(e, req, tokens).value, ScoreAll(entries[i + 1..], req, tokens));
  }

  lemma InThree<T>(s: seq<T>, i: nat)
    requires i < |s|
    ensures s == s[..i] + [s[i]] + s[i + 1..]
  {
  }

  lemma InMiddle<T>(a: seq<T>, x: T, b: seq<T>)
    ensures x in a + [x] + b
  {
    assert (a + [x] + b)[|a|] == x;
  }

  lemma ScoreOne(e: Entry, req: Request, tokens: Tokenizer)
    requires Score(e, req, tokens).Some?
    ensures ScoreAll([e], req, tokens) == [Score(e, req, tokens).value]
  {
    assert [e][..0] == [] && ScoreAll([], req, tokens) == [];
  }

  /** Every binding of every capability is looked at. */
  lemma {:induction false} EntriesExact(capabilities: seq<Capability>, e: Entry)
    ensures e in Entries(capabilities) <==>
      exists c | c in capabilities :: e.capabilityID == c.id && e.description == c.description && e.binding in c.bindings
  {
    if capabilities != [] {
      var n := |capabilities| - 1;
      var last := capabilities[n];
      assert capabilities == capabilities[..n] + [last];
      EntriesExact(capabilities[..n], e);
      assert e in EntriesOf(last) <==> e.capabilityID == last.id && e.description == last.description && e.binding in last.bindings by {
        if e.capabilityID == last.id && e.description == last.description && e.binding in last.bindings {
          var i :| 0 <= i < |last.bindings| && last.bindings[i] == e.binding;
          assert EntriesOf(last)[i] == e;
        }
      }
    }
  }

  lemma {:induction false} ScoreAllConcat(a: seq<Entry>, b: seq<Entry>, req: Request, tokens: Tokenizer)
    ensures ScoreAll(a + b, req, tokens) == ScoreAll(a, req, tokens) + ScoreAll(b, req, tokens)
  {
    if b == [] {
      assert a + b == a;
    } else {
      assert (a + b)[..|a + b| - 1] == a + b[..|b| - 1];
      ScoreAllConcat(a, b[..|b| - 1], req, tokens);
    }
  }

  /** candidateBuilder.Build: the nested loops over capabilities and their bindings. */
  method Build(req: Request, tokens: Tokenizer) returns (candidates: seq<Scored>)
    ensures candidates == ScoreAll(Entries(req.capabilities), req, tokens)
  {
    candidates := [];
    for i := 0 to |req.capabilities|
      invariant candidates == ScoreAll(Entries(req.capabilities[..i]), req, tokens)
    {
      var more := BuildCapability(req.capabilities[i], req, tokens);
      ScoreAllConcat(Entries(req.capabilities[..i]), EntriesOf(req.capabilities[i]), req, tokens);
      assert req.capabilities[..i + 1][..i] == req.capabilities[..i];
      candidates := candidates + more;
    }
    assert req.capabilities[..|req.capabilities|] == req.capabilities;
  }

  /** The inner loop. */
  method BuildCapability(capability: Capability, req: Request, tokens: Tokenizer) returns (candidates: seq<Scored>)
    ensures candidates == ScoreAll(EntriesOf(capability), req, tokens)
  {
    ghost var entries := EntriesOf(capability);
    candidates := [];
    for j := 0 to |capability.bindings|
      invariant candidates == ScoreAll(entries[..j], req, tokens)
    {
      var entry := Entry(capability.id, capability.description, capability.bindings[j]);
      ScoreOneMore(entries, j, req, tokens);
      var c := ScoreBinding(entry, req, tokens);
      if c.Some? {
        candidates := candidates + [c.value];
      }
    }
    assert entries[..|entries|] == entries;
  }

  lemma ScoreOneMore(entries: seq<Entry>, j: nat, req: Request, tokens: Tokenizer)
    requires j < |entries|
    ensures ScoreAll(entries[..j + 1], req, tokens) == ScoreAll(entries[..j], req, tokens)
      + match Score(entries[j], req, tokens) case None => [] case Some(c) => [c]
  {
    assert entries[..j + 1][..j] == entries[..j];
  }

  // ---------------------------------------------------------------- the order

  /** The comparison of sortCandidates: score down, then capability id, then binding id. */
  predicate Better(x: Scored, y: Scored) {
    if x.score != y.score then x.score > y.score
    else if x.entry.capabilityID != y.entry.capabilityID then StrLess(x.entry.capabilityID, y.entry.capabilityID)
    else StrLess(x.entry.binding.id, y.entry.binding.id)
  }

  lemma BetterWeak()
    ensures WeakOrder(Better)
  {
    forall x, y ensures !(Better(x, y) && Better(y, x)) {
      StrLessTotal(x.entry.capabilityID, y.entry.capabilityID);
      StrLessTotal(x.entry.binding.id, y.entry.binding.id);
    }
    forall x, y, z | !Better(y, x) && !Better(z, y) ensures !Better(z, x) {
      NotBetterTransitive(x, y, z);
    }
  }

  lemma NotBetterTransitive(x: Scored, y: Scored, z: Scored)
    requires !Better(y, x) && !Better(z, y)
    ensures !Better(z, x)
  {
    StrLessWeak();
    var a, b, c := x.entry.capabilityID, y.entry.capabilityID, z.entry.capabilityID;
    StrLessTotal(a, b);
    StrLessTotal(b, c);
    StrLessTotal(a, c);
    assert !StrLess(b, a) && !StrLess(c, b) ==> !StrLess(c, a);
    var d, e, f := x.entry.binding.id, y.entry.binding.id, z.entry.binding.id;
    assert !StrLess(e, d) && !StrLess(f, e) ==> !StrLess(f, d);
  }

  /** Capability id and binding id together name one entry. */
  predicate UniqueEntries(entries: seq<Entry>) {
    forall e, f | e in entries && f in entries && e.capabilityID == f.capabilityID && e.binding.id == f.binding.id :: e == f
  }

  lemma BetterDecides(entries: seq<Entry>, candidates: seq<Scored>, req: Request, tokens: Tokenizer)
    requires UniqueEntries(entries)
    requires forall c | c in candidates :: c.entry in entries && Score(c.entry, req, tokens) == Some(c)
    ensures Decides(Better, candidates)
  {
    forall x, y | x in candidates && y in candidates
      ensures (x == y || Better(x, y) || Better(y, x)) && !(Better(x, y) && Better(y, x))
    {
      StrLessTotal(x.entry.capabilityID, y.entry.capabilityID);
      StrLessTotal(x.entry.binding.id, y.entry.binding.id);
    }
  }

  lemma ScoreAllMiddle(left: seq<Entry>, e: Entry, right: seq<Entry>, req: Request, tokens: Tokenizer)
    ensures multiset(ScoreAll(left + [e] + right, req, tokens))
      == multiset(ScoreAll(left + right, req, tokens)) + multiset(ScoreAll([e], req, tokens))
  {
    ScoreAllConcat(left, right, req, tokens);
    ScoreAllConcat(left + [e], right, req, tokens);
    ScoreAllConcat(left, [e], req, tokens);
  }

  lemma ScoreAllLast(a: seq<Entry>, req: Request, tokens: Tokenizer)
    requires a != []
    ensures multiset(ScoreAll(a, req, tokens))
      == multiset(ScoreAll(a[..|a| - 1], req, tokens)) + multiset(ScoreAll([a[|a| - 1]], req, tokens))
  {
    var front, last := a[..|a| - 1], a[|a| - 1];
    assert front + [last] == a;
    ScoreAllConcat(front, [last], req, tokens);
  }

  /** The last element of `a`, taken out of a permutation of `a`. */
  lemma TakeOut<T>(a: seq<T>, b: seq<T>) returns (left: seq<T>, right: seq<T>)
    requires a != [] && multiset(a) == multiset(b)
    ensures b == left + [a[|a| - 1]] + right && multiset(a[..|a| - 1]) == multiset(left + right)
  {
    var n := |a| - 1;
    assert a == a[..n] + [a[n]];
    assert a[n] in multiset(b);
    var j :| 0 <= j < |b| && b[j] == a[n];
    left, right := b[..j], b[j + 1..];
    assert b == left + [a[n]] + right;
    assert multiset(a[..n]) == multiset(a) - multiset{a[n]} == multiset(left + right);
  }

  lemma {:induction false} ScoreAllMultiset(a: seq<Entry>, b: seq<Entry>, req: Request, tokens: Tokenizer)
    requires multiset(a) == multiset(b)
    ensures multiset(ScoreAll(a, req, tokens)) == multiset(ScoreAll(b, req, tokens))
  {
    if a == [] {
      assert |multiset(b)| == 0;
      assert b == [];
    } else {
      var n := |a| - 1;
      var left, right := TakeOut(a, b);
      ScoreAllMultiset(a[..n], left + right, req, tokens);
      ScoreAllMiddle(left, a[n], right, req, tokens);
      ScoreAllLast(a, req, tokens);
    }
  }

  lemma RankingDecided(entries: seq<Entry>, req: Request, tokens: Tokenizer, ranking: seq<Scored>)
    requires UniqueEntries(entries) && multiset(ranking) == multiset(ScoreAll(entries, req, tokens))
    ensures Decides(Better, ranking)
  {
    var scored := ScoreAll(entries, req, tokens);
    forall c | c in ranking ensures c in scored {
      assert c in multiset(ranking);
    }
    BetterDecides(entries, ranking, req, tokens);
  }

  /** Selection sees the catalog as a set: rearranging capabilities or bindings, and sorting with any algorithm,
      stable or not, leads to the same ranking. */
  lemma RankingUnique(
    a: seq<Entry>, b: seq<Entry>, req: Request, tokens: Tokenizer, rankingA: seq<Scored>, rankingB: seq<Scored>)
    requires multiset(a) == multiset(b) && UniqueEntries(a)
    requires IsSortOf(Better, rankingA, ScoreAll(a, req, tokens))
    requires IsSortOf(Better, rankingB, ScoreAll(b, req, tokens))
    ensures rankingA == rankingB
  {
    ScoreAllMultiset(a, b, req, tokens);
    RankingDecided(a, req, tokens, rankingA);
    SortUnique(Better, rankingA, rankingB);
  }

  // ---------------------------------------------------------------- choosing

  datatype Source = Local | LLM

  datatype Selection = Selection(
    source: Source, capabilityID: string, bindingID: string, providerID: string,
    required: seq<string>, patch: Inputs, considered: nat)

  datatype SelectionError = NoMatch | Ambiguous | LLMFailed | InvalidLLMSelection

  function SelectionOf(source: Source, c: Scored, considered: nat, patch: Inputs): Selection {
    Selection(source, c.entry.capabilityID, c.entry.binding.id, c.entry.binding.providerID, c.required, patch, considered)
  }

  predicate NonTargetMissing(c: Scored) {
    exists n | n in c.missing :: n != TARGET
  }

  predicate ShouldUseLLM(ranking: seq<Scored>) {
    ranking != [] && (NonTargetMissing(ranking[0]) || (|ranking| > 1 && ranking[0].score - ranking[1].score <= LLM_SCORE_GAP))
  }

  function SelectLocal(ranking: seq<Scored>): Result<Selection, SelectionError>
    requires ranking != []
  {
    if |ranking| > 1 && ranking[0].score == ranking[1].score
      && ranking[0].entry.capabilityID != ranking[1].entry.capabilityID then Err(Ambiguous)
    else Ok(SelectionOf(Local, ranking[0], |ranking|, map[]))
  }

  /** `c` is among the highest-scoring candidates. */
  predicate Top(ranking: seq<Scored>, c: Scored) {
    c in ranking && forall d | d in ranking :: d.score <= c.score
  }

  /** The local choice scores highest, and among the highest its capability id, then its binding id, comes first. */
  lemma LocalChoiceMaximal(ranking: seq<Scored>)
    requires ranking != [] && Sorted(Better, ranking)
    ensures Top(ranking, ranking[0])
    ensures forall c | Top(ranking, c) :: !StrLess(c.entry.capabilityID, ranking[0].entry.capabilityID)
    ensures forall c | Top(ranking, c) && c.entry.capabilityID == ranking[0].entry.capabilityID ::
      !StrLess(c.entry.binding.id, ranking[0].entry.binding.id)
  {
    forall d | d in ranking
      ensures d.score <= ranking[0].score
      ensures d.score == ranking[0].score ==> !StrLess(d.entry.capabilityID, ranking[0].entry.capabilityID)
      ensures d.score == ranking[0].score && d.entry.capabilityID == ranking[0].entry.capabilityID ==>
        !StrLess(d.entry.binding.id, ranking[0].entry.binding.id)
    {
      var j :| 0 <= j < |ranking| && ranking[j] == d;
      StrLessTotal(d.entry.capabilityID, d.entry.capabilityID);
      StrLessTotal(d.entry.binding.id, d.entry.binding.id);
      assert j > 0 ==> !Better(ranking[j], ranking[0]);
    }
  }

  /** The highest scorers that belong to the first capability among them. */
  predicate TopOfFirst(ranking: seq<Scored>, i: nat)
    requires 0 < |ranking|
  {
    i < |ranking| && ranking[i].score == ranking[0].score
    && ranking[i].entry.capabilityID == ranking[0].entry.capabilityID
  }

  /** Exactly when local selection gives up. Another capability reaching the top score is not enough: the first
      of the tied capabilities must reach it with a single binding, because only the top two are compared. */
  lemma AmbiguousIff(ranking: seq<Scored>)
    requires ranking != [] && Sorted(Better, ranking)
    ensures SelectLocal(ranking) == Err(Ambiguous) <==>
      && (exists i | 0 <= i < |ranking| :: ranking[i].score == ranking[0].score
            && ranking[i].entry.capabilityID != ranking[0].entry.capabilityID)
      && (forall i | 0 <= i < |ranking| :: TopOfFirst(ranking, i) ==> i == 0)
  {
    if |ranking| > 1 {
      assert !Better(ranking[1], ranking[0]);
      forall i | 1 <= i < |ranking|
        ensures ranking[i].score <= ranking[1].score <= ranking[0].score
        ensures TopOfFirst(ranking, i) ==> TopOfFirst(ranking, 1)
      {
        assert i > 1 ==> !Better(ranking[i], ranking[1]);
        StrLessTotal(ranking[0].entry.capabilityID, ranking[1].entry.capabilityID);
      }
      assert TopOfFirst(ranking, 1) <==>
        ranking[1].score == ranking[0].score && ranking[1].entry.capabilityID == ranking[0].entry.capabilityID;
    }
  }

  /** A stored binding of the witness: promoted, executed, one check passed, no inputs. */
  function Contender(capabilityID: string, bindingID: string): Binding {
    var verify := VerifySpec(L2, Execute, [VerifyCheck(Stdout, "", "non_empty", map[])]);
    Binding(bindingID, capabilityID, "p", BARE_COMMAND, Some(verify), [EvidenceRef("e", "non_empty")], Promoted)
  }

  /** Two capabilities described alike, the first with two bindings, and an intent that is their description. */
  function TiedRequest(): Request {
    Request("run", map[], "", false, NoLevel, [
      Capability("a.b", "run", [Contender("a.b", "1"), Contender("a.b", "2")]),
      Capability("c.d", "run", [Contender("c.d", "3")])])
  }

  function TiedCandidate(capabilityID: string, bindingID: string): Scored {
    Scored(Entry(capabilityID, "run", Contender(capabilityID, bindingID)), [], [], SCORE_DESC_TOKEN)
  }

  /** The candidates of the request rank like this; local selection answers although another capability scores as high. */
  ghost predicate UnreportedTie(req: Request, tokens: Tokenizer, ranking: seq<Scored>) {
    && IsSortOf(Better, ranking, ScoreAll(Entries(req.capabilities), req, tokens))
    && ranking != [] && Dispatched(Ok(SelectionOf(Local, ranking[0], |ranking|, map[])), ranking, req, None, |ranking|)
    && exists c :: Top(ranking, c) && c.entry.capabilityID != ranking[0].entry.capabilityID
  }

  /** A tie between capabilities that is not reported, in a request as it comes in. */
  lemma TieNotReported(tokens: Tokenizer)
    requires tokens("run") == {"run"} && tokens("a.b") == {"a", "b"} && tokens("c.d") == {"c", "d"}
    ensures UnreportedTie(TiedRequest(), tokens,
      [TiedCandidate("a.b", "1"), TiedCandidate("a.b", "2"), TiedCandidate("c.d", "3")])
  {
    var c1, c2, c3 := TiedCandidate("a.b", "1"), TiedCandidate("a.b", "2"), TiedCandidate("c.d", "3");
    TiedRanking(tokens, c1, c2, c3);
    TiedSorted(c1, c2, c3);
    FirstPairAnswers(TiedRequest(), tokens, c1, c2, c3);
  }

  /** Two candidates of one capability in front: local selection never sees the third. */
  lemma FirstPairAnswers(req: Request, tokens: Tokenizer, c1: Scored, c2: Scored, c3: Scored)
    requires ScoreAll(Entries(req.capabilities), req, tokens) == [c1, c2, c3] && Sorted(Better, [c1, c2, c3])
    requires c1.score == c2.score == c3.score
    requires c1.entry.capabilityID == c2.entry.capabilityID != c3.entry.capabilityID
    ensures UnreportedTie(req, tokens, [c1, c2, c3])
  {
    SameScoreTop(c1, c2, c3);
  }

  lemma SameScoreTop(c1: Scored, c2: Scored, c3: Scored)
    requires c1.score == c2.score == c3.score
    ensures Top([c1, c2, c3], c3)
  {
    assert c3 == [c1, c2, c3][2];
    assert forall d | d in [c1, c2, c3] :: d == c1 || d == c2 || d == c3;
  }

  lemma TiedRanking(tokens: Tokenizer, c1: Scored, c2: Scored, c3: Scored)
    requires tokens("run") == {"run"} && tokens("a.b") == {"a", "b"} && tokens("c.d") == {"c", "d"}
    requires c1 == TiedCandidate("a.b", "1") && c2 == TiedCandidate("a.b", "2") && c3 == TiedCandidate("c.d", "3")
    ensures ScoreAll(Entries(TiedRequest().capabilities), TiedRequest(), tokens) == [c1, c2, c3]
  {
    TiedScore("a.b", "1", tokens);
    TiedScore("a.b", "2", tokens);
    TiedScore("c.d", "3", tokens);
    TiedEntries();
    JoinScores([c1.entry], [c2.entry], [c3.entry], [c1], [c2], [c3], TiedRequest(), tokens);
    Triple(c1, c2, c3);
  }

  lemma JoinScores(
    e1: seq<Entry>, e2: seq<Entry>, e3: seq<Entry>, s1: seq<Scored>, s2: seq<Scored>, s3: seq<Scored>,
    req: Request, tokens: Tokenizer)
    requires ScoreAll(e1, req, tokens) == s1 && ScoreAll(e2, req, tokens) == s2 && ScoreAll(e3, req, tokens) == s3
    ensures ScoreAll(e1 + e2 + e3, req, tokens) == s1 + s2 + s3
  {
    ScoreAllConcat(e1 + e2, e3, req, tokens);
    ScoreAllConcat(e1, e2, req, tokens);
  }

  lemma Triple<T>(a: T, b: T, c: T)
    ensures [a] + [b] + [c] == [a, b, c]
  {
  }

  lemma TiedSorted(c1: Scored, c2: Scored, c3: Scored)
    requires c1 == TiedCandidate("a.b", "1") && c2 == TiedCandidate("a.b", "2") && c3 == TiedCandidate("c.d", "3")
    ensures Sorted(Better, [c1, c2, c3])
  {
    assert !StrLess("c.d", "a.b") && !StrLess("2", "1") && "c.d" != "a.b";
    assert !Better(c2, c1) && !Better(c3, c1) && !Better(c3, c2);
  }

  lemma TiedEntries()
    ensures Entries(TiedRequest().capabilities)
      == [TiedCandidate("a.b", "1").entry] + [TiedCandidate("a.b", "2").entry] + [TiedCandidate("c.d", "3").entry]
  {
    var first, second := TiedRequest().capabilities[0], TiedRequest().capabilities[1];
    EntriesOfTwo(first, second);
    assert TiedRequest().capabilities == [first, second];
  }

  lemma EntriesOfTwo(first: Capability, second: Capability)
    ensures Entries([first, second]) == EntriesOf(first) + EntriesOf(second)
  {
    assert [first][..0] == [] && [first, second][..1] == [first];
    assert Entries([first]) == EntriesOf(first);
  }

  lemma TiedScore(capabilityID: string, bindingID: string, tokens: Tokenizer)
    requires tokens("run") == {"run"} && tokens(capabilityID) !! {"run"}
    ensures ScoreAll([TiedCandidate(capabilityID, bindingID).entry], TiedRequest(), tokens)
      == [TiedCandidate(capabilityID, bindingID)]
  {
    var e, req := TiedCandidate(capabilityID, bindingID).entry, TiedRequest();
    BareCommandNeedsNothing();
    assert Blank("");
    assert Admissible(e.binding, req);
    assert tokens(capabilityID) * tokens("run") == {} && tokens("run") * tokens("run") == {"run"};
    assert IntentScore(e, tokens("run"), tokens) == SCORE_DESC_TOKEN;
    assert Score(e, req, tokens) == Some(TiedCandidate(capabilityID, bindingID));
    assert [e][..0] == [] && ScoreAll([], req, tokens) == [];
  }

  // ---------------------------------------------------------------- the LLM's answer

  /** Whatever comes back from the client: a transport failure, text that does not decode, or a decision. */
  datatype Answer = Failed | Undecodable | Decision(bindingID: string, patch: Inputs)

  type Client = seq<Scored> -> Answer

  /** The candidate a binding id stands for: later candidates overwrite earlier ones in the id map. */
  function LastWithID(shortlist: seq<Scored>, id: string): (r: Option<Scored>)
    ensures r.Some? ==> r.value in shortlist && r.value.entry.binding.id == id
    ensures r.None? ==> forall c | c in shortlist :: c.entry.binding.id != id
  {
    if shortlist == [] then None
    else
      var last := shortlist[|shortlist| - 1];
      if last.entry.binding.id == id then Some(last) else LastWithID(shortlist[..|shortlist| - 1], id)
  }

  lemma {:induction false} LastIsLast(shortlist: seq<Scored>, j: nat)
    requires j < |shortlist|
    requires forall l | j < l < |shortlist| :: shortlist[l].entry.binding.id != shortlist[j].entry.binding.id
    ensures LastWithID(shortlist, shortlist[j].entry.binding.id) == Some(shortlist[j])
  {
    if j < |shortlist| - 1 {
      LastIsLast(shortlist[..|shortlist| - 1], j);
    }
  }

  method IndexByID(shortlist: seq<Scored>) returns (byID: map<string, Scored>)
    ensures forall id :: id in byID <==> LastWithID(shortlist, id).Some?
    ensures forall id | id in byID :: LastWithID(shortlist, id) == Some(byID[id])
  {
    byID := map[];
    for i := 0 to |shortlist|
      invariant forall id :: id in byID <==> LastWithID(shortlist[..i], id).Some?
      invariant forall id | id in byID :: LastWithID(shortlist[..i], id) == Some(byID[id])
    {
      assert shortlist[..i + 1][..i] == shortlist[..i];
      byID := byID[shortlist[i].entry.binding.id := shortlist[i]];
    }
    assert shortlist[..|shortlist|] == shortlist;
  }

  /** A patch key that validateInputsPatch lets through, after trimming. */
  predicate AllowedKey(name: string, required: seq<string>, inputs: Inputs) {
    name != "" && name != TARGET && name in required && !HasInput(inputs, name)
  }

  /** A validated patch: every key trimmed and allowed, every value one the answer gave for that key. */
  predicate ValidPatch(cleaned: Inputs, patch: Inputs, required: seq<string>, inputs: Inputs) {
    && (forall n | n in cleaned :: Trimmed(n) && AllowedKey(n, required, inputs)
          && exists k | k in patch :: TrimSpace(k) == n && patch[k] == cleaned[n])
    && (forall k | k in patch :: TrimSpace(k) in cleaned)
  }

  /** validateInputsPatch, walking the patch in any order. */
  method ValidateInputsPatch(required: seq<string>, inputs: Inputs, patch: Inputs)
    returns (r: Result<Inputs, SelectionError>)
    ensures r.Ok? <==> PatchAllowed(patch, required, inputs)
    ensures r.Ok? <==> forall k | k in patch ::
      var n := TrimSpace(k); n != "" && n != "target" && n in required && !HasInput(inputs, n)
    ensures r.Ok? ==> ValidPatch(r.value, patch, required, inputs)
    ensures r.Err? ==> r.error == InvalidLLMSelection
  {
    var cleaned: Inputs := map[];
    var pending := patch.Keys;
    while pending != {}
      invariant pending <= patch.Keys
      invariant forall k | k in patch.Keys - pending :: AllowedKey(TrimSpace(k), required, inputs) && TrimSpace(k) in cleaned
      invariant forall n | n in cleaned ::
        Trimmed(n) && AllowedKey(n, required, inputs) && exists k | k in patch :: TrimSpace(k) == n && patch[k] == cleaned[n]
    {
      var key :| key in pending;
      var name := TrimSpace(key);
      if name == "" || name == TARGET || name !in required || HasInput(inputs, name) {
        return Err(InvalidLLMSelection);
      }
      cleaned := cleaned[name := patch[key]];
      pending := pending - {key};
    }
    return Ok(cleaned);
  }

  /** The candidates shown to the LLM. */
  function Shortlist(ranking: seq<Scored>, topK: nat): (r: seq<Scored>)
    ensures r <= ranking && |r| <= topK && (|r| == topK || r == ranking)
  {
    if |ranking| > topK then ranking[..topK] else ranking
  }

  /** The patch an answer proposes asks only for inputs it may fill in. */
  predicate PatchAllowed(patch: Inputs, required: seq<string>, inputs: Inputs) {
    forall k | k in patch :: AllowedKey(TrimSpace(k), required, inputs)
  }

  /** What an answer of the LLM leads to: the candidate it names among the top K, with its patch, or an error. */
  predicate FollowsAnswer(
    r: Result<Selection, SelectionError>, ranking: seq<Scored>, topK: nat, inputs: Inputs, answer: Answer)
  {
    match answer
    case Failed => r == Err(LLMFailed)
    case Undecodable => r == Err(InvalidLLMSelection)
    case Decision(answered, patch) =>
      var named := LastWithID(Shortlist(ranking, topK), TrimSpace(answered));
      if named.None? || !PatchAllowed(patch, named.value.required, inputs) then r == Err(InvalidLLMSelection)
      else
        && r.Ok? && r.value == SelectionOf(LLM, named.value, |ranking|, r.value.patch)
        && ValidPatch(r.value.patch, patch, named.value.required, inputs)
  }

  method SelectWithLLM(ranking: seq<Scored>, topK: nat, inputs: Inputs, client: Client)
    returns (r: Result<Selection, SelectionError>)
    ensures FollowsAnswer(r, ranking, topK, inputs, client(Shortlist(ranking, topK)))
    ensures r == Err(LLMFailed) <==> client(Shortlist(ranking, topK)).Failed?
    ensures r.Ok? ==>
      var answer := client(Shortlist(ranking, topK));
      && answer.Decision? && r.value.bindingID == TrimSpace(answer.bindingID)
      && r.value.source == LLM && r.value.considered == |ranking|
  {
    var shortlist := Shortlist(ranking, topK);
    var byID := IndexByID(shortlist);
    match client(shortlist)
    case Failed => return Err(LLMFailed);
    case Undecodable => return Err(InvalidLLMSelection);
    case Decision(answered, patch) =>
      var id := TrimSpace(answered);
      if id !in byID {
        return Err(InvalidLLMSelection);
      }
      var c := byID[id];
      var cleaned := ValidateInputsPatch(c.required, inputs, patch);
      if cleaned.Err? {
        return Err(cleaned.error);
      }
      return Ok(SelectionOf(LLM, c, |ranking|, cleaned.value));
  }

  /** What every successful selection is: a scored candidate; the best one locally, one of the top K with the LLM,
      whose patch has been validated. */
  predicate Selected(ranking: seq<Scored>, topK: nat, inputs: Inputs, s: Selection, c: Scored) {
    && c in ranking && s == SelectionOf(s.source, c, |ranking|, s.patch)
    && (s.source == Local ==> c == ranking[0] && s.patch == map[])
    && (s.source == LLM ==> c in Shortlist(ranking, topK))
    && forall n | n in s.patch :: Trimmed(n) && AllowedKey(n, c.required, inputs)
  }

  /** Which way a selection goes: nothing to select, the LLM when it is there and forced or advisable, else locally. */
  predicate Dispatched(
    r: Result<Selection, SelectionError>, ranking: seq<Scored>, req: Request, client: Option<Client>, topK: nat)
  {
    if ranking == [] then r == Err(NoMatch)
    else if client.Some? && (req.forceLLM || ShouldUseLLM(ranking)) then
      FollowsAnswer(r, ranking, topK, req.inputs, client.value(Shortlist(ranking, topK)))
    else r == SelectLocal(ranking)
  }

  /** Runner.Run of the selector. */
  method Select(req: Request, tokens: Tokenizer, client: Option<Client>, topK: nat)
    returns (r: Result<Selection, SelectionError>, ghost ranking: seq<Scored>)
    ensures IsSortOf(Better, ranking, ScoreAll(Entries(req.capabilities), req, tokens))
    ensures r == Err(NoMatch) <==> ScoreAll(Entries(req.capabilities), req, tokens) == []
    ensures r == Err(NoMatch) <==> ranking == []
    ensures r.Ok? ==> exists c :: Selected(ranking, topK, req.inputs, r.value, c)
    ensures Dispatched(r, ranking, req, client, topK)
    ensures ranking != [] ==>
      if client.Some? && (req.forceLLM || (exists n | n in ranking[0].missing :: n != "target")
                          || (|ranking| > 1 && ranking[0].score <= ranking[1].score + 4))
      then FollowsAnswer(r, ranking, topK, req.inputs, client.value(Shortlist(ranking, topK)))
      else r == SelectLocal(ranking)
  {
    var candidates := Build(req, tokens);
    BetterWeak();
    var sorted := SortSlice(Better, candidates);
    ranking := sorted;
    if |candidates| == 0 {
      assert |multiset(sorted)| == 0;
      return Err(NoMatch), ranking;
    }
    assert |multiset(sorted)| == |candidates|;
    if client.Some? && (req.forceLLM || ShouldUseLLM(sorted)) {
      r := SelectWithLLM(sorted, topK, req.inputs, client.value);
      if r.Ok? {
        var c := LastWithID(Shortlist(sorted, topK), TrimSpace(client.value(Shortlist(sorted, topK)).bindingID)).value;
        assert Selected(sorted, topK, req.inputs, r.value, c);
      }
      return r, ranking;
    }
    r := SelectLocal(sorted);
    if r.Ok? {
      assert Selected(sorted, topK, req.inputs, r.value, sorted[0]);
    }
  }
}
