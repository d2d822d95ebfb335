/** internal/promote and the capability store: passed probes become durable bindings.
    The store is a map from capability id to record whose save validates, then writes all or nothing. */
module Promote {
  import opened Common
  import opened Text
  import opened Model
  import opened Check
  import opened ProbeRunner
  import opened CanonicalText

  datatype Rejection =
    | ProbeFailed | ProviderMissing | CapabilityMissing | CapabilityInvalid | DescriptionMissing | ExecutionMissing
    | LevelMissing | LevelIsUnproven | MethodMissing | EvidenceMissing | BindingIDFailed | RecordInvalid

  datatype PromoteError = IndexOutOfRange | DuplicateIndex | Canceled | Rejected(reason: Rejection) | StoreFailed

  // ---------------------------------------------------------------- binding ids

  type Digits = s: seq<nat> | forall d | d in s :: d < 16

  /** The JSON text of an execution, and the hash the ids are cut from. */
  datatype Identities = Identities(canonical: Execution -> Option<string>, hash: string -> Digits)

  function HexDigit(d: nat): (c: char)
    requires d < 16
    ensures !IsSpace(c)
  {
    "0123456789abcdef"[d]
  }

  function Hex(digits: Digits): (s: string)
    ensures |s| == |digits| && forall i | 0 <= i < |s| :: !IsSpace(s[i])
  {
    seq(|digits|, i requires 0 <= i < |digits| => HexDigit(digits[i]))
  }

  function BindingID(ids: Identities, capabilityID: string, providerID: string, canonical: string): (id: string)
    ensures Trimmed(id) && !Blank(id)
  {
    var id := "binding_" + Hex(ids.hash(capabilityID + "|" + providerID + "|" + canonical));
    assert id[0] == 'b';
    id
  }

  lemma HexFaithful(a: Digits, b: Digits)
    ensures Hex(a) == Hex(b) <==> a == b
  {
    if Hex(a) == Hex(b) {
      assert |a| == |Hex(a)| == |Hex(b)| == |b|;
      forall i | 0 <= i < |a| ensures a[i] == b[i] {
        assert Hex(a)[i] == HexDigit(a[i]) && Hex(b)[i] == HexDigit(b[i]);
        HexDigitFaithful(a[i], b[i]);
      }
    }
  }

  lemma HexDigitFaithful(d: nat, e: nat)
    requires d < 16 && e < 16
    ensures HexDigit(d) == HexDigit(e) <==> d == e
  {
  }

  ghost predicate TellsApart(hash: string -> Digits) {
    forall x, y | hash(x) == hash(y) :: x == y
  }

  /** As long as the hash tells texts apart, a binding id stands for capability, provider and canonical execution: none
      of the three can change without it. */
  lemma BindingIDFaithful(
    ids: Identities, capability: string, provider: string, text: string, other: string, provider': string, text': string)
    requires TellsApart(ids.hash) && ValidCapabilityID(capability) && ValidCapabilityID(other)
    requires JSONText(text) && JSONText(text')
    ensures BindingID(ids, capability, provider, text) == BindingID(ids, other, provider', text')
      <==> capability == other && provider == provider' && text == text'
  {
    var x, y := capability + "|" + provider + "|" + text, other + "|" + provider' + "|" + text';
    var d, e := ids.hash(x), ids.hash(y);
    HexFaithful(d, e);
    SamePrefix("binding_", Hex(d), Hex(e));
    if x == y {
      ThreeParts(capability, provider, text, other, provider', text');
    }
  }

  lemma SamePrefix(prefix: string, a: string, b: string)
    ensures prefix + a == prefix + b <==> a == b
  {
    assert (prefix + a)[|prefix|..] == a && (prefix + b)[|prefix|..] == b;
  }

  lemma ThreeParts(
    capability: string, provider: string, text: string, other: string, provider': string, text': string)
    requires ValidCapabilityID(capability) && ValidCapabilityID(other) && JSONText(text) && JSONText(text')
    requires capability + "|" + provider + "|" + text == other + "|" + provider' + "|" + text'
    ensures capability == other && provider == provider' && text == text'
  {
    var a, b := capability + "|" + provider, other + "|" + provider';
    if |text| <= |text'| {
      LastBarSplits(a, text, b, text');
    } else {
      LastBarSplits(b, text', a, text);
    }
    CapabilityIDTrimmed(capability);
    CapabilityIDTrimmed(other);
    FirstBarSplits(capability, provider, other, provider');
  }

  lemma FirstBarSplits(a: string, s: string, b: string, t: string)
    requires '|' !in a && '|' !in b && a + "|" + s == b + "|" + t
    ensures a == b && s == t
  {
    var x := a + "|" + s;
    assert x[|a|] == '|' && x[|b|] == '|';
    assert |a| == |b|;
    assert a == x[..|a|] && b == x[..|b|] && s == x[|a| + 1..] && t == x[|b| + 1..];
  }

  // ---------------------------------------------------------------- one promotion

  datatype PromotionTarget = PromotionTarget(candidateIndex: nat, candidate: Candidate, probe: Probe)

  /** The switch of promotedCapability and the id derivation after it: the first reason to refuse. */
  function Refusal(c: Candidate, p: Probe, ids: Identities): (r: Option<Rejection>)
    ensures r.None? ==> p.passed && ids.canonical(c.execution).Some?
  {
    var capabilityID := TrimSpace(c.capabilityID);
    if !p.passed then Some(ProbeFailed)
    else if TrimSpace(c.providerID) == "" then Some(ProviderMissing)
    else if capabilityID == "" then Some(CapabilityMissing)
    else if !ValidCapabilityID(capabilityID) then Some(CapabilityInvalid)
    else if TrimSpace(c.description) == "" then Some(DescriptionMissing)
    else if c.execution.kind == NoKind then Some(ExecutionMissing)
    else if p.verify.level == NoLevel then Some(LevelMissing)
    else if p.verify.level == L0 then Some(LevelIsUnproven)
    else if p.verify.method_ == NoMethod then Some(MethodMissing)
    else if p.evidence == [] then Some(EvidenceMissing)
    else if ids.canonical(c.execution).None? then Some(BindingIDFailed)
    else None
  }

  /** The record with the one new binding. */
  function FreshCapability(c: Candidate, p: Probe, ids: Identities): Capability
    requires ids.canonical(c.execution).Some?
  {
    var providerID, capabilityID := TrimSpace(c.providerID), TrimSpace(c.capabilityID);
    var id := BindingID(ids, capabilityID, providerID, ids.canonical(c.execution).value);
    Capability(capabilityID, TrimSpace(c.description),
      [Binding(id, capabilityID, providerID, c.execution, Some(p.verify), p.evidence, Promoted)])
  }

  /** promotedCapability: a valid record with the one new binding, or the reason to refuse. */
  function PromotedCapability(c: Candidate, p: Probe, ids: Identities): Result<Capability, Rejection> {
    match Refusal(c, p, ids)
    case Some(reason) => Err(reason)
    case None =>
      var capability := FreshCapability(c, p, ids);
      if ValidateCapability(capability) then Ok(capability) else Err(RecordInvalid)
  }

  /** The reason a target is rejected for is one it has. */
  lemma ReasonIsReal(c: Candidate, p: Probe, ids: Identities)
    ensures match Refusal(c, p, ids)
      case None => p.passed && !Blank(c.providerID) && !Blank(c.capabilityID) && !Blank(c.description) && p.evidence != []
      case Some(ProbeFailed) => !p.passed
      case Some(ProviderMissing) => Blank(c.providerID)
      case Some(CapabilityMissing) => Blank(c.capabilityID)
      case Some(CapabilityInvalid) => !Blank(c.capabilityID) && !ValidCapabilityID(TrimSpace(c.capabilityID))
      case Some(DescriptionMissing) => Blank(c.description)
      case Some(ExecutionMissing) => c.execution.kind == NoKind
      case Some(LevelMissing) => p.verify.level == NoLevel
      case Some(LevelIsUnproven) => p.verify.level == L0
      case Some(MethodMissing) => p.verify.method_ == NoMethod
      case Some(EvidenceMissing) => p.evidence == []
      case Some(BindingIDFailed) => ids.canonical(c.execution) == None
      case Some(RecordInvalid) => false
  {
  }

  /** What promotion still asks of a candidate once its probe is known to be honest. */
  predicate Promotable(c: Candidate, ids: Identities) {
    && !Blank(c.providerID) && ValidCapabilityID(TrimSpace(c.capabilityID)) && !Blank(c.description)
    && ValidExecutionKind(c.execution.kind) && ids.canonical(c.execution).Some?
  }

  lemma CertifiedEvidence(verify: VerifySpec, evidence: seq<EvidenceRef>, table: PredicateTable)
    requires Certified(verify, evidence, table)
    ensures verify.level != NoLevel && verify.method_ != NoMethod && evidence != []
    ensures forall e | e in evidence :: !Blank(e.id)
  {
    if verify.method_ == Execute {
      assert forall i | 0 <= i < |evidence| :: !Blank(evidence[i].id);
    } else {
      assert CONTRACT_EVIDENCE.id[0] == 'c';
    }
  }

  /** The binding a promotion stores is the candidate's execution under the spec its probe passed. */
  predicate BindingOf(b: Binding, c: Candidate, p: Probe) {
    && b.providerID == TrimSpace(c.providerID) && b.capabilityID == TrimSpace(c.capabilityID)
    && b.execution == c.execution && b.verify == Some(p.verify) && b.evidence == p.evidence
  }

  // ---------------------------------------------------------------- the catalog invariant

  predicate DistinctIDs(bindings: seq<Binding>) {
    forall i, j | 0 <= i < j < |bindings| :: bindings[i].id != bindings[j].id
  }

  /** A stored binding carries ids a later lookup will find, and a spec some probe really certified. */
  predicate Trusted(b: Binding, table: PredicateTable) {
    && Trimmed(b.id) && Trimmed(b.providerID)
    && b.verify.Some? && Certified(b.verify.value, b.evidence, table)
  }

  /** A record as a store that validates its saves holds it. */
  predicate ValidRecord(c: Capability) {
    ValidateCapability(c) && DistinctIDs(c.bindings)
  }

  predicate SoundCapability(c: Capability, table: PredicateTable) {
    ValidRecord(c) && forall b | b in c.bindings :: Trusted(b, table)
  }

  predicate ValidSingle(c: Capability) {
    ValidRecord(c) && |c.bindings| == 1
  }

  predicate Single(c: Capability, table: PredicateTable) {
    SoundCapability(c, table) && |c.bindings| == 1
  }

  type Records = map<string, Capability>

  predicate ValidRecords(records: Records) {
    forall id | id in records :: records[id].id == id && ValidRecord(records[id])
  }

  predicate SoundRecords(records: Records, table: PredicateTable) {
    forall id | id in records :: records[id].id == id && SoundCapability(records[id], table)
  }

  lemma FreshValid(c: Candidate, p: Probe, ids: Identities, table: PredicateTable)
    requires p.passed && HonestProbe(p, table) && Refusal(c, p, ids).None?
    ensures ValidateCapability(FreshCapability(c, p, ids)) <==> ValidExecutionKind(c.execution.kind)
  {
    CertifiedEvidence(p.verify, p.evidence, table);
    var record := FreshCapability(c, p, ids);
    var b := record.bindings[0];
    CapabilityIDTrimmed(record.id);
    assert record.bindings == [b] && b in record.bindings;
    assert b.evidence == p.evidence;
  }

  lemma RefusalIff(c: Candidate, p: Probe, ids: Identities, table: PredicateTable)
    requires p.passed && HonestProbe(p, table)
    ensures Refusal(c, p, ids).None? <==>
      && !Blank(c.providerID) && ValidCapabilityID(TrimSpace(c.capabilityID)) && !Blank(c.description)
      && c.execution.kind != NoKind && ids.canonical(c.execution).Some?
  {
    CertifiedEvidence(p.verify, p.evidence, table);
    assert ValidCapabilityID(TrimSpace(c.capabilityID)) ==> TrimSpace(c.capabilityID) != "";
  }

  /** An honest passed probe is never refused for its level, method or evidence: promotion succeeds
      exactly when the candidate itself is promotable. */
  lemma HonestProbePromotes(c: Candidate, p: Probe, ids: Identities, table: PredicateTable)
    requires p.passed && HonestProbe(p, table)
    ensures PromotedCapability(c, p, ids).Ok? <==> Promotable(c, ids)
    ensures Promotable(c, ids) ==> PromotedCapability(c, p, ids) == Ok(FreshCapability(c, p, ids))
  {
    RefusalIff(c, p, ids, table);
    if Refusal(c, p, ids).None? {
      FreshValid(c, p, ids, table);
    }
  }

  lemma FreshIsSingle(c: Candidate, p: Probe, ids: Identities, table: PredicateTable)
    requires p.passed && HonestProbe(p, table) && Promotable(c, ids)
    ensures Single(FreshCapability(c, p, ids), table)
    ensures BindingOf(FreshCapability(c, p, ids).bindings[0], c, p)
  {
    RefusalIff(c, p, ids, table);
    FreshValid(c, p, ids, table);
    var record := FreshCapability(c, p, ids);
    assert Trusted(record.bindings[0], table);
  }

  // ---------------------------------------------------------------- merging

  function BindingByID(bindings: seq<Binding>, id: string): (r: Option<Binding>)
    ensures r.Some? ==> r.value in bindings && r.value.id == id
    ensures r.None? ==> forall b | b in bindings :: b.id != id
  {
    if bindings == [] then None
    else if bindings[0].id == id then Some(bindings[0])
    else BindingByID(bindings[1..], id)
  }

  /** The existing bindings, each replaced by the promoted one of the same id where there is one. */
  function Replaced(existing: seq<Binding>, promoted: seq<Binding>): (r: seq<Binding>)
    ensures |r| == |existing|
    ensures forall i | 0 <= i < |r| :: r[i] == BindingByID(promoted, existing[i].id).GetOr(existing[i])
  {
    if existing == [] then []
    else
      var last := existing[|existing| - 1];
      Replaced(existing[..|existing| - 1], promoted) + [BindingByID(promoted, last.id).GetOr(last)]
  }

  lemma {:induction false} BindingByIDAppend(bindings: seq<Binding>, b: Binding, id: string)
    ensures BindingByID(bindings + [b], id).Some? <==> BindingByID(bindings, id).Some? || b.id == id
  {
    if bindings != [] {
      assert (bindings + [b])[1..] == bindings[1..] + [b];
      BindingByIDAppend(bindings[1..], b, id);
    }
  }

  /** The promoted bindings whose id is new. */
  function Added(existing: seq<Binding>, promoted: seq<Binding>): seq<Binding> {
    if promoted == [] then []
    else
      var last := promoted[|promoted| - 1];
      var before := Added(existing, promoted[..|promoted| - 1]);
      if BindingByID(existing, last.id).Some? then before else before + [last]
  }

  lemma AddedMore(existing: seq<Binding>, promoted: seq<Binding>, i: nat)
    requires i < |promoted|
    ensures Added(existing, promoted[..i + 1]) == Added(existing, promoted[..i])
      + if BindingByID(existing, promoted[i].id).Some? then [] else [promoted[i]]
  {
    assert promoted[..i + 1][..i] == promoted[..i];
  }

  function Merge(existing: Capability, promoted: Capability): Capability {
    existing.(
      description := if Blank(existing.description) then promoted.description else existing.description,
      bindings := Replaced(existing.bindings, promoted.bindings) + Added(existing.bindings, promoted.bindings))
  }

  /** Of the promoted ids, `replaced` holds exactly those met in `front`. */
  ghost predicate ReplacedIDs(replaced: set<string>, front: seq<Binding>, promoted: seq<Binding>) {
    forall id | BindingByID(promoted, id).Some? :: id in replaced <==> BindingByID(front, id).Some?
  }

  lemma ReplacedMore(existing: seq<Binding>, promoted: seq<Binding>, i: nat)
    requires i < |existing|
    ensures Replaced(existing[..i + 1], promoted)
      == Replaced(existing[..i], promoted) + [BindingByID(promoted, existing[i].id).GetOr(existing[i])]
  {
    assert existing[..i + 1][..i] == existing[..i];
  }

  lemma ReplacedIDsMore(replaced: set<string>, front: seq<Binding>, b: Binding, promoted: seq<Binding>)
    requires ReplacedIDs(replaced, front, promoted)
    ensures ReplacedIDs(if BindingByID(promoted, b.id).Some? then replaced + {b.id} else replaced, front + [b], promoted)
  {
    forall id ensures BindingByID(front + [b], id).Some? <==> BindingByID(front, id).Some? || b.id == id {
      BindingByIDAppend(front, b, id);
    }
  }

  /** The first loop of the merge. */
  method ReplaceBindings(existing: seq<Binding>, promoted: seq<Binding>) returns (bindings: seq<Binding>, replaced: set<string>)
    ensures bindings == Replaced(existing, promoted) && ReplacedIDs(replaced, existing, promoted)
  {
    bindings, replaced := [], {};
    for i := 0 to |existing|
      invariant bindings == Replaced(existing[..i], promoted)
      invariant ReplacedIDs(replaced, existing[..i], promoted)
    {
      var binding := existing[i];
      ReplacedMore(existing, promoted, i);
      ReplacedIDsMore(replaced, existing[..i], binding, promoted);
      FrontMore(existing, i);
      var replacement := BindingByID(promoted, binding.id);
      if replacement.Some? {
        bindings := bindings + [replacement.value];
        replaced := replaced + {binding.id};
      } else {
        bindings := bindings + [binding];
      }
    }
    assert existing[..|existing|] == existing;
  }

  /** The second loop. */
  method AppendBindings(existing: seq<Binding>, promoted: seq<Binding>, kept: seq<Binding>, replaced: set<string>)
    returns (bindings: seq<Binding>)
    requires ReplacedIDs(replaced, existing, promoted)
    ensures bindings == kept + Added(existing, promoted)
  {
    bindings := kept;
    for i := 0 to |promoted|
      invariant bindings == kept + Added(existing, promoted[..i])
    {
      var binding := promoted[i];
      AddedMore(existing, promoted, i);
      assert binding in promoted;
      Regroup(kept, Added(existing, promoted[..i]), [binding]);
      if binding.id in replaced {
        continue;
      }
      bindings := bindings + [binding];
    }
    assert promoted[..|promoted|] == promoted;
  }

  method MergeCapability(existing: Capability, promoted: Capability) returns (merged: Capability)
    ensures merged == Merge(existing, promoted)
  {
    var description := existing.description;
    if TrimSpace(description) == "" {
      description := promoted.description;
    }
    var bindings, replaced := ReplaceBindings(existing.bindings, promoted.bindings);
    bindings := AppendBindings(existing.bindings, promoted.bindings, bindings, replaced);
    merged := existing.(description := description, bindings := bindings);
  }

  predicate HasID(bindings: seq<Binding>, id: string) {
    exists i | 0 <= i < |bindings| :: bindings[i].id == id
  }

  /** One promoted binding lands in the place of its id, or at the end when the id is new. */
  predicate Upserted(before: seq<Binding>, b: Binding, after: seq<Binding>) {
    && |after| == |before| + (if HasID(before, b.id) then 0 else 1)
    && (forall i | 0 <= i < |before| :: after[i] == if before[i].id == b.id then b else before[i])
    && (!HasID(before, b.id) ==> after[|before|] == b)
  }

  lemma MergeUpserts(existing: Capability, promoted: Capability)
    requires |promoted.bindings| == 1
    ensures Upserted(existing.bindings, promoted.bindings[0], Merge(existing, promoted).bindings)
  {
    var b := promoted.bindings[0];
    assert promoted.bindings == [b] && promoted.bindings[..0] == [];
    assert Added(existing.bindings, []) == [];
    assert BindingByID(existing.bindings, b.id).Some? <==> HasID(existing.bindings, b.id) by {
      if BindingByID(existing.bindings, b.id).Some? {
        var i :| 0 <= i < |existing.bindings| && existing.bindings[i] == BindingByID(existing.bindings, b.id).value;
      }
    }
    forall i | 0 <= i < |existing.bindings|
      ensures BindingByID(promoted.bindings, existing.bindings[i].id)
        == if existing.bindings[i].id == b.id then Some(b) else None
    {
    }
  }

  lemma UpsertedFrom(before: seq<Binding>, b: Binding, after: seq<Binding>, x: Binding)
    requires Upserted(before, b, after) && x in after
    ensures x == b || x in before
  {
    var i :| 0 <= i < |after| && after[i] == x;
    assert i < |before| && before[i].id != b.id ==> x == before[i] && before[i] in before;
  }

  lemma UpsertedDistinct(before: seq<Binding>, b: Binding, after: seq<Binding>)
    requires Upserted(before, b, after) && DistinctIDs(before)
    ensures DistinctIDs(after)
  {
  }

  /** The merged record is again a valid record: the save that follows cannot be refused for its content. */
  lemma MergeValid(existing: Capability, promoted: Capability)
    requires ValidRecord(existing) && ValidSingle(promoted) && existing.id == promoted.id
    ensures ValidRecord(Merge(existing, promoted))
  {
    var merged, b := Merge(existing, promoted), promoted.bindings[0];
    MergeUpserts(existing, promoted);
    UpsertedDistinct(existing.bindings, b, merged.bindings);
    assert b in promoted.bindings && HasPromotedBinding(promoted.bindings);
    forall m | m in merged.bindings ensures ValidateBinding(merged.id, m) {
      UpsertedFrom(existing.bindings, b, merged.bindings, m);
    }
  }

  lemma MergeSound(existing: Capability, promoted: Capability, table: PredicateTable)
    requires SoundCapability(existing, table) && Single(promoted, table) && existing.id == promoted.id
    ensures SoundCapability(Merge(existing, promoted), table)
  {
    var merged, b := Merge(existing, promoted), promoted.bindings[0];
    MergeValid(existing, promoted);
    MergeUpserts(existing, promoted);
    assert b in promoted.bindings;
    forall m | m in merged.bindings ensures Trusted(m, table) {
      UpsertedFrom(existing.bindings, b, merged.bindings, m);
    }
  }

  // ---------------------------------------------------------------- what promotions do to the catalog

  function ApplyOne(records: Records, promoted: Capability): Records {
    records[promoted.id := if promoted.id in records then Merge(records[promoted.id], promoted) else promoted]
  }

  function ApplyAll(records: Records, made: seq<Capability>): Records {
    if made == [] then records
    else ApplyOne(ApplyAll(records, made[..|made| - 1]), made[|made| - 1])
  }

  predicate AllSingle(made: seq<Capability>, table: PredicateTable) {
    forall m | m in made :: Single(m, table)
  }

  lemma ApplyOneValid(records: Records, promoted: Capability)
    requires ValidRecords(records) && ValidSingle(promoted)
    ensures ValidRecords(ApplyOne(records, promoted))
  {
    if promoted.id in records {
      MergeValid(records[promoted.id], promoted);
    }
  }

  lemma ApplyOneSound(records: Records, promoted: Capability, table: PredicateTable)
    requires SoundRecords(records, table) && Single(promoted, table)
    ensures SoundRecords(ApplyOne(records, promoted), table)
  {
    if promoted.id in records {
      MergeSound(records[promoted.id], promoted, table);
    }
  }

  lemma {:induction false} ApplySound(records: Records, made: seq<Capability>, table: PredicateTable)
    requires SoundRecords(records, table) && AllSingle(made, table)
    ensures SoundRecords(ApplyAll(records, made), table)
  {
    if made != [] {
      var front, last := made[..|made| - 1], made[|made| - 1];
      assert last in made;
      ApplySound(records, front, table);
      ApplyOneSound(ApplyAll(records, front), last, table);
    }
  }

  function BindingsOf(records: Records, id: string): seq<Binding> {
    if id in records then records[id].bindings else []
  }

  /** How many of the promotions created a binding in capability `id`. */
  function CreatedIn(records: Records, made: seq<Capability>, id: string): nat
    requires forall m | m in made :: |m.bindings| == 1
  {
    if made == [] then 0
    else
      var front, last := made[..|made| - 1], made[|made| - 1];
      var new_ := last.id == id && !HasID(BindingsOf(ApplyAll(records, front), id), last.bindings[0].id);
      CreatedIn(records, front, id) + if new_ then 1 else 0
  }

  /** `made` promotes binding `bindingID` of capability `id` at some point. */
  predicate Promotes(made: seq<Capability>, id: string, bindingID: string) {
    exists k | 0 <= k < |made| :: made[k].id == id && made[k].bindings != [] && made[k].bindings[0].id == bindingID
  }

  lemma ApplyStep(records: Records, promoted: Capability, id: string)
    requires |promoted.bindings| == 1
    ensures var before, after := BindingsOf(records, id), BindingsOf(ApplyOne(records, promoted), id);
      if promoted.id == id then Upserted(before, promoted.bindings[0], after) else after == before
  {
    if promoted.id == id && id in records {
      MergeUpserts(records[id], promoted);
    }
  }

  /** No binding id disappeared or moved, bindings that are not promoted kept their value, `created` were added. */
  predicate Grown(before: seq<Binding>, after: seq<Binding>, made: seq<Capability>, id: string, created: nat) {
    && |after| == |before| + created
    && (forall i | 0 <= i < |before| :: after[i].id == before[i].id)
    && (forall i | 0 <= i < |before| && !Promotes(made, id, before[i].id) :: after[i] == before[i])
  }

  lemma GrowsMore(
    before: seq<Binding>, middle: seq<Binding>, after: seq<Binding>,
    front: seq<Capability>, last: Capability, id: string, created: nat)
    requires Grown(before, middle, front, id, created) && |last.bindings| == 1
    requires if last.id == id then Upserted(middle, last.bindings[0], after) else after == middle
    ensures Grown(before, after, front + [last], id,
      created + if last.id == id && !HasID(middle, last.bindings[0].id) then 1 else 0)
  {
    PromotesMore(front, last, id);
  }

  /** Over any run of promotions: no binding id disappears or moves, bindings that are not promoted keep their
      value, and each capability grows by exactly the number of created bindings. */
  lemma {:induction false} ApplyGrows(records: Records, made: seq<Capability>, id: string)
    requires forall m | m in made :: |m.bindings| == 1
    ensures Grown(BindingsOf(records, id), BindingsOf(ApplyAll(records, made), id), made, id, CreatedIn(records, made, id))
  {
    if made != [] {
      var front, last := made[..|made| - 1], made[|made| - 1];
      assert made == front + [last] && last in made;
      ApplyGrows(records, front, id);
      GrowsByOne(records, front, last, id);
    }
  }

  lemma GrowsByOne(records: Records, front: seq<Capability>, last: Capability, id: string)
    requires (forall m | m in front + [last] :: |m.bindings| == 1) && |last.bindings| == 1
    requires forall m | m in front :: |m.bindings| == 1
    requires Grown(BindingsOf(records, id), BindingsOf(ApplyAll(records, front), id), front, id, CreatedIn(records, front, id))
    ensures Grown(BindingsOf(records, id), BindingsOf(ApplyAll(records, front + [last]), id), front + [last], id,
      CreatedIn(records, front + [last], id))
  {
    var middle := ApplyAll(records, front);
    ApplyStep(middle, last, id);
    assert (front + [last])[..|front|] == front;
    GrowsMore(BindingsOf(records, id), BindingsOf(middle, id), BindingsOf(ApplyOne(middle, last), id),
      front, last, id, CreatedIn(records, front, id));
  }

  lemma PromotesMore(front: seq<Capability>, last: Capability, id: string)
    requires |last.bindings| == 1
    ensures forall bindingID | Promotes(front, id, bindingID) :: Promotes(front + [last], id, bindingID)
    ensures last.id == id ==> Promotes(front + [last], id, last.bindings[0].id)
  {
    var made := front + [last];
    assert made[|front|] == last;
    forall bindingID | Promotes(front, id, bindingID) ensures Promotes(made, id, bindingID) {
      var k :| 0 <= k < |front| && front[k].id == id && front[k].bindings != [] && front[k].bindings[0].id == bindingID;
      assert made[k] == front[k];
    }
  }

  /** `b` was put into capability `id` by one of the promotions. */
  ghost predicate MadeBy(made: seq<Capability>, id: string, b: Binding) {
    exists k | 0 <= k < |made| :: made[k].id == id && made[k].bindings == [b]
  }

  lemma MadeByMore(front: seq<Capability>, last: Capability, id: string, b: Binding)
    ensures MadeBy(front, id, b) ==> MadeBy(front + [last], id, b)
    ensures last.id == id && last.bindings == [b] ==> MadeBy(front + [last], id, b)
  {
    assert (front + [last])[|front|] == last;
    if MadeBy(front, id, b) {
      var k :| 0 <= k < |front| && front[k].id == id && front[k].bindings == [b];
      assert (front + [last])[k] == front[k];
    }
  }

  /** Every binding of the resulting catalog was there before or was put there by one of the promotions. */
  lemma {:induction false} ApplyProvenance(records: Records, made: seq<Capability>, id: string, b: Binding)
    requires forall m | m in made :: |m.bindings| == 1
    requires b in BindingsOf(ApplyAll(records, made), id)
    ensures b in BindingsOf(records, id) || MadeBy(made, id, b)
  {
    if made != [] {
      var front, last := made[..|made| - 1], made[|made| - 1];
      assert made == front + [last] && last in made;
      MadeByMore(front, last, id, b);
      ApplyStep(ApplyAll(records, front), last, id);
      if last.id == id {
        UpsertedFrom(BindingsOf(ApplyAll(records, front), id), last.bindings[0], BindingsOf(ApplyAll(records, made), id), b);
      }
      if b in BindingsOf(ApplyAll(records, front), id) {
        ApplyProvenance(records, front, id, b);
      } else {
        assert last.bindings == [b];
      }
    }
  }

  lemma UpsertedHas(before: seq<Binding>, b: Binding, after: seq<Binding>)
    requires Upserted(before, b, after)
    ensures b in after
    ensures forall x | x in before && x.id != b.id :: x in after
  {
    if HasID(before, b.id) {
      var i :| 0 <= i < |before| && before[i].id == b.id;
      assert after[i] == b;
    } else {
      assert after[|before|] == b;
    }
    forall x | x in before && x.id != b.id ensures x in after {
      var i :| 0 <= i < |before| && before[i] == x;
      assert after[i] == x;
    }
  }

  lemma StepKeeps(records: Records, last: Capability, id: string, b: Binding)
    requires |last.bindings| == 1 && b in BindingsOf(records, id)
    requires last.id == id ==> last.bindings[0].id != b.id
    ensures b in BindingsOf(ApplyOne(records, last), id)
  {
    ApplyStep(records, last, id);
    if last.id == id {
      UpsertedHas(BindingsOf(records, id), last.bindings[0], BindingsOf(ApplyOne(records, last), id));
    }
  }

  lemma StepStores(records: Records, last: Capability)
    requires |last.bindings| == 1
    ensures last.bindings[0] in BindingsOf(ApplyOne(records, last), last.id)
  {
    ApplyStep(records, last, last.id);
    UpsertedHas(BindingsOf(records, last.id), last.bindings[0], BindingsOf(ApplyOne(records, last), last.id));
  }

  /** A promotion that no later one overwrites is in the resulting catalog. */
  lemma {:induction false} ApplyStores(records: Records, made: seq<Capability>, k: nat)
    requires forall i | 0 <= i < |made| :: |made[i].bindings| == 1
    requires k < |made|
    requires forall l | k < l < |made| :: made[l].id == made[k].id ==> made[l].bindings[0].id != made[k].bindings[0].id
    ensures made[k].bindings[0] in BindingsOf(ApplyAll(records, made), made[k].id)
  {
    var n := |made| - 1;
    if k < n {
      assert forall i | 0 <= i < n :: made[..n][i] == made[i];
      ApplyStores(records, made[..n], k);
      StepKeeps(ApplyAll(records, made[..n]), made[n], made[k].id, made[k].bindings[0]);
    } else {
      StepStores(ApplyAll(records, made[..n]), made[n]);
    }
  }

  // ---------------------------------------------------------------- the store

  class Catalog {
    var records: Records
    /** Every record ever written, in order. */
    ghost var saves: seq<Capability>

    ghost predicate Valid()
      reads this
    {
      ValidRecords(records)
    }

    constructor ()
      ensures Valid() && records == map[] && saves == []
    {
      records := map[];
      saves := [];
    }

    /** Reading a record back validates it again. */
    method GetCapability(id: string, fails: bool) returns (r: Result<Option<Capability>, PromoteError>)
      ensures r == if fails || (id in records && !ValidateCapability(records[id])) then Err(StoreFailed)
                   else Ok(if id in records then Some(records[id]) else None)
    {
      if fails || (id in records && !ValidateCapability(records[id])) {
        return Err(StoreFailed);
      }
      return Ok(if id in records then Some(records[id]) else None);
    }

    method SaveCapability(c: Capability, fails: bool) returns (ok: bool)
      modifies this
      ensures ok <==> ValidateCapability(c) && !fails
      ensures records == if ok then old(records)[c.id := c] else old(records)
      ensures saves == if ok then old(saves) + [c] else old(saves)
    {
      ok := ValidateCapability(c) && !fails;
      if ok {
        records := records[c.id := c];
        saves := saves + [c];
      }
    }

    /** promoteTarget. Whatever the target, the store can only fail for its own reasons, never because the merged
        record is invalid; and nothing changes unless the promotion is returned. */
    method PromoteTarget(target: PromotionTarget, ids: Identities, loadFails: bool, saveFails: bool)
      returns (r: Result<Promotion, PromoteError>)
      requires Valid()
      modifies this
      ensures Valid()
      ensures r.Ok? <==> Decide(ids)(target).Ok? && !loadFails && !saveFails
      ensures r.Err? ==> records == old(records) && saves == old(saves)
      ensures r.Err? ==> r.error == match Decide(ids)(target) case Err(reason) => Rejected(reason) case Ok(_) => StoreFailed
      ensures r.Ok? ==>
        var promoted := Decide(ids)(target);
        && promoted.Ok? && ValidSingle(promoted.value)
        && records == ApplyOne(old(records), promoted.value)
        && saves == old(saves) + [records[promoted.value.id]]
        && r.value == PromotionOf(old(records), target, promoted.value)
      ensures r.Ok? ==> PromotedAs(old(records), records, target, ids, r.value)
    {
      var promoted := PromotedCapability(target.candidate, target.probe, ids);
      if promoted.Err? {
        return Err(Rejected(promoted.error));
      }
      ApplyOneValid(records, promoted.value);
      DecidedIsPromoted(records, target, ids);
      var binding := promoted.value.bindings[0];
      var existing := GetCapability(promoted.value.id, loadFails);
      if existing.Err? {
        return Err(existing.error);
      }
      var capabilityAction, bindingAction := Created, Created;
      var capability := promoted.value;
      if existing.value.Some? {
        capabilityAction := Reused;
        if BindingByID(existing.value.value.bindings, binding.id).Some? {
          bindingAction := Updated;
        }
        capability := MergeCapability(existing.value.value, promoted.value);
        MergeValid(existing.value.value, promoted.value);
      }
      var ok := SaveCapability(capability, saveFails);
      if !ok {
        return Err(StoreFailed);
      }
      return Ok(Promotion(target.candidateIndex, capability.id, binding.id, binding.providerID, capabilityAction, bindingAction));
    }
  }

  function PromotionOf(records: Records, target: PromotionTarget, promoted: Capability): Promotion
    requires |promoted.bindings| == 1
  {
    var b := promoted.bindings[0];
    Promotion(target.candidateIndex, promoted.id, b.id, b.providerID,
      if promoted.id in records then Reused else Created,
      if BindingByID(BindingsOf(records, promoted.id), b.id).Some? then Updated else Created)
  }

  /** What a promotion reports and leaves, told by the catalog before and after: the ids of the candidate and of its
      binding, an action that says whether the id was there, and a description that is only ever filled in. */
  predicate PromotedAs(before: Records, after: Records, target: PromotionTarget, ids: Identities, p: Promotion) {
    var c, id := target.candidate, TrimSpace(target.candidate.capabilityID);
    && p.candidateIndex == target.candidateIndex && p.capabilityID == id && p.providerID == TrimSpace(c.providerID)
    && ids.canonical(c.execution).Some?
    && p.bindingID == BindingID(ids, id, p.providerID, ids.canonical(c.execution).value)
    && p.capabilityAction == (if id in before then Reused else Created)
    && p.bindingAction == (if HasID(BindingsOf(before, id), p.bindingID) then Updated else Created)
    && id in after && after[id].id == id
    && after[id].description ==
         (if id in before && !Blank(before[id].description) then before[id].description else TrimSpace(c.description))
    && |BindingsOf(after, id)| == |BindingsOf(before, id)| + (if p.bindingAction == Created then 1 else 0)
    && exists b | b in BindingsOf(after, id) :: b.id == p.bindingID && BindingOf(b, c, target.probe)
  }

  lemma HasIDMeans(bindings: seq<Binding>, id: string)
    ensures HasID(bindings, id) <==> BindingByID(bindings, id).Some?
  {
    if BindingByID(bindings, id).Some? {
      var i :| 0 <= i < |bindings| && bindings[i] == BindingByID(bindings, id).value;
    }
  }

  lemma DecidedIsPromoted(records: Records, target: PromotionTarget, ids: Identities)
    requires ValidRecords(records) && Decide(ids)(target).Ok?
    ensures var next := Decide(ids)(target).value;
      |next.bindings| == 1
      && PromotedAs(records, ApplyOne(records, next), target, ids, PromotionOf(records, target, next))
  {
    var next := Decide(ids)(target).value;
    var b := next.bindings[0];
    HasIDMeans(BindingsOf(records, next.id), b.id);
    ApplyStep(records, next, next.id);
    UpsertedHas(BindingsOf(records, next.id), b, BindingsOf(ApplyOne(records, next), next.id));
  }

  // ---------------------------------------------------------------- a whole promotion run

  /** What promotion decides about each target. */
  type Decision = PromotionTarget -> Result<Capability, Rejection>

  function Decide(ids: Identities): Decision {
    (t: PromotionTarget) => PromotedCapability(t.candidate, t.probe, ids)
  }

  predicate PassedInRange(candidates: seq<Candidate>, probes: seq<Probe>) {
    forall p | p in probes && p.passed :: 0 <= p.candidateIndex < |candidates|
  }

  predicate PassedDistinct(probes: seq<Probe>) {
    forall i, j | 0 <= i < j < |probes| && probes[i].passed && probes[j].passed ::
      probes[i].candidateIndex != probes[j].candidateIndex
  }

  /** The passed probes in order, each with the candidate it names. */
  function PassedTargets(candidates: seq<Candidate>, probes: seq<Probe>): seq<PromotionTarget>
    requires PassedInRange(candidates, probes)
  {
    if probes == [] then []
    else
      var last := probes[|probes| - 1];
      var before := PassedTargets(candidates, probes[..|probes| - 1]);
      if last.passed then before + [PromotionTarget(last.candidateIndex, candidates[last.candidateIndex], last)]
      else before
  }

  /** The loop over the probes in `front`. */
  predicate TargetsSoFar(
    candidates: seq<Candidate>, front: seq<Probe>, seen: set<int>, targets: seq<PromotionTarget>)
  {
    && PassedInRange(candidates, front) && PassedDistinct(front)
    && targets == PassedTargets(candidates, front)
    && seen == PassedIndices(front)
  }

  function PassedIndices(probes: seq<Probe>): set<int> {
    set i | 0 <= i < |probes| && probes[i].passed :: probes[i].candidateIndex
  }

  lemma PassedIndicesMore(front: seq<Probe>, probe: Probe)
    ensures PassedIndices(front + [probe]) == PassedIndices(front) + if probe.passed then {probe.candidateIndex} else {}
  {
    var all := front + [probe];
    assert all[|front|] == probe && forall i | 0 <= i < |front| :: all[i] == front[i];
    forall x | x in PassedIndices(front) ensures x in PassedIndices(all) {
      var i :| 0 <= i < |front| && front[i].passed && front[i].candidateIndex == x;
      assert all[i] == front[i];
    }
  }

  lemma OneMoreTarget(
    candidates: seq<Candidate>, front: seq<Probe>, probe: Probe, seen: set<int>, targets: seq<PromotionTarget>)
    requires TargetsSoFar(candidates, front, seen, targets)
    ensures !probe.passed ==> TargetsSoFar(candidates, front + [probe], seen, targets)
    ensures probe.passed && 0 <= probe.candidateIndex < |candidates| && probe.candidateIndex !in seen ==>
      TargetsSoFar(candidates, front + [probe], seen + {probe.candidateIndex},
        targets + [PromotionTarget(probe.candidateIndex, candidates[probe.candidateIndex], probe)])
  {
    assert (front + [probe])[..|front|] == front;
    PassedIndicesMore(front, probe);
    if probe.passed && probe.candidateIndex !in seen {
      StillDistinct(front, probe);
    }
  }

  lemma StillDistinct(front: seq<Probe>, probe: Probe)
    requires PassedDistinct(front) && probe.candidateIndex !in PassedIndices(front)
    ensures PassedDistinct(front + [probe])
  {
    var all := front + [probe];
    forall i, j | 0 <= i < j < |all| && all[i].passed && all[j].passed
      ensures all[i].candidateIndex != all[j].candidateIndex
    {
      assert all[i] == front[i] && front[i].candidateIndex in PassedIndices(front);
      assert j < |front| ==> all[j] == front[j];
    }
  }

  lemma RepeatedTarget(
    candidates: seq<Candidate>, probes: seq<Probe>, k: nat, seen: set<int>, targets: seq<PromotionTarget>)
    requires k < |probes| && TargetsSoFar(candidates, probes[..k], seen, targets)
    requires probes[k].passed && probes[k].candidateIndex in seen
    ensures !PassedDistinct(probes)
  {
    var i :| 0 <= i < k && probes[..k][i].passed && probes[..k][i].candidateIndex == probes[k].candidateIndex;
    assert probes[i] == probes[..k][i];
  }

  method BuildPromotionTargets(candidates: seq<Candidate>, probes: seq<Probe>)
    returns (r: Result<seq<PromotionTarget>, PromoteError>)
    ensures r.Ok? <==> PassedInRange(candidates, probes) && PassedDistinct(probes)
    ensures r.Ok? ==> r.value == PassedTargets(candidates, probes)
    ensures r.Err? ==> r.error == IndexOutOfRange || r.error == DuplicateIndex
    ensures r == Err(IndexOutOfRange) ==> !PassedInRange(candidates, probes)
    ensures r == Err(DuplicateIndex) ==> !PassedDistinct(probes)
  {
    var seen: set<int> := {};
    var targets: seq<PromotionTarget> := [];
    for k := 0 to |probes|
      invariant TargetsSoFar(candidates, probes[..k], seen, targets)
    {
      var probe := probes[k];
      assert probe in probes;
      FrontMore(probes, k);
      OneMoreTarget(candidates, probes[..k], probe, seen, targets);
      if !probe.passed {
        continue;
      }
      if probe.candidateIndex < 0 || probe.candidateIndex >= |candidates| {
        return Err(IndexOutOfRange);
      }
      if probe.candidateIndex in seen {
        RepeatedTarget(candidates, probes, k, seen, targets);
        return Err(DuplicateIndex);
      }
      seen := seen + {probe.candidateIndex};
      targets := targets + [PromotionTarget(probe.candidateIndex, candidates[probe.candidateIndex], probe)];
    }
    assert probes[..|probes|] == probes;
    return Ok(targets);
  }

  /** What the outside does during a promotion run, target by target. */
  datatype Weather = Weather(canceled: nat -> bool, loadFails: nat -> bool, saveFails: nat -> bool)

  /** One reported promotion: what `target` makes of the catalog the earlier ones left. */
  predicate ReportedAt(
    records: Records, earlier: seq<Capability>, target: PromotionTarget, decide: Decision,
    next: Capability, promotion: Promotion)
  {
    && decide(target) == Ok(next)
    && |next.bindings| == 1
    && promotion == PromotionOf(ApplyAll(records, earlier), target, next)
  }

  /** The promotions a run reports are those of its first targets, applied one after another. */
  predicate Reported(
    records: Records, targets: seq<PromotionTarget>, decide: Decision, made: seq<Capability>, promotions: seq<Promotion>)
  {
    && |made| == |promotions| <= |targets|
    && forall k | 0 <= k < |made| :: ReportedAt(records, made[..k], targets[k], decide, made[k], promotions[k])
  }

  /** The writes of a run: after each promotion, the record it changed. */
  function SavesOf(records: Records, made: seq<Capability>): (r: seq<Capability>)
    ensures |r| == |made|
  {
    if made == [] then []
    else
      SavesOf(records, made[..|made| - 1]) + [ApplyAll(records, made)[made[|made| - 1].id]]
  }

  /** How many of the promotions report a binding of capability `id` as created. */
  function CreatedBindings(promotions: seq<Promotion>, id: string): nat {
    if promotions == [] then 0
    else
      var last := promotions[|promotions| - 1];
      CreatedBindings(promotions[..|promotions| - 1], id)
        + if last.capabilityID == id && last.bindingAction == Created then 1 else 0
  }

  lemma ReportedFront(
    records: Records, targets: seq<PromotionTarget>, decide: Decision, made: seq<Capability>, promotions: seq<Promotion>)
    requires Reported(records, targets, decide, made, promotions) && made != []
    ensures Reported(records, targets, decide, made[..|made| - 1], promotions[..|made| - 1])
  {
    var n := |made| - 1;
    forall k | 0 <= k < n
      ensures ReportedAt(records, made[..n][..k], targets[k], decide, made[..n][k], promotions[..n][k])
    {
      assert made[..n][..k] == made[..k];
      assert ReportedAt(records, made[..k], targets[k], decide, made[k], promotions[k]);
    }
  }

  /** The actions reported add up: each capability grows by exactly the bindings reported as created. */
  lemma {:induction false} ReportedActions(
    records: Records, targets: seq<PromotionTarget>, decide: Decision, made: seq<Capability>, promotions: seq<Promotion>,
    id: string)
    requires Reported(records, targets, decide, made, promotions)
    ensures |BindingsOf(ApplyAll(records, made), id)| == |BindingsOf(records, id)| + CreatedBindings(promotions, id)
  {
    if made != [] {
      var n := |made| - 1;
      ReportedFront(records, targets, decide, made, promotions);
      ReportedActions(records, targets, decide, made[..n], promotions[..n], id);
      var middle := ApplyAll(records, made[..n]);
      assert ReportedAt(records, made[..n], targets[n], decide, made[n], promotions[n]);
      HasIDMeans(BindingsOf(middle, made[n].id), made[n].bindings[0].id);
      ApplyStep(middle, made[n], id);
    }
  }

  lemma {:induction false} KnownAfter(records: Records, made: seq<Capability>, id: string)
    ensures id in ApplyAll(records, made) <==> id in records || exists k | 0 <= k < |made| :: made[k].id == id
  {
    if made != [] {
      var n := |made| - 1;
      KnownAfter(records, made[..n], id);
      assert made == made[..n] + [made[n]];
    }
  }

  /** A capability is reported as created by the first promotion of an id that was not there before, and by no other. */
  lemma FirstIsCreated(
    records: Records, targets: seq<PromotionTarget>, decide: Decision, made: seq<Capability>, promotions: seq<Promotion>,
    k: nat)
    requires Reported(records, targets, decide, made, promotions) && k < |promotions|
    ensures promotions[k].capabilityAction == Created <==>
      && promotions[k].capabilityID !in records
      && forall j | 0 <= j < k :: promotions[j].capabilityID != promotions[k].capabilityID
    ensures promotions[k].capabilityAction in {Created, Reused} && promotions[k].bindingAction in {Created, Updated}
  {
    assert ReportedAt(records, made[..k], targets[k], decide, made[k], promotions[k]);
    KnownAfter(records, made[..k], made[k].id);
    forall j | 0 <= j < k ensures promotions[j].capabilityID == made[..k][j].id {
      assert ReportedAt(records, made[..j], targets[j], decide, made[j], promotions[j]);
    }
  }

  /** Nothing overwrites a description. */
  lemma {:induction false} DescriptionKept(records: Records, made: seq<Capability>, id: string)
    requires id in records && !Blank(records[id].description)
    ensures id in ApplyAll(records, made) && ApplyAll(records, made)[id].description == records[id].description
  {
    if made != [] {
      DescriptionKept(records, made[..|made| - 1], id);
    }
  }

  lemma ApplyAllSnoc(records: Records, made: seq<Capability>, next: Capability)
    ensures ApplyAll(records, made + [next]) == ApplyOne(ApplyAll(records, made), next)
    ensures SavesOf(records, made + [next]) == SavesOf(records, made) + [ApplyOne(ApplyAll(records, made), next)[next.id]]
  {
    assert (made + [next])[..|made|] == made;
  }

  lemma ReportedSnoc(
    records: Records, targets: seq<PromotionTarget>, decide: Decision,
    made: seq<Capability>, promotions: seq<Promotion>, next: Capability)
    requires Reported(records, targets, decide, made, promotions) && |made| < |targets|
    requires decide(targets[|made|]) == Ok(next) && |next.bindings| == 1
    ensures Reported(records, targets, decide, made + [next],
      promotions + [PromotionOf(ApplyAll(records, made), targets[|made|], next)])
  {
    var made', n := made + [next], |made|;
    var promotions' := promotions + [PromotionOf(ApplyAll(records, made), targets[n], next)];
    forall k | 0 <= k < |made'|
      ensures ReportedAt(records, made'[..k], targets[k], decide, made'[k], promotions'[k])
    {
      assert made'[..k] == made[..k];
      assert k < n ==> ReportedAt(records, made[..k], targets[k], decide, made[k], promotions[k]);
    }
  }

  /** The loop of a run: catalog and saves are what the promotions made so far come to. */
  predicate PromotedSoFar(
    before: Records, saves0: seq<Capability>, targets: seq<PromotionTarget>, decide: Decision,
    made: seq<Capability>, promotions: seq<Promotion>, records: Records, saves: seq<Capability>)
  {
    && (forall m | m in made :: ValidSingle(m))
    && Reported(before, targets, decide, made, promotions)
    && records == ApplyAll(before, made)
    && saves == saves0 + SavesOf(before, made)
  }

  lemma PromotedOneMore(
    before: Records, saves0: seq<Capability>, targets: seq<PromotionTarget>, decide: Decision,
    made: seq<Capability>, promotions: seq<Promotion>, next: Capability)
    requires PromotedSoFar(before, saves0, targets, decide, made, promotions, ApplyAll(before, made), saves0 + SavesOf(before, made))
    requires |made| < |targets| && decide(targets[|made|]) == Ok(next) && ValidSingle(next)
    ensures var records, after := ApplyAll(before, made), ApplyOne(ApplyAll(before, made), next);
      PromotedSoFar(before, saves0, targets, decide, made + [next],
        promotions + [PromotionOf(records, targets[|made|], next)], after, saves0 + SavesOf(before, made) + [after[next.id]])
  {
    var after := ApplyOne(ApplyAll(before, made), next);
    Regroup(saves0, SavesOf(before, made), [after[next.id]]);
    ApplyAllSnoc(before, made, next);
    ReportedSnoc(before, targets, decide, made, promotions, next);
  }

  /** The loop of Runner.Run of the promote package. Wherever it stops, the promotions it returns are exactly the
      saves performed, in order, and the catalog is what those promotions made of it. */
  method PromoteTargets(catalog: Catalog, targets: seq<PromotionTarget>, ids: Identities, weather: Weather)
    returns (promotions: seq<Promotion>, error: Option<PromoteError>, ghost made: seq<Capability>)
    requires catalog.Valid()
    modifies catalog
    ensures catalog.Valid() && forall m | m in made :: ValidSingle(m)
    ensures catalog.records == ApplyAll(old(catalog.records), made)
    ensures catalog.saves == old(catalog.saves) + SavesOf(old(catalog.records), made)
    ensures Reported(old(catalog.records), targets, Decide(ids), made, promotions)
    ensures error.None? <==> |made| == |targets|
    ensures |made| < |targets| ==> StopsAt(targets[|made|], |made|, ids, weather)
    ensures |made| < |targets| ==> error == Some(ErrorAt(targets[|made|], |made|, ids, weather))
  {
    promotions, made := [], [];
    ghost var before, saves := catalog.records, catalog.saves;
    assert saves == saves + [];
    for index := 0 to |targets|
      invariant |promotions| == index && catalog.Valid()
      invariant PromotedSoFar(before, saves, targets, Decide(ids), made, promotions, catalog.records, catalog.saves)
    {
      if weather.canceled(index) {
        return promotions, Some(Canceled), made;
      }
      var promotion := catalog.PromoteTarget(targets[index], ids, weather.loadFails(index), weather.saveFails(index));
      if promotion.Err? {
        return promotions, Some(promotion.error), made;
      }
      ghost var promoted := Decide(ids)(targets[index]).value;
      PromotedOneMore(before, saves, targets, Decide(ids), made, promotions, promoted);
      promotions, made := promotions + [promotion.value], made + [promoted];
    }
    return promotions, None, made;
  }

  /** Runner.Run of the promote package. */
  method PromoteProbes(
    catalog: Catalog, candidates: seq<Candidate>, probes: seq<Probe>, ids: Identities, weather: Weather)
    returns (promotions: seq<Promotion>, error: Option<PromoteError>, ghost made: seq<Capability>)
    requires catalog.Valid()
    modifies catalog
    ensures catalog.Valid() && forall m | m in made :: ValidSingle(m)
    ensures catalog.records == ApplyAll(old(catalog.records), made)
    ensures catalog.saves == old(catalog.saves) + SavesOf(old(catalog.records), made)
    ensures !(PassedInRange(candidates, probes) && PassedDistinct(probes)) ==>
      error.Some? && error.value in {IndexOutOfRange, DuplicateIndex} && made == [] && promotions == []
    ensures PassedInRange(candidates, probes) && PassedDistinct(probes) ==>
      var targets := PassedTargets(candidates, probes);
      && Reported(old(catalog.records), targets, Decide(ids), made, promotions)
      && (error.None? <==> |made| == |targets|)
      && (|made| < |targets| ==> StopsAt(targets[|made|], |made|, ids, weather))
      && (|made| < |targets| ==> error == Some(ErrorAt(targets[|made|], |made|, ids, weather)))
  {
    var built := BuildPromotionTargets(candidates, probes);
    if built.Err? {
      assert catalog.saves == old(catalog.saves) + [];
      return [], Some(built.error), [];
    }
    promotions, error, made := PromoteTargets(catalog, built.value, ids, weather);
  }

  /** The only reasons to stop at a target: cancellation, a rejection, the store. */
  predicate StopsAt(target: PromotionTarget, index: nat, ids: Identities, weather: Weather) {
    || weather.canceled(index) || weather.loadFails(index) || weather.saveFails(index)
    || Decide(ids)(target).Err?
  }

  /** The error a run stops with at a target: a cancellation before anything else, then the rejection, then the store. */
  function ErrorAt(target: PromotionTarget, index: nat, ids: Identities, weather: Weather): PromoteError {
    if weather.canceled(index) then Canceled
    else match Decide(ids)(target)
      case Err(reason) => Rejected(reason)
      case Ok(_) => StoreFailed
  }

  /** What probe.Run hands over: probes that passed, with a spec and evidence a probe certified. */
  predicate HonestTargets(targets: seq<PromotionTarget>, table: PredicateTable) {
    forall t | t in targets :: t.probe.passed && HonestProbe(t.probe, table)
  }

  /** From honest probes a run makes only certified bindings and keeps the catalog invariant, and no target is
      rejected but for its candidate. */
  lemma HonestRunSound(
    records: Records, targets: seq<PromotionTarget>, ids: Identities, made: seq<Capability>, promotions: seq<Promotion>,
    table: PredicateTable)
    requires HonestTargets(targets, table) && Reported(records, targets, Decide(ids), made, promotions)
    ensures AllSingle(made, table)
    ensures SoundRecords(records, table) ==> SoundRecords(ApplyAll(records, made), table)
    ensures forall t | t in targets :: Decide(ids)(t).Ok? <==> Promotable(t.candidate, ids)
  {
    forall t | t in targets
      ensures Decide(ids)(t).Ok? <==> Promotable(t.candidate, ids)
      ensures Decide(ids)(t).Ok? ==> Single(Decide(ids)(t).value, table)
    {
      HonestProbePromotes(t.candidate, t.probe, ids, table);
      if Promotable(t.candidate, ids) {
        FreshIsSingle(t.candidate, t.probe, ids, table);
      }
    }
    forall m | m in made ensures Single(m, table) {
      var k :| 0 <= k < |made| && made[k] == m;
      assert ReportedAt(records, made[..k], targets[k], Decide(ids), made[k], promotions[k]);
      assert targets[k] in targets;
    }
    if SoundRecords(records, table) {
      ApplySound(records, made, table);
    }
  }

  /** `at` lists the positions of the passed probes among the first `n`, all of them and in order. */
  predicate PassedAt(at: seq<nat>, probes: seq<Probe>, n: nat)
    requires n <= |probes|
  {
    && (forall k, l | 0 <= k < l < |at| :: at[k] < at[l])
    && (forall k | 0 <= k < |at| :: at[k] < n && probes[at[k]].passed)
    && (forall i: nat | i < n && probes[i].passed :: i in at)
  }

  lemma PassedMore(at: seq<nat>, probes: seq<Probe>, n: nat)
    requires n < |probes| && PassedAt(at, probes, n)
    ensures PassedAt(if probes[n].passed then at + [n] else at, probes, n + 1)
  {
    if probes[n].passed {
      forall i: nat | i < n + 1 && probes[i].passed ensures i in at + [n] {
        assert i < n ==> i in at;
        assert (at + [n])[|at|] == n;
      }
    }
  }

  predicate TargetsAt(targets: seq<PromotionTarget>, at: seq<nat>, probes: seq<Probe>) {
    |targets| == |at| && forall k | 0 <= k < |at| :: at[k] < |probes| && targets[k].probe == probes[at[k]]
  }

  lemma PassedFront(candidates: seq<Candidate>, probes: seq<Probe>, n: nat)
    requires n < |probes| && PassedInRange(candidates, probes[..n + 1])
    ensures PassedInRange(candidates, probes[..n])
    ensures PassedTargets(candidates, probes[..n + 1]) == PassedTargets(candidates, probes[..n])
      + if probes[n].passed then [PromotionTarget(probes[n].candidateIndex, candidates[probes[n].candidateIndex], probes[n])] else []
  {
    assert probes[..n + 1][..n] == probes[..n] && probes[..n + 1][n] == probes[n];
    assert forall p | p in probes[..n] :: p in probes[..n + 1];
    assert probes[n] in probes[..n + 1];
  }

  lemma TargetsMore(targets: seq<PromotionTarget>, at: seq<nat>, candidates: seq<Candidate>, probes: seq<Probe>, n: nat)
    requires n < |probes| && TargetsAt(targets, at, probes)
    requires probes[n].passed ==> 0 <= probes[n].candidateIndex < |candidates|
    ensures probes[n].passed ==> TargetsAt(
      targets + [PromotionTarget(probes[n].candidateIndex, candidates[probes[n].candidateIndex], probes[n])], at + [n], probes)
  {
  }

  /** Every passed probe is a target, once and in order. */
  lemma {:induction false} PassedAreTargets(candidates: seq<Candidate>, probes: seq<Probe>, n: nat := |probes|)
    returns (at: seq<nat>)
    requires n <= |probes| && PassedInRange(candidates, probes[..n])
    ensures PassedAt(at, probes, n) && TargetsAt(PassedTargets(candidates, probes[..n]), at, probes)
  {
    if n == 0 {
      at := [];
    } else {
      PassedFront(candidates, probes, n - 1);
      var before := PassedAreTargets(candidates, probes, n - 1);
      PassedMore(before, probes, n - 1);
      at := if probes[n - 1].passed then before + [n - 1] else before;
      TargetsMore(PassedTargets(candidates, probes[..n - 1]), before, candidates, probes, n - 1);
    }
  }

  lemma {:induction false} TargetsPassed(candidates: seq<Candidate>, probes: seq<Probe>)
    requires PassedInRange(candidates, probes)
    ensures forall t | t in PassedTargets(candidates, probes) ::
      t.probe in probes && t.probe.passed && t.candidateIndex == t.probe.candidateIndex
      && t.candidateIndex < |candidates| && t.candidate == candidates[t.candidateIndex]
  {
    if probes != [] {
      TargetsPassed(candidates, probes[..|probes| - 1]);
    }
  }
}
