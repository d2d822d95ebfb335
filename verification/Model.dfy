/** The durable records of internal/model and the values that travel inside them.
    Timestamps, durations and message texts are left out of every record. */
module Model {
  import opened Common
  import opened Text

  /** A decoded JSON value, plus the string slice Go code may build directly. */
  datatype Value =
    | Null
    | Bool(flag: bool)
    | Number(number: real)
    | Str(text: string)
    | Strings(strings: seq<string>)
    | List(items: seq<Value>)
    | Object(fields: map<string, Value>)

  type Inputs = map<string, Value>

  // The string-typed enumerations of the source: the named values, the empty string, and any other text.
  datatype Kind = CLI | Menu | AXAction | URLOpen | NoKind | OtherKind(text: string)
  datatype Level = L0 | L1 | L2 | L3 | NoLevel | OtherLevel(text: string)
  datatype Method = Execute | Contract | NoMethod | OtherMethod(text: string)
  datatype Subject = File | Stdout | Stderr | ExitCode | OtherSubject(text: string)
  datatype State = Promoted | OtherState(text: string)
  datatype Action = Created | Reused | Updated

  datatype Execution = Execution(kind: Kind, spec: map<string, Value>)

  datatype VerifyCheck = VerifyCheck(subject: Subject, input: string, predicate_: string, params: map<string, Value>)

  datatype VerifySpec = VerifySpec(level: Level, method_: Method, checks: seq<VerifyCheck>)

  datatype EvidenceRef = EvidenceRef(id: string, kind: string)

  datatype Provenance = Provenance(source: string, promptVersion: string, modelName: string, schemaVersion: string)

  datatype Candidate = Candidate(
    providerID: string, capabilityID: string, description: string, source: string,
    provenance: Option<Provenance>, execution: Execution)

  datatype Fixture = Fixture(input: string, filename: string, content: string)

  datatype ProbePlan = ProbePlan(candidateIndex: int, inputs: Inputs, fixtures: seq<Fixture>, verify: VerifySpec)

  /** Why a probe record passed or failed. */
  datatype Reason =
    | ChecksPassed | ContractRecorded | LevelIsL0 | PlanInvalid | ExecutionFailed | ExecutionTimeout
    | VerificationFailed | MaterializeFailed

  datatype Probe = Probe(
    candidateIndex: int, passed: bool, inputs: Inputs, verify: VerifySpec,
    evidence: seq<EvidenceRef>, reason: Reason)

  datatype Binding = Binding(
    id: string, capabilityID: string, providerID: string, execution: Execution,
    verify: Option<VerifySpec>, evidence: seq<EvidenceRef>, state: State)

  datatype Capability = Capability(id: string, description: string, bindings: seq<Binding>)

  datatype Promotion = Promotion(
    candidateIndex: int, capabilityID: string, bindingID: string, providerID: string,
    capabilityAction: Action, bindingAction: Action)

  /** Keys of an execution spec. */
  const SPEC_ARGS := "args"
  const SPEC_STDOUT_PATH_INPUT := "stdout_path_input"

  /** verify_level.go: any unknown level ranks with L0. */
  function LevelRank(level: Level): (r: nat)
    ensures r <= 3
  {
    match level
    case L1 => 1
    case L2 => 2
    case L3 => 3
    case _ => 0
  }

  predicate LowerAlnum(c: char) {
    'a' <= c <= 'z' || '0' <= c <= '9'
  }

  /** The pattern `^[a-z0-9]+\.[a-z0-9]+$`. */
  predicate ValidCapabilityID(id: string) {
    exists dot | 0 < dot < |id| - 1 ::
      id[dot] == '.' && forall i | 0 <= i < |id| && i != dot :: LowerAlnum(id[i])
  }

  lemma CapabilityIDTrimmed(id: string)
    requires ValidCapabilityID(id)
    ensures Trimmed(id) && id != "" && '|' !in id
  {
    assert forall i | 0 <= i < |id| :: LowerAlnum(id[i]) || id[i] == '.';
  }

  /** Two non-empty words of lower-case letters and digits, joined by one dot. */
  lemma CapabilityIDMeans(id: string)
    ensures ValidCapabilityID(id) <==> exists left: string, right: string ::
      && left != "" && right != "" && id == left + "." + right
      && forall c | c in left + right :: 'a' <= c <= 'z' || '0' <= c <= '9'
  {
    if ValidCapabilityID(id) {
      var dot :| 0 < dot < |id| - 1 && id[dot] == '.' && forall i | 0 <= i < |id| && i != dot :: LowerAlnum(id[i]);
      var left, right := id[..dot], id[dot + 1..];
      assert id == left + "." + right;
      forall c | c in left + right ensures 'a' <= c <= 'z' || '0' <= c <= '9' {
        var i :| 0 <= i < |left + right| && (left + right)[i] == c;
        assert c == if i < dot then id[i] else id[i + 1];
      }
    }
    if left: string, right: string :|
      left != "" && right != "" && id == left + "." + right
      && forall c | c in left + right :: 'a' <= c <= 'z' || '0' <= c <= '9'
    {
      forall i | 0 <= i < |id| && i != |left| ensures LowerAlnum(id[i]) {
        var k := if i < |left| then i else i - 1;
        assert id[i] == (left + right)[k] && (left + right)[k] in left + right;
      }
      assert id[|left|] == '.';
    }
  }

  predicate ValidExecutionKind(kind: Kind) {
    !kind.NoKind? && !kind.OtherKind?
  }

  predicate ValidateBinding(owner: string, binding: Binding) {
    && !Blank(binding.id)
    && !Blank(binding.capabilityID)
    && (owner != "" ==> binding.capabilityID == owner)
    && !Blank(binding.providerID)
    && binding.state == Promoted
    && ValidExecutionKind(binding.execution.kind)
    && binding.verify.Some?
    && binding.evidence != []
    && (forall e | e in binding.evidence :: !Blank(e.id))
  }

  predicate HasPromotedBinding(bindings: seq<Binding>) {
    exists b | b in bindings :: b.state == Promoted
  }

  predicate ValidateCapability(capability: Capability) {
    && !Blank(capability.id)
    && ValidCapabilityID(capability.id)
    && (HasPromotedBinding(capability.bindings) ==> !Blank(capability.description))
    && (forall b | b in capability.bindings :: ValidateBinding(capability.id, b))
  }

  /** A record is refused exactly for one of these defects of its own or of one of its bindings. */
  lemma RefusedForDefect(c: Capability)
    ensures !ValidateCapability(c) <==>
      || !ValidCapabilityID(c.id)
      || (Blank(c.description) && exists b | b in c.bindings :: b.state == Promoted)
      || exists b | b in c.bindings ::
           || Blank(b.id) || b.capabilityID != c.id || Blank(b.providerID) || b.state != Promoted
           || b.execution.kind !in {CLI, Menu, AXAction, URLOpen}
           || b.verify == None || b.evidence == [] || exists e | e in b.evidence :: Blank(e.id)
  {
    if ValidCapabilityID(c.id) {
      CapabilityIDTrimmed(c.id);
    }
  }

  lemma LevelsOrdered()
    ensures LevelRank(L0) < LevelRank(L1) < LevelRank(L2) < LevelRank(L3)
    ensures LevelRank(NoLevel) == LevelRank(L0) && forall text :: LevelRank(OtherLevel(text)) == LevelRank(L0)
  {
  }

  lemma InputPresent(inputs: Inputs, name: string, value: Value)
    ensures HasInput(inputs[name := value], name) <==> value != Null && value != Str("")
    ensures name !in inputs ==> !HasInput(inputs, name)
  {
  }

  /** The test every input consumer applies: present, not null, not the empty string. */
  predicate HasInput(inputs: Inputs, name: string) {
    name in inputs && inputs[name] != Null && inputs[name] != Str("")
  }

  /** Every one of the names is an input. */
  predicate HasInputs(inputs: Inputs, names: seq<string>) {
    forall n | n in names :: HasInput(inputs, n)
  }
}
