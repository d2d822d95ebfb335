/** internal/check/checker.go: which verify specs are valid, and what running one proves. */
module Check {
  import opened Common
  import opened Text
  import opened Model

  /** An error value, seen through the two questions callers ask about it:
      does it carry an invalid-probe-input error, and does it come from a deadline. */
  datatype Failure = Failure(structural: bool, deadline: bool)

  const PLAIN_FAILURE := Failure(false, false)

  /** The predicate table: whether predicate, subject, parameters and pattern of a check fit together. */
  type PredicateTable = VerifyCheck -> bool

  predicate ValidLevel(level: Level) {
    !level.NoLevel? && !level.OtherLevel?
  }

  predicate ValidMethod(method_: Method) {
    method_ == Execute || method_ == Contract
  }

  /** Which subjects exist, and which of them name an input. */
  function SubjectRequiresInput(subject: Subject): Option<bool> {
    match subject
    case File => Some(true)
    case Stdout | Stderr | ExitCode => Some(false)
    case OtherSubject(_) => None
  }

  predicate ValidCheck(check: VerifyCheck, table: PredicateTable) {
    var requiresInput := SubjectRequiresInput(check.subject);
    requiresInput.Some? && (requiresInput.value <==> !Blank(check.input)) && table(check)
  }

  /** Checker.Validate: nil means valid. The checks of a contract spec are not looked at. */
  predicate ValidSpec(spec: VerifySpec, table: PredicateTable) {
    && ValidLevel(spec.level)
    && ValidMethod(spec.method_)
    && (spec.method_ == Contract ==> LevelRank(spec.level) <= LevelRank(L1))
    && (spec.method_ == Execute && spec.level != L0 ==> spec.checks != [])
    && (spec.method_ == Execute ==> forall c | c in spec.checks :: ValidCheck(c, table))
  }

  function Digit(n: nat): char
    requires n < 10
  {
    "0123456789"[n]
  }

  function Decimal(n: nat): string {
    if n < 10 then [Digit(n)] else Decimal(n / 10) + [Digit(n % 10)]
  }

  function CheckID(index: nat, name: string, check: VerifyCheck): string {
    "check_" + Decimal(index + 1) + "_" + name + "_" + check.predicate_
  }

  /** Which checks and specs are accepted, by name. */
  lemma ValidCheckMeans(check: VerifyCheck, table: PredicateTable)
    ensures ValidCheck(check, table) <==>
      && table(check)
      && ((check.subject == File && !Blank(check.input)) || (check.subject in {Stdout, Stderr, ExitCode} && Blank(check.input)))
  {
  }

  lemma RunnableMeans(spec: VerifySpec, table: PredicateTable)
    ensures Runnable(spec, table) <==>
      && spec.method_ == Execute && spec.level in {L1, L2, L3}
      && spec.checks != [] && forall c | c in spec.checks :: ValidCheck(c, table)
  {
  }

  lemma ContractSpecMeans(spec: VerifySpec, table: PredicateTable)
    requires spec.method_ != Execute
    ensures ValidSpec(spec, table) <==> spec.method_ == Contract && spec.level in {L0, L1}
  {
  }

  // ---------------------------------------------------------------- evidence ids

  /** The number a decimal text stands for. */
  function Value(s: string): nat
    requires AllDigits(s)
  {
    if s == "" then 0 else 10 * Value(s[..|s| - 1]) + (s[|s| - 1] as nat - '0' as nat)
  }

  predicate AllDigits(s: string) {
    forall i | 0 <= i < |s| :: '0' <= s[i] <= '9'
  }

  lemma ValueSnoc(s: string, d: char)
    requires AllDigits(s) && '0' <= d <= '9'
    ensures AllDigits(s + [d]) && Value(s + [d]) == 10 * Value(s) + (d as nat - '0' as nat)
  {
    assert (s + [d])[..|s|] == s;
  }

  lemma {:induction false} DecimalValue(n: nat)
    ensures Decimal(n) != "" && AllDigits(Decimal(n)) && Value(Decimal(n)) == n
  {
    DigitValue(n % 10);
    if n >= 10 {
      DecimalValue(n / 10);
      ValueSnoc(Decimal(n / 10), Digit(n % 10));
    } else {
      ValueSnoc("", Digit(n));
      assert "" + [Digit(n)] == [Digit(n)];
    }
  }

  lemma DigitValue(n: nat)
    requires n < 10
    ensures '0' <= Digit(n) <= '9' && Digit(n) as nat - '0' as nat == n
  {
  }

  /** `id` is an evidence id of the check at `index`. */
  ghost predicate NumberedAs(id: string, index: nat, check: VerifyCheck) {
    exists name :: id == CheckID(index, name, check)
  }

  /** An id starts with the position of its check, counted from one and set off by underscores, so checks at different
      positions have different ids. */
  lemma IDsDiffer(a: string, i: nat, c: VerifyCheck, b: string, j: nat, d: VerifyCheck)
    requires NumberedAs(a, i, c) && NumberedAs(b, j, d)
    ensures a == b ==> i == j
  {
    var x, y := Decimal(i + 1), Decimal(j + 1);
    DecimalValue(i + 1);
    DecimalValue(j + 1);
    var m :| a == CheckID(i, m, c);
    var n :| b == CheckID(j, n, d);
    assert a == "check_" + (x + ("_" + m + "_" + c.predicate_));
    assert b == "check_" + (y + ("_" + n + "_" + d.predicate_));
    if a == b {
      assert a[6..] == x + ("_" + m + "_" + c.predicate_) == y + ("_" + n + "_" + d.predicate_);
      SameNumber(x, "_" + m + "_" + c.predicate_, y, "_" + n + "_" + d.predicate_);
    }
  }

  lemma SameNumber(x: string, s: string, y: string, t: string)
    requires x + s == y + t && s != "" && t != "" && s[0] == '_' && t[0] == '_'
    requires '_' !in x && '_' !in y
    ensures x == y
  {
    assert (x + s)[|x|] == '_' && (y + t)[|y|] == '_';
    assert x == (x + s)[..|x|] && y == (y + t)[..|y|];
  }

  // ---------------------------------------------------------------- running checks

  /** The first check that does not pass fails with an invalid-probe-input error. */
  ghost predicate FailsStructurally(checks: seq<VerifyCheck>, run: CheckRun, canceled: Canceled) {
    exists k | 0 <= k < |checks| :: FirstFailure(checks, run, canceled, k) && run(k, checks[k]).error.structural
  }

  predicate FirstFailure(checks: seq<VerifyCheck>, run: CheckRun, canceled: Canceled, k: nat)
    requires k < |checks|
  {
    && (forall i | 0 <= i < k :: !canceled(i) && run(i, checks[i]).Ok?)
    && !canceled(k) && run(k, checks[k]).Err?
  }

  /** What one check of a run answers at its turn: the subject's label, or the reason it failed.
      `Canceled` reports whether the context was done at that turn. */
  type CheckRun = (nat, VerifyCheck) -> Result<string, Failure>
  type Canceled = nat -> bool

  /** Evidence collected check by check. */
  predicate EvidenceFor(checks: seq<VerifyCheck>, evidence: seq<EvidenceRef>) {
    && |evidence| == |checks|
    && forall i | 0 <= i < |checks| :: evidence[i].kind == checks[i].predicate_ && !Blank(evidence[i].id)
  }

  predicate Passes(checks: seq<VerifyCheck>, run: CheckRun, canceled: Canceled) {
    forall i | 0 <= i < |checks| :: !canceled(i) && run(i, checks[i]).Ok?
  }

  /** runCheck: a check that passes leaves one piece of evidence, numbered from one. */
  method RunCheck(index: nat, check: VerifyCheck, run: CheckRun) returns (r: Result<EvidenceRef, Failure>)
    ensures match run(index, check)
      case Err(failure) => r == Err(failure)
      case Ok(name) => r == Ok(EvidenceRef(CheckID(index, name, check), check.predicate_)) && !Blank(r.value.id)
    ensures r.Ok? ==> NumberedAs(r.value.id, index, check)
  {
    match run(index, check)
    case Err(failure) => return Err(failure);
    case Ok(name) =>
      var id := CheckID(index, name, check);
      assert id[0] == 'c';
      return Ok(EvidenceRef(id, check.predicate_));
  }

  /** The specs Checker.Run is willing to run at all. */
  predicate Runnable(spec: VerifySpec, table: PredicateTable) {
    ValidSpec(spec, table) && spec.method_ == Execute && spec.level != L0
  }

  lemma RunnableHasChecks(spec: VerifySpec, table: PredicateTable)
    requires Runnable(spec, table)
    ensures spec.checks != []
  {
  }

  /** Checker.Run: evidence exactly when the spec is valid and executable and every single check passed. */
  method RunChecks(spec: VerifySpec, table: PredicateTable, run: CheckRun, canceledAtStart: bool, canceled: Canceled)
    returns (r: Result<seq<EvidenceRef>, Failure>)
    ensures r.Ok? <==>
      !canceledAtStart && Runnable(spec, table) && Passes(spec.checks, run, canceled)
    ensures r.Ok? ==> EvidenceFor(spec.checks, r.value) && r.value != []
    ensures r.Ok? ==> forall i | 0 <= i < |r.value| :: NumberedAs(r.value[i].id, i, spec.checks[i])
    ensures r.Ok? ==> forall i, j | 0 <= i < j < |r.value| :: r.value[i].id != r.value[j].id
    ensures r.Err? && r.error.structural <==>
      !canceledAtStart && Runnable(spec, table) && FailsStructurally(spec.checks, run, canceled)
    ensures r.Err? && r.error.structural ==>
      exists i | 0 <= i < |spec.checks| :: run(i, spec.checks[i]) == Err(r.error)
  {
    if canceledAtStart || !Runnable(spec, table) {
      return Err(PLAIN_FAILURE);
    }
    RunnableHasChecks(spec, table);
    var evidence: seq<EvidenceRef> := [];
    for index := 0 to |spec.checks|
      invariant |evidence| == index
      invariant forall i | 0 <= i < index :: evidence[i].kind == spec.checks[i].predicate_ && !Blank(evidence[i].id)
      invariant forall i | 0 <= i < index :: !canceled(i) && run(i, spec.checks[i]).Ok?
      invariant forall i | 0 <= i < index :: NumberedAs(evidence[i].id, i, spec.checks[i])
    {
      var check := spec.checks[index];
      if canceled(index) {
        NoStructuralFailure(spec.checks, run, canceled, index);
        return Err(PLAIN_FAILURE);
      }
      var item := RunCheck(index, check, run);
      if item.Err? {
        OnlyFailure(spec.checks, run, canceled, index);
        return Err(item.error);
      }
      evidence := evidence + [item.value];
    }
    forall i, j | 0 <= i < j < |evidence| ensures evidence[i].id != evidence[j].id {
      IDsDiffer(evidence[i].id, i, spec.checks[i], evidence[j].id, j, spec.checks[j]);
    }
    return Ok(evidence);
  }

  lemma NoStructuralFailure(checks: seq<VerifyCheck>, run: CheckRun, canceled: Canceled, k: nat)
    requires k < |checks| && canceled(k) && forall i | 0 <= i < k :: run(i, checks[i]).Ok?
    ensures !FailsStructurally(checks, run, canceled)
  {
  }

  lemma OnlyFailure(checks: seq<VerifyCheck>, run: CheckRun, canceled: Canceled, k: nat)
    requires k < |checks| && FirstFailure(checks, run, canceled, k)
    ensures FailsStructurally(checks, run, canceled) <==> run(k, checks[k]).error.structural
  {
    forall j | 0 <= j < |checks| && FirstFailure(checks, run, canceled, j) ensures j == k {
    }
  }
}
