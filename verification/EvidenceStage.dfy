/** internal/proposal/evidence: which proposed checks are kept, and the level the kept ones earn. The level an answer
    claims is not believed under the two known methods. */
module EvidenceStage {
  import opened Common
  import opened Model
  import opened Check
  import opened StageTrace

  /** Input names of the material, and the check of a predicate's parameters. */
  datatype Request = Request(inputs: set<string>, params: VerifyCheck -> bool)

  /** The predicates that look at what an output means, and those that look at the artifact only. */
  const SEMANTIC: set<string> := {
    "contains", "contains_any", "bytes_equal_transform", "hash_line_matches", "archive_contains_input",
    "json_query_matches", "json_equivalent", "json_field_equals", "json_field_matches_source",
    "text_transform_matches", "line_count_matches", "text_filter_matches", "delimited_column_matches"}
  const ARTIFACT: set<string> := {"non_empty", "format", "regex"}
  const PROCESS: set<string> := {"exists", "equals", "not_equals"}

  /** checkStrength. */
  function Strength(check: VerifyCheck): nat {
    if check.predicate_ in SEMANTIC then 3
    else if check.predicate_ in ARTIFACT then 2
    else if check.predicate_ in PROCESS then 1 else 0
  }

  predicate HasSemantic(checks: seq<VerifyCheck>) {
    exists i | 0 <= i < |checks| :: checks[i].predicate_ in SEMANTIC
  }

  predicate HasArtifact(checks: seq<VerifyCheck>) {
    exists i | 0 <= i < |checks| :: checks[i].predicate_ in ARTIFACT
  }

  predicate Usable(check: VerifyCheck, req: Request) {
    && check.subject != OtherSubject("") && check.predicate_ != ""
    && (check.subject.File? ==> check.input in req.inputs)
    && req.params(check)
  }

  function UsableChecks(checks: seq<VerifyCheck>, req: Request): seq<VerifyCheck> {
    if checks == [] then []
    else
      UsableChecks(checks[..|checks| - 1], req)
        + if Usable(checks[|checks| - 1], req) then [checks[|checks| - 1]] else []
  }

  method Normalize(spec: VerifySpec, req: Request) returns (r: VerifySpec, stage: Stage)
    ensures r.method_ == (if spec.method_.NoMethod? then Execute else spec.method_)
    ensures r.checks == UsableChecks(spec.checks, req)
    ensures KeepsWhatItShould(spec.checks, r.checks, req)
    ensures r.method_ == Contract ==> r.level == L1
    ensures r.method_.OtherMethod? ==> r.level == spec.level
    ensures r.method_ == Execute ==> LevelEarned(r.level, r.checks)
    ensures Tallied(stage) && stage.selected == stage.keep == |r.checks| && stage.keep + stage.defer + stage.skip == |spec.checks|
    ensures stage.defer == 0
  {
    var selected: seq<VerifyCheck> := [];
    stage := NewStage(|spec.checks|);
    for index := 0 to |spec.checks|
      invariant selected == UsableChecks(spec.checks[..index], req)
      invariant Tallied(stage) && |stage.items| == index && stage.raw == |spec.checks|
      invariant stage.keep == |selected| && stage.defer == 0
    {
      assert spec.checks[..index + 1][..index] == spec.checks[..index];
      var check, decision := spec.checks[index], Skip;
      if Usable(check, req) {
        decision := Keep;
        selected := selected + [check];
      }
      stage := Recorded(stage, decision);
    }
    assert spec.checks[..|spec.checks|] == spec.checks;
    ItemsConserved(stage);
    stage := stage.(selected := |selected|);
    r := spec.(method_ := if spec.method_.NoMethod? then Execute else spec.method_, checks := selected);
    var level := DeriveLevel(r);
    r := r.(level := level);
    UsableKept(spec.checks, req);
  }

  /** Check by check: one without a subject, a predicate or accepted parameters is dropped; of the others a file check is
      kept if its input is one of the material's, and any other check whatever its input. Order and repetitions stay. */
  ghost predicate KeepsWhatItShould(proposed: seq<VerifyCheck>, kept: seq<VerifyCheck>, req: Request) {
    && (forall c | c in kept :: c in proposed)
    && (forall c | c in proposed && c.subject in {Stdout, Stderr, ExitCode} && c.predicate_ != "" && req.params(c) :: c in kept)
    && (forall c | c in proposed && c.subject == File && c.predicate_ != "" && req.params(c) :: c in kept <==> c.input in req.inputs)
    && (forall c | c in kept :: c.subject != OtherSubject("") && c.predicate_ != "" && req.params(c))
    && (forall c | c in proposed && c.subject.OtherSubject? && c.subject.text != "" && c.predicate_ != "" && req.params(c) :: c in kept)
    && (forall c | c in kept :: multiset(kept)[c] == multiset(proposed)[c])
  }

  lemma UsableKept(checks: seq<VerifyCheck>, req: Request)
    ensures KeepsWhatItShould(checks, UsableChecks(checks, req), req)
  {
    UsableChecksExact(checks, req);
    forall c | c in UsableChecks(checks, req)
      ensures multiset(UsableChecks(checks, req))[c] == multiset(checks)[c]
    {
      UsableAllTimes(checks, req, c);
    }
  }

  lemma {:induction false} UsableAllTimes(checks: seq<VerifyCheck>, req: Request, c: VerifyCheck)
    requires Usable(c, req)
    ensures multiset(UsableChecks(checks, req))[c] == multiset(checks)[c]
  {
    if checks != [] {
      var n := |checks| - 1;
      assert checks == checks[..n] + [checks[n]];
      UsableAllTimes(checks[..n], req, c);
    }
  }

  /** The three kinds of predicates share none, and are all that the checker knows. */
  lemma PredicatesSorted()
    ensures SEMANTIC !! ARTIFACT && SEMANTIC !! PROCESS && ARTIFACT !! PROCESS
    ensures SEMANTIC + ARTIFACT + PROCESS == {
      "equals", "not_equals", "exists", "non_empty", "format", "contains", "contains_any", "regex",
      "bytes_equal_transform", "hash_line_matches", "archive_contains_input", "json_query_matches", "json_equivalent",
      "json_field_equals", "json_field_matches_source", "text_transform_matches", "line_count_matches",
      "text_filter_matches", "delimited_column_matches"}
  {
  }

  /** Looking at the artifact without its meaning is non_empty, format and regex; looking at the process alone is
      exists, equals and not_equals. */
  lemma EarnedLevels(check: VerifyCheck)
    ensures check.predicate_ == "contains" ==> LevelEarned(L3, [check])
    ensures check.predicate_ == "non_empty" ==> LevelEarned(L2, [check])
    ensures check.predicate_ == "exists" ==> LevelEarned(L1, [check])
    ensures LevelEarned(L0, [])
  {
    assert [check][0] == check;
  }

  lemma WeakPredicates(check: VerifyCheck)
    ensures Strength(check) == 2 <==> check.predicate_ in {"non_empty", "format", "regex"}
    ensures Strength(check) == 1 <==> check.predicate_ in {"exists", "equals", "not_equals"}
  {
  }

  /** An execute spec earns L3 for a semantic check, else L2 for an artifact check, else L1 for any check at all. */
  predicate LevelEarned(level: Level, checks: seq<VerifyCheck>) {
    level == if HasSemantic(checks) then L3 else if HasArtifact(checks) then L2 else if checks != [] then L1 else L0
  }

  method DeriveLevel(spec: VerifySpec) returns (level: Level)
    ensures spec.method_ == Contract ==> level == L1
    ensures spec.method_ == Execute ==> LevelEarned(level, spec.checks)
    ensures !spec.method_.Contract? && !spec.method_.Execute? ==> level == spec.level
  {
    if spec.method_ == Contract {
      return L1;
    }
    if spec.method_ != Execute {
      return spec.level;
    }
    if spec.checks == [] {
      return L0;
    }
    var strength := 1;
    for i := 0 to |spec.checks|
      invariant 1 <= strength <= 3
      invariant strength == 3 <==> HasSemantic(spec.checks[..i])
      invariant strength >= 2 <==> HasSemantic(spec.checks[..i]) || HasArtifact(spec.checks[..i])
    {
      StrengthSnoc(spec.checks, i);
      var current := Strength(spec.checks[i]);
      if current > strength {
        strength := current;
      }
    }
    assert spec.checks[..|spec.checks|] == spec.checks;
    return if strength == 3 then L3 else if strength == 2 then L2 else L1;
  }

  lemma StrengthSnoc(checks: seq<VerifyCheck>, i: nat)
    requires i < |checks|
    ensures HasSemantic(checks[..i + 1]) <==> HasSemantic(checks[..i]) || Strength(checks[i]) == 3
    ensures HasSemantic(checks[..i + 1]) || HasArtifact(checks[..i + 1]) <==>
      HasSemantic(checks[..i]) || HasArtifact(checks[..i]) || Strength(checks[i]) >= 2
  {
    assert checks[..i + 1][i] == checks[i] && forall j | 0 <= j < i :: checks[..i + 1][j] == checks[..i][j];
  }

  /** Parse refuses an execute spec none of whose checks is usable. */
  method Parse(decoded: Option<VerifySpec>, req: Request) returns (r: Option<VerifySpec>)
    ensures r.Some? ==> decoded.Some? && r.value.checks == UsableChecks(decoded.value.checks, req)
    ensures r.Some? && r.value.method_ == Execute ==> LevelEarned(r.value.level, r.value.checks) && r.value.checks != []
    ensures r.Some? && r.value.method_ == Contract ==> r.value.level == L1
    ensures r.None? <==>
      || decoded.None?
      || (decoded.value.method_ in {Execute, NoMethod} && forall c | c in decoded.value.checks :: !Usable(c, req))
  {
    if decoded.None? {
      return None;
    }
    var spec, _ := Normalize(decoded.value, req);
    UsableChecksExact(decoded.value.checks, req);
    assert spec.checks != [] ==> spec.checks[0] in spec.checks;
    return if spec.method_ == Execute && spec.checks == [] then None else Some(spec);
  }

  lemma {:induction false} UsableChecksExact(checks: seq<VerifyCheck>, req: Request)
    ensures forall c :: c in UsableChecks(checks, req) <==> c in checks && Usable(c, req)
  {
    if checks != [] {
      var n := |checks| - 1;
      assert checks == checks[..n] + [checks[n]];
      UsableChecksExact(checks[..n], req);
    }
  }

  /** A spec of a known method that leaves this stage is refused later only for what the checker's own tables say of
      its checks: level, method and number of checks already fit together. */
  lemma OnlyChecksCanFail(spec: VerifySpec, table: PredicateTable)
    requires spec.method_ == Execute ==> LevelEarned(spec.level, spec.checks) && spec.checks != []
    requires spec.method_ == Contract ==> spec.level == L1
    requires spec.method_ == Execute || spec.method_ == Contract
    ensures ValidSpec(spec, table) <==> (spec.method_ == Execute ==> forall c | c in spec.checks :: ValidCheck(c, table))
  {
  }
}
