/** internal/execute/inputs.go: required inputs of an execution and the rendering of its arguments. */
module ExecuteInputs {
  import opened Common
  import opened Text
  import opened Model
  import opened Orders
  import opened Template

  datatype ExecError = UnsupportedKind | BadArgs | BadStdoutInput | MissingInput

  /** How fmt.Sprint prints a value. Any function will do. */
  type Printer = Value -> string

  function StringSlice(value: Value): Result<seq<string>, ExecError> {
    match value
    case Strings(strings) => Ok(strings)
    case List(items) =>
      if forall i | 0 <= i < |items| :: items[i].Str? then
        Ok(seq(|items|, i requires 0 <= i < |items| => items[i].text))
      else Err(BadArgs)
    case _ => Err(BadArgs)
  }

  function ExecutionArgs(e: Execution): Result<seq<string>, ExecError> {
    if SPEC_ARGS in e.spec then StringSlice(e.spec[SPEC_ARGS]) else Err(BadArgs)
  }

  function StdoutPathInput(e: Execution): Result<Option<string>, ExecError> {
    if SPEC_STDOUT_PATH_INPUT !in e.spec then Ok(None)
    else match e.spec[SPEC_STDOUT_PATH_INPUT]
      case Null => Ok(None)
      case Str(text) =>
        var input := TrimSpace(text);
        if input == "" then Ok(None)
        else if Contains(input, "{{") || Contains(input, "}}") then Err(BadStdoutInput)
        else Ok(Some(input))
      case _ => Err(BadStdoutInput)
  }

  /** Every placeholder of every argument. */
  function ArgHoles(args: seq<string>): set<string> {
    set i, h | 0 <= i < |args| && h in Holes(Scan(args[i])) :: h
  }

  /** The inputs an execution refers to: placeholders and the stdout redirection. */
  function RequiredSet(e: Execution): Result<set<string>, ExecError> {
    if e.kind != CLI then Err(UnsupportedKind)
    else match ExecutionArgs(e)
      case Err(error) => Err(error)
      case Ok(args) =>
        match StdoutPathInput(e)
        case Err(error) => Err(error)
        case Ok(None) => Ok(ArgHoles(args))
        case Ok(Some(input)) => Ok(ArgHoles(args) + {input})
  }

  ghost predicate SortedNames(names: seq<string>, required: set<string>) {
    Enumerates(names, required) && Sorted(StrLess, names)
  }

  /** There is one sorted list of a set, so the map order in which names are collected cannot show. */
  lemma SortedNamesUnique(a: seq<string>, b: seq<string>, required: set<string>)
    requires SortedNames(a, required) && SortedNames(b, required)
    ensures a == b
  {
    EnumerationMultiset(a, required);
    EnumerationMultiset(b, required);
    forall x, y | x in a && y in a
      ensures (x == y || StrLess(x, y) || StrLess(y, x)) && !(StrLess(x, y) && StrLess(y, x))
    {
      StrLessTotal(x, y);
    }
    SortUnique(StrLess, a, b);
  }

  lemma Ascending(names: seq<string>, required: set<string>)
    requires SortedNames(names, required)
    ensures forall i, j | 0 <= i < j < |names| :: StrLess(names[i], names[j])
  {
    forall i, j | 0 <= i < j < |names| ensures StrLess(names[i], names[j]) {
      StrLessTotal(names[i], names[j]);
    }
  }

  lemma {:induction false} EnumerationMultiset(names: seq<string>, required: set<string>)
    requires Enumerates(names, required)
    ensures multiset(names) == multiset(required)
  {
    if names == [] {
      assert required == {};
    } else {
      var rest := names[1..];
      assert names == [names[0]] + rest;
      EnumerationMultiset(rest, required - {names[0]});
    }
  }

  /** The list RequiredInputs returns, as a function of the execution alone. */
  ghost function RequiredNames(e: Execution): (r: Result<seq<string>, ExecError>)
    ensures match RequiredSet(e)
      case Err(error) => r == Err(error)
      case Ok(required) => r.Ok? && SortedNames(r.value, required)
  {
    match RequiredSet(e)
    case Err(error) => Err(error)
    case Ok(required) =>
      SortedNamesExist(required);
      var names :| SortedNames(names, required);
      Ok(names)
  }

  /** A command without arguments, which the resolver and the selector accept and which needs no input. */
  const BARE_COMMAND := Execution(CLI, map[SPEC_ARGS := Strings([])])

  lemma BareCommandNeedsNothing()
    ensures RequiredNames(BARE_COMMAND) == Ok([])
  {
    assert ExecutionArgs(BARE_COMMAND) == Ok([]) && StdoutPathInput(BARE_COMMAND) == Ok(None);
    var required := RequiredSet(BARE_COMMAND).value;
    assert required == {};
    var names := RequiredNames(BARE_COMMAND).value;
    EnumerationMultiset(names, required);
    assert |names| == |multiset(names)| == |multiset(required)| == 0;
  }

  lemma SortedNamesExist(required: set<string>)
    ensures exists names :: SortedNames(names, required)
  {
    var names := SomeOrder(required);
    var sorted := InsertAll(names);
    SameElements(sorted, names, required);
    assert SortedNames(sorted, required);
  }

  lemma {:induction false} InsertAll(s: seq<string>) returns (sorted: seq<string>)
    ensures IsSortOf(StrLess, sorted, s)
  {
    if s == [] {
      sorted := [];
    } else {
      var rest := InsertAll(s[1..]);
      StrLessWeak();
      InsertSorted(StrLess, s[0], rest);
      sorted := Insert(StrLess, s[0], rest);
      assert s == [s[0]] + s[1..];
    }
  }

  /** Rearranging an enumeration leaves an enumeration. */
  lemma SameElements(a: seq<string>, b: seq<string>, required: set<string>)
    requires multiset(a) == multiset(b) && Enumerates(b, required)
    ensures Enumerates(a, required)
  {
    EnumerationMultiset(b, required);
    assert forall x :: x in a <==> x in multiset(a);
    forall i, j | 0 <= i < j < |a| ensures a[i] != a[j] {
      assert a == a[..i] + [a[i]] + a[i + 1..j] + [a[j]] + a[j + 1..];
      assert multiset(a)[a[i]] <= 1;
    }
  }

  lemma ArgHolesSnoc(args: seq<string>, arg: string)
    ensures ArgHoles(args + [arg]) == ArgHoles(args) + Holes(Scan(arg))
  {
    var all := args + [arg];
    assert all[|args|] == arg;
    assert forall i | 0 <= i < |args| :: all[i] == args[i];
    forall h | h in ArgHoles(all) ensures h in ArgHoles(args) + Holes(Scan(arg)) {
      var i :| 0 <= i < |all| && h in Holes(Scan(all[i]));
      assert i < |args| ==> h in Holes(Scan(args[i]));
    }
    forall h | h in ArgHoles(args) ensures h in ArgHoles(all) {
      var i :| 0 <= i < |args| && h in Holes(Scan(args[i]));
      assert h in Holes(Scan(all[i]));
    }
  }

  // ---------------------------------------------------------------- what the list holds

  /** `arg` is one of the arguments of the execution, however its list of strings came to be. */
  predicate IsArg(e: Execution, arg: string) {
    "args" in e.spec &&
    match e.spec["args"]
    case Strings(strings) => arg in strings
    case List(items) => Str(arg) in items
    case _ => false
  }

  predicate WordText(n: string) {
    n != "" && forall c | c in n :: 'A' <= c <= 'Z' || 'a' <= c <= 'z' || '0' <= c <= '9' || c == '_'
  }

  /** The execution refers to input `n`: a word between double braces in some argument, or the name its standard output
      goes to. */
  ghost predicate AsksFor(e: Execution, n: string) {
    || (WordText(n) && exists arg | IsArg(e, arg) :: Contains(arg, "{{" + n + "}}"))
    || (n != "" && "stdout_path_input" in e.spec && e.spec["stdout_path_input"].Str?
        && TrimSpace(e.spec["stdout_path_input"].text) == n)
  }

  /** The execution can be read at all: its arguments are strings, and the entry for its standard output is a name. */
  predicate Readable(e: Execution) {
    && e.kind == CLI && "args" in e.spec
    && (e.spec["args"].Strings? ||
        (e.spec["args"].List? && forall i | 0 <= i < |e.spec["args"].items| :: e.spec["args"].items[i].Str?))
    && ("stdout_path_input" in e.spec ==>
         var entry := e.spec["stdout_path_input"];
         entry == Null
         || (entry.Str? && !Contains(TrimSpace(entry.text), "{{") && !Contains(TrimSpace(entry.text), "}}")))
  }

  lemma ArgsAreArgs(e: Execution)
    requires ExecutionArgs(e).Ok?
    ensures "args" in e.spec
    ensures match e.spec["args"]
      case Strings(strings) => ExecutionArgs(e).value == strings
      case List(items) =>
        |ExecutionArgs(e).value| == |items| && forall i | 0 <= i < |items| :: items[i] == Str(ExecutionArgs(e).value[i])
      case _ => false
    ensures forall arg :: IsArg(e, arg) <==> arg in ExecutionArgs(e).value
  {
    var args := ExecutionArgs(e).value;
    if e.spec["args"].List? {
      var items := e.spec["args"].items;
      assert |args| == |items| && forall i | 0 <= i < |args| :: items[i] == Str(args[i]);
      forall arg ensures IsArg(e, arg) <==> arg in args {
        if Str(arg) in items {
          var i :| 0 <= i < |items| && items[i] == Str(arg);
          assert args[i] == arg;
        }
        if arg in args {
          var i :| 0 <= i < |args| && args[i] == arg;
          assert items[i] == Str(arg);
        }
      }
    }
  }

  lemma WordTextIsName(n: string)
    ensures IsWordName(n) <==> WordText(n)
  {
    if WordText(n) {
      forall j | 0 <= j < |n| ensures IsWord(n[j]) {
        assert n[j] in n;
      }
    }
  }

  lemma HoleIsWord(arg: string, n: string)
    ensures n in Holes(Scan(arg)) <==> WordText(n) && Contains(arg, "{{" + n + "}}")
  {
    WordTextIsName(n);
    assert Quoted(n) == "{{" + n + "}}";
    if IsWordName(n) {
      HolesAreOccurrences(arg, n);
    }
    if n in Holes(Scan(arg)) {
      ScanWordNamed(arg);
      var i :| 0 <= i < |Scan(arg)| && Scan(arg)[i].Hole? && Scan(arg)[i].name == n;
    }
  }

  lemma ArgHolesMean(e: Execution, n: string)
    requires ExecutionArgs(e).Ok?
    ensures n in ArgHoles(ExecutionArgs(e).value) <==>
      WordText(n) && exists arg | IsArg(e, arg) :: Contains(arg, "{{" + n + "}}")
  {
    var args := ExecutionArgs(e).value;
    ArgsAreArgs(e);
    forall arg ensures n in Holes(Scan(arg)) <==> WordText(n) && Contains(arg, "{{" + n + "}}") {
      HoleIsWord(arg, n);
    }
    if n in ArgHoles(args) {
      var i :| 0 <= i < |args| && n in Holes(Scan(args[i]));
      assert IsArg(e, args[i]);
    }
    if arg :| IsArg(e, arg) && WordText(n) && Contains(arg, "{{" + n + "}}") {
      var i :| 0 <= i < |args| && args[i] == arg;
      assert n in Holes(Scan(args[i]));
    }
  }

  lemma RequiredNamesMean(e: Execution)
    ensures RequiredNames(e).Ok? <==> Readable(e)
    ensures RequiredNames(e) == Err(UnsupportedKind) <==> e.kind != CLI
    ensures RequiredNames(e).Ok? ==> forall n :: n in RequiredNames(e).value <==> AsksFor(e, n)
  {
    if RequiredNames(e).Ok? {
      forall n ensures n in RequiredNames(e).value <==> AsksFor(e, n) {
        ArgHolesMean(e, n);
      }
    }
  }

  /** RequiredInputs: collects names in a set, lists the set in whatever order, sorts. */
  method RequiredInputs(e: Execution) returns (r: Result<seq<string>, ExecError>)
    ensures r == RequiredNames(e)
    ensures r.Ok? <==> Readable(e)
    ensures r == Err(UnsupportedKind) <==> e.kind != CLI
    ensures r.Ok? ==> forall n :: n in r.value <==> AsksFor(e, n)
    ensures r.Ok? ==> forall i, j | 0 <= i < j < |r.value| :: StrLess(r.value[i], r.value[j])
  {
    RequiredNamesMean(e);
    if e.kind != CLI {
      return Err(UnsupportedKind);
    }
    var found := ExecutionArgs(e);
    if found.Err? {
      return Err(found.error);
    }
    var required := CollectHoles(found.value);
    var stdout := StdoutPathInput(e);
    if stdout.Err? {
      return Err(stdout.error);
    }
    if stdout.value.Some? {
      required := required + {stdout.value.value};
    }
    var names := ListNames(required);
    SortedNamesUnique(names, RequiredNames(e).value, required);
    Ascending(names, required);
    return Ok(names);
  }

  method CollectHoles(args: seq<string>) returns (required: set<string>)
    ensures required == ArgHoles(args)
  {
    required := {};
    for index := 0 to |args|
      invariant required == ArgHoles(args[..index])
    {
      ArgHolesSnoc(args[..index], args[index]);
      FrontMore(args, index);
      required := required + Holes(Scan(args[index]));
    }
    assert args[..|args|] == args;
  }

  /** Walks the set in whatever order, then sorts. */
  method ListNames(required: set<string>) returns (sorted: seq<string>)
    ensures SortedNames(sorted, required)
  {
    var names := [];
    var pending := required;
    while pending != {}
      invariant pending <= required
      invariant Enumerates(names, required - pending)
    {
      var name :| name in pending;
      names := names + [name];
      pending := pending - {name};
    }
    assert required - pending == required;
    StrLessWeak();
    sorted := SortSlice(StrLess, names);
    SameElements(sorted, names, required);
  }

  function Printed(inputs: Inputs, sprint: Printer): map<string, string> {
    map k | k in inputs :: sprint(inputs[k])
  }

  /** renderArg: the loop over the input map takes its keys in an order Go leaves open. */
  method RenderArg(arg: string, inputs: Inputs, sprint: Printer) returns (r: string, ghost order: seq<string>)
    ensures Enumerates(order, inputs.Keys)
    ensures r == ReplaceInOrder(arg, order, Printed(inputs, sprint))
    ensures Reachable(arg, r, Printed(inputs, sprint))
  {
    r, order := arg, [];
    var pending := inputs.Keys;
    ghost var texts := Printed(inputs, sprint);
    while pending != {}
      invariant pending <= inputs.Keys
      invariant Enumerates(order, inputs.Keys - pending)
      invariant forall k | k in order :: k in texts
      invariant r == ReplaceInOrder(arg, order, texts)
    {
      var key :| key in pending;
      ReplaceOneMore(arg, order, key, texts);
      r := ReplaceAll(r, Quoted(key), sprint(inputs[key]));
      order := order + [key];
      pending := pending - {key};
    }
    assert inputs.Keys - pending == inputs.Keys && texts.Keys == inputs.Keys;
    assert Enumerates(order, texts.Keys);
  }

  lemma {:induction false} ReplaceOneMore(arg: string, order: seq<string>, key: string, texts: map<string, string>)
    requires (forall k | k in order :: k in texts) && key in texts
    ensures forall k | k in order + [key] :: k in texts
    ensures ReplaceInOrder(arg, order + [key], texts)
         == ReplaceAll(ReplaceInOrder(arg, order, texts), Quoted(key), texts[key])
    decreases |order|
  {
    if order == [] {
      assert order + [key] == [key] && [key][1..] == [];
    } else {
      assert (order + [key])[1..] == order[1..] + [key];
      ReplaceOneMore(ReplaceAll(arg, Quoted(order[0]), texts[order[0]]), order[1..], key, texts);
    }
  }

  /** Simultaneous substitution in every argument. */
  function Filled(args: seq<string>, texts: map<string, string>): seq<string> {
    seq(|args|, i requires 0 <= i < |args| => Show(Fill(Scan(args[i]), texts)))
  }

  /** Filling the arguments puts no two equal braces next to each other. */
  predicate Clean(args: seq<string>, texts: map<string, string>) {
    BracelessKeys(texts) && forall arg | arg in args :: NoClash(Fill(Scan(arg), texts))
  }

  /** `text` is what some order of replacement makes of `arg`. */
  ghost predicate Reachable(arg: string, text: string, texts: map<string, string>) {
    exists order :: Enumerates(order, texts.Keys) && text == ReplaceInOrder(arg, order, texts)
  }

  /** A list of rendered arguments that passed the leftover-brace test. */
  ghost predicate Renders(args: seq<string>, rendered: seq<string>, texts: map<string, string>) {
    && |rendered| == |args|
    && forall i | 0 <= i < |args| :: NoDouble(rendered[i]) && Reachable(args[i], rendered[i], texts)
  }

  lemma RendersOneMore(args: seq<string>, rendered: seq<string>, arg: string, text: string, texts: map<string, string>)
    requires Renders(args, rendered, texts) && NoDouble(text) && Reachable(arg, text, texts)
    ensures Renders(args + [arg], rendered + [text], texts)
    ensures Filled(args + [arg], texts) == Filled(args, texts) + [Show(Fill(Scan(arg), texts))]
  {
    var all := args + [arg];
    assert all[|args|] == arg;
    assert forall i | 0 <= i < |args| :: all[i] == args[i];
  }

  /** Some argument does not render in some order. */
  ghost predicate SomeArgFails(args: seq<string>, texts: map<string, string>) {
    exists arg | arg in args :: !RendersInEveryOrder(arg, texts)
  }

  lemma OrderFails(args: seq<string>, index: nat, order: seq<string>, texts: map<string, string>)
    requires index < |args| && Enumerates(order, texts.Keys) && !NoDouble(ReplaceInOrder(args[index], order, texts))
    ensures SomeArgFails(args, texts)
  {
    assert args[index] in args && !RendersInEveryOrder(args[index], texts);
  }

  /** RenderArgs. It succeeds when every argument renders in every order, and on clean arguments the result is determined:
      the simultaneous substitution when every placeholder has an input, MissingInput otherwise. */
  method RenderArgs(e: Execution, inputs: Inputs, sprint: Printer) returns (r: Result<seq<string>, ExecError>)
    ensures e.kind != CLI ==> r == Err(UnsupportedKind)
    ensures e.kind == CLI && ExecutionArgs(e).Err? ==> r == Err(ExecutionArgs(e).error)
    ensures e.kind == CLI && ExecutionArgs(e).Ok? ==>
      var args, texts := ExecutionArgs(e).value, Printed(inputs, sprint);
      && (r.Ok? ==> Renders(args, r.value, texts))
      && (r.Err? ==> r.error == MissingInput && SomeArgFails(args, texts))
      && (Clean(args, texts) ==>
            r == if ArgHoles(args) <= inputs.Keys then Ok(Filled(args, texts)) else Err(MissingInput))
  {
    if e.kind != CLI {
      return Err(UnsupportedKind);
    }
    var found := ExecutionArgs(e);
    if found.Err? {
      return Err(found.error);
    }
    r := RenderAll(found.value, inputs, sprint);
  }

  /** The loop over the arguments. */
  method RenderAll(args: seq<string>, inputs: Inputs, sprint: Printer) returns (r: Result<seq<string>, ExecError>)
    ensures var texts := Printed(inputs, sprint);
      && (r.Ok? ==> Renders(args, r.value, texts))
      && (r.Err? ==> r.error == MissingInput && SomeArgFails(args, texts))
      && (Clean(args, texts) ==>
            r == if ArgHoles(args) <= inputs.Keys then Ok(Filled(args, texts)) else Err(MissingInput))
  {
    ghost var texts := Printed(inputs, sprint);
    var rendered: seq<string> := [];
    for index := 0 to |args|
      invariant SoFar(args, index, rendered, texts)
    {
      ghost var order;
      var text;
      text, order := RenderArg(args[index], inputs, sprint);
      CleanArg(args, index, order, texts);
      assert Reachable(args[index], text, texts);
      if Contains(text, "{{") || Contains(text, "}}") {
        MissingShows(args, index, inputs.Keys);
        OrderFails(args, index, order, texts);
        return Err(MissingInput);
      }
      OneMore(args, index, rendered, text, texts);
      rendered := rendered + [text];
    }
    assert args[..|args|] == args;
    return Ok(rendered);
  }

  /** The loop after `index` arguments. */
  ghost predicate SoFar(args: seq<string>, index: nat, rendered: seq<string>, texts: map<string, string>) {
    && index <= |args|
    && Renders(args[..index], rendered, texts)
    && (Clean(args, texts) ==> rendered == Filled(args[..index], texts) && ArgHoles(args[..index]) <= texts.Keys)
  }

  lemma OneMore(args: seq<string>, index: nat, rendered: seq<string>, text: string, texts: map<string, string>)
    requires index < |args| && SoFar(args, index, rendered, texts)
    requires NoDouble(text) && Reachable(args[index], text, texts)
    requires Clean(args, texts) ==> text == Show(Fill(Scan(args[index]), texts)) && Holes(Scan(args[index])) <= texts.Keys
    ensures SoFar(args, index + 1, rendered + [text], texts)
  {
    RendersOneMore(args[..index], rendered, args[index], text, texts);
    ArgHolesSnoc(args[..index], args[index]);
    assert args[..index + 1] == args[..index] + [args[index]];
  }

  lemma CleanArg(args: seq<string>, index: nat, order: seq<string>, texts: map<string, string>)
    requires index < |args| && Enumerates(order, texts.Keys)
    ensures Clean(args, texts) ==>
      && ReplaceInOrder(args[index], order, texts) == Show(Fill(Scan(args[index]), texts))
      && (NoDouble(ReplaceInOrder(args[index], order, texts)) <==> Holes(Scan(args[index])) <= texts.Keys)
  {
    if Clean(args, texts) {
      RenderedArg(args[index], order, texts);
    }
  }

  lemma MissingShows(args: seq<string>, index: nat, keys: set<string>)
    requires index < |args|
    ensures ArgHoles(args) <= keys ==> Holes(Scan(args[index])) <= keys
  {
    assert forall h | h in Holes(Scan(args[index])) :: h in ArgHoles(args);
  }

  /** What a caller that checked RequiredInputs may rely on: with safe templates and plain values,
      no missing required input means the arguments are clean and complete, so RenderArgs succeeds. */
  lemma RequiredInputsSuffice(e: Execution, inputs: Inputs, sprint: Printer)
    requires RequiredNames(e).Ok?
    requires forall n | n in RequiredNames(e).value :: HasInput(inputs, n) && PlainText(sprint(inputs[n]))
    requires BracelessKeys(Printed(inputs, sprint))
    requires forall arg | arg in ExecutionArgs(e).value :: TemplateSafe(arg)
    ensures Clean(ExecutionArgs(e).value, Printed(inputs, sprint))
    ensures ArgHoles(ExecutionArgs(e).value) <= inputs.Keys
  {
    var args, texts := ExecutionArgs(e).value, Printed(inputs, sprint);
    var names := RequiredNames(e).value;
    forall arg | arg in args ensures NoClash(Fill(Scan(arg), texts)) {
      var i :| 0 <= i < |args| && args[i] == arg;
      assert forall h | h in Holes(Scan(arg)) :: h in ArgHoles(args);
      PlainFill(Scan(arg), texts);
    }
  }
}
