/** internal/execute/inputs.go: placeholder scanning and argument rendering.

    The code fills a template by one textual replacement per input, in Go's unspecified map order.
    `Fill` is the reference meaning: every hole of the scanned template is replaced at once. */
module Template {
  import opened Common
  import opened Text

  /** A scanned template: plain characters and `{{name}}` holes. */
  datatype Atom = Ch(c: char) | Hole(name: string)

  predicate IsWord(c: char) {
    'A' <= c <= 'Z' || 'a' <= c <= 'z' || '0' <= c <= '9' || c == '_'
  }

  predicate IsBrace(c: char) {
    c == '{' || c == '}'
  }

  predicate Braceless(s: string) {
    forall i | 0 <= i < |s| :: !IsBrace(s[i])
  }

  function Quoted(name: string): string {
    "{{" + name + "}}"
  }

  function WordRun(s: string): (n: nat)
    ensures n <= |s|
    ensures forall i | 0 <= i < n :: IsWord(s[i])
    ensures n < |s| ==> !IsWord(s[n])
  {
    if s != "" && IsWord(s[0]) then 1 + WordRun(s[1..]) else 0
  }

  /** The name matched by the placeholder pattern at the very front of `s`, if it matches there. */
  function HoleAt(s: string): (r: Option<string>)
    ensures r.Some? ==> r.value != "" && Quoted(r.value) <= s && forall i | 0 <= i < |r.value| :: IsWord(r.value[i])
  {
    if "{{" <= s then
      var n := WordRun(s[2..]);
      if n > 0 && "}}" <= s[2 + n..] then Some(s[2..2 + n]) else None
    else None
  }

  /** All leftmost non-overlapping matches of the placeholder pattern, and the text between them. */
  function Scan(s: string): seq<Atom> {
    if s == "" then []
    else match HoleAt(s)
      case Some(name) => [Hole(name)] + Scan(s[|name| + 4..])
      case None => [Ch(s[0])] + Scan(s[1..])
  }

  function ShowAtom(a: Atom): string {
    match a
    case Ch(c) => [c]
    case Hole(name) => Quoted(name)
  }

  function Show(atoms: seq<Atom>): string {
    if atoms == [] then "" else ShowAtom(atoms[0]) + Show(atoms[1..])
  }

  function Chars(s: string): (r: seq<Atom>)
    ensures |r| == |s| && forall i | 0 <= i < |s| :: r[i] == Ch(s[i])
  {
    seq(|s|, i requires 0 <= i < |s| => Ch(s[i]))
  }

  function FillAtom(a: Atom, texts: map<string, string>): seq<Atom> {
    if a.Hole? && a.name in texts then Chars(texts[a.name]) else [a]
  }

  /** Simultaneous substitution. */
  function Fill(atoms: seq<Atom>, texts: map<string, string>): seq<Atom> {
    if atoms == [] then [] else FillAtom(atoms[0], texts) + Fill(atoms[1..], texts)
  }

  function Holes(atoms: seq<Atom>): set<string> {
    set i | 0 <= i < |atoms| && atoms[i].Hole? :: atoms[i].name
  }

  /** Neighbouring plain characters that read as `{{` or `}}`. */
  predicate Clash(x: Atom, y: Atom) {
    x.Ch? && x == y && IsBrace(x.c)
  }

  predicate NoClash(atoms: seq<Atom>) {
    forall i | 0 < i < |atoms| :: !Clash(atoms[i - 1], atoms[i])
  }

  /** The test RenderArgs applies to a rendered argument. */
  predicate NoDouble(s: string) {
    !Contains(s, "{{") && !Contains(s, "}}")
  }

  predicate Named(atoms: seq<Atom>) {
    forall i | 0 <= i < |atoms| :: atoms[i].Hole? ==> Braceless(atoms[i].name)
  }

  // ---------------------------------------------------------------- scanning

  lemma {:induction false} ShowConcat(a: seq<Atom>, b: seq<Atom>)
    ensures Show(a + b) == Show(a) + Show(b)
  {
    if a == [] {
      assert a + b == b;
    } else {
      assert (a + b)[1..] == a[1..] + b;
      ShowConcat(a[1..], b);
    }
  }

  lemma {:induction false} ShowChars(s: string)
    ensures Show(Chars(s)) == s
  {
    if s != "" {
      assert Chars(s)[1..] == Chars(s[1..]);
      ShowChars(s[1..]);
    }
  }

  lemma ShowCons(a: Atom, rest: seq<Atom>)
    ensures Show([a] + rest) == ShowAtom(a) + Show(rest)
  {
    assert ([a] + rest)[1..] == rest;
  }

  /** Scanning loses nothing: printing the scan of any argument gives the argument back. */
  lemma {:induction false} ScanShows(s: string)
    ensures Show(Scan(s)) == s
  {
    if s != "" {
      match HoleAt(s)
      case Some(name) =>
        ScanShows(s[|name| + 4..]);
        ShowCons(Hole(name), Scan(s[|name| + 4..]));
        PrefixThenRest(s, Quoted(name));
      case None =>
        ScanShows(s[1..]);
        ShowCons(Ch(s[0]), Scan(s[1..]));
    }
  }

  lemma PrefixThenRest(s: string, front: string)
    requires front <= s
    ensures s == front + s[|front|..]
  {
  }

  lemma {:induction false} ScanNamed(s: string)
    ensures Named(Scan(s))
  {
    if s != "" {
      match HoleAt(s)
      case Some(name) => ScanNamed(s[|name| + 4..]);
      case None => ScanNamed(s[1..]);
    }
  }

  lemma QuotedUnique(a: string, b: string, s: string)
    requires Braceless(a) && Braceless(b)
    requires Quoted(a) <= s && Quoted(b) <= s
    ensures a == b
  {
    assert Quoted(a)[2 + |a|] == s[2 + |a|] == '}' && Quoted(b)[2 + |b|] == s[2 + |b|] == '}';
    assert forall j | 2 <= j < 2 + |a| :: s[j] == a[j - 2] && !IsBrace(s[j]);
    assert forall j | 2 <= j < 2 + |b| :: s[j] == b[j - 2] && !IsBrace(s[j]);
    assert forall i | 0 <= i < |a| :: a[i] == s[2 + i];
  }

  lemma WordRunOf(w: string, s: string)
    requires w <= s && forall i | 0 <= i < |w| :: IsWord(w[i])
    requires |w| < |s| && !IsWord(s[|w|])
    ensures WordRun(s) == |w|
  {
    assert forall i | 0 <= i < |w| :: IsWord(s[i]);
  }

  lemma HoleAtQuoted(name: string, s: string)
    requires name != "" && Quoted(name) <= s && forall i | 0 <= i < |name| :: IsWord(name[i])
    ensures HoleAt(s) == Some(name)
  {
    var q := Quoted(name);
    assert q[0] == s[0] && q[1] == s[1] && q[2 + |name|] == s[2 + |name|] && q[3 + |name|] == s[3 + |name|];
    assert forall i | 0 <= i < |name| :: s[2 + i] == q[2 + i] == name[i];
    assert s[2..][|name|] == '}';
    WordRunOf(name, s[2..]);
    assert s[2..2 + |name|] == name;
  }

  // ---------------------------------------------------------------- what a placeholder is

  /** Finding `part` in a text whose first `n` characters cannot start it is finding it in the rest. */
  lemma ContainsLater(s: string, part: string, n: nat)
    requires n <= |s| && forall i | 0 <= i < n :: !(part <= s[i..])
    ensures Contains(s, part) <==> Contains(s[n..], part)
  {
    if Contains(s, part) {
      var i :| 0 <= i <= |s| - |part| && part <= s[i..];
      assert s[n..][i - n..] == s[i..];
    }
    if Contains(s[n..], part) {
      var i :| 0 <= i <= |s[n..]| - |part| && part <= s[n..][i..];
      assert s[n..][i..] == s[n + i..];
    }
  }

  /** No placeholder starts inside another one. */
  lemma NoneInside(name: string, other: string, s: string, i: nat)
    requires name != "" && Braceless(name) && Braceless(other) && Quoted(name) <= s && 0 < i < |name| + 4
    ensures !(Quoted(other) <= s[i..])
  {
    var q := Quoted(name);
    assert q[i] == s[i] && (i + 1 < |q| ==> q[i + 1] == s[i + 1]);
    assert i == 1 ==> q[2] == name[0] && !IsBrace(name[0]);
    assert 2 <= i < |q| - 2 ==> q[i] == name[i - 2] && !IsBrace(name[i - 2]);
    assert s[i..][0] == s[i] && (i + 1 < |s| ==> s[i..][1] == s[i + 1]);
  }

  /** The scan finds a word exactly where the text has it between double braces. */
  lemma {:induction false} HolesAreOccurrences(s: string, name: string)
    requires IsWordName(name)
    ensures name in Holes(Scan(s)) <==> Contains(s, Quoted(name))
  {
    if s != "" {
      match HoleAt(s)
      case Some(found) =>
        HolesConcat([Hole(found)], Scan(s[|found| + 4..]));
        assert [Hole(found)][0] == Hole(found);
        HolesAreOccurrences(s[|found| + 4..], name);
        FoundOrLater(s, found, name);
      case None =>
        HolesConcat([Ch(s[0])], Scan(s[1..]));
        HolesAreOccurrences(s[1..], name);
        if Quoted(name) <= s {
          HoleAtQuoted(name, s);
        }
        ContainsLater(s, Quoted(name), 1);
    }
  }

  lemma FoundOrLater(s: string, found: string, name: string)
    requires IsWordName(found) && IsWordName(name) && Quoted(found) <= s
    ensures Contains(s, Quoted(name)) <==> found == name || Contains(s[|found| + 4..], Quoted(name))
  {
    assert s[0..] == s;
    if found != name {
      if Quoted(name) <= s {
        QuotedUnique(found, name, s);
      }
      forall i | 0 <= i < |found| + 4 ensures !(Quoted(name) <= s[i..]) {
        if i > 0 {
          NoneInside(found, name, s, i);
        }
      }
      ContainsLater(s, Quoted(name), |found| + 4);
    }
  }

  // ---------------------------------------------------------------- one replacement

  /** No plain character of the template starts an occurrence of the placeholder `{{key}}`. */
  predicate Settled(atoms: seq<Atom>, key: string) {
    forall i | 0 <= i < |atoms| :: atoms[i].Ch? ==> !(Quoted(key) <= Show(atoms[i..]))
  }

  lemma SettledTail(atoms: seq<Atom>, key: string)
    requires atoms != [] && Settled(atoms, key)
    ensures Settled(atoms[1..], key)
  {
    forall i | 0 <= i < |atoms| - 1 && atoms[1..][i].Ch?
      ensures !(Quoted(key) <= Show(atoms[1..][i..]))
    {
      assert atoms[1..][i..] == atoms[i + 1..];
    }
  }

  /** Replacing one placeholder in the text is filling one hole of the scanned template. */
  lemma {:induction false} ReplaceFills(atoms: seq<Atom>, key: string, text: string)
    requires Named(atoms) && Braceless(key) && Settled(atoms, key)
    ensures ReplaceAll(Show(atoms), Quoted(key), text) == Show(Fill(atoms, map[key := text]))
  {
    if atoms != [] {
      var rest := Show(atoms[1..]);
      SettledTail(atoms, key);
      ReplaceFills(atoms[1..], key, text);
      var filled := Fill(atoms[1..], map[key := text]);
      ShowConcat(FillAtom(atoms[0], map[key := text]), filled);
      match atoms[0]
      case Ch(c) =>
        assert atoms[0..] == atoms;
        assert Show(atoms)[1..] == rest;
      case Hole(name) =>
        if name == key {
          ShowChars(text);
          assert Show(atoms)[|Quoted(key)|..] == rest;
        } else {
          HoleStays(name, key, rest, text);
        }
    }
  }

  lemma HoleStays(name: string, key: string, rest: string, text: string)
    requires Braceless(name) && Braceless(key) && name != key
    ensures ReplaceAll(Quoted(name) + rest, Quoted(key), text) == Quoted(name) + ReplaceAll(rest, Quoted(key), text)
  {
    var s := Quoted(name) + rest;
    if Quoted(key) <= s {
      QuotedUnique(name, key, s);
    }
    var front := name + "}}";
    assert s == "{" + ("{" + (front + rest));
    var t := "{" + (front + rest);
    assert s[1..] == t && t[1..] == front + rest;
    assert !(Quoted(key) <= t) by {
      assert t[1] == front[0] && !(front[0] == '{');
    }
    assert '{' !in front;
    ReplaceSkips(front, rest, Quoted(key), text);
    assert Quoted(name) == "{" + ("{" + front);
  }

  lemma NoClashSettles(atoms: seq<Atom>, key: string)
    requires Named(atoms) && Braceless(key) && NoClash(atoms)
    ensures Settled(atoms, key)
  {
    forall i | 0 <= i < |atoms| && atoms[i].Ch?
      ensures !(Quoted(key) <= Show(atoms[i..]))
    {
      var tail := atoms[i..];
      var s := Show(tail);
      var q := Quoted(key);
      assert q[0] == q[1] == '{' && q[2] != '{';
      if |tail| > 1 {
        assert tail[1] == atoms[i + 1] && tail[1..] == [tail[1]] + tail[2..];
        ShowCons(tail[1], tail[2..]);
        assert !Clash(atoms[i + 1 - 1], atoms[i + 1]);
        assert tail[1].Hole? ==> s[1] == s[2] == '{';
      }
    }
  }

  // ---------------------------------------------------------------- all replacements, in any order

  /** The loop of renderArg: one replacement per key, in the order the map happens to be walked. */
  function ReplaceInOrder(arg: string, order: seq<string>, texts: map<string, string>): string
    requires forall k | k in order :: k in texts
    decreases |order|
  {
    if order == [] then arg
    else ReplaceInOrder(ReplaceAll(arg, Quoted(order[0]), texts[order[0]]), order[1..], texts)
  }

  /** `order` walks exactly the given keys, each once. */
  predicate Enumerates(order: seq<string>, keys: set<string>) {
    && (forall k | k in order :: k in keys)
    && (forall k | k in keys :: k in order)
    && forall i, j | 0 <= i < j < |order| :: order[i] != order[j]
  }

  predicate BracelessKeys(texts: map<string, string>) {
    forall k | k in texts :: Braceless(k)
  }

  lemma FillCons(a: Atom, rest: seq<Atom>, texts: map<string, string>)
    ensures Fill([a] + rest, texts) == FillAtom(a, texts) + Fill(rest, texts)
  {
    assert ([a] + rest)[1..] == rest;
  }

  lemma {:induction false} FillConcat(a: seq<Atom>, b: seq<Atom>, texts: map<string, string>)
    ensures Fill(a + b, texts) == Fill(a, texts) + Fill(b, texts)
  {
    if a == [] {
      assert a + b == b;
    } else {
      assert (a + b)[1..] == a[1..] + b;
      FillConcat(a[1..], b, texts);
    }
  }

  lemma {:induction false} FillChars(s: string, texts: map<string, string>)
    ensures Fill(Chars(s), texts) == Chars(s)
  {
    if s != "" {
      assert Chars(s)[1..] == Chars(s[1..]);
      FillChars(s[1..], texts);
    }
  }

  /** Filling some holes first and the rest later is filling them all at once. */
  lemma {:induction false} FillTwice(atoms: seq<Atom>, first: map<string, string>, second: map<string, string>)
    ensures Fill(Fill(atoms, first), second) == Fill(atoms, second + first)
  {
    if atoms != [] {
      FillTwice(atoms[1..], first, second);
      FillConcat(FillAtom(atoms[0], first), Fill(atoms[1..], first), second);
      if atoms[0].Hole? && atoms[0].name in first {
        FillChars(first[atoms[0].name], second);
      } else {
        FillCons(atoms[0], [], second);
      }
    }
  }

  lemma {:induction false} FillNamed(atoms: seq<Atom>, texts: map<string, string>)
    requires Named(atoms)
    ensures Named(Fill(atoms, texts))
  {
    if atoms != [] {
      FillNamed(atoms[1..], texts);
    }
  }

  /** Filling keeps neighbouring plain characters together. */
  lemma {:induction false} FillKeepsClash(atoms: seq<Atom>, texts: map<string, string>)
    requires NoClash(Fill(atoms, texts))
    ensures NoClash(atoms)
  {
    if atoms != [] {
      var head, tail := FillAtom(atoms[0], texts), Fill(atoms[1..], texts);
      assert NoClash(tail) by {
        forall i | 0 < i < |tail| ensures !Clash(tail[i - 1], tail[i]) {
          assert Fill(atoms, texts)[|head| + i - 1] == tail[i - 1] && Fill(atoms, texts)[|head| + i] == tail[i];
        }
      }
      FillKeepsClash(atoms[1..], texts);
      if |atoms| > 1 && atoms[0].Ch? && atoms[1].Ch? {
        assert tail[0] == atoms[1..][0] == atoms[1];
        assert !Clash(Fill(atoms, texts)[0], Fill(atoms, texts)[1]);
      }
      forall i | 0 < i < |atoms| ensures !Clash(atoms[i - 1], atoms[i]) {
        if i > 1 {
          assert !Clash(atoms[1..][i - 2], atoms[1..][i - 1]);
        }
      }
    }
  }

  /** Every order of replacement gives the simultaneous substitution,
      whenever that substitution itself leaves no double brace. */
  lemma {:induction false} AnyOrderFills(atoms: seq<Atom>, order: seq<string>, texts: map<string, string>)
    requires forall k | k in order :: k in texts
    requires Named(atoms) && BracelessKeys(texts)
    requires NoClash(Fill(atoms, texts))
    ensures ReplaceInOrder(Show(atoms), order, texts)
         == Show(Fill(atoms, map k | k in order :: texts[k]))
    decreases |order|
  {
    if order == [] {
      FillNothing(atoms);
      assert (map k | k in order :: texts[k]) == map[];
    } else {
      var key, rest := order[0], order[1..];
      var one := map[key := texts[key]];
      var later := map k | k in rest :: texts[k];
      var next := Fill(atoms, one);
      FillKeepsClash(atoms, texts);
      NoClashSettles(atoms, key);
      ReplaceFills(atoms, key, texts[key]);
      FillNamed(atoms, one);
      FillTwice(atoms, one, texts);
      assert texts + one == texts;
      AnyOrderFills(next, rest, texts);
      FillTwice(atoms, one, later);
      TextsOfOrder(order, texts);
    }
  }

  lemma TextsOfOrder(order: seq<string>, texts: map<string, string>)
    requires order != [] && forall k | k in order :: k in texts
    ensures (map k | k in order[1..] :: texts[k]) + map[order[0] := texts[order[0]]] == map k | k in order :: texts[k]
  {
    assert order == [order[0]] + order[1..];
  }

  lemma {:induction false} FillNothing(atoms: seq<Atom>)
    ensures Fill(atoms, map[]) == atoms
  {
    if atoms != [] {
      FillNothing(atoms[1..]);
    }
  }

  // ---------------------------------------------------------------- success

  lemma {:induction false} FillHoles(atoms: seq<Atom>, texts: map<string, string>)
    ensures Holes(Fill(atoms, texts)) == Holes(atoms) - texts.Keys
  {
    if atoms != [] {
      FillHoles(atoms[1..], texts);
      HolesConcat([atoms[0]], atoms[1..]);
      HolesConcat(FillAtom(atoms[0], texts), Fill(atoms[1..], texts));
      assert [atoms[0]] + atoms[1..] == atoms;
      var head := FillAtom(atoms[0], texts);
      assert Holes(head) == Holes([atoms[0]]) - texts.Keys by {
        if atoms[0].Hole? {
          assert Holes([atoms[0]]) == {atoms[0].name} by { assert [atoms[0]][0] == atoms[0]; }
          if atoms[0].name !in texts {
            assert head == [atoms[0]];
          }
        }
      }
    }
  }

  lemma HolesConcat(a: seq<Atom>, b: seq<Atom>)
    ensures Holes(a + b) == Holes(a) + Holes(b)
  {
    forall n | n in Holes(b) ensures n in Holes(a + b) {
      var i :| 0 <= i < |b| && b[i].Hole? && b[i].name == n;
      assert (a + b)[|a| + i] == b[i];
    }
    forall n | n in Holes(a) ensures n in Holes(a + b) {
      var i :| 0 <= i < |a| && a[i].Hole? && a[i].name == n;
      assert (a + b)[i] == a[i];
    }
  }

  predicate AllPlain(atoms: seq<Atom>) {
    forall i | 0 <= i < |atoms| :: atoms[i].Ch?
  }

  lemma NoHoles(atoms: seq<Atom>)
    ensures Holes(atoms) == {} <==> AllPlain(atoms)
  {
    if !AllPlain(atoms) {
      var i :| 0 <= i < |atoms| && atoms[i].Hole?;
      assert atoms[i].name in Holes(atoms);
    }
  }

  lemma {:induction false} ShowPlain(atoms: seq<Atom>)
    requires AllPlain(atoms)
    ensures Chars(Show(atoms)) == atoms
  {
    if atoms != [] {
      assert forall i | 0 <= i < |atoms[1..]| :: atoms[1..][i] == atoms[i + 1];
      ShowPlain(atoms[1..]);
      CharsCons(atoms[0].c, Show(atoms[1..]));
      assert [atoms[0]] + atoms[1..] == atoms;
    }
  }

  lemma CharsCons(c: char, s: string)
    ensures Chars([c] + s) == [Ch(c)] + Chars(s)
  {
  }

  lemma ContainsAfter(front: string, rest: string, part: string)
    requires part <= rest
    ensures Contains(front + rest, part)
  {
    assert (front + rest)[|front|..] == rest;
  }

  lemma {:induction false} HoleShowsDouble(atoms: seq<Atom>)
    requires Holes(atoms) != {}
    ensures !NoDouble(Show(atoms))
  {
    var i :| 0 <= i < |atoms| && atoms[i].Hole?;
    var front, back := atoms[..i], atoms[i..];
    assert front + back == atoms && back[0] == atoms[i];
    ShowConcat(front, back);
    assert "{{" <= Show(back);
    ContainsAfter(Show(front), Show(back), "{{");
  }

  lemma ClashShows(s: string, i: nat)
    requires 0 < i < |s| && Clash(Chars(s)[i - 1], Chars(s)[i])
    ensures !NoDouble(s)
  {
    assert s[i - 1..][0] == s[i - 1] && s[i - 1..][1] == s[i];
    assert "{{" <= s[i - 1..] || "}}" <= s[i - 1..];
  }

  lemma DoubleClashes(s: string, i: nat)
    requires i + 2 <= |s| && ("{{" <= s[i..] || "}}" <= s[i..])
    ensures !NoClash(Chars(s))
  {
    assert s[i..][0] == s[i] && s[i..][1] == s[i + 1];
    assert Clash(Chars(s)[i + 1 - 1], Chars(s)[i + 1]);
  }

  lemma ClashIsDouble(s: string)
    ensures NoDouble(s) <==> NoClash(Chars(s))
  {
    if !NoClash(Chars(s)) {
      var i :| 0 < i < |s| && Clash(Chars(s)[i - 1], Chars(s)[i]);
      ClashShows(s, i);
    }
    if !NoDouble(s) {
      var i :| 0 <= i <= |s| - 2 && ("{{" <= s[i..] || "}}" <= s[i..]);
      DoubleClashes(s, i);
    }
  }

  /** Rendering a template, order-free: as long as the filled template has no clash, every order yields that filled
      template, and it passes the leftover-brace test exactly when every hole had an input. */
  lemma RenderedAtoms(atoms: seq<Atom>, order: seq<string>, texts: map<string, string>)
    requires Enumerates(order, texts.Keys) && BracelessKeys(texts) && Named(atoms)
    requires NoClash(Fill(atoms, texts))
    ensures ReplaceInOrder(Show(atoms), order, texts) == Show(Fill(atoms, texts))
    ensures NoDouble(ReplaceInOrder(Show(atoms), order, texts)) <==> Holes(atoms) <= texts.Keys
  {
    var filled := Fill(atoms, texts);
    AnyOrderFills(atoms, order, texts);
    assert (map k | k in order :: texts[k]) == texts;
    FillHoles(atoms, texts);
    NoHoles(filled);
    if Holes(atoms) <= texts.Keys {
      assert Holes(filled) == {};
      ShowPlain(filled);
      ClashIsDouble(Show(filled));
    } else {
      var h :| h in Holes(atoms) && h !in texts;
      assert h in Holes(filled);
      HoleShowsDouble(filled);
    }
  }

  lemma RenderedArg(arg: string, order: seq<string>, texts: map<string, string>)
    requires Enumerates(order, texts.Keys) && BracelessKeys(texts)
    requires NoClash(Fill(Scan(arg), texts))
    ensures ReplaceInOrder(arg, order, texts) == Show(Fill(Scan(arg), texts))
    ensures NoDouble(ReplaceInOrder(arg, order, texts)) <==> Holes(Scan(arg)) <= texts.Keys
  {
    ScanShows(arg);
    ScanNamed(arg);
    RenderedAtoms(Scan(arg), order, texts);
  }

  // ---------------------------------------------------------------- which templates always render

  /** A printed input that cannot join its surroundings into a double brace. */
  predicate PlainText(text: string) {
    text != "" && NoDouble(text) && !IsBrace(text[0]) && !IsBrace(text[|text| - 1])
  }

  /** The template has no literal `{{` or `}}` outside its placeholders. */
  predicate TemplateSafe(arg: string) {
    NoClash(Scan(arg))
  }

  lemma NoClashJoin(a: seq<Atom>, b: seq<Atom>)
    requires NoClash(a) && NoClash(b)
    requires a != [] && b != [] ==> !Clash(a[|a| - 1], b[0])
    ensures NoClash(a + b)
  {
    var s := a + b;
    forall i | 0 < i < |s| ensures !Clash(s[i - 1], s[i]) {
      if i > |a| {
        assert !Clash(b[i - |a| - 1], b[i - |a|]);
      }
    }
  }

  lemma NoClashSplit(a: seq<Atom>, b: seq<Atom>)
    requires NoClash(a + b)
    ensures NoClash(a) && NoClash(b)
    ensures a != [] && b != [] ==> !Clash(a[|a| - 1], b[0])
  {
    var s := a + b;
    forall i | 0 < i < |a| ensures !Clash(a[i - 1], a[i]) {
      assert !Clash(s[i - 1], s[i]);
    }
    forall i | 0 < i < |b| ensures !Clash(b[i - 1], b[i]) {
      assert !Clash(s[|a| + i - 1], s[|a| + i]);
    }
    if a != [] && b != [] {
      assert !Clash(s[|a| - 1], s[|a|]);
    }
  }

  lemma {:induction false} PlainFill(atoms: seq<Atom>, texts: map<string, string>)
    requires NoClash(atoms)
    requires forall h | h in Holes(atoms) && h in texts :: PlainText(texts[h])
    ensures NoClash(Fill(atoms, texts))
    ensures atoms != [] ==> Fill(atoms, texts) != []
    ensures atoms != [] && Fill(atoms, texts)[0] != atoms[0] ==>
      Fill(atoms, texts)[0].Ch? && !IsBrace(Fill(atoms, texts)[0].c)
  {
    if atoms != [] {
      assert [atoms[0]] + atoms[1..] == atoms;
      HolesConcat([atoms[0]], atoms[1..]);
      NoClashSplit([atoms[0]], atoms[1..]);
      PlainFill(atoms[1..], texts);
      var head := FillAtom(atoms[0], texts);
      if atoms[0].Hole? && atoms[0].name in texts {
        assert [atoms[0]][0].name in Holes([atoms[0]]);
        ClashIsDouble(texts[atoms[0].name]);
      }
      NoClashJoin(head, Fill(atoms[1..], texts));
    }
  }

  /** No plain character of the template starts a placeholder: what scanning leaves behind. */
  predicate Scanned(atoms: seq<Atom>) {
    forall i | 0 <= i < |atoms| :: atoms[i].Ch? ==> HoleAt(Show(atoms[i..])).None?
  }

  lemma {:induction false} ScanIsScanned(s: string)
    ensures Scanned(Scan(s))
  {
    if s != "" {
      var atoms := Scan(s);
      ScanShows(s);
      match HoleAt(s)
      case Some(name) => ScanIsScanned(s[|name| + 4..]);
      case None => ScanIsScanned(s[1..]);
      forall i | 0 <= i < |atoms| && atoms[i].Ch? ensures HoleAt(Show(atoms[i..])).None? {
        if i > 0 {
          assert atoms[i..] == atoms[1..][i - 1..];
        } else {
          assert atoms[0..] == atoms;
        }
      }
    }
  }

  predicate WordNamed(atoms: seq<Atom>) {
    forall i | 0 <= i < |atoms| && atoms[i].Hole? :: IsWordName(atoms[i].name)
  }

  predicate IsWordName(name: string) {
    name != "" && forall j | 0 <= j < |name| :: IsWord(name[j])
  }

  lemma {:induction false} ScanWordNamed(s: string)
    ensures WordNamed(Scan(s))
  {
    if s != "" {
      match HoleAt(s)
      case Some(name) => ScanWordNamed(s[|name| + 4..]);
      case None => ScanWordNamed(s[1..]);
    }
  }

  lemma ScannedSettles(atoms: seq<Atom>, key: string)
    requires Scanned(atoms) && IsWordName(key)
    ensures Settled(atoms, key)
  {
    forall i | 0 <= i < |atoms| && atoms[i].Ch?
      ensures !(Quoted(key) <= Show(atoms[i..]))
    {
      if Quoted(key) <= Show(atoms[i..]) {
        HoleAtQuoted(key, Show(atoms[i..]));
        assert false;
      }
    }
  }

  /** With a blank in place of the hole `key`, whatever placeholder is at the front was there before. */
  lemma BlankHidesNothing(atoms: seq<Atom>, key: string, name: string)
    requires IsWordName(name)
    requires Quoted(name) <= Show(Fill(atoms, map[key := " "]))
    ensures Quoted(name) <= Show(atoms)
  {
    var p := CommonFront(atoms, key);
    QuotedNoBlank(name);
    AgreeUpTo(Quoted(name), Show(Fill(atoms, map[key := " "])), Show(atoms), p);
  }

  lemma QuotedNoBlank(name: string)
    requires IsWordName(name)
    ensures ' ' !in Quoted(name)
  {
    assert forall i | 0 <= i < |name| :: name[i] != ' ';
  }

  lemma AgreeUpTo(quoted: string, a: string, b: string, p: nat)
    requires quoted <= a && ' ' !in quoted
    requires p <= |a| && p <= |b| && a[..p] == b[..p] && (p < |a| ==> a[p] == ' ')
    ensures quoted <= b
  {
    assert forall i | 0 <= i < |quoted| :: quoted[i] != ' ' && quoted[i] == a[i];
    assert quoted == a[..p][..|quoted|] == b[..p][..|quoted|];
  }

  /** How far the text of a template and of its blanked version agree. */
  lemma {:induction false} CommonFront(atoms: seq<Atom>, key: string) returns (p: nat)
    ensures var filled := Show(Fill(atoms, map[key := " "]));
      && p <= |filled| && p <= |Show(atoms)| && filled[..p] == Show(atoms)[..p]
      && (p < |filled| ==> filled[p] == ' ')
  {
    var texts := map[key := " "];
    if atoms == [] {
      p := 0;
    } else {
      var head := FillAtom(atoms[0], texts);
      ShowConcat(head, Fill(atoms[1..], texts));
      if head == [atoms[0]] {
        var q := CommonFront(atoms[1..], key);
        var front := ShowAtom(atoms[0]);
        p := |front| + q;
        assert Show(head) == front by { ShowCons(atoms[0], []); }
        FrontExtends(front, Show(Fill(atoms[1..], texts)), Show(atoms[1..]), q);
      } else {
        p := 0;
        ShowChars(" ");
        assert head == Chars(" ");
      }
    }
  }

  lemma FrontExtends(front: string, a: string, b: string, q: nat)
    requires q <= |a| && q <= |b| && a[..q] == b[..q]
    ensures (front + a)[..|front| + q] == (front + b)[..|front| + q]
  {
    assert (front + a)[..|front| + q] == front + a[..q];
    assert (front + b)[..|front| + q] == front + b[..q];
  }

  lemma BlankInFront(atoms: seq<Atom>, key: string)
    requires atoms != [] && atoms[0] == Hole(key)
    ensures HoleAt(Show(Fill(atoms, map[key := " "]))).None?
  {
    var texts := map[key := " "];
    var filled := Show(Fill(atoms, texts));
    ShowConcat(Chars(" "), Fill(atoms[1..], texts));
    ShowChars(" ");
    assert filled[0] == ' ';
  }

  lemma BlankStartsNone(atoms: seq<Atom>, key: string)
    requires atoms != [] && (atoms[0].Ch? ==> HoleAt(Show(atoms)).None?)
    requires Fill(atoms, map[key := " "])[0].Ch?
    ensures HoleAt(Show(Fill(atoms, map[key := " "]))).None?
  {
    if atoms[0].Hole? {
      BlankInFront(atoms, key);
    } else {
      var found := HoleAt(Show(Fill(atoms, map[key := " "])));
      if found.Some? {
        BlankHidesNothing(atoms, key, found.value);
        HoleAtQuoted(found.value, Show(atoms));
      }
    }
  }

  lemma BlankKeepsScanned(atoms: seq<Atom>, key: string)
    requires Scanned(atoms)
    ensures Scanned(Fill(atoms, map[key := " "]))
  {
    var filled := Fill(atoms, map[key := " "]);
    BlankLength(atoms, key);
    forall i | 0 <= i < |filled| && filled[i].Ch?
      ensures HoleAt(Show(filled[i..])).None?
    {
      BlankSuffix(atoms, key, i);
      assert atoms[i..][0] == atoms[i] && filled[i..][0] == filled[i];
      BlankStartsNone(atoms[i..], key);
    }
  }

  /** A blank is one character, so blanking a hole moves no other atom. */
  lemma {:induction false} BlankLength(atoms: seq<Atom>, key: string)
    ensures |Fill(atoms, map[key := " "])| == |atoms|
  {
    if atoms != [] {
      BlankLength(atoms[1..], key);
    }
  }

  lemma BlankSuffix(atoms: seq<Atom>, key: string, i: nat)
    requires i <= |atoms|
    ensures |Fill(atoms, map[key := " "])| == |atoms|
    ensures Fill(atoms, map[key := " "])[i..] == Fill(atoms[i..], map[key := " "])
  {
    var texts := map[key := " "];
    assert atoms[..i] + atoms[i..] == atoms;
    FillConcat(atoms[..i], atoms[i..], texts);
    BlankLength(atoms, key);
    BlankLength(atoms[..i], key);
  }

  function Blanks(names: set<string>): map<string, string> {
    map n | n in names :: " "
  }

  lemma {:induction false} BlanksInAnyOrder(atoms: seq<Atom>, order: seq<string>, names: set<string>)
    requires Named(atoms) && Scanned(atoms)
    requires forall n | n in order :: n in names && IsWordName(n)
    ensures ReplaceInOrder(Show(atoms), order, Blanks(names))
         == Show(Fill(atoms, Blanks(set n | n in order)))
    decreases |order|
  {
    if order == [] {
      FillNothing(atoms);
      assert Blanks(set n | n in order) == map[];
    } else {
      var key, rest := order[0], order[1..];
      var one := map[key := " "];
      ScannedSettles(atoms, key);
      ReplaceFills(atoms, key, " ");
      FillNamed(atoms, one);
      BlankKeepsScanned(atoms, key);
      BlanksInAnyOrder(Fill(atoms, one), rest, names);
      FillTwice(atoms, one, Blanks(set n | n in rest));
      BlanksMore(order);
    }
  }

  lemma BlanksMore(order: seq<string>)
    requires order != []
    ensures Blanks(set n | n in order[1..]) + map[order[0] := " "] == Blanks(set n | n in order)
  {
    assert order == [order[0]] + order[1..];
  }

  /** An unsafe template fails on some perfectly plain inputs, whatever the order. */
  lemma UnsafeTemplateFails(arg: string, order: seq<string>)
    requires !TemplateSafe(arg)
    requires Enumerates(order, Holes(Scan(arg)))
    ensures !NoDouble(ReplaceInOrder(arg, order, Blanks(Holes(Scan(arg)))))
  {
    var atoms := Scan(arg);
    var names := Holes(atoms);
    var filled := Fill(atoms, Blanks(names));
    ScanShows(arg);
    ScanNamed(arg);
    ScanIsScanned(arg);
    ScanWordNamed(arg);
    BlanksInAnyOrder(atoms, order, names);
    assert (set n | n in order) == names;
    FillHoles(atoms, Blanks(names));
    assert Holes(filled) == {};
    NoHoles(filled);
    ShowPlain(filled);
    ClashIsDouble(Show(filled));
    if NoClash(filled) {
      FillKeepsClash(atoms, Blanks(names));
    }
  }

  /** Whatever order the map is walked in, the rendered argument passes the leftover-brace test. */
  ghost predicate RendersInEveryOrder(arg: string, texts: map<string, string>) {
    forall order | Enumerates(order, texts.Keys) :: NoDouble(ReplaceInOrder(arg, order, texts))
  }

  /** Every placeholder has an input, and its text is plain. */
  predicate CompleteAndPlain(arg: string, texts: map<string, string>) {
    && BracelessKeys(texts) && Holes(Scan(arg)) <= texts.Keys
    && forall h | h in Holes(Scan(arg)) :: PlainText(texts[h])
  }

  /** Rendering `arg` succeeds for every complete set of plain inputs and every order of replacement. */
  ghost predicate AlwaysRenders(arg: string) {
    forall texts: map<string, string> | CompleteAndPlain(arg, texts) :: RendersInEveryOrder(arg, texts)
  }

  lemma {:induction false} SomeOrder(keys: set<string>) returns (order: seq<string>)
    ensures Enumerates(order, keys)
  {
    if keys == {} {
      order := [];
    } else {
      var k :| k in keys;
      var rest := SomeOrder(keys - {k});
      order := [k] + rest;
      assert forall x | x in rest :: x in keys - {k};
      assert order[1..] == rest;
    }
  }

  /** The promise behind RequiredInputs, with its exact domain: supplying every placeholder of an
      argument is enough to render it if and only if the argument has no literal double brace. */
  lemma CompleteInputsRenderIffSafe(arg: string)
    ensures AlwaysRenders(arg) <==> TemplateSafe(arg)
  {
    if TemplateSafe(arg) {
      forall texts: map<string, string>, order: seq<string> |
        CompleteAndPlain(arg, texts) && Enumerates(order, texts.Keys)
        ensures NoDouble(ReplaceInOrder(arg, order, texts))
      {
        PlainFill(Scan(arg), texts);
        RenderedArg(arg, order, texts);
      }
    } else {
      var names := Holes(Scan(arg));
      var order := SomeOrder(names);
      ScanWordNamed(arg);
      UnsafeTemplateFails(arg, order);
      assert PlainText(" ");
      assert BracelessKeys(Blanks(names)) by {
        forall n | n in names ensures Braceless(n) {
          var i :| 0 <= i < |Scan(arg)| && Scan(arg)[i].Hole? && Scan(arg)[i].name == n;
          assert IsWordName(Scan(arg)[i].name);
        }
      }
      assert Enumerates(order, Blanks(names).Keys) && CompleteAndPlain(arg, Blanks(names));
    }
  }

  /** Outside that domain the order shows: in `{{{{a}}}}` the text put in for `a` completes another placeholder. */
  lemma OrderMatters()
    ensures var texts := map["a" := "b", "b" := "c"];
      && ReplaceInOrder("{{{{a}}}}", ["a", "b"], texts) == "c"
      && ReplaceInOrder("{{{{a}}}}", ["b", "a"], texts) == "{{b}}"
  {
    var texts := map["a" := "b", "b" := "c"];
    NestedA();
    NestedB();
    WholeReplaced("{{b}}", "c");
    QuotedLetters();
    TwoInOrder("{{{{a}}}}", "a", "b", texts);
    TwoInOrder("{{{{a}}}}", "b", "a", texts);
  }

  lemma QuotedLetters()
    ensures Quoted("a") == "{{a}}" && Quoted("b") == "{{b}}"
  {
  }

  lemma TwoInOrder(s: string, first: string, second: string, texts: map<string, string>)
    requires first in texts && second in texts
    ensures ReplaceInOrder(s, [first, second], texts)
      == ReplaceAll(ReplaceAll(s, Quoted(first), texts[first]), Quoted(second), texts[second])
  {
    var once := ReplaceAll(s, Quoted(first), texts[first]);
    assert [first, second][1..] == [second] && [second][1..] == [];
    assert ReplaceInOrder(once, [second], texts) == ReplaceInOrder(ReplaceAll(once, Quoted(second), texts[second]), [], texts);
  }

  lemma WholeReplaced(s: string, new_: string)
    requires s != ""
    ensures ReplaceAll(s, s, new_) == new_
  {
    assert s[|s|..] == "" && new_ + "" == new_;
  }

  lemma NestedA()
    ensures ReplaceAll("{{{{a}}}}", "{{a}}", "b") == "{{b}}"
  {
    var s2, s1, s0 := "{{a}}}}", "{{{a}}}}", "{{{{a}}}}";
    assert s2[5..] == "}}" && s1[1..] == s2 && s0[1..] == s1;
    ReplaceSkips("}}", "", "{{a}}", "b");
    assert "}}" + "" == "}}";
    assert ReplaceAll(s2, "{{a}}", "b") == "b}}";
    assert ReplaceAll(s1, "{{a}}", "b") == "{b}}" by {
      assert s1[2] != 'a';
    }
    assert s0[2] != 'a';
  }

  lemma NestedB()
    ensures ReplaceAll("{{{{a}}}}", "{{b}}", "c") == "{{{{a}}}}"
  {
    assert "{{b}}"[2] == 'b';
    AbsentKept("{{{{a}}}}", "{{b}}", 2, "c");
  }

  /** A text without one of the characters of `old_` has no occurrence of it. */
  lemma {:induction false} AbsentKept(s: string, old_: string, at: nat, new_: string)
    requires at < |old_| && old_[at] !in s
    ensures ReplaceAll(s, old_, new_) == s
  {
    if s != "" {
      AbsentKept(s[1..], old_, at, new_);
      assert [s[0]] + s[1..] == s;
      assert at < |s| ==> s[at] in s;
    }
  }
}
