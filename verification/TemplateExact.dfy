/** When one argument renders with given inputs, whatever the order of replacement.

    Input keys need not be words, so a replacement may also hit `{{…}}` that the placeholder pattern does not name.
    `ScanAny` finds all of these; on word keys the condition is again one about the placeholder scan. */
module TemplateExact {
  import opened Common
  import opened Text
  import opened Template

  // ---------------------------------------------------------------- scanning for any braceless name

  function BracelessRun(s: string): (n: nat)
    ensures n <= |s|
    ensures forall i | 0 <= i < n :: !IsBrace(s[i])
    ensures n < |s| ==> IsBrace(s[n])
  {
    if s != "" && !IsBrace(s[0]) then 1 + BracelessRun(s[1..]) else 0
  }

  /** The name between double braces at the very front of `s`. */
  function AnyHoleAt(s: string): (r: Option<string>)
    ensures r.Some? ==> Braceless(r.value) && Quoted(r.value) <= s
  {
    if "{{" <= s then
      var n := BracelessRun(s[2..]);
      if "}}" <= s[2 + n..] then Some(s[2..2 + n]) else None
    else None
  }

  function ScanAny(s: string): seq<Atom> {
    if s == "" then []
    else match AnyHoleAt(s)
      case Some(name) => [Hole(name)] + ScanAny(s[|name| + 4..])
      case None => [Ch(s[0])] + ScanAny(s[1..])
  }

  lemma BracelessRunOf(w: string, s: string)
    requires w <= s && Braceless(w) && |w| < |s| && IsBrace(s[|w|])
    ensures BracelessRun(s) == |w|
  {
    assert forall i | 0 <= i < |w| :: !IsBrace(s[i]);
  }

  lemma AnyHoleAtQuoted(name: string, s: string)
    requires Braceless(name) && Quoted(name) <= s
    ensures AnyHoleAt(s) == Some(name)
  {
    var q := Quoted(name);
    assert q[0] == s[0] && q[1] == s[1] && q[2 + |name|] == s[2 + |name|] && q[3 + |name|] == s[3 + |name|];
    assert forall i | 0 <= i < |name| :: s[2 + i] == q[2 + i] == name[i];
    assert s[2..][|name|] == '}';
    BracelessRunOf(name, s[2..]);
    assert s[2..2 + |name|] == name;
  }

  lemma {:induction false} ScanAnyShows(s: string)
    ensures Show(ScanAny(s)) == s && Named(ScanAny(s))
  {
    if s != "" {
      match AnyHoleAt(s)
      case Some(name) =>
        ScanAnyShows(s[|name| + 4..]);
        ShowCons(Hole(name), ScanAny(s[|name| + 4..]));
        PrefixThenRest(s, Quoted(name));
      case None =>
        ScanAnyShows(s[1..]);
        ShowCons(Ch(s[0]), ScanAny(s[1..]));
    }
  }

  /** No plain character of the template starts a double-braced name. */
  predicate Stable(atoms: seq<Atom>) {
    forall i | 0 <= i < |atoms| :: atoms[i].Ch? ==> AnyHoleAt(Show(atoms[i..])).None?
  }

  lemma {:induction false} ScanAnyStable(s: string)
    ensures Stable(ScanAny(s))
  {
    if s != "" {
      var atoms := ScanAny(s);
      ScanAnyShows(s);
      match AnyHoleAt(s)
      case Some(name) => ScanAnyStable(s[|name| + 4..]);
      case None => ScanAnyStable(s[1..]);
      forall i | 0 <= i < |atoms| && atoms[i].Ch? ensures AnyHoleAt(Show(atoms[i..])).None? {
        if i > 0 {
          assert atoms[i..] == atoms[1..][i - 1..];
        } else {
          assert atoms[0..] == atoms;
        }
      }
    }
  }

  /** A stable template is what scanning its text gives. */
  lemma {:induction false} StableRescans(atoms: seq<Atom>)
    requires Stable(atoms) && Named(atoms)
    ensures ScanAny(Show(atoms)) == atoms
  {
    if atoms != [] {
      var s, rest := Show(atoms), Show(atoms[1..]);
      StableTail(atoms);
      StableRescans(atoms[1..]);
      assert atoms == [atoms[0]] + atoms[1..];
      match atoms[0]
      case Ch(c) =>
        assert atoms[0..] == atoms;
        assert s[1..] == rest;
      case Hole(name) =>
        AnyHoleAtQuoted(name, s);
        assert s[|name| + 4..] == rest;
    }
  }

  lemma StableTail(atoms: seq<Atom>)
    requires atoms != [] && Stable(atoms)
    ensures Stable(atoms[1..])
  {
    forall i | 0 <= i < |atoms| - 1 && atoms[1..][i].Ch?
      ensures AnyHoleAt(Show(atoms[1..][i..])).None?
    {
      assert atoms[1..][i..] == atoms[i + 1..];
    }
  }

  lemma StablePart(left: seq<Atom>, part: seq<Atom>, right: seq<Atom>)
    requires Stable(left + part + right)
    ensures Stable(part)
  {
    forall i | 0 <= i < |part| && part[i].Ch?
      ensures AnyHoleAt(Show(part[i..])).None?
    {
      var all := left + part + right;
      assert all[|left| + i] == part[i] && all[|left| + i..] == part[i..] + right;
      NoHoleInFront(part[i..], right);
    }
  }

  lemma NoHoleInFront(front: seq<Atom>, right: seq<Atom>)
    requires AnyHoleAt(Show(front + right)).None?
    ensures AnyHoleAt(Show(front)).None?
  {
    ShowConcat(front, right);
    var found := AnyHoleAt(Show(front));
    if found.Some? {
      AnyHoleAtQuoted(found.value, Show(front) + Show(right));
    }
  }

  lemma StableSettles(atoms: seq<Atom>, key: string)
    requires Stable(atoms) && Braceless(key)
    ensures Settled(atoms, key)
  {
    forall i | 0 <= i < |atoms| && atoms[i].Ch?
      ensures !(Quoted(key) <= Show(atoms[i..]))
    {
      if Quoted(key) <= Show(atoms[i..]) {
        AnyHoleAtQuoted(key, Show(atoms[i..]));
        assert false;
      }
    }
  }

  /** One replacement, on any text whatever. */
  lemma ReplaceFillsAny(s: string, key: string, text: string)
    requires Braceless(key)
    ensures ReplaceAll(s, Quoted(key), text) == Show(Fill(ScanAny(s), map[key := text]))
  {
    ScanAnyShows(s);
    ScanAnyStable(s);
    StableSettles(ScanAny(s), key);
    ReplaceFills(ScanAny(s), key, text);
  }

  // ---------------------------------------------------------------- what scanning does at a seam

  /** No double-braced name starts in `a` and ends in `b`. */
  predicate Seam(a: string, b: string) {
    forall i | 0 <= i < |a| :: AnyHoleAt((a + b)[i..]).Some? ==> i + |AnyHoleAt((a + b)[i..]).value| + 4 <= |a|
  }

  lemma DropInFront(a: string, b: string, n: nat, i: nat)
    requires n + i <= |a|
    ensures (a[n..] + b)[i..] == (a + b)[n + i..]
  {
    assert a[n..][i..] == a[n + i..];
    assert (a[n..] + b)[i..] == a[n..][i..] + b;
    assert (a + b)[n + i..] == a[n + i..] + b;
  }

  lemma SeamLater(a: string, b: string, n: nat)
    requires Seam(a, b) && n <= |a|
    ensures Seam(a[n..], b)
  {
    forall i | 0 <= i < |a[n..]| && AnyHoleAt((a[n..] + b)[i..]).Some?
      ensures i + |AnyHoleAt((a[n..] + b)[i..]).value| + 4 <= |a[n..]|
    {
      DropInFront(a, b, n, i);
      assert n + i < |a| && AnyHoleAt((a + b)[n + i..]).Some?;
    }
  }

  function First(found: Option<string>, c: char): Atom {
    match found
    case Some(name) => Hole(name)
    case None => Ch(c)
  }

  function Width(found: Option<string>): nat {
    match found
    case Some(name) => |name| + 4
    case None => 1
  }

  lemma ScanStep(s: string, found: Option<string>)
    requires s != "" && AnyHoleAt(s) == found
    ensures Width(found) <= |s| && ScanAny(s) == [First(found, s[0])] + ScanAny(s[Width(found)..])
  {
  }

  lemma {:induction false} ScanAtSeam(a: string, b: string)
    requires Seam(a, b)
    ensures ScanAny(a + b) == ScanAny(a) + ScanAny(b)
    decreases |a|
  {
    if a == "" {
      assert a + b == b;
    } else {
      var found := AnyHoleAt(a + b);
      assert (a + b)[0..] == a + b;
      SameFirst(a, b, found);
      ScanStep(a, found);
      SeamLater(a, b, Width(found));
      ScanAtSeam(a[Width(found)..], b);
      WholeStep(a, b, found);
      Regroup([First(found, a[0])], ScanAny(a[Width(found)..]), ScanAny(b));
    }
  }

  lemma WholeStep(a: string, b: string, found: Option<string>)
    requires a != "" && AnyHoleAt(a + b) == found && Width(found) <= |a|
    ensures ScanAny(a + b) == [First(found, a[0])] + ScanAny(a[Width(found)..] + b)
  {
    ScanStep(a + b, found);
    assert (a + b)[Width(found)..] == a[Width(found)..] + b;
  }

  lemma SameFirst(a: string, b: string, found: Option<string>)
    requires a != "" && found == AnyHoleAt(a + b) && (found.Some? ==> |found.value| + 4 <= |a|)
    ensures AnyHoleAt(a) == found
  {
    if found.Some? {
      assert Quoted(found.value) <= a;
      AnyHoleAtQuoted(found.value, a);
    } else if AnyHoleAt(a).Some? {
      AnyHoleAtQuoted(AnyHoleAt(a).value, a + b);
    }
  }

  /** Only the first two characters of `{{name}}` open, only the last two close. */
  lemma QuotedBraces(name: string)
    requires Braceless(name)
    ensures var q := Quoted(name);
      && (forall j | 2 <= j < |q| :: q[j] != '{')
      && (forall j | 0 <= j < |q| - 2 :: q[j] != '}')
  {
    var q := Quoted(name);
    forall j | 2 <= j < |q| ensures q[j] != '{' {
      assert j < |q| - 2 ==> q[j] == name[j - 2] && !IsBrace(name[j - 2]);
    }
    forall j | 0 <= j < |q| - 2 ensures q[j] != '}' {
      assert j >= 2 ==> q[j] == name[j - 2] && !IsBrace(name[j - 2]);
    }
  }

  /** A double brace that opens a text cannot belong to a name begun before it, and one that closes a text cannot
      belong to a name that goes on. */
  lemma OpeningIsSeam(a: string, b: string)
    requires "{{" <= b
    ensures Seam(a, b)
  {
    forall i | 0 <= i < |a| && AnyHoleAt((a + b)[i..]).Some?
      ensures i + |AnyHoleAt((a + b)[i..]).value| + 4 <= |a|
    {
      var name := AnyHoleAt((a + b)[i..]).value;
      var t, q, k := (a + b)[i..], Quoted(name), |a| - i;
      QuotedBraces(name);
      assert t[k] == b[0] == '{' && t[k + 1] == b[1] == '{';
      assert q[2] == t[2] && (k < |q| ==> q[k] == t[k]);
    }
  }

  lemma ClosingIsSeam(a: string, b: string)
    requires |a| >= 2 && a[|a| - 2..] == "}}"
    ensures Seam(a, b)
  {
    forall i | 0 <= i < |a| && AnyHoleAt((a + b)[i..]).Some?
      ensures i + |AnyHoleAt((a + b)[i..]).value| + 4 <= |a|
    {
      var name := AnyHoleAt((a + b)[i..]).value;
      var t, q, k := (a + b)[i..], Quoted(name), |a| - i;
      QuotedBraces(name);
      assert a[|a| - 2] == a[|a| - 2..][0] == '}' && a[|a| - 1] == a[|a| - 2..][1] == '}';
      assert q[0] == t[0] == '{' && q[1] == t[1] == '{';
      assert k > 2 && t[k - 2] == '}' && (k - 2 < |q| ==> q[k - 2] == t[k - 2]);
    }
  }

  // ---------------------------------------------------------------- names a replacement spells out

  /** Plain characters of the template spell `{{name}}` at `at`. */
  predicate SpelledAt(atoms: seq<Atom>, at: nat, name: string) {
    at + |Quoted(name)| <= |atoms| && atoms[at..at + |Quoted(name)|] == Chars(Quoted(name))
  }

  lemma {:induction false} PlainFront(atoms: seq<Atom>, w: string)
    requires w <= Show(atoms) && '{' !in w
    ensures |w| <= |atoms| && atoms[..|w|] == Chars(w)
  {
    if w != "" {
      var rest := Show(atoms[1..]);
      assert Show(atoms)[0] == w[0] && w[0] in w;
      assert atoms[0] == Ch(w[0]);
      assert Show(atoms)[1..] == rest;
      assert w[1..] <= rest;
      PlainFront(atoms[1..], w[1..]);
      CharsCons(w[0], w[1..]);
      assert w == [w[0]] + w[1..];
      assert atoms[..|w|] == [atoms[0]] + atoms[1..][..|w| - 1];
    }
  }

  /** A text that opens with exactly two braces, from a template that opens with a plain character. */
  lemma SecondIsPlain(atoms: seq<Atom>, q: string)
    requires atoms != [] && atoms[0].Ch? && |q| > 2 && q <= Show(atoms)
    requires q[0] == q[1] == '{' && q[2] != '{'
    ensures |atoms| > 1 && atoms[0] == atoms[1] == Ch('{') && q[2..] <= Show(atoms[2..])
  {
    var s, rest := Show(atoms), atoms[1..];
    assert q[0] == s[0] && q[1] == s[1] && q[2] == s[2];
    assert s[1..] == Show(rest);
    assert rest != [] && rest[0] == Ch('{');
    assert Show(rest)[1..] == Show(rest[1..]);
    assert rest[1..] == atoms[2..] && s[1..][1..] == s[2..];
  }

  lemma QuotedTail(name: string)
    requires Braceless(name)
    ensures Quoted(name)[2..] == name + "}}" && '{' !in name + "}}"
  {
    var q, w := Quoted(name), name + "}}";
    QuotedBraces(name);
    assert q[2..] == w;
    assert forall j | 0 <= j < |w| :: w[j] == q[j + 2];
  }

  lemma NameSpelled(atoms: seq<Atom>, name: string)
    requires Braceless(name) && atoms != [] && atoms[0].Ch? && Quoted(name) <= Show(atoms)
    ensures SpelledAt(atoms, 0, name)
  {
    var q, w := Quoted(name), name + "}}";
    QuotedBraces(name);
    QuotedTail(name);
    SecondIsPlain(atoms, q);
    PlainFront(atoms[2..], w);
    SpelledByParts(atoms, q, w);
  }

  lemma SpelledByParts(atoms: seq<Atom>, q: string, w: string)
    requires |q| == 2 + |w| <= |atoms| && q[0] == q[1] == '{' && q[2..] == w
    requires atoms[0] == atoms[1] == Ch('{') && atoms[2..][..|w|] == Chars(w)
    ensures atoms[0..|q|] == Chars(q)
  {
    forall i | 0 <= i < |q| ensures atoms[i] == Ch(q[i]) {
      assert i >= 2 ==> atoms[2..][..|w|][i - 2] == atoms[i] && q[2..][i - 2] == q[i];
    }
  }

  lemma UnstableSpells(atoms: seq<Atom>) returns (at: nat, name: string)
    requires !Stable(atoms)
    ensures Braceless(name) && SpelledAt(atoms, at, name)
  {
    at :| at < |atoms| && atoms[at].Ch? && AnyHoleAt(Show(atoms[at..])).Some?;
    name := AnyHoleAt(Show(atoms[at..])).value;
    NameSpelled(atoms[at..], name);
    SpelledLater(atoms, at, name);
  }

  lemma SpelledLater(atoms: seq<Atom>, at: nat, name: string)
    requires at <= |atoms| && SpelledAt(atoms[at..], 0, name)
    ensures SpelledAt(atoms, at, name)
  {
    assert atoms[at..][0..0 + |Quoted(name)|] == atoms[at..at + |Quoted(name)|];
  }

  lemma SpelledIsHole(atoms: seq<Atom>, at: nat, name: string)
    requires Braceless(name) && SpelledAt(atoms, at, name)
    ensures name in Holes(ScanAny(Show(atoms)))
  {
    var q := Quoted(name);
    var left, right := atoms[..at], atoms[at + |q|..];
    assert atoms == left + (Chars(q) + right);
    ShowConcat(left, Chars(q) + right);
    ShowConcat(Chars(q), right);
    ShowChars(q);
    var tail := q + Show(right);
    assert "{{" <= tail && q <= tail;
    OpeningIsSeam(Show(left), tail);
    ScanAtSeam(Show(left), tail);
    AnyHoleAtQuoted(name, tail);
    ScanStep(tail, Some(name));
    assert ScanAny(tail)[0] == Hole(name);
    HolesConcat(ScanAny(Show(left)), ScanAny(tail));
  }

  // ---------------------------------------------------------------- the part of a template behind a stretch of its filling

  /** Every hole of the part is called `key`. */
  predicate OnlyKey(part: seq<Atom>, key: string) {
    forall i | 0 <= i < |part| :: part[i].Hole? ==> part[i].name == key
  }

  lemma {:induction false} FillOnly(part: seq<Atom>, key: string, a: map<string, string>, b: map<string, string>)
    requires OnlyKey(part, key)
    requires if key in a then key in b && a[key] == b[key] else key !in b
    ensures Fill(part, a) == Fill(part, b)
  {
    if part != [] {
      FillOnly(part[1..], key, a, b);
    }
  }

  lemma SplitFront<T>(a: seq<T>, b: seq<T>, c: seq<T>, d: seq<T>)
    requires a + b == c + d && |a| <= |c|
    ensures c == a + c[|a|..] && b == c[|a|..] + d
  {
    assert a == (a + b)[..|a|] == c[..|a|];
    assert b == (a + b)[|a|..] == (c + d)[|a|..];
  }

  lemma CoverMore(a: Atom, z: seq<Atom>, key: string, text: string, w: seq<Atom>, v: seq<Atom>)
    requires var head := FillAtom(a, map[key := text]);
      |head| <= |w| && AllPlain(w) && w == head + w[|head|..] && Fill(z, map[key := text]) == w[|head|..] + v
    requires OnlyKey(z, key)
    ensures Fill([a] + z, map[key := text]) == w + v && OnlyKey([a] + z, key)
  {
    var head := FillAtom(a, map[key := text]);
    FillCons(a, z, map[key := text]);
    Regroup(head, w[|head|..], v);
    assert head != [] ==> head[0] == w[0];
  }

  /** The shortest front of the template whose filling covers the front `w` of the whole filling. */
  lemma {:induction false} CoverFront(atoms: seq<Atom>, key: string, text: string, w: seq<Atom>, rest: seq<Atom>)
    returns (z: seq<Atom>, y: seq<Atom>, v: seq<Atom>)
    requires Fill(atoms, map[key := text]) == w + rest && AllPlain(w)
    ensures atoms == z + y && Fill(z, map[key := text]) == w + v && OnlyKey(z, key)
    ensures v != [] ==> z != [] && z[|z| - 1] == Hole(key)
  {
    if w == [] {
      z, y, v := [], atoms, [];
    } else {
      var one := map[key := text];
      var head, tail := FillAtom(atoms[0], one), Fill(atoms[1..], one);
      if |head| <= |w| {
        SplitFront(head, tail, w, rest);
        var z';
        z', y, v := CoverFront(atoms[1..], key, text, w[|head|..], rest);
        z := [atoms[0]] + z';
        Behind(atoms, [], z', y);
        CoverMore(atoms[0], z', key, text, w, v);
      } else {
        SplitFront(w, rest, head, tail);
        z, y, v := [atoms[0]], atoms[1..], head[|w|..];
        FillCons(atoms[0], [], one);
        assert head + [] == head;
      }
    }
  }

  /** The shortest part of the template whose filling covers the stretch `w` of the whole filling. */
  lemma {:induction false} Cover(
    atoms: seq<Atom>, key: string, text: string, p: seq<Atom>, w: seq<Atom>, rest: seq<Atom>)
    returns (x: seq<Atom>, z: seq<Atom>, y: seq<Atom>, u: seq<Atom>, v: seq<Atom>)
    requires Fill(atoms, map[key := text]) == p + w + rest && AllPlain(w) && w != []
    ensures atoms == x + z + y && Fill(z, map[key := text]) == u + w + v && OnlyKey(z, key) && z != []
    ensures u != [] ==> z[0] == Hole(key)
    ensures v != [] ==> z[|z| - 1] == Hole(key)
    decreases |atoms|
  {
    var head, tail := FillAtom(atoms[0], map[key := text]), Fill(atoms[1..], map[key := text]);
    Regroup(p, w, rest);
    if |head| <= |p| {
      SplitFront(head, tail, p, w + rest);
      Regroup(p[|head|..], w, rest);
      var x';
      x', z, y, u, v := Cover(atoms[1..], key, text, p[|head|..], w, rest);
      x := [atoms[0]] + x';
      Behind(atoms, x', z, y);
    } else {
      x, u := [], p;
      z, y, v := CoverHere(atoms, key, text, p, w, rest);
    }
  }

  lemma Behind(atoms: seq<Atom>, x: seq<Atom>, z: seq<Atom>, y: seq<Atom>)
    requires atoms != [] && atoms[1..] == x + z + y
    ensures atoms == ([atoms[0]] + x) + z + y
    ensures x == [] ==> atoms == ([atoms[0]] + z) + y
  {
  }

  /** The stretch begins within the filling of the first atom. */
  lemma CoverHere(atoms: seq<Atom>, key: string, text: string, p: seq<Atom>, w: seq<Atom>, rest: seq<Atom>)
    returns (z: seq<Atom>, y: seq<Atom>, v: seq<Atom>)
    requires atoms != [] && |p| < |FillAtom(atoms[0], map[key := text])|
    requires Fill(atoms, map[key := text]) == p + (w + rest) && AllPlain(w) && w != []
    ensures atoms == [] + z + y && Fill(z, map[key := text]) == p + w + v && OnlyKey(z, key) && z != []
    ensures p != [] ==> z[0] == Hole(key)
    ensures v != [] ==> z[|z| - 1] == Hole(key)
  {
    var head, tail := FillAtom(atoms[0], map[key := text]), Fill(atoms[1..], map[key := text]);
    SplitFront(p, w + rest, head, tail);
    assert AllPlain(p + w) by {
      assert forall i | 0 <= i < |p| :: p[i] == head[i];
    }
    Regroup(p, w, rest);
    z, y, v := CoverFront(atoms, key, text, p + w, rest);
    assert z[0] == atoms[0];
  }

  lemma OpensDouble(z: seq<Atom>, key: string, text: string, u: seq<Atom>, w: seq<Atom>, v: seq<Atom>)
    requires Fill(z, map[key := text]) == u + w + v && OnlyKey(z, key) && z != []
    requires u != [] ==> z[0] == Hole(key)
    requires |w| >= 2 && w[0] == w[1] == Ch('{')
    ensures "{{" <= Show(z)
  {
    if z[0].Ch? {
      var rest := Fill(z[1..], map[key := text]);
      assert [] + w == w;
      SplitFront([z[0]], rest, w, v);
      assert z[0] == w[0] && rest[0] == w[1];
      assert Show(z[1..])[0] == '{';
    }
  }

  lemma ClosesDouble(z: seq<Atom>, key: string, text: string, u: seq<Atom>, w: seq<Atom>, v: seq<Atom>)
    requires Fill(z, map[key := text]) == u + w + v && OnlyKey(z, key) && z != []
    requires v != [] ==> z[|z| - 1] == Hole(key)
    requires |w| >= 2 && w[|w| - 2] == w[|w| - 1] == Ch('}')
    ensures |Show(z)| >= 2 && Show(z)[|Show(z)| - 2..] == "}}"
  {
    var n, one := |z| - 1, map[key := text];
    if z[n].Ch? {
      FillLast(z, one);
      var front := Fill(z[..n], one);
      assert u + w + [] == u + w;
      SplitFront(u, w, front, [z[n]]);
      assert z[n] == w[|w| - 1] && front[|front| - 1] == w[|w| - 2];
      FillLast(z[..n], one);
    }
    ClosedShow(z);
  }

  lemma ClosedShow(z: seq<Atom>)
    requires z != []
    requires z[|z| - 1].Hole? || (z[|z| - 1] == Ch('}') && |z| > 1 && (z[|z| - 2].Hole? || z[|z| - 2] == Ch('}')))
    ensures |Show(z)| >= 2 && Show(z)[|Show(z)| - 2..] == "}}"
  {
    var front, last := z[..|z| - 1], z[|z| - 1];
    ShowLast(z);
    if last.Ch? {
      ShowLast(front);
      BracesAtEnd(Show(front[..|front| - 1]), front[|front| - 1]);
    } else {
      assert ShowAtom(last) == ("{{" + last.name) + "}}";
      EndsAppended(Show(front) + ("{{" + last.name), "}}");
      assert Show(z) == Show(front) + ("{{" + last.name) + "}}";
    }
  }

  lemma EndsAppended(s: string, end: string)
    ensures (s + end)[|s + end| - |end|..] == end
  {
  }

  lemma BracesAtEnd(s: string, a: Atom)
    requires a.Hole? || a == Ch('}')
    ensures var t := s + ShowAtom(a) + "}"; |t| >= 2 && t[|t| - 2..] == "}}"
  {
    var t, shown := s + ShowAtom(a) + "}", ShowAtom(a);
    assert shown[|shown| - 1] == '}';
    assert t[|t| - 2] == shown[|shown| - 1] && t[|t| - 1] == '}';
  }

  lemma ShowLast(z: seq<Atom>)
    requires z != []
    ensures Show(z) == Show(z[..|z| - 1]) + ShowAtom(z[|z| - 1])
  {
    var front, last := z[..|z| - 1], z[|z| - 1];
    assert z == front + [last];
    ShowConcat(front, [last]);
    ShowOne(last);
  }

  lemma ShowOne(a: Atom)
    ensures Show([a]) == ShowAtom(a)
  {
    assert ShowAtom(a) + "" == ShowAtom(a);
  }

  lemma FillLast(z: seq<Atom>, one: map<string, string>)
    requires z != []
    ensures Fill(z, one) == Fill(z[..|z| - 1], one) + FillAtom(z[|z| - 1], one)
  {
    assert z == z[..|z| - 1] + [z[|z| - 1]];
    FillConcat(z[..|z| - 1], [z[|z| - 1]], one);
    FillCons(z[|z| - 1], [], one);
  }

  // ---------------------------------------------------------------- the condition

  /** Simultaneous substitution fills every hole and leaves no two equal braces side by side. */
  predicate Good(atoms: seq<Atom>, texts: map<string, string>) {
    NoClash(Fill(atoms, texts)) && Holes(atoms) <= texts.Keys
  }

  /** Filling one key leaves the condition for the others. */
  lemma GoodLater(atoms: seq<Atom>, key: string, texts: map<string, string>)
    requires key in texts
    ensures Good(Fill(atoms, map[key := texts[key]]), texts - {key}) <==> Good(atoms, texts)
  {
    var one := map[key := texts[key]];
    FillTwice(atoms, one, texts - {key});
    assert (texts - {key}) + one == texts;
    FillHoles(atoms, one);
    assert one.Keys == {key} && (texts - {key}).Keys == texts.Keys - {key};
  }

  /** When the first replacement spells out no new name, the condition stays as good or bad as it was. */
  lemma StableStep(atoms: seq<Atom>, key: string, texts: map<string, string>)
    requires Named(atoms) && key in texts
    requires Stable(Fill(atoms, map[key := texts[key]]))
    ensures Good(ScanAny(Show(Fill(atoms, map[key := texts[key]]))), texts - {key}) <==> Good(atoms, texts)
  {
    var one := map[key := texts[key]];
    FillNamed(atoms, one);
    StableRescans(Fill(atoms, one));
    GoodLater(atoms, key, texts);
  }

  lemma ScanMiddle(a: string, b: string, c: string)
    requires "{{" <= b && |b| >= 2 && b[|b| - 2..] == "}}"
    ensures ScanAny(a + (b + c)) == ScanAny(a) + (ScanAny(b) + ScanAny(c))
  {
    assert "{{" <= b + c;
    OpeningIsSeam(a, b + c);
    ScanAtSeam(a, b + c);
    ClosingIsSeam(b, c);
    ScanAtSeam(b, c);
  }

  lemma ClashStays(a: seq<Atom>, u: seq<Atom>, q: string, v: seq<Atom>, c: seq<Atom>)
    requires |q| >= 2 && q[0] == q[1] == '{'
    ensures !NoClash(a + ((u + Chars(q) + v) + c))
  {
    assert Clash(Chars(q)[0], Chars(q)[1]);
    if NoClash(a + ((u + Chars(q) + v) + c)) {
      NoClashSplit(a, (u + Chars(q) + v) + c);
      NoClashSplit(u + Chars(q) + v, c);
      NoClashSplit(u + Chars(q), v);
      NoClashSplit(u, Chars(q));
    }
  }

  /** When replacing `key` spells out another name, the part `z` of the template behind that name keeps its place under
      the replacement of `name`, and still spells it out afterwards. */
  lemma SpelledStays(
    x: seq<Atom>, z: seq<Atom>, y: seq<Atom>, u: seq<Atom>, v: seq<Atom>,
    key: string, name: string, texts: map<string, string>)
    requires Stable(z) && Named(z) && OnlyKey(z, key) && z != []
    requires key in texts && name in texts && name != key && Braceless(name)
    requires Fill(z, map[key := texts[key]]) == u + Chars(Quoted(name)) + v
    requires (u != [] ==> z[0] == Hole(key)) && (v != [] ==> z[|z| - 1] == Hole(key))
    ensures !NoClash(Fill(ScanAny(Show(Fill(x + z + y, map[name := texts[name]]))), texts - {name}))
  {
    var q, one, later := Quoted(name), map[name := texts[name]], texts - {name};
    assert q[0] == q[1] == '{' && q[|q| - 2] == q[|q| - 1] == '}';
    ShownBetweenBraces(z, key, texts[key], u, Chars(q), v);
    StableRescans(z);
    FillOther(z, key, one);
    FillOnly(z, key, map[key := texts[key]], later);
    ShowParts(x, z, y, one);
    var left, right := Show(Fill(x, one)), Show(Fill(y, one));
    ScanMiddle(left, Show(z), right);
    FillParts(ScanAny(left), z, ScanAny(right), later);
    ClashStays(Fill(ScanAny(left), later), u, q, v, Fill(ScanAny(right), later));
  }

  lemma ShownBetweenBraces(z: seq<Atom>, key: string, text: string, u: seq<Atom>, w: seq<Atom>, v: seq<Atom>)
    requires Fill(z, map[key := text]) == u + w + v && OnlyKey(z, key) && z != []
    requires (u != [] ==> z[0] == Hole(key)) && (v != [] ==> z[|z| - 1] == Hole(key))
    requires |w| >= 2 && w[0] == w[1] == Ch('{') && w[|w| - 2] == w[|w| - 1] == Ch('}')
    ensures var s := Show(z); "{{" <= s && |s| >= 2 && s[|s| - 2..] == "}}"
  {
    OpensDouble(z, key, text, u, w, v);
    ClosesDouble(z, key, text, u, w, v);
  }

  lemma FillOther(z: seq<Atom>, key: string, texts: map<string, string>)
    requires OnlyKey(z, key) && key !in texts
    ensures Fill(z, texts) == z
  {
    FillOnly(z, key, texts, map[]);
    FillNothing(z);
  }

  lemma FillParts(a: seq<Atom>, b: seq<Atom>, c: seq<Atom>, texts: map<string, string>)
    ensures Fill(a + (b + c), texts) == Fill(a, texts) + (Fill(b, texts) + Fill(c, texts))
  {
    FillConcat(a, b + c, texts);
    FillConcat(b, c, texts);
  }

  lemma ShowParts(x: seq<Atom>, z: seq<Atom>, y: seq<Atom>, one: map<string, string>)
    requires Fill(z, one) == z
    ensures Show(Fill(x + z + y, one)) == Show(Fill(x, one)) + (Show(z) + Show(Fill(y, one)))
  {
    Regroup(x, z, y);
    FillParts(x, z, y, one);
    ShowConcat(Fill(x, one), z + Fill(y, one));
    ShowConcat(z, Fill(y, one));
  }

  lemma NamedPart(left: seq<Atom>, part: seq<Atom>, right: seq<Atom>)
    requires Named(left + part + right)
    ensures Named(part)
  {
    assert forall i | 0 <= i < |part| :: (left + part + right)[|left| + i] == part[i];
  }

  lemma InThree<T>(s: seq<T>, at: nat, w: seq<T>)
    requires at + |w| <= |s| && s[at..at + |w|] == w
    ensures s == s[..at] + w + s[at + |w|..]
  {
  }

  lemma SpelledPartner(atoms: seq<Atom>, key: string, name: string, at: nat, texts: map<string, string>)
    requires Stable(atoms) && Named(atoms)
    requires key in texts && name in texts && name != key && Braceless(name)
    requires SpelledAt(Fill(atoms, map[key := texts[key]]), at, name)
    ensures !NoClash(Fill(ScanAny(Show(Fill(atoms, map[name := texts[name]]))), texts - {name}))
  {
    var b, w := Fill(atoms, map[key := texts[key]]), Chars(Quoted(name));
    InThree(b, at, w);
    var x, z, y, u, v := Cover(atoms, key, texts[key], b[..at], w, b[at + |w|..]);
    StablePart(x, z, y);
    NamedPart(x, z, y);
    SpelledStays(x, z, y, u, v, key, name, texts);
  }

  /** Some key can be replaced first so that the condition fails again. */
  lemma FailingKey(s: string, texts: map<string, string>) returns (first: string)
    requires BracelessKeys(texts) && texts != map[] && !Good(ScanAny(s), texts)
    ensures first in texts && !Good(ScanAny(ReplaceAll(s, Quoted(first), texts[first])), texts - {first})
  {
    var atoms := ScanAny(s);
    var key :| key in texts;
    var b := Fill(atoms, map[key := texts[key]]);
    ScanAnyShows(s);
    ScanAnyStable(s);
    ReplaceFillsAny(s, key, texts[key]);
    first := key;
    if Stable(b) {
      StableStep(atoms, key, texts);
    } else {
      var at, name := UnstableSpells(b);
      if name in texts && name != key {
        first := name;
        ReplaceFillsAny(s, name, texts[name]);
        SpelledPartner(atoms, key, name, at, texts);
      } else {
        SpelledIsHole(b, at, name);
      }
    }
  }

  lemma {:induction false} SameTexts(s: string, order: seq<string>, a: map<string, string>, b: map<string, string>)
    requires forall k | k in order :: k in a && k in b && a[k] == b[k]
    ensures ReplaceInOrder(s, order, a) == ReplaceInOrder(s, order, b)
    decreases |order|
  {
    if order != [] {
      SameTexts(ReplaceAll(s, Quoted(order[0]), a[order[0]]), order[1..], a, b);
    }
  }

  lemma FirstThenRest(s: string, first: string, rest: seq<string>, texts: map<string, string>)
    requires first in texts && Enumerates(rest, (texts - {first}).Keys)
    ensures Enumerates([first] + rest, texts.Keys)
    ensures ReplaceInOrder(s, [first] + rest, texts)
      == ReplaceInOrder(ReplaceAll(s, Quoted(first), texts[first]), rest, texts - {first})
  {
    var order := [first] + rest;
    assert order[1..] == rest;
    assert forall k | k in rest :: k in texts - {first};
    SameTexts(ReplaceAll(s, Quoted(first), texts[first]), rest, texts, texts - {first});
    forall k | k in texts ensures k in order {
      assert k != first ==> k in texts - {first} && k in rest;
    }
  }

  lemma BadShowsDouble(atoms: seq<Atom>)
    requires !Good(atoms, map[])
    ensures !NoDouble(Show(atoms))
  {
    FillNothing(atoms);
    if Holes(atoms) == {} {
      NoHoles(atoms);
      ShowPlain(atoms);
      ClashIsDouble(Show(atoms));
    } else {
      HoleShowsDouble(atoms);
    }
  }

  lemma {:induction false} SomeOrderFails(s: string, texts: map<string, string>) returns (order: seq<string>)
    requires BracelessKeys(texts) && !Good(ScanAny(s), texts)
    ensures Enumerates(order, texts.Keys) && !NoDouble(ReplaceInOrder(s, order, texts))
    decreases |texts|
  {
    if texts == map[] {
      order := [];
      ScanAnyShows(s);
      BadShowsDouble(ScanAny(s));
    } else {
      var first := FailingKey(s, texts);
      assert |texts - {first}| < |texts| by {
        assert (texts - {first}).Keys == texts.Keys - {first};
      }
      var rest := SomeOrderFails(ReplaceAll(s, Quoted(first), texts[first]), texts - {first});
      FirstThenRest(s, first, rest, texts);
      order := [first] + rest;
    }
  }

  /** Exactly when an argument renders with given inputs in every order of replacement: simultaneous substitution of
      everything between double braces fills every hole and makes no double brace. */
  lemma RendersInEveryOrderIff(arg: string, texts: map<string, string>)
    requires BracelessKeys(texts)
    ensures RendersInEveryOrder(arg, texts) <==> Good(ScanAny(arg), texts)
  {
    var atoms := ScanAny(arg);
    ScanAnyShows(arg);
    if Good(atoms, texts) {
      forall order | Enumerates(order, texts.Keys) ensures NoDouble(ReplaceInOrder(arg, order, texts)) {
        RenderedAtoms(atoms, order, texts);
      }
    } else {
      var order := SomeOrderFails(arg, texts);
    }
  }

  // ---------------------------------------------------------------- word keys

  lemma HoleAtIff(s: string)
    ensures HoleAt(s) == if AnyHoleAt(s).Some? && IsWordName(AnyHoleAt(s).value) then AnyHoleAt(s) else None
  {
    if HoleAt(s).Some? {
      AnyHoleAtQuoted(HoleAt(s).value, s);
    } else if AnyHoleAt(s).Some? && IsWordName(AnyHoleAt(s).value) {
      HoleAtQuoted(AnyHoleAt(s).value, s);
    }
  }

  /** A double-braced name that is no word stays two plain braces for the placeholder scan. */
  lemma OddNameClashes(s: string)
    requires AnyHoleAt(s).Some? && !IsWordName(AnyHoleAt(s).value)
    ensures !NoClash(Scan(s))
  {
    var q := Quoted(AnyHoleAt(s).value);
    QuotedBraces(AnyHoleAt(s).value);
    assert q[0] == s[0] && q[1] == s[1] && q[2] == s[2];
    HoleAtIff(s);
    assert HoleAt(s[1..]).None? by {
      assert s[1..][1] == s[2] != '{';
    }
    assert Scan(s)[0] == Ch('{') && Scan(s)[1] == Scan(s[1..])[0] == Ch('{');
    assert Clash(Scan(s)[1 - 1], Scan(s)[1]);
  }

  /** Where every double-braced name is a word the two scans agree; elsewhere the placeholder scan has a clash. */
  lemma {:induction false} ScansAgreeOrClash(s: string)
    ensures if WordNamed(ScanAny(s)) then Scan(s) == ScanAny(s) else !NoClash(Scan(s))
  {
    if s != "" {
      HoleAtIff(s);
      var found := AnyHoleAt(s);
      if found.Some? && !IsWordName(found.value) {
        OddNameClashes(s);
        assert ScanAny(s)[0] == Hole(found.value);
      } else {
        var rest := s[Width(found)..];
        ScanStep(s, found);
        ScansAgreeOrClash(rest);
        AgreeOrClashCons(First(found, s[0]), ScanAny(rest), Scan(rest));
      }
    }
  }

  lemma AgreeOrClashCons(first: Atom, any: seq<Atom>, words: seq<Atom>)
    requires first.Hole? ==> IsWordName(first.name)
    requires if WordNamed(any) then words == any else !NoClash(words)
    ensures if WordNamed([first] + any) then [first] + words == [first] + any else !NoClash([first] + words)
  {
    if NoClash([first] + words) {
      NoClashSplit([first], words);
    }
    assert forall i | 0 <= i < |any| :: any[i] == ([first] + any)[i + 1];
    if WordNamed(any) {
      assert forall i | 0 < i < |[first] + any| :: ([first] + any)[i] == any[i - 1];
    }
  }

  /** On word keys the condition is one about the placeholders that RequiredInputs reports. */
  lemma WordKeysRenderIff(arg: string, texts: map<string, string>)
    requires forall k | k in texts :: IsWordName(k)
    ensures RendersInEveryOrder(arg, texts) <==> Good(Scan(arg), texts)
  {
    RendersInEveryOrderIff(arg, texts);
    ScansAgreeOrClash(arg);
    if !WordNamed(ScanAny(arg)) {
      var i :| 0 <= i < |ScanAny(arg)| && ScanAny(arg)[i].Hole? && !IsWordName(ScanAny(arg)[i].name);
      assert ScanAny(arg)[i].name in Holes(ScanAny(arg));
      if NoClash(Fill(Scan(arg), texts)) {
        FillKeepsClash(Scan(arg), texts);
      }
    }
  }

  /** A key that is no word can fill what the placeholder scan takes for literal braces. */
  lemma OddKeyRenders()
    ensures RendersInEveryOrder("{{a b}}", map["a b" := "x"])
    ensures !TemplateSafe("{{a b}}") && !Good(Scan("{{a b}}"), map["a b" := "x"])
  {
    var name, texts := "a b", map["a b" := "x"];
    assert Quoted(name) == "{{a b}}" && !IsWord(name[1]);
    AnyHoleAtQuoted(name, Quoted(name));
    OddNameClashes(Quoted(name));
    OneHole(Quoted(name), name);
    OneHoleFilled(name, texts);
    RendersInEveryOrderIff(Quoted(name), texts);
    if NoClash(Fill(Scan(Quoted(name)), texts)) {
      FillKeepsClash(Scan(Quoted(name)), texts);
    }
  }

  lemma OneHole(s: string, name: string)
    requires Braceless(name) && s == Quoted(name)
    ensures ScanAny(s) == [Hole(name)]
  {
    AnyHoleAtQuoted(name, s);
    ScanStep(s, Some(name));
    assert s[|name| + 4..] == "";
  }

  lemma OneHoleFilled(name: string, texts: map<string, string>)
    requires name in texts
    ensures Fill([Hole(name)], texts) == Chars(texts[name]) && Holes([Hole(name)]) == {name}
  {
    FillCons(Hole(name), [], texts);
    assert [Hole(name)][0] == Hole(name);
  }

  /** A safe template with every input there, which an input text alone makes fail. */
  lemma BraceTextFails()
    ensures TemplateSafe("{{a}}") && Holes(Scan("{{a}}")) == {"a"}
    ensures !RendersInEveryOrder("{{a}}", map["a" := "{{"])
  {
    var texts := map["a" := "{{"];
    assert Quoted("a") == "{{a}}" && IsWord('a');
    OneHole("{{a}}", "a");
    OneHoleFilled("a", texts);
    assert IsWordName("a");
    ScansAgreeOrClash("{{a}}");
    assert Clash(Chars("{{")[1 - 1], Chars("{{")[1]);
    RendersInEveryOrderIff("{{a}}", texts);
  }
}
