/** internal/check/predicate_text.go: how text checks cut a text into lines and columns. */
module Lines {
  import opened Common
  import opened Text

  const LF := "\n"
  const CRLF := "\r\n"

  /** strings.TrimRight with the cutset CR, LF. */
  function TrimLineEnds(s: string): (r: string)
    ensures r <= s
    ensures r != "" ==> r[|r| - 1] != '\r' && r[|r| - 1] != '\n'
  {
    if s != "" && (s[|s| - 1] == '\r' || s[|s| - 1] == '\n') then TrimLineEnds(s[..|s| - 1]) else s
  }

  /** strings.Split: leftmost, non-overlapping; between any two characters when the separator is empty. */
  function Split(s: string, sep: string): (r: seq<string>)
    ensures sep != "" ==> r != []
  {
    if sep == "" then seq(|s|, i requires 0 <= i < |s| => [s[i]])
    else if s == "" then [""]
    else if sep <= s then [""] + Split(s[|sep|..], sep)
    else
      var r := Split(s[1..], sep);
      [[s[0]] + r[0]] + r[1..]
  }

  function SplitLines(content: string): seq<string> {
    var trimmed := TrimLineEnds(content);
    if trimmed == "" then [] else Split(ReplaceAll(trimmed, CRLF, LF), LF)
  }

  predicate SameLines(got: string, want: string) {
    Join(SplitLines(got), LF) == Join(SplitLines(want), LF)
  }

  // ---------------------------------------------------------------- splitting and joining

  predicate Plain(line: string) {
    '\r' !in line && '\n' !in line
  }

  lemma {:induction false} SplitWhole(s: string, sep: string)
    requires sep != "" && sep[0] !in s
    ensures Split(s, sep) == [s]
  {
    if s != "" {
      SplitWhole(s[1..], sep);
      assert [s[0]] + s[1..] == s;
    }
  }

  lemma {:induction false} SplitFirst(front: string, sep: string, rest: string)
    requires sep != "" && sep[0] !in front
    ensures Split(front + sep + rest, sep) == [front] + Split(rest, sep)
  {
    if front == "" {
      assert front + sep + rest == sep + rest;
      SplitAtSep(sep, rest);
    } else {
      assert (front + sep + rest)[1..] == front[1..] + sep + rest && front[0] in front;
      SplitFirst(front[1..], sep, rest);
      SplitOn(front + sep + rest, sep);
      HeadGrows(front, Split(rest, sep));
    }
  }

  lemma SplitOn(s: string, sep: string)
    requires sep != "" && s != "" && s[0] != sep[0]
    ensures Split(s, sep) == [[s[0]] + Split(s[1..], sep)[0]] + Split(s[1..], sep)[1..]
  {
  }

  lemma HeadGrows(front: string, tail: seq<string>)
    requires front != ""
    ensures var parts := [front[1..]] + tail; [[front[0]] + parts[0]] + parts[1..] == [front] + tail
  {
    assert [front[0]] + front[1..] == front;
  }

  lemma SplitAtSep(sep: string, rest: string)
    requires sep != ""
    ensures Split(sep + rest, sep) == [""] + Split(rest, sep)
  {
    assert (sep + rest)[|sep|..] == rest;
  }

  /** Joining back what has no separator in it. */
  lemma {:induction false} SplitJoin(parts: seq<string>, sep: string)
    requires sep != "" && parts != [] && forall p | p in parts :: sep[0] !in p
    ensures Split(Join(parts, sep), sep) == parts
  {
    if |parts| == 1 {
      SplitWhole(parts[0], sep);
    } else {
      SplitJoin(parts[1..], sep);
      SplitFirst(parts[0], sep, Join(parts[1..], sep));
    }
  }

  lemma {:induction false} SplitLFFree(s: string)
    ensures forall p | p in Split(s, LF) :: '\n' !in p
  {
    if s == "" {
    } else if LF <= s {
      SplitLFFree(s[1..]);
    } else {
      SplitLFFree(s[1..]);
      var r := Split(s[1..], LF);
      assert r[0] in r;
      assert s[0] != '\n';
    }
  }

  lemma ReplacedNotEmpty(s: string)
    requires s != ""
    ensures ReplaceAll(s, CRLF, LF) != ""
  {
  }

  lemma {:induction false} SplitEmptyOnly(s: string)
    requires s != ""
    ensures Split(s, LF) != [""]
  {
    if !(LF <= s) {
      assert Split(s, LF)[0] != "";
    }
  }

  lemma LinesLFFree(content: string)
    ensures forall p | p in SplitLines(content) :: '\n' !in p
    ensures SplitLines(content) != [""]
  {
    var trimmed := TrimLineEnds(content);
    if trimmed != "" {
      ReplacedNotEmpty(trimmed);
      SplitLFFree(ReplaceAll(trimmed, CRLF, LF));
      SplitEmptyOnly(ReplaceAll(trimmed, CRLF, LF));
    }
  }

  lemma JoinEmpty(parts: seq<string>)
    requires Join(parts, LF) == "" && parts != [""]
    ensures parts == []
  {
  }

  /** For all texts: comparing joined lines compares the lines. */
  lemma SameLinesIff(got: string, want: string)
    ensures SameLines(got, want) <==> SplitLines(got) == SplitLines(want)
  {
    var a, b := SplitLines(got), SplitLines(want);
    LinesLFFree(got);
    LinesLFFree(want);
    if SameLines(got, want) {
      if a == [] {
        JoinEmpty(b);
      } else if b == [] {
        JoinEmpty(a);
      } else {
        SplitJoin(a, LF);
        SplitJoin(b, LF);
      }
    }
  }

  // ---------------------------------------------------------------- texts with any line ends

  /** A line with its end: CR LF or just LF. */
  datatype Line = Line(text: string, cr: bool)

  function End(cr: bool): string {
    if cr then CRLF else LF
  }

  /** Terminated lines followed by a last line without an end. */
  function Content(lines: seq<Line>, last: string): string {
    if lines == [] then last else lines[0].text + End(lines[0].cr) + Content(lines[1..], last)
  }

  predicate AllPlain(lines: seq<Line>) {
    forall l | l in lines :: Plain(l.text)
  }

  function Texts(lines: seq<Line>): (r: seq<string>)
    ensures |r| == |lines| && forall i | 0 <= i < |lines| :: r[i] == lines[i].text
  {
    seq(|lines|, i requires 0 <= i < |lines| => lines[i].text)
  }

  function DropTrailingEmpty(lines: seq<string>): seq<string> {
    if lines != [] && lines[|lines| - 1] == "" then DropTrailingEmpty(lines[..|lines| - 1]) else lines
  }

  lemma {:induction false} ContentSnoc(lines: seq<Line>)
    requires lines != []
    ensures var n := |lines| - 1; Content(lines, "") == Content(lines[..n], lines[n].text) + End(lines[n].cr)
  {
    var n := |lines| - 1;
    if n > 0 {
      ContentSnoc(lines[1..]);
      assert lines[..n][1..] == lines[1..][..n - 1];
      var head, rest := lines[0].text + End(lines[0].cr), Content(lines[..n][1..], lines[n].text);
      assert head + (rest + End(lines[n].cr)) == head + rest + End(lines[n].cr);
    } else {
      assert Content(lines[1..], "") == "";
    }
  }

  lemma TrimEnd(s: string, cr: bool)
    ensures TrimLineEnds(s + End(cr)) == TrimLineEnds(s)
  {
    if cr {
      assert (s + CRLF)[..|s| + 1] == s + "\r" && (s + "\r")[..|s|] == s;
    } else {
      assert (s + LF)[..|s|] == s;
    }
  }

  lemma {:induction false} ContentEnd(lines: seq<Line>, last: string)
    requires last != ""
    ensures Content(lines, last) != "" && Content(lines, last)[|Content(lines, last)| - 1] == last[|last| - 1]
  {
    if lines != [] {
      ContentEnd(lines[1..], last);
    }
  }

  /** Line ends become LF, and splitting at LF gives the lines back. */
  lemma {:induction false} ContentSplit(lines: seq<Line>, last: string)
    requires AllPlain(lines) && Plain(last)
    ensures Split(ReplaceAll(Content(lines, last), CRLF, LF), LF) == Texts(lines) + [last]
  {
    if lines == [] {
      ReplaceSkips(last, "", CRLF, LF);
      assert last + "" == last;
      SplitWhole(last, LF);
    } else {
      var text, rest := lines[0].text, Content(lines[1..], last);
      assert lines[0] in lines;
      EndReplaced(text, lines[0].cr, rest);
      ContentSplit(lines[1..], last);
      SplitFirst(text, LF, ReplaceAll(rest, CRLF, LF));
      assert Texts(lines) == [text] + Texts(lines[1..]);
    }
  }

  lemma EndReplaced(text: string, cr: bool, rest: string)
    requires Plain(text)
    ensures ReplaceAll(text + End(cr) + rest, CRLF, LF) == text + LF + ReplaceAll(rest, CRLF, LF)
  {
    if cr {
      assert text + CRLF + rest == text + (CRLF + rest);
      ReplaceSkips(text, CRLF + rest, CRLF, LF);
      assert (CRLF + rest)[2..] == rest;
    } else {
      ReplaceSkips(text + LF, rest, CRLF, LF);
    }
  }

  lemma OpenTextSplits(lines: seq<Line>, last: string)
    requires AllPlain(lines) && Plain(last) && last != ""
    ensures SplitLines(Content(lines, last)) == Texts(lines) + [last]
  {
    var content := Content(lines, last);
    ContentEnd(lines, last);
    assert last[|last| - 1] in last;
    assert TrimLineEnds(content) == content;
    ContentSplit(lines, last);
  }

  /** A text that ends in a line end splits like the text before that line end. */
  lemma LastEndIgnored(s: string, cr: bool)
    ensures SplitLines(s + End(cr)) == SplitLines(s)
  {
    TrimEnd(s, cr);
  }

  lemma LastEmptyDropped(lines: seq<Line>)
    requires lines != []
    ensures var n := |lines| - 1;
      DropTrailingEmpty(Texts(lines) + [""]) == DropTrailingEmpty(Texts(lines[..n]) + [lines[n].text])
  {
    var n := |lines| - 1;
    assert (Texts(lines) + [""])[..|lines|] == Texts(lines);
    assert Texts(lines) == Texts(lines[..n]) + [lines[n].text];
  }

  /** Whatever mixture of line ends a text uses, and however many empty lines it ends in, it splits into its lines
      without the empty ones at the end. */
  lemma {:induction false} TextSplitsIntoLines(lines: seq<Line>, last: string)
    requires AllPlain(lines) && Plain(last)
    ensures SplitLines(Content(lines, last)) == DropTrailingEmpty(Texts(lines) + [last])
  {
    if last != "" {
      OpenTextSplits(lines, last);
    } else if lines == [] {
      assert [""][..0] == [];
    } else {
      var n := |lines| - 1;
      ContentSnoc(lines);
      LastEndIgnored(Content(lines[..n], lines[n].text), lines[n].cr);
      LastEmptyDropped(lines);
      assert lines[n] in lines;
      TextSplitsIntoLines(lines[..n], lines[n].text);
    }
  }

  /** So two texts compare equal exactly when they have the same lines up to empty ones at the end: LF and CR LF are
      not told apart. */
  lemma LineEndsDoNotMatter(a: seq<Line>, lastA: string, b: seq<Line>, lastB: string)
    requires AllPlain(a) && Plain(lastA) && AllPlain(b) && Plain(lastB)
    ensures SameLines(Content(a, lastA), Content(b, lastB))
      <==> DropTrailingEmpty(Texts(a) + [lastA]) == DropTrailingEmpty(Texts(b) + [lastB])
  {
    TextSplitsIntoLines(a, lastA);
    TextSplitsIntoLines(b, lastB);
    SameLinesIff(Content(a, lastA), Content(b, lastB));
  }

  /** Joined text is such a text. */
  lemma {:induction false} JoinSplits(lines: seq<string>)
    requires forall l | l in lines :: Plain(l)
    ensures SplitLines(Join(lines, LF)) == DropTrailingEmpty(lines)
  {
    if lines != [] {
      var n := |lines| - 1;
      var ended := seq(n, i requires 0 <= i < n => Line(lines[i], false));
      assert Texts(ended) + [lines[n]] == lines;
      JoinIsContent(lines, ended);
      TextSplitsIntoLines(ended, lines[n]);
    }
  }

  lemma {:induction false} JoinIsContent(lines: seq<string>, ended: seq<Line>)
    requires lines != [] && |ended| == |lines| - 1
    requires forall i | 0 <= i < |ended| :: ended[i] == Line(lines[i], false)
    ensures Join(lines, LF) == Content(ended, lines[|lines| - 1])
  {
    if |lines| > 1 {
      JoinIsContent(lines[1..], ended[1..]);
    }
  }

  // ---------------------------------------------------------------- filters and columns

  function Containing(lines: seq<string>, pattern: string): seq<string> {
    if lines == [] then []
    else
      Containing(lines[..|lines| - 1], pattern)
        + if Contains(lines[|lines| - 1], pattern) then [lines[|lines| - 1]] else []
  }

  method FilterLines(content: string, pattern: string) returns (r: string)
    ensures r == Join(Containing(SplitLines(content), pattern), LF)
  {
    var lines, all := [], SplitLines(content);
    for k := 0 to |all|
      invariant lines == Containing(all[..k], pattern)
    {
      assert all[..k + 1][..k] == all[..k];
      if Contains(all[k], pattern) {
        lines := lines + [all[k]];
      }
    }
    assert all[..|all|] == all;
    return Join(lines, LF);
  }

  lemma {:induction false} ContainingExact(lines: seq<string>, pattern: string)
    ensures forall l :: l in Containing(lines, pattern) <==> l in lines && Contains(l, pattern)
  {
    if lines != [] {
      var n := |lines| - 1;
      assert lines == lines[..n] + [lines[n]];
      ContainingExact(lines[..n], pattern);
    }
  }

  predicate EndsInCR(line: string) {
    line != "" && line[|line| - 1] == '\r'
  }

  predicate HasCRLF(s: string) {
    exists i | 0 <= i < |s| - 1 :: s[i] == '\r' && s[i + 1] == '\n'
  }

  lemma CRLFInFront(s: string)
    ensures CRLF <= s <==> |s| > 1 && s[0] == '\r' && s[1] == '\n'
  {
  }

  lemma CRLFCons(s: string)
    requires s != ""
    ensures HasCRLF(s) <==> CRLF <= s || HasCRLF(s[1..])
  {
    CRLFInFront(s);
    if CRLF <= s {
      assert s[0] == '\r' && s[0 + 1] == '\n';
    }
    if HasCRLF(s[1..]) {
      var i :| 0 <= i < |s[1..]| - 1 && s[1..][i] == '\r' && s[1..][i + 1] == '\n';
      assert s[i + 1] == '\r' && s[i + 1 + 1] == '\n';
    }
    if HasCRLF(s) {
      var i :| 0 <= i < |s| - 1 && s[i] == '\r' && s[i + 1] == '\n';
      assert i > 0 ==> s[1..][i - 1] == '\r' && s[1..][i - 1 + 1] == '\n';
    }
  }

  /** Replacing line ends shortens a text exactly when it holds one, and changes nothing otherwise. */
  lemma {:induction false} ReplaceShortens(s: string)
    ensures HasCRLF(s) ==> |ReplaceAll(s, CRLF, LF)| < |s|
    ensures !HasCRLF(s) ==> ReplaceAll(s, CRLF, LF) == s
  {
    if s != "" {
      CRLFCons(s);
      if CRLF <= s {
        ReplaceShortens(s[2..]);
      } else {
        ReplaceShortens(s[1..]);
        assert [s[0]] + s[1..] == s;
      }
    }
  }

  lemma {:induction false} JoinSplit(s: string)
    ensures Join(Split(s, LF), LF) == s
  {
    if s != "" {
      if LF <= s {
        JoinSplit(s[1..]);
        assert ([""] + Split(s[1..], LF))[1..] == Split(s[1..], LF);
        assert "" + LF + s[1..] == s;
      } else {
        JoinSplit(s[1..]);
        var r := Split(s[1..], LF);
        JoinHead(s[0], r);
        assert [s[0]] + s[1..] == s;
      }
    }
  }

  lemma JoinHead(c: char, parts: seq<string>)
    requires parts != []
    ensures Join([[c] + parts[0]] + parts[1..], LF) == [c] + Join(parts, LF)
  {
    var more := [[c] + parts[0]] + parts[1..];
    assert more[1..] == parts[1..];
    if |parts| > 1 {
      assert [c] + parts[0] + LF + Join(parts[1..], LF) == [c] + (parts[0] + LF + Join(parts[1..], LF));
    }
  }

  predicate NoneEndsInCR(lines: seq<string>) {
    forall l | l in lines :: !EndsInCR(l)
  }

  lemma CRLFAcross(front: string, rest: string)
    requires '\n' !in front
    ensures HasCRLF(front + LF + rest) <==> EndsInCR(front) || HasCRLF(rest)
  {
    var s := front + LF + rest;
    var n := |front|;
    assert s[n] == '\n' && s[n + 1..] == rest && forall i | 0 <= i < n :: s[i] == front[i] && s[i] != '\n';
    if EndsInCR(front) {
      assert s[n - 1] == '\r' && s[n - 1 + 1] == '\n';
    }
    if HasCRLF(rest) {
      var i :| 0 <= i < |rest| - 1 && rest[i] == '\r' && rest[i + 1] == '\n';
      assert s[n + 1 + i] == '\r' && s[n + 1 + i + 1] == '\n';
    }
    if HasCRLF(s) {
      var i :| 0 <= i < |s| - 1 && s[i] == '\r' && s[i + 1] == '\n';
      assert i > n ==> rest[i - n - 1] == '\r' && rest[i - n - 1 + 1] == '\n';
    }
  }

  /** A CR LF arises in joined lines exactly where a line other than the last ends in a CR. */
  lemma {:induction false} JoinedCRLF(lines: seq<string>)
    requires lines != [] && forall l | l in lines :: '\n' !in l
    ensures HasCRLF(Join(lines, LF)) <==> !NoneEndsInCR(lines[..|lines| - 1])
  {
    if |lines| > 1 {
      var n := |lines| - 1;
      JoinedCRLF(lines[1..]);
      CRLFAcross(lines[0], Join(lines[1..], LF));
      assert lines[..n] == [lines[0]] + lines[1..][..n - 1];
    } else {
      NoLFNoCRLF(lines[0]);
    }
  }

  lemma NoLFNoCRLF(s: string)
    requires '\n' !in s
    ensures !HasCRLF(s)
  {
    assert forall i | 0 <= i < |s| :: s[i] != '\n';
  }

  lemma {:induction false} JoinEnd(lines: seq<string>)
    requires lines != []
    ensures var last, s := lines[|lines| - 1], Join(lines, LF);
      if last != "" then s != "" && s[|s| - 1] == last[|last| - 1]
      else s == "" || s[|s| - 1] == '\n'
  {
    if |lines| > 1 {
      JoinEnd(lines[1..]);
    }
  }

  /** Neither the trimming nor the replacement touches these joined lines. */
  lemma JoinedUntouched(lines: seq<string>)
    requires lines != [] && forall l | l in lines :: '\n' !in l
    requires NoneEndsInCR(lines) && lines[|lines| - 1] != ""
    ensures TrimLineEnds(Join(lines, LF)) == Join(lines, LF) && !HasCRLF(Join(lines, LF))
  {
    EndUntouched(lines);
    assert forall l | l in lines[..|lines| - 1] :: l in lines;
    JoinedCRLF(lines);
  }

  lemma EndUntouched(lines: seq<string>)
    requires lines != [] && forall l | l in lines :: '\n' !in l
    requires NoneEndsInCR(lines) && lines[|lines| - 1] != ""
    ensures TrimLineEnds(Join(lines, LF)) == Join(lines, LF)
  {
    var last := lines[|lines| - 1];
    assert last in lines && last[|last| - 1] in last;
    JoinEnd(lines);
    NoTrimIff(Join(lines, LF));
  }

  lemma SurvivorsSplit(lines: seq<string>)
    requires lines != [] && forall l | l in lines :: '\n' !in l
    requires NoneEndsInCR(lines) && lines[|lines| - 1] != ""
    ensures SplitLines(Join(lines, LF)) == lines
  {
    JoinedUntouched(lines);
    ReplaceShortens(Join(lines, LF));
    SplitJoin(lines, LF);
  }

  lemma SplitSurvived(lines: seq<string>)
    requires lines != [] && (forall l | l in lines :: '\n' !in l) && SplitLines(Join(lines, LF)) == lines
    ensures NoneEndsInCR(lines) && lines[|lines| - 1] != ""
  {
    var joined := Join(lines, LF);
    NothingLost(joined, TrimLineEnds(joined));
    NoLineEndLeft(lines);
    NoneInAll(lines);
  }

  lemma NoLineEndLeft(lines: seq<string>)
    requires lines != [] && (forall l | l in lines :: '\n' !in l)
    requires var s := Join(lines, LF); s != "" && s[|s| - 1] != '\r' && s[|s| - 1] != '\n' && !HasCRLF(s)
    ensures lines[|lines| - 1] != "" && !EndsInCR(lines[|lines| - 1]) && NoneEndsInCR(lines[..|lines| - 1])
  {
    JoinEnd(lines);
    JoinedCRLF(lines);
  }

  lemma NoneInAll(lines: seq<string>)
    requires lines != [] && !EndsInCR(lines[|lines| - 1]) && NoneEndsInCR(lines[..|lines| - 1])
    ensures NoneEndsInCR(lines)
  {
    assert lines == lines[..|lines| - 1] + [lines[|lines| - 1]];
  }

  lemma NothingLost(joined: string, trimmed: string)
    requires trimmed == TrimLineEnds(joined) && trimmed != ""
    requires Join(Split(ReplaceAll(trimmed, CRLF, LF), LF), LF) == joined
    ensures trimmed == joined && !HasCRLF(joined)
  {
    JoinSplit(ReplaceAll(trimmed, CRLF, LF));
    ReplaceShortens(trimmed);
    assert |trimmed| == |joined|;
  }

  /** Exactly which lists of lines survive being joined and split again: those without an empty line at the end and
      without a line that ends in a CR. */
  lemma JoinSplitsIff(lines: seq<string>)
    requires forall l | l in lines :: '\n' !in l
    ensures SplitLines(Join(lines, LF)) == lines <==> NoneEndsInCR(lines) && (lines != [] ==> lines[|lines| - 1] != "")
  {
    if lines != [] {
      if SplitLines(Join(lines, LF)) == lines {
        SplitSurvived(lines);
      }
      if NoneEndsInCR(lines) && lines[|lines| - 1] != "" {
        SurvivorsSplit(lines);
      }
    }
  }

  lemma NoTrimIff(s: string)
    ensures |TrimLineEnds(s)| == |s| <==> s == "" || (s[|s| - 1] != '\r' && s[|s| - 1] != '\n')
  {
  }

  /** With the empty pattern every line matches. */
  lemma {:induction false} AllContainEmpty(lines: seq<string>)
    ensures Containing(lines, "") == lines
  {
    if lines != [] {
      AllContainEmpty(lines[..|lines| - 1]);
      assert "" <= lines[|lines| - 1][0..];
    }
  }

  /** For every text and pattern: filtered text splits into exactly the matching lines if and only if none of them
      ends in a CR. */
  lemma FilteredLinesIff(content: string, pattern: string)
    ensures var matching := Containing(SplitLines(content), pattern);
      SplitLines(Join(matching, LF)) == matching <==> NoneEndsInCR(matching)
  {
    var lines := SplitLines(content);
    var matching := Containing(lines, pattern);
    LinesLFFree(content);
    ContainingExact(lines, pattern);
    JoinSplitsIff(matching);
    if matching != [] {
      assert matching[|matching| - 1] in matching;
      if pattern == "" {
        AllContainEmpty(lines);
        LastLineNotEmpty(content);
      } else {
        assert !Contains("", pattern);
      }
    }
  }

  lemma LastLineNotEmpty(content: string)
    requires SplitLines(content) != []
    ensures SplitLines(content)[|SplitLines(content)| - 1] != ""
  {
    var replaced := ReplaceAll(TrimLineEnds(content), CRLF, LF);
    ReplacedEnd(TrimLineEnds(content));
    JoinSplit(replaced);
    JoinEnd(SplitLines(content));
  }

  lemma {:induction false} ReplacedEnd(s: string)
    requires s != "" && s[|s| - 1] != '\n'
    ensures var r := ReplaceAll(s, CRLF, LF); r != "" && r[|r| - 1] == s[|s| - 1]
  {
    if CRLF <= s {
      ReplacedEnd(s[2..]);
    } else if |s| > 1 {
      ReplacedEnd(s[1..]);
    } else {
      assert ReplaceAll(s[1..], CRLF, LF) == "";
    }
  }

  /** The witness: a CR at the end of a line joins with the LF that is put after it. */
  lemma FilteredLinesWithCR()
    ensures var lines := ["a\r", "a"];
      && SplitLines("a\r\r\na") == lines && Containing(lines, "a") == lines
      && !NoneEndsInCR(lines) && SplitLines(Join(lines, LF)) != lines
  {
    CRText();
    CRJoined();
    assert Contains("a\r", "a") by {
      assert "a" <= "a\r"[0..];
    }
    assert Contains("a", "a") by {
      assert "a" <= "a"[0..];
    }
    var lines := ["a\r", "a"];
    assert lines[..1] == ["a\r"] && lines[..1][..0] == [];
    assert EndsInCR(lines[0]) && lines[0] in lines;
  }

  lemma CRText()
    ensures SplitLines("a\r\r\na") == ["a\r", "a"]
  {
    CRReplaced();
    SplitFirst("a\r", LF, "a");
    SplitWhole("a", LF);
    assert "a\r" + LF + "a" == "a\r\na";
  }

  lemma CRReplaced()
    ensures ReplaceAll("a\r\r\na", CRLF, LF) == "a\r\na"
  {
    EndReplaced("", true, "a");
    ReplaceSkips("a", "", CRLF, LF);
    assert "a" + "" == "a" && "" + CRLF + "a" == "\r\na" && "" + LF + "a" == "\na";
    assert "\r\r\na"[1..] == "\r\na" && ['\r'] + "\na" == "\r\na";
    ReplaceSkips("a", "\r\r\na", CRLF, LF);
    assert "a" + "\r\r\na" == "a\r\r\na" && "a" + "\r\na" == "a\r\na";
  }

  lemma CRJoined()
    ensures SplitLines(Join(["a\r", "a"], LF)) == ["a", "a"]
  {
    TextSplitsIntoLines([Line("a", true)], "a");
    assert Content([Line("a", true)][1..], "a") == "a";
    assert Join(["a\r", "a"], LF) == "a\r" + LF + Join(["a\r", "a"][1..], LF);
    assert "a" + CRLF + "a" == "a\r" + LF + "a";
  }

  function Cells(lines: seq<string>, delimiter: string, column: nat): seq<string> {
    if lines == [] then []
    else
      var parts := Split(lines[|lines| - 1], delimiter);
      Cells(lines[..|lines| - 1], delimiter, column) + if column < |parts| then [parts[column]] else []
  }

  /** `at` lists the positions below `n` that are to be kept, all of them and in order. */
  predicate Positions(at: seq<nat>, n: nat, keep: nat -> bool) {
    && (forall k, l | 0 <= k < l < |at| :: at[k] < at[l])
    && (forall k | 0 <= k < |at| :: at[k] < n && keep(at[k]))
    && (forall i: nat | i < n && keep(i) :: i in at)
  }

  /** What is kept, in order: at each of these positions the value found there. */
  predicate Gathered(values: seq<string>, at: seq<nat>, n: nat, keep: nat -> bool, value: nat -> string) {
    Positions(at, n, keep) && |values| == |at| && forall k | 0 <= k < |at| :: values[k] == value(at[k])
  }

  lemma GatheredMore(values: seq<string>, at: seq<nat>, n: nat, keep: nat -> bool, value: nat -> string)
    requires Gathered(values, at, n, keep, value)
    ensures keep(n) ==> Gathered(values + [value(n)], at + [n], n + 1, keep, value)
    ensures !keep(n) ==> Gathered(values, at, n + 1, keep, value)
  {
    if keep(n) {
      forall i: nat | i < n + 1 && keep(i) ensures i in at + [n] {
        assert i < n ==> i in at;
        assert (at + [n])[|at|] == n;
      }
    }
  }

  function HasColumn(lines: seq<string>, delimiter: string, column: nat): nat -> bool {
    (i: nat) => i < |lines| && column < |Split(lines[i], delimiter)|
  }

  function CellAt(lines: seq<string>, delimiter: string, column: nat): nat -> string {
    (i: nat) => if i < |lines| && column < |Split(lines[i], delimiter)| then Split(lines[i], delimiter)[column] else ""
  }

  /** The cells of a column: one for each line long enough to have it, in order, and for no other. */
  lemma {:induction false} CellsExact(lines: seq<string>, delimiter: string, column: nat, n: nat := |lines|)
    returns (at: seq<nat>)
    requires n <= |lines|
    ensures Gathered(Cells(lines[..n], delimiter, column), at, n,
      HasColumn(lines, delimiter, column), CellAt(lines, delimiter, column))
  {
    if n == 0 {
      at := [];
    } else {
      var before := CellsExact(lines, delimiter, column, n - 1);
      at := CellsNext(lines, delimiter, column, n - 1, before);
    }
  }

  lemma CellsNext(lines: seq<string>, delimiter: string, column: nat, n: nat, before: seq<nat>) returns (at: seq<nat>)
    requires n < |lines|
    requires Gathered(Cells(lines[..n], delimiter, column), before, n,
      HasColumn(lines, delimiter, column), CellAt(lines, delimiter, column))
    ensures Gathered(Cells(lines[..n + 1], delimiter, column), at, n + 1,
      HasColumn(lines, delimiter, column), CellAt(lines, delimiter, column))
  {
    var keep, value := HasColumn(lines, delimiter, column), CellAt(lines, delimiter, column);
    var cells := Cells(lines[..n], delimiter, column);
    GatheredMore(cells, before, n, keep, value);
    CellsMore(lines, delimiter, column, n);
    at := if keep(n) then before + [n] else before;
    assert cells + [] == cells;
  }

  lemma CellsMore(lines: seq<string>, delimiter: string, column: nat, n: nat)
    requires n < |lines|
    ensures Cells(lines[..n + 1], delimiter, column) == Cells(lines[..n], delimiter, column)
      + if HasColumn(lines, delimiter, column)(n) then [CellAt(lines, delimiter, column)(n)] else []
  {
    assert lines[..n + 1][..n] == lines[..n];
  }

  function HasPattern(lines: seq<string>, pattern: string): nat -> bool {
    (i: nat) => i < |lines| && Contains(lines[i], pattern)
  }

  function LineAt(lines: seq<string>): nat -> string {
    (i: nat) => if i < |lines| then lines[i] else ""
  }

  /** The lines a filter keeps: all that contain the pattern, in order, and no other. */
  lemma {:induction false} ContainingInOrder(lines: seq<string>, pattern: string, n: nat := |lines|) returns (at: seq<nat>)
    requires n <= |lines|
    ensures Gathered(Containing(lines[..n], pattern), at, n, HasPattern(lines, pattern), LineAt(lines))
  {
    if n == 0 {
      at := [];
    } else {
      var keep := HasPattern(lines, pattern);
      var before := ContainingInOrder(lines, pattern, n - 1);
      GatheredMore(Containing(lines[..n - 1], pattern), before, n - 1, keep, LineAt(lines));
      ContainingMore(lines, pattern, n - 1);
      at := if keep(n - 1) then before + [n - 1] else before;
    }
  }

  lemma ContainingMore(lines: seq<string>, pattern: string, n: nat)
    requires n < |lines|
    ensures Containing(lines[..n + 1], pattern)
      == Containing(lines[..n], pattern) + if HasPattern(lines, pattern)(n) then [LineAt(lines)(n)] else []
  {
    assert lines[..n + 1][..n] == lines[..n];
  }

  function ColumnByIndex(content: string, delimiter: string, column: nat): string
    requires column >= 1
  {
    Join(Cells(SplitLines(content), delimiter, column - 1), LF)
  }

  method DelimitedColumnByIndex(content: string, delimiter: string, column: nat) returns (r: string)
    requires column >= 1
    ensures r == ColumnByIndex(content, delimiter, column)
  {
    var values := CollectCells(SplitLines(content), delimiter, column - 1);
    return Join(values, LF);
  }

  method CollectCells(lines: seq<string>, delimiter: string, column: nat) returns (values: seq<string>)
    ensures values == Cells(lines, delimiter, column)
  {
    values := [];
    for k := 0 to |lines|
      invariant values == Cells(lines[..k], delimiter, column)
    {
      assert lines[..k + 1][..k] == lines[..k];
      var parts := Split(lines[k], delimiter);
      if column < |parts| {
        values := values + [parts[column]];
      }
    }
    assert lines[..|lines|] == lines;
  }

  predicate FirstTitled(headers: seq<string>, header: string, at: nat) {
    && at < |headers| && TrimSpace(headers[at]) == header
    && forall i | 0 <= i < at :: TrimSpace(headers[i]) != header
  }

  datatype ColumnError = EmptySource | MissingHeader

  /** The first header whose trimmed text is the wanted one. */
  function HeaderAt(headers: seq<string>, header: string): Option<nat> {
    if headers == [] then None
    else
      var n := |headers| - 1;
      var before := HeaderAt(headers[..n], header);
      if before.None? && TrimSpace(headers[n]) == header then Some(n) else before
  }

  lemma {:induction false} HeaderAtFirst(headers: seq<string>, header: string)
    ensures HeaderAt(headers, header).Some? ==> FirstTitled(headers, header, HeaderAt(headers, header).value)
    ensures HeaderAt(headers, header).None? ==> forall h | h in headers :: TrimSpace(h) != header
  {
    if headers != [] {
      var n := |headers| - 1;
      HeaderAtFirst(headers[..n], header);
      assert headers == headers[..n] + [headers[n]];
      assert forall i | 0 <= i < n :: headers[..n][i] == headers[i] && headers[i] in headers[..n];
    }
  }

  function ColumnByHeader(content: string, delimiter: string, header: string): Result<string, ColumnError> {
    var lines := SplitLines(content);
    if lines == [] then Err(EmptySource)
    else match HeaderAt(Split(lines[0], delimiter), header)
      case None => Err(MissingHeader)
      case Some(at) => Ok(Join(Cells(lines[1..], delimiter, at), LF))
  }

  method DelimitedColumnByHeader(content: string, delimiter: string, header: string) returns (r: Result<string, ColumnError>)
    ensures r == ColumnByHeader(content, delimiter, header)
    ensures r == Err(EmptySource) <==> SplitLines(content) == []
    ensures r == Err(MissingHeader) <==>
      SplitLines(content) != [] && forall h | h in Split(SplitLines(content)[0], delimiter) :: TrimSpace(h) != header
  {
    var lines := SplitLines(content);
    if lines == [] {
      return Err(EmptySource);
    }
    HeaderAtFirst(Split(lines[0], delimiter), header);
    var at := FindHeader(Split(lines[0], delimiter), header);
    if at.None? {
      return Err(MissingHeader);
    }
    var values := CollectCells(lines[1..], delimiter, at.value);
    return Ok(Join(values, LF));
  }

  method FindHeader(headers: seq<string>, header: string) returns (at: Option<nat>)
    ensures at == HeaderAt(headers, header)
  {
    for index := 0 to |headers|
      invariant HeaderAt(headers[..index], header) == None
    {
      HeaderStep(headers, header, index);
      if TrimSpace(headers[index]) == header {
        return Some(index);
      }
    }
    assert headers[..|headers|] == headers;
    return None;
  }

  lemma HeaderStep(headers: seq<string>, header: string, index: nat)
    requires index < |headers| && HeaderAt(headers[..index], header) == None
    ensures if TrimSpace(headers[index]) == header then HeaderAt(headers, header) == Some(index)
      else HeaderAt(headers[..index + 1], header) == None
  {
    assert headers[..index + 1][..index] == headers[..index];
    HeaderAtFront(headers, header, index + 1);
  }

  lemma {:induction false} HeaderAtFront(headers: seq<string>, header: string, n: nat)
    requires n <= |headers|
    ensures HeaderAt(headers[..n], header).Some? ==> HeaderAt(headers, header) == HeaderAt(headers[..n], header)
    decreases |headers|
  {
    if n < |headers| {
      assert headers[..|headers| - 1][..n] == headers[..n];
      HeaderAtFront(headers[..|headers| - 1], header, n);
    } else {
      assert headers[..n] == headers;
    }
  }

  /** When a header's first trimmed match is in a column, extraction by that header's name succeeds, and extraction by
      the column's number gives the header cell followed by what extraction by name gives. */
  lemma ColumnByIndexAndHeader(content: string, delimiter: string, header: string, column: nat)
    requires SplitLines(content) != [] && FirstTitled(Split(SplitLines(content)[0], delimiter), header, column)
    ensures var lines := SplitLines(content);
      var title, cells := Split(lines[0], delimiter)[column], Cells(lines[1..], delimiter, column);
      && ColumnByHeader(content, delimiter, header) == Ok(Join(cells, LF))
      && ColumnByIndex(content, delimiter, column + 1)
           == if cells == [] then title else title + LF + ColumnByHeader(content, delimiter, header).value
  {
    var lines := SplitLines(content);
    var title, cells := Split(lines[0], delimiter)[column], Cells(lines[1..], delimiter, column);
    HeaderFound(Split(lines[0], delimiter), header, column);
    TitleFirst(lines, delimiter, column);
    assert ([title] + cells)[1..] == cells;
  }

  lemma HeaderFound(headers: seq<string>, header: string, column: nat)
    requires FirstTitled(headers, header, column)
    ensures HeaderAt(headers, header) == Some(column)
  {
    HeaderAtFirst(headers, header);
    assert headers[column] in headers;
  }

  lemma TitleFirst(lines: seq<string>, delimiter: string, column: nat)
    requires lines != [] && column < |Split(lines[0], delimiter)|
    ensures Cells(lines, delimiter, column) == [Split(lines[0], delimiter)[column]] + Cells(lines[1..], delimiter, column)
  {
    CellsCons(lines, delimiter, column);
    CellsOne(lines[0], delimiter, column);
  }

  lemma CellsOne(line: string, delimiter: string, column: nat)
    requires column < |Split(line, delimiter)|
    ensures Cells([line], delimiter, column) == [Split(line, delimiter)[column]]
  {
    assert [line][..0] == [];
    assert Cells([], delimiter, column) == [];
  }

  lemma {:induction false} CellsCons(lines: seq<string>, delimiter: string, column: nat)
    requires lines != []
    ensures Cells(lines, delimiter, column) == Cells([lines[0]], delimiter, column) + Cells(lines[1..], delimiter, column)
  {
    if |lines| > 1 {
      var n := |lines| - 1;
      CellsCons(lines[..n], delimiter, column);
      assert lines[..n][1..] == lines[1..][..n - 1];
    } else {
      assert lines == [lines[0]];
    }
  }
}
