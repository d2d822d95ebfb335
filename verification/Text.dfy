/** The string operations of Go's `strings` package that the modelled code relies on.
    A string is a sequence of characters; the original works on UTF-8 bytes. */
module Text {

  /** unicode.IsSpace */
  predicate IsSpace(c: char) {
    var n := c as int;
    || 9 <= n <= 13 || n == 0x20 || n == 0x85 || n == 0xA0 || n == 0x1680
    || 0x2000 <= n <= 0x200A || n == 0x2028 || n == 0x2029 || n == 0x202F || n == 0x205F || n == 0x3000
  }

  /** No white space at either end. */
  predicate Trimmed(s: string) {
    s == "" || (!IsSpace(s[0]) && !IsSpace(s[|s| - 1]))
  }

  /** Nothing but white space. */
  predicate Blank(s: string) {
    forall i | 0 <= i < |s| :: IsSpace(s[i])
  }

  /** A text between two letters is neither blank nor padded. */
  lemma LetterSolid(s: string)
    requires s != "" && 'a' <= s[0] <= 'z' && 'a' <= s[|s| - 1] <= 'z'
    ensures !Blank(s) && Trimmed(s)
  {
    assert !IsSpace(s[0]);
  }

  /** The first position from `at` on that is not white space. */
  function SolidFrom(s: string, at: nat): (r: nat)
    requires at <= |s|
    ensures at <= r <= |s|
    ensures r < |s| ==> !IsSpace(s[r])
    ensures forall i | at <= i < r :: IsSpace(s[i])
    decreases |s| - at
  {
    if at < |s| && IsSpace(s[at]) then SolidFrom(s, at + 1) else at
  }

  /** The end of the text before `end` without the white space at its end. */
  function SolidUntil(s: string, end: nat): (r: nat)
    requires end <= |s|
    ensures r <= end
    ensures r > 0 ==> !IsSpace(s[r - 1])
    ensures forall i | r <= i < end :: IsSpace(s[i])
  {
    if end > 0 && IsSpace(s[end - 1]) then SolidUntil(s, end - 1) else end
  }

  /** strings.TrimSpace: a trimmed slice of the input; the input itself when that is trimmed, empty when it is blank. */
  function TrimSpace(s: string): (r: string)
    ensures Trimmed(r)
    ensures Trimmed(s) ==> r == s
    ensures r == "" <==> Blank(s)
  {
    if Blank(s) then "" else s[SolidFrom(s, 0)..SolidUntil(s, |s|)]
  }

  /** Trimming takes white space away at both ends and nothing else. */
  lemma TrimSpaceExact(s: string) returns (front: string, back: string)
    ensures s == front + TrimSpace(s) + back && Blank(front) && Blank(back)
  {
    if Blank(s) {
      front, back := s, "";
    } else {
      var i, j := SolidFrom(s, 0), SolidUntil(s, |s|);
      front, back := s[..i], s[j..];
      assert s == s[..i] + s[i..j] + s[j..];
    }
  }

  /** Among the first 128 characters the white space is tab, line feed, vertical tab, form feed, carriage return and
      blank. */
  lemma AsciiSpaces(c: char)
    requires c as int < 128
    ensures IsSpace(c) <==> c as int in {9, 10, 11, 12, 13, 32}
  {
  }

  /** strings.Contains */
  predicate Contains(s: string, part: string) {
    exists i | 0 <= i <= |s| - |part| :: part <= s[i..]
  }

  /** strings.ReplaceAll: leftmost, non-overlapping, never rescanning what it inserted. */
  function ReplaceAll(s: string, old_: string, new_: string): string
    requires old_ != ""
  {
    if s == "" then ""
    else if old_ <= s then new_ + ReplaceAll(s[|old_|..], old_, new_)
    else [s[0]] + ReplaceAll(s[1..], old_, new_)
  }

  /** A stretch that cannot start an occurrence passes through unchanged. */
  lemma {:induction false} ReplaceSkips(front: string, rest: string, old_: string, new_: string)
    requires old_ != "" && old_[0] !in front
    ensures ReplaceAll(front + rest, old_, new_) == front + ReplaceAll(rest, old_, new_)
  {
    if front == "" {
      assert front + rest == rest;
    } else {
      assert (front + rest)[1..] == front[1..] + rest;
      ReplaceSkips(front[1..], rest, old_, new_);
    }
  }

  function Join(parts: seq<string>, sep: string): string {
    if parts == [] then "" else if |parts| == 1 then parts[0]
    else parts[0] + sep + Join(parts[1..], sep)
  }
}
