/** The lexical shape of JSON text (RFC 8259, section 7): quotes delimit strings, a backslash escapes one character
    inside a string, and a bar can stand nowhere else than inside one. CanonicalExecution returns such text. */
module CanonicalText {

  datatype Mode = Outside | Inside | Escaped | Broken

  function Step(mode: Mode, c: char): Mode {
    match mode
    case Outside => if c == '"' then Inside else if c == '\\' || c == '|' then Broken else Outside
    case Inside => if c == '"' then Outside else if c == '\\' then Escaped else Inside
    case Escaped => if c == '|' then Broken else Inside
    case Broken => Broken
  }

  function Scan(s: string, mode: Mode): Mode {
    if s == "" then mode else Scan(s[1..], Step(mode, s[0]))
  }

  /** Every string is closed, and nothing that belongs into a string stands outside. */
  predicate JSONText(s: string) {
    Scan(s, Outside) == Outside
  }

  lemma {:induction false} ScanConcat(a: string, b: string, mode: Mode)
    ensures Scan(a + b, mode) == Scan(b, Scan(a, mode))
  {
    if a == "" {
      assert a + b == b;
    } else {
      assert (a + b)[1..] == a[1..] + b;
      ScanConcat(a[1..], b, Step(mode, a[0]));
    }
  }

  lemma {:induction false} BrokenStays(s: string)
    ensures Scan(s, Broken) == Broken
  {
    if s != "" {
      BrokenStays(s[1..]);
    }
  }

  /** Read once from inside a string and once from outside, a text cannot end outside both times. */
  lemma {:induction false} NotBothOutside(s: string)
    ensures !(Scan(s, Inside) == Outside && Scan(s, Outside) == Outside)
  {
    if s != "" {
      BrokenStays(s[1..]);
      NotBothOutside(s[1..]);
    }
  }

  /** What follows a bar of JSON text is not JSON text. */
  lemma AfterBarNotJSON(s: string, bar: nat)
    requires JSONText(s) && bar < |s| && s[bar] == '|'
    ensures !JSONText(s[bar + 1..])
  {
    var front, rest := s[..bar], s[bar + 1..];
    assert s == front + (['|'] + rest);
    ScanConcat(front, ['|'] + rest, Outside);
    assert (['|'] + rest)[1..] == rest;
    BrokenStays(rest);
    NotBothOutside(rest);
  }

  /** So a JSON text after a last bar can be told apart again, whatever stands before it. */
  lemma LastBarSplits(key: string, x: string, longer: string, y: string)
    requires JSONText(x) && JSONText(y) && |x| <= |y| && key + "|" + x == longer + "|" + y
    ensures key == longer && x == y
  {
    var s, bar := key + "|" + x, |y| - |x| - 1;
    assert s[|key|] == '|' && s[|key| + 1..] == x && s[|longer| + 1..] == y;
    if bar >= 0 {
      assert y[bar] == '|' && y[bar + 1..] == x;
      AfterBarNotJSON(y, bar);
    } else {
      assert key == s[..|key|] && longer == s[..|longer|];
    }
  }
}
