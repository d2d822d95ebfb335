/** Failure and absence values, and one fact about sequences, shared by every part of the model. */
module Common {
  datatype Option<+T> = None | Some(value: T) {
    function GetOr(default_: T): T {
      if Some? then value else default_
    }
  }

  datatype Result<+T, +E> = Ok(value: T) | Err(error: E)

  /** A sequence that extends another by one element. */
  lemma Snoc<T>(longer: seq<T>, shorter: seq<T>, last: T)
    requires |longer| == |shorter| + 1 && longer[|shorter|] == last
    requires forall i | 0 <= i < |shorter| :: longer[i] == shorter[i]
    ensures longer == shorter + [last]
  {
  }

  lemma FrontMore<T>(s: seq<T>, i: nat)
    requires i < |s|
    ensures s[..i + 1] == s[..i] + [s[i]]
  {
  }

  lemma Regroup<T>(a: seq<T>, b: seq<T>, c: seq<T>)
    ensures (a + b) + c == a + (b + c)
  {
  }
}
