/** Orders, sorting, and why the result of a sort does not depend on the sorting algorithm. */
module Orders {

  /** Go's `<` on strings: lexicographic, code point by code point (the same order as byte by byte in UTF-8). */
  predicate StrLess(a: string, b: string) {
    if a == "" || b == "" then a == "" && b != ""
    else a[0] < b[0] || (a[0] == b[0] && StrLess(a[1..], b[1..]))
  }

  lemma {:induction false} StrLessTotal(a: string, b: string)
    ensures a == b || StrLess(a, b) || StrLess(b, a)
    ensures !(StrLess(a, b) && StrLess(b, a))
  {
    if a != "" && b != "" && a[0] == b[0] {
      StrLessTotal(a[1..], b[1..]);
      assert a == [a[0]] + a[1..] && b == [b[0]] + b[1..];
    }
  }

  lemma {:induction false} StrLessTransitive(a: string, b: string, c: string)
    requires StrLess(a, b) && StrLess(b, c)
    ensures StrLess(a, c)
  {
    if a != "" && b != "" && c != "" && a[0] == b[0] == c[0] {
      StrLessTransitive(a[1..], b[1..], c[1..]);
    }
  }

  /** What sort.Slice promises: no element comes before one that is less than it. */
  ghost predicate Sorted<T>(less: (T, T) -> bool, s: seq<T>) {
    forall i, j | 0 <= i < j < |s| :: !less(s[j], s[i])
  }

  ghost predicate IsSortOf<T>(less: (T, T) -> bool, sorted: seq<T>, s: seq<T>) {
    Sorted(less, sorted) && multiset(sorted) == multiset(s)
  }

  /** `less` decides between any two different elements of `s`, and never both ways. */
  ghost predicate Decides<T>(less: (T, T) -> bool, s: seq<T>) {
    forall x, y | x in s && y in s :: (x == y || less(x, y) || less(y, x)) && !(less(x, y) && less(y, x))
  }

  lemma SameHead<T>(less: (T, T) -> bool, a: seq<T>, b: seq<T>)
    requires a != [] && b != [] && multiset(a) == multiset(b)
    requires Sorted(less, a) && Sorted(less, b) && Decides(less, a)
    ensures a[0] == b[0]
  {
    assert b[0] in multiset(b) && a[0] in multiset(a);
    var i :| 0 <= i < |a| && a[i] == b[0];
    var j :| 0 <= j < |b| && b[j] == a[0];
    assert i == 0 || !less(a[i], a[0]);
    assert j == 0 || !less(b[j], b[0]);
  }

  lemma SortedTail<T>(less: (T, T) -> bool, x: T, s: seq<T>)
    requires Sorted(less, [x] + s)
    ensures Sorted(less, s)
  {
    forall i, j | 0 <= i < j < |s| ensures !less(s[j], s[i]) {
      assert ([x] + s)[i + 1] == s[i] && ([x] + s)[j + 1] == s[j];
    }
  }

  lemma DecidesTail<T>(less: (T, T) -> bool, x: T, s: seq<T>)
    requires Decides(less, [x] + s)
    ensures Decides(less, s)
  {
    assert forall y | y in s :: y in [x] + s;
  }

  lemma MultisetTail<T>(x: T, a: seq<T>, b: seq<T>)
    requires multiset([x] + a) == multiset([x] + b)
    ensures multiset(a) == multiset(b)
  {
    assert multiset(a) == multiset([x] + a) - multiset{x};
    assert multiset(b) == multiset([x] + b) - multiset{x};
  }

  lemma SameLength<T>(a: seq<T>, b: seq<T>)
    requires multiset(a) == multiset(b)
    ensures |a| == |b|
  {
    assert |a| == |multiset(a)| == |multiset(b)| == |b|;
  }

  /** Any two correct sorts, stable or not, of any two arrangements of the same elements agree. */
  lemma {:induction false} SortUnique<T>(less: (T, T) -> bool, a: seq<T>, b: seq<T>)
    requires multiset(a) == multiset(b)
    requires Sorted(less, a) && Sorted(less, b) && Decides(less, a)
    ensures a == b
  {
    SameLength(a, b);
    if a != [] {
      SameHead(less, a, b);
      assert a == [a[0]] + a[1..] && b == [a[0]] + b[1..];
      SortedTail(less, a[0], a[1..]);
      SortedTail(less, a[0], b[1..]);
      DecidesTail(less, a[0], a[1..]);
      MultisetTail(a[0], a[1..], b[1..]);
      SortUnique(less, a[1..], b[1..]);
    }
  }

  /** A strict weak order: the requirement sort.Slice puts on its comparison. */
  ghost predicate WeakOrder<T(!new)>(less: (T, T) -> bool) {
    && (forall x, y :: !(less(x, y) && less(y, x)))
    && (forall x, y, z | !less(y, x) && !less(z, y) :: !less(z, x))
  }

  function Insert<T>(less: (T, T) -> bool, x: T, s: seq<T>): (r: seq<T>)
    ensures multiset(r) == multiset(s) + multiset{x}
  {
    if s == [] then [x]
    else if less(s[0], x) then
      assert s == [s[0]] + s[1..];
      [s[0]] + Insert(less, x, s[1..])
    else [x] + s
  }

  lemma SortedCons<T>(less: (T, T) -> bool, x: T, s: seq<T>)
    requires Sorted(less, s) && forall y | y in s :: !less(y, x)
    ensures Sorted(less, [x] + s)
  {
    var r := [x] + s;
    forall i, j | 0 <= i < j < |r| ensures !less(r[j], r[i]) {
      assert r[j] == s[j - 1] && r[j] in s && (i > 0 ==> r[i] == s[i - 1]);
    }
  }

  lemma SortedHead<T>(less: (T, T) -> bool, s: seq<T>, y: T)
    requires s != [] && Sorted(less, s) && y in s[1..]
    ensures !less(y, s[0])
  {
    var k :| 0 <= k < |s| - 1 && s[1..][k] == y;
    assert s[k + 1] == y;
  }

  lemma InsertMembers<T>(less: (T, T) -> bool, x: T, s: seq<T>, y: T)
    requires y in Insert(less, x, s)
    ensures y == x || y in s
  {
    assert y in multiset(Insert(less, x, s));
  }

  lemma {:induction false} InsertSorted<T(!new)>(less: (T, T) -> bool, x: T, s: seq<T>)
    requires WeakOrder(less) && Sorted(less, s)
    ensures Sorted(less, Insert(less, x, s))
  {
    if s != [] {
      assert s == [s[0]] + s[1..];
      SortedTail(less, s[0], s[1..]);
      if less(s[0], x) {
        InsertSorted(less, x, s[1..]);
        forall y | y in Insert(less, x, s[1..]) ensures !less(y, s[0]) {
          InsertMembers(less, x, s[1..], y);
          if y != x {
            SortedHead(less, s, y);
          }
        }
        SortedCons(less, s[0], Insert(less, x, s[1..]));
      } else {
        forall y | y in s ensures !less(y, x) {
          if y != s[0] {
            assert y in s[1..];
            SortedHead(less, s, y);
          }
        }
        SortedCons(less, x, s);
      }
    }
  }

  /** A sort exists for every strict weak order. */
  method SortSlice<T(!new)>(less: (T, T) -> bool, s: seq<T>) returns (sorted: seq<T>)
    requires WeakOrder(less)
    ensures IsSortOf(less, sorted, s)
  {
    sorted := [];
    for i := 0 to |s|
      invariant IsSortOf(less, sorted, s[..i])
    {
      InsertSorted(less, s[i], sorted);
      sorted := Insert(less, s[i], sorted);
      assert s[..i + 1] == s[..i] + [s[i]];
    }
    assert s[..|s|] == s;
  }

  lemma StrLessWeak()
    ensures WeakOrder(StrLess)
  {
    forall x, y ensures !(StrLess(x, y) && StrLess(y, x)) {
      StrLessTotal(x, y);
    }
    forall x, y, z | !StrLess(y, x) && !StrLess(z, y) ensures !StrLess(z, x) {
      StrLessTotal(x, y);
      StrLessTotal(y, z);
      StrLessTotal(x, z);
      if StrLess(z, x) && x != y && y != z {
        StrLessTransitive(x, y, z);
      }
    }
  }
}
