// Stable sorting by a total preorder, as Rust's `sort`, `sort_by` and
// `sort_by_key` do: the result is ordered, is a permutation of the input, and
// keeps the input order of elements that compare equal.

module Sorting {

  /** `le` is total and transitive, so it orders any sequence. */
  ghost predicate TotalPreorder<T(!new)>(le: (T, T) -> bool)
  {
    (forall a, b :: le(a, b) || le(b, a)) &&
    (forall a, b, c :: le(a, b) && le(b, c) ==> le(a, c))
  }

  predicate Sorted<T>(le: (T, T) -> bool, s: seq<T>)
  {
    forall i, j | 0 <= i < j < |s| :: le(s[i], s[j])
  }

  /** The elements of `s` that compare equal to `y`, in their order in `s`. */
  function Ties<T>(le: (T, T) -> bool, s: seq<T>, y: T): (r: seq<T>)
    ensures |r| <= |s|
  {
    if |s| == 0 then []
    else (if le(s[0], y) && le(y, s[0]) then [s[0]] else []) + Ties(le, s[1..], y)
  }

  /** Puts `x` in front of the first element it is not greater than. */
  function Insert<T>(le: (T, T) -> bool, x: T, s: seq<T>): (r: seq<T>)
    ensures multiset(r) == multiset(s) + multiset{x}
  {
    if |s| == 0 || le(x, s[0]) then [x] + s
    else
      assert s == [s[0]] + s[1..];
      [s[0]] + Insert(le, x, s[1..])
  }

  /** Insertion sort from the back, which is stable. */
  function Sort<T>(le: (T, T) -> bool, s: seq<T>): (r: seq<T>)
    ensures multiset(r) == multiset(s) && |r| == |s|
  {
    if |s| == 0 then []
    else
      assert s == [s[0]] + s[1..];
      Insert(le, s[0], Sort(le, s[1..]))
  }

  lemma {:induction false} InsertSorted<T(!new)>(le: (T, T) -> bool, x: T, s: seq<T>)
    requires TotalPreorder(le) && Sorted(le, s)
    ensures Sorted(le, Insert(le, x, s))
    decreases |s|
  {
    if |s| == 0 || le(x, s[0]) {
      var r := [x] + s;
      forall i, j | 0 <= i < j < |r| ensures le(r[i], r[j]) {
        if i == 0 && j > 1 {
          assert le(s[0], s[j - 1]);
        }
      }
    } else {
      InsertSorted(le, x, s[1..]);
      var rest := Insert(le, x, s[1..]);
      var r := [s[0]] + rest;
      forall i, j | 0 <= i < j < |r| ensures le(r[i], r[j]) {
        if i == 0 {
          assert r[j] in multiset(rest);
          assert r[j] in multiset(s[1..]) + multiset{x};
          if r[j] == x {
            assert le(s[0], x);
          } else {
            assert r[j] in s[1..];
            var k :| 0 <= k < |s[1..]| && s[1..][k] == r[j];
            assert le(s[0], s[k + 1]);
          }
        }
      }
    }
  }

  /** The sort's result is ordered. */
  lemma {:induction false} SortSorted<T(!new)>(le: (T, T) -> bool, s: seq<T>)
    requires TotalPreorder(le)
    ensures Sorted(le, Sort(le, s))
    decreases |s|
  {
    if |s| > 0 {
      SortSorted(le, s[1..]);
      InsertSorted(le, s[0], Sort(le, s[1..]));
    }
  }

  lemma {:induction false} TiesAppend<T>(le: (T, T) -> bool, a: seq<T>, b: seq<T>, y: T)
    ensures Ties(le, a + b, y) == Ties(le, a, y) + Ties(le, b, y)
    decreases |a|
  {
    if |a| > 0 {
      assert (a + b)[1..] == a[1..] + b;
      TiesAppend(le, a[1..], b, y);
    } else {
      assert a + b == b;
    }
  }

  /** Inserting into a sorted sequence puts `x` ahead of the elements equal to it. */
  lemma {:induction false} InsertTies<T(!new)>(le: (T, T) -> bool, x: T, s: seq<T>, y: T)
    requires TotalPreorder(le)
    ensures Ties(le, Insert(le, x, s), y) == Ties(le, [x], y) + Ties(le, s, y)
    decreases |s|
  {
    if |s| == 0 || le(x, s[0]) {
      TiesAppend(le, [x], s, y);
    } else {
      InsertTies(le, x, s[1..], y);
      var tail := Insert(le, x, s[1..]);
      assert Insert(le, x, s) == [s[0]] + tail;
      TiesAppend(le, [s[0]], tail, y);
      TiesAppend(le, [s[0]], s[1..], y);
      assert [s[0]] + s[1..] == s;
      TiesAppend(le, [x], s[1..], y);
      // s[0] is strictly below x, so s[0] and x are never both equal to y
      assert !(le(x, y) && le(y, s[0]));
      assert Ties(le, [x], y) == (if le(x, y) && le(y, x) then [x] else []);
      assert Ties(le, [s[0]], y) == (if le(s[0], y) && le(y, s[0]) then [s[0]] else []);
    }
  }

  /** Stability: the elements equal to any `y` keep their input order. */
  lemma {:induction false} SortStable<T(!new)>(le: (T, T) -> bool, s: seq<T>, y: T)
    requires TotalPreorder(le)
    ensures Ties(le, Sort(le, s), y) == Ties(le, s, y)
    decreases |s|
  {
    if |s| > 0 {
      SortStable(le, s[1..], y);
      InsertTies(le, s[0], Sort(le, s[1..]), y);
      assert Ties(le, [s[0]], y) == (if le(s[0], y) && le(y, s[0]) then [s[0]] else []);
    }
  }

  /** `f` applied to every element, in order. */
  function Apply<T, U>(f: T -> U, s: seq<T>): (r: seq<U>)
    ensures |r| == |s| && forall i | 0 <= i < |s| :: r[i] == f(s[i])
  {
    if |s| == 0 then [] else [f(s[0])] + Apply(f, s[1..])
  }

  lemma {:induction false} InsertApply<T, U>(le: (T, T) -> bool, leU: (U, U) -> bool, f: T -> U, x: T, s: seq<T>)
    requires forall a, b :: leU(f(a), f(b)) == le(a, b)
    ensures Insert(leU, f(x), Apply(f, s)) == Apply(f, Insert(le, x, s))
    decreases |s|
  {
    if |s| > 0 && !le(x, s[0]) {
      InsertApply(le, leU, f, x, s[1..]);
      assert Apply(f, s)[1..] == Apply(f, s[1..]);
    }
  }

  /** Sorting commutes with a change that does not affect the comparison. */
  lemma {:induction false} SortApply<T, U>(le: (T, T) -> bool, leU: (U, U) -> bool, f: T -> U, s: seq<T>)
    requires forall a, b :: leU(f(a), f(b)) == le(a, b)
    ensures Sort(leU, Apply(f, s)) == Apply(f, Sort(le, s))
    decreases |s|
  {
    if |s| > 0 {
      SortApply(le, leU, f, s[1..]);
      assert Apply(f, s)[1..] == Apply(f, s[1..]);
      InsertApply(le, leU, f, s[0], Sort(le, s[1..]));
    }
  }
}
