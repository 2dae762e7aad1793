/** Insertion sort under a total preorder: the model of a query's `ORDER BY`. */
module Sorting {

  /** `le(a, b)`: `a` may come before `b`. Total and transitive. */
  ghost predicate TotalPreorder<T(!new)>(le: (T, T) -> bool) {
    && (forall a, b :: le(a, b) || le(b, a))
    && (forall a, b, c :: le(a, b) && le(b, c) ==> le(a, c))
  }

  ghost predicate SortedBy<T>(le: (T, T) -> bool, s: seq<T>) {
    forall i, j :: 0 <= i < j < |s| ==> le(s[i], s[j])
  }

  /** Inserts `x` into the sorted `s` before the first element it may precede. */
  function InsertBy<T(!new)>(le: (T, T) -> bool, x: T, s: seq<T>): (r: seq<T>)
    requires TotalPreorder(le) && SortedBy(le, s)
    ensures multiset(r) == multiset(s) + multiset{x}
    ensures |r| == |s| + 1
    ensures SortedBy(le, r)
  {
    if s == [] then [x]
    else if le(x, s[0]) then [x] + s
    else
      var t := InsertBy(le, x, s[1..]);
      assert s == [s[0]] + s[1..];
      assert forall k :: 0 <= k < |t| ==> le(s[0], t[k]) by {
        forall k | 0 <= k < |t| ensures le(s[0], t[k]) {
          assert t[k] in multiset(t);
          assert t[k] == x || t[k] in multiset(s[1..]);
          if t[k] != x {
            var m :| 0 <= m < |s[1..]| && s[1..][m] == t[k];
            assert s[1 + m] == t[k];
          }
        }
      }
      [s[0]] + t
  }

  /** The elements of `s`, rearranged into `le` order. */
  function SortBy<T(!new)>(le: (T, T) -> bool, s: seq<T>): (r: seq<T>)
    requires TotalPreorder(le)
    ensures multiset(r) == multiset(s)
    ensures |r| == |s|
    ensures SortedBy(le, r)
  {
    if s == [] then []
    else
      assert s == [s[0]] + s[1..];
      InsertBy(le, s[0], SortBy(le, s[1..]))
  }
}
