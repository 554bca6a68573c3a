/**
 Descending order by an integer key, and an insertion sort that establishes it;
 used for the listing's `orderBy: { createdAt: 'desc' }`.
 */
module Ordering {

  predicate Descending<T>(s: seq<T>, key: T -> int) {
    forall i, j :: 0 <= i < j < |s| ==> key(s[i]) >= key(s[j])
  }

  /** Every element's key is at most `bound`. */
  predicate AllAtMost<T>(s: seq<T>, key: T -> int, bound: int) {
    forall k :: 0 <= k < |s| ==> key(s[k]) <= bound
  }

  lemma ConsDescending<T>(head: T, rest: seq<T>, key: T -> int)
    requires Descending(rest, key)
    requires AllAtMost(rest, key, key(head))
    ensures Descending([head] + rest, key)
  {
  }

  /** Places `x` before the first element whose key is not greater than its own. */
  function Insert<T(==)>(x: T, s: seq<T>, key: T -> int): (r: seq<T>)
    requires Descending(s, key)
    ensures Descending(r, key)
    ensures multiset(r) == multiset(s) + multiset{x}
    ensures forall b :: key(x) <= b && AllAtMost(s, key, b) ==> AllAtMost(r, key, b)
  {
    if s == [] || key(s[0]) <= key(x) then
      ConsDescending(x, s, key);
      [x] + s
    else
      var rest := Insert(x, s[1..], key);
      assert s == [s[0]] + s[1..];
      assert AllAtMost(s[1..], key, key(s[0]));
      ConsDescending(s[0], rest, key);
      var r := [s[0]] + rest;
      assert forall b :: key(x) <= b && AllAtMost(s, key, b) ==> AllAtMost(r, key, b) by {
        forall b | key(x) <= b && AllAtMost(s, key, b) ensures AllAtMost(r, key, b) {
          assert AllAtMost(s[1..], key, b);
        }
      }
      r
  }

  /** Insertion sort into descending key order; the result is a permutation. */
  function SortDescending<T(==)>(s: seq<T>, key: T -> int): (r: seq<T>)
    ensures Descending(r, key)
    ensures multiset(r) == multiset(s)
  {
    if s == [] then []
    else
      assert s == [s[0]] + s[1..];
      Insert(s[0], SortDescending(s[1..], key), key)
  }
}
