/** `sort.Slice` with a `less` that compares one string key of the elements,
    as both `HolidaysProcessor` and `largeHolidays` call it: an in-place sort
    of the array that leaves it ordered by key and holding the same elements. */
module Sorting {
  import opened DateText

  /** No element's key is smaller, as Go compares strings, than the key of
      the element before it. */
  predicate SortedByKey<T>(s: seq<T>, key: T -> string) {
    forall i :: 0 < i < |s| ==> !LexLess(key(s[i]), key(s[i - 1]))
  }

  method Swap<T>(a: array<T>, i: int, j: int)
    requires 0 <= i < a.Length && 0 <= j < a.Length
    modifies a
    ensures a[i] == old(a[j]) && a[j] == old(a[i])
    ensures forall k :: 0 <= k < a.Length && k != i && k != j ==> a[k] == old(a[k])
    ensures multiset(a[..]) == multiset(old(a[..]))
  {
    a[i], a[j] := a[j], a[i];
  }

  /** Sorts `a` in place by `key`; the order of elements with equal keys is
      not specified (Go's `sort.Slice` is not stable). */
  method SortByKey<T>(a: array<T>, key: T -> string)
    modifies a
    ensures SortedByKey(a[..], key)
    ensures multiset(a[..]) == multiset(old(a[..]))
  {
    var i := 0;
    while i < a.Length
      invariant 0 <= i <= a.Length
      invariant SortedByKey(a[..i], key)
      invariant multiset(a[..]) == multiset(old(a[..]))
    {
      var j := i;
      while j > 0 && LexLess(key(a[j]), key(a[j - 1]))
        invariant 0 <= j <= i
        invariant forall k :: 0 < k <= i && k != j ==> !LexLess(key(a[k]), key(a[k - 1]))
        invariant 0 < j < i ==> !LexLess(key(a[j + 1]), key(a[j - 1]))
        invariant multiset(a[..]) == multiset(old(a[..]))
      {
        LexLessAsymmetric(key(a[j]), key(a[j - 1]));
        Swap(a, j - 1, j);
        j := j - 1;
      }
      i := i + 1;
    }
  }

  /** `sort.Search(n, f)` narrowed to `[i, j)`: halve the range, keeping the
      upper half while `f` fails at its middle. */
  function SearchRange(f: int -> bool, i: int, j: int): (r: int)
    requires 0 <= i <= j
    ensures i <= r <= j
    decreases j - i
  {
    if i < j then
      var h := (i + j) / 2;
      if !f(h) then SearchRange(f, h + 1, j) else SearchRange(f, i, h)
    else i
  }

  /** `sort.Search(n, f)`. */
  function Search(n: nat, f: int -> bool): (r: nat)
    ensures r <= n
  {
    SearchRange(f, 0, n)
  }

  /** `f` never turns from true back to false on `[0, n)`. */
  predicate Monotone(n: nat, f: int -> bool) {
    forall a, b :: 0 <= a <= b < n && f(a) ==> f(b)
  }

  lemma {:induction false} SearchRangeFindsFirst(n: nat, f: int -> bool, i: int, j: int)
    requires 0 <= i <= j <= n && Monotone(n, f)
    requires forall k :: 0 <= k < i ==> !f(k)
    requires forall k :: j <= k < n ==> f(k)
    ensures forall k :: 0 <= k < SearchRange(f, i, j) ==> !f(k)
    ensures forall k :: SearchRange(f, i, j) <= k < n ==> f(k)
    decreases j - i
  {
    if i < j {
      var h := (i + j) / 2;
      if !f(h) {
        SearchRangeFindsFirst(n, f, h + 1, j);
      } else {
        SearchRangeFindsFirst(n, f, i, h);
      }
    }
  }

  /** For a monotone `f`, `sort.Search` finds the first index at which `f`
      holds, or `n` when there is none. */
  lemma SearchFindsFirst(n: nat, f: int -> bool)
    requires Monotone(n, f)
    ensures forall k :: 0 <= k < Search(n, f) ==> !f(k)
    ensures forall k :: Search(n, f) <= k < n ==> f(k)
  {
    SearchRangeFindsFirst(n, f, 0, n);
  }
}
