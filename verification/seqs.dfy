/** Sequence operations with the meaning the client relies on: `findIndex`
    of JavaScript arrays and Immutable.js lists, and `List.remove` of
    Immutable.js. */
module Seqs {

  /** True when no value occurs twice in `s`. */
  ghost predicate NoDuplicates<T>(s: seq<T>) {
    forall i, j :: 0 <= i < j < |s| ==> s[i] != s[j]
  }

  /** Index of the first element satisfying `p`, or -1 when there is none
      (the `findIndex` contract). */
  function FindIndex<T>(s: seq<T>, p: T -> bool): (r: int)
    ensures -1 <= r < |s|
    ensures 0 <= r ==> p(s[r]) && forall j :: 0 <= j < r ==> !p(s[j])
    ensures r < 0 <==> forall j :: 0 <= j < |s| ==> !p(s[j])
  {
    if |s| == 0 then -1
    else if p(s[0]) then 0
    else
      var k := FindIndex(s[1..], p);
      if k < 0 then -1 else k + 1
  }

  /** `findIndex` with strict equality as the test. */
  function IndexOf<T(==)>(s: seq<T>, x: T): (r: int)
    ensures -1 <= r < |s|
    ensures 0 <= r ==> s[r] == x
    ensures 0 <= r ==> forall j :: 0 <= j < r ==> s[j] != x
    ensures r < 0 <==> x !in s
  {
    FindIndex(s, y => y == x)
  }

  /** Index that `List.remove(index)` addresses: a negative index counts
      back from the end of the list. */
  function Wrapped(n: nat, index: int): int {
    if index < 0 then index + n else index
  }

  /** Immutable.js `List.remove(index)`: drops the addressed element and
      shifts the later ones down by one; an index that addresses no element
      leaves the list unchanged. */
  function ListRemove<T>(s: seq<T>, index: int): (r: seq<T>)
    ensures var k := Wrapped(|s|, index);
            0 <= k < |s| ==>
              && |r| == |s| - 1
              && (forall j :: 0 <= j < k ==> r[j] == s[j])
              && (forall j :: k <= j < |r| ==> r[j] == s[j + 1])
    ensures var k := Wrapped(|s|, index);
            !(0 <= k < |s|) ==> r == s
  {
    var k := Wrapped(|s|, index);
    if 0 <= k < |s| then s[..k] + s[k + 1..] else s
  }

  /** Removing an element by index takes exactly that one occurrence out of
      the multiset of values. */
  lemma {:induction false} ListRemoveMultiset<T>(s: seq<T>, k: nat)
    requires k < |s|
    ensures multiset(ListRemove(s, k)) + multiset{s[k]} == multiset(s)
  {
    assert s == s[..k] + [s[k]] + s[k + 1..];
    assert ListRemove(s, k) == s[..k] + s[k + 1..];
  }

  /** Appending a value not yet present keeps a duplicate-free list
      duplicate-free, and the value then occurs exactly once, at the end. */
  lemma AppendFresh<T>(s: seq<T>, x: T)
    requires NoDuplicates(s)
    requires x !in s
    ensures NoDuplicates(s + [x])
    ensures multiset(s + [x])[x] == 1
    ensures (s + [x])[|s|] == x
  {
  }

  /** In a duplicate-free list, removing the element at the index of `x`
      removes `x` and nothing else. */
  lemma {:induction false} RemoveIndexOf<T>(s: seq<T>, x: T)
    requires NoDuplicates(s)
    requires x in s
    ensures var r := ListRemove(s, IndexOf(s, x));
            && |r| == |s| - 1
            && x !in r
            && NoDuplicates(r)
            && forall y :: y != x ==> (y in r <==> y in s)
  {
  }
}
