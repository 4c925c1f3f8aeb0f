/**
 * Sequence operations the components build their new lists with: the
 * `Array.prototype.filter` of a list, and the two `splice` forms that remove one
 * element and insert one element; and the bound a fresh id is drawn above.
 */
module Seqs {

  /** The elements of `s` that `keep` accepts, in their original order. */
  function Filter<T>(s: seq<T>, keep: T -> bool): (r: seq<T>)
    ensures |r| <= |s|
    ensures forall i :: 0 <= i < |r| ==> keep(r[i])
  {
    if s == [] then [] else (if keep(s[0]) then [s[0]] else []) + Filter(s[1..], keep)
  }

  /** A number above `key` of every element: one more than the largest key, or 0 for no elements. */
  function KeyBound<T>(s: seq<T>, key: T -> nat): (r: nat)
    ensures forall i :: 0 <= i < |s| ==> key(s[i]) < r
  {
    if s == [] then 0
    else
      var rest := KeyBound(s[1..], key);
      assert forall i :: 1 <= i < |s| ==> s[i] == s[1..][i - 1];
      if rest <= key(s[0]) then key(s[0]) + 1 else rest
  }

  lemma {:induction false} FilterMembership<T>(s: seq<T>, keep: T -> bool, x: T)
    ensures x in Filter(s, keep) <==> x in s && keep(x)
  {
    if s != [] {
      FilterMembership(s[1..], keep, x);
      assert s == [s[0]] + s[1..];
    }
  }

  lemma {:induction false} FilterAppend<T>(a: seq<T>, b: seq<T>, keep: T -> bool)
    ensures Filter(a + b, keep) == Filter(a, keep) + Filter(b, keep)
  {
    if a == [] {
      assert a + b == b;
    } else {
      assert (a + b)[1..] == a[1..] + b;
      FilterAppend(a[1..], b, keep);
    }
  }

  /** Filtering a list whose every element is kept returns the list itself. */
  lemma {:induction false} FilterAllKept<T>(s: seq<T>, keep: T -> bool)
    requires forall i :: 0 <= i < |s| ==> keep(s[i])
    ensures Filter(s, keep) == s
  {
    if s != [] {
      FilterAllKept(s[1..], keep);
    }
  }

  /**
   * Filtering out the one element that is rejected leaves the list with exactly that
   * position removed.
   */
  lemma {:induction false} FilterRemovesOne<T>(s: seq<T>, k: nat, keep: T -> bool)
    requires k < |s| && !keep(s[k])
    requires forall i :: 0 <= i < |s| && i != k ==> keep(s[i])
    ensures Filter(s, keep) == RemoveAt(s, k)
  {
    var tail := s[1..];
    assert forall i :: 0 <= i < |tail| ==> tail[i] == s[i + 1];
    if k == 0 {
      FilterAllKept(tail, keep);
      assert RemoveAt(s, 0) == tail;
    } else {
      FilterRemovesOne(tail, k - 1, keep);
      assert RemoveAt(s, k) == [s[0]] + RemoveAt(tail, k - 1);
    }
  }

  /** `s.splice(i, 1)`: the list without its element at position `i`. */
  function RemoveAt<T>(s: seq<T>, i: nat): (r: seq<T>)
    requires i < |s|
    ensures |r| == |s| - 1
    ensures forall j :: 0 <= j < i ==> r[j] == s[j]
    ensures forall j :: i <= j < |r| ==> r[j] == s[j + 1]
  {
    s[..i] + s[i + 1..]
  }

  /** `s.splice(i, 0, x)`: the list with `x` inserted so that it sits at position `i`. */
  function InsertAt<T>(s: seq<T>, i: nat, x: T): (r: seq<T>)
    requires i <= |s|
    ensures |r| == |s| + 1
    ensures r[i] == x
    ensures forall j :: 0 <= j < i ==> r[j] == s[j]
    ensures forall j :: i < j < |r| ==> r[j] == s[j - 1]
  {
    s[..i] + [x] + s[i..]
  }

  /** Removing what was just inserted gives the list back. */
  lemma RemoveInserted<T>(s: seq<T>, i: nat, x: T)
    requires i <= |s|
    ensures RemoveAt(InsertAt(s, i, x), i) == s
  {
  }

  /** Removing then inserting the removed element at the same place gives the list back. */
  lemma InsertRemoved<T>(s: seq<T>, i: nat)
    requires i < |s|
    ensures InsertAt(RemoveAt(s, i), i, s[i]) == s
  {
  }

  /** Moving one element leaves the multiset of the list unchanged. */
  lemma MoveIsPermutation<T>(s: seq<T>, i: nat, j: nat)
    requires i < |s| && j < |s|
    ensures multiset(InsertAt(RemoveAt(s, i), j, s[i])) == multiset(s)
  {
    var r := RemoveAt(s, i);
    assert s == s[..i] + [s[i]] + s[i + 1..];
    assert r == s[..i] + s[i + 1..];
    assert InsertAt(r, j, s[i]) == r[..j] + [s[i]] + r[j..];
    assert r == r[..j] + r[j..];
    calc {
      multiset(InsertAt(r, j, s[i]));
      multiset(r[..j]) + multiset([s[i]]) + multiset(r[j..]);
      multiset(r) + multiset([s[i]]);
      multiset(s[..i]) + multiset(s[i + 1..]) + multiset([s[i]]);
      multiset(s);
    }
  }
}
