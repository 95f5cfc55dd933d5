/** An ordering by key that promises nothing about equal keys, as `sort.Slice` does. */
module Sorting {

  ghost predicate SortedBy<T>(t: seq<T>, key: T -> int)
  {
    forall i, j :: 0 <= i < j < |t| ==> key(t[i]) <= key(t[j])
  }

  lemma PlaceKeepsOrder<T>(t: seq<T>, k: nat, x: T, key: T -> int)
    requires SortedBy(t, key) && k <= |t|
    requires k > 0 ==> key(t[k - 1]) <= key(x)
    requires k < |t| ==> key(x) < key(t[k])
    ensures SortedBy(t[..k] + [x] + t[k..], key)
  {
    var u := t[..k] + [x] + t[k..];
    forall i, j | 0 <= i < j < |u| ensures key(u[i]) <= key(u[j]) {
      assert u[i] == if i < k then t[i] else if i == k then x else t[i - 1];
      assert u[j] == if j < k then t[j] else if j == k then x else t[j - 1];
      assert i < k ==> key(t[i]) <= key(t[k - 1]);
      assert j > k ==> key(t[k]) <= key(t[j - 1]);
    }
  }

  lemma PlaceKeepsMembers<T>(t: seq<T>, k: nat, x: T)
    requires k <= |t|
    ensures multiset(t[..k] + [x] + t[k..]) == multiset(t) + multiset{x}
  {
    assert t == t[..k] + t[k..];
  }

  /** Where `x` goes in: after everything with a key that is not larger. */
  method PlaceFor<T>(t: seq<T>, key: T -> int, x: T) returns (k: nat)
    ensures k <= |t|
    ensures k > 0 ==> key(t[k - 1]) <= key(x)
    ensures k < |t| ==> key(x) < key(t[k])
  {
    k := |t|;
    while k > 0 && key(t[k - 1]) > key(x)
      invariant k <= |t|
      invariant k < |t| ==> key(x) < key(t[k])
    {
      k := k - 1;
    }
  }

  /** Some order by key; nothing is promised about equal keys. */
  method SortBy<T>(s: seq<T>, key: T -> int) returns (t: seq<T>)
    ensures multiset(t) == multiset(s)
    ensures SortedBy(t, key)
  {
    t := [];
    for n := 0 to |s|
      invariant multiset(t) == multiset(s[..n])
      invariant SortedBy(t, key)
    {
      var k := PlaceFor(t, key, s[n]);
      PlaceKeepsOrder(t, k, s[n], key);
      PlaceKeepsMembers(t, k, s[n]);
      t := t[..k] + [s[n]] + t[k..];
      assert s[..n + 1] == s[..n] + [s[n]];
    }
    assert s[..|s|] == s;
  }
}
