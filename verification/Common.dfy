/** Small types and sequence facts shared by the models. */
module Common {

  datatype Option<+T> = None | Some(value: T)

  datatype Result<+T> = Ok(value: T) | Err(error: string)

  /** The elements of a sequence of integers grow strictly from left to right. */
  ghost predicate StrictlyAscending(s: seq<int>)
  {
    forall i, j :: 0 <= i < j < |s| ==> s[i] < s[j]
  }

  ghost function Pick<T>(s: set<T>): (x: T)
    requires s != {}
    ensures x in s
  {
    var x :| x in s;
    x
  }

  lemma WithoutOne<T>(s: seq<T>, i: nat)
    requires i < |s|
    ensures multiset(s[..i] + s[i + 1..]) == multiset(s) - multiset{s[i]}
  {
    assert s == s[..i] + ([s[i]] + s[i + 1..]);
  }

  /** Sets of `int` drawn from a strictly ascending sequence have the sequence's length. */
  lemma {:induction false} AscendingCardinality(s: seq<int>, bound: set<int>)
    requires StrictlyAscending(s)
    requires forall x :: x in s ==> x in bound
    ensures |s| <= |bound|
    decreases |s|
  {
    if s != [] {
      var last := s[|s| - 1];
      var init := s[..|s| - 1];
      forall x | x in init ensures x in bound - {last} {
        var i :| 0 <= i < |init| && init[i] == x;
        assert s[i] == x && s[i] < last;
      }
      assert last in s;
      AscendingCardinality(init, bound - {last});
    }
  }

  lemma {:induction false} HasLeast(s: set<int>)
    requires s != {}
    ensures exists r :: r in s && forall x :: x in s ==> r <= x
    decreases |s|
  {
    var a := Pick(s);
    var rest := s - {a};
    if rest == {} {
      assert forall x :: x in s ==> x == a || x in rest;
    } else {
      HasLeast(rest);
      var b :| b in rest && forall x :: x in rest ==> b <= x;
      var least := if a <= b then a else b;
      assert forall x :: x in s ==> x == a || x in rest;
      assert least in s && forall x :: x in s ==> least <= x;
    }
  }

  function Least(s: set<int>): (r: int)
    requires s != {}
    ensures r in s && forall x :: x in s ==> r <= x
  {
    HasLeast(s);
    var r :| r in s && forall x :: x in s ==> r <= x;
    r
  }
}
