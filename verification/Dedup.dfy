/**
 * The bounded message-id filter of a notify subscriber (leaf/agent/notify/pubsub.go): a set of seen
 * ids, the order they were inserted in, and eviction of the oldest half above the cap.
 */
module Dedup {

  const MAX_SEEN_IDS := 10000

  datatype State = State(dedup: bool, seen: set<string>, seenOrder: seq<string>)

  const FRESH := State(true, {}, [])

  function Elements(s: seq<string>): set<string>
  {
    set x | x in s
  }

  ghost predicate NoRepeats(s: seq<string>)
  {
    forall i, j :: 0 <= i < j < |s| ==> s[i] != s[j]
  }

  /** The last `n` elements of a sequence. */
  function Suffix(s: seq<string>, n: nat): seq<string>
    requires n <= |s|
  {
    s[|s| - n..]
  }

  function Evicted(s: State): State
  {
    if |s.seenOrder| > MAX_SEEN_IDS then
      var half := |s.seenOrder| / 2;
      State(s.dedup, s.seen - Elements(s.seenOrder[..half]), s.seenOrder[half..])
    else s
  }

  /** One `isDuplicate` call: the state it leaves and its answer. */
  function Checked(s: State, id: string): (State, bool)
  {
    if !s.dedup then (s, false)
    else if id in s.seen then (s, true)
    else (Evicted(State(true, s.seen + {id}, s.seenOrder + [id])), false)
  }

  class Subscriber {
    var dedup: bool
    var seen: set<string>
    var seenOrder: seq<string>

    ghost function Sees(): (s: State)
      reads this
    {
      State(dedup, seen, seenOrder)
    }

    constructor ()
      ensures Sees() == State(false, {}, [])
    {
      dedup, seen, seenOrder := false, {}, [];
    }

    method EnableDedup()
      modifies this
      ensures Sees() == FRESH
    {
      dedup, seen, seenOrder := true, {}, [];
    }

    method IsDuplicate(id: string) returns (dup: bool)
      modifies this
      ensures (Sees(), dup) == Checked(old(Sees()), id)
      ensures !old(dedup) ==> !dup && Sees() == old(Sees())
      ensures old(dedup) ==> (dup <==> id in old(seen)) && dedup
      ensures old(dedup) && !dup && |old(seenOrder)| < 10000 ==>
        seenOrder == old(seenOrder) + [id] && seen == old(seen) + {id}
    {
      if !dedup {
        return false;
      }
      if id in seen {
        return true;
      }
      seen := seen + {id};
      seenOrder := seenOrder + [id];
      if |seenOrder| > MAX_SEEN_IDS {
        var half := |seenOrder| / 2;
        ghost var before := seen;
        for i := 0 to half
          invariant seenOrder == old(seenOrder) + [id] && dedup
          invariant seen == before - Elements(seenOrder[..i])
        {
          assert seenOrder[..i + 1] == seenOrder[..i] + [seenOrder[i]];
          seen := seen - {seenOrder[i]};
        }
        seenOrder := seenOrder[half..];
      }
      dup := false;
    }
  }

  // ---------- runs ----------

  /** The answers to ids that arrive in order at `s`. */
  function Answers(s: State, ids: seq<string>): seq<bool>
    decreases |ids|
  {
    if ids == [] then [] else [Checked(s, ids[0]).1] + Answers(Checked(s, ids[0]).0, ids[1..])
  }

  /** Until deduplication is enabled everything is let through. */
  lemma {:induction false} OffLetsAllThrough(ids: seq<string>)
    ensures |Answers(State(false, {}, []), ids)| == |ids|
    ensures forall dup :: dup in Answers(State(false, {}, []), ids) ==> !dup
    decreases |ids|
  {
    if ids != [] {
      OffLetsAllThrough(ids[1..]);
    }
  }

  /** The state after the ids have arrived in order at a fresh filter. */
  function After(ids: seq<string>): State
  {
    if ids == [] then FRESH else Checked(After(ids[..|ids| - 1]), ids[|ids| - 1]).0
  }

  /** The answer given to the last id. */
  function Answer(ids: seq<string>): bool
    requires ids != []
  {
    Checked(After(ids[..|ids| - 1]), ids[|ids| - 1]).1
  }

  /** The ids let through, in order; an evicted id may be let through again. */
  function Accepted(ids: seq<string>): seq<string>
  {
    if ids == [] then []
    else if Answer(ids) then Accepted(ids[..|ids| - 1])
    else Accepted(ids[..|ids| - 1]) + [ids[|ids| - 1]]
  }

  /** How many ids the filter keeps after `n` have been let through. */
  function KeptLength(n: nat): nat
  {
    if n <= MAX_SEEN_IDS then n else 5001 + (n - 10001) % 5000
  }

  lemma NoRepeatsSlice(s: seq<string>, k: nat)
    requires NoRepeats(s) && k <= |s|
    ensures Elements(s) - Elements(s[..k]) == Elements(s[k..])
    ensures NoRepeats(s[k..])
  {
    assert s == s[..k] + s[k..];
    forall x | x in s[k..] ensures x !in s[..k] {
      var i :| k <= i < |s| && s[i] == x;
      assert forall j :: 0 <= j < k ==> s[..k][j] == s[j];
    }
  }

  /** One call on a state whose list has no repeats and whose set is the list's set. */
  lemma CheckedShape(s: State, id: string)
    requires s.dedup && NoRepeats(s.seenOrder) && s.seen == Elements(s.seenOrder)
    requires |s.seenOrder| <= MAX_SEEN_IDS
    ensures var (t, dup) := Checked(s, id);
      && t.dedup && NoRepeats(t.seenOrder) && t.seen == Elements(t.seenOrder)
      && (dup <==> id in s.seenOrder)
      && (dup ==> t == s)
      && (!dup ==> t.seenOrder == if |s.seenOrder| < MAX_SEEN_IDS then s.seenOrder + [id]
                                  else (s.seenOrder + [id])[5000..])
  {
    if id !in s.seen {
      var order := s.seenOrder + [id];
      assert Elements(order) == s.seen + {id};
      if |order| > MAX_SEEN_IDS {
        NoRepeatsSlice(order, 5000);
      }
    }
  }

  /** `s` keeps the right-length tail of `accepted`, and its set is that tail's. */
  ghost predicate Keeps(s: State, accepted: seq<string>)
  {
    && s.dedup
    && |s.seenOrder| == KeptLength(|accepted|) <= |accepted|
    && s.seenOrder == Suffix(accepted, |s.seenOrder|)
    && NoRepeats(s.seenOrder)
    && s.seen == Elements(s.seenOrder)
  }

  lemma KeptLengthStep(n: nat)
    ensures KeptLength(n) <= n && KeptLength(n) <= MAX_SEEN_IDS
    ensures (if n < 5001 then n else 5001) <= KeptLength(n)
    ensures KeptLength(n + 1) == if KeptLength(n) < MAX_SEEN_IDS then KeptLength(n) + 1 else 5001
  {
  }

  lemma SuffixGrows(a: seq<string>, k: nat, id: string)
    requires k <= |a|
    ensures Suffix(a, k) + [id] == Suffix(a + [id], k + 1)
  {
  }

  lemma SuffixCut(a: seq<string>, k: nat, j: nat)
    requires j <= k <= |a|
    ensures Suffix(a, k)[k - j..] == Suffix(a, j)
  {
  }

  lemma KeepsStep(s: State, accepted: seq<string>, id: string)
    requires Keeps(s, accepted)
    ensures var (t, dup) := Checked(s, id); Keeps(t, if dup then accepted else accepted + [id])
  {
    var n, k := |accepted|, |s.seenOrder|;
    KeptLengthStep(n);
    CheckedShape(s, id);
    if id !in s.seenOrder {
      NewIdKept(s, accepted, id);
      assert |accepted + [id]| == n + 1;
      KeptLengthStep(n + 1);
    }
  }

  lemma NewIdKept(s: State, accepted: seq<string>, id: string)
    requires s.dedup && NoRepeats(s.seenOrder) && s.seen == Elements(s.seenOrder) && id !in s.seenOrder
    requires |s.seenOrder| <= MAX_SEEN_IDS && |s.seenOrder| <= |accepted|
    requires s.seenOrder == Suffix(accepted, |s.seenOrder|)
    ensures var t := Checked(s, id).0;
      && |t.seenOrder| == (if |s.seenOrder| < MAX_SEEN_IDS then |s.seenOrder| + 1 else 5001) <= |accepted| + 1
      && t.seenOrder == Suffix(accepted + [id], |t.seenOrder|)
  {
    var k := |s.seenOrder|;
    CheckedShape(s, id);
    SuffixGrows(accepted, k, id);
    if k == MAX_SEEN_IDS {
      SuffixCut(accepted + [id], k + 1, 5001);
    }
  }

  /**
   * The kept list is the tail of the accepted ids, without repeats, its set is `seen`, and its
   * length depends on the number of accepted ids only: never above the cap, and never below 5001
   * once that many have been accepted.
   */
  lemma {:induction false} KeptTail(ids: seq<string>)
    ensures Keeps(After(ids), Accepted(ids))
    ensures var n := |Accepted(ids)|;
      (if n < 5001 then n else 5001) <= |After(ids).seenOrder| <= MAX_SEEN_IDS
    decreases |ids|
  {
    if ids != [] {
      var init, last := ids[..|ids| - 1], ids[|ids| - 1];
      KeptTail(init);
      KeepsStep(After(init), Accepted(init), last);
    }
    KeptLengthStep(|Accepted(ids)|);
  }

  // ---------- against unbounded dedup ----------

  /** Every id once, at its first arrival: what unbounded dedup lets through. */
  function Firsts(ids: seq<string>): (f: seq<string>)
    ensures forall x :: x in f <==> x in ids
  {
    if ids == [] then []
    else
      var init, last := ids[..|ids| - 1], ids[|ids| - 1];
      assert ids == init + [last];
      if last in init then Firsts(init) else Firsts(init) + [last]
  }

  /** On every arrival the filter answers what unbounded dedup would. */
  ghost predicate AnswersAgree(ids: seq<string>)
  {
    forall j :: 0 <= j < |ids| ==> AgreesAt(ids, j)
  }

  ghost predicate AgreesAt(ids: seq<string>, j: nat)
    requires j < |ids|
  {
    Answer(ids[..j + 1]) <==> ids[j] in ids[..j]
  }

  /** Every repeated id is among the first arrivals the filter still keeps when it comes again. */
  ghost predicate RepeatsInTime(ids: seq<string>)
  {
    forall j :: 0 <= j < |ids| ==> InTime(ids, j)
  }

  ghost predicate InTime(ids: seq<string>, j: nat)
    requires j < |ids|
  {
    var f := Firsts(ids[..j]);
    ids[j] in ids[..j] ==> KeptLength(|f|) <= |f| && ids[j] in Suffix(f, KeptLength(|f|))
  }

  lemma PrefixAgrees(ids: seq<string>)
    requires ids != []
    ensures AnswersAgree(ids) <==> AnswersAgree(ids[..|ids| - 1]) && AgreesAt(ids, |ids| - 1)
    ensures RepeatsInTime(ids) <==> RepeatsInTime(ids[..|ids| - 1]) && InTime(ids, |ids| - 1)
  {
    var init := ids[..|ids| - 1];
    forall j | 0 <= j < |init|
      ensures AgreesAt(init, j) == AgreesAt(ids, j) && InTime(init, j) == InTime(ids, j)
    {
      assert init[..j + 1] == ids[..j + 1] && init[..j] == ids[..j];
    }
  }

  /**
   * Exactly when the bounded filter is indistinguishable from unbounded dedup: when each repeat
   * arrives while its first arrival is still within the kept tail.
   */
  lemma {:induction false} BoundedMeetsUnbounded(ids: seq<string>)
    ensures AnswersAgree(ids) <==> RepeatsInTime(ids)
    ensures AnswersAgree(ids) ==> Accepted(ids) == Firsts(ids)
    decreases |ids|
  {
    if ids != [] {
      var init, last := ids[..|ids| - 1], ids[|ids| - 1];
      BoundedMeetsUnbounded(init);
      PrefixAgrees(ids);
      assert ids[..|ids| - 1 + 1] == ids;
      KeptTail(init);
      CheckedShape(After(init), last);
      if AnswersAgree(init) {
        var f := Firsts(init);
        assert Suffix(f, KeptLength(|f|)) == After(init).seenOrder;
      }
    }
  }

  /** In particular when every repeat arrives within 5000 accepted ids of its acceptance. */
  lemma RepeatsWithin5000(ids: seq<string>)
    requires forall j :: 0 <= j < |ids| && ids[j] in ids[..j] ==>
      var f := Firsts(ids[..j]); |f| <= 5001 || ids[j] in Suffix(f, 5001)
    ensures AnswersAgree(ids)
  {
    forall j | 0 <= j < |ids| ensures InTime(ids, j) {
      var f := Firsts(ids[..j]);
      var k := KeptLength(|f|);
      if ids[j] in ids[..j] {
        if |f| <= 5001 {
          assert Suffix(f, k) == f;
        } else {
          assert Suffix(f, 5001) == Suffix(Suffix(f, k), 5001);
        }
      }
    }
    BoundedMeetsUnbounded(ids);
  }
}
