/**
 * The hub's repo handle as the object the source has (hub/repo.go), with outcomes of the database
 * as parameters: whether the scan works, which uuid lookups fail, which persists fail.
 * Each method is proved against a function of the object's view, and an uninterrupted
 * `PublishNewCommits` is shown to be a run of the step machine in `HubNode`.
 */
module HubRepo {
  import opened Common
  import opened HubNode

  /** What the database does during one call. */
  datatype Outcomes = Outcomes(scanOk: bool, lookupFails: set<Rid>, persistFails: set<Rid>)

  /** The repo's tables, its watermark, and the calls made to the publish hook so far. */
  datatype View = View(
    events: map<Rid, Uuid>, row: Row, wired: bool, publishedRID: int, hooked: seq<(Rid, Uuid)>)

  // ---------- what a call promises ----------

  ghost predicate IsAscendingListing(s: set<Rid>, q: seq<Rid>)
  {
    StrictlyAscending(q) && forall r :: r in q <==> r in s
  }

  /** The members of `q` outside `bad`, in order. */
  function Without(q: seq<Rid>, bad: set<Rid>): (w: seq<Rid>)
    ensures forall r :: r in w <==> r in q && r !in bad
  {
    if q == [] then []
    else
      var rest := Without(q[..|q| - 1], bad);
      var last := q[|q| - 1];
      assert q == q[..|q| - 1] + [last];
      if last in bad then rest else rest + [last]
  }

  function Paired(q: seq<Rid>, events: map<Rid, Uuid>): seq<(Rid, Uuid)>
    requires forall r :: r in q ==> r in events
  {
    if q == [] then []
    else
      var last := q[|q| - 1];
      assert last in q;
      assert q == q[..|q| - 1] + [last];
      Paired(q[..|q| - 1], events) + [(last, events[last])]
  }

  function LastOr(q: seq<Rid>, otherwise: int): int
  {
    if q == [] then otherwise else q[|q| - 1]
  }

  function RowAfter(kept: seq<Rid>, otherwise: Row): Row
  {
    if kept == [] then otherwise else Value(kept[|kept| - 1])
  }

  /**
   * The promise of `publishNewCommits` for the rids `q` above the watermark: every one whose
   * lookup works is handed to the hook once, in order; the watermark is the last of them; the row
   * is the last of them that could be persisted. Without a hook, or when the scan fails, nothing.
   */
  ghost predicate PublishedAll(v: View, v': View, q: seq<Rid>, o: Outcomes)
    requires forall r :: r in q ==> r in v.events
  {
    var found := Without(q, o.lookupFails);
    var kept := Without(found, o.persistFails);
    && v'.events == v.events && v'.wired == v.wired
    && v'.hooked == v.hooked + Paired(found, v.events)
    && v'.publishedRID == LastOr(found, v.publishedRID)
    && v'.row == RowAfter(kept, v.row)
  }

  ghost predicate PublishPromise(v: View, v': View, o: Outcomes)
  {
    if !v.wired || !o.scanOk then v' == v
    else exists q ::
      && IsAscendingListing(Above(v.events, v.publishedRID), q)
      && PublishedAll(v, v', q, o)
  }

  /** The promise of `initPublishWatermark`: a readable row is loaded; otherwise the watermark is the
      largest rid in the table, or 0 without any, and is persisted if it can be; when that query
      fails too, nothing changes. */
  ghost predicate Restored(v: View, v': View, readOk: bool, maxOk: bool, persistOk: bool)
  {
    && v'.events == v.events && v'.wired == v.wired && v'.hooked == v.hooked
    && if readOk && v.row.Value? then v'.publishedRID == v.row.rid && v'.row == v.row
       else if maxOk then
         && (if v.events == map[] then v'.publishedRID == 0 else v'.publishedRID in v.events)
         && (forall r :: r in v.events ==> r <= v'.publishedRID)
         && v'.row == if persistOk then Value(v'.publishedRID) else v.row
       else v'.publishedRID == v.publishedRID && v'.row == v.row
  }

  /** An event above the watermark whose uuid can be looked up. */
  predicate IsNew(v: View, o: Outcomes, r: Rid)
  {
    r in v.events && r > v.publishedRID && r !in o.lookupFails
  }

  /** What a publish hands to the hook and what it leaves: the new events with their uuids, ascending and
      each once; the watermark at the largest of them; the row at the largest whose persist worked. */
  ghost predicate HandedOver(v: View, v': View, o: Outcomes)
  {
    && |v.hooked| <= |v'.hooked| && v.hooked == v'.hooked[..|v.hooked|]
    && (forall i :: |v.hooked| <= i < |v'.hooked| ==>
          IsNew(v, o, v'.hooked[i].0) && v'.hooked[i].1 == v.events[v'.hooked[i].0])
    && (forall i, j :: |v.hooked| <= i < j < |v'.hooked| ==> v'.hooked[i].0 < v'.hooked[j].0)
    && (forall r :: IsNew(v, o, r) ==> (r, v.events[r]) in v'.hooked[|v.hooked|..] && r <= v'.publishedRID)
    && (v'.publishedRID == v.publishedRID || IsNew(v, o, v'.publishedRID))
    && (v'.row == v.row
        || (v'.row.Value? && IsNew(v, o, v'.row.rid) && v'.row.rid !in o.persistFails))
    && (forall r :: IsNew(v, o, r) && r !in o.persistFails ==> v'.row.Value? && r <= v'.row.rid)
  }

  // ---------- the object ----------

  class Repo {
    var events: map<Rid, Uuid>
    var row: Row
    var wired: bool
    var publishedRID: int
    var hooked: seq<(Rid, Uuid)>

    ghost function Sees(): (v: View)
      reads this
    {
      View(events, row, wired, publishedRID, hooked)
    }

    constructor ()
      ensures Sees() == View(map[], Absent, false, 0, [])
    {
      events, row, wired, publishedRID, hooked := map[], Absent, false, 0, [];
    }

    /** `SELECT objid FROM event WHERE objid > ? ORDER BY objid`. */
    method Scan() returns (rids: seq<Rid>)
      ensures IsAscendingListing(Above(events, publishedRID), rids)
    {
      var all := Above(events, publishedRID);
      var rest := all;
      rids := [];
      while rest != {}
        invariant rest <= all
        invariant StrictlyAscending(rids)
        invariant forall r :: r in rids <==> r in all && r !in rest
        invariant forall x, y :: x in rids && y in rest ==> x < y
        decreases rest
      {
        var least := Least(rest);
        assert forall i :: 0 <= i < |rids| ==> rids[i] in rids;
        rids := rids + [least];
        rest := rest - {least};
      }
    }

    method PublishNewCommits(o: Outcomes)
      modifies this
      ensures PublishPromise(old(Sees()), Sees(), o)
      ensures wired && o.scanOk ==> HandedOver(old(Sees()), Sees(), o)
    {
      if !wired {
        return;
      }
      if !o.scanOk {
        return;
      }
      var rids := Scan();
      PublishListed(rids, o);
      PublishedIsHandedOver(old(Sees()), Sees(), rids, o);
    }

    /** The loop over the scanned rids. */
    method PublishListed(rids: seq<Rid>, o: Outcomes)
      requires forall r :: r in rids ==> r in events
      modifies this
      ensures PublishedAll(old(Sees()), Sees(), rids, o)
    {
      ghost var v, w := Sees(), Sees();
      for i := 0 to |rids|
        invariant forall r :: r in rids ==> r in v.events
        invariant Sees() == w && w.events == v.events
        invariant PublishedAll(v, w, rids[..i], o)
      {
        var rid := rids[i];
        PromiseStep(v, w, rids[..i], rid, o);
        assert rids[..i + 1] == rids[..i] + [rid];
        w := PublishOne(w, rid, o);
        if rid in o.lookupFails {
          continue;
        }
        hooked := hooked + [(rid, events[rid])];
        publishedRID := rid;
        if rid !in o.persistFails {
          row := Value(rid);
        }
      }
      assert rids[..|rids|] == rids;
    }

    /** `initPublishWatermark`. */
    method InitPublishWatermark(readOk: bool, maxOk: bool, persistOk: bool)
      modifies this
      ensures Restored(old(Sees()), Sees(), readOk, maxOk, persistOk)
    {
      if readOk && row.Value? {
        publishedRID := row.rid;
        return;
      }
      if !maxOk {
        return;
      }
      var maxRID := 0;
      if events.Keys != {} {
        maxRID := Greatest(events.Keys);
      }
      publishedRID := maxRID;
      if persistOk {
        row := Value(maxRID);
      }
    }

    /** `Commit`: an empty author or a failed libfossil commit is an error and changes nothing;
        otherwise the event lands above all others and the publish runs. */
    method Commit(author: string, commitOk: bool, rid: Rid, uuid: Uuid, o: Outcomes) returns (r: Result<Uuid>)
      requires forall e :: e in events ==> e < rid
      modifies this
      ensures r.Ok? <==> author != "" && commitOk
      ensures r.Err? ==> Sees() == old(Sees())
      ensures r.Ok? ==> r.value == uuid
      ensures r.Ok? ==> PublishPromise(old(Sees()).(events := old(events)[rid := uuid]), Sees(), o)
    {
      if author == "" {
        return Err("hub: Commit: Author is required");
      }
      if !commitOk {
        return Err("hub: commit");
      }
      events := events[rid := uuid];
      PublishNewCommits(o);
      r := Ok(uuid);
    }
  }

  lemma {:induction false} HasGreatest(s: set<Rid>)
    requires s != {}
    ensures exists r :: r in s && forall x :: x in s ==> x <= r
  {
    var negated := set x | x in s :: -x;
    var a := Pick(s);
    assert -a in negated;
    HasLeast(negated);
    var r :| r in negated && forall x :: x in negated ==> r <= x;
    assert -r in s;
    forall x | x in s ensures x <= -r {
      assert -x in negated;
    }
  }

  function Greatest(s: set<Rid>): (r: Rid)
    requires s != {}
    ensures r in s && forall x :: x in s ==> x <= r
  {
    HasGreatest(s);
    var r :| r in s && forall x :: x in s ==> x <= r;
    r
  }

  /** What one turn of the loop does. */
  function PublishOne(v: View, rid: Rid, o: Outcomes): View
    requires rid in v.events
  {
    if rid in o.lookupFails then v
    else v.(hooked := v.hooked + [(rid, v.events[rid])], publishedRID := rid,
            row := if rid in o.persistFails then v.row else Value(rid))
  }

  lemma WithoutSnoc(q: seq<Rid>, rid: Rid, bad: set<Rid>)
    ensures Without(q + [rid], bad) == if rid in bad then Without(q, bad) else Without(q, bad) + [rid]
  {
    assert (q + [rid])[..|q|] == q;
  }

  lemma PairedSnoc(q: seq<Rid>, rid: Rid, events: map<Rid, Uuid>)
    requires rid in events && forall r :: r in q ==> r in events
    ensures Paired(q + [rid], events) == Paired(q, events) + [(rid, events[rid])]
  {
    assert (q + [rid])[..|q|] == q;
  }

  lemma PromiseStep(v: View, v1: View, q: seq<Rid>, rid: Rid, o: Outcomes)
    requires rid in v.events && forall r :: r in q ==> r in v.events
    requires PublishedAll(v, v1, q, o)
    ensures PublishedAll(v, PublishOne(v1, rid, o), q + [rid], o)
  {
    var found := Without(q, o.lookupFails);
    WithoutSnoc(q, rid, o.lookupFails);
    if rid !in o.lookupFails {
      WithoutSnoc(found, rid, o.persistFails);
      MarksSnoc(found, Without(found, o.persistFails), rid, v.publishedRID, v.row);
      PairedSnoc(found, rid, v.events);
      assert v.hooked + (Paired(found, v.events) + [(rid, v.events[rid])])
          == (v.hooked + Paired(found, v.events)) + [(rid, v.events[rid])];
    }
  }

  lemma MarksSnoc(found: seq<Rid>, kept: seq<Rid>, rid: Rid, watermark: int, row: Row)
    ensures LastOr(found + [rid], watermark) == rid
    ensures RowAfter(kept + [rid], row) == Value(rid)
  {
  }

  lemma {:induction false} PairedAt(q: seq<Rid>, events: map<Rid, Uuid>, i: nat)
    requires i < |q| && forall r :: r in q ==> r in events
    ensures |Paired(q, events)| == |q| && Paired(q, events)[i] == (q[i], events[q[i]])
  {
    var init := q[..|q| - 1];
    assert q == init + [q[|q| - 1]];
    if init != [] {
      PairedAt(init, events, if i < |init| then i else 0);
    }
  }

  // ---------- the call as a run of the step machine ----------

  /** The steps the loop takes for the rids `q`. */
  function LoopSteps(q: seq<Rid>, o: Outcomes): seq<Step>
  {
    if q == [] then []
    else
      (if q[0] in o.lookupFails then [LookupFail(q[0])]
       else [LookupOk(q[0]), Announce, Advance, Persist(q[0] !in o.persistFails)])
      + LoopSteps(q[1..], o)
  }

  /** The state the loop leaves behind, rid by rid. */
  function AfterLoop(s: State, q: seq<Rid>, o: Outcomes): State
    requires s.section.Busy?
    decreases |q|
  {
    if q == [] then s
    else
      var r := q[0];
      var rest := s.section.(stage := Ready, queue := s.section.queue - {r});
      if r in o.lookupFails then
        AfterLoop(s.(section := rest, failed := s.failed + {r}), q[1..], o)
      else
        AfterLoop(s.(section := rest, run := s.run + [r], emitted := s.emitted + {r}, publishedRID := r,
                     row := if r in o.persistFails then s.row else Value(r)), q[1..], o)
  }

  lemma SingleRid(s: State, r: Rid, o: Outcomes)
    requires s.section.Busy?
    ensures var rest := s.section.(stage := Ready, queue := s.section.queue - {r});
      AfterLoop(s, [r], o) ==
        if r in o.lookupFails then s.(section := rest, failed := s.failed + {r})
        else s.(section := rest, run := s.run + [r], emitted := s.emitted + {r}, publishedRID := r,
                row := if r in o.persistFails then s.row else Value(r))
  {
    assert [r][1..] == [];
  }

  lemma OneRid(s: State, r: Rid, o: Outcomes)
    requires s.up && IsNext(s, r)
    ensures var steps := LoopSteps([r], o);
      Runnable(s, steps) && Run(s, steps) == AfterLoop(s, [r], o)
  {
    assert LoopSteps([r][1..], o) == [];
    if r in o.lookupFails {
      assert LoopSteps([r], o) == [LookupFail(r)];
    } else {
      var p := Persist(r !in o.persistFails);
      var s1 := Next(s, LookupOk(r));
      var s2 := Next(s1, Announce);
      var s3 := Next(s2, Advance);
      assert LoopSteps([r], o) == [LookupOk(r), Announce] + [Advance, p];
      assert [Advance, p][1..] == [p];
      SingleStep(s3, p);
      assert Runnable(s2, [Advance, p]) && Run(s2, [Advance, p]) == Next(s3, p);
      assert [LookupOk(r), Announce][1..] == [Announce];
      assert Runnable(s1, [Announce]) && Run(s1, [Announce]) == s2;
      assert Runnable(s, [LookupOk(r), Announce]) && Run(s, [LookupOk(r), Announce]) == s2;
      RunSplit(s, [LookupOk(r), Announce], [Advance, p]);
    }
  }

  /** The rest of a listing lists the rest of the set, and its head is the least. */
  lemma ListingTail(s: set<Rid>, q: seq<Rid>)
    requires IsAscendingListing(s, q) && q != []
    ensures q[0] in s && (forall x :: x in s ==> q[0] <= x)
    ensures IsAscendingListing(s - {q[0]}, q[1..])
  {
    assert q[0] in q;
    assert forall x :: x in q <==> x == q[0] || x in q[1..];
    assert q[0] !in q[1..];
  }

  lemma LoopStepsHead(q: seq<Rid>, o: Outcomes)
    requires q != []
    ensures LoopSteps(q, o) == LoopSteps([q[0]], o) + LoopSteps(q[1..], o)
  {
    assert LoopSteps([q[0]][1..], o) == [];
  }

  lemma AfterLoopHead(s: State, q: seq<Rid>, o: Outcomes)
    requires s.section.Busy? && q != []
    ensures var t := AfterLoop(s, [q[0]], o);
      && t.up == s.up
      && t.section == s.section.(stage := Ready, queue := s.section.queue - {q[0]})
      && AfterLoop(s, q, o) == AfterLoop(t, q[1..], o)
  {
    SingleRid(s, q[0], o);
  }

  lemma {:induction false} LoopIsRun(s: State, q: seq<Rid>, o: Outcomes)
    requires s.up && s.section.Busy? && s.section.stage.Ready?
    requires IsAscendingListing(s.section.queue, q)
    ensures Runnable(s, LoopSteps(q, o)) && Run(s, LoopSteps(q, o)) == AfterLoop(s, q, o)
    ensures AfterLoop(s, q, o).section == Busy(s.section.holder, Ready, {}, s.section.horizon)
    decreases |q|
  {
    if q == [] {
      assert forall x :: x in s.section.queue ==> x in q;
      assert s.section.queue == {};
    } else {
      ListingTail(s.section.queue, q);
      OneRid(s, q[0], o);
      AfterLoopHead(s, q, o);
      LoopIsRun(AfterLoop(s, [q[0]], o), q[1..], o);
      LoopStepsHead(q, o);
      RunSplit(s, LoopSteps([q[0]], o), LoopSteps(q[1..], o));
    }
  }

  lemma {:induction false} WithoutHead(q: seq<Rid>, bad: set<Rid>)
    requires q != []
    ensures Without(q, bad) == (if q[0] in bad then [] else [q[0]]) + Without(q[1..], bad)
    decreases |q|
  {
    if |q| > 1 {
      WithoutHead(q[..|q| - 1], bad);
      assert q[..|q| - 1][1..] == q[1..][..|q| - 2];
    }
  }

  /** `t` is `s` after the loop has gone through `q`, said without the loop. */
  ghost predicate LoopMeaning(s: State, t: State, q: seq<Rid>, o: Outcomes)
  {
    var found := Without(q, o.lookupFails);
    var kept := Without(found, o.persistFails);
    && t.run == s.run + found
    && t.publishedRID == LastOr(found, s.publishedRID)
    && t.row == RowAfter(kept, s.row)
    && t.events == s.events && t.up == s.up && t.calls == s.calls
  }

  lemma LoopMeaningHead(s: State, t: State, q: seq<Rid>, o: Outcomes)
    requires s.section.Busy? && q != []
    requires LoopMeaning(AfterLoop(s, [q[0]], o), t, q[1..], o)
    ensures LoopMeaning(s, t, q, o)
  {
    SingleRid(s, q[0], o);
    HeadOfListing(s.run, s.publishedRID, s.row, q, o);
  }

  lemma HeadOfListing(run: seq<Rid>, watermark: int, row: Row, q: seq<Rid>, o: Outcomes)
    requires q != []
    ensures var found, rest := Without(q, o.lookupFails), Without(q[1..], o.lookupFails);
      if q[0] in o.lookupFails then found == rest
      else
        && run + found == run + [q[0]] + rest
        && LastOr(found, watermark) == LastOr(rest, q[0])
        && RowAfter(Without(found, o.persistFails), row) ==
           RowAfter(Without(rest, o.persistFails), if q[0] in o.persistFails then row else Value(q[0]))
  {
    WithoutHead(q, o.lookupFails);
    var rest := Without(q[1..], o.lookupFails);
    if q[0] in o.lookupFails {
      assert [] + rest == rest;
    } else {
      WithoutCons(q[0], rest, o.persistFails);
      assert run + [q[0]] + rest == run + ([q[0]] + rest);
    }
  }

  lemma WithoutCons(r: Rid, q: seq<Rid>, bad: set<Rid>)
    ensures Without([r] + q, bad) == (if r in bad then [] else [r]) + Without(q, bad)
    ensures forall row :: RowAfter(Without([r] + q, bad), row) ==
              RowAfter(Without(q, bad), if r in bad then row else Value(r))
  {
    WithoutHead([r] + q, bad);
    assert ([r] + q)[1..] == q;
  }

  /** The loop's fold agrees with the declarative promise. */
  lemma {:induction false} AfterLoopMeaning(s: State, q: seq<Rid>, o: Outcomes)
    requires s.section.Busy?
    ensures LoopMeaning(s, AfterLoop(s, q, o), q, o)
    decreases |q|
  {
    if q != [] {
      SingleRid(s, q[0], o);
      var t := AfterLoop(s, [q[0]], o);
      assert AfterLoop(s, q, o) == AfterLoop(t, q[1..], o);
      AfterLoopMeaning(t, q[1..], o);
      LoopMeaningHead(s, AfterLoop(s, q, o), q, o);
    }
  }

  /**
   * An uninterrupted `PublishNewCommits` of a running hub is a run of the step machine from one
   * free section to the next, and what the object promises is what that run leaves: the same
   * announcements, watermark and row. So the object inherits every property of the runs.
   */
  lemma PublishIsRun(s: State, q: seq<Rid>, o: Outcomes) returns (steps: seq<Step>)
    requires Inv(s) && s.up && s.section.Free? && o.scanOk
    requires IsAscendingListing(Above(s.events, s.publishedRID), q)
    ensures Runnable(s, steps)
    ensures var t := Run(s, steps);
      var v := View(s.events, s.row, true, s.publishedRID, []);
      && t.section.Free?
      && PublishedAll(v, v.(row := t.row, publishedRID := t.publishedRID,
                            hooked := Paired(Without(q, o.lookupFails), s.events)), q, o)
      && t.run == s.run + Without(q, o.lookupFails)
  {
    var s1 := Next(s, BeginScan(None));
    LoopIsRun(s1, q, o);
    AfterLoopMeaning(s1, q, o);
    var s2 := AfterLoop(s1, q, o);
    assert Runnable(s, [BeginScan(None)]) && Run(s, [BeginScan(None)]) == s1;
    RunSplit(s, [BeginScan(None)], LoopSteps(q, o));
    assert Runnable(s2, [Finish]) && Run(s2, [Finish]) == Next(s2, Finish);
    RunSplit(s, [BeginScan(None)] + LoopSteps(q, o), [Finish]);
    steps := [BeginScan(None)] + LoopSteps(q, o) + [Finish];
  }

  lemma {:induction false} WithoutAscends(q: seq<Rid>, bad: set<Rid>)
    requires StrictlyAscending(q)
    ensures StrictlyAscending(Without(q, bad))
    decreases |q|
  {
    if q != [] {
      var init := q[..|q| - 1];
      WithoutAscends(init, bad);
      var w := Without(init, bad);
      forall i | 0 <= i < |w| ensures w[i] < q[|q| - 1] {
        assert w[i] in init;
      }
    }
  }

  lemma LastIsLargest(q: seq<Rid>, r: Rid)
    requires StrictlyAscending(q) && r in q
    ensures r <= q[|q| - 1] && q[|q| - 1] in q
  {
  }

  lemma PairedList(q: seq<Rid>, events: map<Rid, Uuid>)
    requires forall r :: r in q ==> r in events
    ensures |Paired(q, events)| == |q|
    ensures forall i :: 0 <= i < |q| ==> q[i] in q && Paired(q, events)[i] == (q[i], events[q[i]])
  {
    if q != [] {
      PairedAt(q, events, 0);
    }
    forall i | 0 <= i < |q| ensures q[i] in q && Paired(q, events)[i] == (q[i], events[q[i]]) {
      PairedAt(q, events, i);
    }
  }

  lemma PublishedIsHandedOver(v: View, v': View, q: seq<Rid>, o: Outcomes)
    requires IsAscendingListing(Above(v.events, v.publishedRID), q) && PublishedAll(v, v', q, o)
    ensures HandedOver(v, v', o)
  {
    var found := Without(q, o.lookupFails);
    WithoutAscends(q, o.lookupFails);
    assert forall r :: r in found <==> IsNew(v, o, r);
    HookedIsFound(v, v', found, o);
    LastIsLast(found, v.publishedRID);
    WithoutAscends(found, o.persistFails);
    RowIsLast(Without(found, o.persistFails), v.row);
  }

  lemma LastIsLast(q: seq<Rid>, otherwise: int)
    requires StrictlyAscending(q)
    ensures forall r :: r in q ==> r <= LastOr(q, otherwise)
    ensures LastOr(q, otherwise) == otherwise || LastOr(q, otherwise) in q
  {
    forall r | r in q ensures r <= LastOr(q, otherwise) {
      LastIsLargest(q, r);
    }
  }

  lemma RowIsLast(q: seq<Rid>, otherwise: Row)
    requires StrictlyAscending(q)
    ensures forall r :: r in q ==> RowAfter(q, otherwise).Value? && r <= RowAfter(q, otherwise).rid
    ensures RowAfter(q, otherwise) == otherwise || (RowAfter(q, otherwise).Value? && RowAfter(q, otherwise).rid in q)
  {
    LastIsLast(q, 0);
  }

  lemma HookedIsFound(v: View, v': View, found: seq<Rid>, o: Outcomes)
    requires StrictlyAscending(found) && forall r :: r in found <==> IsNew(v, o, r)
    requires forall r :: r in found ==> r in v.events
    requires v'.hooked == v.hooked + Paired(found, v.events)
    ensures var k := |v.hooked|;
      && k <= |v'.hooked| && v.hooked == v'.hooked[..k]
      && (forall i :: k <= i < |v'.hooked| ==>
            IsNew(v, o, v'.hooked[i].0) && v'.hooked[i].1 == v.events[v'.hooked[i].0])
      && (forall i, j :: k <= i < j < |v'.hooked| ==> v'.hooked[i].0 < v'.hooked[j].0)
      && (forall r :: IsNew(v, o, r) ==> (r, v.events[r]) in v'.hooked[k..])
  {
    var k, pairs := |v.hooked|, Paired(found, v.events);
    PairedList(found, v.events);
    assert v'.hooked[..k] == v.hooked && v'.hooked[k..] == pairs;
    forall i | k <= i < |v'.hooked| ensures v'.hooked[i] == pairs[i - k] && pairs[i - k].0 == found[i - k] {
    }
    forall r | IsNew(v, o, r) ensures (r, v.events[r]) in pairs {
      PairIsListed(found, v.events, r);
    }
  }

  lemma PairIsListed(q: seq<Rid>, events: map<Rid, Uuid>, r: Rid)
    requires r in q && forall x :: x in q ==> x in events
    ensures (r, events[r]) in Paired(q, events)
  {
    var i :| 0 <= i < |q| && q[i] == r;
    PairedAt(q, events, i);
  }

  /** A commit call that gets the section comes back from it, with its rid announced or its lookup
      failed, and no other call is touched. When every persist works the row is at the watermark. */
  lemma CommitReturns(s: State, id: nat, q: seq<Rid>, o: Outcomes)
    requires Inv(s) && s.up && s.section.Free? && id in s.calls && s.calls[id].Waiting?
    requires IsAscendingListing(Above(s.events, s.publishedRID), q)
    ensures var steps := [BeginScan(Some(id))] + LoopSteps(q, o) + [Finish];
      && Runnable(s, steps)
      && var t, rid := Run(s, steps), s.calls[id].rid;
         && t.section.Free? && t.calls == s.calls[id := Returned(rid, true)] && t.events == s.events
         && (rid in t.run || rid in t.failed)
         && (o.persistFails == {} && t.publishedRID != s.publishedRID ==> t.row == Value(t.publishedRID))
  {
    var s1 := Next(s, BeginScan(Some(id)));
    SingleStep(s, BeginScan(Some(id)));
    LoopIsRun(s1, q, o);
    AfterLoopMeaning(s1, q, o);
    var s2 := AfterLoop(s1, q, o);
    SingleStep(s2, Finish);
    RunSplit(s, [BeginScan(Some(id))], LoopSteps(q, o));
    RunSplit(s, [BeginScan(Some(id))] + LoopSteps(q, o), [Finish]);
    RunKeeps(s, [BeginScan(Some(id))] + LoopSteps(q, o) + [Finish]);
    assert Next(s2, Finish).calls[id] == Returned(s.calls[id].rid, true);
    if o.persistFails == {} {
      WithoutNothing(Without(q, o.lookupFails));
    }
  }

  /** The whole of a commit call that is not interrupted: its event lands, it waits, it publishes, and it
      comes back with its rid announced or its lookup failed. */
  lemma CommitCallIsRun(s: State, id: nat, rid: Rid, uuid: Uuid, q: seq<Rid>, o: Outcomes)
    requires Inv(s) && s.section.Free? && Enabled(s, CommitLand(id, rid, uuid))
    requires IsAscendingListing(Above(s.events[rid := uuid], s.publishedRID), q)
    ensures var steps := [CommitLand(id, rid, uuid)] + ([BeginScan(Some(id))] + LoopSteps(q, o) + [Finish]);
      && Runnable(s, steps)
      && var t := Run(s, steps);
         && t.events == s.events[rid := uuid] && t.calls == s.calls[id := Returned(rid, true)]
         && (rid in t.run || rid in t.failed)
  {
    var land := CommitLand(id, rid, uuid);
    var publish := [BeginScan(Some(id))] + LoopSteps(q, o) + [Finish];
    var s1 := Next(s, land);
    HubNode.StepKeeps(s, land);
    SingleStep(s, land);
    assert s1.events == s.events[rid := uuid];
    CommitReturns(s1, id, q, o);
    RunSplit(s, [land], publish);
    assert s1.calls[id := Returned(rid, true)] == s.calls[id := Returned(rid, true)];
  }

  /** Likewise the object's start is the step machine's: what `initPublishWatermark` promises to a
      new object over the hub's tables determines its row and watermark, and they are those after
      `Start`. */
  lemma RestoreIsStart(s: State, v': View, readOk: bool, maxOk: bool, persistOk: bool)
    requires Inv(s) && !s.up
    ensures var t := Next(s, Start(readOk, maxOk, persistOk));
      Restored(View(s.events, s.row, true, 0, []), v', readOk, maxOk, persistOk)
      <==> v' == View(t.events, t.row, true, t.publishedRID, [])
  {
    var t := Next(s, Start(readOk, maxOk, persistOk));
    if s.events != map[] {
      assert s.top in s.events;
    }
  }

  /** A publish with no failing lookup leaves nothing above the watermark. */
  lemma CleanPublishDrains(v: View, v': View, o: Outcomes)
    requires v.wired && o.scanOk && o.lookupFails == {} && PublishPromise(v, v', o)
    ensures Above(v'.events, v'.publishedRID) == {}
    ensures forall r :: r in v.events && r > v.publishedRID ==> (r, v.events[r]) in v'.hooked
  {
    var q :| IsAscendingListing(Above(v.events, v.publishedRID), q) && PublishedAll(v, v', q, o);
    WithoutNothing(q);
    forall r | r in v.events && r > v.publishedRID
      ensures r <= v'.publishedRID && (r, v.events[r]) in v'.hooked
    {
      assert r in q;
      DrainedRid(v, v', q, r);
    }
  }

  lemma DrainedRid(v: View, v': View, q: seq<Rid>, r: Rid)
    requires r in q && StrictlyAscending(q) && forall x :: x in q ==> x in v.events
    requires v'.hooked == v.hooked + Paired(q, v.events) && v'.publishedRID == LastOr(q, v.publishedRID)
    ensures r <= v'.publishedRID && (r, v.events[r]) in v'.hooked
  {
    var i :| 0 <= i < |q| && q[i] == r;
    PairedAt(q, v.events, i);
    assert v'.hooked[|v.hooked| + i] == (r, v.events[r]);
  }

  lemma {:induction false} WithoutNothing(q: seq<Rid>)
    ensures Without(q, {}) == q
    decreases |q|
  {
    if q != [] {
      WithoutNothing(q[..|q| - 1]);
    }
  }
}
