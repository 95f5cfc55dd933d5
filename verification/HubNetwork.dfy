/**
 * Any number of hubs that announce commits to each other (hub/hub.go). Hubs are numbered; the
 * number stands for the NATS server name that a notification carries as its peer id.
 *
 * `sent` keeps every notification ever published, and any of them may be delivered to any hub,
 * in any order, any number of times or never: the network loses, duplicates and reorders.
 */
module HubNetwork {
  import opened Common
  import opened HubNode

  type HubId = nat

  datatype Note = Note(peer: HubId, rid: Rid, uuid: Uuid)

  /** A hub and the notifications whose pull has succeeded there. */
  datatype Hub = Hub(node: HubNode.State, reached: set<Note>)

  datatype Net = Net(
    hubs: seq<Hub>,
    created: set<Uuid>,              // every commit that exists anywhere
    sent: set<Note>,
    pulls: set<(HubId, HubId)>)      // history: who pulled from whom

  datatype NetStep =
    | Local(h: HubId, step: HubNode.Step)
    | Deliver(h: HubId, note: Note, news: map<Rid, Uuid>, top: Rid, complete: bool)

  ghost predicate Holds(s: HubNode.State, u: Uuid)
  {
    exists r :: r in s.events && s.events[r] == u
  }

  /** The uuids a local step brings into existence: a commit, an outside push, an offline tool. */
  function NewUuids(step: HubNode.Step): set<Uuid>
  {
    match step
    case Land(news, _) => set r | r in news :: news[r]
    case CommitLand(_, _, uuid) => {uuid}
    case _ => {}
  }

  function Announcement(n: Net, h: HubId, step: HubNode.Step): set<Note>
    requires h < |n.hubs|
  {
    var s := n.hubs[h].node;
    if step.Announce? && s.section.Busy? && s.section.stage.Looked? && s.section.stage.rid in s.events
    then {Note(h, s.section.stage.rid, s.events[s.section.stage.rid])} else {}
  }

  ghost predicate NetEnabled(n: Net, st: NetStep)
  {
    match st
    case Local(h, step) => h < |n.hubs| && Enabled(n.hubs[h].node, step)
    case Deliver(h, note, news, top, complete) =>
      && h < |n.hubs| && n.hubs[h].node.up && note in n.sent && note.peer < |n.hubs|
      && (note.peer != h ==>
            var me, peer := n.hubs[h].node, n.hubs[note.peer].node;
            && CanLand(me, news, top)
            && (forall r :: r in news ==> Holds(peer, news[r]))
            && (complete ==> peer.up && forall r :: r in peer.events ==>
                  Holds(me.(events := me.events + news), peer.events[r])))
  }

  /** The subscriber callback: a hub ignores its own notifications and otherwise pulls from the
      announcing peer. A pull that fails may still have landed any part. Pulls publish nothing. */
  function NetNext(n: Net, st: NetStep): Net
    requires NetEnabled(n, st)
  {
    match st
    case Local(h, step) =>
      n.(hubs := n.hubs[h := n.hubs[h].(node := Next(n.hubs[h].node, step))],
         created := n.created + NewUuids(step),
         sent := n.sent + Announcement(n, h, step))
    case Deliver(h, note, news, top, complete) =>
      if note.peer == h then n
      else
        var me := n.hubs[h];
        n.(hubs := n.hubs[h := Hub(Next(me.node, Land(news, top)),
                                   if complete then me.reached + {note} else me.reached)],
           pulls := n.pulls + {(h, note.peer)})
  }

  ghost predicate NetRunnable(n: Net, steps: seq<NetStep>)
    decreases |steps|
  {
    steps == [] || (NetEnabled(n, steps[0]) && NetRunnable(NetNext(n, steps[0]), steps[1..]))
  }

  function NetRun(n: Net, steps: seq<NetStep>): Net
    requires NetRunnable(n, steps)
    decreases |steps|
  {
    if steps == [] then n else NetRun(NetNext(n, steps[0]), steps[1..])
  }

  // ---------- invariant ----------

  ghost predicate NoteInv(n: Net, note: Note)
  {
    && note.peer < |n.hubs|
    && note.rid in n.hubs[note.peer].node.events
    && n.hubs[note.peer].node.events[note.rid] == note.uuid
  }

  ghost predicate HubInv(n: Net, h: HubId)
    requires h < |n.hubs|
  {
    var s := n.hubs[h].node;
    && Inv(s)
    && (forall r :: r in s.events ==> s.events[r] in n.created)
    && (forall r :: r in s.emitted && r in s.events ==> Note(h, r, s.events[r]) in n.sent)
    && n.hubs[h].reached <= n.sent
    && (forall note :: note in n.hubs[h].reached ==> Holds(s, note.uuid))
  }

  ghost predicate NetInv(n: Net)
  {
    && (forall h :: 0 <= h < |n.hubs| ==> HubInv(n, h))
    && (forall note :: note in n.sent ==> NoteInv(n, note))
    && (forall p :: p in n.pulls ==> p.0 != p.1)
  }

  /** Hubs that have not published yet, over whatever their repositories hold. */
  ghost predicate FreshNet(n: Net)
  {
    && n.sent == {} && n.pulls == {}
    && (forall h :: 0 <= h < |n.hubs| ==> Fresh(n.hubs[h].node) && n.hubs[h].reached == {})
    && (forall h, r :: 0 <= h < |n.hubs| && r in n.hubs[h].node.events ==> n.hubs[h].node.events[r] in n.created)
  }

  lemma FreshNetHolds(n: Net)
    requires FreshNet(n)
    ensures NetInv(n) && Backlog(n)
  {
    forall h | 0 <= h < |n.hubs| ensures HubInv(n, h) {
      FreshHolds(n.hubs[h].node);
    }
  }

  lemma EventsGrow(s: HubNode.State, step: HubNode.Step)
    requires Inv(s) && Enabled(s, step)
    ensures forall r :: r in s.events ==> r in Next(s, step).events && Next(s, step).events[r] == s.events[r]
    ensures forall u :: Holds(s, u) ==> Holds(Next(s, step), u)
  {
    if step.Land? || step.CommitLand? {
      assert forall r :: r in s.events ==> r <= s.top;
    }
    var t := Next(s, step);
    forall u | Holds(s, u) ensures Holds(t, u) {
      var r :| r in s.events && s.events[r] == u;
      assert t.events[r] == u;
    }
  }

  lemma LocalHubKeeps(n: Net, h: HubId, step: HubNode.Step)
    requires NetInv(n) && NetEnabled(n, Local(h, step))
    ensures HubInv(NetNext(n, Local(h, step)), h)
  {
    var s := n.hubs[h].node;
    assert HubInv(n, h);
    StepKeeps(s, step);
    EventsGrow(s, step);
    var t := Next(s, step);
    forall r | r in t.events ensures t.events[r] in n.created + NewUuids(step) {
      if r !in s.events && step.Land? {
        assert step.news[r] in NewUuids(step);
      }
    }
  }

  lemma LocalKeeps(n: Net, h: HubId, step: HubNode.Step)
    requires NetInv(n) && NetEnabled(n, Local(h, step))
    ensures NetInv(NetNext(n, Local(h, step)))
  {
    var n' := NetNext(n, Local(h, step));
    var s := n.hubs[h].node;
    assert HubInv(n, h);
    LocalHubKeeps(n, h, step);
    EventsGrow(s, step);
    forall k | 0 <= k < |n'.hubs| ensures HubInv(n', k) {
      assert HubInv(n, k);
    }
    forall note | note in n'.sent ensures NoteInv(n', note) {
      if note in n.sent {
        assert NoteInv(n, note);
      }
    }
  }

  lemma DeliverHubKeeps(n: Net, st: NetStep)
    requires NetInv(n) && st.Deliver? && NetEnabled(n, st) && st.note.peer != st.h
    ensures HubInv(NetNext(n, st), st.h)
  {
    var s := n.hubs[st.h].node;
    var peer := n.hubs[st.note.peer].node;
    var t := NetNext(n, st).hubs[st.h].node;
    assert HubInv(n, st.h) && HubInv(n, st.note.peer);
    assert NoteInv(n, st.note);
    StepKeeps(s, Land(st.news, st.top));
    EventsGrow(s, Land(st.news, st.top));
    forall r | r in t.events ensures t.events[r] in n.created {
      if r in st.news {
        assert Holds(peer, st.news[r]);
      }
    }
    if st.complete {
      assert Holds(t, peer.events[st.note.rid]);
    }
  }

  lemma DeliverKeeps(n: Net, st: NetStep)
    requires NetInv(n) && st.Deliver? && NetEnabled(n, st)
    ensures NetInv(NetNext(n, st))
  {
    if st.note.peer != st.h {
      var n' := NetNext(n, st);
      DeliverHubKeeps(n, st);
      assert HubInv(n, st.h);
      EventsGrow(n.hubs[st.h].node, Land(st.news, st.top));
      forall k | 0 <= k < |n'.hubs| ensures HubInv(n', k) {
        assert HubInv(n, k);
      }
      forall note | note in n'.sent ensures NoteInv(n', note) {
        assert NoteInv(n, note);
      }
    }
  }

  lemma NetStepKeeps(n: Net, st: NetStep)
    requires NetInv(n) && NetEnabled(n, st)
    ensures NetInv(NetNext(n, st)) && |NetNext(n, st).hubs| == |n.hubs|
  {
    match st
    case Local(h, step) => LocalKeeps(n, h, step);
    case Deliver(_, _, _, _, _) => DeliverKeeps(n, st);
  }

  lemma {:induction false} NetRunKeeps(n: Net, steps: seq<NetStep>)
    requires NetInv(n) && NetRunnable(n, steps)
    ensures NetInv(NetRun(n, steps)) && |NetRun(n, steps).hubs| == |n.hubs|
    decreases |steps|
  {
    if steps != [] {
      NetStepKeeps(n, steps[0]);
      NetRunKeeps(NetNext(n, steps[0]), steps[1..]);
    }
  }

  // ---------- safety and convergence ----------

  /** In every run each notification names a commit its announcing peer holds at that rid, and no
      hub ever pulls from itself. */
  lemma NotesAreHeldAndNoSelfPull(n: Net, steps: seq<NetStep>)
    requires NetInv(n) && NetRunnable(n, steps)
    ensures var t := NetRun(n, steps);
      && (forall note :: note in t.sent ==> note.peer < |t.hubs| && Holds(t.hubs[note.peer].node, note.uuid))
      && (forall p :: p in t.pulls ==> p.0 != p.1)
  {
    NetRunKeeps(n, steps);
    var t := NetRun(n, steps);
    forall note | note in t.sent
      ensures note.peer < |t.hubs| && Holds(t.hubs[note.peer].node, note.uuid)
    {
      assert NoteInv(t, note);
    }
  }

  /** Every notification has reached every other hub with a pull that succeeded. */
  ghost predicate AllReached(n: Net)
  {
    forall note, h :: note in n.sent && 0 <= h < |n.hubs| && note.peer != h ==> note in n.hubs[h].reached
  }

  /** At such a point every announced commit is in every hub. */
  lemma AnnouncedIsEverywhere(n: Net, steps: seq<NetStep>, note: Note, h: HubId)
    requires NetInv(n) && NetRunnable(n, steps) && AllReached(NetRun(n, steps))
    requires note in NetRun(n, steps).sent && h < |NetRun(n, steps).hubs|
    ensures Holds(NetRun(n, steps).hubs[h].node, note.uuid)
  {
    NetRunKeeps(n, steps);
    var t := NetRun(n, steps);
    assert NoteInv(t, note) && HubInv(t, h);
    if note.peer == h {
      assert t.hubs[h].node.events[note.rid] == note.uuid;
    }
  }

  // ---------- the backlog ----------

  /** `me` holds all that `peer` has at or below `rid`. */
  ghost predicate HoldsUpTo(me: HubNode.State, peer: HubNode.State, rid: Rid)
  {
    forall r :: r in peer.events && r <= rid ==> Holds(me, peer.events[r])
  }

  /** A pull brings everything the peer has, not only the announced commit: whom a note has reached
      holds all of its peer's commits up to the announced one. */
  ghost predicate Backlog(n: Net)
  {
    forall h, note :: 0 <= h < |n.hubs| && note in n.hubs[h].reached ==>
      note.peer < |n.hubs| && HoldsUpTo(n.hubs[h].node, n.hubs[note.peer].node, note.rid)
  }

  /** What a repository has stays, and what is new is above all of it. */
  ghost predicate GrowsTo(s: HubNode.State, t: HubNode.State)
  {
    && (forall r :: r in s.events ==> r in t.events && t.events[r] == s.events[r])
    && (forall r :: r in t.events && r !in s.events ==> s.top < r)
  }

  lemma StepGrows(s: HubNode.State, step: HubNode.Step)
    requires Inv(s) && Enabled(s, step)
    ensures GrowsTo(s, Next(s, step))
  {
    EventsGrow(s, step);
  }

  lemma HoldsUpToStable(
      me: HubNode.State, me': HubNode.State, peer: HubNode.State, peer': HubNode.State, rid: Rid)
    requires GrowsTo(me, me') && GrowsTo(peer, peer') && rid <= peer.top && HoldsUpTo(me, peer, rid)
    ensures HoldsUpTo(me', peer', rid)
  {
    forall r | r in peer'.events && r <= rid ensures Holds(me', peer'.events[r]) {
      var q :| q in me.events && me.events[q] == peer.events[r];
      assert me'.events[q] == peer'.events[r];
    }
  }

  lemma HubsGrow(n: Net, st: NetStep, k: HubId)
    requires NetInv(n) && NetEnabled(n, st) && k < |n.hubs|
    ensures |NetNext(n, st).hubs| == |n.hubs| && GrowsTo(n.hubs[k].node, NetNext(n, st).hubs[k].node)
  {
    assert HubInv(n, k);
    match st
    case Local(h, step) =>
      if h == k {
        StepGrows(n.hubs[k].node, step);
      }
    case Deliver(h, note, news, top, _) =>
      if h == k && note.peer != h {
        StepGrows(n.hubs[k].node, Land(news, top));
      }
  }

  lemma StepKeepsBacklog(n: Net, st: NetStep)
    requires NetInv(n) && Backlog(n) && NetEnabled(n, st)
    ensures Backlog(NetNext(n, st))
  {
    var n' := NetNext(n, st);
    forall h: nat, note | h < |n'.hubs| && note in n'.hubs[h].reached
      ensures note.peer < |n'.hubs| && HoldsUpTo(n'.hubs[h].node, n'.hubs[note.peer].node, note.rid)
    {
      if note in n.hubs[h].reached {
        OldNoteKeepsBacklog(n, st, h, note);
      } else {
        assert st.Deliver? && st.h == h && st.note == note && st.complete;
        assert NoteInv(n, note);
        assert n'.hubs[h].node.events == n.hubs[h].node.events + st.news;
      }
    }
  }

  lemma OldNoteKeepsBacklog(n: Net, st: NetStep, h: HubId, note: Note)
    requires NetInv(n) && Backlog(n) && NetEnabled(n, st) && h < |n.hubs| && note in n.hubs[h].reached
    ensures var n' := NetNext(n, st);
      && h < |n'.hubs| && note.peer < |n'.hubs|
      && HoldsUpTo(n'.hubs[h].node, n'.hubs[note.peer].node, note.rid)
  {
    assert HubInv(n, h) && NoteInv(n, note) && HubInv(n, note.peer);
    HubsGrow(n, st, h);
    HubsGrow(n, st, note.peer);
    var n' := NetNext(n, st);
    HoldsUpToStable(n.hubs[h].node, n'.hubs[h].node, n.hubs[note.peer].node, n'.hubs[note.peer].node, note.rid);
  }

  lemma {:induction false} RunKeepsBacklog(n: Net, steps: seq<NetStep>)
    requires NetInv(n) && Backlog(n) && NetRunnable(n, steps)
    ensures Backlog(NetRun(n, steps))
    decreases |steps|
  {
    if steps != [] {
      NetStepKeeps(n, steps[0]);
      StepKeepsBacklog(n, steps[0]);
      RunKeepsBacklog(NetNext(n, steps[0]), steps[1..]);
    }
  }

  /** An announcement catches up what came before it: once every note has reached every other hub by a
      pull that succeeded, every hub has all that the announcing hub holds at or below the announced
      rid, also what a failed lookup or a snapshot had passed over. */
  lemma BacklogIsEverywhere(n: Net, steps: seq<NetStep>, note: Note, r: Rid, h: HubId)
    requires NetInv(n) && Backlog(n) && NetRunnable(n, steps) && AllReached(NetRun(n, steps))
    requires note in NetRun(n, steps).sent && h < |NetRun(n, steps).hubs|
    ensures var t := NetRun(n, steps);
      && note.peer < |t.hubs|
      && (r in t.hubs[note.peer].node.events && r <= note.rid ==>
            Holds(t.hubs[h].node, t.hubs[note.peer].node.events[r]))
  {
    NetRunKeeps(n, steps);
    RunKeepsBacklog(n, steps);
    assert NoteInv(NetRun(n, steps), note);
  }

  /** Some announcement of the hub is at or above `r`. */
  ghost predicate Covered(s: HubNode.State, r: Rid)
  {
    exists e :: e in s.emitted && r <= e
  }

  /** A hub with nothing left to announce, and an announcement above each commit that was passed over. */
  ghost predicate CaughtUp(s: HubNode.State)
  {
    && s.up && Above(s.events, s.publishedRID) == {}
    && forall r :: r in s.events && (r in s.failed || r in s.skipped) ==> Covered(s, r)
  }

  /** Whatever a hub has caught up with, all hubs hold. */
  lemma CaughtUpHubsAgree(n: Net, steps: seq<NetStep>, a: HubId, b: HubId, u: Uuid)
    requires NetInv(n) && Backlog(n) && NetRunnable(n, steps) && AllReached(NetRun(n, steps))
    requires a < |NetRun(n, steps).hubs| && b < |NetRun(n, steps).hubs|
    requires CaughtUp(NetRun(n, steps).hubs[a].node)
    ensures Holds(NetRun(n, steps).hubs[a].node, u) ==> Holds(NetRun(n, steps).hubs[b].node, u)
  {
    NetRunKeeps(n, steps);
    var t := NetRun(n, steps);
    var s := t.hubs[a].node;
    if Holds(s, u) {
      assert HubInv(t, a);
      var r :| r in s.events && s.events[r] == u;
      assert r !in Above(s.events, s.publishedRID);
      assert Accounted(s, r) && Covered(s, r);
      var e :| e in s.emitted && r <= e;
      BacklogIsEverywhere(n, steps, Note(a, e, s.events[e]), r, b);
    }
  }

  /** What a delivery does: a hub's own note changes nothing; any other is a pull from the hub that sent
      it, which lands what came, counts the note as reached only if it was complete, and announces
      nothing. */
  lemma DeliveryIsAPull(n: Net, h: HubId, note: Note, news: map<Rid, Uuid>, top: Rid, complete: bool)
    requires NetEnabled(n, Deliver(h, note, news, top, complete))
    ensures var t := NetNext(n, Deliver(h, note, news, top, complete));
      && (note.peer == h ==> t == n)
      && (note.peer != h ==>
            && t.pulls == n.pulls + {(h, note.peer)}
            && t.sent == n.sent && t.created == n.created && |t.hubs| == |n.hubs|
            && (forall k :: 0 <= k < |n.hubs| && k != h ==> t.hubs[k] == n.hubs[k])
            && t.hubs[h].node == n.hubs[h].node.(events := n.hubs[h].node.events + news, top := top)
            && t.hubs[h].reached == (if complete then n.hubs[h].reached + {note} else n.hubs[h].reached))
  {
  }

  ghost predicate HeldSomewhere(n: Net, u: Uuid)
  {
    exists h: nat :: h < |n.hubs| && Holds(n.hubs[h].node, u)
  }

  lemma StillHeld(n: Net, st: NetStep, u: Uuid)
    requires NetInv(n) && NetEnabled(n, st) && HeldSomewhere(n, u)
    ensures HeldSomewhere(NetNext(n, st), u)
  {
    var h: nat :| h < |n.hubs| && Holds(n.hubs[h].node, u);
    HubsGrow(n, st, h);
    var t := NetNext(n, st).hubs[h].node;
    var r :| r in n.hubs[h].node.events && n.hubs[h].node.events[r] == u;
    assert t.events[r] == u;
    assert Holds(t, u);
  }

  lemma NewIsHeld(n: Net, st: NetStep, u: Uuid)
    requires NetEnabled(n, st) && u in NetNext(n, st).created && u !in n.created
    ensures HeldSomewhere(NetNext(n, st), u)
  {
    var t := NetNext(n, st).hubs[st.h].node;
    if st.step.Land? {
      var r :| r in st.step.news && st.step.news[r] == u;
      assert t.events[r] == u;
    } else {
      assert t.events[st.step.rid] == u;
    }
    assert Holds(t, u);
  }

  /** `created` counts no commit too many: over every run each one was there at the start or is held. */
  lemma {:induction false} CreatedIsHeld(n: Net, steps: seq<NetStep>, u: Uuid)
    requires NetInv(n) && NetRunnable(n, steps) && u in NetRun(n, steps).created
    ensures u in n.created || HeldSomewhere(NetRun(n, steps), u)
    decreases |steps|
  {
    if steps != [] {
      var n' := NetNext(n, steps[0]);
      NetStepKeeps(n, steps[0]);
      CreatedIsHeld(n', steps[1..], u);
      if u in n'.created && u !in n.created {
        NewIsHeld(n, steps[0], u);
        StaysHeld(n', steps[1..], u);
      }
    }
  }

  lemma {:induction false} StaysHeld(n: Net, steps: seq<NetStep>, u: Uuid)
    requires NetInv(n) && NetRunnable(n, steps) && HeldSomewhere(n, u)
    ensures HeldSomewhere(NetRun(n, steps), u)
    decreases |steps|
  {
    if steps != [] {
      NetStepKeeps(n, steps[0]);
      StillHeld(n, steps[0], u);
      StaysHeld(NetNext(n, steps[0]), steps[1..], u);
    }
  }

  // ---------- no storm ----------

  /** Announcements made in the current process runs, over all hubs. */
  function Emissions(hubs: seq<Hub>): nat
  {
    if hubs == [] then 0 else Emissions(hubs[..|hubs| - 1]) + |hubs[|hubs| - 1].node.run|
  }

  lemma {:induction false} InjectiveCardinality(events: map<Rid, Uuid>, values: set<Uuid>)
    requires Injective(events)
    requires forall r :: r in events ==> events[r] in values
    ensures |events.Keys| <= |values|
    decreases |events.Keys|
  {
    if exists r :: r in events {
      var r :| r in events;
      var rest := events - {r};
      assert rest.Keys == events.Keys - {r};
      InjectiveCardinality(rest, values - {events[r]});
    }
  }

  lemma OneHubEmits(n: Net, h: HubId)
    requires NetInv(n) && h < |n.hubs| && n.hubs[h].node.up
    ensures |n.hubs[h].node.run| <= |n.created|
  {
    assert HubInv(n, h);
    var s := n.hubs[h].node;
    InjectiveCardinality(s.events, n.created);
    AscendingCardinality(s.run, s.events.Keys);
  }

  ghost predicate AllUp(n: Net)
  {
    forall h :: 0 <= h < |n.hubs| ==> n.hubs[h].node.up
  }

  lemma {:induction false} EmissionsBounded(n: Net, k: nat)
    requires NetInv(n) && AllUp(n) && k <= |n.hubs|
    ensures Emissions(n.hubs[..k]) <= k * |n.created|
    decreases k
  {
    if k > 0 {
      EmissionsBounded(n, k - 1);
      OneHubEmits(n, k - 1);
      assert n.hubs[..k][..k - 1] == n.hubs[..k - 1];
    }
  }

  ghost predicate NoRestart(steps: seq<NetStep>)
  {
    forall i :: 0 <= i < |steps| && steps[i].Local? ==> !steps[i].step.Crash? && !steps[i].step.Start?
  }

  lemma StepStaysUp(n: Net, st: NetStep)
    requires NetEnabled(n, st) && AllUp(n) && (st.Local? ==> !st.step.Crash? && !st.step.Start?)
    ensures AllUp(NetNext(n, st))
  {
  }

  lemma {:induction false} StaysUp(n: Net, steps: seq<NetStep>)
    requires NetRunnable(n, steps) && NoRestart(steps) && AllUp(n)
    ensures AllUp(NetRun(n, steps))
    decreases |steps|
  {
    if steps != [] {
      StepStaysUp(n, steps[0]);
      StaysUp(NetNext(n, steps[0]), steps[1..]);
    }
  }

  /** H hubs and C commits with no restart give at most H times C announcements, although pulled
      commits are announced again by the hub that pulled them. */
  lemma NoStorm(n: Net, steps: seq<NetStep>)
    requires NetInv(n) && AllUp(n) && NetRunnable(n, steps) && NoRestart(steps)
    ensures Emissions(NetRun(n, steps).hubs) <= |n.hubs| * |NetRun(n, steps).created|
  {
    NetRunKeeps(n, steps);
    StaysUp(n, steps);
    var t := NetRun(n, steps);
    EmissionsBounded(t, |t.hubs|);
    assert t.hubs[..|t.hubs|] == t.hubs;
  }

  // ---------- quiescence ----------

  /** Notifications that have not yet reached a hub, over all hubs. */
  function Unreached(hubs: seq<Hub>, sent: set<Note>): int
  {
    if hubs == [] then 0
    else Unreached(hubs[..|hubs| - 1], sent) + |sent| - |hubs[|hubs| - 1].reached|
  }

  /** Announcements still possible weigh one more than the deliveries each of them can cause. */
  function Work(n: Net): int
  {
    Weighted(|n.hubs|, |n.hubs| * |n.created| - Emissions(n.hubs), Unreached(n.hubs, n.sent))
  }

  function Weighted(hubs: nat, left: int, unreached: int): int
  {
    left * (hubs + 1) + unreached
  }

  /** A step that announces, or that completes the pull for a notification for the first time. */
  ghost predicate Productive(n: Net, st: NetStep)
    requires NetEnabled(n, st)
  {
    match st
    case Local(_, step) => step.Announce?
    case Deliver(h, note, _, _, complete) => note.peer != h && complete && note !in n.hubs[h].reached
  }

  /** Steps of a system that nobody commits to or pushes to, and where no process restarts. */
  ghost predicate Settled(steps: seq<NetStep>)
  {
    NoRestart(steps) &&
    forall i :: 0 <= i < |steps| && steps[i].Local? ==> !steps[i].step.Land? && !steps[i].step.CommitLand?
  }

  ghost function ProductiveSteps(n: Net, steps: seq<NetStep>): nat
    requires NetRunnable(n, steps)
    decreases |steps|
  {
    if steps == [] then 0
    else (if Productive(n, steps[0]) then 1 else 0) + ProductiveSteps(NetNext(n, steps[0]), steps[1..])
  }

  lemma {:induction false} EmissionsUpdate(hubs: seq<Hub>, h: nat, x: Hub)
    requires h < |hubs|
    ensures Emissions(hubs[h := x]) == Emissions(hubs) - |hubs[h].node.run| + |x.node.run|
    decreases |hubs|
  {
    var k := |hubs| - 1;
    if h == k {
      assert hubs[h := x][..k] == hubs[..k];
    } else {
      EmissionsUpdate(hubs[..k], h, x);
      assert hubs[h := x][..k] == hubs[..k][h := x];
    }
  }

  lemma {:induction false} UnreachedUpdate(hubs: seq<Hub>, h: nat, x: Hub, sent: set<Note>)
    requires h < |hubs|
    ensures Unreached(hubs[h := x], sent) == Unreached(hubs, sent) + |hubs[h].reached| - |x.reached|
    decreases |hubs|
  {
    var k := |hubs| - 1;
    if h == k {
      assert hubs[h := x][..k] == hubs[..k];
    } else {
      UnreachedUpdate(hubs[..k], h, x, sent);
      assert hubs[h := x][..k] == hubs[..k][h := x];
    }
  }

  lemma {:induction false} UnreachedSent(hubs: seq<Hub>, sent: set<Note>, sent': set<Note>)
    ensures Unreached(hubs, sent') == Unreached(hubs, sent) + |hubs| * (|sent'| - |sent|)
    decreases |hubs|
  {
    if hubs != [] {
      UnreachedSent(hubs[..|hubs| - 1], sent, sent');
    }
  }

  /** What an announcement does to the counts. */
  lemma AnnounceCounts(n: Net, h: HubId)
    requires NetInv(n) && NetEnabled(n, Local(h, Announce))
    ensures var n' := NetNext(n, Local(h, Announce));
      && |n'.hubs| == |n.hubs| && n'.created == n.created
      && |n'.sent| <= |n.sent| + 1
      && Emissions(n'.hubs) == Emissions(n.hubs) + 1
      && Unreached(n'.hubs, n'.sent) == Unreached(n.hubs, n.sent) + |n.hubs| * (|n'.sent| - |n.sent|)
  {
    var n' := NetNext(n, Local(h, Announce));
    var x := n'.hubs[h];
    assert n'.hubs == n.hubs[h := x];
    assert |x.node.run| == |n.hubs[h].node.run| + 1 && x.reached == n.hubs[h].reached;
    assert NewUuids(Announce) == {} && n'.created == n.created;
    EmissionsUpdate(n.hubs, h, x);
    UnreachedUpdate(n.hubs, h, x, n'.sent);
    UnreachedSent(n.hubs, n.sent, n'.sent);
  }

  lemma WorkShrinks(hubs: nat, left: int, unreached: int, more: int)
    requires more <= 1
    ensures Weighted(hubs, left - 1, unreached + hubs * more) <= Weighted(hubs, left, unreached) - 1
  {
    assert (left - 1) * (hubs + 1) == left * (hubs + 1) - (hubs + 1);
    assert hubs * (1 - more) >= 0;
    assert hubs * (1 - more) == hubs - hubs * more;
  }

  lemma AnnounceWork(n: Net, h: HubId)
    requires NetInv(n) && NetEnabled(n, Local(h, Announce))
    ensures Work(NetNext(n, Local(h, Announce))) <= Work(n) - 1
  {
    var n' := NetNext(n, Local(h, Announce));
    var left := |n.hubs| * |n.created| - Emissions(n.hubs);
    AnnounceCounts(n, h);
    WorkShrinks(|n.hubs|, left, Unreached(n.hubs, n.sent), |n'.sent| - |n.sent|);
    assert |n'.hubs| * |n'.created| - Emissions(n'.hubs) == left - 1;
  }

  /** Replacing one hub, with nothing announced: the work changes by what that hub has reached. */
  lemma ReplaceHubWork(n: Net, n': Net, h: HubId)
    requires h < |n.hubs| == |n'.hubs| && n'.hubs == n.hubs[h := n'.hubs[h]]
    requires n'.hubs[h].node.run == n.hubs[h].node.run
    requires n'.created == n.created && n'.sent == n.sent
    ensures Work(n') == Work(n) + |n.hubs[h].reached| - |n'.hubs[h].reached|
  {
    EmissionsUpdate(n.hubs, h, n'.hubs[h]);
    UnreachedUpdate(n.hubs, h, n'.hubs[h], n.sent);
  }

  lemma QuietWork(n: Net, st: NetStep)
    requires NetInv(n) && NetEnabled(n, st) && Settled([st]) && !(st.Local? && st.step.Announce?)
    ensures Work(NetNext(n, st)) == Work(n) - (if Productive(n, st) then 1 else 0)
  {
    assert [st][0] == st;
    if st.Local? {
      LocalIsQuiet(n.hubs[st.h].node, st.step);
      ReplaceHubWork(n, NetNext(n, st), st.h);
    } else if st.note.peer != st.h {
      ReplaceHubWork(n, NetNext(n, st), st.h);
      var reached := n.hubs[st.h].reached;
      if st.note in reached {
        assert reached + {st.note} == reached;
      }
    }
  }

  lemma LocalIsQuiet(s: HubNode.State, step: HubNode.Step)
    requires Enabled(s, step)
    requires !step.Land? && !step.CommitLand? && !step.Announce? && !step.Start?
    ensures Next(s, step).run == s.run && NewUuids(step) == {}
  {
  }

  lemma {:induction false} UnreachedNonNegative(n: Net, k: nat)
    requires NetInv(n) && k <= |n.hubs|
    ensures Unreached(n.hubs[..k], n.sent) >= 0
    decreases k
  {
    if k > 0 {
      UnreachedNonNegative(n, k - 1);
      assert n.hubs[..k][..k - 1] == n.hubs[..k - 1];
      assert HubInv(n, k - 1);
      SubsetCardinality(n.hubs[k - 1].reached, n.sent);
    }
  }

  lemma SubsetCardinality<T>(a: set<T>, b: set<T>)
    requires a <= b
    ensures |a| <= |b|
  {
    assert b == a + (b - a);
  }

  lemma WorkNonNegative(n: Net)
    requires NetInv(n) && AllUp(n)
    ensures Work(n) >= 0
  {
    EmissionsBounded(n, |n.hubs|);
    UnreachedNonNegative(n, |n.hubs|);
    assert n.hubs[..|n.hubs|] == n.hubs;
    ProductNonNegative(|n.hubs| * |n.created| - Emissions(n.hubs), |n.hubs| + 1);
  }

  lemma ProductNonNegative(a: int, b: int)
    requires a >= 0 && b >= 0
    ensures a * b >= 0
  {
  }

  /** Once commits stop, a run without restarts holds at most `Work` productive steps, however
      often notifications are duplicated and however often hubs rescan. */
  lemma {:induction false} ReachesQuiescence(n: Net, steps: seq<NetStep>)
    requires NetInv(n) && AllUp(n) && NetRunnable(n, steps) && Settled(steps)
    ensures ProductiveSteps(n, steps) <= Work(n)
    decreases |steps|
  {
    if steps == [] {
      WorkNonNegative(n);
    } else {
      SettledStep(n, steps[0]);
      ReachesQuiescence(NetNext(n, steps[0]), steps[1..]);
    }
  }

  lemma SettledStep(n: Net, st: NetStep)
    requires NetInv(n) && AllUp(n) && NetEnabled(n, st) && Settled([st])
    ensures NetInv(NetNext(n, st)) && AllUp(NetNext(n, st))
    ensures Work(NetNext(n, st)) <= Work(n) - (if Productive(n, st) then 1 else 0)
  {
    assert [st][0] == st;
    NetStepKeeps(n, st);
    StepStaysUp(n, st);
    if st.Local? && st.step.Announce? {
      AnnounceWork(n, st.h);
    } else {
      QuietWork(n, st);
    }
  }

  // ---------- progress ----------

  /** Nothing is going on at a hub and nothing is left for a scan to find. */
  ghost predicate Idle(s: HubNode.State)
  {
    s.section.Free? && Above(s.events, s.publishedRID) == {}
  }

  ghost predicate Quiescent(n: Net)
  {
    AllUp(n) && AllReached(n) && forall h :: 0 <= h < |n.hubs| ==> Idle(n.hubs[h].node)
  }

  /** Steps left for a hub to become idle when nothing lands. */
  ghost function Effort(s: HubNode.State): nat
  {
    10 * |Above(s.events, s.publishedRID)| +
    match s.section
    case Free => 11
    case Busy(_, Advanced(_), _, _) => 13
    case Busy(_, Ready, queue, _) => if queue == {} then 12 else 10
    case Busy(_, Looked(_), _, _) => 9
    case Busy(_, Announced(_), _, _) => 8
  }

  /** The steps a publish takes when nothing fails. */
  predicate IsPublishing(step: HubNode.Step)
  {
    match step
    case BeginScan(_) => true
    case LookupOk(_) => true
    case Announce => true
    case Advance => true
    case Persist(ok) => ok
    case Finish => true
    case _ => false
  }

  /** A hub that is not idle can take such a step, and is nearer to idle after it. */
  lemma HubCanStep(s: HubNode.State) returns (step: HubNode.Step)
    requires Inv(s) && s.up && !Idle(s)
    ensures IsPublishing(step) && Enabled(s, step) && Effort(Next(s, step)) < Effort(s)
  {
    match s.section
    case Free => step := BeginScan(None);
    case Busy(_, stage, queue, _) =>
      match stage
      case Ready =>
        if |queue| == 0 {
          step := Finish;
        } else {
          step := LookupOk(Least(queue));
        }
      case Looked(_) => step := Announce;
      case Announced(rid) =>
        step := Advance;
        AdvanceShrinks(s.events, s.publishedRID, rid);
      case Advanced(_) => step := Persist(true);
  }

  ghost predicate Publishing(steps: seq<HubNode.Step>)
  {
    forall i :: 0 <= i < |steps| ==> IsPublishing(steps[i])
  }

  /** Whether the call has the section, after which it only has to finish. */
  function TurnsLeft(s: HubNode.State, id: nat): nat
  {
    if s.section.Busy? && s.section.holder == Some(id) then 0 else 1
  }

  /** The next step toward the return of a waiting call. */
  lemma TowardReturn(s: HubNode.State, id: nat) returns (step: HubNode.Step)
    requires Inv(s) && s.up && id in s.calls && s.calls[id].Waiting?
    ensures IsPublishing(step) && Enabled(s, step)
    ensures var t := Next(s, step);
      && t.up && id in t.calls
      && (t.calls[id] == s.calls[id] || t.calls[id] == Returned(s.calls[id].rid, true))
      && (TurnsLeft(t, id) < TurnsLeft(s, id)
          || (TurnsLeft(t, id) == TurnsLeft(s, id) && Effort(t) < Effort(s))
          || t.calls[id].Returned?)
  {
    if s.section.Free? {
      step := BeginScan(Some(id));
    } else {
      step := HubCanStep(s);
    }
  }

  /** A commit call never hangs: from every state of a running hub in which it waits, publishing steps
      alone bring it back from a scan that worked, also when another caller has the section now. */
  lemma {:induction false} CallComesBack(s: HubNode.State, id: nat) returns (steps: seq<HubNode.Step>)
    requires Inv(s) && s.up && id in s.calls && s.calls[id].Waiting?
    ensures Runnable(s, steps) && Publishing(steps)
    ensures var t := Run(s, steps);
      t.up && id in t.calls && t.calls[id] == Returned(s.calls[id].rid, true)
    decreases TurnsLeft(s, id), Effort(s)
  {
    var step := TowardReturn(s, id);
    HubNode.StepKeeps(s, step);
    var t := Next(s, step);
    if t.calls[id].Waiting? {
      var rest := CallComesBack(t, id);
      steps := [step] + rest;
      assert steps[1..] == rest;
    } else {
      steps := [step];
      SingleStep(s, step);
    }
  }

  lemma AdvanceShrinks(events: map<Rid, Uuid>, w: int, rid: Rid)
    requires rid in events && rid > w
    ensures |Above(events, rid)| < |Above(events, w)|
  {
    assert rid in Above(events, w);
    SubsetCardinality(Above(events, rid), Above(events, w) - {rid});
  }

  /** What a pull that succeeds can land: everything of the peer's that the hub does not hold yet, at
      rids above all of its own. */
  lemma {:induction false} PullExists(s: HubNode.State, theirs: map<Rid, Uuid>) returns (news: map<Rid, Uuid>, top: Rid)
    requires IsTop(s.events, s.top) && Injective(s.events)
    ensures CanLand(s, news, top)
    ensures forall r :: r in news ==> exists q :: q in theirs && theirs[q] == news[r]
    ensures forall q :: q in theirs ==> Holds(s.(events := s.events + news), theirs[q])
    decreases |theirs|
  {
    if |theirs| == 0 {
      news, top := map[], s.top;
      assert s.events + news == s.events;
    } else {
      var q := Pick(theirs.Keys);
      var rest := theirs - {q};
      assert |rest.Keys| < |theirs.Keys| by { assert rest.Keys == theirs.Keys - {q}; }
      var news', top' := PullExists(s, rest);
      news, top := OneMore(s, news', top', theirs[q]);
      assert forall p :: p in rest ==> p in theirs && theirs[p] == rest[p];
      forall p | p in theirs ensures Holds(s.(events := s.events + news), theirs[p]) {
        if p != q {
          assert p in rest && Holds(s.(events := s.events + news'), rest[p]);
        }
      }
    }
  }

  lemma OneMore(s: HubNode.State, news: map<Rid, Uuid>, top: Rid, u: Uuid) returns (more: map<Rid, Uuid>, top': Rid)
    requires CanLand(s, news, top) && IsTop(s.events, s.top)
    ensures CanLand(s, more, top')
    ensures forall r :: r in more ==> (r in news && news[r] == more[r]) || more[r] == u
    ensures Holds(s.(events := s.events + more), u)
    ensures forall x :: Holds(s.(events := s.events + news), x) ==> Holds(s.(events := s.events + more), x)
  {
    if Holds(s.(events := s.events + news), u) {
      more, top' := news, top;
    } else {
      var all := s.events + news;
      top' := top + 1;
      more := news[top' := u];
      assert s.events + more == all[top' := u];
      assert s.top <= top && top >= 0 by {
        if s.events != map[] {
          assert s.top in all;
        }
      }
      assert forall r :: r in all ==> all[r] != u;
      forall x | Holds(s.(events := all), x) ensures Holds(s.(events := s.events + more), x) {
        var r :| r in all && all[r] == x;
        assert (s.events + more)[r] == x;
      }
      assert (s.events + more)[top'] == u;
    }
  }

  /** A notification that has not reached a hub can be delivered to it with a pull that succeeds. */
  lemma CanDeliver(n: Net, h: HubId, note: Note) returns (st: NetStep)
    requires NetInv(n) && AllUp(n) && h < |n.hubs| && note in n.sent && note.peer != h
    requires note !in n.hubs[h].reached
    ensures st.Deliver? && st.h == h && st.note == note && NetEnabled(n, st) && Productive(n, st)
  {
    assert NoteInv(n, note) && HubInv(n, h);
    var me, peer := n.hubs[h].node, n.hubs[note.peer].node;
    var news, top := PullExists(me, peer.events);
    st := Deliver(h, note, news, top, true);
    forall r | r in news ensures Holds(peer, news[r]) {
      var q :| q in peer.events && peer.events[q] == news[r];
    }
  }

  ghost function TotalEffort(hubs: seq<Hub>): nat
  {
    if hubs == [] then 0 else TotalEffort(hubs[..|hubs| - 1]) + Effort(hubs[|hubs| - 1].node)
  }

  lemma {:induction false} TotalEffortUpdate(hubs: seq<Hub>, h: nat, x: Hub)
    requires h < |hubs|
    ensures TotalEffort(hubs[h := x]) == TotalEffort(hubs) - Effort(hubs[h].node) + Effort(x.node)
    decreases |hubs|
  {
    var k := |hubs| - 1;
    if h == k {
      assert hubs[h := x][..k] == hubs[..k];
    } else {
      TotalEffortUpdate(hubs[..k], h, x);
      assert hubs[h := x][..k] == hubs[..k][h := x];
    }
  }

  /** Some rid at or above `r` has been announced, or is above the watermark and so still will be. */
  ghost predicate Announceable(s: HubNode.State, r: Rid)
  {
    exists e :: e in s.events && r <= e && (e in s.emitted || e > s.publishedRID)
  }

  /** Nothing more is passed over, and what could be announced still can. */
  ghost predicate RecordKept(s: HubNode.State, t: HubNode.State)
  {
    && t.failed == s.failed && t.skipped == s.skipped
    && forall r :: Announceable(s, r) ==> Announceable(t, r)
  }

  ghost predicate SameRecord(n: Net, n': Net)
  {
    |n'.hubs| == |n.hubs| && forall h :: 0 <= h < |n.hubs| ==> RecordKept(n.hubs[h].node, n'.hubs[h].node)
  }

  ghost predicate Nearer(n: Net, n': Net)
  {
    Work(n') < Work(n) || (Work(n') == Work(n) && TotalEffort(n'.hubs) < TotalEffort(n.hubs))
  }

  lemma HubProgress(n: Net, h: HubId) returns (st: NetStep)
    requires NetInv(n) && AllUp(n) && h < |n.hubs| && !Idle(n.hubs[h].node)
    ensures NetEnabled(n, st) && Settled([st]) && SameRecord(n, NetNext(n, st)) && Nearer(n, NetNext(n, st))
  {
    assert HubInv(n, h);
    var step := HubCanStep(n.hubs[h].node);
    st := Local(h, step);
    PublishingIsSettled(n, h, step);
    if step.Announce? {
      AnnounceWork(n, h);
    } else {
      QuietWork(n, st);
      EffortAfter(n, h, step);
    }
  }

  lemma PublishingIsSettled(n: Net, h: HubId, step: HubNode.Step)
    requires NetInv(n) && AllUp(n) && NetEnabled(n, Local(h, step)) && IsPublishing(step)
    ensures Settled([Local(h, step)]) && SameRecord(n, NetNext(n, Local(h, step)))
  {
    assert [Local(h, step)][0] == Local(h, step);
    assert HubInv(n, h);
    PublishingKeepsRecord(n.hubs[h].node, step);
  }

  lemma EffortAfter(n: Net, h: HubId, step: HubNode.Step)
    requires NetEnabled(n, Local(h, step))
    ensures TotalEffort(NetNext(n, Local(h, step)).hubs) ==
      TotalEffort(n.hubs) - Effort(n.hubs[h].node) + Effort(Next(n.hubs[h].node, step))
  {
    TotalEffortUpdate(n.hubs, h, n.hubs[h].(node := Next(n.hubs[h].node, step)));
  }

  lemma PublishingKeepsRecord(s: HubNode.State, step: HubNode.Step)
    requires Inv(s) && s.up && Enabled(s, step) && IsPublishing(step)
    ensures RecordKept(s, Next(s, step))
  {
    var t := Next(s, step);
    forall r | Announceable(s, r) ensures Announceable(t, r) {
      var e :| e in s.events && r <= e && (e in s.emitted || e > s.publishedRID);
      if step.Advance? && e !in s.emitted && e <= t.publishedRID {
        assert t.publishedRID in t.emitted;
      } else {
        assert e in t.events && (e in t.emitted || e > t.publishedRID);
      }
    }
  }

  lemma LandingKeepsRecord(s: HubNode.State, news: map<Rid, Uuid>, top: Rid)
    requires CanLand(s, news, top)
    ensures RecordKept(s, Next(s, Land(news, top)))
  {
    var t := Next(s, Land(news, top));
    forall r | Announceable(s, r) ensures Announceable(t, r) {
      var e :| e in s.events && r <= e && (e in s.emitted || e > s.publishedRID);
      assert e in t.events;
    }
  }

  lemma DeliveryProgress(n: Net, h: HubId, note: Note) returns (st: NetStep)
    requires NetInv(n) && AllUp(n) && h < |n.hubs| && note in n.sent && note.peer != h
    requires note !in n.hubs[h].reached
    ensures NetEnabled(n, st) && Settled([st]) && SameRecord(n, NetNext(n, st)) && Nearer(n, NetNext(n, st))
  {
    st := CanDeliver(n, h, note);
    assert [st][0] == st;
    LandingKeepsRecord(n.hubs[h].node, st.news, st.top);
    QuietWork(n, st);
  }

  /** Short of quiescence some settled step is possible that takes the network nearer to it. */
  lemma CanProgress(n: Net) returns (st: NetStep)
    requires NetInv(n) && AllUp(n) && !Quiescent(n)
    ensures NetEnabled(n, st) && Settled([st]) && SameRecord(n, NetNext(n, st)) && Nearer(n, NetNext(n, st))
  {
    if h: nat :| h < |n.hubs| && !Idle(n.hubs[h].node) {
      st := HubProgress(n, h);
    } else {
      var note, h: nat :| note in n.sent && h < |n.hubs| && note.peer != h && note !in n.hubs[h].reached;
      st := DeliveryProgress(n, h, note);
    }
  }

  lemma Prepend(n: Net, st: NetStep, rest: seq<NetStep>)
    requires NetEnabled(n, st) && NetRunnable(NetNext(n, st), rest) && Settled([st]) && Settled(rest)
    ensures NetRunnable(n, [st] + rest) && NetRun(n, [st] + rest) == NetRun(NetNext(n, st), rest)
    ensures Settled([st] + rest)
  {
    assert ([st] + rest)[1..] == rest && [st][0] == st;
  }

  /** From every point where commits stop and all hubs run, some settled run leads to quiescence:
      every notification has reached every other hub, and no hub has anything left to announce. */
  lemma {:induction false} QuiescenceIsReachable(n: Net) returns (steps: seq<NetStep>)
    requires NetInv(n) && AllUp(n)
    ensures NetRunnable(n, steps) && Settled(steps)
    ensures Quiescent(NetRun(n, steps)) && SameRecord(n, NetRun(n, steps))
    decreases WorkLeft(n), TotalEffort(n.hubs)
  {
    if Quiescent(n) {
      steps := [];
    } else {
      var st := CanProgress(n);
      SettledStep(n, st);
      WorkLeftIsWork(n);
      WorkLeftIsWork(NetNext(n, st));
      var rest := QuiescenceIsReachable(NetNext(n, st));
      Prepend(n, st, rest);
      steps := [st] + rest;
    }
  }

  ghost function WorkLeft(n: Net): nat
  {
    if Work(n) >= 0 then Work(n) else 0
  }

  lemma WorkLeftIsWork(n: Net)
    requires NetInv(n) && AllUp(n)
    ensures WorkLeft(n) == Work(n)
  {
    WorkNonNegative(n);
  }

  /** When each commit that was passed over at a hub has an announcement at or above it, made or still
      to come, all hubs hold the same commits then. */
  lemma HubsConverge(n: Net) returns (steps: seq<NetStep>)
    requires NetInv(n) && Backlog(n) && AllUp(n)
    requires forall h :: 0 <= h < |n.hubs| ==> PassedAreAnnounceable(n.hubs[h].node)
    ensures NetRunnable(n, steps) && Settled(steps)
    ensures var t := NetRun(n, steps);
      forall a, b, u :: 0 <= a < |t.hubs| && 0 <= b < |t.hubs| && Holds(t.hubs[a].node, u) ==> Holds(t.hubs[b].node, u)
  {
    steps := QuiescenceIsReachable(n);
    var t := NetRun(n, steps);
    NetRunKeeps(n, steps);
    forall a: nat, b: nat, u | a < |t.hubs| && b < |t.hubs| && Holds(t.hubs[a].node, u)
      ensures Holds(t.hubs[b].node, u)
    {
      assert HubInv(n, a);
      IdleIsCaughtUp(n.hubs[a].node, t.hubs[a].node);
      CaughtUpHubsAgree(n, steps, a, b, u);
    }
  }

  ghost predicate PassedAreAnnounceable(s: HubNode.State)
  {
    forall r :: r in s.failed || r in s.skipped ==> Announceable(s, r)
  }

  lemma IdleIsCaughtUp(s: HubNode.State, t: HubNode.State)
    requires PassedAreAnnounceable(s) && RecordKept(s, t) && t.up && Idle(t)
    ensures CaughtUp(t)
  {
    forall r | r in t.failed || r in t.skipped ensures Covered(t, r) {
      assert Announceable(t, r);
      var e :| e in t.events && r <= e && (e in t.emitted || e > t.publishedRID);
      assert e !in Above(t.events, t.publishedRID);
    }
  }

  /** Without such an announcement hubs may disagree for good: two hubs that start for the first time,
      one of them over a commit, are quiescent, and the other does not get it. */
  lemma SnapshotsCanDisagree() returns (n: Net, steps: seq<NetStep>)
    ensures FreshNet(n) && NetRunnable(n, steps)
    ensures var t := NetRun(n, steps);
      Quiescent(t) && |t.hubs| == 2 && Holds(t.hubs[0].node, "c") && !Holds(t.hubs[1].node, "c")
  {
    var empty := State(map[], 0, Absent, false, 0, Free, map[], 0, [], {}, {}, {}, false);
    var seeded := empty.(events := map[1 := "c"], top := 1);
    var start := Start(true, true, true);
    n := Net([Hub(seeded, {}), Hub(empty, {})], {"c"}, {}, {});
    assert 1 in seeded.events;
    assert Fresh(seeded) && Fresh(empty);
    var first, second := Local(0, start), Local(1, start);
    var n1 := NetNext(n, first);
    var n2 := NetNext(n1, second);
    steps := [first, second];
    assert steps[1..] == [second] && [second][1..] == [];
    assert NetRunnable(n2, []) && NetRun(n2, []) == n2;
    assert NetRunnable(n1, [second]) && NetRun(n1, [second]) == n2;
    assert n2.hubs == [Hub(Next(seeded, start), {}), Hub(Next(empty, start), {})];
    assert Next(seeded, start).events[1] == "c";
  }
}
