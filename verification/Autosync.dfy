/**
 * `AutosyncCommit` over a check-in graph (leaf/agent/autosync.go): pull, fork check, check-in, push.
 *
 * All check-ins that exist anywhere are kept in creation order, so parents have smaller numbers;
 * a repository is the set of check-ins it stores. `WouldFork` is libfossil's: another leaf on the
 * checkout's branch (docs/architecture/checkout-merge.md). A leaf of a repository has no stored
 * child on its own branch.
 */
module Autosync {
  import opened Common

  type Id = nat
  type Branch = string

  datatype Checkin = Checkin(parents: set<Id>, branch: Branch)

  type Graph = seq<Checkin>

  datatype Mode = Off | On | PullOnly | Invalid

  datatype Error =
    | NilRepo | NilCheckout | InvalidMode | SyncFlagsSet | NilTransport
    | PullFailed | WouldForkFailed | WouldFork | CheckinFailed | PushFailed(id: Id)

  datatype Outcome = Created(id: Id) | Failed(error: Error)

  datatype Options = Options(
    repo: bool, checkout: bool, transport: bool, mode: Mode, syncFlags: bool,
    allowFork: bool, branch: Branch)

  /** One client's repository, its checkout, and the shared remote, over the graph. */
  datatype View = View(graph: Graph, local: set<Id>, at: Id, remote: set<Id>)

  /** What the network and libfossil do during one call: which check-ins a pull or push moves, and
      whether each step succeeds. `merged` are further parents the check-in records. */
  datatype World = World(
    pulled: set<Id>, pullOk: bool, forkCheckOk: bool, checkinOk: bool, merged: set<Id>,
    pushed: set<Id>, pushOk: bool)

  // ---------- the graph ----------

  ghost predicate GraphOk(g: Graph)
  {
    forall i :: 0 <= i < |g| ==> forall p :: p in g[i].parents ==> p < i
  }

  predicate Edge(g: Graph, p: Id, c: Id)
  {
    c < |g| && p < |g| && p in g[c].parents && g[p].branch == g[c].branch
  }

  /** `a` is `c` or an ancestor of it along its branch. */
  ghost predicate Anc(g: Graph, a: Id, c: Id)
    requires GraphOk(g)
    decreases c
  {
    a == c || exists p: Id :: p < c && Edge(g, p, c) && Anc(g, a, p)
  }

  ghost predicate OnBranch(g: Graph, c: Id, b: Branch)
  {
    c < |g| && g[c].branch == b
  }

  predicate IsLeaf(g: Graph, store: set<Id>, c: Id)
  {
    c in store && forall d :: d in store ==> !Edge(g, c, d)
  }

  /** Any two check-ins of the branch in the store are ancestor and descendant. */
  ghost predicate IsChain(g: Graph, store: set<Id>, b: Branch)
    requires GraphOk(g)
  {
    forall x, y :: x in store && y in store && OnBranch(g, x, b) && OnBranch(g, y, b) ==>
      Anc(g, x, y) || Anc(g, y, x)
  }

  /** A leaf on the checkout's branch other than the checkout. */
  predicate Rival(v: View, c: Id)
    requires v.at < |v.graph|
  {
    && c in v.local && c != v.at && c < |v.graph|
    && v.graph[c].branch == v.graph[v.at].branch && IsLeaf(v.graph, v.local, c)
  }

  predicate OtherLeaf(v: View)
    requires v.at < |v.graph|
  {
    exists c :: c in v.local && Rival(v, c)
  }

  // ---------- the call ----------

  /** The checks made before anything is touched, in the source's order. */
  function Rejected(o: Options): Option<Error>
  {
    if !o.repo then Some(NilRepo)
    else if !o.checkout then Some(NilCheckout)
    else if o.mode == Invalid then Some(InvalidMode)
    else if o.syncFlags then Some(SyncFlagsSet)
    else if o.mode != Off && !o.transport then Some(NilTransport)
    else None
  }

  predicate Bypass(o: Options)
  {
    o.mode == Off || o.allowFork || o.branch != ""
  }

  /** A pull moves remote check-ins, all of them when it succeeds and any part when it fails; a push
      moves local ones, all of them when it succeeds and any part with its parents when it fails.
      Merge parents are stored check-ins. */
  ghost predicate WorldOk(v: View, o: Options, w: World)
  {
    var local := if o.mode == Off then v.local else v.local + w.pulled;
    && w.pulled <= v.remote && (w.pullOk ==> v.remote <= v.local + w.pulled)
    && w.merged <= local
    && w.pushed <= local + {|v.graph|} && (w.pushOk ==> w.pushed == local + {|v.graph|})
    && (|v.graph| !in w.pushed ==> ParentClosed(v.graph, v.remote + w.pushed))
    && (|v.graph| in w.pushed ==>
          ParentClosed(v.graph, v.remote + w.pushed - {|v.graph|}) && {v.at} + w.merged <= v.remote + w.pushed)
  }

  /** With a check-in a store has its parents. */
  ghost predicate ParentClosed(g: Graph, store: set<Id>)
  {
    forall c :: c in store && c < |g| ==> g[c].parents <= store
  }

  function Pulled(v: View, o: Options, w: World): View
  {
    if o.mode == Off then v else v.(local := v.local + w.pulled)
  }

  function CheckedIn(v: View, o: Options, w: World): View
    requires v.at < |v.graph|
  {
    var branch := if o.branch == "" then v.graph[v.at].branch else o.branch;
    View(v.graph + [Checkin({v.at} + w.merged, branch)], v.local + {|v.graph|}, |v.graph|, v.remote)
  }

  ghost function Autosynced(v: View, o: Options, w: World): (View, Outcome)
    requires v.at < |v.graph|
  {
    if Rejected(o).Some? then (v, Failed(Rejected(o).value))
    else
      var p := Pulled(v, o, w);
      if o.mode != Off && !w.pullOk then (p, Failed(PullFailed))
      else if !Bypass(o) && !w.forkCheckOk then (p, Failed(WouldForkFailed))
      else if !Bypass(o) && OtherLeaf(p) then (p, Failed(WouldFork))
      else if !w.checkinOk then (p, Failed(CheckinFailed))
      else
        var c := CheckedIn(p, o, w);
        if o.mode != On then (c, Created(|v.graph|))
        else (c.(remote := c.remote + w.pushed),
              if w.pushOk then Created(|v.graph|) else Failed(PushFailed(|v.graph|)))
  }

  /** What the outcome tells: a check-in was made exactly when the call created it or only its push
      failed, and every other failure leaves graph, checkout and remote as they were. Only a call
      that pushes changes the remote. */
  ghost predicate Tells(v: View, o: Options, w: World, t: View, r: Outcome)
  {
    var made := r.Created? || r.error.PushFailed?;
    && (made <==> |t.graph| == |v.graph| + 1)
    && (made ==> t.at == |v.graph| && (r == Created(t.at) || r == Failed(PushFailed(t.at))))
    && (!made ==> t.graph == v.graph && t.at == v.at && t.remote == v.remote)
    && (t.remote != v.remote ==> made && o.mode == On)
    && (o.mode == Off || Rejected(o).Some? ==> t.local <= v.local + {|v.graph|})
    && v.local <= t.local <= v.local + w.pulled + {|v.graph|}
  }

  /** The store that the fork check and the check-in see. */
  function Stored(v: View, o: Options, w: World): set<Id>
  {
    if o.mode == On || o.mode == PullOnly then v.local + w.pulled else v.local
  }

  ghost predicate EntryOk(o: Options)
  {
    o.repo && o.checkout && o.mode != Invalid && !o.syncFlags && (o.mode == Off || o.transport)
  }

  /** Past the entry checks and the pull. */
  ghost predicate Reached(o: Options, w: World)
  {
    EntryOk(o) && (o.mode == On || o.mode == PullOnly ==> w.pullOk)
  }

  /** The fork check applies to pulling modes, unless forking is allowed or a branch is named. */
  ghost predicate IsChecked(o: Options)
  {
    (o.mode == On || o.mode == PullOnly) && !o.allowFork && o.branch == ""
  }

  /** Some leaf of the checkout's branch in the store is not the checkout. */
  ghost predicate Forked(v: View, store: set<Id>)
    requires v.at < |v.graph|
  {
    exists c :: c != v.at && OnBranch(v.graph, c, v.graph[v.at].branch) && IsLeaf(v.graph, store, c)
  }

  ghost predicate MayCheckIn(v: View, o: Options, w: World)
    requires v.at < |v.graph|
  {
    Reached(o, w) && (IsChecked(o) ==> w.forkCheckOk && !Forked(v, Stored(v, o, w)))
  }

  /** When the call answers what, said for each answer by itself. */
  ghost predicate AnswersExactly(v: View, o: Options, w: World, r: Outcome)
    requires v.at < |v.graph|
  {
    && (r == Failed(NilRepo) <==> !o.repo)
    && (r == Failed(NilCheckout) <==> o.repo && !o.checkout)
    && (r == Failed(InvalidMode) <==> o.repo && o.checkout && o.mode == Invalid)
    && (r == Failed(SyncFlagsSet) <==> o.repo && o.checkout && o.mode != Invalid && o.syncFlags)
    && (r == Failed(NilTransport) <==>
          o.repo && o.checkout && o.mode != Invalid && !o.syncFlags && o.mode != Off && !o.transport)
    && (r == Failed(PullFailed) <==> EntryOk(o) && (o.mode == On || o.mode == PullOnly) && !w.pullOk)
    && (r == Failed(WouldForkFailed) <==> Reached(o, w) && IsChecked(o) && !w.forkCheckOk)
    && (r == Failed(Error.WouldFork) <==>
          Reached(o, w) && IsChecked(o) && w.forkCheckOk && Forked(v, Stored(v, o, w)))
    && (r == Failed(CheckinFailed) <==> MayCheckIn(v, o, w) && !w.checkinOk)
    && (r == Failed(PushFailed(|v.graph|)) <==> MayCheckIn(v, o, w) && w.checkinOk && o.mode == On && !w.pushOk)
    && (r == Created(|v.graph|) <==> MayCheckIn(v, o, w) && w.checkinOk && (o.mode == On ==> w.pushOk))
  }

  /** What the call leaves behind. The new check-in has the checkout and the merged check-ins as parents,
      and the named branch, or the checkout's when none is named. */
  ghost predicate LeavesExactly(v: View, o: Options, w: World, t: View)
    requires v.at < |v.graph|
  {
    if !EntryOk(o) then t == v
    else if !MayCheckIn(v, o, w) || !w.checkinOk then t == v.(local := Stored(v, o, w))
    else
      && |t.graph| == |v.graph| + 1 && v.graph <= t.graph
      && t.graph[|v.graph|].parents == {v.at} + w.merged
      && t.graph[|v.graph|].branch == (if o.branch != "" then o.branch else v.graph[v.at].branch)
      && t.at == |v.graph| && t.local == Stored(v, o, w) + {|v.graph|}
      && t.remote == (if o.mode == On then v.remote + w.pushed else v.remote)
  }

  lemma OutcomesAreExact(v: View, o: Options, w: World)
    requires v.at < |v.graph|
    ensures AnswersExactly(v, o, w, Autosynced(v, o, w).1)
    ensures LeavesExactly(v, o, w, Autosynced(v, o, w).0)
  {
    if o.mode != Invalid {
      ForkedIsOtherLeaf(v, o, w);
    }
  }

  lemma ForkedIsOtherLeaf(v: View, o: Options, w: World)
    requires v.at < |v.graph| && o.mode != Invalid
    ensures Pulled(v, o, w) == v.(local := Stored(v, o, w))
    ensures OtherLeaf(Pulled(v, o, w)) <==> Forked(v, Stored(v, o, w))
  {
    var p := Pulled(v, o, w);
    if Forked(v, p.local) {
      var c :| c != v.at && OnBranch(v.graph, c, v.graph[v.at].branch) && IsLeaf(v.graph, p.local, c);
      assert Rival(p, c);
    }
    if OtherLeaf(p) {
      var c :| c in p.local && Rival(p, c);
      assert OnBranch(v.graph, c, v.graph[v.at].branch);
    }
  }

  class Session {
    var graph: Graph
    var local: set<Id>
    var at: Id
    var remote: set<Id>

    ghost function Sees(): (v: View)
      reads this
    {
      View(graph, local, at, remote)
    }

    constructor (graph: Graph, local: set<Id>, at: Id, remote: set<Id>)
      ensures Sees() == View(graph, local, at, remote)
    {
      this.graph, this.local, this.at, this.remote := graph, local, at, remote;
    }

    method Sync(moved: set<Id>, push: bool)
      modifies this
      ensures Sees() == if push then old(Sees()).(remote := old(remote) + moved)
                        else old(Sees()).(local := old(local) + moved)
    {
      if push {
        remote := remote + moved;
      } else {
        local := local + moved;
      }
    }

    method WouldFork() returns (fork: bool)
      requires at < |graph|
      ensures fork == OtherLeaf(Sees())
    {
      var rest := local;
      fork := false;
      while rest != {}
        invariant rest <= local
        invariant fork == exists c :: c in local && c !in rest && Rival(Sees(), c)
        decreases rest
      {
        var c :| c in rest;
        rest := rest - {c};
        if c != at && c < |graph| && graph[c].branch == graph[at].branch && IsLeaf(graph, local, c) {
          fork := true;
        }
      }
    }

    method AutosyncCommit(o: Options, w: World) returns (r: Outcome)
      requires at < |graph|
      modifies this
      ensures (Sees(), r) == Autosynced(old(Sees()), o, w)
      ensures Tells(old(Sees()), o, w, Sees(), r)
      ensures AnswersExactly(old(Sees()), o, w, r) && LeavesExactly(old(Sees()), o, w, Sees())
    {
      OutcomesAreExact(Sees(), o, w);
      if !o.repo {
        return Failed(NilRepo);
      }
      if !o.checkout {
        return Failed(NilCheckout);
      }
      if o.mode == Invalid {
        return Failed(InvalidMode);
      }
      if o.syncFlags {
        return Failed(SyncFlagsSet);
      }
      var needsTransport := o.mode != Off;
      if needsTransport && !o.transport {
        return Failed(NilTransport);
      }
      if o.mode == On || o.mode == PullOnly {
        Sync(w.pulled, false);
        if !w.pullOk {
          return Failed(PullFailed);
        }
      }
      var skipForkCheck := o.mode == Off || o.allowFork || o.branch != "";
      if !skipForkCheck {
        if !w.forkCheckOk {
          return Failed(WouldForkFailed);
        }
        var fork := WouldFork();
        if fork {
          return Failed(Error.WouldFork);
        }
      }
      if !w.checkinOk {
        return Failed(CheckinFailed);
      }
      var id := |graph|;
      var branch := if o.branch == "" then graph[at].branch else o.branch;
      graph, local, at := graph + [Checkin({at} + w.merged, branch)], local + {id}, id;
      if o.mode == On {
        Sync(w.pushed, true);
        if !w.pushOk {
          return Failed(PushFailed(id));
        }
      }
      r := Created(id);
    }
  }

  lemma OutcomeTells(v: View, o: Options, w: World)
    requires v.at < |v.graph|
    ensures Tells(v, o, w, Autosynced(v, o, w).0, Autosynced(v, o, w).1)
  {
  }

  // ---------- ancestry ----------

  lemma {:induction false} AncTransitive(g: Graph, a: Id, b: Id, c: Id)
    requires GraphOk(g) && Anc(g, a, b) && Anc(g, b, c)
    ensures Anc(g, a, c)
    decreases c
  {
    if b != c {
      var p: Id :| p < c && Edge(g, p, c) && Anc(g, b, p);
      AncTransitive(g, a, b, p);
    }
  }

  lemma {:induction false} AncKeepsBranch(g: Graph, a: Id, c: Id)
    requires GraphOk(g) && Anc(g, a, c) && c < |g|
    ensures a <= c && g[a].branch == g[c].branch
    decreases c
  {
    if a != c {
      var p: Id :| p < c && Edge(g, p, c) && Anc(g, a, p);
      AncKeepsBranch(g, a, p);
    }
  }

  /** A new check-in changes nothing about ancestry among the earlier ones. */
  lemma {:induction false} AncStable(g: Graph, n: Checkin, a: Id, c: Id)
    requires GraphOk(g) && GraphOk(g + [n]) && c < |g|
    ensures Anc(g + [n], a, c) <==> Anc(g, a, c)
    decreases c
  {
    if a != c {
      forall p: Id | p < c ensures Edge(g + [n], p, c) == Edge(g, p, c) && Anc(g + [n], a, p) == Anc(g, a, p) {
        AncStable(g, n, a, p);
      }
    }
  }

  /** Every check-in of a finite store has a leaf of the same branch at or below it. */
  lemma {:induction false} LeafBelow(g: Graph, store: set<Id>, x: Id) returns (leaf: Id)
    requires GraphOk(g) && x in store && (forall c :: c in store ==> c < |g|)
    ensures IsLeaf(g, store, leaf) && Anc(g, x, leaf) && leaf < |g| && g[leaf].branch == g[x].branch
    decreases |g| - x
  {
    if IsLeaf(g, store, x) {
      leaf := x;
    } else {
      var y :| y in store && Edge(g, x, y);
      leaf := LeafBelow(g, store, y);
      assert Anc(g, x, y);
      AncTransitive(g, x, y, leaf);
    }
  }

  // ---------- one accepted call ----------

  ghost predicate ViewOk(v: View)
  {
    && GraphOk(v.graph)
    && v.at in v.local
    && (forall c :: c in v.local || c in v.remote ==> c < |v.graph|)
  }

  /** Without another leaf, the whole branch is above the checkout. */
  lemma NoOtherLeafMeans(v: View, x: Id)
    requires ViewOk(v) && !OtherLeaf(v) && x in v.local && v.graph[x].branch == v.graph[v.at].branch
    ensures Anc(v.graph, x, v.at)
  {
    var leaf := LeafBelow(v.graph, v.local, x);
  }

  /** Histories are linear: what is above a check-in on its branch is a chain. */
  ghost predicate Linear(g: Graph, b: Branch)
    requires GraphOk(g)
  {
    forall x, y, c :: OnBranch(g, c, b) && Anc(g, x, c) && Anc(g, y, c) ==> Anc(g, x, y) || Anc(g, y, x)
  }

  /** The new check-in sits below all of the branch the client stores. */
  lemma NewBelowAll(v: View, o: Options, w: World, a: Id)
    requires ViewOk(v) && !OtherLeaf(v) && o.branch == "" && w.merged <= v.local
    ensures var c := CheckedIn(v, o, w);
      && ViewOk(c)
      && (Anc(c.graph, a, c.at) <==> a == c.at || Anc(v.graph, a, v.at))
  {
    var c := CheckedIn(v, o, w);
    var g, n := v.graph, |v.graph|;
    forall i | 0 <= i < |c.graph| ensures forall p :: p in c.graph[i].parents ==> p < i {
    }
    AncStable(g, c.graph[n], a, v.at);
    if a != n && Anc(c.graph, a, n) {
      var p: Id :| p < n && Edge(c.graph, p, n) && Anc(c.graph, a, p);
      NoOtherLeafMeans(v, p);
      AncStable(g, c.graph[n], a, p);
      AncTransitive(g, a, p, v.at);
    }
    if Anc(g, a, v.at) {
      assert Edge(c.graph, v.at, n);
    }
  }

  lemma LinearKept(v: View, o: Options, w: World, b: Branch)
    requires ViewOk(v) && !OtherLeaf(v) && o.branch == "" && w.merged <= v.local && Linear(v.graph, b)
    ensures ViewOk(CheckedIn(v, o, w)) && Linear(CheckedIn(v, o, w).graph, b)
  {
    var c := CheckedIn(v, o, w);
    NewBelowAll(v, o, w, 0);
    forall x, y, d | OnBranch(c.graph, d, b) && Anc(c.graph, x, d) && Anc(c.graph, y, d)
      ensures Anc(c.graph, x, y) || Anc(c.graph, y, x)
    {
      LinearAt(v, o, w, b, x, y, d);
    }
  }

  lemma LinearAt(v: View, o: Options, w: World, b: Branch, x: Id, y: Id, d: Id)
    requires ViewOk(v) && !OtherLeaf(v) && o.branch == "" && w.merged <= v.local && Linear(v.graph, b)
    requires ViewOk(CheckedIn(v, o, w))
    requires var g := CheckedIn(v, o, w).graph; OnBranch(g, d, b) && Anc(g, x, d) && Anc(g, y, d)
    ensures var g := CheckedIn(v, o, w).graph; Anc(g, x, y) || Anc(g, y, x)
  {
    var c := CheckedIn(v, o, w);
    var n := |v.graph|;
    if x != n && y != n {
      var e := if d == n then v.at else d;
      if d == n {
        NewBelowAll(v, o, w, x);
        NewBelowAll(v, o, w, y);
      } else {
        AncStable(v.graph, c.graph[n], x, d);
        AncStable(v.graph, c.graph[n], y, d);
      }
      assert OnBranch(v.graph, e, b);
      AncKeepsBranch(v.graph, x, e);
      AncKeepsBranch(v.graph, y, e);
      AncStable(v.graph, c.graph[n], x, y);
      AncStable(v.graph, c.graph[n], y, x);
    } else {
      AncKeepsBranch(c.graph, x, d);
      AncKeepsBranch(c.graph, y, d);
    }
  }

  /** A check-in accepted by the fork check leaves exactly one leaf on the local branch: itself. */
  lemma OneLeafAfterCheckin(v: View, o: Options, w: World, c: Id)
    requires ViewOk(v) && !OtherLeaf(v) && o.branch == "" && w.merged <= v.local
    ensures var n := CheckedIn(v, o, w);
      OnBranch(n.graph, c, n.graph[n.at].branch) ==>
        (IsLeaf(n.graph, n.local, c) <==> c == n.at)
  {
    var n := CheckedIn(v, o, w);
    NewBelowAll(v, o, w, c);
    if c in n.local && c != n.at && OnBranch(n.graph, c, n.graph[n.at].branch) {
      if c == v.at {
        assert Edge(n.graph, c, n.at);
      } else {
        var d :| d in v.local && Edge(v.graph, c, d);
        assert Edge(n.graph, c, d);
      }
    }
  }

  // ---------- any number of clients, one call at a time ----------

  datatype Client = Client(local: set<Id>, at: Id)

  datatype Cluster = Cluster(graph: Graph, remote: set<Id>, clients: seq<Client>)

  datatype Step =
    | Call(k: nat, o: Options, w: World)
    | Update(k: nat, at: Id)      // the user moves the checkout

  function Of(s: Cluster, k: nat): View
    requires k < |s.clients|
  {
    View(s.graph, s.clients[k].local, s.clients[k].at, s.remote)
  }

  ghost predicate Enabled(s: Cluster, st: Step)
  {
    match st
    case Call(k, o, w) => k < |s.clients| && s.clients[k].at < |s.graph| && WorldOk(Of(s, k), o, w)
    case Update(k, at) => k < |s.clients| && at in s.clients[k].local
  }

  ghost function Next(s: Cluster, st: Step): Cluster
    requires Enabled(s, st)
  {
    match st
    case Call(k, o, w) =>
      var v := Autosynced(Of(s, k), o, w).0;
      Cluster(v.graph, v.remote, s.clients[k := Client(v.local, v.at)])
    case Update(k, at) => s.(clients := s.clients[k := s.clients[k].(at := at)])
  }

  ghost predicate Runnable(s: Cluster, steps: seq<Step>)
    decreases |steps|
  {
    steps == [] || (Enabled(s, steps[0]) && Runnable(Next(s, steps[0]), steps[1..]))
  }

  ghost function Run(s: Cluster, steps: seq<Step>): Cluster
    requires Runnable(s, steps)
    decreases |steps|
  {
    if steps == [] then s else Run(Next(s, steps[0]), steps[1..])
  }

  ghost predicate NoBypass(st: Step)
  {
    st.Call? ==> !Bypass(st.o)
  }

  ghost predicate ClusterInv(s: Cluster, b: Branch)
  {
    && GraphOk(s.graph)
    && (forall c :: c in s.remote ==> c < |s.graph|)
    && (forall k :: 0 <= k < |s.clients| ==>
          ViewOk(Of(s, k)) && ParentClosed(s.graph, s.clients[k].local + s.remote))
    && Linear(s.graph, b)
    && IsChain(s.graph, s.remote, b)
    && ParentClosed(s.graph, s.remote)
  }

  /** Any number of fresh clones of a repository with one check-in. */
  lemma FirstCloneHolds(s: Cluster, b: Branch)
    requires s.graph == [Checkin({}, b)] && s.remote == {0}
    requires forall k :: 0 <= k < |s.clients| ==> s.clients[k] == Client({0}, 0)
    ensures ClusterInv(s, b)
  {
    assert GraphOk(s.graph);
    forall x, c | OnBranch(s.graph, c, b) && Anc(s.graph, x, c) ensures x == 0 && Anc(s.graph, 0, 0) {
      assert c == 0;
    }
  }

  lemma ChainStable(g: Graph, n: Checkin, store: set<Id>, b: Branch)
    requires GraphOk(g) && GraphOk(g + [n]) && (forall c :: c in store ==> c < |g|)
    ensures IsChain(g + [n], store, b) <==> IsChain(g, store, b)
  {
    forall x, y | x in store && y in store
      ensures Anc(g + [n], x, y) == Anc(g, x, y)
    {
      AncStable(g, n, x, y);
    }
  }

  /** After an accepted check-in on the branch, all the client stores of it is one chain. */
  lemma LocalIsChain(v: View, o: Options, w: World)
    requires ViewOk(v) && !OtherLeaf(v) && o.branch == "" && w.merged <= v.local
    requires Linear(v.graph, v.graph[v.at].branch)
    ensures var c := CheckedIn(v, o, w);
      ViewOk(c) && IsChain(c.graph, c.local, v.graph[v.at].branch)
  {
    var c := CheckedIn(v, o, w);
    var b := v.graph[v.at].branch;
    LinearKept(v, o, w, b);
    forall x | x in c.local && OnBranch(c.graph, x, b) ensures Anc(c.graph, x, c.at) {
      BelowNew(v, o, w, x);
    }
    ChainAbove(c.graph, c.local, b, c.at);
  }

  lemma ChainAbove(g: Graph, store: set<Id>, b: Branch, c: Id)
    requires GraphOk(g) && Linear(g, b) && OnBranch(g, c, b)
    requires forall x :: x in store && OnBranch(g, x, b) ==> Anc(g, x, c)
    ensures IsChain(g, store, b)
  {
  }

  lemma BelowNew(v: View, o: Options, w: World, x: Id)
    requires ViewOk(v) && !OtherLeaf(v) && o.branch == "" && w.merged <= v.local
    requires x in v.local + {|v.graph|} && (x < |v.graph| ==> v.graph[x].branch == v.graph[v.at].branch)
    ensures var c := CheckedIn(v, o, w); ViewOk(c) && Anc(c.graph, x, c.at)
  {
    NewBelowAll(v, o, w, x);
    if x < |v.graph| {
      NoOtherLeafMeans(v, x);
    }
  }

  lemma SubChain(g: Graph, part: set<Id>, store: set<Id>, b: Branch)
    requires GraphOk(g) && IsChain(g, store, b) && forall x :: x in part && OnBranch(g, x, b) ==> x in store
    ensures IsChain(g, part, b)
  {
  }

  /** At most one leaf of the branch is stored, as `DetectForks` looks for in the `leaf` table. */
  ghost predicate OneLeaf(g: Graph, store: set<Id>, b: Branch)
  {
    forall x, y :: IsLeaf(g, store, x) && IsLeaf(g, store, y) && OnBranch(g, x, b) && OnBranch(g, y, b) ==> x == y
  }

  /** In a store without gaps, over linear histories, a branch is a chain exactly when it has at most
      one leaf. */
  lemma ChainIsOneLeaf(g: Graph, store: set<Id>, b: Branch)
    requires GraphOk(g) && Linear(g, b) && ParentClosed(g, store) && forall c :: c in store ==> c < |g|
    ensures IsChain(g, store, b) <==> OneLeaf(g, store, b)
  {
    if OneLeaf(g, store, b) {
      forall x, y | x in store && y in store && OnBranch(g, x, b) && OnBranch(g, y, b)
        ensures Anc(g, x, y) || Anc(g, y, x)
      {
        var leafX := LeafBelow(g, store, x);
        var leafY := LeafBelow(g, store, y);
        assert leafX == leafY;
      }
    }
    if IsChain(g, store, b) {
      ChainHasOneLeaf(g, store, b);
    }
  }

  lemma ChainHasOneLeaf(g: Graph, store: set<Id>, b: Branch)
    requires GraphOk(g) && ParentClosed(g, store) && IsChain(g, store, b)
    ensures OneLeaf(g, store, b)
  {
    forall x, y | IsLeaf(g, store, x) && IsLeaf(g, store, y) && OnBranch(g, x, b) && OnBranch(g, y, b)
      ensures x == y
    {
      if x != y {
        if Anc(g, x, y) {
          NotALeaf(g, store, x, y);
        } else {
          NotALeaf(g, store, y, x);
        }
      }
    }
  }

  lemma {:induction false} NotALeaf(g: Graph, store: set<Id>, x: Id, y: Id)
    requires GraphOk(g) && ParentClosed(g, store) && y in store && x != y && y < |g| && Anc(g, x, y)
    ensures !IsLeaf(g, store, x)
    decreases y
  {
    var p: Id :| p < y && Edge(g, p, y) && Anc(g, x, p);
    if p != x {
      NotALeaf(g, store, x, p);
    } else {
      assert Edge(g, x, y);
    }
  }

  /** Whatever part of the local check-ins, the new one included, is a chain on the branch when the
      check-in is on the branch or the rest was a chain before. */
  lemma PartIsChain(v: View, o: Options, w: World, b: Branch, part: set<Id>)
    requires ViewOk(v) && !OtherLeaf(v) && o.branch == "" && w.merged <= v.local && Linear(v.graph, b)
    requires part <= v.local + {|v.graph|}
    requires v.graph[v.at].branch == b || IsChain(v.graph, v.local, b)
    ensures var c := CheckedIn(v, o, w); ViewOk(c) && IsChain(c.graph, part, b)
  {
    var c := CheckedIn(v, o, w);
    LinearKept(v, o, w, b);
    if v.graph[v.at].branch == b {
      LocalIsChain(v, o, w);
      SubChain(c.graph, part, c.local, b);
    } else {
      ChainStable(v.graph, c.graph[|v.graph|], v.local, b);
      SubChain(c.graph, part, v.local, b);
    }
  }

  /** The call made a check-in and went on to push it. */
  ghost predicate Pushes(v: View, o: Options, w: World)
    requires v.at < |v.graph|
  {
    var r := Autosynced(v, o, w).1;
    o.mode == On && (r.Created? || r.error.PushFailed?)
  }

  /** What a client can see before its call: the checkout is on the branch, or what it and the remote
      store has no fork on the branch. */
  ghost predicate PushReady(v: View, b: Branch)
    requires v.at < |v.graph|
  {
    v.graph[v.at].branch == b || OneLeaf(v.graph, v.local + v.remote, b)
  }

  lemma BeforePush(v: View, o: Options, w: World, b: Branch)
    requires ViewOk(v) && WorldOk(v, o, w) && !Bypass(o) && Pushes(v, o, w)
    requires Linear(v.graph, b) && ParentClosed(v.graph, v.local + v.remote)
    ensures var p := Pulled(v, o, w);
      && p.local == v.local + v.remote && ViewOk(p) && !OtherLeaf(p)
      && (IsChain(v.graph, p.local, b) <==> OneLeaf(v.graph, v.local + v.remote, b))
  {
    var p := Pulled(v, o, w);
    assert p.local == v.local + v.remote;
    ChainIsOneLeaf(v.graph, p.local, b);
  }

  /**
   * A call whose pull, check-in and push all succeed leaves the remote branch a chain exactly when
   * its checkout was on the branch, or the client and the remote together stored no fork on it.
   */
  lemma PushChainExactly(v: View, o: Options, w: World, b: Branch)
    requires ViewOk(v) && WorldOk(v, o, w) && !Bypass(o) && o.mode == On && Autosynced(v, o, w).1.Created?
    requires Linear(v.graph, b) && ParentClosed(v.graph, v.local + v.remote)
    ensures var t := Autosynced(v, o, w).0;
      ViewOk(t) && (IsChain(t.graph, t.remote, b) <==> PushReady(v, b))
  {
    var p := Pulled(v, o, w);
    BeforePush(v, o, w, b);
    var c := CheckedIn(p, o, w);
    var t := Autosynced(v, o, w).0;
    LinearKept(p, o, w, b);
    assert t.graph == c.graph && t.remote == c.local;
    if PushReady(v, b) {
      PartIsChain(p, o, w, b, t.remote);
    } else if IsChain(c.graph, c.local, b) {
      SubChain(c.graph, p.local, c.local, b);
      ChainStable(p.graph, c.graph[|p.graph|], p.local, b);
    }
  }

  // ---------- all runs ----------

  /** A call that pushes is ready to. */
  ghost predicate PushesReady(s: Cluster, st: Step, b: Branch)
    requires Enabled(s, st)
  {
    st.Call? && Pushes(Of(s, st.k), st.o, st.w) ==> PushReady(Of(s, st.k), b)
  }

  ghost predicate Disciplined(s: Cluster, steps: seq<Step>, b: Branch)
    requires Runnable(s, steps)
    decreases |steps|
  {
    steps != [] ==>
      NoBypass(steps[0]) && PushesReady(s, steps[0], b) && Disciplined(Next(s, steps[0]), steps[1..], b)
  }

  lemma PulledOk(v: View, o: Options, w: World)
    requires ViewOk(v) && WorldOk(v, o, w)
    ensures ViewOk(Pulled(v, o, w))
  {
  }

  /** One call without bypass keeps the graph linear and the remote branch a chain. */
  lemma CallKeeps(v: View, o: Options, w: World, b: Branch)
    requires ViewOk(v) && WorldOk(v, o, w) && !Bypass(o)
    requires Linear(v.graph, b) && IsChain(v.graph, v.remote, b)
    requires ParentClosed(v.graph, v.remote) && ParentClosed(v.graph, v.local + v.remote)
    requires Pushes(v, o, w) ==> PushReady(v, b)
    ensures var t := Autosynced(v, o, w).0;
      && ViewOk(t) && Linear(t.graph, b) && IsChain(t.graph, t.remote, b)
      && ParentClosed(t.graph, t.remote) && ParentClosed(t.graph, t.local + t.remote)
      && v.remote <= t.remote && (t.graph == v.graph || exists n :: t.graph == v.graph + [n])
  {
    var p := Pulled(v, o, w);
    PulledOk(v, o, w);
    var t := Autosynced(v, o, w).0;
    assert p.local + v.remote == v.local + v.remote;
    if t.graph != v.graph {
      var c := CheckedIn(p, o, w);
      LinearKept(p, o, w, b);
      ClosedStable(v.graph, c.graph[|v.graph|], p.local + v.remote);
      assert ParentClosed(c.graph, p.local + v.remote + {|v.graph|});
      assert t.local + t.remote == p.local + v.remote + {|v.graph|};
      if o.mode == On {
        BeforePush(v, o, w, b);
        PartIsChain(p, o, w, b, t.remote);
        PushedClosed(v, o, w);
      } else {
        ChainStable(p.graph, c.graph[|p.graph|], v.remote, b);
        ClosedStable(v.graph, c.graph[|v.graph|], v.remote);
      }
    }
  }

  lemma ClosedStable(g: Graph, n: Checkin, store: set<Id>)
    requires ParentClosed(g, store) && |g| !in store
    ensures ParentClosed(g + [n], store)
  {
  }

  lemma PushedClosed(v: View, o: Options, w: World)
    requires ViewOk(v) && WorldOk(v, o, w)
    ensures ParentClosed(CheckedIn(Pulled(v, o, w), o, w).graph, v.remote + w.pushed)
  {
    var g := CheckedIn(Pulled(v, o, w), o, w).graph;
    var n := |v.graph|;
    forall c | c in v.remote + w.pushed && c < |g| ensures g[c].parents <= v.remote + w.pushed {
      if c < n && n in w.pushed {
        assert c in v.remote + w.pushed - {n};
        assert v.graph[c].parents <= v.remote + w.pushed - {n};
      }
    }
  }

  lemma StepKeeps(s: Cluster, st: Step, b: Branch)
    requires ClusterInv(s, b) && Enabled(s, st) && NoBypass(st) && PushesReady(s, st, b)
    ensures ClusterInv(Next(s, st), b)
  {
    var s' := Next(s, st);
    assert ViewOk(Of(s, st.k));
    if st.Call? {
      CallKeeps(Of(s, st.k), st.o, st.w, b);
    }
    forall k | 0 <= k < |s'.clients|
      ensures ViewOk(Of(s', k)) && ParentClosed(s'.graph, s'.clients[k].local + s'.remote)
    {
      assert ViewOk(Of(s, k));
      if st.Call? && k != st.k {
        OtherClientKept(s.graph, s'.graph, s.clients[k].local, s.remote, s'.remote);
      }
    }
  }

  lemma OtherClientKept(g: Graph, g': Graph, local: set<Id>, remote: set<Id>, remote': set<Id>)
    requires g <= g' && remote <= remote' && ParentClosed(g', remote')
    requires ParentClosed(g, local + remote) && forall c :: c in local ==> c < |g|
    ensures ParentClosed(g', local + remote')
  {
    forall c | c in local ensures g'[c].parents <= local + remote' {
      assert g'[c] == g[c] && c in local + remote;
    }
  }

  /** With calls one after another, no bypass, and every pushing call ready to push, the shared
      remote branch is a single chain after any run, whatever pulls and pushes fail half way. */
  lemma {:induction false} RemoteStaysChain(s: Cluster, steps: seq<Step>, b: Branch)
    requires ClusterInv(s, b) && Runnable(s, steps) && Disciplined(s, steps, b)
    ensures ClusterInv(Run(s, steps), b)
    decreases |steps|
  {
    if steps != [] {
      StepKeeps(s, steps[0], b);
      RemoteStaysChain(Next(s, steps[0]), steps[1..], b);
    }
  }

  /** The remote branch is a chain before and after every step. */
  ghost predicate AlwaysChain(s: Cluster, steps: seq<Step>, b: Branch)
    requires GraphOk(s.graph) && Runnable(s, steps)
    decreases |steps|
  {
    && IsChain(s.graph, s.remote, b)
    && (steps != [] ==> GraphOk(Next(s, steps[0]).graph) && AlwaysChain(Next(s, steps[0]), steps[1..], b))
  }

  /** No bypass, and the pushes that are made succeed. */
  ghost predicate Undisturbed(steps: seq<Step>)
  {
    forall i :: 0 <= i < |steps| ==> NoBypass(steps[i]) && (steps[i].Call? ==> steps[i].w.pushOk)
  }

  /** And nothing less will do: when the pushes that are made succeed, the remote branch is a chain
      all along exactly when every pushing call was ready. */
  lemma {:induction false} RemoteStaysChainExactly(s: Cluster, steps: seq<Step>, b: Branch)
    requires ClusterInv(s, b) && Runnable(s, steps) && Undisturbed(steps)
    ensures AlwaysChain(s, steps, b) <==> Disciplined(s, steps, b)
    decreases |steps|
  {
    if steps != [] {
      var st, s' := steps[0], Next(s, steps[0]);
      assert NoBypass(st) && Undisturbed(steps[1..]);
      if PushesReady(s, st, b) {
        StepKeeps(s, st, b);
        RemoteStaysChainExactly(s', steps[1..], b);
      } else {
        assert ViewOk(Of(s, st.k));
        PushChainExactly(Of(s, st.k), st.o, st.w, b);
      }
    }
  }

  /** So the remote branch never has two leaves. */
  lemma RemoteHasOneLeaf(s: Cluster, steps: seq<Step>, b: Branch)
    requires ClusterInv(s, b) && Runnable(s, steps) && Disciplined(s, steps, b)
    ensures OneLeaf(Run(s, steps).graph, Run(s, steps).remote, b)
  {
    RemoteStaysChain(s, steps, b);
    ChainHasOneLeaf(Run(s, steps).graph, Run(s, steps).remote, b);
  }

  ghost predicate OneBranch(g: Graph, b: Branch)
  {
    forall i :: 0 <= i < |g| ==> g[i].branch == b
  }

  /** While everything is on one branch a call without bypass is always ready to push. */
  lemma {:induction false} OneBranchIsDisciplined(s: Cluster, steps: seq<Step>, b: Branch)
    requires ClusterInv(s, b) && Runnable(s, steps) && OneBranch(s.graph, b)
    requires forall i :: 0 <= i < |steps| ==> NoBypass(steps[i])
    ensures Disciplined(s, steps, b)
    decreases |steps|
  {
    if steps != [] {
      assert NoBypass(steps[0]) && PushesReady(s, steps[0], b);
      StepKeeps(s, steps[0], b);
      assert OneBranch(Next(s, steps[0]).graph, b);
      OneBranchIsDisciplined(Next(s, steps[0]), steps[1..], b);
    }
  }

  /** The plain case: any number of fresh clones and no bypass keep the remote a single chain. */
  lemma ClonesKeepOneChain(s: Cluster, steps: seq<Step>, b: Branch)
    requires s.graph == [Checkin({}, b)] && s.remote == {0}
    requires forall k :: 0 <= k < |s.clients| ==> s.clients[k] == Client({0}, 0)
    requires Runnable(s, steps) && forall i :: 0 <= i < |steps| ==> NoBypass(steps[i])
    ensures var t := Run(s, steps);
      GraphOk(t.graph) && IsChain(t.graph, t.remote, b) && OneLeaf(t.graph, t.remote, b)
  {
    FirstCloneHolds(s, b);
    OneBranchIsDisciplined(s, steps, b);
    RemoteStaysChain(s, steps, b);
    RemoteHasOneLeaf(s, steps, b);
  }

  /** An accepted call leaves one leaf on the client's branch. */
  lemma AcceptedCallLeavesOneLeaf(v: View, o: Options, w: World, c: Id)
    requires ViewOk(v) && WorldOk(v, o, w) && !Bypass(o)
    requires Autosynced(v, o, w).1.Created? || Autosynced(v, o, w).1.error.PushFailed?
    ensures var t := Autosynced(v, o, w).0;
      && t.at == |v.graph| && t.at < |t.graph| && t.graph[t.at].branch == v.graph[v.at].branch
      && (OnBranch(t.graph, c, v.graph[v.at].branch) ==> (IsLeaf(t.graph, t.local, c) <==> c == t.at))
  {
    PulledOk(v, o, w);
    OneLeafAfterCheckin(Pulled(v, o, w), o, w, c);
  }

  /** A client whose push of check-in 2 on "trunk" failed while another client pushed check-in 3,
      and who then checks in on "side". */
  const SIDE_VIEW := View(
    [Checkin({}, "trunk"), Checkin({0}, "side"), Checkin({0}, "trunk"), Checkin({0}, "trunk")],
    {0, 1, 2}, 1, {0, 1, 3})
  const SIDE_CALL := Options(true, true, true, On, false, false, "")
  const SIDE_WORLD := World({3}, true, true, true, {}, {0, 1, 2, 3, 4}, true)

  /** In the example only the root has descendants on "trunk". */
  lemma SideAncestry(g: Graph, x: Id, c: Id)
    requires GraphOk(g) && SIDE_VIEW.graph <= g && c < 4
    ensures Anc(g, x, c) ==> x == c || x == 0
  {
    if Anc(g, x, c) && x != c {
      var p: Id :| p < c && Edge(g, p, c) && Anc(g, x, p);
      assert g[c] == SIDE_VIEW.graph[c];
    }
  }

  lemma SideRoot(c: Id)
    requires OnBranch(SIDE_VIEW.graph, c, "trunk")
    ensures GraphOk(SIDE_VIEW.graph) && c != 1 && Anc(SIDE_VIEW.graph, 0, c)
  {
    if c != 0 {
      assert Edge(SIDE_VIEW.graph, 0, c) && Anc(SIDE_VIEW.graph, 0, 0);
    }
  }

  lemma SideBefore()
    ensures ViewOk(SIDE_VIEW) && Linear(SIDE_VIEW.graph, "trunk")
    ensures IsChain(SIDE_VIEW.graph, SIDE_VIEW.remote, "trunk")
  {
    var g := SIDE_VIEW.graph;
    SideRoot(0);
    SideRoot(3);
    forall x, y, c | OnBranch(g, c, "trunk") && Anc(g, x, c) && Anc(g, y, c)
      ensures Anc(g, x, y) || Anc(g, y, x)
    {
      SideAncestry(g, x, c);
      SideAncestry(g, y, c);
      SideRoot(c);
    }
  }

  lemma SideCallAccepted()
    ensures WorldOk(SIDE_VIEW, SIDE_CALL, SIDE_WORLD)
    ensures var t := Autosynced(SIDE_VIEW, SIDE_CALL, SIDE_WORLD).0;
      t.graph == SIDE_VIEW.graph + [Checkin({1}, "side")] && t.remote == {0, 1, 2, 3, 4}
  {
    var p := Pulled(SIDE_VIEW, SIDE_CALL, SIDE_WORLD);
    assert p.local == {0, 1, 2, 3};
    SideAccepts(p);
    var t := Autosynced(SIDE_VIEW, SIDE_CALL, SIDE_WORLD).0;
    assert {1} + {} == {1};
    assert {0, 1, 3} + {0, 1, 2, 3, 4} == {0, 1, 2, 3, 4};
  }

  lemma SideAccepts(p: View)
    requires p.graph == SIDE_VIEW.graph && p.at == 1
    ensures !OtherLeaf(p)
  {
  }

  /** Why a push from elsewhere has to be ready: the old trunk check-in arrives at the remote next to
      the other client's, and a call that bypasses nothing itself forks the remote trunk. */
  lemma SideBranchPushForks()
    ensures ViewOk(SIDE_VIEW) && WorldOk(SIDE_VIEW, SIDE_CALL, SIDE_WORLD) && !Bypass(SIDE_CALL)
    ensures Linear(SIDE_VIEW.graph, "trunk") && IsChain(SIDE_VIEW.graph, SIDE_VIEW.remote, "trunk")
    ensures var t := Autosynced(SIDE_VIEW, SIDE_CALL, SIDE_WORLD).0;
      GraphOk(t.graph) && !IsChain(t.graph, t.remote, "trunk")
  {
    SideBefore();
    SideCallAccepted();
    var t := Autosynced(SIDE_VIEW, SIDE_CALL, SIDE_WORLD).0;
    assert t.graph[..4] == SIDE_VIEW.graph;
    SideAncestry(t.graph, 2, 3);
    SideAncestry(t.graph, 3, 2);
    assert OnBranch(t.graph, 2, "trunk") && OnBranch(t.graph, 3, "trunk");
  }
}
