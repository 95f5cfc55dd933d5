/**
 * One hub as a state machine: the `ci` event table and the persisted watermark row on disk,
 * the in-memory watermark, and the section that `publishMu` guards, one effect per step so that
 * a crash can fall between any two of them (hub/repo.go).
 *
 * Callers of `publishNewCommits` (a local commit, an HTTP push, the startup catchup) take the
 * section one at a time; the last two leave nothing behind and are `None` holders.
 */
module HubNode {
  import opened Common

  type Rid = int
  type Uuid = string

  /** The config row `edgesync:hub-published-rid`. */
  datatype Row = Absent | Garbage | Value(rid: int)

  /** How far the section's holder is with the smallest rid in its queue. */
  datatype Stage = Ready | Looked(rid: Rid) | Announced(rid: Rid) | Advanced(rid: Rid)

  /** The section guarded by `publishMu`. `queue` holds the scanned rids not yet past the
      watermark; `horizon` is the largest rid in the table when it was scanned. */
  datatype Section = Free | Busy(holder: Option<nat>, stage: Stage, queue: set<Rid>, horizon: Rid)

  /** A local `Commit` call: its event has landed, and it waits for, or has had, its publish. */
  datatype Call = Waiting(rid: Rid) | Returned(rid: Rid, scanned: bool)

  datatype State = State(
    // on disk: the event table, its largest rid (0 when empty), and the config row
    events: map<Rid, Uuid>,
    top: Rid,
    row: Row,
    // process memory
    up: bool,
    publishedRID: int,
    section: Section,
    calls: map<nat, Call>,
    // history: what this process run started from and emitted, and what ever happened to a rid
    base: int,
    run: seq<Rid>,
    emitted: set<Rid>,
    failed: set<Rid>,
    skipped: set<Rid>,
    blind: bool)

  datatype Step =
    | Land(news: map<Rid, Uuid>, top: Rid)
    | CommitLand(id: nat, rid: Rid, uuid: Uuid)
    | BeginScan(holder: Option<nat>)
    | ScanFail(holder: Option<nat>)
    | LookupOk(rid: Rid)
    | LookupFail(rid: Rid)
    | Announce
    | Advance
    | Persist(ok: bool)
    | Finish
    | Crash
    | Start(readOk: bool, maxOk: bool, persistOk: bool)

  // ---------- the event table ----------

  /** `COALESCE(MAX(objid), 0)` is `top`, and rids are positive. */
  ghost predicate IsTop(events: map<Rid, Uuid>, top: Rid)
  {
    && (if events == map[] then top == 0 else top in events)
    && (forall r :: r in events ==> 0 < r <= top)
  }

  /** Each uuid is in the table once. */
  ghost predicate Injective(events: map<Rid, Uuid>)
  {
    forall r, q :: r in events && q in events && r != q ==> events[r] != events[q]
  }

  /** New events get larger rids than all earlier ones and carry uuids not yet held. */
  ghost predicate CanLand(s: State, news: map<Rid, Uuid>, top: Rid)
  {
    && (forall r :: r in news ==> s.top < r)
    && Injective(s.events + news)
    && IsTop(s.events + news, top)
  }

  function Above(events: map<Rid, Uuid>, w: int): set<Rid>
  {
    set r | r in events && r > w
  }

  // ---------- steps ----------

  ghost predicate HolderReady(s: State, holder: Option<nat>)
  {
    s.section.Free? && (holder.None? || (holder.value in s.calls && s.calls[holder.value].Waiting?))
  }

  /** The loop takes the scanned rids in ascending order. */
  ghost predicate IsNext(s: State, rid: Rid)
  {
    && s.section.Busy? && s.section.stage.Ready? && rid in s.section.queue
    && (forall x :: x in s.section.queue ==> rid <= x)
  }

  ghost predicate Enabled(s: State, step: Step)
  {
    match step
    case Land(news, top) => CanLand(s, news, top)
    case CommitLand(id, rid, uuid) => s.up && id !in s.calls && CanLand(s, map[rid := uuid], rid)
    case BeginScan(holder) => s.up && HolderReady(s, holder)
    case ScanFail(holder) => s.up && HolderReady(s, holder)
    case LookupOk(rid) => s.up && IsNext(s, rid)
    case LookupFail(rid) => s.up && IsNext(s, rid)
    case Announce => s.up && s.section.Busy? && s.section.stage.Looked?
    case Advance => s.up && s.section.Busy? && s.section.stage.Announced?
    case Persist(_) => s.up && s.section.Busy? && s.section.stage.Advanced?
    case Finish => s.up && s.section.Busy? && s.section.stage.Ready? && s.section.queue == {}
    case Crash => s.up
    case Start(_, _, _) => !s.up
  }

  function Return(calls: map<nat, Call>, holder: Option<nat>, scanned: bool): map<nat, Call>
  {
    if holder.Some? && holder.value in calls
    then calls[holder.value := Returned(calls[holder.value].rid, scanned)]
    else calls
  }

  /** `initPublishWatermark`: a readable row is loaded; otherwise the maximum rid is snapshotted,
      and when that query fails too the watermark stays at its zero value. */
  function Begin(s: State, readOk: bool, maxOk: bool, persistOk: bool): State
  {
    var warm := readOk && s.row.Value?;
    var cold := !warm && maxOk;
    var w := if warm then s.row.rid else if cold then s.top else 0;
    s.(up := true, publishedRID := w, section := Free, calls := map[], base := w, run := [],
       row := if cold && persistOk then Value(w) else s.row,
       skipped := if cold then s.skipped + (s.events.Keys - s.emitted - s.failed) else s.skipped,
       blind := !warm && !maxOk)
  }

  function Next(s: State, step: Step): State
    requires Enabled(s, step)
  {
    match step
    case Land(news, top) => s.(events := s.events + news, top := top)
    case CommitLand(id, rid, uuid) =>
      s.(events := s.events + map[rid := uuid], top := rid, calls := s.calls[id := Waiting(rid)])
    case BeginScan(holder) =>
      s.(section := Busy(holder, Ready, Above(s.events, s.publishedRID), s.top))
    case ScanFail(holder) => s.(calls := Return(s.calls, holder, false))
    case LookupOk(rid) => s.(section := s.section.(stage := Looked(rid)))
    case LookupFail(rid) =>
      s.(section := s.section.(queue := s.section.queue - {rid}), failed := s.failed + {rid})
    case Announce =>
      var rid := s.section.stage.rid;
      s.(section := s.section.(stage := Announced(rid)), run := s.run + [rid], emitted := s.emitted + {rid})
    case Advance =>
      var rid := s.section.stage.rid;
      s.(section := s.section.(stage := Advanced(rid), queue := s.section.queue - {rid}), publishedRID := rid)
    case Persist(ok) =>
      s.(section := s.section.(stage := Ready), row := if ok then Value(s.section.stage.rid) else s.row)
    case Finish => s.(section := Free, calls := Return(s.calls, s.section.holder, true))
    case Crash => s.(up := false, section := Free, calls := map[])
    case Start(readOk, maxOk, persistOk) => Begin(s, readOk, maxOk, persistOk)
  }

  ghost predicate Runnable(s: State, steps: seq<Step>)
    decreases |steps|
  {
    steps == [] || (Enabled(s, steps[0]) && Runnable(Next(s, steps[0]), steps[1..]))
  }

  function Run(s: State, steps: seq<Step>): State
    requires Runnable(s, steps)
    decreases |steps|
  {
    if steps == [] then s else Run(Next(s, steps[0]), steps[1..])
  }

  // ---------- invariant ----------

  /** What became of a rid: announced, its uuid lookup failed, or a cold start snapshotted it. */
  ghost predicate Accounted(s: State, r: Rid)
  {
    r in s.emitted || r in s.failed || r in s.skipped
  }

  /** Announced in this process run, or its lookup has failed. */
  ghost predicate Handled(s: State, r: Rid)
  {
    r in s.run || r in s.failed
  }

  ghost predicate DiskInv(s: State)
  {
    && IsTop(s.events, s.top)
    && Injective(s.events)
    && s.emitted <= s.events.Keys
    && s.failed <= s.events.Keys
    && (s.row.Value? ==> s.row.rid <= s.top)
    && (s.row.Value? ==> forall r :: r in s.events && r <= s.row.rid ==> Accounted(s, r))
  }

  ghost predicate WatermarkInv(s: State)
  {
    && s.base <= s.publishedRID <= s.top
    && (!s.blind && s.row.Value? ==> s.row.rid <= s.publishedRID)
    && (forall r :: r in s.events && r <= s.publishedRID ==> Accounted(s, r))
    && (forall r :: r in s.events && s.base < r <= s.publishedRID ==> Handled(s, r))
  }

  ghost predicate QueueInv(s: State)
  {
    s.section.Busy? ==>
      && s.section.horizon <= s.top
      && (forall r :: r in s.section.queue ==> r in s.events && s.publishedRID < r <= s.section.horizon)
      && (forall r :: r in s.events && s.publishedRID < r <= s.section.horizon ==>
            r in s.section.queue || r in s.failed)
      && StageInv(s)
  }

  ghost predicate StageInv(s: State)
    requires s.section.Busy?
  {
    match s.section.stage
    case Ready => true
    case Looked(rid) => rid in s.section.queue && forall x :: x in s.section.queue ==> rid <= x
    case Announced(rid) =>
      && rid in s.section.queue && (forall x :: x in s.section.queue ==> rid <= x)
      && rid in s.run && rid in s.emitted
    case Advanced(rid) => rid == s.publishedRID
  }

  ghost predicate RunInv(s: State)
  {
    && StrictlyAscending(s.run)
    && (forall r :: r in s.run ==> s.base < r && r in s.emitted)
    && (forall r :: r in s.run ==>
          r <= s.publishedRID || (s.section.Busy? && s.section.stage == Announced(r)))
  }

  /** A call's rid landed in this run, and once the call has come back from a scan that worked,
      that rid is announced or its lookup failed. The holder's own rid is within its scan. */
  ghost predicate CallsInv(s: State)
  {
    && (forall id :: id in s.calls ==> s.calls[id].rid in s.events && s.calls[id].rid > s.base)
    && (forall id :: id in s.calls && s.calls[id].Returned? && s.calls[id].scanned ==>
          Handled(s, s.calls[id].rid))
    && (s.section.Busy? && s.section.holder.Some? ==>
          s.section.holder.value in s.calls && s.calls[s.section.holder.value].rid <= s.section.horizon)
  }

  ghost predicate MemoryInv(s: State)
  {
    WatermarkInv(s) && QueueInv(s) && RunInv(s) && CallsInv(s)
  }

  ghost predicate Inv(s: State)
  {
    DiskInv(s) && (s.up ==> MemoryInv(s))
  }

  /** A hub whose publishing has no history yet: whatever is in its event table, no watermark row
      that parses has been written. */
  ghost predicate Fresh(s: State)
  {
    && IsTop(s.events, s.top) && Injective(s.events)
    && !s.up && !s.row.Value?
    && s.emitted == {} && s.failed == {} && s.skipped == {}
  }

  lemma FreshHolds(s: State)
    requires Fresh(s)
    ensures Inv(s)
  {
  }

  // ---------- preservation ----------

  lemma LandKeeps(s: State, news: map<Rid, Uuid>, top: Rid)
    requires Inv(s) && CanLand(s, news, top)
    ensures s.top <= top
    ensures Inv(Next(s, Land(news, top)))
  {
    if s.events != map[] {
      assert s.top in s.events + news;
    } else if news != map[] {
      assert top in s.events + news;
    }
    assert forall r :: r in s.events + news <==> r in s.events || r in news;
  }

  lemma CommitLandKeeps(s: State, id: nat, rid: Rid, uuid: Uuid)
    requires Inv(s) && Enabled(s, CommitLand(id, rid, uuid))
    ensures Inv(Next(s, CommitLand(id, rid, uuid)))
  {
    var news := map[rid := uuid];
    assert rid in news;
    LandKeeps(s, news, rid);
    var t := Next(s, Land(news, rid));
    assert s.base < rid && rid in t.events;
    NewCallKeeps(t, id, rid);
  }

  lemma NewCallKeeps(s: State, id: nat, rid: Rid)
    requires Inv(s) && s.up && id !in s.calls && rid in s.events && s.base < rid
    ensures Inv(s.(calls := s.calls[id := Waiting(rid)]))
  {
    var t := s.(calls := s.calls[id := Waiting(rid)]);
    assert CallsInv(t);
    assert WatermarkInv(t) && QueueInv(t) && RunInv(t) && DiskInv(t);
  }

  lemma AnnounceKeeps(s: State)
    requires Inv(s) && Enabled(s, Announce)
    ensures Inv(Next(s, Announce))
  {
    var rid := s.section.stage.rid;
    var s' := Next(s, Announce);
    assert s'.run[|s.run|] == rid;
    assert forall r :: r in s.run ==> r < rid;
    forall i | 0 <= i < |s.run| ensures s'.run[i] < rid {
      assert s.run[i] in s.run;
    }
    assert forall r :: r in s'.run <==> r in s.run || r == rid;
  }

  lemma StartKeeps(s: State, readOk: bool, maxOk: bool, persistOk: bool)
    requires Inv(s) && Enabled(s, Start(readOk, maxOk, persistOk))
    ensures Inv(Next(s, Start(readOk, maxOk, persistOk)))
  {
  }

  lemma ScanKeeps(s: State, holder: Option<nat>)
    requires Inv(s) && s.up && HolderReady(s, holder)
    ensures Inv(Next(s, BeginScan(holder)))
    ensures Inv(Next(s, ScanFail(holder)))
  {
  }

  lemma LookupKeeps(s: State, rid: Rid)
    requires Inv(s) && s.up && IsNext(s, rid)
    ensures Inv(Next(s, LookupOk(rid)))
    ensures Inv(Next(s, LookupFail(rid)))
  {
  }

  /** The watermark may move to the smallest queued rid: every rid passed on the way is handled. */
  lemma AdvanceKeeps(s: State)
    requires Inv(s) && Enabled(s, Advance)
    ensures Inv(Next(s, Advance))
  {
  }

  lemma PersistKeeps(s: State, ok: bool)
    requires Inv(s) && Enabled(s, Persist(ok))
    ensures Inv(Next(s, Persist(ok)))
  {
  }

  lemma FinishKeeps(s: State)
    requires Inv(s) && Enabled(s, Finish)
    ensures Inv(Next(s, Finish))
  {
  }

  lemma StepKeeps(s: State, step: Step)
    requires Inv(s) && Enabled(s, step)
    ensures Inv(Next(s, step))
  {
    match step
    case Land(news, top) => LandKeeps(s, news, top);
    case CommitLand(id, rid, uuid) => CommitLandKeeps(s, id, rid, uuid);
    case BeginScan(holder) => ScanKeeps(s, holder);
    case ScanFail(holder) => ScanKeeps(s, holder);
    case LookupOk(rid) => LookupKeeps(s, rid);
    case LookupFail(rid) => LookupKeeps(s, rid);
    case Announce => AnnounceKeeps(s);
    case Advance => AdvanceKeeps(s);
    case Persist(ok) => PersistKeeps(s, ok);
    case Finish => FinishKeeps(s);
    case Crash =>
    case Start(readOk, maxOk, persistOk) => StartKeeps(s, readOk, maxOk, persistOk);
  }

  lemma {:induction false} RunKeeps(s: State, steps: seq<Step>)
    requires Inv(s) && Runnable(s, steps)
    ensures Inv(Run(s, steps))
    decreases |steps|
  {
    if steps != [] {
      StepKeeps(s, steps[0]);
      RunKeeps(Next(s, steps[0]), steps[1..]);
    }
  }

  // ---------- no gap across crashes and restarts ----------

  /** A start that does not load a readable row but snapshots the table. */
  ghost predicate IsCold(s: State, step: Step)
  {
    step.Start? && !(step.readOk && s.row.Value?) && step.maxOk
  }

  /** Some cold start of the run finds `r` in the table with no announcement and no failed lookup. */
  ghost predicate ColdStartPasses(s: State, steps: seq<Step>, r: Rid)
    requires Runnable(s, steps)
    decreases |steps|
  {
    steps != [] &&
    (|| (IsCold(s, steps[0]) && r in s.events && r !in s.emitted && r !in s.failed)
     || ColdStartPasses(Next(s, steps[0]), steps[1..], r))
  }

  lemma {:induction false} SkippedOnlyByColdStart(s: State, steps: seq<Step>, r: Rid)
    requires Runnable(s, steps)
    ensures r in Run(s, steps).skipped <==> r in s.skipped || ColdStartPasses(s, steps, r)
    decreases |steps|
  {
    if steps != [] {
      SkippedOnlyByColdStart(Next(s, steps[0]), steps[1..], r);
    }
  }

  /**
   * Whatever crashes, failed scans, failed lookups, failed persists and restarts a run holds:
   * an event at or below the persisted row, or at or below the live watermark, was handed to the
   * publish hook, or had its lookup fail, or was passed by a cold start that found it there.
   */
  lemma NoOtherGap(s: State, steps: seq<Step>, r: Rid)
    requires Inv(s) && Runnable(s, steps)
    requires r in Run(s, steps).events && r !in s.skipped
    ensures var t := Run(s, steps);
      || ((t.row.Value? ==> r > t.row.rid) && (t.up ==> r > t.publishedRID))
      || r in t.emitted
      || r in t.failed
      || ColdStartPasses(s, steps, r)
  {
    RunKeeps(s, steps);
    SkippedOnlyByColdStart(s, steps, r);
  }

  ghost predicate AllReadable(steps: seq<Step>)
  {
    forall i :: 0 <= i < |steps| && steps[i].Start? ==> steps[i].readOk
  }

  lemma {:induction false} ReadableRowIsNeverCold(s: State, steps: seq<Step>, r: Rid)
    requires Runnable(s, steps) && AllReadable(steps) && s.row.Value?
    ensures Run(s, steps).row.Value? && !ColdStartPasses(s, steps, r)
    decreases |steps|
  {
    if steps != [] {
      assert Next(s, steps[0]).row.Value?;
      ReadableRowIsNeverCold(Next(s, steps[0]), steps[1..], r);
    }
  }

  /** With a readable row throughout, crashes and failed persists lose nothing: an event is still
      above the row that the next start loads, or was announced, or its lookup failed. */
  lemma WarmRestartsLoseNothing(s: State, steps: seq<Step>, r: Rid)
    requires Inv(s) && Runnable(s, steps) && AllReadable(steps) && s.row.Value?
    requires r in Run(s, steps).events && r !in s.skipped
    ensures var t := Run(s, steps);
      t.row.Value? && (r > t.row.rid || r in t.emitted || r in t.failed)
  {
    NoOtherGap(s, steps, r);
    ReadableRowIsNeverCold(s, steps, r);
    RunKeeps(s, steps);
    SkippedOnlyByColdStart(s, steps, r);
  }

  // ---------- one process run ----------

  ghost predicate OneProcess(steps: seq<Step>)
  {
    forall i :: 0 <= i < |steps| ==> !steps[i].Crash? && !steps[i].Start?
  }

  /** In one process run the watermark never goes back, what was emitted stays in place and is
      strictly ascending, and the row stays at or below the watermark unless the start was blind. */
  lemma {:induction false} OneProcessIsMonotone(s: State, steps: seq<Step>)
    requires Inv(s) && s.up && Runnable(s, steps) && OneProcess(steps)
    ensures var t := Run(s, steps);
      && t.up && t.base == s.base && t.blind == s.blind
      && s.publishedRID <= t.publishedRID
      && s.run <= t.run && StrictlyAscending(t.run)
      && (t.row.Value? && !t.blind ==> t.row.rid <= t.publishedRID)
    decreases |steps|
  {
    if steps != [] {
      var s' := Next(s, steps[0]);
      StepKeeps(s, steps[0]);
      assert s.run <= s'.run && s.publishedRID <= s'.publishedRID;
      OneProcessIsMonotone(s', steps[1..]);
    }
  }

  /** A `Commit` that came back from a scan that worked has its rid emitted, by itself or by
      another caller, or its uuid lookup failed. */
  lemma CommitIsAnnounced(s: State, steps: seq<Step>, id: nat)
    requires Inv(s) && Runnable(s, steps) && Run(s, steps).up
    requires id in Run(s, steps).calls
    ensures var t := Run(s, steps);
      var call := t.calls[id];
      call.Returned? && call.scanned ==> call.rid in t.run || call.rid in t.failed
  {
    RunKeeps(s, steps);
  }

  /** The persisted value is ahead of the live watermark. */
  predicate RowAhead(s: State)
  {
    s.row.Value? && s.row.rid > s.publishedRID
  }

  /** A process run never puts the row ahead. */
  lemma {:induction false} RowStaysBelow(s: State, steps: seq<Step>)
    requires Inv(s) && s.up && Runnable(s, steps) && OneProcess(steps) && !RowAhead(s)
    ensures !RowAhead(Run(s, steps))
    decreases |steps|
  {
    if steps != [] {
      StepKeeps(s, steps[0]);
      assert Next(s, steps[0]).up && !RowAhead(Next(s, steps[0]));
      RowStaysBelow(Next(s, steps[0]), steps[1..]);
    }
  }

  /** The row is ahead somewhere in the process run that `s` begins. */
  ghost predicate EverAhead(s: State)
  {
    exists steps :: Runnable(s, steps) && OneProcess(steps) && RowAhead(Run(s, steps))
  }

  /** In the whole process run after a start the row is ahead of the watermark in exactly one case: it
      held a positive rid, it could not be read, and the fallback query failed as well. */
  lemma RowAheadExactly(s: State, readOk: bool, maxOk: bool, persistOk: bool)
    requires Inv(s) && !s.up
    ensures EverAhead(Next(s, Start(readOk, maxOk, persistOk)))
            <==> s.row.Value? && s.row.rid > 0 && !readOk && !maxOk
  {
    var t := Next(s, Start(readOk, maxOk, persistOk));
    StepKeeps(s, Start(readOk, maxOk, persistOk));
    if RowAhead(t) {
      assert Runnable(t, []) && OneProcess([]) && RowAhead(Run(t, []));
    } else {
      forall steps | Runnable(t, steps) && OneProcess(steps) ensures !RowAhead(Run(t, steps)) {
        RowStaysBelow(t, steps);
      }
    }
  }

  lemma RunSplit(s: State, a: seq<Step>, b: seq<Step>)
    requires Runnable(s, a) && Runnable(Run(s, a), b)
    ensures Runnable(s, a + b) && Run(s, a + b) == Run(Run(s, a), b)
    decreases |a|
  {
    if a == [] {
      assert a + b == b;
    } else {
      RunSplit(Next(s, a[0]), a[1..], b);
      assert (a + b)[1..] == a[1..] + b;
    }
  }

  lemma SingleStep(s: State, step: Step)
    requires Enabled(s, step)
    ensures Runnable(s, [step]) && Run(s, [step]) == Next(s, step)
  {
    assert [step][1..] == [];
    assert Runnable(Next(s, step), []);
  }

  /** A call whose scan fails comes back all the same. */
  lemma ScanFailReturns(s: State, id: nat)
    requires s.up && s.section.Free? && id in s.calls && s.calls[id].Waiting?
    ensures var steps := [ScanFail(Some(id))];
      Runnable(s, steps) && Run(s, steps) == s.(calls := s.calls[id := Returned(s.calls[id].rid, false)])
  {
    SingleStep(s, ScanFail(Some(id)));
  }

  /** A crash leaves the disk as it is and forgets the section and the calls under way; a start leaves the
      events and begins an empty run. */
  lemma CrashForgets(s: State, readOk: bool, maxOk: bool, persistOk: bool)
    requires s.up
    ensures var t := Next(s, Crash);
      && !t.up && t.events == s.events && t.row == s.row && t.section.Free? && t.calls == map[]
      && Enabled(t, Start(readOk, maxOk, persistOk))
      && var u := Next(t, Start(readOk, maxOk, persistOk));
         u.up && u.events == s.events && u.run == [] && u.section.Free? && u.calls == map[]
  {
  }

  /** The limit of the guarantee: two cold starts around a crash pass over a landed commit. */
  lemma ColdRestartPassesCommit() returns (s: State, steps: seq<Step>)
    ensures Inv(s) && Runnable(s, steps)
    ensures var t := Run(s, steps);
      t.up && t.events == map[1 := "c"] && t.publishedRID == 1 && t.emitted == {} && t.failed == {}
  {
    s := State(map[], 0, Absent, false, 0, Free, map[], 0, [], {}, {}, {}, false);
    var start, commit := Start(true, true, false), CommitLand(0, 1, "c");
    var s1 := Next(s, start);
    assert 1 in s1.events + map[1 := "c"];
    var s2 := Next(s1, commit);
    var s3 := Next(s2, Crash);
    SingleStep(s, start);
    SingleStep(s1, commit);
    SingleStep(s2, Crash);
    SingleStep(s3, start);
    RunSplit(s, [start], [commit]);
    RunSplit(s, [start] + [commit], [Crash]);
    RunSplit(s, [start] + [commit] + [Crash], [start]);
    steps := [start] + [commit] + [Crash] + [start];
  }
}
