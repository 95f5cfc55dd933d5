/**
 * The simulator's random fault plan and its execution (sim/schedule.go, sim/harness.go,
 * sim/proxy.go). Durations are nanoseconds in 64 bits. The random generator is a sequence of draws.
 */
module FaultSchedule {
  import opened Sorting
  import opened Text

  const SECOND := 1_000_000_000
  const MILLISECOND := 1_000_000
  const TWO63 := 0x8000_0000_0000_0000
  const TWO64 := 0x1_0000_0000_0000_0000

  datatype Kind =
    | Partition | HealPartition | Latency | HealLatency | DropConns | BridgeRestart | LeafRestart | HealAll

  datatype Severity = Normal | Adversarial | Hostile | Unknown

  datatype Event = Event(time: int, kind: Kind, target: string, param: int)

  /** The random choices of one fault: when, which kind, which leaf, how slow, healed how soon. */
  datatype Draw = Draw(offset: int, choice: nat, leaf: nat, slowness: nat, heal: nat)

  // ---------- the plan ----------

  function KindCount(severity: Severity): nat
  {
    if severity == Hostile then 5 else 3
  }

  function KindOf(choice: nat): Kind
  {
    if choice == 0 then Partition
    else if choice == 1 then Latency
    else if choice == 2 then DropConns
    else if choice == 3 then BridgeRestart
    else LeafRestart
  }

  /** A draw within the bounds its calls to the generator have. */
  predicate DrawOk(severity: Severity, faultDuration: int, numLeaves: nat, d: Draw)
  {
    && 0 <= d.offset < faultDuration
    && d.choice < KindCount(severity) && d.leaf < numLeaves && d.slowness < 900
    && d.heal < (if KindOf(d.choice) == Partition then 5 else 3)
  }

  predicate CountOk(severity: Severity, n: nat)
  {
    match severity
    case Adversarial => 2 <= n < 6
    case Hostile => 5 <= n < 11
    case _ => n == 0
  }

  /** Addition of two 64-bit durations, which wraps around. */
  function Add64(a: int, b: int): int
  {
    (a + b + TWO63) % TWO64 - TWO63
  }

  function HealTime(faultDuration: int, d: Draw): int
  {
    var t := Add64(d.offset, (1 + d.heal) * SECOND);
    if t > faultDuration then faultDuration else t
  }

  function LeafName(leaf: nat): string
  {
    "leaf-" + Decimal(leaf)
  }

  /** The events of one fault: the fault, and for a partition or a latency its heal. */
  function Planned(faultDuration: int, d: Draw): seq<Event>
  {
    var kind := KindOf(d.choice);
    var target := if kind == BridgeRestart then "bridge" else LeafName(d.leaf);
    var param := if kind == Latency then (100 + d.slowness) * MILLISECOND else 0;
    [Event(d.offset, kind, target, param)] +
    if kind == Partition then [Event(HealTime(faultDuration, d), HealPartition, target, 0)]
    else if kind == Latency then [Event(HealTime(faultDuration, d), HealLatency, "", 0)]
    else []
  }

  function AllPlanned(faultDuration: int, draws: seq<Draw>): seq<Event>
  {
    if draws == [] then []
    else AllPlanned(faultDuration, draws[..|draws| - 1]) + Planned(faultDuration, draws[|draws| - 1])
  }

  function EndOf(faultDuration: int): Event
  {
    Event(faultDuration, HealAll, "", 0)
  }

  function TimeOf(e: Event): int
  {
    e.time
  }

  ghost predicate DrawsOk(severity: Severity, faultDuration: int, numLeaves: nat, draws: seq<Draw>)
  {
    && CountOk(severity, |draws|)
    && forall d :: d in draws ==> DrawOk(severity, faultDuration, numLeaves, d)
  }

  /** A schedule: the planned faults and the final heal, ordered by time, ties in any order. */
  ghost predicate IsSchedule(
      severity: Severity, faultDuration: int, numLeaves: nat, draws: seq<Draw>, events: seq<Event>)
  {
    && DrawsOk(severity, faultDuration, numLeaves, draws)
    && multiset(events) ==
       multiset(AllPlanned(faultDuration, draws) + [EndOf(faultDuration)])
    && SortedBy(events, TimeOf)
  }

  /** The generator panics when it draws with a bound that is not positive. */
  method GenerateSchedule(severity: Severity, faultDuration: int, numLeaves: nat, draws: seq<Draw>)
    returns (events: seq<Event>)
    requires severity == Adversarial || severity == Hostile ==> 0 < faultDuration < TWO63 && numLeaves > 0
    requires DrawsOk(severity, faultDuration, numLeaves, draws)
    ensures severity == Normal ==> events == []
    ensures severity != Normal ==> IsSchedule(severity, faultDuration, numLeaves, draws, events)
  {
    if severity == Normal {
      return [];
    }
    events := PlanFaults(faultDuration, draws);
    events := events + [Event(faultDuration, HealAll, "", 0)];
    events := SortBy(events, TimeOf);
  }

  /** The loop over the faults. */
  method PlanFaults(faultDuration: int, draws: seq<Draw>) returns (events: seq<Event>)
    ensures events == AllPlanned(faultDuration, draws)
  {
    events := [];
    for i := 0 to |draws|
      invariant events == AllPlanned(faultDuration, draws[..i])
    {
      var d := draws[i];
      assert draws[..i + 1][..i] == draws[..i];
      var kind := KindOf(d.choice);
      var target := if kind == BridgeRestart then "bridge" else LeafName(d.leaf);
      var param := if kind == Latency then (100 + d.slowness) * MILLISECOND else 0;
      var planned := [Event(d.offset, kind, target, param)];
      var healOffset := Add64(d.offset, (1 + d.heal) * SECOND);
      if healOffset > faultDuration {
        healOffset := faultDuration;
      }
      if kind == Partition {
        planned := planned + [Event(healOffset, HealPartition, target, 0)];
      }
      if kind == Latency {
        planned := planned + [Event(healOffset, HealLatency, "", 0)];
      }
      assert planned == Planned(faultDuration, d);
      events := events + planned;
    }
    assert draws[..|draws|] == draws;
  }

  // ---------- the execution ----------

  datatype ProxyState = ProxyState(partitions: set<string>, latency: int, conns: set<nat>)

  function Applied(p: ProxyState, e: Event): ProxyState
  {
    match e.kind
    case Partition => p.(partitions := p.partitions + {e.target})
    case HealPartition => p.(partitions := p.partitions - {e.target})
    case Latency => p.(latency := e.param)
    case HealLatency => p.(latency := 0)
    case DropConns => p.(conns := {})
    case BridgeRestart => p
    case LeafRestart => p
    case HealAll => p.(partitions := {}, latency := 0)
  }

  function Executed(p: ProxyState, events: seq<Event>): ProxyState
  {
    if events == [] then p else Applied(Executed(p, events[..|events| - 1]), events[|events| - 1])
  }

  /** The event ends a partition of `x`. */
  predicate Ends(e: Event, x: string)
  {
    e.kind == HealAll || (e.kind == HealPartition && e.target == x)
  }

  ghost predicate NoneEnds(events: seq<Event>, from: nat, x: string)
  {
    forall j :: from <= j < |events| ==> !Ends(events[j], x)
  }

  /** The last event that concerns `x` partitions it. */
  ghost predicate LastPartitions(events: seq<Event>, x: string)
  {
    exists i :: 0 <= i < |events| && PartitionStands(events, i, x)
  }

  ghost predicate PartitionStands(events: seq<Event>, i: nat, x: string)
    requires i < |events|
  {
    events[i].kind == Partition && events[i].target == x && NoneEnds(events, i + 1, x)
  }

  /** A target is partitioned afterwards exactly when the last event that concerns it partitions it, or
      there is none and it was partitioned before. */
  ghost predicate PartitionsReplayed(events: seq<Event>, p: set<string>, t: set<string>)
  {
    forall x :: x in t <==> LastPartitions(events, x) || (x in p && NoneEnds(events, 0, x))
  }

  predicate SetsLatency(e: Event)
  {
    e.kind == Latency || e.kind == HealLatency || e.kind == HealAll
  }

  ghost predicate NoneSets(events: seq<Event>, from: nat)
  {
    forall j :: from <= j < |events| ==> !SetsLatency(events[j])
  }

  /** The latency is what the last event about it sets, and as before without any. */
  ghost predicate LatencyReplayed(events: seq<Event>, p: int, t: int)
  {
    && (NoneSets(events, 0) ==> t == p)
    && forall i :: 0 <= i < |events| && SetsLatency(events[i]) && NoneSets(events, i + 1) ==>
         t == if events[i].kind == Latency then events[i].param else 0
  }

  ghost predicate Drops(events: seq<Event>)
  {
    exists i :: 0 <= i < |events| && events[i].kind == DropConns
  }

  /** What a replay does to the proxy. */
  ghost predicate Replayed(events: seq<Event>, p: ProxyState, t: ProxyState)
  {
    && PartitionsReplayed(events, p.partitions, t.partitions)
    && LatencyReplayed(events, p.latency, t.latency)
    && t.conns == if Drops(events) then {} else p.conns
  }

  class FaultProxy {
    var partitions: set<string>
    var latency: int
    var conns: set<nat>

    ghost function Sees(): (p: ProxyState)
      reads this
    {
      ProxyState(partitions, latency, conns)
    }

    constructor ()
      ensures Sees() == ProxyState({}, 0, {})
    {
      partitions, latency, conns := {}, 0, {};
    }

    method SetLatency(d: int)
      modifies this
      ensures Sees() == old(Sees()).(latency := d)
    {
      latency := d;
    }

    method Partition(target: string)
      modifies this
      ensures Sees() == old(Sees()).(partitions := old(partitions) + {target})
    {
      partitions := partitions + {target};
    }

    method Heal(target: string)
      modifies this
      ensures Sees() == old(Sees()).(partitions := old(partitions) - {target})
    {
      partitions := partitions - {target};
    }

    method HealAll()
      modifies this
      ensures Sees() == old(Sees()).(partitions := {})
    {
      partitions := {};
    }

    method DropConnections()
      modifies this
      ensures Sees() == old(Sees()).(conns := {})
    {
      conns := {};
    }

    /** Replays the events in order; restarts leave the proxy alone. */
    method ExecuteSchedule(events: seq<Event>)
      modifies this
      ensures Sees() == Executed(old(Sees()), events)
      ensures Replayed(events, old(Sees()), Sees())
    {
      ReplayIsExact(Sees(), events);
      for i := 0 to |events|
        invariant Sees() == Executed(old(Sees()), events[..i])
      {
        assert events[..i + 1][..i] == events[..i];
        var e := events[i];
        match e.kind {
          case Partition => Partition(e.target);
          case HealPartition => Heal(e.target);
          case Latency => SetLatency(e.param);
          case HealLatency => SetLatency(0);
          case DropConns => DropConnections();
          case BridgeRestart =>
          case LeafRestart =>
          case HealAll =>
            HealAll();
            SetLatency(0);
        }
      }
      assert events[..|events|] == events;
    }
  }

  // ---------- what a replay does ----------

  lemma NoneEndsSnoc(init: seq<Event>, e: Event, from: nat, x: string)
    requires from <= |init|
    ensures NoneEnds(init + [e], from, x) <==> NoneEnds(init, from, x) && !Ends(e, x)
  {
    var events := init + [e];
    assert events[|init|] == e && forall j :: 0 <= j < |init| ==> events[j] == init[j];
  }

  lemma LastPartitionsSnoc(init: seq<Event>, e: Event, x: string)
    ensures LastPartitions(init + [e], x) <==>
      (LastPartitions(init, x) && !Ends(e, x)) || (e.kind == Partition && e.target == x)
  {
    var events := init + [e];
    forall i: nat | i < |init| ensures PartitionStands(events, i, x) <==> PartitionStands(init, i, x) && !Ends(e, x) {
      NoneEndsSnoc(init, e, i + 1, x);
    }
    assert PartitionStands(events, |init|, x) <==> e.kind == Partition && e.target == x;
    if LastPartitions(init, x) && !Ends(e, x) {
      var i :| 0 <= i < |init| && PartitionStands(init, i, x);
      assert PartitionStands(events, i, x);
    }
  }

  lemma PartitionsStep(init: seq<Event>, e: Event, p: set<string>, s: ProxyState)
    requires PartitionsReplayed(init, p, s.partitions)
    ensures PartitionsReplayed(init + [e], p, Applied(s, e).partitions)
  {
    forall x ensures x in Applied(s, e).partitions <==>
      LastPartitions(init + [e], x) || (x in p && NoneEnds(init + [e], 0, x))
    {
      LastPartitionsSnoc(init, e, x);
      NoneEndsSnoc(init, e, 0, x);
    }
  }

  lemma NoneSetsSnoc(init: seq<Event>, e: Event, from: nat)
    requires from <= |init|
    ensures NoneSets(init + [e], from) <==> NoneSets(init, from) && !SetsLatency(e)
  {
    var events := init + [e];
    assert events[|init|] == e && forall j :: 0 <= j < |init| ==> events[j] == init[j];
  }

  lemma LatencyStep(init: seq<Event>, e: Event, p: int, s: ProxyState)
    requires LatencyReplayed(init, p, s.latency)
    ensures LatencyReplayed(init + [e], p, Applied(s, e).latency)
  {
    var events := init + [e];
    NoneSetsSnoc(init, e, 0);
    forall i | 0 <= i < |events| && SetsLatency(events[i]) && NoneSets(events, i + 1)
      ensures Applied(s, e).latency == if events[i].kind == Latency then events[i].param else 0
    {
      if i < |init| {
        NoneSetsSnoc(init, e, i + 1);
      }
    }
  }

  lemma DropsSnoc(init: seq<Event>, e: Event)
    ensures Drops(init + [e]) <==> Drops(init) || e.kind == DropConns
  {
    var events := init + [e];
    assert events[|init|] == e && forall j :: 0 <= j < |init| ==> events[j] == init[j];
    if Drops(init) {
      var i :| 0 <= i < |init| && init[i].kind == DropConns;
      assert events[i].kind == DropConns;
    }
  }

  lemma {:induction false} ReplayIsExact(p: ProxyState, events: seq<Event>)
    ensures Replayed(events, p, Executed(p, events))
    decreases |events|
  {
    if events != [] {
      var init, e := events[..|events| - 1], events[|events| - 1];
      assert events == init + [e];
      ReplayIsExact(p, init);
      PartitionsStep(init, e, p.partitions, Executed(p, init));
      LatencyStep(init, e, p.latency, Executed(p, init));
      DropsSnoc(init, e);
    }
  }

  // ---------- every schedule ends healthy ----------

  predicate IsHeal(k: Kind)
  {
    k == HealPartition || k == HealLatency || k == HealAll
  }

  /** An event of the plan: no later than the end, and earlier than the end unless it heals. */
  ghost predicate InBounds(faultDuration: int, e: Event)
  {
    e.time <= faultDuration && (!IsHeal(e.kind) ==> 0 <= e.time < faultDuration)
  }

  lemma {:induction false} PlanInBounds(
      severity: Severity, faultDuration: int, numLeaves: nat, draws: seq<Draw>, e: Event)
    requires forall d :: d in draws ==> DrawOk(severity, faultDuration, numLeaves, d)
    requires e in AllPlanned(faultDuration, draws)
    ensures InBounds(faultDuration, e)
    decreases |draws|
  {
    var init, last := draws[..|draws| - 1], draws[|draws| - 1];
    assert forall d :: d in init ==> d in draws;
    assert last in draws;
    if e in AllPlanned(faultDuration, init) {
      PlanInBounds(severity, faultDuration, numLeaves, init, e);
    }
  }

  lemma ScheduleMembers(
      severity: Severity, faultDuration: int, numLeaves: nat, draws: seq<Draw>, events: seq<Event>, e: Event)
    requires IsSchedule(severity, faultDuration, numLeaves, draws, events)
    ensures e in events <==>
      e in AllPlanned(faultDuration, draws) || e == EndOf(faultDuration)
  {
    var plan := AllPlanned(faultDuration, draws) + [EndOf(faultDuration)];
    assert e in events <==> e in multiset(events);
    assert e in plan <==> e in multiset(plan);
  }

  /** No event of a schedule is later than its duration. */
  lemma NothingAfterTheEnd(
      severity: Severity, faultDuration: int, numLeaves: nat, draws: seq<Draw>, events: seq<Event>)
    requires IsSchedule(severity, faultDuration, numLeaves, draws, events)
    ensures forall e :: e in events ==> InBounds(faultDuration, e)
  {
    forall e | e in events ensures InBounds(faultDuration, e) {
      ScheduleMembers(severity, faultDuration, numLeaves, draws, events, e);
      if e in AllPlanned(faultDuration, draws) {
        PlanInBounds(severity, faultDuration, numLeaves, draws, e);
      }
    }
  }

  /** The fault a draw stands for. */
  ghost predicate IsFaultOf(d: Draw, e: Event)
  {
    && e.time == d.offset
    && (d.choice == 0 <==> e.kind == Partition) && (d.choice == 1 <==> e.kind == Latency)
    && (d.choice == 2 <==> e.kind == DropConns) && (d.choice == 3 <==> e.kind == BridgeRestart)
    && (d.choice == 4 <==> e.kind == LeafRestart)
    && e.target == (if d.choice == 3 then "bridge" else "leaf-" + Decimal(d.leaf))
    && e.param == if d.choice == 1 then (100 + d.slowness) * 1_000_000 else 0
  }

  /** How many of the draws come with a heal. */
  function HealCount(draws: seq<Draw>): nat
  {
    if draws == [] then 0
    else HealCount(draws[..|draws| - 1]) + if draws[|draws| - 1].choice <= 1 then 1 else 0
  }

  /** Nothing is planned but, for each draw, its fault, and a heal for each partition and latency. */
  lemma {:induction false} PlanHasEachFault(faultDuration: int, draws: seq<Draw>)
    requires forall d :: d in draws ==> d.choice < 5
    ensures |AllPlanned(faultDuration, draws)| == |draws| + HealCount(draws)
    ensures forall d :: d in draws ==> exists e :: e in AllPlanned(faultDuration, draws) && IsFaultOf(d, e)
    decreases |draws|
  {
    if draws != [] {
      var init, last := draws[..|draws| - 1], draws[|draws| - 1];
      assert draws == init + [last] && last in draws;
      assert forall d :: d in init ==> d in draws;
      PlanHasEachFault(faultDuration, init);
      var before, pair := AllPlanned(faultDuration, init), Planned(faultDuration, last);
      assert AllPlanned(faultDuration, draws) == before + pair;
      assert IsFaultOf(last, pair[0]) && pair[0] in pair;
      forall d | d in draws ensures exists e :: e in before + pair && IsFaultOf(d, e) {
        if d in init {
          var e :| e in before && IsFaultOf(d, e);
          assert e in before + pair;
        } else {
          assert pair[0] in before + pair;
        }
      }
    }
  }

  /** All draws the generator can make, and no others. */
  lemma DrawRanges(severity: Severity, faultDuration: int, numLeaves: nat, d: Draw)
    ensures DrawOk(severity, faultDuration, numLeaves, d) <==>
      && 0 <= d.offset < faultDuration && d.leaf < numLeaves && d.slowness < 900
      && (d.choice < 3 || (severity == Hostile && d.choice < 5))
      && (d.heal < 3 || (d.choice == 0 && d.heal < 5))
  {
  }

  /** How many faults a schedule has, and of which kinds: two to five, and no restarts, when adversarial;
      five to ten of any kind when hostile; otherwise none. The final heal is the one event more. */
  lemma FaultsBySeverity(
      severity: Severity, faultDuration: int, numLeaves: nat, draws: seq<Draw>, events: seq<Event>)
    requires IsSchedule(severity, faultDuration, numLeaves, draws, events)
    ensures |events| == |draws| + HealCount(draws) + 1
    ensures match severity
      case Adversarial => 2 <= |draws| <= 5
      case Hostile => 5 <= |draws| <= 10
      case _ => draws == []
    ensures severity == Adversarial ==> forall d :: d in draws ==> d.choice <= 2
    ensures forall d :: d in draws ==> exists e :: e in events && IsFaultOf(d, e)
  {
    forall d | d in draws ensures d.choice < KindCount(severity) {
      assert DrawOk(severity, faultDuration, numLeaves, d);
    }
    PlanHasEachFault(faultDuration, draws);
    var plan := AllPlanned(faultDuration, draws) + [EndOf(faultDuration)];
    assert |events| == |multiset(events)| == |multiset(plan)| == |plan|;
    forall d | d in draws ensures exists e :: e in events && IsFaultOf(d, e) {
      var e :| e in AllPlanned(faultDuration, draws) && IsFaultOf(d, e);
      ScheduleMembers(severity, faultDuration, numLeaves, draws, events, e);
    }
  }

  /** Once everything is healed, further heals keep it so. */
  lemma {:induction false} HealedStaysHealed(p: ProxyState, events: seq<Event>, h: nat)
    requires h < |events| && events[h].kind == HealAll
    requires forall i :: h < i < |events| ==> IsHeal(events[i].kind)
    ensures Executed(p, events).partitions == {} && Executed(p, events).latency == 0
    decreases |events|
  {
    if h < |events| - 1 {
      HealedStaysHealed(p, events[..|events| - 1], h);
    }
  }

  /**
   * For every random choice and every order of simultaneous events: executing the schedule, from any
   * state of the proxy, ends with no partition and no latency.
   */
  lemma EndsHealthy(
      severity: Severity, faultDuration: int, numLeaves: nat, draws: seq<Draw>, events: seq<Event>, p: ProxyState)
    requires IsSchedule(severity, faultDuration, numLeaves, draws, events)
    ensures Executed(p, events).partitions == {} && Executed(p, events).latency == 0
  {
    var last := EndOf(faultDuration);
    ScheduleMembers(severity, faultDuration, numLeaves, draws, events, last);
    NothingAfterTheEnd(severity, faultDuration, numLeaves, draws, events);
    var h :| 0 <= h < |events| && events[h] == last;
    forall i | h < i < |events| ensures IsHeal(events[i].kind) {
      assert TimeOf(events[h]) <= TimeOf(events[i]);
      assert events[i] in events;
    }
    HealedStaysHealed(p, events, h);
  }

  // ---------- each fault before its heal ----------

  lemma Wraps(a: int, b: int)
    requires 0 <= a < TWO63 && 0 <= b < TWO63
    ensures Add64(a, b) == if a + b < TWO63 then a + b else a + b - TWO64
  {
  }

  /** The heal comes strictly later exactly when the addition does not overflow. */
  lemma HealFollowsExactly(faultDuration: int, d: Draw)
    requires 0 <= d.offset < faultDuration < TWO63 && d.heal < 5
    ensures HealTime(faultDuration, d) > d.offset <==> d.offset + (1 + d.heal) * SECOND < TWO63
  {
    Wraps(d.offset, (1 + d.heal) * SECOND);
  }

  /** So every partition that can be drawn precedes its heal exactly when the duration leaves five
      seconds below the largest 64-bit duration. */
  lemma PartitionsPrecedeHealsExactly(faultDuration: int)
    requires 0 < faultDuration < TWO63
    ensures (forall d: Draw :: 0 <= d.offset < faultDuration && d.heal < 5 ==> HealTime(faultDuration, d) > d.offset)
            <==> faultDuration <= TWO63 - 5 * SECOND
  {
    var worst := Draw(faultDuration - 1, 0, 0, 0, 4);
    HealFollowsExactly(faultDuration, worst);
    if faultDuration <= TWO63 - 5 * SECOND {
      forall d: Draw | 0 <= d.offset < faultDuration && d.heal < 5
        ensures HealTime(faultDuration, d) > d.offset
      {
        HealFollowsExactly(faultDuration, d);
      }
    }
  }

  /** `fault` and `heal` are the two events of the draw `d`: a partition and its own heal, or a latency and
      a reset, strictly later, by the seconds drawn or at the end if that comes first. */
  ghost predicate IsPair(faultDuration: int, d: Draw, fault: Event, heal: Event)
  {
    var after := fault.time + (1 + d.heal) * 1_000_000_000;
    && Planned(faultDuration, d) == [fault, heal]
    && (fault.kind == Partition ==> heal.kind == HealPartition && heal.target == fault.target)
    && (fault.kind == Latency ==> heal.kind == HealLatency)
    && fault.time < heal.time == if after > faultDuration then faultDuration else after
  }

  lemma {:induction false} PlannedPair(
      severity: Severity, faultDuration: int, numLeaves: nat, draws: seq<Draw>, fault: Event)
    returns (d: Draw, heal: Event)
    requires 0 < faultDuration <= TWO63 - 5 * SECOND
    requires forall d :: d in draws ==> DrawOk(severity, faultDuration, numLeaves, d)
    requires fault in AllPlanned(faultDuration, draws)
    requires fault.kind == Partition || fault.kind == Latency
    ensures d in draws && heal in AllPlanned(faultDuration, draws) && IsPair(faultDuration, d, fault, heal)
    decreases |draws|
  {
    var init, last := draws[..|draws| - 1], draws[|draws| - 1];
    assert forall x :: x in init ==> x in draws;
    assert last in draws;
    if fault in AllPlanned(faultDuration, init) {
      d, heal := PlannedPair(severity, faultDuration, numLeaves, init, fault);
    } else {
      d := last;
      var pair := Planned(faultDuration, d);
      assert fault == pair[0];
      heal := pair[1];
      assert heal in pair;
      Wraps(d.offset, (1 + d.heal) * SECOND);
      HealFollowsExactly(faultDuration, d);
    }
  }

  /** In every schedule, in whatever order ties are left, each partition and each latency stands
      before the heal planned with it, at a strictly earlier time. */
  lemma FaultsPrecedeHeals(
      severity: Severity, faultDuration: int, numLeaves: nat, draws: seq<Draw>, events: seq<Event>, i: nat)
    requires IsSchedule(severity, faultDuration, numLeaves, draws, events)
    requires 0 < faultDuration <= TWO63 - 5 * SECOND
    requires i < |events| && (events[i].kind == Partition || events[i].kind == Latency)
    ensures exists d, j :: d in draws && i < j < |events| && IsPair(faultDuration, d, events[i], events[j])
  {
    var fault := events[i];
    assert fault in events;
    ScheduleMembers(severity, faultDuration, numLeaves, draws, events, fault);
    var d, heal := PlannedPair(severity, faultDuration, numLeaves, draws, fault);
    ScheduleMembers(severity, faultDuration, numLeaves, draws, events, heal);
    StandsLater(events, i, heal);
  }

  lemma StandsLater(events: seq<Event>, i: nat, later: Event)
    requires SortedBy(events, TimeOf) && i < |events| && later in events && events[i].time < later.time
    ensures exists j :: i < j < |events| && events[j] == later
  {
    var j :| 0 <= j < |events| && events[j] == later;
    assert forall a, b :: 0 <= a < b < |events| ==> TimeOf(events[a]) <= TimeOf(events[b]);
  }
}
