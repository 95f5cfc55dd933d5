/**
 * Overlapping operations on the pairing-token file (leaf/agent/notify/token_store.go). Every call is
 * two steps: it reads the file, and later commits the whole list it computed from what it read. The
 * source takes no lock in between, so commits of other calls can fall there.
 */
module TokenRace {
  import opened Common
  import opened TokenStore

  /** A call that has read but not yet committed: what it read, and the file's version then. */
  datatype Call = Call(op: Op, snapshot: seq<Token>, version: nat)

  /** The file with its history, how often it has been written, and the calls under way. */
  datatype Race = Race(s: State, version: nat, open: map<nat, Call>)

  const RACE_START := Race(EMPTY, 0, map[])

  datatype Step = Begin(id: nat, op: Op) | Finish(id: nat)

  predicate Enabled(r: Race, st: Step)
  {
    match st
    case Begin(id, _) => id !in r.open
    case Finish(id) => id in r.open
  }

  /** The operation, run on this file, commits a list. */
  predicate Writes(s: State, op: Op)
  {
    match op
    case Store(_, _, read, commitOk) => !read.Garbage? && commitOk
    case Validate(hash, _, read, commitOk) => read.Readable? && commitOk && Find(s.pending, hash) < |s.pending|
  }

  /** The file as the call has read it. */
  function Seen(s: State, c: Call): State
  {
    s.(pending := c.snapshot)
  }

  function RaceNext(r: Race, st: Step): Race
    requires Enabled(r, st)
  {
    match st
    case Begin(id, op) => r.(open := r.open[id := Call(op, r.s.pending, r.version)])
    case Finish(id) =>
      var c := r.open[id];
      if Writes(Seen(r.s, c), c.op)
      then Race(Next(Seen(r.s, c), c.op), r.version + 1, r.open - {id})
      else r.(open := r.open - {id})
  }

  predicate Runnable(r: Race, steps: seq<Step>)
    decreases |steps|
  {
    steps == [] || (Enabled(r, steps[0]) && Runnable(RaceNext(r, steps[0]), steps[1..]))
  }

  function RaceRun(r: Race, steps: seq<Step>): Race
    requires Runnable(r, steps)
    decreases |steps|
  {
    if steps == [] then r else RaceRun(RaceNext(r, steps[0]), steps[1..])
  }

  /** A call that has seen the current version has seen the current file. */
  ghost predicate RaceInv(r: Race)
  {
    && InTime(r.s)
    && forall id :: id in r.open ==>
         r.open[id].version <= r.version &&
         (r.open[id].version == r.version ==> r.open[id].snapshot == r.s.pending)
  }

  lemma StepKeeps(r: Race, st: Step)
    requires RaceInv(r) && Enabled(r, st)
    ensures RaceInv(RaceNext(r, st))
  {
    if st.Finish? {
      UsesInTime(Seen(r.s, r.open[st.id]), r.open[st.id].op);
    }
  }

  /** Whatever overlaps, no use is later than its entry's expiry. */
  lemma {:induction false} RaceKeeps(r: Race, steps: seq<Step>)
    requires RaceInv(r) && Runnable(r, steps)
    ensures RaceInv(RaceRun(r, steps))
    decreases |steps|
  {
    if steps != [] {
      StepKeeps(r, steps[0]);
      RaceKeeps(RaceNext(r, steps[0]), steps[1..]);
    }
  }

  lemma Prepend(r: Race, st: Step, rest: seq<Step>)
    requires Enabled(r, st) && Runnable(RaceNext(r, st), rest)
    ensures Runnable(r, [st] + rest) && RaceRun(r, [st] + rest) == RaceRun(RaceNext(r, st), rest)
  {
    assert ([st] + rest)[1..] == rest;
  }

  lemma {:induction false} RaceSplit(r: Race, a: seq<Step>, b: seq<Step>)
    requires Runnable(r, a) && Runnable(RaceRun(r, a), b)
    ensures Runnable(r, a + b) && RaceRun(r, a + b) == RaceRun(RaceRun(r, a), b)
    decreases |a|
  {
    if a == [] {
      assert a + b == b;
    } else {
      RaceSplit(RaceNext(r, a[0]), a[1..], b);
      assert (a + b)[1..] == a[1..] + b;
    }
  }

  // ---------- calls that are not interrupted ----------

  /** No other commit falls between a call's read and its own commit. */
  ghost predicate Isolated(r: Race, steps: seq<Step>)
    requires Runnable(r, steps)
    decreases |steps|
  {
    steps != [] ==>
      && (steps[0].Finish? ==> r.open[steps[0].id].version == r.version)
      && Isolated(RaceNext(r, steps[0]), steps[1..])
  }

  /** The operations in the order they commit. */
  function Committed(r: Race, steps: seq<Step>): seq<Op>
    requires Runnable(r, steps)
    decreases |steps|
  {
    if steps == [] then []
    else
      (if steps[0].Finish? then [r.open[steps[0].id].op] else []) + Committed(RaceNext(r, steps[0]), steps[1..])
  }

  lemma QuietWithoutWrite(s: State, op: Op)
    requires !Writes(s, op)
    ensures Next(s, op) == s
  {
  }

  lemma RunCons(s: State, op: Op, ops: seq<Op>)
    ensures Run(s, [op] + ops) == Run(Next(s, op), ops)
  {
    assert ([op] + ops)[1..] == ops;
  }

  /** Then the calls might as well have run one after another, in the order of their commits. */
  lemma {:induction false} IsolatedIsSequential(r: Race, steps: seq<Step>)
    requires RaceInv(r) && Runnable(r, steps) && Isolated(r, steps)
    ensures RaceRun(r, steps).s == Run(r.s, Committed(r, steps))
    decreases |steps|
  {
    if steps != [] {
      var r' := RaceNext(r, steps[0]);
      StepKeeps(r, steps[0]);
      IsolatedIsSequential(r', steps[1..]);
      if steps[0].Finish? {
        var c := r.open[steps[0].id];
        assert Seen(r.s, c) == r.s;
        if !Writes(r.s, c.op) {
          QuietWithoutWrite(r.s, c.op);
        }
        RunCons(r.s, c.op, Committed(r', steps[1..]));
      } else {
        assert [] + Committed(r', steps[1..]) == Committed(r', steps[1..]);
      }
    }
  }

  function UsesOf(s: State, hash: string): nat
  {
    Count(Tokens(s.consumed), hash)
  }

  /** So a hash is not used more often than it was stored. */
  lemma IsolatedUsesOnce(steps: seq<Step>, hash: string)
    requires Runnable(RACE_START, steps) && Isolated(RACE_START, steps)
    ensures var t := RaceRun(RACE_START, steps).s; UsesOf(t, hash) <= Count(t.stores, hash)
  {
    IsolatedIsSequential(RACE_START, steps);
    NeverMoreUsesThanStores(Committed(RACE_START, steps), hash);
  }

  // ---------- calls that are ----------

  /** The list holds an entry of the hash that a validation at `now` accepts. */
  ghost predicate Live(ts: seq<Token>, hash: string, now: int)
  {
    exists i :: 0 <= i < |ts| && ts[i].hash == hash && now <= ts[i].expiresAt
  }

  ghost predicate Gone(ts: seq<Token>, hash: string)
  {
    forall i :: 0 <= i < |ts| ==> ts[i].hash != hash
  }

  predicate StoresHash(op: Op, hash: string)
  {
    op.Store? && op.token.hash == hash
  }

  /** The call is a validation that will find and use an entry of the hash in what it has read. */
  predicate UsesIt(c: Call, hash: string)
  {
    c.op.Validate? && c.op.hash == hash && Validated(Seen(EMPTY, c), c.op).1.Some?
  }

  /** The list the call will commit. */
  function Written(c: Call): seq<Token>
  {
    Next(Seen(EMPTY, c), c.op).pending
  }

  /** The call, without storing the hash itself, will write a list with a live entry of it. */
  ghost predicate RewritesIt(c: Call, hash: string, now: int)
  {
    !StoresHash(c.op, hash) && Writes(Seen(EMPTY, c), c.op) && Live(Written(c), hash, now)
  }

  /** Nobody stores the hash again, and calls that begin do so no earlier than `now`. */
  ghost predicate Unstored(r: Race, steps: seq<Step>, hash: string, now: int)
    requires Runnable(r, steps)
    decreases |steps|
  {
    steps != [] ==>
      && (match steps[0]
          case Begin(_, op) => op.now >= now
          case Finish(id) => !StoresHash(r.open[id].op, hash))
      && Unstored(RaceNext(r, steps[0]), steps[1..], hash, now)
  }

  lemma UnstoredCons(r: Race, st: Step, rest: seq<Step>, hash: string, now: int)
    requires Enabled(r, st) && Runnable(RaceNext(r, st), rest) && Unstored(RaceNext(r, st), rest, hash, now)
    requires if st.Begin? then st.op.now >= now else !StoresHash(r.open[st.id].op, hash)
    ensures Runnable(r, [st] + rest) && Unstored(r, [st] + rest, hash, now)
  {
    Prepend(r, st, rest);
    assert ([st] + rest)[1..] == rest;
  }

  /** Some such run uses the hash once more. */
  ghost predicate CanUseAgain(r: Race, hash: string, now: int)
  {
    exists steps ::
      Runnable(r, steps) && Unstored(r, steps, hash, now) && UsesOf(RaceRun(r, steps).s, hash) > UsesOf(r.s, hash)
  }

  lemma FilterWithin(ts: seq<Token>, now: int, t: Token)
    requires t in Filter(ts, now, true)
    ensures t in ts
  {
    FilterMembers(ts, now);
  }

  /** A call writes what it has read, and at most one token more. */
  lemma WrittenWithin(c: Call, t: Token)
    requires t in Written(c)
    ensures t in c.snapshot || (c.op.Store? && t == c.op.token)
  {
    if c.op.Store? && t in Filter(c.snapshot, c.op.now, true) {
      FilterWithin(c.snapshot, c.op.now, t);
    }
  }

  lemma RewriteNeedsLive(c: Call, hash: string, now: int)
    requires RewritesIt(c, hash, now)
    ensures Live(c.snapshot, hash, now)
  {
    var w := Written(c);
    var i :| 0 <= i < |w| && w[i].hash == hash && now <= w[i].expiresAt;
    WrittenWithin(c, w[i]);
    var j :| 0 <= j < |c.snapshot| && c.snapshot[j] == w[i];
  }

  lemma NoRewriteWithout(c: Call, hash: string, now: int)
    requires !Live(c.snapshot, hash, now)
    ensures !RewritesIt(c, hash, now)
  {
    if RewritesIt(c, hash, now) {
      RewriteNeedsLive(c, hash, now);
    }
  }

  lemma NoUseWithout(c: Call, hash: string, now: int)
    requires !Live(c.snapshot, hash, now) && c.op.now >= now
    ensures !UsesIt(c, hash)
  {
  }

  /** One use more of a hash counts for that hash only. */
  lemma UsesAfter(s: State, c: Call, hash: string)
    ensures UsesOf(Next(Seen(s, c), c.op), hash) == UsesOf(s, hash) + if UsesIt(c, hash) then 1 else 0
    ensures Next(Seen(s, c), c.op).pending == Written(c)
    ensures Writes(Seen(s, c), c.op) == Writes(Seen(EMPTY, c), c.op)
  {
    if UsesAny(c) {
      var x := Validated(Seen(EMPTY, c), c.op).1.value;
      assert Next(Seen(s, c), c.op).consumed == s.consumed + [Use(x, c.op.now)];
      UsesSnoc(s.consumed, Use(x, c.op.now), hash);
    } else {
      assert Next(Seen(s, c), c.op).consumed == s.consumed;
    }
  }

  predicate UsesAny(c: Call)
  {
    c.op.Validate? && Validated(Seen(EMPTY, c), c.op).1.Some?
  }

  lemma UsesSnoc(us: seq<Use>, u: Use, hash: string)
    ensures Count(Tokens(us + [u]), hash) == Count(Tokens(us), hash) + if u.token.hash == hash then 1 else 0
  {
    TokensSnoc(us, u);
    assert (Tokens(us) + [u.token])[..|Tokens(us)|] == Tokens(us);
  }

  /** Neither the file nor a call under way has what another use takes. */
  ghost predicate Dead(r: Race, hash: string, now: int)
  {
    && !Live(r.s.pending, hash, now)
    && forall id :: id in r.open ==> !UsesIt(r.open[id], hash) && !RewritesIt(r.open[id], hash, now)
  }

  lemma DeadStep(r: Race, st: Step, hash: string, now: int)
    requires Dead(r, hash, now) && Enabled(r, st)
    requires if st.Begin? then st.op.now >= now else !StoresHash(r.open[st.id].op, hash)
    ensures Dead(RaceNext(r, st), hash, now) && UsesOf(RaceNext(r, st).s, hash) == UsesOf(r.s, hash)
  {
    match st
    case Begin(id, op) =>
      var c := Call(op, r.s.pending, r.version);
      NoRewriteWithout(c, hash, now);
      NoUseWithout(c, hash, now);
    case Finish(id) => UsesAfter(r.s, r.open[id], hash);
  }

  lemma {:induction false} DeadRun(r: Race, steps: seq<Step>, hash: string, now: int)
    requires Dead(r, hash, now) && Runnable(r, steps) && Unstored(r, steps, hash, now)
    ensures UsesOf(RaceRun(r, steps).s, hash) == UsesOf(r.s, hash)
    decreases |steps|
  {
    if steps != [] {
      DeadStep(r, steps[0], hash, now);
      DeadRun(RaceNext(r, steps[0]), steps[1..], hash, now);
    }
  }

  /** A live entry in the file can be used: validations at `now` drop expired ones in front of it. */
  lemma {:induction false} LiveIsUsable(r: Race, hash: string, now: int, id: nat) returns (steps: seq<Step>)
    requires Live(r.s.pending, hash, now) && id !in r.open
    ensures Runnable(r, steps) && Unstored(r, steps, hash, now)
    ensures UsesOf(RaceRun(r, steps).s, hash) > UsesOf(r.s, hash)
    decreases |r.s.pending|
  {
    var op := Validate(hash, now, Readable, true);
    var c := Call(op, r.s.pending, r.version);
    var begin, finish := Begin(id, op), Finish(id);
    var r1 := RaceNext(r, begin);
    var r2 := RaceNext(r1, finish);
    UsesAfter(r.s, c, hash);
    var rest := [];
    if !UsesIt(c, hash) {
      ExpiredIsDropped(r.s.pending, hash, now);
      rest := LiveIsUsable(r2, hash, now, id);
    }
    UnstoredCons(r1, finish, rest, hash, now);
    Prepend(r1, finish, rest);
    UnstoredCons(r, begin, [finish] + rest, hash, now);
    Prepend(r, begin, [finish] + rest);
    steps := [begin] + ([finish] + rest);
  }

  lemma ExpiredIsDropped(ts: seq<Token>, hash: string, now: int)
    requires Live(ts, hash, now)
    ensures var i := Find(ts, hash);
      i < |ts| && (now > ts[i].expiresAt ==> |Without(ts, i)| < |ts| && Live(Without(ts, i), hash, now))
  {
    var i := Find(ts, hash);
    var j :| 0 <= j < |ts| && ts[j].hash == hash && now <= ts[j].expiresAt;
    if i < |ts| && now > ts[i].expiresAt {
      var w := Without(ts, i);
      assert w[if j < i then j else j - 1] == ts[j];
    }
  }

  /**
   * Once a hash is gone from the file, it can be used again without being stored again exactly when a
   * call is still under way that read before it was gone, and that will use it, or will write it back.
   */
  lemma UseAgainExactly(r: Race, hash: string, now: int)
    requires RaceInv(r) && Gone(r.s.pending, hash)
    ensures CanUseAgain(r, hash, now) <==>
      exists id :: id in r.open && r.open[id].version < r.version &&
        (UsesIt(r.open[id], hash) || RewritesIt(r.open[id], hash, now))
  {
    if id :| id in r.open && (UsesIt(r.open[id], hash) || RewritesIt(r.open[id], hash, now)) {
      StaleOnly(r, id, hash, now);
      var steps := UseAgain(r, id, hash, now);
    } else {
      assert Dead(r, hash, now);
      forall steps | Runnable(r, steps) && Unstored(r, steps, hash, now)
        ensures UsesOf(RaceRun(r, steps).s, hash) == UsesOf(r.s, hash)
      {
        DeadRun(r, steps, hash, now);
      }
    }
  }

  lemma StaleOnly(r: Race, id: nat, hash: string, now: int)
    requires RaceInv(r) && Gone(r.s.pending, hash) && id in r.open
    requires UsesIt(r.open[id], hash) || RewritesIt(r.open[id], hash, now)
    ensures r.open[id].version < r.version
  {
    if r.open[id].version == r.version {
      NoRewriteWithout(r.open[id], hash, now);
    }
  }

  lemma UseAgain(r: Race, id: nat, hash: string, now: int) returns (steps: seq<Step>)
    requires id in r.open && (UsesIt(r.open[id], hash) || RewritesIt(r.open[id], hash, now))
    ensures Runnable(r, steps) && Unstored(r, steps, hash, now)
    ensures UsesOf(RaceRun(r, steps).s, hash) > UsesOf(r.s, hash)
  {
    var c := r.open[id];
    var r1 := RaceNext(r, Finish(id));
    UsesAfter(r.s, c, hash);
    var rest := [];
    if !UsesIt(c, hash) {
      rest := LiveIsUsable(r1, hash, now, id);
    }
    UnstoredCons(r, Finish(id), rest, hash, now);
    Prepend(r, Finish(id), rest);
    steps := [Finish(id)] + rest;
  }

  // ---------- one later validation ----------

  /** A call that read before version `v` commits a list that still holds the hash. */
  ghost predicate StaleRewrite(r: Race, steps: seq<Step>, v: nat, hash: string, now: int)
    requires Runnable(r, steps)
    decreases |steps|
  {
    steps != [] &&
    (|| (steps[0].Finish? && r.open[steps[0].id].version < v && RewritesIt(r.open[steps[0].id], hash, now))
     || StaleRewrite(RaceNext(r, steps[0]), steps[1..], v, hash, now))
  }

  /** Neither the file nor a call that read at version `v` or later has a live entry of the hash. */
  ghost predicate Clean(r: Race, v: nat, hash: string, now: int)
  {
    && v <= r.version && !Live(r.s.pending, hash, now)
    && forall id :: id in r.open && r.open[id].version >= v ==> !Live(r.open[id].snapshot, hash, now)
  }

  lemma {:induction false} CleanUntilRewrite(r: Race, steps: seq<Step>, v: nat, hash: string, now: int)
    requires Clean(r, v, hash, now) && Runnable(r, steps) && Unstored(r, steps, hash, now)
    requires !StaleRewrite(r, steps, v, hash, now)
    ensures Clean(RaceRun(r, steps), v, hash, now)
    decreases |steps|
  {
    if steps != [] {
      if steps[0].Finish? {
        var c := r.open[steps[0].id];
        UsesAfter(r.s, c, hash);
        if c.version >= v {
          NoRewriteWithout(c, hash, now);
        }
      }
      CleanUntilRewrite(RaceNext(r, steps[0]), steps[1..], v, hash, now);
    }
  }

  /** A validation that succeeds after the hash was gone has read before that, or after a call that had
      read before that wrote it back. */
  lemma LaterUseNeedsStaleRead(r: Race, steps: seq<Step>, id: nat, hash: string, now: int)
    requires RaceInv(r) && Gone(r.s.pending, hash) && Runnable(r, steps) && Unstored(r, steps, hash, now)
    requires var t := RaceRun(r, steps); id in t.open && t.open[id].op.now >= now && UsesIt(t.open[id], hash)
    ensures RaceRun(r, steps).open[id].version < r.version || StaleRewrite(r, steps, r.version, hash, now)
  {
    if !StaleRewrite(r, steps, r.version, hash, now) {
      forall k | k in r.open && r.open[k].version >= r.version ensures !Live(r.open[k].snapshot, hash, now) {
        assert r.open[k].snapshot == r.s.pending;
      }
      CleanUntilRewrite(r, steps, r.version, hash, now);
      var c := RaceRun(r, steps).open[id];
      if c.version >= r.version {
        NoUseWithout(c, hash, now);
      }
    }
  }

  // ---------- both happen ----------

  /** The race once `e` has been stored. */
  function Holding(e: Token): Race
  {
    Race(EMPTY.(pending := [e], stores := [e]), 1, map[])
  }

  lemma HoldingIsReached(e: Token) returns (steps: seq<Step>)
    ensures Runnable(RACE_START, steps) && RaceRun(RACE_START, steps) == Holding(e)
  {
    var begin := Begin(0, Store(e, 0, Readable, true));
    var r1 := RaceNext(RACE_START, begin);
    assert Filter([], 0, true) == [] && Filter([], 0, false) == [];
    assert RaceNext(r1, Finish(0)) == Holding(e);
    Prepend(r1, Finish(0), []);
    Prepend(RACE_START, begin, [Finish(0)]);
    steps := [begin] + [Finish(0)];
  }

  /** The entry was stored once and has been used twice. */
  ghost predicate UsedTwice(s: State, e: Token)
  {
    Count(s.stores, e.hash) == 1 && UsesOf(s, e.hash) == 2
  }

  lemma UsesCounted(s: State, e: Token, u: Use)
    requires u.token == e
    ensures s.consumed == [u] ==> UsesOf(s, e.hash) == 1
    ensures s.consumed == [u] + [u] ==> UsesOf(s, e.hash) == 2
    ensures s.stores == [e] ==> Count(s.stores, e.hash) == 1
  {
    TokensSnoc([u], u);
    assert [u][..0] == [] && Tokens([u]) == [] + [e] == [e];
    assert [e][..0] == [] && Count([e], e.hash) == 1;
    assert ([e] + [e])[..1] == [e] && Count([e] + [e], e.hash) == 2;
  }

  /** Two validations that both read before either commits use one entry twice. */
  lemma OverlapUsesTwice(e: Token, now: int) returns (steps: seq<Step>)
    requires now <= e.expiresAt
    ensures Runnable(RACE_START, steps) && UsedTwice(RaceRun(RACE_START, steps).s, e)
  {
    var op := Validate(e.hash, now, Readable, true);
    var r := Holding(e);
    var r1 := RaceNext(r, Begin(1, op));
    var r2 := RaceNext(r1, Begin(2, op));
    var r3 := RaceNext(r2, Finish(1));
    var r4 := RaceNext(r3, Finish(2));
    Prepend(r3, Finish(2), []);
    Prepend(r2, Finish(1), [Finish(2)]);
    Prepend(r1, Begin(2, op), [Finish(1)] + [Finish(2)]);
    Prepend(r, Begin(1, op), [Begin(2, op)] + ([Finish(1)] + [Finish(2)]));
    UsesCounted(r4.s, e, Use(e, now));
    var before := HoldingIsReached(e);
    var after := [Begin(1, op)] + ([Begin(2, op)] + ([Finish(1)] + [Finish(2)]));
    RaceSplit(RACE_START, before, after);
    steps := before + after;
  }

  /** The race after `e` has been used while a store of `f`, which has read before that, is under way. */
  function Used(e: Token, f: Token, now: int): Race
  {
    Race(EMPTY.(stores := [e], consumed := [Use(e, now)]), 2,
         map[1 := Call(Store(f, now, Readable, true), [e], 1)])
  }

  /** And after that store has committed. */
  function Revived(e: Token, f: Token, now: int): Race
  {
    Race(EMPTY.(pending := [e, f], stores := [e, f], consumed := [Use(e, now)]), 3, map[])
  }

  lemma UsedIsReached(e: Token, f: Token, now: int) returns (steps: seq<Step>)
    requires now <= e.expiresAt
    ensures Runnable(RACE_START, steps) && RaceRun(RACE_START, steps) == Used(e, f, now)
  {
    var op, store := Validate(e.hash, now, Readable, true), Store(f, now, Readable, true);
    var r := Holding(e);
    var r1 := RaceNext(r, Begin(1, store));
    var r2 := RaceNext(r1, Begin(2, op));
    var r3 := RaceNext(r2, Finish(2));
    assert r3.open == map[1 := Call(store, [e], 1)];
    assert r3 == Used(e, f, now);
    Prepend(r2, Finish(2), []);
    Prepend(r1, Begin(2, op), [Finish(2)]);
    Prepend(r, Begin(1, store), [Begin(2, op)] + [Finish(2)]);
    var stored := HoldingIsReached(e);
    var used := [Begin(1, store)] + ([Begin(2, op)] + [Finish(2)]);
    RaceSplit(RACE_START, stored, used);
    steps := stored + used;
  }

  lemma StoreRevives(e: Token, f: Token, now: int)
    requires now < e.expiresAt
    ensures RaceNext(Used(e, f, now), Finish(1)) == Revived(e, f, now)
  {
    assert [e][..0] == [] && Filter([e], now, true) == [] + [e] && Filter([e], now, false) == [];
  }

  lemma RevivedIsUsed(e: Token, f: Token, now: int)
    requires now <= e.expiresAt
    ensures var r, op := Revived(e, f, now), Validate(e.hash, now, Readable, true);
      var steps := [Begin(3, op)] + [Finish(3)];
      && Runnable(r, steps) && Unstored(r, steps, e.hash, now)
      && RaceRun(r, steps).s.consumed == [Use(e, now)] + [Use(e, now)]
  {
    var r, op := Revived(e, f, now), Validate(e.hash, now, Readable, true);
    var r1 := RaceNext(r, Begin(3, op));
    UnstoredCons(r1, Finish(3), [], e.hash, now);
    Prepend(r1, Finish(3), []);
    UnstoredCons(r, Begin(3, op), [Finish(3)], e.hash, now);
    Prepend(r, Begin(3, op), [Finish(3)]);
  }

  /** A store that read before the use and commits after it brings the entry back, and a validation
      that begins after all that uses it again. */
  lemma StaleStoreRevives(e: Token, f: Token, now: int) returns (before: seq<Step>, after: seq<Step>)
    requires now < e.expiresAt && e.hash != f.hash
    ensures Runnable(RACE_START, before)
    ensures var r := RaceRun(RACE_START, before);
      && Gone(r.s.pending, e.hash) && UsesOf(r.s, e.hash) == 1
      && Runnable(r, after) && Unstored(r, after, e.hash, now)
      && |after| == 3 && after[1] == Begin(3, Validate(e.hash, now, Readable, true)) && after[2] == Finish(3)
      && UsesOf(RaceRun(r, after).s, e.hash) == 2
  {
    var op := Validate(e.hash, now, Readable, true);
    before := UsedIsReached(e, f, now);
    UsesCounted(Used(e, f, now).s, e, Use(e, now));
    StoreRevives(e, f, now);
    RevivedIsUsed(e, f, now);
    var rest := [Begin(3, op)] + [Finish(3)];
    UnstoredCons(Used(e, f, now), Finish(1), rest, e.hash, now);
    Prepend(Used(e, f, now), Finish(1), rest);
    after := [Finish(1)] + rest;
    UsesCounted(RaceRun(Used(e, f, now), after).s, e, Use(e, now));
  }
}
