/**
 * The single-use pairing tokens kept in the notify repository (leaf/agent/notify/token_store.go).
 * Hashes are opaque strings. The current time and the repository's answers are parameters.
 */
module TokenStore {
  import opened Common

  datatype Token = Token(hash: string, expiresAt: int, device: string)

  /** Reading the token file: it decodes, it cannot be read (which counts as empty), or it is there
      but does not decode (an error). */
  datatype Read = Readable | Unreadable | Garbage

  datatype Use = Use(token: Token, at: int)

  /** The file, and the history of every entry ever stored in it. */
  datatype State = State(
    pending: seq<Token>,
    stores: seq<Token>, consumed: seq<Use>, expired: seq<Token>, pruned: seq<Token>, lost: seq<Token>)

  const EMPTY := State([], [], [], [], [], [])

  datatype Op =
    | Store(token: Token, now: int, read: Read, commitOk: bool)
    | Validate(hash: string, now: int, read: Read, commitOk: bool)

  // ---------- what the calls do ----------

  predicate Alive(t: Token, now: int)
  {
    now < t.expiresAt
  }

  /** The tokens not yet expired, or the expired ones, in order. */
  function Filter(ts: seq<Token>, now: int, alive: bool): seq<Token>
  {
    if ts == [] then []
    else if Alive(ts[|ts| - 1], now) == alive then Filter(ts[..|ts| - 1], now, alive) + [ts[|ts| - 1]]
    else Filter(ts[..|ts| - 1], now, alive)
  }

  lemma {:induction false} FilterMembers(ts: seq<Token>, now: int)
    ensures forall t :: t in Filter(ts, now, true) <==> t in ts && Alive(t, now)
    decreases |ts|
  {
    if ts != [] {
      FilterMembers(ts[..|ts| - 1], now);
      assert ts == ts[..|ts| - 1] + [ts[|ts| - 1]];
    }
  }

  /** The position of the first entry with the hash, or the length. */
  function Find(ts: seq<Token>, hash: string): (i: nat)
    ensures i <= |ts| && (i < |ts| ==> ts[i].hash == hash)
    ensures forall j :: 0 <= j < i ==> ts[j].hash != hash
  {
    if ts == [] then 0
    else if ts[0].hash == hash then 0
    else
      1 + Find(ts[1..], hash)
  }

  function Without(ts: seq<Token>, i: nat): seq<Token>
    requires i < |ts|
  {
    ts[..i] + ts[i + 1..]
  }

  function Stored(s: State, op: Op): (State, bool)
    requires op.Store?
  {
    if op.read.Garbage? || !op.commitOk then (s, false)
    else if op.read.Unreadable? then
      (s.(pending := [op.token], stores := s.stores + [op.token], lost := s.lost + s.pending), true)
    else
      (s.(pending := Filter(s.pending, op.now, true) + [op.token], stores := s.stores + [op.token],
          pruned := s.pruned + Filter(s.pending, op.now, false)), true)
  }

  function Validated(s: State, op: Op): (State, Option<Token>)
    requires op.Validate?
  {
    var i := Find(s.pending, op.hash);
    if !op.read.Readable? || i == |s.pending| then (s, None)
    else
      var t := s.pending[i];
      if op.now > t.expiresAt then
        (if op.commitOk then s.(pending := Without(s.pending, i), expired := s.expired + [t]) else s, None)
      else if !op.commitOk then (s, None)
      else (s.(pending := Without(s.pending, i), consumed := s.consumed + [Use(t, op.now)]), Some(t))
  }

  function Next(s: State, op: Op): State
  {
    if op.Store? then Stored(s, op).0 else Validated(s, op).0
  }

  class Repository {
    var pending: seq<Token>
    ghost var history: State

    ghost function Sees(): (s: State)
      reads this
    {
      history.(pending := pending)
    }

    constructor ()
      ensures Sees() == EMPTY
    {
      pending, history := [], EMPTY;
    }

    /** Filters in place, over the same storage, and returns the length kept. */
    static method PruneExpired(tokens: array<Token>, now: int) returns (kept: nat)
      modifies tokens
      ensures kept <= tokens.Length
      ensures tokens[..kept] == Filter(old(tokens[..]), now, true)
      ensures forall t :: t in tokens[..kept] <==> t in old(tokens[..]) && now < t.expiresAt
    {
      kept := 0;
      for i := 0 to tokens.Length
        invariant kept <= i
        invariant tokens[i..] == old(tokens[..])[i..]
        invariant tokens[..kept] == Filter(old(tokens[..])[..i], now, true)
      {
        assert tokens[i] == tokens[i..][0] == old(tokens[..])[i];
        assert old(tokens[..])[..i + 1][..i] == old(tokens[..])[..i];
        ghost var rest := tokens[i + 1..];
        assert rest == tokens[i..][1..];
        if Alive(tokens[i], now) {
          tokens[kept] := tokens[i];
          kept := kept + 1;
        }
        assert tokens[i + 1..] == rest;
      }
      assert old(tokens[..])[..tokens.Length] == old(tokens[..]);
      FilterMembers(old(tokens[..]), now);
    }

    method StorePendingToken(token: Token, now: int, read: Read, commitOk: bool) returns (ok: bool)
      modifies this
      ensures (Sees(), ok) == Stored(old(Sees()), Store(token, now, read, commitOk))
      ensures ok <==> !read.Garbage? && commitOk
      ensures ok && read.Readable? ==>
        forall t :: t in pending <==> t == token || (t in old(pending) && now < t.expiresAt)
      ensures ok && read.Unreadable? ==> pending == [token]
      ensures ok ==> pending != [] && pending[|pending| - 1] == token
      ensures !ok ==> pending == old(pending)
    {
      if read.Garbage? {
        return false;
      }
      var decoded := if read.Unreadable? then [] else pending;
      var tokens := new Token[|decoded|](i requires 0 <= i < |decoded| => decoded[i]);
      assert tokens[..] == decoded;
      FilterMembers(decoded, now);
      var kept := PruneExpired(tokens, now);
      if !commitOk {
        return false;
      }
      assert read.Unreadable? ==> tokens[..kept] + [token] == [token];
      ghost var after := Stored(Sees(), Store(token, now, read, commitOk)).0;
      history := after;
      pending := tokens[..kept] + [token];
      assert Sees() == after;
      ok := true;
    }

    method ValidateToken(hash: string, now: int, read: Read, commitOk: bool) returns (r: Option<Token>)
      modifies this
      ensures (Sees(), r) == Validated(old(Sees()), Validate(hash, now, read, commitOk))
      ensures r.Some? ==> r.value in old(pending) && r.value.hash == hash && now <= r.value.expiresAt
      ensures r.Some? ==> commitOk && multiset(pending) == multiset(old(pending)) - multiset{r.value}
      ensures forall i :: 0 <= i < |old(pending)| && old(pending)[i].hash == hash && IsFirst(old(pending), i) ==>
        if read.Readable? && commitOk then
          && pending == old(pending)[..i] + old(pending)[i + 1..]
          && r == if now <= old(pending)[i].expiresAt then Some(old(pending)[i]) else None
        else r == None && pending == old(pending)
      ensures (forall i :: 0 <= i < |old(pending)| ==> old(pending)[i].hash != hash) ==>
        r == None && pending == old(pending)
    {
      if !read.Readable? {
        return None;
      }
      for i := 0 to |pending|
        invariant Sees() == old(Sees())
        invariant forall j :: 0 <= j < i ==> pending[j].hash != hash
      {
        if pending[i].hash != hash {
          continue;
        }
        assert Find(pending, hash) == i;
        var matched := pending[i];
        ghost var after := Validated(Sees(), Validate(hash, now, read, commitOk)).0;
        if now > matched.expiresAt {
          if commitOk {
            history := after;
            pending := pending[..i] + pending[i + 1..];
          }
          return None;
        }
        if !commitOk {
          return None;
        }
        WithoutOne(pending, i);
        history := after;
        pending := pending[..i] + pending[i + 1..];
        return Some(matched);
      }
      r := None;
    }
  }

  // ---------- runs ----------

  function Run(s: State, ops: seq<Op>): State
    decreases |ops|
  {
    if ops == [] then s else Run(Next(s, ops[0]), ops[1..])
  }

  function Tokens(us: seq<Use>): seq<Token>
  {
    if us == [] then [] else Tokens(us[..|us| - 1]) + [us[|us| - 1].token]
  }

  ghost function Occurrences(ts: seq<Token>, t: Token): nat
  {
    multiset(ts)[t]
  }

  lemma OccurrencesConcat(a: seq<Token>, b: seq<Token>, t: Token)
    ensures Occurrences(a + b, t) == Occurrences(a, t) + Occurrences(b, t)
    ensures Occurrences([t], t) == 1
  {
  }

  /** Every entry ever stored is in exactly one place. */
  ghost predicate Conserved(s: State)
  {
    forall t :: ConservedAt(s, t)
  }

  ghost predicate ConservedAt(s: State, t: Token)
  {
    Occurrences(s.stores, t) ==
      Occurrences(s.pending, t) + Occurrences(Tokens(s.consumed), t) + Occurrences(s.expired, t)
      + Occurrences(s.pruned, t) + Occurrences(s.lost, t)
  }

  ghost predicate InTime(s: State)
  {
    forall u :: u in s.consumed ==> u.at <= u.token.expiresAt
  }

  lemma {:induction false} FilterSplits(ts: seq<Token>, now: int, t: Token)
    ensures Occurrences(ts, t) == Occurrences(Filter(ts, now, true), t) + Occurrences(Filter(ts, now, false), t)
    decreases |ts|
  {
    if ts != [] {
      var init, last := ts[..|ts| - 1], [ts[|ts| - 1]];
      FilterSplits(init, now, t);
      assert ts == init + last;
      OccurrencesConcat(init, last, t);
      OccurrencesConcat(Filter(init, now, true), last, t);
      OccurrencesConcat(Filter(init, now, false), last, t);
    }
  }

  lemma WithoutSplits(ts: seq<Token>, i: nat, t: Token)
    requires i < |ts|
    ensures Occurrences(ts, t) == Occurrences(Without(ts, i), t) + Occurrences([ts[i]], t)
  {
    assert ts == ts[..i] + [ts[i]] + ts[i + 1..];
  }

  lemma StoreKeeps(s: State, op: Op, t: Token)
    requires ConservedAt(s, t) && op.Store?
    ensures ConservedAt(Next(s, op), t)
  {
    OccurrencesConcat(s.stores, [op.token], t);
    if op.read.Unreadable? {
      OccurrencesConcat(s.lost, s.pending, t);
    } else {
      PrunedSplits(s.pending, op.now, op.token, s.pruned, t);
    }
  }

  lemma PrunedSplits(pending: seq<Token>, now: int, token: Token, pruned: seq<Token>, t: Token)
    ensures Occurrences(Filter(pending, now, true) + [token], t)
            + Occurrences(pruned + Filter(pending, now, false), t)
            == Occurrences(pending, t) + Occurrences([token], t) + Occurrences(pruned, t)
  {
    FilterSplits(pending, now, t);
    OccurrencesConcat(Filter(pending, now, true), [token], t);
    OccurrencesConcat(pruned, Filter(pending, now, false), t);
  }

  lemma TokensSnoc(us: seq<Use>, u: Use)
    ensures Tokens(us + [u]) == Tokens(us) + [u.token]
  {
    assert (us + [u])[..|us|] == us;
  }

  /** Moving one entry from the pending list to another list. */
  lemma Moved(pending: seq<Token>, i: nat, place: seq<Token>, t: Token)
    requires i < |pending|
    ensures Occurrences(pending, t) + Occurrences(place, t) ==
            Occurrences(Without(pending, i), t) + Occurrences(place + [pending[i]], t)
  {
    WithoutSplits(pending, i, t);
    OccurrencesConcat(place, [pending[i]], t);
  }

  lemma ValidateKeeps(s: State, op: Op, t: Token)
    requires ConservedAt(s, t) && op.Validate?
    ensures ConservedAt(Next(s, op), t)
  {
    var i := Find(s.pending, op.hash);
    if i < |s.pending| && op.read.Readable? && op.commitOk {
      if op.now > s.pending[i].expiresAt {
        Moved(s.pending, i, s.expired, t);
      } else {
        Moved(s.pending, i, Tokens(s.consumed), t);
        TokensSnoc(s.consumed, Use(s.pending[i], op.now));
      }
    }
  }

  lemma UsesInTime(s: State, op: Op)
    requires InTime(s)
    ensures InTime(Next(s, op))
  {
  }

  lemma OpKeeps(s: State, op: Op)
    requires Conserved(s) && InTime(s)
    ensures Conserved(Next(s, op)) && InTime(Next(s, op))
  {
    UsesInTime(s, op);
    forall t ensures ConservedAt(Next(s, op), t) {
      if op.Store? {
        StoreKeeps(s, op, t);
      } else {
        ValidateKeeps(s, op, t);
      }
    }
  }

  /** Over any run entries are conserved, and no use comes later than the entry's expiry. */
  lemma {:induction false} RunKeeps(s: State, ops: seq<Op>)
    requires Conserved(s) && InTime(s)
    ensures Conserved(Run(s, ops)) && InTime(Run(s, ops))
    decreases |ops|
  {
    if ops != [] {
      OpKeeps(s, ops[0]);
      RunKeeps(Next(s, ops[0]), ops[1..]);
    }
  }

  /** A validation succeeds exactly when the file is read, its first entry with the hash has not
      expired, and the removal commits; it returns that entry. */
  lemma ValidatesExactly(s: State, op: Op, t: Token)
    requires op.Validate?
    ensures Validated(s, op).1 == Some(t) <==>
      && op.read.Readable? && op.commitOk && t.hash == op.hash && op.now <= t.expiresAt
      && exists i :: 0 <= i < |s.pending| && s.pending[i] == t && IsFirst(s.pending, i)
  {
    var i := Find(s.pending, op.hash);
    if i < |s.pending| {
      assert IsFirst(s.pending, i);
      assert forall k :: 0 <= k < |s.pending| && s.pending[k].hash == op.hash && IsFirst(s.pending, k) ==> k == i;
    }
  }

  ghost predicate IsFirst(ts: seq<Token>, i: nat)
    requires i < |ts|
  {
    forall j :: 0 <= j < i ==> ts[j].hash != ts[i].hash
  }

  // ---------- single use ----------

  function Count(ts: seq<Token>, hash: string): nat
  {
    if ts == [] then 0 else Count(ts[..|ts| - 1], hash) + if ts[|ts| - 1].hash == hash then 1 else 0
  }

  lemma {:induction false} CountConcat(a: seq<Token>, b: seq<Token>, hash: string)
    ensures Count(a + b, hash) == Count(a, hash) + Count(b, hash)
    decreases |b|
  {
    if b == [] {
      assert a + b == a;
    } else {
      CountConcat(a, b[..|b| - 1], hash);
      assert (a + b)[..|a + b| - 1] == a + b[..|b| - 1];
    }
  }

  lemma CountWithout(ts: seq<Token>, i: nat, hash: string)
    requires i < |ts|
    ensures Count(ts, hash) == Count(Without(ts, i), hash) + if ts[i].hash == hash then 1 else 0
  {
    var a, x, b := ts[..i], [ts[i]], ts[i + 1..];
    assert ts == a + x + b;
    CountConcat(a, b, hash);
    CountConcat(a + x, b, hash);
    CountConcat(a, x, hash);
    assert x[..0] == [];
  }

  lemma {:induction false} CountPermutation(a: seq<Token>, b: seq<Token>, hash: string)
    requires forall t :: Occurrences(a, t) == Occurrences(b, t)
    ensures Count(a, hash) == Count(b, hash)
    decreases |a|
  {
    if a == [] {
      forall t ensures multiset(b)[t] == 0 {
        assert Occurrences(b, t) == Occurrences(a, t);
      }
      assert multiset(b) == multiset{};
      assert |b| == |multiset(b)|;
    } else {
      var k := |a| - 1;
      var x := a[k];
      assert Occurrences(a, x) == Occurrences(b, x) && x in a;
      var i :| 0 <= i < |b| && b[i] == x;
      forall t ensures Occurrences(Without(a, k), t) == Occurrences(Without(b, i), t) {
        WithoutSplits(a, k, t);
        WithoutSplits(b, i, t);
      }
      CountWithout(a, k, hash);
      CountWithout(b, i, hash);
      CountPermutation(Without(a, k), Without(b, i), hash);
    }
  }

  /** A hash is never validated successfully more often than it was stored. */
  lemma NeverMoreUsesThanStores(ops: seq<Op>, hash: string)
    ensures var t := Run(EMPTY, ops); Count(Tokens(t.consumed), hash) <= Count(t.stores, hash)
  {
    RunKeeps(EMPTY, ops);
    var t := Run(EMPTY, ops);
    var uses := Tokens(t.consumed);
    var others := t.pending + t.expired + t.pruned + t.lost;
    forall x ensures Occurrences(t.stores, x) == Occurrences(uses + others, x) {
      assert ConservedAt(t, x);
      OccurrencesConcat(uses, others, x);
      OccurrencesConcat(t.pending + t.expired + t.pruned, t.lost, x);
      OccurrencesConcat(t.pending + t.expired, t.pruned, x);
      OccurrencesConcat(t.pending, t.expired, x);
    }
    CountPermutation(t.stores, uses + others, hash);
    CountConcat(uses, others, hash);
  }

  /** Exactly the operations that lose pending entries: a store whose read failed. */
  lemma LostExactly(s: State, op: Op)
    ensures Next(s, op).lost == s.lost
            <==> !(op.Store? && op.read.Unreadable? && op.commitOk && s.pending != [])
  {
  }

  /** With readable storage nothing is lost, so an entry can leave only by use, expiry or pruning. */
  lemma {:induction false} ReadableLosesNothing(s: State, ops: seq<Op>)
    requires forall i :: 0 <= i < |ops| ==> !ops[i].read.Unreadable?
    ensures Run(s, ops).lost == s.lost
    decreases |ops|
  {
    if ops != [] {
      LostExactly(s, ops[0]);
      ReadableLosesNothing(Next(s, ops[0]), ops[1..]);
    }
  }

  /** A used token's entry is gone: with one entry for the hash, the second validation fails. */
  lemma SecondUseFails(s: State, first: Op, second: Op)
    requires first.Validate? && second.Validate? && first.hash == second.hash
    requires Count(s.pending, first.hash) == 1 && Validated(s, first).1.Some?
    ensures Validated(Next(s, first), second).1 == None
  {
    var i := Find(s.pending, first.hash);
    CountWithout(s.pending, i, first.hash);
    CountZero(Without(s.pending, i), first.hash);
  }

  lemma {:induction false} CountZero(ts: seq<Token>, hash: string)
    requires Count(ts, hash) == 0
    ensures forall i :: 0 <= i < |ts| ==> ts[i].hash != hash
    decreases |ts|
  {
    if ts != [] {
      CountZero(ts[..|ts| - 1], hash);
    }
  }
}
