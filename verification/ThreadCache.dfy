/**
 * The thread-id cache of the notify service in front of the repository scan
 * (leaf/agent/notify/notify.go): `Send` and `resolveThread`. The cache key is the short id alone.
 */
module ThreadCache {
  import opened Common
  import opened Text
  import opened ThreadStore

  /** `ever` is history: every message a commit was made of. */
  datatype State = State(repo: Repo, threadMap: map<string, string>, ever: set<Message>)

  /** `draft` is the message with its new random ids; `listOk` and `commitOk` are the repo's answers. */
  datatype Op =
    | Send(draft: Message, threadShort: string, listOk: bool, commitOk: bool)
    | Resolve(project: string, threadShort: string, listOk: bool)

  /** The repository scan: the thread of the first readable message file of that directory. */
  function ScanFrom(names: seq<string>, contents: map<string, Message>, project: string, short: string)
    : (t: Option<string>)
    ensures t.Some? ==> exists f :: f in names && f in contents && Matches(f, project, short)
                                    && t.value == contents[f].thread
    ensures t.None? ==> forall f :: f in names && f in contents ==> !Matches(f, project, short)
  {
    if names == [] then None
    else if Matches(names[0], project, short) && names[0] in contents then Some(contents[names[0]].thread)
    else
      assert names == [names[0]] + names[1..];
      ScanFrom(names[1..], contents, project, short)
  }

  function Scan(r: Repo, project: string, short: string): Option<string>
  {
    ScanFrom(r.names, r.contents, project, short)
  }

  /** `resolveThread`: the cache first, then the scan, whose answer is remembered. */
  function Resolved(s: State, project: string, short: string, listOk: bool): (State, Option<string>)
  {
    if short in s.threadMap then (s, Some(s.threadMap[short]))
    else if !listOk then (s, None)
    else
      var t := Scan(s.repo, project, short);
      if t.None? then (s, None) else (s.(threadMap := s.threadMap[short := t.value]), t)
  }

  function Sent(s: State, op: Op): (State, Option<Message>)
    requires op.Send?
  {
    var (s1, t) := if op.threadShort == "" then (s, Some(op.draft.thread))
                   else Resolved(s, op.draft.project, op.threadShort, op.listOk);
    if t.None? then (s1, None)
    else
      var m := op.draft.(thread := t.value);
      if !op.commitOk then (s1, None)
      else (State(Committed(s1.repo, m), s1.threadMap[ThreadShort(m) := m.thread], s1.ever + {m}), Some(m))
  }

  /** The thread a message goes to: its own new one, or the one it replies to, if there is one. */
  function ThreadFor(s: State, draft: Message, short: string, listOk: bool): Option<string>
  {
    if short == "" then Some(draft.thread)
    else if short in s.threadMap then Some(s.threadMap[short])
    else if listOk then Scan(s.repo, draft.project, short)
    else None
  }

  lemma SentIsStored(s: State, op: Op)
    requires op.Send? && Sent(s, op).1.Some?
    ensures var (t, m) := Sent(s, op);
      FilePath(m.value) in t.repo.names && t.repo.contents[FilePath(m.value)] == m.value
  {
    var f := FilePath(Sent(s, op).1.value);
    if f !in s.repo.names {
      InsertedHolds(f, s.repo.names);
      assert f in multiset(Inserted(f, s.repo.names));
    }
  }

  function Next(s: State, op: Op): State
  {
    match op
    case Send(_, _, _, _) => Sent(s, op).0
    case Resolve(project, short, listOk) => Resolved(s, project, short, listOk).0
  }

  /** The first name, in name order, of a readable message file of that directory. */
  ghost predicate FirstReadable(r: Repo, project: string, short: string, i: nat)
  {
    && i < |r.names| && Matches(r.names[i], project, short) && r.names[i] in r.contents
    && forall j :: 0 <= j < i ==> !(Matches(r.names[j], project, short) && r.names[j] in r.contents)
  }

  class Service {
    var repo: Repo
    var threadMap: map<string, string>
    ghost var ever: set<Message>

    ghost function Sees(): (s: State)
      reads this
    {
      State(repo, threadMap, ever)
    }

    constructor (repo: Repo)
      ensures Sees() == State(repo, map[], set f | f in repo.contents :: repo.contents[f])
    {
      this.repo, threadMap := repo, map[];
      ever := set f | f in repo.contents :: repo.contents[f];
    }

    method ResolveThread(project: string, short: string, listOk: bool) returns (t: Option<string>)
      modifies this
      ensures (Sees(), t) == Resolved(old(Sees()), project, short, listOk)
      ensures repo == old(repo)
      ensures short in old(threadMap) ==> t == Some(old(threadMap)[short]) && threadMap == old(threadMap)
      ensures t.Some? ==> threadMap == old(threadMap)[short := t.value]
      ensures t.None? ==> threadMap == old(threadMap)
      ensures short !in old(threadMap) && t.Some? ==>
        listOk &&
        exists i: nat :: FirstReadable(repo, project, short, i) && repo.contents[repo.names[i]].thread == t.value
      ensures t.None? ==> short !in old(threadMap)
      ensures t.None? && listOk ==>
        forall f :: f in repo.names && f in repo.contents ==> !Matches(f, project, short)
    {
      if short in threadMap {
        return Some(threadMap[short]);
      }
      if !listOk {
        return None;
      }
      for i := 0 to |repo.names|
        invariant Sees() == old(Sees())
        invariant Scan(repo, project, short) == ScanFrom(repo.names[i..], repo.contents, project, short)
        invariant forall j :: 0 <= j < i ==> !(Matches(repo.names[j], project, short) && repo.names[j] in repo.contents)
      {
        var f := repo.names[i];
        assert repo.names[i..][1..] == repo.names[i + 1..];
        if Matches(f, project, short) {
          if f !in repo.contents {
            continue;
          }
          assert FirstReadable(repo, project, short, i);
          threadMap := threadMap[short := repo.contents[f].thread];
          return Some(repo.contents[f].thread);
        }
      }
      assert repo.names[|repo.names|..] == [];
      t := None;
    }

    method Send(draft: Message, threadShort: string, listOk: bool, commitOk: bool)
      returns (sent: Option<Message>)
      modifies this
      ensures (Sees(), sent) == Sent(old(Sees()), Op.Send(draft, threadShort, listOk, commitOk))
      ensures sent.Some? <==> ThreadFor(old(Sees()), draft, threadShort, listOk).Some? && commitOk
      ensures sent.Some? ==>
        && sent.value == draft.(thread := ThreadFor(old(Sees()), draft, threadShort, listOk).value)
        && FilePath(sent.value) in repo.names && repo.contents[FilePath(sent.value)] == sent.value
        && threadMap[ThreadShort(sent.value)] == sent.value.thread
      ensures sent.None? ==> repo == old(repo)
    {
      var m := draft;
      if threadShort != "" {
        var t := ResolveThread(m.project, threadShort, listOk);
        if t.None? {
          return None;
        }
        m := m.(thread := t.value);
      }
      if !commitOk {
        return None;
      }
      repo := Committed(repo, m);
      threadMap := threadMap[ThreadShort(m) := m.thread];
      ever := ever + {m};
      sent := Some(m);
      SentIsStored(old(Sees()), Op.Send(draft, threadShort, listOk, commitOk));
    }
  }

  // ---------- invariant ----------

  /** The ids of a message fit in path segments, as generated ids do. */
  predicate Plain(m: Message)
  {
    PlainThread(m) && '/' !in ShortID(m.id, "msg-")
  }

  ghost predicate Inv(s: State)
  {
    && Built(s.repo)
    && (forall m :: m in s.ever ==> Plain(m))
    && (forall f :: f in s.repo.names ==> s.repo.contents[f] in s.ever)
    && (forall k :: k in s.threadMap ==> exists m :: m in s.ever && ThreadShort(m) == k && m.thread == s.threadMap[k])
  }

  ghost predicate OpOk(op: Op)
  {
    match op
    case Send(draft, _, _, _) => Plain(draft)
    case Resolve(project, _, _) => PlainProject(project)
  }

  /** A new service over a repository of committed messages starts there. */
  lemma NewServiceHolds(r: Repo)
    requires Built(r) && forall f :: f in r.contents ==> f in r.names && Plain(r.contents[f])
    ensures Inv(State(r, map[], set f | f in r.contents :: r.contents[f]))
  {
  }

  /** A plain message's file matches only its own project and its own short id. */
  lemma MatchesOwnShort(m: Message, project: string, short: string)
    requires Plain(m) && PlainProject(project) && Matches(FilePath(m), project, short)
    ensures ThreadShort(m) == short && m.project == project
  {
    MatchedTail(m, project, short);
    OneSlash(m, short);
    ThreadPath(m, project, short);
  }

  lemma MatchedTail(m: Message, project: string, short: string)
    requires Plain(m) && PlainProject(project) && Matches(FilePath(m), project, short)
    ensures m.project == project && HasPrefix(Tail(m), short + "/")
  {
    PathShape(m);
    SplitMatch(FilePath(m), project, short);
    PathInProject(m, project);
  }

  lemma SplitMatch(f: string, project: string, short: string)
    requires Matches(f, project, short)
    ensures HasPrefix(f, Threads(project)) && HasPrefix(f[|Threads(project)|..], short + "/")
  {
    assert Threads(project) + short + "/" == Threads(project) + (short + "/");
    CutPrefix(f, Threads(project), short + "/");
  }

  lemma OneSlash(m: Message, short: string)
    requires Plain(m) && HasPrefix(Tail(m), short + "/")
    ensures '/' !in short
  {
    DecimalNotEmpty(Seconds(m));
    var rest := Decimal(Seconds(m)) + "-" + (ShortID(m.id, "msg-") + ".json");
    assert Tail(m) == ThreadShort(m) + ['/'] + rest;
    OnlySlash(ThreadShort(m), rest, short);
  }

  lemma OnlySlash(a: string, b: string, short: string)
    requires '/' !in a && '/' !in b && HasPrefix(a + ['/'] + b, short + "/")
    ensures '/' !in short
  {
    var s := a + ['/'] + b;
    forall i | 0 <= i < |s| && i != |a| ensures s[i] != '/' {
      assert s[i] == if i < |a| then a[i] else b[i - |a| - 1];
    }
    assert s[|short|] == (short + "/")[|short|] == '/';
    forall i | 0 <= i < |short| ensures short[i] != '/' {
      assert s[i] == (short + "/")[i] == short[i];
    }
  }

  lemma ResolveKeeps(s: State, project: string, short: string, listOk: bool)
    requires Inv(s) && PlainProject(project)
    ensures var (t, r) := Resolved(s, project, short, listOk);
      && Inv(t) && t.repo == s.repo && t.ever == s.ever
      && (r.Some? ==> exists m :: m in s.ever && m.thread == r.value)
  {
    var (t, r) := Resolved(s, project, short, listOk);
    if short !in s.threadMap && r.Some? {
      var f :| f in s.repo.names && f in s.repo.contents && Matches(f, project, short)
        && r.value == s.repo.contents[f].thread;
      MatchesOwnShort(s.repo.contents[f], project, short);
    }
  }

  lemma CommitKeeps(s: State, m: Message)
    requires Inv(s) && Plain(m)
    ensures Inv(State(Committed(s.repo, m), s.threadMap[ThreadShort(m) := m.thread], s.ever + {m}))
  {
    CommitKeepsBuilt(s.repo, m);
    var t := State(Committed(s.repo, m), s.threadMap[ThreadShort(m) := m.thread], s.ever + {m});
    forall k | k in t.threadMap
      ensures exists x :: x in t.ever && ThreadShort(x) == k && x.thread == t.threadMap[k]
    {
      if k == ThreadShort(m) {
        assert m in t.ever;
      } else {
        var x :| x in s.ever && ThreadShort(x) == k && x.thread == s.threadMap[k];
        assert x in t.ever;
      }
    }
  }

  lemma OpKeeps(s: State, op: Op)
    requires Inv(s) && OpOk(op)
    ensures Inv(Next(s, op)) && s.ever <= Next(s, op).ever
  {
    match op
    case Resolve(project, short, listOk) => ResolveKeeps(s, project, short, listOk);
    case Send(draft, short, listOk, commitOk) =>
      if short == "" {
        assert draft.(thread := draft.thread) == draft;
        CommitKeeps(s, draft);
      } else {
        ResolveKeeps(s, draft.project, short, listOk);
        var (s1, t) := Resolved(s, draft.project, short, listOk);
        if t.Some? {
          CommitKeeps(s1, draft.(thread := t.value));
        }
      }
  }

  function Run(s: State, ops: seq<Op>): State
    decreases |ops|
  {
    if ops == [] then s else Run(Next(s, ops[0]), ops[1..])
  }

  lemma {:induction false} RunKeeps(s: State, ops: seq<Op>)
    requires Inv(s) && forall i :: 0 <= i < |ops| ==> OpOk(ops[i])
    ensures Inv(Run(s, ops))
    decreases |ops|
  {
    if ops != [] {
      OpKeeps(s, ops[0]);
      RunKeeps(Next(s, ops[0]), ops[1..]);
    }
  }

  // ---------- the cache against the scan ----------

  /** Each short id names one full thread id. */
  ghost predicate ShortsUnique(ever: set<Message>)
  {
    forall a, b :: a in ever && b in ever && ThreadShort(a) == ThreadShort(b) ==> a.thread == b.thread
  }

  /** After any run every cached entry shortens back to its key, and it is what the scan returns for
      every project that holds the thread. */
  lemma CacheAgreesWithScan(s: State, ops: seq<Op>, k: string, project: string)
    requires Inv(s) && forall i :: 0 <= i < |ops| ==> OpOk(ops[i])
    requires ShortsUnique(Run(s, ops).ever) && k in Run(s, ops).threadMap && PlainProject(project)
    ensures var t := Run(s, ops);
      && ShortID(t.threadMap[k], "thread-") == k
      && (Scan(t.repo, project, k).Some? ==> Scan(t.repo, project, k).value == t.threadMap[k])
  {
    RunKeeps(s, ops);
    var t := Run(s, ops);
    var m :| m in t.ever && ThreadShort(m) == k && m.thread == t.threadMap[k];
    var found := Scan(t.repo, project, k);
    if found.Some? {
      var f :| f in t.repo.names && f in t.repo.contents && Matches(f, project, k)
        && found.value == t.repo.contents[f].thread;
      MatchesOwnShort(t.repo.contents[f], project, k);
      assert t.repo.contents[f] in t.ever;
    }
  }

  /** `resolveThread` answers what the scan would exactly when it has no entry for the short id or
      the project holds the thread; otherwise it finds what the scan reports missing. */
  lemma ResolveMeetsScan(s: State, ops: seq<Op>, project: string, short: string)
    requires Inv(s) && forall i :: 0 <= i < |ops| ==> OpOk(ops[i])
    requires ShortsUnique(Run(s, ops).ever) && PlainProject(project)
    ensures var t := Run(s, ops);
      Resolved(t, project, short, true).1 == Scan(t.repo, project, short)
      <==> short !in t.threadMap || exists f :: f in t.repo.names && Matches(f, project, short)
  {
    var t := Run(s, ops);
    RunKeeps(s, ops);
    if short in t.threadMap {
      CacheAgreesWithScan(s, ops, short, project);
    }
  }

  /** The case is real: after one message, its short id resolves in every other project. */
  lemma CacheIgnoresProject(m: Message, project: string)
    requires Plain(m) && PlainProject(project) && project != m.project
    ensures var s := Next(State(Repo([], map[]), map[], {}), Send(m, "", true, true));
      && Resolved(s, project, ThreadShort(m), true).1 == Some(m.thread)
      && Scan(s.repo, project, ThreadShort(m)) == None
  {
    var s := Next(State(Repo([], map[]), map[], {}), Send(m, "", true, true));
    assert m.(thread := m.thread) == m;
    assert s.repo.names == [FilePath(m)];
    if Matches(FilePath(m), project, ThreadShort(m)) {
      MatchesOwnShort(m, project, ThreadShort(m));
    }
  }
}
