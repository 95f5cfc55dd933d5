/**
 * Message files and the two queries over them (leaf/agent/notify/message.go, store.go).
 * A repository is its distinct file names in name order and what can be read and decoded of them.
 */
module ThreadStore {
  import opened Common
  import opened Sorting
  import opened Text

  /** `stamp` is the timestamp in nanoseconds since 1970. */
  datatype Message = Message(id: string, thread: string, project: string, stamp: nat, priority: string)

  datatype Repo = Repo(names: seq<string>, contents: map<string, Message>)

  datatype Summary = Summary(
    short: string, project: string, lastActivity: nat, count: nat, last: Message, priority: string)

  // ---------- paths ----------

  /** Strips the prefix by length, whatever it is, and keeps at most eight characters. */
  function ShortID(id: string, prefix: string): string
  {
    var s := if |prefix| > 0 && |id| > |prefix| then id[|prefix|..] else id;
    if |s| > 8 then s[..8] else s
  }

  function ThreadShort(m: Message): string
  {
    ShortID(m.thread, "thread-")
  }

  function Seconds(m: Message): nat
  {
    m.stamp / 1_000_000_000
  }

  function Threads(project: string): string
  {
    project + "/threads/"
  }

  function FilePath(m: Message): string
  {
    Threads(m.project) + ThreadShort(m) + "/" + Decimal(Seconds(m)) + "-" + ShortID(m.id, "msg-") + ".json"
  }

  /** `CommitMessage`: the file appears under its path, or replaces what is there. */
  function Committed(r: Repo, m: Message): Repo
  {
    var f := FilePath(m);
    Repo(if f in r.names then r.names else Inserted(f, r.names), r.contents[f := m])
  }

  ghost predicate NoRepeats(s: seq<string>)
  {
    forall i, j :: 0 <= i < j < |s| ==> s[i] != s[j]
  }

  /** Every file is a committed message, under the message's own path. */
  ghost predicate Built(r: Repo)
  {
    && NoRepeats(r.names)
    && (forall f :: f in r.names ==> f in r.contents && FilePath(r.contents[f]) == f)
    && (forall f :: f in r.names ==> PlainProject(r.contents[f].project))
  }

  predicate PlainProject(p: string)
  {
    '/' !in p
  }

  // ---------- what the queries select ----------

  /** The thread directory that `ListThreads` files a name under, if it is in the project. */
  function Directory(project: string, f: string): Option<string>
  {
    if HasPrefix(f, Threads(project)) then Before(f[|Threads(project)|..], '/') else None
  }

  /** The names filed under `short`, in order. */
  function Group(names: seq<string>, project: string, short: string): (g: seq<string>)
    ensures forall f :: f in g <==> f in names && Directory(project, f) == Some(short)
  {
    if names == [] then []
    else
      var init, f := names[..|names| - 1], names[|names| - 1];
      assert names == init + [f];
      if Directory(project, f) == Some(short) then Group(init, project, short) + [f]
      else Group(init, project, short)
  }

  predicate Matches(f: string, project: string, short: string)
  {
    HasPrefix(f, Threads(project) + short + "/") && HasSuffix(f, ".json")
  }

  /** The names that `ReadThread` reads, before sorting. */
  function Matching(names: seq<string>, project: string, short: string): (g: seq<string>)
    ensures forall f :: f in g <==> f in names && Matches(f, project, short)
  {
    if names == [] then []
    else
      var init, f := names[..|names| - 1], names[|names| - 1];
      assert names == init + [f];
      if Matches(f, project, short) then Matching(init, project, short) + [f] else Matching(init, project, short)
  }

  ghost predicate Readable(r: Repo, fs: seq<string>)
  {
    forall f :: f in fs ==> f in r.contents
  }

  function ContentsOf(r: Repo, fs: seq<string>): (ms: seq<Message>)
    requires Readable(r, fs)
    ensures |ms| == |fs| && forall i :: 0 <= i < |fs| ==> fs[i] in r.contents && ms[i] == r.contents[fs[i]]
  {
    if fs == [] then []
    else
      assert fs == fs[..|fs| - 1] + [fs[|fs| - 1]];
      assert fs[|fs| - 1] in fs;
      ContentsOf(r, fs[..|fs| - 1]) + [r.contents[fs[|fs| - 1]]]
  }

  function PriorityRank(p: string): nat
  {
    if p == "urgent" then 2 else if p == "action_required" then 1 else 0
  }

  // ---------- the queries ----------

  /** Oldest first by file name; an unreadable file is an error. */
  method ReadThread(r: Repo, project: string, short: string) returns (res: Result<seq<Message>>)
    ensures var fs := SortedStrings(Matching(r.names, project, short));
      && (res.Ok? <==> Readable(r, fs))
      && (res.Ok? ==> res.value == ContentsOf(r, fs))
  {
    var matching := [];
    for i := 0 to |r.names|
      invariant matching == Matching(r.names[..i], project, short)
    {
      assert r.names[..i + 1][..i] == r.names[..i];
      if Matches(r.names[i], project, short) {
        matching := matching + [r.names[i]];
      }
    }
    assert r.names[..|r.names|] == r.names;
    matching := SortedStrings(matching);
    var messages := [];
    for i := 0 to |matching|
      invariant Readable(r, matching[..i]) && messages == ContentsOf(r, matching[..i])
    {
      assert matching[..i + 1] == matching[..i] + [matching[i]];
      if matching[i] !in r.contents {
        assert matching[i] in matching;
        return Err("read");
      }
      assert matching[..i + 1][..i] == matching[..i];
      messages := messages + [r.contents[matching[i]]];
    }
    assert matching[..|matching|] == matching;
    res := Ok(messages);
  }

  method HighestPriority(ms: seq<Message>) returns (best: string)
    ensures forall m :: m in ms ==> PriorityRank(m.priority) <= PriorityRank(best)
    ensures best == "info" || exists m :: m in ms && m.priority == best
    ensures best == "urgent" <==> exists m :: m in ms && m.priority == "urgent"
    ensures best == "action_required" <==>
      (exists m :: m in ms && m.priority == "action_required") && forall m :: m in ms ==> m.priority != "urgent"
    ensures best in ["urgent", "action_required", "info"]
  {
    best := "info";
    for i := 0 to |ms|
      invariant best in ["urgent", "action_required", "info"]
      invariant forall m :: m in ms[..i] ==> PriorityRank(m.priority) <= PriorityRank(best)
      invariant best == "info" || exists m :: m in ms[..i] && m.priority == best
    {
      assert ms[..i + 1] == ms[..i] + [ms[i]];
      if PriorityRank(ms[i].priority) > PriorityRank(best) {
        best := ms[i].priority;
        assert ms[i] in ms[..i + 1];
      }
    }
    assert ms[..|ms|] == ms;
  }

  /** A summary tells its directory's message count, latest message and highest priority. */
  ghost predicate Summarizes(s: Summary, r: Repo, project: string)
  {
    var g := Group(r.names, project, s.short);
    && g != [] && Readable(r, g) && s.project == project
    && s.count == |g|
    && s.last in ContentsOf(r, g) && s.lastActivity == s.last.stamp
    && (forall m :: m in ContentsOf(r, g) ==>
          m.stamp <= s.lastActivity && PriorityRank(m.priority) <= PriorityRank(s.priority))
    && (s.priority == "info" || exists m :: m in ContentsOf(r, g) && m.priority == s.priority)
  }

  ghost predicate Distinct(ss: seq<Summary>)
  {
    forall i, j :: 0 <= i < j < |ss| ==> ss[i].short != ss[j].short
  }

  /** One summary for each directory of the project that has a file. */
  ghost predicate Listing(ss: seq<Summary>, r: Repo, project: string)
  {
    && Distinct(ss)
    && (forall s :: s in ss ==> Summarizes(s, r, project))
    && (forall f :: f in r.names && Directory(project, f).Some? ==>
          exists s :: s in ss && s.short == Directory(project, f).value)
  }

  method Summarize(r: Repo, project: string, short: string) returns (res: Option<Summary>)
    requires Group(r.names, project, short) != []
    ensures res.Some? <==> Readable(r, Group(r.names, project, short))
    ensures res.Some? ==> res.value.short == short && Summarizes(res.value, r, project)
  {
    var paths := Group(r.names, project, short);
    var messages := [];
    for i := 0 to |paths|
      invariant Readable(r, paths[..i]) && messages == ContentsOf(r, paths[..i])
    {
      assert paths[..i + 1] == paths[..i] + [paths[i]];
      if paths[i] !in r.contents {
        assert paths[i] in paths;
        return None;
      }
      assert paths[..i + 1][..i] == paths[..i];
      messages := messages + [r.contents[paths[i]]];
    }
    assert paths[..|paths|] == paths;
    var sorted := SortBy(messages, (m: Message) => m.stamp);
    assert |sorted| == |multiset(sorted)| && |messages| == |multiset(messages)|;
    assert forall m :: m in sorted <==> m in multiset(sorted);
    assert forall m :: m in messages <==> m in multiset(messages);
    var last := sorted[|sorted| - 1];
    var highest := HighestPriority(sorted);
    res := Some(Summary(short, project, last.stamp, |sorted|, last, highest));
  }

  /** The thread directories of a project. */
  method Directories(names: seq<string>, project: string) returns (shorts: set<string>)
    ensures forall x :: x in shorts <==> exists f :: f in names && Directory(project, f) == Some(x)
  {
    shorts := {};
    for i := 0 to |names|
      invariant forall x :: x in shorts <==> exists f :: f in names[..i] && Directory(project, f) == Some(x)
    {
      assert names[..i + 1] == names[..i] + [names[i]];
      var d := Directory(project, names[i]);
      if d.Some? {
        shorts := shorts + {d.value};
      }
    }
    assert names[..|names|] == names;
  }

  /** One summary for each of the directories. */
  ghost predicate SummarizesAll(ss: seq<Summary>, r: Repo, project: string, shorts: set<string>)
  {
    && Distinct(ss)
    && (forall s :: s in ss ==> Summarizes(s, r, project) && s.short in shorts)
    && (forall x :: x in shorts ==> exists s :: s in ss && s.short == x)
  }

  lemma OneMoreSummary(ss: seq<Summary>, r: Repo, project: string, shorts: set<string>, s: Summary)
    requires SummarizesAll(ss, r, project, shorts) && Summarizes(s, r, project) && s.short !in shorts
    ensures SummarizesAll(ss + [s], r, project, shorts + {s.short})
  {
    var more := ss + [s];
    assert forall i :: 0 <= i < |ss| ==> ss[i] in ss;
    assert more[|ss|] == s;
    forall x | x in shorts + {s.short} ensures exists t :: t in more && t.short == x {
      if x in shorts {
        var t :| t in ss && t.short == x;
        assert t in more;
      } else {
        assert s in more;
      }
    }
  }

  /** One summary for each of the given directories, which may be visited in any order. */
  method Summaries(r: Repo, project: string, shorts: set<string>) returns (res: Option<seq<Summary>>)
    requires forall x :: x in shorts ==> Group(r.names, project, x) != []
    ensures res.Some? ==> SummarizesAll(res.value, r, project, shorts)
    ensures res.None? ==> exists x :: x in shorts && !Readable(r, Group(r.names, project, x))
  {
    var rest := shorts;
    var summaries := [];
    while rest != {}
      invariant rest <= shorts
      invariant SummarizesAll(summaries, r, project, shorts - rest)
      decreases rest
    {
      var x :| x in rest;
      var s := Summarize(r, project, x);
      if s.None? {
        return None;
      }
      OneMoreSummary(summaries, r, project, shorts - rest, s.value);
      summaries := summaries + [s.value];
      assert shorts - (rest - {x}) == shorts - rest + {x};
      rest := rest - {x};
    }
    assert shorts - rest == shorts;
    res := Some(summaries);
  }

  lemma ListedIsReadable(ss: seq<Summary>, r: Repo, project: string)
    requires Listing(ss, r, project)
    ensures forall f :: f in r.names && Directory(project, f).Some? ==> f in r.contents
  {
    forall f | f in r.names && Directory(project, f).Some? ensures f in r.contents {
      var s :| s in ss && s.short == Directory(project, f).value;
      assert f in Group(r.names, project, s.short);
    }
  }

  /** Most recently active first; an error exactly when one of the project's files is unreadable. */
  method ListThreads(r: Repo, project: string) returns (res: Result<seq<Summary>>)
    ensures res.Ok? ==> exists ss :: Listing(ss, r, project) && multiset(ss) == multiset(res.value)
    ensures res.Ok? ==>
      forall i, j :: 0 <= i < j < |res.value| ==> res.value[i].lastActivity >= res.value[j].lastActivity
    ensures res.Err? <==> exists f :: f in r.names && f !in r.contents && Directory(project, f).Some?
  {
    var shorts := Directories(r.names, project);
    forall x | x in shorts ensures Group(r.names, project, x) != [] {
      var f :| f in r.names && Directory(project, f) == Some(x);
      assert f in Group(r.names, project, x);
    }
    var summaries := Summaries(r, project, shorts);
    if summaries.None? {
      return Err("read");
    }
    forall f | f in r.names && Directory(project, f).Some?
      ensures exists s :: s in summaries.value && s.short == Directory(project, f).value
    {
      assert Directory(project, f).value in shorts;
    }
    assert Listing(summaries.value, r, project);
    ListedIsReadable(summaries.value, r, project);
    var key := (s: Summary) => -(s.lastActivity as int);
    var sorted := SortBy(summaries.value, key);
    assert forall i, j :: 0 <= i < j < |sorted| ==> key(sorted[i]) <= key(sorted[j]);
    res := Ok(sorted);
  }

  // ---------- the directory and the thread ----------

  lemma CutPrefix(f: string, a: string, b: string)
    ensures HasPrefix(f, a + b) <==> HasPrefix(f, a) && HasPrefix(f[|a|..], b)
  {
    if HasPrefix(f, a + b) {
      assert f[..|a + b|] == a + b;
      assert f[..|a|] == (a + b)[..|a|] == a;
      assert f[|a|..][..|b|] == f[|a|..|a + b|] == (a + b)[|a|..] == b;
    }
    if HasPrefix(f, a) && HasPrefix(f[|a|..], b) {
      assert f == f[..|a|] + f[|a|..];
      assert f[..|a + b|] == f[..|a|] + f[|a|..][..|b|];
    }
  }

  lemma FirstSegment(s: string, short: string)
    requires '/' !in short
    ensures HasPrefix(s, short + "/") <==> Before(s, '/') == Some(short)
  {
    if HasPrefix(s, short + "/") {
      assert s == short + ['/'] + s[|short| + 1..];
      BeforeSplit(short, s[|short| + 1..], '/');
    }
    if Before(s, '/') == Some(short) {
      assert s[..|short| + 1] == s[..|short|] + [s[|short|]];
    }
  }

  lemma DirectoryIsPrefix(project: string, short: string, f: string)
    requires '/' !in short
    ensures HasPrefix(f, Threads(project) + short + "/") <==> Directory(project, f) == Some(short)
  {
    assert Threads(project) + short + "/" == Threads(project) + (short + "/");
    CutPrefix(f, Threads(project), short + "/");
    if HasPrefix(f, Threads(project)) {
      FirstSegment(f[|Threads(project)|..], short);
    }
  }

  /** A listed count is the length of `ReadThread` exactly when the directory holds only .json files. */
  lemma {:induction false} CountIsThreadLength(names: seq<string>, project: string, short: string)
    requires '/' !in short
    ensures |Matching(names, project, short)| <= |Group(names, project, short)|
    ensures |Matching(names, project, short)| == |Group(names, project, short)|
            <==> forall f :: f in Group(names, project, short) ==> HasSuffix(f, ".json")
    decreases |names|
  {
    if names != [] {
      CountIsThreadLength(names[..|names| - 1], project, short);
      DirectoryIsPrefix(project, short, names[|names| - 1]);
    }
  }

  /** The first segment of a string that is put together from one. */
  lemma LeadingSegment(first: string, rest: string, segment: string)
    requires '/' !in first && '/' !in segment
    ensures HasPrefix(first + "/" + rest, segment + "/") <==> first == segment
    ensures Before(first + "/" + rest, '/') == Some(first)
  {
    var s := first + "/" + rest;
    assert s == first + ['/'] + rest;
    BeforeSplit(first, rest, '/');
    FirstSegment(s, segment);
  }

  lemma ThreadsPrefix(project: string, other: string, tail: string)
    requires PlainProject(project) && PlainProject(other)
    ensures HasPrefix(Threads(other) + tail, Threads(project)) <==> other == project
  {
    var f := Threads(other) + tail;
    assert f == other + "/" + ("threads/" + tail);
    LeadingSegment(other, "threads/" + tail, project);
    assert Threads(project) == (project + "/") + "threads/";
    CutPrefix(f, project + "/", "threads/");
    if other == project {
      assert f[..|Threads(project)|] == Threads(project);
    }
  }

  function Tail(m: Message): string
  {
    ThreadShort(m) + "/" + FileName(m)
  }

  lemma PathShape(m: Message)
    ensures FilePath(m) == Threads(m.project) + Tail(m)
    ensures FilePath(m)[|Threads(m.project)|..] == Tail(m)
    ensures HasSuffix(FilePath(m), ".json")
  {
    var f := FilePath(m);
    assert f == (Threads(m.project) + ThreadShort(m) + "/" + Decimal(Seconds(m)) + "-" + ShortID(m.id, "msg-"))
                + ".json";
    assert f == Threads(m.project) + Tail(m);
  }

  /** The project of a path is its first segment. */
  lemma PathInProject(m: Message, project: string)
    requires PlainProject(project) && PlainProject(m.project)
    ensures HasPrefix(FilePath(m), Threads(project)) <==> m.project == project
    ensures HasSuffix(FilePath(m), ".json")
    ensures Directory(m.project, FilePath(m)).Some?
  {
    PathShape(m);
    ThreadsPrefix(project, m.project, Tail(m));
    assert Tail(m)[|ThreadShort(m)|] == '/';
  }

  /** The files of a project's messages. */
  function FilesOf(names: seq<string>, project: string): seq<string>
  {
    if names == [] then []
    else if Directory(project, names[|names| - 1]).Some?
    then FilesOf(names[..|names| - 1], project) + [names[|names| - 1]]
    else FilesOf(names[..|names| - 1], project)
  }

  function Total(ss: seq<Summary>): nat
  {
    if ss == [] then 0 else Total(ss[..|ss| - 1]) + ss[|ss| - 1].count
  }

  function GroupTotal(ss: seq<Summary>, names: seq<string>, project: string): nat
  {
    if ss == [] then 0
    else GroupTotal(ss[..|ss| - 1], names, project) + |Group(names, project, ss[|ss| - 1].short)|
  }

  /** One more file adds one to the groups if its directory is listed, and nothing otherwise. */
  lemma {:induction false} OneMoreFile(ss: seq<Summary>, names: seq<string>, f: string, project: string)
    requires Distinct(ss)
    ensures GroupTotal(ss, names + [f], project) == GroupTotal(ss, names, project) +
      if exists s :: s in ss && Directory(project, f) == Some(s.short) then 1 else 0
    decreases |ss|
  {
    if ss != [] {
      var init, s := ss[..|ss| - 1], ss[|ss| - 1];
      assert ss == init + [s];
      OneMoreFile(init, names, f, project);
      assert (names + [f])[..|names|] == names;
      if Directory(project, f) == Some(s.short) {
        assert s in ss;
        assert forall t :: t in init ==> t.short != s.short;
      }
    }
  }

  lemma {:induction false} NothingFiled(ss: seq<Summary>, project: string)
    ensures GroupTotal(ss, [], project) == 0
    decreases |ss|
  {
    if ss != [] {
      NothingFiled(ss[..|ss| - 1], project);
    }
  }

  lemma {:induction false} GroupsCoverProject(ss: seq<Summary>, names: seq<string>, project: string)
    requires Distinct(ss)
    requires forall f :: f in names && Directory(project, f).Some? ==>
      exists s :: s in ss && s.short == Directory(project, f).value
    ensures GroupTotal(ss, names, project) == |FilesOf(names, project)|
    decreases |names|
  {
    if names == [] {
      NothingFiled(ss, project);
    } else {
      var init, f := names[..|names| - 1], names[|names| - 1];
      assert names == init + [f];
      assert forall g :: g in init ==> g in names;
      assert f in names;
      GroupsCoverProject(ss, init, project);
      OneMoreFile(ss, init, f, project);
    }
  }

  lemma {:induction false} TotalIsGroupTotal(ss: seq<Summary>, r: Repo, project: string)
    requires forall s :: s in ss ==> s.count == |Group(r.names, project, s.short)|
    ensures Total(ss) == GroupTotal(ss, r.names, project)
    decreases |ss|
  {
    if ss != [] {
      assert ss == ss[..|ss| - 1] + [ss[|ss| - 1]];
      TotalIsGroupTotal(ss[..|ss| - 1], r, project);
    }
  }

  lemma {:induction false} TotalWithout(ss: seq<Summary>, i: nat)
    requires i < |ss|
    ensures Total(ss) == Total(ss[..i] + ss[i + 1..]) + ss[i].count
    decreases |ss|
  {
    var k := |ss| - 1;
    if i < k {
      TotalWithout(ss[..k], i);
      assert (ss[..i] + ss[i + 1..])[..k - 1] == ss[..k][..i] + ss[..k][i + 1..];
    } else {
      assert ss[..i] + ss[i + 1..] == ss[..k];
    }
  }

  lemma PlaceOf(x: Summary, a: seq<Summary>, b: seq<Summary>) returns (i: nat)
    requires multiset(a) == multiset(b) && x in a
    ensures i < |b| && b[i] == x
  {
    assert x in multiset(a) && x in multiset(b);
    i :| 0 <= i < |b| && b[i] == x;
  }

  lemma {:induction false} TotalOfPermutation(a: seq<Summary>, b: seq<Summary>)
    requires multiset(a) == multiset(b)
    ensures Total(a) == Total(b)
    decreases |a|
  {
    if a == [] {
      assert |multiset(b)| == 0;
    } else {
      var k := |a| - 1;
      var i := PlaceOf(a[k], a, b);
      var rest := b[..i] + b[i + 1..];
      assert a[..k] + a[k + 1..] == a[..k];
      WithoutOne(a, k);
      WithoutOne(b, i);
      TotalOfPermutation(a[..k], rest);
      TotalWithout(b, i);
    }
  }

  /**
   * `ListThreads` partitions a project's messages: its counts add up to the project's files, each
   * count is the length of that thread's `ReadThread`, and each of the project's files is read
   * under exactly one listed thread.
   */
  lemma ListingPartitions(r: Repo, project: string, ss: seq<Summary>, res: seq<Summary>)
    requires Built(r) && PlainProject(project)
    requires Listing(ss, r, project) && multiset(ss) == multiset(res)
    ensures Total(res) == |FilesOf(r.names, project)| && NoRepeats(FilesOf(r.names, project))
    ensures forall f :: f in FilesOf(r.names, project) <==> f in r.names && r.contents[f].project == project
    ensures forall s :: s in res ==> s.count == |Matching(r.names, project, s.short)|
    ensures forall f :: f in r.names && r.contents[f].project == project ==>
      exists s :: s in res && Matches(f, project, s.short)
    ensures forall f, s, t ::
      (f in r.names && s in res && t in res && Matches(f, project, s.short) && Matches(f, project, t.short))
      ==> s.short == t.short
  {
    GroupsCoverProject(ss, r.names, project);
    TotalIsGroupTotal(ss, r, project);
    TotalOfPermutation(ss, res);
    FilesAreOwn(r, project);
    assert forall s :: s in res <==> s in multiset(res);
    assert forall s :: s in ss <==> s in multiset(ss);
    forall s | s in res ensures s.count == |Matching(r.names, project, s.short)| && '/' !in s.short {
      ListedThread(r, project, s);
    }
    forall f | f in r.names && r.contents[f].project == project
      ensures exists s :: s in res && Matches(f, project, s.short)
    {
      PathInProject(r.contents[f], project);
      var s :| s in ss && s.short == Directory(project, f).value;
      DirectoryIsPrefix(project, s.short, f);
      assert s in res;
    }
    forall f, s, t | f in r.names && s in res && t in res
      && Matches(f, project, s.short) && Matches(f, project, t.short)
      ensures s.short == t.short
    {
      DirectoryIsPrefix(project, s.short, f);
      DirectoryIsPrefix(project, t.short, f);
    }
  }

  lemma {:induction false} FilesOfMembers(names: seq<string>, project: string)
    requires NoRepeats(names)
    ensures NoRepeats(FilesOf(names, project))
    ensures forall f :: f in FilesOf(names, project) <==> f in names && Directory(project, f).Some?
    decreases |names|
  {
    if names != [] {
      var init, last := names[..|names| - 1], names[|names| - 1];
      FilesOfMembers(init, project);
      assert names == init + [last];
      assert last !in init;
      assert forall i :: 0 <= i < |FilesOf(init, project)| ==> FilesOf(init, project)[i] in init;
    }
  }

  /** The files under a project's directory are the project's own messages, each once. */
  lemma FilesAreOwn(r: Repo, project: string)
    requires Built(r) && PlainProject(project)
    ensures NoRepeats(FilesOf(r.names, project))
    ensures forall f :: f in FilesOf(r.names, project) <==> f in r.names && r.contents[f].project == project
  {
    FilesOfMembers(r.names, project);
    forall f | f in r.names ensures Directory(project, f).Some? <==> r.contents[f].project == project {
      PathInProject(r.contents[f], project);
    }
  }

  lemma ListedThread(r: Repo, project: string, s: Summary)
    requires Built(r) && PlainProject(project) && Summarizes(s, r, project)
    ensures '/' !in s.short && s.count == |Matching(r.names, project, s.short)|
  {
    var g := Group(r.names, project, s.short);
    assert g[0] in g && Directory(project, g[0]) == Some(s.short);
    forall f | f in g ensures HasSuffix(f, ".json") {
      PathInProject(r.contents[f], project);
    }
    CountIsThreadLength(r.names, project, s.short);
  }

  /** No message is read, or counted, under a project other than its own. */
  lemma OtherProjectsDoNotSeeIt(r: Repo, project: string, short: string, f: string)
    requires Built(r) && PlainProject(project) && f in r.names && r.contents[f].project != project
    ensures Directory(project, f) == None && !Matches(f, project, short)
  {
    PathInProject(r.contents[f], project);
    assert Threads(project) + short + "/" == Threads(project) + (short + "/");
    CutPrefix(f, Threads(project), short + "/");
  }

  /** The path of a message with generated ids: the first eight characters of each, the seconds between. */
  lemma GeneratedPath(m: Message, t: string, u: string)
    requires m.thread == "thread-" + t && m.id == "msg-" + u && |t| >= 8 && |u| >= 8
    ensures FilePath(m) ==
      m.project + "/threads/" + t[..8] + "/" + Decimal(m.stamp / 1_000_000_000) + "-" + u[..8] + ".json"
  {
    ShortOfGenerated("thread-", t);
    ShortOfGenerated("msg-", u);
  }

  lemma ShortOfGenerated(prefix: string, rest: string)
    requires prefix != "" && rest != ""
    ensures ShortID(prefix + rest, prefix) == if |rest| > 8 then rest[..8] else rest
  {
    assert (prefix + rest)[|prefix|..] == rest;
  }

  /** Committing keeps a repository built of message files. */
  lemma CommitKeepsBuilt(r: Repo, m: Message)
    requires Built(r) && PlainProject(m.project)
    ensures Built(Committed(r, m)) && FilePath(m) in Committed(r, m).names
    ensures forall f :: f in Committed(r, m).names <==> f in r.names || f == FilePath(m)
    ensures forall f :: f in Committed(r, m).contents <==> f in r.contents || f == FilePath(m)
    ensures Committed(r, m).contents[FilePath(m)] == m
    ensures forall f :: f in r.contents && f != FilePath(m) ==> Committed(r, m).contents[f] == r.contents[f]
  {
    var f := FilePath(m);
    if f !in r.names {
      InsertedMembers(f, r.names);
    }
  }

  lemma {:induction false} InsertedMembers(x: string, s: seq<string>)
    requires NoRepeats(s) && x !in s
    ensures NoRepeats(Inserted(x, s)) && forall y :: y in Inserted(x, s) <==> y == x || y in s
    decreases |s|
  {
    if s != [] {
      var init, last := s[..|s| - 1], s[|s| - 1];
      assert s == init + [last];
      InsertedMembers(x, init);
      assert last !in init;
      var t := Inserted(x, init);
      assert forall i :: 0 <= i < |t| ==> t[i] in t;
      assert forall i :: 0 <= i < |s| ==> s[i] in s;
    }
  }

  // ---------- order ----------

  /** A message whose thread directory is one path segment. */
  predicate PlainThread(m: Message)
  {
    PlainProject(m.project) && '/' !in ThreadShort(m)
  }

  ghost predicate InThread(r: Repo, project: string, short: string, m: Message)
  {
    exists f :: f in r.names && Matches(f, project, short) && f in r.contents && r.contents[f] == m
  }

  function FileName(m: Message): string
  {
    Decimal(Seconds(m)) + "-" + (ShortID(m.id, "msg-") + ".json")
  }

  lemma ThreadPath(m: Message, project: string, short: string)
    requires PlainThread(m) && PlainProject(project) && '/' !in short
    requires Matches(FilePath(m), project, short)
    ensures m.project == project && ThreadShort(m) == short
    ensures FilePath(m) == Threads(project) + short + "/" + FileName(m)
  {
    DirectoryIsPrefix(project, short, FilePath(m));
    PathInProject(m, project);
    PathShape(m);
    LeadingSegment(ThreadShort(m), FileName(m), short);
    assert FilePath(m) == Threads(project) + Tail(m);
    Joined(Threads(project), short, FileName(m));
  }

  lemma Joined(a: string, b: string, c: string)
    ensures a + b + "/" + c == a + (b + "/" + c)
  {
  }

  /** Name order against time order for two messages of a thread. */
  lemma NamesAgainstSeconds(a: Message, b: Message, project: string, short: string)
    requires PlainThread(a) && PlainThread(b) && PlainProject(project) && '/' !in short
    requires Matches(FilePath(a), project, short) && Matches(FilePath(b), project, short)
    requires Seconds(a) < Seconds(b)
    ensures LexLess(FilePath(a), FilePath(b)) <==> TextAgrees(Seconds(a), Seconds(b))
    ensures LexLess(FilePath(b), FilePath(a)) <==> !TextAgrees(Seconds(a), Seconds(b))
  {
    ThreadPath(a, project, short);
    ThreadPath(b, project, short);
    var x, y := ShortID(a.id, "msg-") + ".json", ShortID(b.id, "msg-") + ".json";
    var dir := Threads(project) + short + "/";
    DashedOrder(Seconds(a), Seconds(b), x, y);
    LexPrefix(dir, Decimal(Seconds(a)) + "-" + x, Decimal(Seconds(b)) + "-" + y);
    LexPrefix(dir, Decimal(Seconds(b)) + "-" + y, Decimal(Seconds(a)) + "-" + x);
  }

  ghost predicate InTimeOrder(ms: seq<Message>)
  {
    forall i, j :: 0 <= i < j < |ms| ==> Seconds(ms[i]) <= Seconds(ms[j])
  }

  /** The text order of every two of the thread's seconds agrees with their numeric order. */
  ghost predicate SecondsAgree(r: Repo, project: string, short: string)
  {
    forall a, b :: InThread(r, project, short, a) && InThread(r, project, short, b) ==>
      TextAgrees(Seconds(a), Seconds(b))
  }

  lemma AgreementOrders(r: Repo, project: string, short: string, i: nat, j: nat)
    requires Built(r) && PlainProject(project) && '/' !in short
    requires forall f :: f in r.names ==> PlainThread(r.contents[f])
    requires SecondsAgree(r, project, short)
    requires var fs := SortedStrings(Matching(r.names, project, short)); Readable(r, fs) && i < j < |fs|
    ensures var ms := ContentsOf(r, SortedStrings(Matching(r.names, project, short)));
      Seconds(ms[i]) <= Seconds(ms[j])
  {
    var matching := Matching(r.names, project, short);
    var fs := SortedStrings(matching);
    SortedStringsMembers(matching);
    SortedStringsSorts(matching);
    assert fs[i] in matching && fs[j] in matching;
    var a, b := r.contents[fs[i]], r.contents[fs[j]];
    if Seconds(b) < Seconds(a) {
      assert InThread(r, project, short, a) && InThread(r, project, short, b);
      assert TextAgrees(Seconds(b), Seconds(a));
      NamesAgainstSeconds(b, a, project, short);
    }
  }

  /**
   * `ReadThread` returns a thread's messages in non-decreasing seconds exactly when the text order
   * of every two of its seconds agrees with their numeric order.
   */
  lemma ReadThreadOrder(r: Repo, project: string, short: string)
    requires Built(r) && PlainProject(project) && '/' !in short
    requires forall f :: f in r.names ==> PlainThread(r.contents[f])
    ensures var fs := SortedStrings(Matching(r.names, project, short));
      Readable(r, fs) && (InTimeOrder(ContentsOf(r, fs)) <==> SecondsAgree(r, project, short))
  {
    SortedStringsMembers(Matching(r.names, project, short));
    var fs := SortedStrings(Matching(r.names, project, short));
    var ms := ContentsOf(r, fs);
    if SecondsAgree(r, project, short) {
      forall i, j | 0 <= i < j < |ms| ensures Seconds(ms[i]) <= Seconds(ms[j]) {
        AgreementOrders(r, project, short, i, j);
      }
    }
    if InTimeOrder(ms) {
      forall a, b | InThread(r, project, short, a) && InThread(r, project, short, b)
        ensures TextAgrees(Seconds(a), Seconds(b))
      {
        if Seconds(a) <= Seconds(b) {
          OrderedPairAgrees(r, project, short, a, b);
        } else {
          OrderedPairAgrees(r, project, short, b, a);
        }
      }
    }
  }

  lemma OrderedPairAgrees(r: Repo, project: string, short: string, a: Message, b: Message)
    requires Built(r) && PlainProject(project) && '/' !in short
    requires forall f :: f in r.names ==> PlainThread(r.contents[f])
    requires var fs := SortedStrings(Matching(r.names, project, short));
      Readable(r, fs) && InTimeOrder(ContentsOf(r, fs))
    requires InThread(r, project, short, a) && InThread(r, project, short, b) && Seconds(a) <= Seconds(b)
    ensures TextAgrees(Seconds(a), Seconds(b)) && TextAgrees(Seconds(b), Seconds(a))
  {
    if Seconds(a) == Seconds(b) {
      SameLengthAgrees(Seconds(a), Seconds(b));
    } else {
      var i := PlaceOfMessage(r, project, short, a);
      var j := PlaceOfMessage(r, project, short, b);
      SortedStringsSorts(Matching(r.names, project, short));
      var fs := SortedStrings(Matching(r.names, project, short));
      NotBehind(fs, ContentsOf(r, fs), i, j);
      NamesAgainstSeconds(a, b, project, short);
    }
    AgreesBothWays(Seconds(a), Seconds(b));
  }

  lemma NotBehind(fs: seq<string>, ms: seq<Message>, i: nat, j: nat)
    requires LexSorted(fs) && InTimeOrder(ms) && i < |ms| && j < |ms| && |ms| == |fs|
    requires Seconds(ms[i]) < Seconds(ms[j])
    ensures !LexLess(fs[j], fs[i])
  {
    assert i < j;
  }

  /** Where a message of the thread stands in the order it is read in. */
  lemma PlaceOfMessage(r: Repo, project: string, short: string, m: Message) returns (i: nat)
    requires Built(r) && Readable(r, SortedStrings(Matching(r.names, project, short)))
    requires InThread(r, project, short, m)
    ensures var fs := SortedStrings(Matching(r.names, project, short));
      i < |fs| && fs[i] == FilePath(m) && ContentsOf(r, fs)[i] == m && Matches(FilePath(m), project, short)
  {
    var fs := SortedStrings(Matching(r.names, project, short));
    SortedStringsMembers(Matching(r.names, project, short));
    var f :| f in r.names && Matches(f, project, short) && f in r.contents && r.contents[f] == m;
    assert f in fs;
    i :| 0 <= i < |fs| && fs[i] == f;
  }

  lemma OwnThreadMatches(m: Message)
    requires PlainThread(m)
    ensures Matches(FilePath(m), m.project, ThreadShort(m))
  {
    PathShape(m);
    Joined(Threads(m.project), ThreadShort(m), FileName(m));
  }

  /** Any two messages of a thread whose seconds do not agree are read in the wrong order. */
  lemma DisagreeingPairMisordered(a: Message, b: Message)
    requires PlainThread(a) && PlainThread(b)
    requires a.project == b.project && ThreadShort(a) == ThreadShort(b)
    requires Seconds(a) < Seconds(b) && !TextAgrees(Seconds(a), Seconds(b))
    ensures var r := Committed(Committed(Repo([], map[]), a), b);
      var fs := SortedStrings(Matching(r.names, a.project, ThreadShort(a)));
      Built(r) && Readable(r, fs) && !InTimeOrder(ContentsOf(r, fs))
  {
    var r0 := Repo([], map[]);
    var r1 := Committed(r0, a);
    var r := Committed(r1, b);
    CommitKeepsBuilt(r0, a);
    CommitKeepsBuilt(r1, b);
    OwnThreadMatches(a);
    OwnThreadMatches(b);
    NamesAgainstSeconds(a, b, a.project, ThreadShort(a));
    LexIrreflexive(FilePath(a));
    assert r.contents[FilePath(a)] == a && r.contents[FilePath(b)] == b;
    assert InThread(r, a.project, ThreadShort(a), a) && InThread(r, a.project, ThreadShort(a), b);
    ReadThreadOrder(r, a.project, ThreadShort(a));
  }

  lemma DigitsOfABillion()
    ensures !TextAgrees(999_999_999, 1_000_000_000)
  {
    assert |Decimal(99)| == 2 && |Decimal(10)| == 2;
    assert |Decimal(999)| == 3 && |Decimal(100)| == 3;
    assert |Decimal(9_999)| == 4 && |Decimal(1_000)| == 4;
    assert |Decimal(99_999)| == 5 && |Decimal(10_000)| == 5;
    assert |Decimal(999_999)| == 6 && |Decimal(100_000)| == 6;
    assert |Decimal(9_999_999)| == 7 && |Decimal(1_000_000)| == 7;
    assert |Decimal(99_999_999)| == 8 && |Decimal(10_000_000)| == 8;
    assert |Decimal(999_999_999)| == 9 && |Decimal(100_000_000)| == 9;
    assert |Decimal(1_000_000_000)| == 10;
    assert Lead(1_000_000_000, 9) == Lead(100_000_000, 9) == 100_000_000;
  }

  /** The case is real: in a thread that spans the second 1000000000 the later message is read first. */
  lemma BillionthSecondReadFirst(a: Message, b: Message)
    requires PlainThread(a) && PlainThread(b)
    requires a.project == b.project && ThreadShort(a) == ThreadShort(b)
    requires Seconds(a) == 999_999_999 && Seconds(b) == 1_000_000_000
    ensures var r := Committed(Committed(Repo([], map[]), a), b);
      var fs := SortedStrings(Matching(r.names, a.project, ThreadShort(a)));
      Built(r) && Readable(r, fs) && !InTimeOrder(ContentsOf(r, fs))
  {
    DigitsOfABillion();
    DisagreeingPairMisordered(a, b);
  }

  /** In particular when all of a thread's seconds have the same number of digits. */
  lemma SameDigitsReadInOrder(r: Repo, project: string, short: string, digits: nat)
    requires Built(r) && PlainProject(project) && '/' !in short
    requires forall f :: f in r.names ==> PlainThread(r.contents[f])
    requires forall m :: InThread(r, project, short, m) ==> |Decimal(Seconds(m))| == digits
    ensures var fs := SortedStrings(Matching(r.names, project, short));
      Readable(r, fs) && InTimeOrder(ContentsOf(r, fs))
  {
    ReadThreadOrder(r, project, short);
    forall a, b | InThread(r, project, short, a) && InThread(r, project, short, b)
      ensures TextAgrees(Seconds(a), Seconds(b))
    {
      SameLengthAgrees(Seconds(a), Seconds(b));
    }
  }
}
