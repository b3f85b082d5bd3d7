/** A run in which discovery changes its mind. The cache keys leave out group and version,
    so a node is served what was fetched for a namesake of another group. Nothing on the
    server changes: one API group after the other fails to answer. */
module Outages {
  import opened Prelude
  import opened Api
  import opened Caching
  import opened Keys
  import opened ClientSpec
  import opened TableSpec
  import opened FsSpec
  import opened Runs
  import opened Naming
  import opened Authority
  import opened Staleness
  import opened Paths
  import opened Scene

  /** The other namespace is listed while neither group answers: the cache now knows no types,
      but the tree of a is as it was. */
  lemma ForgetTypes(run: seq<Event>, s: FsState, clock: int, now: int, b: Inode, a: Inode, y: Inode)
    returns (run': seq<Event>, s': FsState)
    requires Reached(run, s, clock) && clock <= now && Live(s, b) && IsNamespace(b, "b")
    requires Hit(s.client.cache, Key(Resources), now).None?
    ensures Reached(run', s', now)
    ensures (Live(s, a) && a.ns == "a" ==> Live(s', a)) && (Live(s, y) && y.ns == "a" ==> Live(s', y))
    ensures Holds(s', Resources, ResourceMap(map[]), now + TTL)
    ensures SameEntry(s, s', LISTING) && SameEntry(s, s', YAML) && s'.content == s.content
  {
    var env := At(now, [REST]);
    Next(run, s, clock, now, [REST], DoLookup(b.id, "x"));
    AnswersAt(now, [REST]);
    RestEmpty();
    run' := run + [Event(env, DoLookup(b.id, "x"))];
    s' := Lookup(s, Setup(), env, b.id, "x").0;
    TypeListing(s, env, b, [REST]);
    var protos := ResourceTypeProtos(b, env, map[]);
    LookupIs(Setup(), s, env, b.id, "x", protos);
    Views();
    Frame(s, env, b.id, "x", protos, a, LISTING);
    Frame(s, env, b.id, "x", protos, y, YAML);
  }

  /** The old file is read: the cache now holds its content under the key of the view. */
  lemma ReadOld(run: seq<Event>, s: FsState, clock: int, now: int, y: Inode, a: Inode)
    returns (run': seq<Event>, s': FsState)
    requires Reached(run, s, clock) && clock <= now && Live(s, y) && IsOf(y, NodeFile, OLD) && y.obj == "o"
        && y.file == "yaml"
    requires Free(s, YAML) && s.content == map[]
    ensures Reached(run', s', now) && (Live(s, a) ==> Live(s', a))
    ensures Holds(s', YAML, Blob([7]), now + TTL) && SameEntry(s, s', Resources) && SameEntry(s, s', LISTING)
    ensures forall id :: id in s'.content ==> s'.content[id].fetchedAt == now
  {
    AnswersAt(now, [REST]);
    run', s' := Stat(run, s, clock, now, y.id);
    OldKept(s, At(now, [REST]), y, a);
  }

  lemma OldKept(s: FsState, env: Env, y: Inode, a: Inode)
    requires Live(s, y) && IsOf(y, NodeFile, OLD) && y.obj == "o" && y.file == "yaml"
    requires Free(s, YAML) && s.content == map[] && s.client.server == Cluster()
    requires forall call :: call != DiscoverCall ==> !env.fails(call)
    ensures
      var s' := GetAttr(s, Setup(), env, y.id).0;
      && (Live(s, a) ==> Live(s', a))
      && Holds(s', YAML, Blob([7]), env.now + TTL) && SameEntry(s, s', Resources) && SameEntry(s, s', LISTING)
      && forall id :: id in s'.content ==> s'.content[id].fetchedAt == env.now
  {
    OldFetched(s, env, y);
  }

  lemma Stat(run: seq<Event>, s: FsState, clock: int, now: int, id: nat) returns (run': seq<Event>, s': FsState)
    requires Reached(run, s, clock) && clock <= now
    ensures Reached(run', s', now) && s' == GetAttr(s, Setup(), At(now, [REST]), id).0
  {
    Next(run, s, clock, now, [REST], DoGetAttr(id));
    run', s' := run + [Event(At(now, [REST]), DoGetAttr(id))], GetAttr(s, Setup(), At(now, [REST]), id).0;
  }

  lemma OldFetched(s: FsState, env: Env, y: Inode)
    requires Live(s, y) && IsOf(y, NodeFile, OLD) && y.obj == "o" && y.file == "yaml"
    requires Free(s, YAML) && s.content == map[] && s.client.server == Cluster()
    requires forall call :: call != DiscoverCall ==> !env.fails(call)
    ensures
      var s' := GetAttr(s, Setup(), env, y.id).0;
      && s'.table == s.table && s'.content.Keys == {y.id} && s'.content[y.id].fetchedAt == env.now
      && Holds(s', YAML, Blob([7]), env.now + TTL) && SameEntry(s, s', Resources) && SameEntry(s, s', LISTING)
  {
    var q := Query(YAML, InfoFor(y));
    OldTruth(env, q);
    Views();
    OtherEntry(s.client, Setup().client, env, q, Resources);
    OtherEntry(s.client, Setup().client, env, q, LISTING);
  }

  lemma OldTruth(env: Env, q: Query)
    requires q == Query(YAML, ResourceInfo("", "v1", "events", ""))
        && !env.fails(GetCall(Ref(Gvr("", "v1", "events"), "a", "o")))
    ensures Fetch(Cluster(), Setup().client.lib, env, q) == Ok(Blob([7]))
  {
  }

  lemma KnownTypes(s: FsState, env: Env, a: Inode, m: map<string, ResourceInfo>)
    requires a.kind == NodeNamespace && Hit(s.client.cache, Key(Resources), env.now) == Some(ResourceMap(m))
    ensures ListDir(s.client, Setup().client, env, a) == (s.client, Ok(ResourceTypeProtos(a, env, m)))
  {
  }

  /** Namespace a is listed while the cache knows no types: its tree goes. */
  lemma DropTypes(run: seq<Event>, s: FsState, now: int, at: int, a: Inode)
    returns (run': seq<Event>, s': FsState)
    requires Reached(run, s, now) && Live(s, a) && IsNamespace(a, "a")
    requires Holds(s, Resources, ResourceMap(map[]), at) && now <= at
    ensures Reached(run', s', now) && Live(s', a) && ChildNames(s'.table, a.id) == {}
    ensures s'.client == s.client && s'.content == s.content
  {
    var env := At(now, [REST]);
    AnswersAt(now, [REST]);
    Next(run, s, now, now, [REST], DoLookup(a.id, "x"));
    run' := run + [Event(env, DoLookup(a.id, "x"))];
    s' := Lookup(s, Setup(), env, a.id, "x").0;
    Emptied(s, env, a);
  }

  lemma Emptied(s: FsState, env: Env, a: Inode)
    requires Inv(s) && Live(s, a) && IsNamespace(a, "a") && env.Valid()
    requires Hit(s.client.cache, Key(Resources), env.now) == Some(ResourceMap(map[]))
    ensures
      var s' := Lookup(s, Setup(), env, a.id, "x").0;
      && Live(s', a) && ChildNames(s'.table, a.id) == {} && s'.client == s.client && s'.content == s.content
  {
    var protos := ResourceTypeProtos(a, env, map[]);
    KnownTypes(s, env, a, map[]);
    ProtoNames(a, env, ResourceMap(map[]));
    LookupIs(Setup(), s, env, a.id, "x", protos);
    Frame(s, env, a.id, "x", protos, a, Resources);
  }

  /** The old group's type is found. */
  lemma OldType() returns (run: seq<Event>, s: FsState, a: Inode, b: Inode, e: Inode)
    ensures Reached(run, s, 0) && Live(s, a) && IsNamespace(a, "a") && Live(s, b) && IsNamespace(b, "b")
    ensures Live(s, e) && IsOf(e, NodeResourceType, OLD) && a.id < e.id
    ensures Expires(s, Resources, TTL) && Free(s, LISTING) && Free(s, YAML) && s.content == map[]
  {
    run, s, a, b := Begin();
    run, s, e := SeeType(run, s, 0, 0, Cluster().lists, OLD, a, b);
  }

  /** And its file. */
  lemma OldFound() returns (run: seq<Event>, s: FsState, a: Inode, b: Inode, y: Inode)
    ensures Reached(run, s, 0) && Live(s, a) && IsNamespace(a, "a") && Live(s, b) && IsNamespace(b, "b")
    ensures Live(s, y) && IsOf(y, NodeFile, OLD) && y.obj == "o" && y.file == "yaml"
    ensures Expires(s, Resources, TTL) && Expires(s, LISTING, TTL) && Free(s, YAML) && s.content == map[]
  {
    var e, o: Inode;
    run, s, a, b, e := OldType();
    run, s, o := SeeObject(run, s, 0, Cluster().lists, OLD, e, a, b);
    run, s, y := SeeFile(run, s, 0, Cluster().lists, OLD, o, a, b);
  }

  /** Once the types are forgotten, it is read. */
  lemma OldRead() returns (run: seq<Event>, s: FsState, a: Inode)
    ensures Reached(run, s, TTL + 2) && Live(s, a) && IsNamespace(a, "a")
    ensures Holds(s, Resources, ResourceMap(map[]), 2 * TTL + 1) && Expires(s, LISTING, TTL)
    ensures Holds(s, YAML, Blob([7]), 2 * TTL + 2)
    ensures forall id :: id in s.content ==> s.content[id].fetchedAt == TTL + 2
  {
    var b, y: Inode;
    run, s, a, b, y := OldFound();
    run, s := ForgetTypes(run, s, 0, TTL + 1, b, a, y);
    run, s := ReadOld(run, s, TTL + 1, TTL + 2, y, a);
  }

  /** The tree of a goes, and its type comes back under the new group. */
  lemma NewType() returns (run: seq<Event>, s: FsState, a: Inode, e: Inode)
    ensures Reached(run, s, 2 * TTL + 2) && Live(s, e) && IsOf(e, NodeResourceType, NEW)
    ensures Expires(s, LISTING, TTL) && Holds(s, YAML, Blob([7]), 2 * TTL + 2)
    ensures forall id :: id in s.content ==> s.content[id].fetchedAt == TTL + 2
  {
    run, s, a := OldRead();
    run, s := DropTypes(run, s, TTL + 2, 2 * TTL + 1, a);
    run, s, e := SeeType(run, s, TTL + 2, 2 * TTL + 2, [GROUP], NEW, a, a);
  }

  /** Then so does the file, while the old content is in the client's cache. */
  lemma TheRun() returns (run: seq<Event>, s: FsState, y: Inode)
    ensures Reached(run, s, 2 * TTL + 2)
    ensures Live(s, y) && IsOf(y, NodeFile, NEW) && y.obj == "o" && y.file == "yaml"
    ensures Holds(s, YAML, Blob([7]), 2 * TTL + 2) && !Fresh(s, y.id, 2 * TTL + 2)
  {
    var a, e, o: Inode;
    run, s, a, e := NewType();
    run, s, o := SeeObject(run, s, 2 * TTL + 2, [GROUP], NEW, e, a, a);
    run, s, y := SeeFile(run, s, 2 * TTL + 2, [GROUP], NEW, o, a, a);
  }

  /** On a server that never changes, every snap of a run that only reads is of that server. */
  lemma {:induction false} SnapsAlike(s: FsState, past: Past, run: seq<Event>)
    requires Inv(s) && s.client.server == Cluster() && ReadsOnly(run)
    requires forall i :: 0 <= i < |past.snaps| ==> past.snaps[i].server == Cluster()
    ensures forall i :: 0 <= i < |PastOf(Setup(), s, past, run).snaps| ==>
        PastOf(Setup(), s, past, run).snaps[i].server == Cluster()
    decreases |run|
  {
    if run != [] {
      var e := run[0];
      StepKeepsInv(Setup(), s, e.env, e.op);
      ReadsKeepServer(Setup(), s, e.env, e.op);
      SnapsAlike(Step(Setup(), s, e.env, e.op), Remember(Setup(), past, s, e), run[1..]);
    }
  }

  /** data is not what any server state in the run, or now, holds for the node, and it is not
      an error's text. */
  ghost predicate Untrue(past: Past, server: Server, node: Inode, data: Bytes) {
    && !IsErrorText(Setup(), data) && Truth(server, Setup(), node) != Ok(data)
    && forall i :: 0 <= i < |past.snaps| ==> Truth(past.snaps[i].server, Setup(), node) != Ok(data)
  }

  /** The staleness bound cannot do without its condition. Here is a run, on a server that
      never changes, after which a file is served what no state of the server in the run,
      however old, holds for its node. */
  lemma OtherGroupServed() returns (run: seq<Event>, env: Env, id: nat)
    ensures
      var s := Run(Setup(), Start(Cluster(), 0), run);
      && ServerNamed(Cluster()) && ReadsOnly(run)
      && Timely(AnyVersion(), Setup(), Start(Cluster(), 0), run, 0) && ClockAfter(run, 0) <= env.now
      && id in s.table.inodes
      && Untrue(History(Setup(), Cluster(), 0, run), s.client.server, s.table.inodes[id],
                FetchContent(s, Setup(), env, s.table.inodes[id]).1)
  {
    ClusterNamed();
    var s: FsState, y: Inode;
    run, s, y := TheRun();
    env, id := At(2 * TTL + 2, [GROUP]), y.id;
    AnswersAt(2 * TTL + 2, [GROUP]);
    StartInv(Cluster(), 0);
    SnapsAlike(Start(Cluster(), 0), NoPast(0), run);
    NewTruth(y);
    OldContent(s, env, y);
  }

  /** The condition shuts such runs out: the entry that served the file was asked for under
      another group. */
  lemma OtherGroupLabelled(run: seq<Event>, env: Env, id: nat)
    requires
      var s := Run(Setup(), Start(Cluster(), 0), run);
      && Timely(AnyVersion(), Setup(), Start(Cluster(), 0), run, 0) && ClockAfter(run, 0) <= env.now
      && id in s.table.inodes
      && Untrue(History(Setup(), Cluster(), 0, run), s.client.server, s.table.inodes[id],
                FetchContent(s, Setup(), env, s.table.inodes[id]).1)
    ensures
      var s := Run(Setup(), Start(Cluster(), 0), run);
      ServedAs(History(Setup(), Cluster(), 0, run), s, env, s.table.inodes[id]) !=
          VersionOf(InfoFor(s.table.inodes[id]))
  {
    ClusterNamed();
    StalenessBound(Setup(), Cluster(), 0, run, env, id);
  }

  lemma ClusterNamed()
    ensures ServerNamed(Cluster())
  {
    assert ColonFree("a") && ColonFree("b");
  }

  lemma NewTruth(y: Inode)
    requires IsOf(y, NodeFile, NEW) && y.obj == "o" && y.file == "yaml"
    ensures Truth(Cluster(), Setup(), y) == Ok([8])
  {
  }

  lemma OldContent(s: FsState, env: Env, y: Inode)
    requires IsOf(y, NodeFile, NEW) && y.obj == "o" && y.file == "yaml" && !Fresh(s, y.id, env.now)
    requires Holds(s, YAML, Blob([7]), env.now)
    ensures FetchContent(s, Setup(), env, y).1 == [7] && !IsErrorText(Setup(), [7])
  {
  }
}
