/** A small cluster, and how a walk through it goes: the setting for concrete runs. It has
    one event in namespace a under either of two API groups. */
module Scene {
  import opened Prelude
  import opened Api
  import opened Caching
  import opened Keys
  import opened ClientSpec
  import opened TableSpec
  import opened FsSpec
  import opened Runs
  import opened Reconciliation
  import opened Naming
  import opened Authority
  import opened Staleness
  import opened Order
  import opened Paths

  // ---- The scene ----

  const TTL: int := 60_000_000_000

  const BOTH := ["list", "get"]
  const CORE := ApiList("v1", [ApiResource("events", "Event", BOTH)])
  const GROUP := ApiList("g/v1", [ApiResource("events", "Event", BOTH)])
  const REST := ApiList("v1", [])

  const OLD := GroupVersion("", "v1")
  const NEW := GroupVersion("g", "v1")

  /** One event in namespace a under either group, and a second namespace. */
  function Cluster(): Server {
    Server({"a", "b"}, [CORE, GROUP, REST],
           map[Ref(Gvr("", "v1", "events"), "a", "o") := Object("o", Some(1), 0, Absent, 7),
               Ref(Gvr("g", "v1", "events"), "a", "o") := Object("o", Some(2), 0, Absent, 8)],
           map[], 2)
  }

  function Setup(): FsConfig {
    FsConfig(Config(TTL, Library((o: Object) => [o.rest % 256], (o: Object) => [], (o: Object, kind: string) => [],
                                 (b: Bytes) => None, (e: Error) => [])),
             Verbs(true, true, true))
  }

  /** Some order for every set. */
  ghost function InOrder(s: set<string>): (q: seq<string>)
    ensures Enumerates(q, s)
    decreases |s|
  {
    if s == {} then []
    else
      var x :| x in s;
      [x] + InOrder(s - {x})
  }

  /** A moment at which only these groups answer discovery, or all of them. */
  ghost function At(now: int, answering: seq<ApiList>): Env {
    Env(now, (c: Call) => c == DiscoverCall && answering != Cluster().lists,
        (lists: seq<ApiList>) => if lists == Cluster().lists then answering else [],
        (s: set<string>) => InOrder(s))
  }

  lemma Events(gv: GroupVersion, l: ApiList)
    requires l.resources == [ApiResource("events", "Event", BOTH)] && ParseGroupVersion(l.groupVersion) == Some(gv)
    ensures FirstHit([l], "events") == Some(ResourceInfo(gv.group, gv.version, "events", "Event"))
  {
    assert Browsable(l.resources[0]) by {
      assert "list" in BOTH && "get" in BOTH by { assert BOTH[0] == "list" && BOTH[1] == "get"; }
    }
    assert l.resources[..0] == [] && FirstIn(gv, [], "events").None?;
    assert [l][..0] == [] && FirstHit([], "events").None?;
  }

  lemma Parsed()
    ensures ParseGroupVersion("v1") == Some(OLD) && ParseGroupVersion("g/v1") == Some(NEW)
  {
    assert SlashCount("v1") == 0 by { assert "v1"[1..] == "1" && "1"[1..] == "" && SlashCount("1") == 0; }
    assert SlashCount("g/v1") == 1 by {
      assert "g/v1"[1..] == "/v1" && "/v1"[1..] == "v1" && SlashCount("/v1") == 1;
    }
    assert BeforeSlash("g/v1") == "g" by { assert "g/v1"[1..] == "/v1" && BeforeSlash("/v1") == ""; }
    assert "g/v1"[2..] == "v1";
  }

  /** What discovery makes of the groups that answer. */
  lemma NothingElse(groups: seq<ApiList>)
    requires forall l :: l in groups ==> l in Cluster().lists
    ensures forall n :: n in Discovered(groups) ==> n == "events"
  {
  }

  lemma RestEmpty()
    ensures Discovered([REST]) == map[]
  {
    assert AllNames([REST]) == {};
  }

  lemma EventsAmong(groups: seq<ApiList>, g: GroupVersion)
    requires Groups(groups, g)
    ensures "events" in Discovered(groups) && VersionOf(Discovered(groups)["events"]) == g
  {
    Parsed();
    DiscoveredExact(groups, "events");
    if g == NEW {
      Events(NEW, GROUP);
    } else {
      Events(OLD, CORE);
      assert groups[..2] == [CORE, GROUP] && [CORE, GROUP][..1] == [CORE];
      assert FirstHit([CORE, GROUP], "events") == FirstHit([CORE], "events");
    }
  }

  /** The groups that answer give events this group and version. */
  ghost predicate Groups(groups: seq<ApiList>, g: GroupVersion) {
    (groups == Cluster().lists && g == OLD) || (groups == [GROUP] && g == NEW)
  }

  // ---- One lookup ----

  ghost predicate Live(s: FsState, n: Inode) {
    n.id in s.table.inodes && s.table.inodes[n.id] == n
  }

  ghost predicate SoundTable(t: Table) { Good(t) && TypedTree(t) }

  /** A successful lookup is a listing, a reconciliation, and a look at the index. */
  lemma LookupIs(cfg: FsConfig, s: FsState, env: Env, p: nat, name: string, protos: seq<Inode>)
    requires TreeOk(s) && p in s.table.inodes && s.table.inodes[p].IsDir()
    requires ListDir(s.client, cfg.client, env, s.table.inodes[p]).1 == Ok(protos)
    ensures
      var s' := Lookup(s, cfg, env, p, name).0;
      s' == s.(client := ListDir(s.client, cfg.client, env, s.table.inodes[p]).0,
               table := Reconcile(s.table, p, protos))
    ensures SoundTable(Reconcile(s.table, p, protos)) && Reconciled(s.table, Reconcile(s.table, p, protos), p,
        NamesOf(protos))
    ensures Lookup(s, cfg, env, p, name).1 ==
      match LookupChild(Reconcile(s.table, p, protos), p, name) case None => Err(ENOENT) case Some(c) => Ok(c)
  {
    assert NodeLinked(s.table, p);
    RefreshTyped(s.client, s.table, cfg.client, env, s.table.inodes[p]);
    EnsureReconciles(s, cfg, env, s.table.inodes[p]);
  }

  /** A listed name has a live child that may hang there. */
  lemma Child(t: Table, t': Table, p: nat, names: set<string>, name: string) returns (c: Inode)
    requires SoundTable(t) && SoundTable(t') && Reconciled(t, t', p, names) && name in names
    ensures LookupChild(t', p, name) == Some(c)
    ensures c.name == name && c.parent == p < c.id && c.id in t'.inodes && t'.inodes[c.id] == c
        && EdgeOk(t.inodes[p], c)
    ensures name !in ChildNames(t, p) ==> c.id !in t.inodes
  {
    var x := t'.index[p][name];
    assert EntryLinked(t', p, name);
    assert NodeLinked(t', x) && NodeTyped(t', x);
    c := t'.inodes[x];
    NotUnder(t, p, ChildNames(t, p) - names, p);
    LiveBelow(t, x);
  }

  lemma LiveBelow(t: Table, x: nat)
    requires Good(t)
    ensures x in t.inodes ==> x < t.next && t.inodes[x].parent in t.inodes
  {
    assert x in t.inodes ==> NodeLinked(t, x);
  }

  /** A directory that a listing brings in is empty. */
  lemma EmptyAtFirst(t: Table, t': Table, p: nat, names: set<string>, x: nat)
    requires Good(t) && Good(t') && Reconciled(t, t', p, names) && p < x && x in t'.inodes && x !in t.inodes
    ensures ChildNames(t', x) == {}
  {
    if n :| n in ChildNames(t', x) {
      assert EntryLinked(t', x, n);
      LiveBelow(t, t'.index[x][n]);
      assert false;
    }
  }

  /** Reconciling a directory leaves its ancestors, and the nodes of other namespaces. */
  lemma Stays(t: Table, t': Table, p: nat, names: set<string>, x: Inode)
    requires SoundTable(t) && Reconciled(t, t', p, names) && p != ROOT
    requires x.id in t.inodes && t.inodes[x.id] == x && (x.id <= p || x.ns != t.inodes[p].ns)
    ensures x.id in t'.inodes && t'.inodes[x.id] == x
    ensures x.id != p && x.id in t.index ==> x.id in t'.index && t'.index[x.id] == t.index[x.id]
  {
    forall n | n in t.index[p] ensures !Above(t, t.index[p][n], x.id) {
      var c := t.index[p][n];
      assert EntryLinked(t, p, n) && NodeTyped(t, c) && NodeTyped(t, p);
      if Above(t, c, x.id) {
        AboveLess(t, c, x.id);
        SameNamespace(t, c, x.id);
      }
    }
  }

  lemma {:induction false} SameNamespace(t: Table, a: nat, x: nat)
    requires SoundTable(t) && a in t.inodes && x in t.inodes && ROOT < a && Above(t, a, x)
    ensures t.inodes[x].ns == t.inodes[a].ns
    decreases x
  {
    if x != a {
      var p := t.inodes[x].parent;
      AboveLess(t, a, p);
      assert NodeLinked(t, x) && NodeTyped(t, x) && NodeTyped(t, p);
      SameNamespace(t, a, p);
    }
  }

  /** Asking for one view leaves the entries of the others. */
  lemma OtherEntry(c: ClientSpec.State, cfg: Config, env: Env, q: Query, v: View)
    requires WellNamed(q.view) && WellNamed(v) && v != q.view
    ensures
      var cache := Ask(c, cfg, env, q).0.cache;
      (Key(v) in cache <==> Key(v) in c.cache) && (Key(v) in c.cache ==> cache[Key(v)] == c.cache[Key(v)])
  {
    KeyInjective(v, q.view);
  }

  // ---- The run ----

  /** Nobody writes, removes or creates anything, and nobody else changes the server. */
  predicate Reads(op: Op) { op.DoLookup? || op.DoGetAttr? }

  ghost predicate ReadsOnly(run: seq<Event>) {
    forall i :: 0 <= i < |run| ==> Reads(run[i].op)
  }

  /** run leads from the start to s, and ends at clock. */
  ghost predicate Reached(run: seq<Event>, s: FsState, clock: int) {
    && Run(Setup(), Start(Cluster(), 0), run) == s && Inv(s) && s.client.server == Cluster()
    && Timely(AnyVersion(), Setup(), Start(Cluster(), 0), run, 0) && ClockAfter(run, 0) == clock
    && ReadsOnly(run)
  }

  lemma {:induction false} TimelySnoc(s: FsState, run: seq<Event>, clock: int, e: Event)
    requires Timely(AnyVersion(), Setup(), s, run, clock) && ClockAfter(run, clock) <= e.env.now
    requires EventNamed(AnyVersion(), Run(Setup(), s, run), e)
    ensures Timely(AnyVersion(), Setup(), s, run + [e], clock)
    decreases |run|
  {
    if run == [] {
      assert run + [e] == [e] && [e][1..] == [];
    } else {
      assert (run + [e])[0] == run[0] && (run + [e])[1..] == run[1..] + [e];
      TimelySnoc(Step(Setup(), s, run[0].env, run[0].op), run[1..], run[0].env.now, e);
    }
  }

  /** A moment at which these groups answer. */
  ghost predicate Answering(groups: seq<ApiList>) {
    groups == Cluster().lists || groups == [GROUP] || groups == [REST]
  }

  lemma AnswersAt(now: int, groups: seq<ApiList>)
    requires Answering(groups)
    ensures EnvNamed(AnyVersion(), Cluster(), At(now, groups))
    ensures Discover(Cluster(), At(now, groups)) == groups && groups != []
    ensures At(now, groups).now == now && forall call :: call != DiscoverCall ==> !At(now, groups).fails(call)
  {
    var env := At(now, groups);
    NothingElse(groups);
    assert forall lists: seq<ApiList>, l: ApiList :: l in env.answering(lists) ==> l in lists;
    assert ColonFree("events");
  }

  /** The next event of a run, at a moment with these groups answering. */
  lemma Next(run: seq<Event>, s: FsState, clock: int, now: int, groups: seq<ApiList>, op: Op)
    requires Reached(run, s, clock) && clock <= now && Reads(op) && Answering(groups)
    ensures Reached(run + [Event(At(now, groups), op)], Step(Setup(), s, At(now, groups), op), now)
  {
    var env := At(now, groups);
    AnswersAt(now, groups);
    RunSnoc(Setup(), Start(Cluster(), 0), run, Event(env, op));
    TimelySnoc(Start(Cluster(), 0), run, 0, Event(env, op));
    StepKeepsInv(Setup(), s, env, op);
    ReadsKeepServer(Setup(), s, env, op);
  }

  // ---- What the run knows on its way ----

  const LISTING := View.Listing("a", "events")
  const YAML := Yaml("a", "events", "o")

  ghost predicate Free(s: FsState, v: View) { Key(v) !in s.client.cache }

  ghost predicate Expires(s: FsState, v: View, at: int) {
    Key(v) in s.client.cache && s.client.cache[Key(v)].expiresAt == at
  }

  ghost predicate Holds(s: FsState, v: View, value: CacheValue, at: int) {
    Expires(s, v, at) && s.client.cache[Key(v)].value == value
  }

  ghost predicate SameEntry(s: FsState, s': FsState, v: View) {
    && (Key(v) in s'.client.cache <==> Key(v) in s.client.cache)
    && (Key(v) in s.client.cache ==> s'.client.cache[Key(v)] == s.client.cache[Key(v)])
  }

  ghost predicate IsNamespace(n: Inode, name: string) {
    n.kind == NodeNamespace && n.ns == name && n.res == "" && n.id > ROOT
  }

  /** n is, or lies below, the events of namespace a under this group and version. */
  ghost predicate IsOf(n: Inode, kind: NodeType, g: GroupVersion) {
    n.kind == kind && n.ns == "a" && n.res == "events" && n.group == g.group && n.version == g.version && n.id > ROOT
  }

  /** What a lookup in p leaves as it was: what is cached of files, the nodes that are not below
      p, and the entries of other views. */
  lemma Frame(s: FsState, env: Env, p: nat, name: string, protos: seq<Inode>, x: Inode, v: View)
    requires TreeOk(s) && p in s.table.inodes && s.table.inodes[p].IsDir() && p != ROOT
    requires ListDir(s.client, Setup().client, env, s.table.inodes[p]).1 == Ok(protos)
    ensures
      var s' := Lookup(s, Setup(), env, p, name).0;
      && s'.content == s.content
      && (Live(s, x) && (x.id <= p || x.ns != s.table.inodes[p].ns) ==> Live(s', x))
      && (WellNamed(v) && (DirQuery(s.table.inodes[p]).Some? ==>
              WellNamed(DirQuery(s.table.inodes[p]).value.view) && DirQuery(s.table.inodes[p]).value.view != v) ==>
            SameEntry(s, s', v))
  {
    LookupIs(Setup(), s, env, p, name, protos);
    if Live(s, x) && (x.id <= p || x.ns != s.table.inodes[p].ns) {
      Stays(s.table, Reconcile(s.table, p, protos), p, NamesOf(protos), x);
    }
    var q := DirQuery(s.table.inodes[p]);
    if WellNamed(v) && (q.Some? ==> WellNamed(q.value.view) && q.value.view != v) {
      EntryStays(s, env, s.table.inodes[p], v);
    }
  }

  lemma EntryStays(s: FsState, env: Env, dir: Inode, v: View)
    requires WellNamed(v)
    requires DirQuery(dir).Some? ==> WellNamed(DirQuery(dir).value.view) && DirQuery(dir).value.view != v
    ensures SameEntry(s, s.(client := ListDir(s.client, Setup().client, env, dir).0), v)
  {
    if DirQuery(dir).Some? {
      OtherEntry(s.client, Setup().client, env, DirQuery(dir).value, v);
    }
  }

  /** What types a namespace lists while the cache knows nothing current about them. */
  lemma TypeListing(s: FsState, env: Env, a: Inode, groups: seq<ApiList>)
    requires a.kind == NodeNamespace && Hit(s.client.cache, Key(Resources), env.now).None?
    requires Discover(s.client.server, env) == groups && groups != []
    ensures
      var (c, r) := ListDir(s.client, Setup().client, env, a);
      && r == Ok(ResourceTypeProtos(a, env, Discovered(groups)))
      && Key(Resources) in c.cache && c.cache[Key(Resources)] == Entry(ResourceMap(Discovered(groups)), env.now + TTL)
  {
  }

  lemma TypeProtos(a: Inode, env: Env, m: map<string, ResourceInfo>, g: GroupVersion)
    requires env.Valid() && "events" in m && VersionOf(m["events"]) == g
    ensures
      var protos := ResourceTypeProtos(a, env, m);
      && "events" in NamesOf(protos)
      && forall i :: 0 <= i < |protos| && protos[i].name == "events" ==>
           protos[i].group == g.group && protos[i].version == g.version
  {
    var protos := ResourceTypeProtos(a, env, m);
    ProtoNames(a, env, ResourceMap(m));
    forall i | 0 <= i < |protos| && protos[i].name == "events"
      ensures protos[i].group == g.group && protos[i].version == g.version
    {
      assert protos[i] == ResourceTypeProto(a, env.order(m.Keys)[i], m["events"], env.now);
    }
  }

  /** The events type, looked up in a namespace that does not have it yet, comes under the
      group that answers. */
  lemma FindType(s: FsState, env: Env, groups: seq<ApiList>, g: GroupVersion, a: Inode)
      returns (e: Inode, protos: seq<Inode>)
    requires TreeOk(s) && Live(s, a) && IsNamespace(a, "a") && ChildNames(s.table, a.id) == {}
    requires Hit(s.client.cache, Key(Resources), env.now).None? && env.Valid()
    requires Discover(s.client.server, env) == groups
    requires Groups(groups, g)
    ensures ListDir(s.client, Setup().client, env, a).1 == Ok(protos)
    ensures
      var (s', r) := Lookup(s, Setup(), env, a.id, "events");
      && r == Ok(e) && Live(s', e) && IsOf(e, NodeResourceType, g) && a.id < e.id
      && Expires(s', Resources, env.now + TTL)
  {
    EventsAmong(groups, g);
    TypeListing(s, env, a, groups);
    protos := ResourceTypeProtos(a, env, Discovered(groups));
    TypeProtos(a, env, Discovered(groups), g);
    LookupIs(Setup(), s, env, a.id, "events", protos);
    e := Child(s.table, Reconcile(s.table, a.id, protos), a.id, NamesOf(protos), "events");
    NewNodesAsListed(s.table, a.id, protos, e.id);
  }

  /** The objects that the events type lists under either group. */
  lemma ObjectListing(s: FsState, env: Env, g: GroupVersion, e: Inode) returns (protos: seq<Inode>)
    requires s.client.server == Cluster() && IsOf(e, NodeResourceType, g) && (g == OLD || g == NEW)
    requires Hit(s.client.cache, Key(LISTING), env.now).None? && env.Valid()
    requires !env.fails(ListCall(InfoFor(e).GVR(), "a"))
    ensures ListDir(s.client, Setup().client, env, e).1 == Ok(protos) && "o" in NamesOf(protos)
    ensures
      var cache := ListDir(s.client, Setup().client, env, e).0.cache;
      Key(LISTING) in cache && cache[Key(LISTING)].expiresAt == env.now + TTL
  {
    var gvr := InfoFor(e).GVR();
    OneListed(env, gvr);
    var objects := SortBy(List(Cluster(), env, gvr, "a").value, (o: ObjectInfo) => o.name);
    protos := ObjectProtos(e, objects);
    ProtoNames(e, env, ObjectList(objects));
  }

  lemma OneListed(env: Env, gvr: Gvr)
    requires gvr == Gvr("", "v1", "events") || gvr == Gvr("g", "v1", "events")
    requires env.Valid() && !env.fails(ListCall(gvr, "a"))
    ensures
      var r := List(Cluster(), env, gvr, "a");
      r.Ok? && exists o :: o in SortBy(r.value, (o: ObjectInfo) => o.name) && o.name == "o"
  {
    var items := List(Cluster(), env, gvr, "a").value;
    var names := env.order(Api.NamesIn(Cluster(), gvr, "a"));
    assert Ref(gvr, "a", "o") in Cluster().objects;
    assert "o" in Api.NamesIn(Cluster(), gvr, "a");
    var i :| 0 <= i < |names| && names[i] == "o";
    SortByCorrect(items, (o: ObjectInfo) => o.name);
    var objects := SortBy(items, (o: ObjectInfo) => o.name);
    assert items[i] in multiset(items) && items[i] in multiset(objects);
  }

  lemma FindObject(s: FsState, env: Env, g: GroupVersion, e: Inode) returns (o: Inode, protos: seq<Inode>)
    requires TreeOk(s) && s.client.server == Cluster() && Live(s, e) && IsOf(e, NodeResourceType, g)
        && (g == OLD || g == NEW)
    requires Hit(s.client.cache, Key(LISTING), env.now).None? && env.Valid()
        && !env.fails(ListCall(InfoFor(e).GVR(), "a"))
    ensures ListDir(s.client, Setup().client, env, e).1 == Ok(protos)
    ensures
      var (s', r) := Lookup(s, Setup(), env, e.id, "o");
      && r == Ok(o) && Live(s', o) && IsOf(o, NodeObject, g) && o.obj == "o" && e.id < o.id
      && Expires(s', LISTING, env.now + TTL)
  {
    protos := ObjectListing(s, env, g, e);
    LookupIs(Setup(), s, env, e.id, "o", protos);
    o := Child(s.table, Reconcile(s.table, e.id, protos), e.id, NamesOf(protos), "o");
    ObjectThere(e, o);
  }

  /** A name this short is not one of a file that is being created. */
  lemma ObjectThere(e: Inode, o: Inode)
    requires EdgeOk(e, o) && e.kind == NodeResourceType && o.name == "o"
    ensures o.kind == NodeObject && o.obj == "o"
  {
  }

  lemma FindFile(s: FsState, env: Env, g: GroupVersion, o: Inode) returns (y: Inode, protos: seq<Inode>)
    requires TreeOk(s) && Live(s, o) && IsOf(o, NodeObject, g) && o.obj == "o"
    ensures ListDir(s.client, Setup().client, env, o).1 == Ok(protos)
    ensures
      var (s', r) := Lookup(s, Setup(), env, o.id, "yaml");
      && r == Ok(y) && Live(s', y) && IsOf(y, NodeFile, g) && y.obj == "o" && y.file == "yaml" && o.id < y.id
      && s'.client == s.client
  {
    protos := ActionProtos(o);
    assert "yaml" in NamesOf(protos) by {
      NamesOfMembers(protos, "yaml");
      assert protos[0] == ActionProto(o, "yaml");
    }
    LookupIs(Setup(), s, env, o.id, "yaml", protos);
    y := Child(s.table, Reconcile(s.table, o.id, protos), o.id, NamesOf(protos), "yaml");
    assert "yaml"[0] != "data"[0];
  }

  // ---- The steps of the run ----

  lemma Views()
    ensures WellNamed(LISTING) && WellNamed(YAML)
    ensures LISTING != YAML && Resources != LISTING && Resources != YAML
  {
    assert ColonFree("a") && ColonFree("events");
  }

  /** The first lookup: both namespaces, and nothing else known. */
  lemma Begin() returns (run: seq<Event>, s: FsState, a: Inode, b: Inode)
    ensures Reached(run, s, 0)
    ensures Live(s, a) && IsNamespace(a, "a") && ChildNames(s.table, a.id) == {} && Live(s, b) && IsNamespace(b, "b")
    ensures Free(s, Resources) && Free(s, LISTING) && Free(s, YAML) && s.content == map[]
  {
    var s0, env := Start(Cluster(), 0), At(0, Cluster().lists);
    StartInv(Cluster(), 0);
    assert Reached([], s0, 0);
    AnswersAt(0, Cluster().lists);
    Next([], s0, 0, 0, Cluster().lists, DoLookup(ROOT, "a"));
    run := [] + [Event(env, DoLookup(ROOT, "a"))];
    s := Lookup(s0, Setup(), env, ROOT, "a").0;
    a, b := BothFound(s0, env);
  }

  lemma BothFound(s0: FsState, env: Env) returns (a: Inode, b: Inode)
    requires s0 == Start(Cluster(), 0) && TreeOk(s0) && env.Valid() && !env.fails(ListNamespacesCall)
    ensures
      var s := Lookup(s0, Setup(), env, ROOT, "a").0;
      && Live(s, a) && IsNamespace(a, "a") && ChildNames(s.table, a.id) == {} && Live(s, b) && IsNamespace(b, "b")
      && Free(s, Resources) && Free(s, LISTING) && Free(s, YAML) && s.content == map[]
  {
    var q := env.order({"a", "b"});
    var protos := NamespaceProtos(SortBy(q, NameKey), env.now);
    var query := Query(Namespaces, NoInfo());
    SortedNames(q, {"a", "b"});
    ProtoNames(RootInode(0), env, NameList(SortBy(q, NameKey)));
    LookupIs(Setup(), s0, env, ROOT, "a", protos);
    var t := Reconcile(s0.table, ROOT, protos);
    a := Child(s0.table, t, ROOT, NamesOf(protos), "a");
    b := Child(s0.table, t, ROOT, NamesOf(protos), "b");
    EmptyAtFirst(s0.table, t, ROOT, NamesOf(protos), a.id);
    Views();
    OtherEntry(s0.client, Setup().client, env, query, Resources);
    OtherEntry(s0.client, Setup().client, env, query, LISTING);
    OtherEntry(s0.client, Setup().client, env, query, YAML);
  }

  lemma SortedNames(q: seq<string>, names: set<string>)
    requires Enumerates(q, names)
    ensures (set n | n in SortBy(q, NameKey)) == names
  {
    SortByCorrect(q, NameKey);
    var sorted := SortBy(q, NameKey);
    forall n ensures n in sorted <==> n in names {
      assert n in sorted <==> n in multiset(sorted);
      assert n in q <==> n in multiset(q);
    }
  }

  /** The events type appears in a, under the group that answers now. */
  lemma SeeType(run: seq<Event>, s: FsState, clock: int, now: int, groups: seq<ApiList>, g: GroupVersion, a: Inode,
      x: Inode)
    returns (run': seq<Event>, s': FsState, e: Inode)
    requires Reached(run, s, clock) && clock <= now && Groups(groups, g)
    requires Live(s, a) && IsNamespace(a, "a") && ChildNames(s.table, a.id) == {}
    requires Hit(s.client.cache, Key(Resources), now).None?
    ensures Reached(run', s', now) && Live(s', a) && Live(s', e) && IsOf(e, NodeResourceType, g) && a.id < e.id
    ensures Live(s, x) && x.ns != "a" ==> Live(s', x)
    ensures Expires(s', Resources, now + TTL) && SameEntry(s, s', LISTING) && SameEntry(s, s', YAML)
        && s'.content == s.content
  {
    var env := At(now, groups);
    Next(run, s, clock, now, groups, DoLookup(a.id, "events"));
    AnswersAt(now, groups);
    run' := run + [Event(env, DoLookup(a.id, "events"))];
    s' := Lookup(s, Setup(), env, a.id, "events").0;
    var protos: seq<Inode>;
    e, protos := FindType(s, env, groups, g, a);
    Views();
    Frame(s, env, a.id, "events", protos, a, LISTING);
    Frame(s, env, a.id, "events", protos, x, YAML);
  }

  /** One lookup more. */
  lemma Look(run: seq<Event>, s: FsState, clock: int, now: int, groups: seq<ApiList>, p: nat, name: string)
    returns (run': seq<Event>, s': FsState)
    requires Reached(run, s, clock) && clock <= now && Answering(groups)
    ensures Reached(run', s', now) && s' == Lookup(s, Setup(), At(now, groups), p, name).0
  {
    Next(run, s, clock, now, groups, DoLookup(p, name));
    run', s' := run + [Event(At(now, groups), DoLookup(p, name))], Lookup(s, Setup(), At(now, groups), p, name).0;
  }

  /** The object o appears in it. */
  lemma SeeObject(run: seq<Event>, s: FsState, now: int, groups: seq<ApiList>, g: GroupVersion, e: Inode, a: Inode,
      x: Inode)
    returns (run': seq<Event>, s': FsState, o: Inode)
    requires Reached(run, s, now) && Groups(groups, g) && Live(s, e) && IsOf(e, NodeResourceType, g)
    requires Hit(s.client.cache, Key(LISTING), now).None?
    ensures Reached(run', s', now) && Live(s', o) && IsOf(o, NodeObject, g) && o.obj == "o" && e.id < o.id
    ensures (Live(s, a) && a.id <= e.id ==> Live(s', a)) && (Live(s, x) && x.ns != "a" ==> Live(s', x))
    ensures Expires(s', LISTING, now + TTL) && SameEntry(s, s', Resources) && SameEntry(s, s', YAML)
        && s'.content == s.content
  {
    AnswersAt(now, groups);
    run', s' := Look(run, s, now, now, groups, e.id, "o");
    o := ObjectSeen(s, At(now, groups), g, e, a, x);
  }

  lemma ObjectSeen(s: FsState, env: Env, g: GroupVersion, e: Inode, a: Inode, x: Inode) returns (o: Inode)
    requires TreeOk(s) && s.client.server == Cluster() && Live(s, e) && IsOf(e, NodeResourceType, g)
    requires (g == OLD || g == NEW) && Hit(s.client.cache, Key(LISTING), env.now).None?
    requires env.Valid() && !env.fails(ListCall(InfoFor(e).GVR(), "a"))
    ensures
      var s' := Lookup(s, Setup(), env, e.id, "o").0;
      && Live(s', o) && IsOf(o, NodeObject, g) && o.obj == "o" && e.id < o.id
      && (Live(s, a) && a.id <= e.id ==> Live(s', a)) && (Live(s, x) && x.ns != "a" ==> Live(s', x))
      && Expires(s', LISTING, env.now + TTL) && SameEntry(s, s', Resources) && SameEntry(s, s', YAML)
      && s'.content == s.content
  {
    var protos: seq<Inode>;
    o, protos := FindObject(s, env, g, e);
    Views();
    Frame(s, env, e.id, "o", protos, a, Resources);
    Frame(s, env, e.id, "o", protos, x, YAML);
  }

  /** And its yaml file. */
  lemma SeeFile(run: seq<Event>, s: FsState, now: int, groups: seq<ApiList>, g: GroupVersion, o: Inode, a: Inode,
      x: Inode)
    returns (run': seq<Event>, s': FsState, y: Inode)
    requires Reached(run, s, now) && Groups(groups, g) && Live(s, o) && IsOf(o, NodeObject, g) && o.obj == "o"
    ensures Reached(run', s', now) && Live(s', y) && IsOf(y, NodeFile, g) && y.obj == "o" && y.file == "yaml"
        && o.id < y.id
    ensures (Live(s, a) && a.id <= o.id ==> Live(s', a)) && (Live(s, x) && x.ns != "a" ==> Live(s', x))
    ensures s'.client == s.client && s'.content == s.content
  {
    var env := At(now, groups);
    Next(run, s, now, now, groups, DoLookup(o.id, "yaml"));
    run' := run + [Event(env, DoLookup(o.id, "yaml"))];
    s' := Lookup(s, Setup(), env, o.id, "yaml").0;
    var protos: seq<Inode>;
    y, protos := FindFile(s, env, g, o);
    Frame(s, env, o.id, "yaml", protos, a, Resources);
    Frame(s, env, o.id, "yaml", protos, x, Resources);
  }
}
