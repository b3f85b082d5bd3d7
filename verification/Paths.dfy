/** Resolving a path against the memoised tree, compared with asking the client for the
    listings along the path and never looking at the tree. */
module Paths {
  import opened Prelude
  import opened Api
  import opened Keys
  import opened ClientSpec
  import opened TableSpec
  import opened FsSpec
  import opened Runs
  import opened Naming
  import opened Reconciliation
  import opened TreeRuns
  import opened PathSpec

  // ---- Plain listing ----

  function Answer(c: ClientSpec.State, cfg: FsConfig, env: Env, q: Query): Result<CacheValue, Error> {
    Ask(c, cfg.client, env, q).1
  }

  function Types(c: ClientSpec.State, cfg: FsConfig, env: Env): map<string, ResourceInfo> {
    var r := AsResources(Answer(c, cfg, env, Query(Resources, NoInfo())));
    if r.Ok? then r.value else map[]
  }

  function TypeInfo(c: ClientSpec.State, cfg: FsConfig, env: Env, res: string): ResourceInfo {
    var m := Types(c, cfg, env);
    if res in m then ResourceInfo(m[res].group, m[res].version, res, "") else NoInfo()
  }

  function NamesIn(v: CacheValue): set<string> {
    match v
    case NameList(names) => set n | n in names
    case ResourceMap(m) => m.Keys
    case ObjectList(objects) => set o | o in objects :: o.name
    case DataMap(m) => m.Keys
    case Blob(_) => {}
  }

  function NamesAnswered(r: Result<CacheValue, Error>): set<string> {
    match r case Ok(v) => NamesIn(v) case Err(_) => {}
  }

  function FixedNames(res: string): set<string> {
    (set a | a in ActionFiles(res)) + if HasDataDir(res) then {"data"} else {}
  }

  /** The names the client lists for the directory with this path; none if it fails. */
  function Listing(c: ClientSpec.State, cfg: FsConfig, env: Env, dir: seq<string>): set<string> {
    if |dir| == 0 then NamesAnswered(Answer(c, cfg, env, Query(Namespaces, NoInfo())))
    else if |dir| == 1 then NamesAnswered(Answer(c, cfg, env, Query(Resources, NoInfo())))
    else if |dir| == 2 then
      NamesAnswered(Answer(c, cfg, env, Query(View.Listing(dir[0], dir[1]), TypeInfo(c, cfg, env, dir[1]))))
    else if |dir| == 3 then FixedNames(dir[1])
    else if |dir| == 4 && dir[3] == "data" && HasDataDir(dir[1]) then
      NamesAnswered(Answer(c, cfg, env, Query(Data(dir[0], dir[1], dir[2]), TypeInfo(c, cfg, env, dir[1]))))
    else {}
  }

  /** Each component is in the listing of what comes before it. */
  ghost predicate Listed(c: ClientSpec.State, cfg: FsConfig, env: Env, path: seq<string>) {
    forall i :: 0 <= i < |path| ==> path[i] in Listing(c, cfg, env, path[..i])
  }

  // ---- Reads in the middle of a walk do not change the answers ----

  /** The one query that nodes of a view ask when discovery is stable. */
  function Canon(gv: Assignment, v: View): Query {
    match v
    case Namespaces => Query(v, NoInfo())
    case Resources => Query(v, NoInfo())
    case Logs(_, _) => Query(v, NoInfo())
    case Listing(_, res) => Query(v, ResourceInfo(gv(res).group, gv(res).version, res, ""))
    case Yaml(_, res, _) => Query(v, ResourceInfo(gv(res).group, gv(res).version, res, ""))
    case Json(_, res, _) => Query(v, ResourceInfo(gv(res).group, gv(res).version, res, ""))
    case Describe(_, res, _) => Query(v, ResourceInfo(gv(res).group, gv(res).version, res, ""))
    case Data(_, res, _) => Query(v, ResourceInfo(gv(res).group, gv(res).version, res, ""))
  }

  ghost predicate SameAnswers(gv: Assignment, cfg: FsConfig, env: Env, c: ClientSpec.State, c': ClientSpec.State) {
    forall v {:trigger Canon(gv, v)} :: WellNamed(v) ==>
        Answer(c', cfg, env, Canon(gv, v)) == Answer(c, cfg, env, Canon(gv, v))
  }

  lemma AskKeepsAnswers(gv: Assignment, cfg: FsConfig, env: Env, c: ClientSpec.State, v: View)
    requires WellNamed(v)
    ensures SameAnswers(gv, cfg, env, c, Ask(c, cfg.client, env, Canon(gv, v)).0)
  {
    forall w {:trigger Canon(gv, w)} | WellNamed(w)
      ensures Answer(Ask(c, cfg.client, env, Canon(gv, v)).0, cfg, env, Canon(gv, w)) ==
          Answer(c, cfg, env, Canon(gv, w))
    {
      AskStable(c, cfg.client, env, Canon(gv, v), Canon(gv, w));
    }
  }

  lemma DirQueryCanon(gv: Assignment, n: Inode)
    requires NodeNamed(Stable(gv), n)
    ensures DirQuery(n).Some? ==>
      WellNamed(DirQuery(n).value.view) && DirQuery(n).value == Canon(gv, DirQuery(n).value.view)
  {
  }

  lemma RefreshKeepsAnswers(gv: Assignment, cfg: FsConfig, env: Env, c: ClientSpec.State, t: Table, n: Inode)
    requires NodeNamed(Stable(gv), n)
    ensures SameAnswers(gv, cfg, env, c, Refresh(c, t, cfg.client, env, n).0)
        && Refresh(c, t, cfg.client, env, n).0.server == c.server
  {
    if DirQuery(n).Some? {
      DirQueryCanon(gv, n);
      AskKeepsAnswers(gv, cfg, env, c, DirQuery(n).value.view);
    }
  }

  // ---- What a node's own listing is ----

  lemma EachNamed<T>(items: seq<T>, f: T -> Inode, name: T -> string, n: string)
    requires forall x :: x in items ==> f(x).name == name(x)
    ensures n in NamesOf(Each(items, f)) <==> exists x :: x in items && name(x) == n
  {
    var protos := Each(items, f);
    NamesOfMembers(protos, n);
    if x :| x in items && name(x) == n {
      var i :| 0 <= i < |items| && items[i] == x;
      assert protos[i].name == n;
    }
    if i :| 0 <= i < |protos| && protos[i].name == n {
      assert items[i] in items;
    }
  }

  /** The names of the nodes an answer is turned into are the names it lists. */
  lemma ProtoNames(dir: Inode, env: Env, v: CacheValue)
    requires env.Valid()
    ensures NamesOf(AnswerProtos(dir, env, v)) == NamesIn(v)
  {
    forall n ensures n in NamesOf(AnswerProtos(dir, env, v)) <==> n in NamesIn(v) {
      match v
      case NameList(names) => EachNamed(names, (s: string) => NamespaceProto(s, env.now), NameKey, n);
      case ResourceMap(m) => TypeNames(dir, env, m, n);
      case ObjectList(objects) => EachNamed(objects, (o: ObjectInfo) => ObjectProto(dir, o), (o: ObjectInfo) => o.name,
          n);
      case DataMap(m) => EachNamed(env.order(m.Keys), (k: string) => KeyProto(dir, k), NameKey, n);
      case Blob(_) =>
    }
  }

  lemma TypeNames(dir: Inode, env: Env, m: map<string, ResourceInfo>, n: string)
    requires env.Valid()
    ensures n in NamesOf(ResourceTypeProtos(dir, env, m)) <==> n in m
  {
    var q, protos := env.order(m.Keys), ResourceTypeProtos(dir, env, m);
    NamesOfMembers(protos, n);
    if i :| 0 <= i < |q| && q[i] == n { assert protos[i].name == n; }
  }

  lemma ActionNames(dir: Inode)
    ensures NamesOf(ActionProtos(dir)) == FixedNames(dir.res)
  {
    var protos, files := ActionProtos(dir), ActionFiles(dir.res);
    forall n ensures n in NamesOf(protos) <==> n in FixedNames(dir.res) {
      NamesOfMembers(protos, n);
      if i :| 0 <= i < |files| && files[i] == n { assert protos[i].name == n; }
      if n == "data" && HasDataDir(dir.res) { assert protos[|files|].name == n; }
      if i :| 0 <= i < |protos| && protos[i].name == n {
        if i < |files| { assert files[i] == n; }
      }
    }
  }

  /** No create is pending under a name that the client lists as an object. */
  ghost predicate NoShadow(c: ClientSpec.State, cfg: FsConfig, env: Env, t: Table) {
    forall x :: x in t.inodes && Pending(t, x) ==>
      t.inodes[x].name !in Listing(c, cfg, env, [t.inodes[x].ns, t.inodes[x].res])
  }

  ghost predicate Pending(t: Table, x: nat)
    requires x in t.inodes
  {
    var n := t.inodes[x];
    n.kind == NodeFile && n.parent in t.inodes && t.inodes[n.parent].kind == NodeResourceType
  }

  /** Depth and name decide what kind of node a listed path leads to. */
  lemma KindAt(t: Table, x: nat)
    requires Good(t) && TypedTree(t) && x in t.inodes
    ensures
      var n, path := t.inodes[x], PathTo(t, x);
      && (|path| == 0 ==> n.kind == NodeRoot)
      && (|path| == 1 ==> n.kind == NodeNamespace && n.ns == path[0])
      && (|path| == 2 ==> n.kind == NodeResourceType && n.ns == path[0] && n.res == path[1])
      && (|path| == 3 ==> n.ns == path[0] && n.res == path[1] && n.name == path[2])
      && (|path| == 3 ==> (n.kind == NodeObject && n.obj == n.name) || Pending(t, x))
      && (|path| == 4 ==> n.ns == path[0] && n.res == path[1] && n.obj == path[2] && n.name == path[3])
      && (|path| == 4 ==> n.kind == if path[3] == "data" && HasDataDir(path[1]) then NodeDataDir else NodeFile)
      && (|path| >= 5 ==> n.kind == NodeDataFile)
    decreases x
  {
    Coordinates(t, x);
    DepthBounded(t, x);
    assert NodeLinked(t, x);
    if x != ROOT {
      assert NodeTyped(t, x);
      var p := t.inodes[x].parent;
      KindAt(t, p);
      assert t.inodes[x].kind == NodeFile && t.inodes[p].kind == NodeObject ==> t.inodes[x].name != "data" by {
        ActionNotData(t.inodes[x].res);
      }
    }
  }

  lemma ActionNotData(res: string)
    ensures "data" !in ActionFiles(res)
  {
  }

  // ---- One component ----

  function NamesListed(r: Result<seq<Inode>, Error>): set<string> {
    match r case Ok(protos) => NamesOf(protos) case Err(_) => {}
  }

  /** A node's own listing holds the names that the plain listing gives for its path. */
  ghost predicate ListsAs(cfg: FsConfig, env: Env, c: ClientSpec.State, s: FsState, x: nat)
    requires x in s.table.inodes
  {
    var n := s.table.inodes[x];
    Listing(c, cfg, env, PathTo(s.table, x)) == if n.IsDir() then NamesListed(ListDir(s.client, cfg.client, env, n).1)
        else {}
  }

  lemma NodeListing(gv: Assignment, cfg: FsConfig, env: Env, c: ClientSpec.State, s: FsState, x: nat)
    requires Inv(s) && Named(Stable(gv), s) && EnvNamed(Stable(gv), c.server, env) && x in s.table.inodes
    requires SameAnswers(gv, cfg, env, c, s.client)
    requires ServerNamed(c.server) && CacheNamed(Stable(gv), c.cache) && Typed(c.cache)
    requires NoShadow(c, cfg, env, s.table)
    requires Listed(c, cfg, env, PathTo(s.table, x))
    ensures ListsAs(cfg, env, c, s, x)
  {
    ListedType(gv, cfg, env, c, PathTo(s.table, x));
    ListedObject(cfg, env, c, s, x);
    if DirQuery(s.table.inodes[x]).Some? {
      DirQueryCanon(gv, s.table.inodes[x]);
      AnswersAgree(gv, cfg, env, c, s.client, DirQuery(s.table.inodes[x]).value.view);
      QueryListing(gv, cfg, env, c, s, x);
    } else {
      FixedListing(c, cfg, env, s, x);
    }
  }

  /** Below an object the names are fixed; below a file there are none. */
  lemma FixedListing(c: ClientSpec.State, cfg: FsConfig, env: Env, s: FsState, x: nat)
    requires Good(s.table) && TypedTree(s.table) && x in s.table.inodes && DirQuery(s.table.inodes[x]).None?
    requires |PathTo(s.table, x)| == 3 ==> s.table.inodes[x].kind == NodeObject
    ensures ListsAs(cfg, env, c, s, x)
  {
    var n := s.table.inodes[x];
    KindAt(s.table, x);
    if n.kind == NodeObject {
      ActionNames(n);
    }
  }

  lemma ListedType(gv: Assignment, cfg: FsConfig, env: Env, c: ClientSpec.State, path: seq<string>)
    requires ServerNamed(c.server) && CacheNamed(Stable(gv), c.cache) && Typed(c.cache)
        && EnvNamed(Stable(gv), c.server, env)
    requires Listed(c, cfg, env, path)
    ensures |path| >= 2 ==>
      TypeInfo(c, cfg, env, path[1]) == ResourceInfo(gv(path[1]).group, gv(path[1]).version, path[1], "")
  {
  }

  lemma ListedAt(c: ClientSpec.State, cfg: FsConfig, env: Env, path: seq<string>, i: nat)
    requires Listed(c, cfg, env, path) && i < |path|
    ensures path[i] in Listing(c, cfg, env, path[..i])
  {
  }

  /** Three names deep, a listed path leads to an object and not to a pending file. */
  lemma ListedObject(cfg: FsConfig, env: Env, c: ClientSpec.State, s: FsState, x: nat)
    requires Good(s.table) && TypedTree(s.table) && x in s.table.inodes
    requires NoShadow(c, cfg, env, s.table) && Listed(c, cfg, env, PathTo(s.table, x))
    ensures |PathTo(s.table, x)| == 3 ==> s.table.inodes[x].kind == NodeObject
  {
    KindAt(s.table, x);
    if |PathTo(s.table, x)| == 3 {
      ListedAt(c, cfg, env, PathTo(s.table, x), 2);
      Unshadowed(c, cfg, env, s.table, x, PathTo(s.table, x));
    }
  }

  lemma Unshadowed(c: ClientSpec.State, cfg: FsConfig, env: Env, t: Table, x: nat, path: seq<string>)
    requires NoShadow(c, cfg, env, t) && x in t.inodes && |path| == 3
    requires t.inodes[x].ns == path[0] && t.inodes[x].res == path[1] && t.inodes[x].name == path[2]
    requires path[2] in Listing(c, cfg, env, path[..2])
    ensures !Pending(t, x)
  {
    assert path[..2] == [t.inodes[x].ns, t.inodes[x].res];
  }

  lemma AnswersAgree(gv: Assignment, cfg: FsConfig, env: Env, c: ClientSpec.State, c': ClientSpec.State, v: View)
    requires SameAnswers(gv, cfg, env, c, c') && WellNamed(v)
    ensures Answer(c', cfg, env, Canon(gv, v)) == Answer(c, cfg, env, Canon(gv, v))
  {
  }

  lemma QueryListing(gv: Assignment, cfg: FsConfig, env: Env, c: ClientSpec.State, s: FsState, x: nat)
    requires Good(s.table) && TypedTree(s.table) && x in s.table.inodes && NodeNamed(Stable(gv), s.table.inodes[x])
    requires env.Valid() && DirQuery(s.table.inodes[x]).Some?
    requires
      var q := DirQuery(s.table.inodes[x]).value;
      Answer(s.client, cfg, env, q) == Answer(c, cfg, env, q)
    requires
      var path := PathTo(s.table, x);
      |path| >= 2 ==>
        TypeInfo(c, cfg, env, path[1]) == ResourceInfo(gv(path[1]).group, gv(path[1]).version, path[1], "")
    ensures ListsAs(cfg, env, c, s, x)
  {
    ListingAsked(gv, cfg, env, c, s, x);
    ListedNames(cfg, env, s.client, s.table.inodes[x]);
  }

  /** A directory lists the names of its answer. */
  lemma ListedNames(cfg: FsConfig, env: Env, c: ClientSpec.State, n: Inode)
    requires env.Valid() && DirQuery(n).Some?
    ensures NamesListed(ListDir(c, cfg.client, env, n).1) == NamesAnswered(Answer(c, cfg, env, DirQuery(n).value))
  {
    var a := Answer(c, cfg, env, DirQuery(n).value);
    if a.Ok? {
      ProtoNames(n, env, a.value);
    }
  }

  /** The plain listing of a node's path puts the query that the node itself asks. */
  lemma ListingAsked(gv: Assignment, cfg: FsConfig, env: Env, c: ClientSpec.State, s: FsState, x: nat)
    requires Good(s.table) && TypedTree(s.table) && x in s.table.inodes && NodeNamed(Stable(gv), s.table.inodes[x])
    requires DirQuery(s.table.inodes[x]).Some?
    requires
      var path := PathTo(s.table, x);
      |path| >= 2 ==>
        TypeInfo(c, cfg, env, path[1]) == ResourceInfo(gv(path[1]).group, gv(path[1]).version, path[1], "")
    ensures
      Listing(c, cfg, env, PathTo(s.table, x)) == NamesAnswered(Answer(c, cfg, env, DirQuery(s.table.inodes[x]).value))
  {
    var n, path := s.table.inodes[x], PathTo(s.table, x);
    KindAt(s.table, x);
    DirQueryCanon(gv, n);
    if |path| == 2 {
      assert DirQuery(n).value == Query(View.Listing(path[0], path[1]), TypeInfo(c, cfg, env, path[1]));
    } else if |path| > 2 {
      assert |path| == 4 && DirQuery(n).value == Query(Data(path[0], path[1], path[2]), TypeInfo(c, cfg, env, path[1]));
    }
  }

  /** The node that is being listed keeps its place in the tree. */
  lemma {:induction false} PathKept(t: Table, t': Table, p: nat, names: set<string>, x: nat)
    requires Good(t) && Good(t') && Reconciled(t, t', p, names) && x in t.inodes && x <= p
    ensures x in t'.inodes && t'.inodes[x] == t.inodes[x] && PathTo(t', x) == PathTo(t, x)
    decreases x
  {
    assert NodeLinked(t, x);
    NotUnder(t, p, ChildNames(t, p) - names, x);
    if x != ROOT {
      PathKept(t, t', p, names, t.inodes[x].parent);
    }
  }

  lemma NotUnder(t: Table, p: nat, drop: set<string>, x: nat)
    requires Good(t) && p in t.index && x <= p
    ensures x !in Under(t, p, drop)
  {
    forall n | n in t.index[p] ensures !Above(t, t.index[p][n], x) {
      assert EntryLinked(t, p, n);
      if Above(t, t.index[p][n], x) {
        AboveLess(t, t.index[p][n], x);
      }
    }
  }

  lemma NoPendingAdded(c: ClientSpec.State, cfg: FsConfig, env: Env, s: FsState, s': FsState, dir: Inode)
    requires Inv(s) && NoShadow(c, cfg, env, s.table)
    requires dir.id in s.table.inodes && s.table.inodes[dir.id] == dir && dir.IsDir()
    requires s' == EnsureChildren(s, cfg, env, dir).0
    ensures NoShadow(c, cfg, env, s'.table)
  {
    EnsureKeepsInv(s, cfg, env, dir);
    EnsureReconciles(s, cfg, env, dir);
    forall x | x in s'.table.inodes && Pending(s'.table, x)
      ensures s'.table.inodes[x].name !in Listing(c, cfg, env, [s'.table.inodes[x].ns, s'.table.inodes[x].res])
    {
      assert NodeLinked(s'.table, x);
      if x in s.table.inodes {
        OldParent(s.table, s'.table, x);
        assert Pending(s.table, x);
      } else {
        OnlyObjectsAdded(s, cfg, env, dir, x);
      }
    }
  }

  lemma OldParent(t: Table, t': Table, x: nat)
    requires Good(t) && Good(t') && Later(t, t') && x in t.inodes && x in t'.inodes
    ensures t'.inodes[x] == t.inodes[x]
    ensures
      var p := t.inodes[x].parent;
      p in t'.inodes ==> p in t.inodes && t'.inodes[p] == t.inodes[p]
  {
    assert NodeLinked(t, x);
  }

  /** Listing a resource type never makes a file. */
  lemma OnlyObjectsAdded(s: FsState, cfg: FsConfig, env: Env, dir: Inode, x: nat)
    requires Inv(s) && dir.IsDir()
    requires dir.id in s.table.inodes && s.table.inodes[dir.id] == dir
    requires
      var s' := EnsureChildren(s, cfg, env, dir).0;
      Good(s'.table) && x in s'.table.inodes && x !in s.table.inodes
    ensures !Pending(EnsureChildren(s, cfg, env, dir).0.table, x)
  {
    var s' := EnsureChildren(s, cfg, env, dir).0;
    ListingTyped(s.client, cfg.client, env, dir);
    var r := ListDir(s.client, cfg.client, env, dir).1;
    EnsureKeepsInv(s, cfg, env, dir);
    EnsureReconciles(s, cfg, env, dir);
    if dir.kind == NodeResourceType && r.Ok? {
      ObjectsOnly(s.client, cfg.client, env, dir);
      AddAllKinds(s.table, dir.id, r.value, x);
    }
    if r.Ok? {
      assert s'.table.inodes[x].parent == dir.id;
      PathKept(s.table, s'.table, dir.id, NamesOf(r.value), dir.id);
    }
  }

  lemma ObjectsOnly(c: ClientSpec.State, cfg: Config, env: Env, dir: Inode)
    requires Typed(c.cache) && dir.kind == NodeResourceType
    ensures
      var r := ListDir(c, cfg, env, dir).1;
      r.Ok? ==> forall i :: 0 <= i < |r.value| ==> r.value[i].kind == NodeObject
  {
  }

  lemma {:induction false} AddAllKinds(t: Table, p: nat, protos: seq<Inode>, x: nat)
    requires forall i :: 0 <= i < |protos| ==> protos[i].kind == NodeObject
    requires x !in t.inodes
    ensures x in AddAll(t, p, protos).inodes ==> AddAll(t, p, protos).inodes[x].kind == NodeObject
  {
    if protos != [] {
      AddAllKinds(t, p, protos[..|protos| - 1], x);
    }
  }

  // ---- The whole path ----

  /** Everything the walk relies on, in a state that the walk may have changed. */
  ghost predicate Ready(gv: Assignment, cfg: FsConfig, env: Env, c: ClientSpec.State, s: FsState) {
    && Inv(s) && Named(Stable(gv), s) && EnvNamed(Stable(gv), c.server, env) && s.client.server == c.server
    && SameAnswers(gv, cfg, env, c, s.client)
    && NoShadow(c, cfg, env, s.table)
  }

  lemma LookupStep(gv: Assignment, cfg: FsConfig, env: Env, c: ClientSpec.State, s: FsState, x: nat, name: string)
    requires Ready(gv, cfg, env, c, s) && x in s.table.inodes
    requires ServerNamed(c.server) && CacheNamed(Stable(gv), c.cache) && Typed(c.cache)
    requires Listed(c, cfg, env, PathTo(s.table, x))
    ensures Ready(gv, cfg, env, c, Lookup(s, cfg, env, x, name).0)
    ensures Lookup(s, cfg, env, x, name).1.Ok? <==> name in Listing(c, cfg, env, PathTo(s.table, x))
    ensures
      var (s', r) := Lookup(s, cfg, env, x, name);
      r.Ok? ==> r.value.id in s'.table.inodes && PathTo(s'.table, r.value.id) == PathTo(s.table, x) + [name]
  {
    StaysReady(gv, cfg, env, c, s, x, name);
    NodeListing(gv, cfg, env, c, s, x);
    if s.table.inodes[x].IsDir() {
      FoundChild(cfg, env, s, x, name);
    } else {
      assert NodeLinked(s.table, x);
    }
  }

  lemma StaysReady(gv: Assignment, cfg: FsConfig, env: Env, c: ClientSpec.State, s: FsState, x: nat, name: string)
    requires Ready(gv, cfg, env, c, s) && x in s.table.inodes
    ensures Ready(gv, cfg, env, c, Lookup(s, cfg, env, x, name).0)
  {
    var n := s.table.inodes[x];
    assert NodeLinked(s.table, x);
    LookupKeepsInv(s, cfg, env, x, name);
    LookupNamed(Stable(gv), cfg, s, env, x, name);
    LookupAnswers(gv, cfg, env, c, s, n);
    OnlyRefreshes(s, cfg, env, x, name);
    if n.IsDir() {
      NoPendingAdded(c, cfg, env, s, Lookup(s, cfg, env, x, name).0, n);
    }
  }

  lemma LookupAnswers(gv: Assignment, cfg: FsConfig, env: Env, c: ClientSpec.State, s: FsState, n: Inode)
    requires SameAnswers(gv, cfg, env, c, s.client) && NodeNamed(Stable(gv), n)
    ensures
      var c' := EnsureChildren(s, cfg, env, n).0.client;
      SameAnswers(gv, cfg, env, c, c') && c'.server == s.client.server
  {
    RefreshKeepsAnswers(gv, cfg, env, s.client, s.table, n);
  }

  /** A lookup in a directory finds a name exactly when its listing succeeds with it. */
  lemma FoundChild(cfg: FsConfig, env: Env, s: FsState, x: nat, name: string)
    requires TreeOk(s) && x in s.table.inodes && s.table.inodes[x].IsDir()
    ensures Lookup(s, cfg, env, x, name).1.Ok? <==> name in NamesListed(ListDir(s.client, cfg.client, env,
        s.table.inodes[x]).1)
    ensures
      var (s', r) := Lookup(s, cfg, env, x, name);
      r.Ok? ==> r.value.id in s'.table.inodes && PathTo(s'.table, r.value.id) == PathTo(s.table, x) + [name]
  {
    LookupLooks(cfg, env, s, x, name);
    var n := s.table.inodes[x];
    assert NodeLinked(s.table, x);
    LookupKeepsTree(s, cfg, env, x, name);
    EnsureReconciles(s, cfg, env, n);
    var l := ListDir(s.client, cfg.client, env, n).1;
    if l.Ok? {
      ReconciledChild(s.table, Lookup(s, cfg, env, x, name).0.table, x, NamesOf(l.value), name);
    }
  }

  lemma LookupLooks(cfg: FsConfig, env: Env, s: FsState, x: nat, name: string)
    requires x in s.table.inodes && s.table.inodes[x].IsDir()
    ensures
      var (s', r) := Lookup(s, cfg, env, x, name);
      && s' == EnsureChildren(s, cfg, env, s.table.inodes[x]).0
      && r.Ok? == (ListDir(s.client, cfg.client, env, s.table.inodes[x]).1.Ok? && LookupChild(s'.table, x, name).Some?)
      && (r.Ok? ==> Some(r.value) == LookupChild(s'.table, x, name))
  {
  }

  lemma ReconciledChild(t: Table, t': Table, p: nat, names: set<string>, name: string)
    requires Good(t) && Good(t') && Reconciled(t, t', p, names)
    ensures LookupChild(t', p, name).Some? <==> name in names
    ensures name in names ==>
      var c := LookupChild(t', p, name).value;
      c.id in t'.inodes && PathTo(t', c.id) == PathTo(t, p) + [name]
  {
    PathKept(t, t', p, names, p);
    if name in names {
      assert EntryLinked(t', p, name);
      ChildPath(t', p, name);
      ChildLive(t', p, name);
    }
  }

  lemma ChildPath(t: Table, p: nat, name: string)
    requires Good(t) && LookupChild(t, p, name).Some?
    ensures PathTo(t, LookupChild(t, p, name).value.id) == PathTo(t, p) + [name]
  {
    ChildLive(t, p, name);
    assert EntryLinked(t, p, name) && NodeLinked(t, t.index[p][name]);
  }

  lemma {:induction false} DescendListed(gv: Assignment, cfg: FsConfig, env: Env, s: FsState, path: seq<string>)
    requires Ready(gv, cfg, env, s.client, s)
    ensures
      var (s', r) := Descend(s, cfg, env, ROOT, path);
      && Ready(gv, cfg, env, s.client, s')
      && (r.Ok? <==> Listed(s.client, cfg, env, path))
      && (r.Ok? ==> r.value in s'.table.inodes && PathTo(s'.table, r.value) == path)
    decreases |path|
  {
    if path != [] {
      var front, name := path[..|path| - 1], path[|path| - 1];
      assert path == front + [name];
      DescendListed(gv, cfg, env, s, front);
      DescendSnoc(s, cfg, env, ROOT, front, name);
      ListedSnoc(s.client, cfg, env, front, name);
      var (s1, r1) := Descend(s, cfg, env, ROOT, front);
      if r1.Ok? {
        LookupStep(gv, cfg, env, s.client, s1, r1.value, name);
      }
    }
  }

  lemma ListedSnoc(c: ClientSpec.State, cfg: FsConfig, env: Env, front: seq<string>, name: string)
    ensures Listed(c, cfg, env, front + [name]) <==> Listed(c, cfg, env, front) && name in Listing(c, cfg, env, front)
  {
    var path := front + [name];
    assert forall i :: 0 <= i < |front| ==> path[..i] == front[..i] && path[i] == front[i];
    assert path[..|front|] == front;
    if Listed(c, cfg, env, path) {
      assert path[|front|] in Listing(c, cfg, env, path[..|front|]);
      forall i | 0 <= i < |front| ensures front[i] in Listing(c, cfg, env, front[..i]) {
        assert path[i] in Listing(c, cfg, env, path[..i]);
      }
    }
  }

  /** Path resolution refines plain listing: with stable discovery, and no pending create
      under a listed object's name, a path resolves if and only if each component is in the
      listing the client returns for what precedes it. The node it resolves to is live, has
      exactly that path and the coordinates it spells, and is never nil. */
  lemma ResolveRefinesListing(gv: Assignment, cfg: FsConfig, env: Env, s: FsState, path: seq<string>)
    requires Inv(s) && Named(Stable(gv), s) && EnvNamed(Stable(gv), s.client.server, env)
        && NoShadow(s.client, cfg, env, s.table)
    ensures
      var (s', r) := Resolve(s, cfg, env, path);
      && (r.Ok? <==> Listed(s.client, cfg, env, path))
      && (r.Ok? ==>
            && r.value.Some?
            && var n := r.value.value;
            && n.id in s'.table.inodes && s'.table.inodes[n.id] == n
            && PathTo(s'.table, n.id) == path
            && (|path| >= 1 ==> n.ns == path[0])
            && (|path| >= 2 ==> n.res == path[1])
            && (|path| >= 4 ==> n.obj == path[2])
            && (|path| >= 1 ==> n.name == path[|path| - 1]))
    ensures Inv(Resolve(s, cfg, env, path).0) && Named(Stable(gv), Resolve(s, cfg, env, path).0)
  {
    DescendListed(gv, cfg, env, s, path);
    var (s', r) := Descend(s, cfg, env, ROOT, path);
    ResolveIs(cfg, env, s, path);
    if r.Ok? {
      Spelled(s'.table, r.value);
    }
  }

  lemma ResolveIs(cfg: FsConfig, env: Env, s: FsState, path: seq<string>)
    ensures
      var (s', r) := Descend(s, cfg, env, ROOT, path);
      && Resolve(s, cfg, env, path).0 == s'
      && (r.Err? ==> Resolve(s, cfg, env, path).1.Err?)
      && (r.Ok? ==> Resolve(s, cfg, env, path).1 == Ok(Node(s', r.value)))
  {
  }

  /** A node carries the coordinates that its path spells. */
  lemma Spelled(t: Table, x: nat)
    requires Good(t) && TypedTree(t) && x in t.inodes
    ensures
      var n, path := t.inodes[x], PathTo(t, x);
      && n.id == x
      && (|path| >= 1 ==> n.ns == path[0])
      && (|path| >= 2 ==> n.res == path[1])
      && (|path| >= 4 ==> n.obj == path[2])
      && (|path| >= 1 ==> n.name == path[|path| - 1])
  {
    assert NodeLinked(t, x);
    Coordinates(t, x);
    KindAt(t, x);
    DeepObjectName(t, x);
  }

  lemma DeepObjectName(t: Table, x: nat)
    requires Good(t) && TypedTree(t) && x in t.inodes
    ensures |PathTo(t, x)| >= 5 ==> t.inodes[x].obj == PathTo(t, x)[2]
  {
    assert NodeLinked(t, x);
    if x != ROOT && |PathTo(t, x)| >= 5 {
      assert NodeTyped(t, x);
      DepthBounded(t, x);
      KindAt(t, x);
      KindAt(t, t.inodes[x].parent);
    }
  }

  /** The proviso about pending creates is needed: a pending file under a listed object's
      name stays in the tree and hides the object. */
  lemma ShadowHidesObject(cfg: FsConfig, env: Env, s: FsState, x: nat)
    requires Inv(s) && x in s.table.inodes && Pending(s.table, x)
    requires
      var l := ListDir(s.client, cfg.client, env, s.table.inodes[s.table.inodes[x].parent]).1;
      l.Ok? && s.table.inodes[x].name in NamesOf(l.value)
    ensures Lookup(s, cfg, env, s.table.inodes[x].parent, s.table.inodes[x].name).1 == Ok(s.table.inodes[x])
    ensures s.table.inodes[x].kind == NodeFile
  {
    var n := s.table.inodes[x];
    var dir := s.table.inodes[n.parent];
    assert NodeLinked(s.table, x) && NodeLinked(s.table, n.parent);
    LookupKeepsTree(s, cfg, env, n.parent, n.name);
    EnsureReconciles(s, cfg, env, dir);
    EnsureKeepsInv(s, cfg, env, dir);
    var s' := EnsureChildren(s, cfg, env, dir).0;
    assert EntryLinked(s'.table, n.parent, n.name);
  }

  /** Resolving a path other than the root is looking its last name up in what the rest
      resolves to. */
  lemma ResolveIsLookup(cfg: FsConfig, env: Env, s: FsState, path: seq<string>)
    requires Inv(s) && path != []
    ensures
      var (s1, dir) := Resolve(s, cfg, env, DirName(path));
      match dir
      case Err(e) => Resolve(s, cfg, env, path) == (s1, Err(e))
      case Ok(None) => false
      case Ok(Some(d)) =>
        var (s2, r) := Lookup(s1, cfg, env, d.id, BaseName(path));
        Resolve(s, cfg, env, path) == (s2, match r case Err(e) => Err(e) case Ok(n) => Ok(Some(n)))
  {
    var front, name := DirName(path), BaseName(path);
    assert path == front + [name];
    DescendSnoc(s, cfg, env, ROOT, front, name);
    DescendLive(s, cfg, env, ROOT, front);
    DescendLive(s, cfg, env, ROOT, path);
    var (s1, r1) := Descend(s, cfg, env, ROOT, front);
    if r1.Ok? {
      assert NodeLinked(s1.table, r1.value);
      LookupKeepsTree(s1, cfg, env, r1.value, name);
    }
  }

  /** A walk ends at a live node, so resolve never returns a nil node without an error. */
  lemma {:induction false} DescendLive(s: FsState, cfg: FsConfig, env: Env, current: nat, parts: seq<string>)
    requires TreeOk(s) && current in s.table.inodes
    ensures
      var (s', r) := Descend(s, cfg, env, current, parts);
      TreeOk(s') && (r.Ok? ==> r.value in s'.table.inodes)
    decreases |parts|
  {
    if parts != [] {
      LookupKeepsTree(s, cfg, env, current, parts[0]);
      var (s', r) := Lookup(s, cfg, env, current, parts[0]);
      if r.Ok? {
        DescendLive(s', cfg, env, r.value.id, parts[1..]);
      }
    }
  }
}
