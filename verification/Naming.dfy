/** The naming rules of the API server, and what they make of the tree: colon-free
    namespace and resource names, and the groups and versions under which discovery gives
    a resource name. */
module Naming {
  import opened Prelude
  import opened Api
  import opened Keys
  import opened ClientSpec
  import opened TableSpec
  import opened FsSpec
  import opened Runs
  import opened Order

  /** Which groups and versions discovery may give a resource name. */
  type Versions = (string, GroupVersion) -> bool

  type Assignment = string -> GroupVersion

  /** No restriction: discovery may change its mind at any time. */
  function AnyVersion(): Versions { (name: string, g: GroupVersion) => true }

  /** Stable discovery: one group and version for each resource name. */
  function Stable(of: Assignment): Versions { (name: string, g: GroupVersion) => of(name) == g }

  ghost predicate InfosNamed(gv: Versions, m: map<string, ResourceInfo>) {
    forall n :: n in m ==> ColonFree(n) && gv(n, GroupVersion(m[n].group, m[n].version))
  }

  ghost predicate ServerNamed(s: Server) {
    forall n :: n in s.namespaces ==> ColonFree(n)
  }

  /** Maps are ranged over properly, and what discovery answers now obeys the rules. */
  ghost predicate EnvNamed(gv: Versions, s: Server, env: Env) {
    env.Valid() && InfosNamed(gv, Discovered(Discover(s, env)))
  }

  ghost predicate ValueNamed(gv: Versions, v: CacheValue) {
    match v
    case NameList(names) => forall n :: n in names ==> ColonFree(n)
    case ResourceMap(m) => InfosNamed(gv, m)
    case _ => true
  }

  ghost predicate CacheNamed(gv: Versions, cache: Entries) {
    forall k :: k in cache ==> ValueNamed(gv, cache[k].value)
  }

  ghost predicate NodeNamed(gv: Versions, n: Inode) {
    && ColonFree(n.ns) && ColonFree(n.res)
    && (n.kind != NodeRoot && n.kind != NodeNamespace ==> gv(n.res, GroupVersion(n.group, n.version)))
  }

  ghost predicate TableNamed(gv: Versions, t: Table) {
    forall x :: x in t.inodes ==> NodeNamed(gv, t.inodes[x])
  }

  ghost predicate Named(gv: Versions, s: FsState) {
    && ServerNamed(s.client.server) && CacheNamed(gv, s.client.cache)
    && TableNamed(gv, s.table)
    && (forall h :: h in s.files ==> NodeNamed(gv, s.files[h].node))
  }

  /** Discovery and everybody else's changes obey the naming rules. */
  ghost predicate EventNamed(gv: Versions, s: FsState, e: Event) {
    EnvNamed(gv, s.client.server, e.env) && (e.op.ServerChange? ==> ServerNamed(e.op.server))
  }

  // ---- Reads ----

  lemma FetchNamed(gv: Versions, s: Server, lib: Library, env: Env, q: Query)
    requires ServerNamed(s) && EnvNamed(gv, s, env)
    ensures Fetch(s, lib, env, q).Ok? ==> ValueNamed(gv, Fetch(s, lib, env, q).value)
  {
    if q.view.Namespaces? {
      SortedNamed(env.order(s.namespaces), s.namespaces);
    }
  }

  lemma SortedNamed(names: seq<string>, all: set<string>)
    requires Enumerates(names, all) && forall n :: n in all ==> ColonFree(n)
    ensures forall n :: n in SortBy(names, NameKey) ==> ColonFree(n)
  {
    SortByCorrect(names, NameKey);
    var sorted := SortBy(names, NameKey);
    forall n | n in sorted ensures ColonFree(n) {
      assert n in multiset(sorted) && n in multiset(names);
      assert n in names;
    }
  }

  lemma AskNamed(gv: Versions, c: ClientSpec.State, cfg: Config, env: Env, q: Query)
    requires ServerNamed(c.server) && CacheNamed(gv, c.cache) && EnvNamed(gv, c.server, env)
    ensures CacheNamed(gv, Ask(c, cfg, env, q).0.cache) && Ask(c, cfg, env, q).0.server == c.server
    ensures Ask(c, cfg, env, q).1.Ok? ==> ValueNamed(gv, Ask(c, cfg, env, q).1.value)
  {
    FetchNamed(gv, c.server, cfg.lib, env, q);
  }

  /** The queries a named node gives rise to are well named. */
  lemma QueriesNamed(gv: Versions, n: Inode)
    requires NodeNamed(gv, n)
    ensures NodeQuery(n).Ok? ==> WellNamed(NodeQuery(n).value.view)
    ensures DirQuery(n).Some? ==> WellNamed(DirQuery(n).value.view)
  {
  }

  lemma AskedWellNamed(s: FsState, env: Env, op: Op)
    requires TableNamed(AnyVersion(), s.table)
    ensures Asked(s, env, op).Some? ==> WellNamed(Asked(s, env, op).value.view)
  {
    forall x | x in s.table.inodes
      ensures NodeQuery(s.table.inodes[x]).Ok? ==> WellNamed(NodeQuery(s.table.inodes[x]).value.view)
      ensures DirQuery(s.table.inodes[x]).Some? ==> WellNamed(DirQuery(s.table.inodes[x]).value.view)
    {
      QueriesNamed(AnyVersion(), s.table.inodes[x]);
    }
  }

  // ---- Listings ----

  lemma ProtoNamed(gv: Versions, dir: Inode, env: Env, v: CacheValue, i: nat)
    requires NodeNamed(gv, dir) && ValueNamed(gv, v) && env.Valid()
    requires DirQuery(dir).Some? && Fits(Kind(DirQuery(dir).value.view), v)
    requires i < |AnswerProtos(dir, env, v)|
    ensures NodeNamed(gv, AnswerProtos(dir, env, v)[i])
  {
    if v.NameList? {
      NamespaceAt(gv, v.names, env.now, i);
    } else if v.ResourceMap? {
      TypeAt(gv, dir, env, v.resources, i);
    } else {
      BelowType(gv, dir, env, v, i);
    }
  }

  lemma BelowType(gv: Versions, dir: Inode, env: Env, v: CacheValue, i: nat)
    requires NodeNamed(gv, dir) && (v.ObjectList? || v.DataMap?)
    requires DirQuery(dir).Some? && Fits(Kind(DirQuery(dir).value.view), v)
    requires i < |AnswerProtos(dir, env, v)|
    ensures NodeNamed(gv, AnswerProtos(dir, env, v)[i])
  {
    if v.ObjectList? {
      ObjectAt(gv, dir, v.objects, i);
    } else {
      KeyAt(gv, dir, env, v.data, i);
    }
  }

  lemma NamespaceAt(gv: Versions, names: seq<string>, now: int, i: nat)
    requires (forall n :: n in names ==> ColonFree(n)) && i < |NamespaceProtos(names, now)|
    ensures NodeNamed(gv, NamespaceProtos(names, now)[i])
  {
    assert NamespaceProtos(names, now)[i] == NamespaceProto(names[i], now);
  }

  lemma ObjectAt(gv: Versions, dir: Inode, objects: seq<ObjectInfo>, i: nat)
    requires NodeNamed(gv, dir) && dir.kind == NodeResourceType && i < |ObjectProtos(dir, objects)|
    ensures NodeNamed(gv, ObjectProtos(dir, objects)[i])
  {
    assert ObjectProtos(dir, objects)[i] == ObjectProto(dir, objects[i]);
  }

  lemma KeyAt(gv: Versions, dir: Inode, env: Env, m: map<string, Bytes>, i: nat)
    requires NodeNamed(gv, dir) && dir.kind == NodeDataDir && i < |KeyProtos(dir, env, m)|
    ensures NodeNamed(gv, KeyProtos(dir, env, m)[i])
  {
    assert KeyProtos(dir, env, m)[i] == KeyProto(dir, env.order(m.Keys)[i]);
  }

  lemma TypeNamed(gv: Versions, dir: Inode, name: string, ri: ResourceInfo, now: int)
    requires NodeNamed(gv, dir) && ColonFree(name) && gv(name, GroupVersion(ri.group, ri.version))
    ensures NodeNamed(gv, ResourceTypeProto(dir, name, ri, now))
  {
  }

  lemma TypeAt(gv: Versions, dir: Inode, env: Env, m: map<string, ResourceInfo>, i: nat)
    requires NodeNamed(gv, dir) && InfosNamed(gv, m) && env.Valid()
    requires i < |ResourceTypeProtos(dir, env, m)|
    ensures NodeNamed(gv, ResourceTypeProtos(dir, env, m)[i])
  {
    ProtoAt(dir, env, m, i);
    var n := env.order(m.Keys)[i];
    assert n in env.order(m.Keys) && n in m.Keys;
    TypeNamed(gv, dir, n, m[n], env.now);
  }

  lemma ProtoAt(dir: Inode, env: Env, m: map<string, ResourceInfo>, i: nat)
    requires i < |ResourceTypeProtos(dir, env, m)|
    ensures i < |env.order(m.Keys)|
    ensures
      var n := env.order(m.Keys)[i];
      ResourceTypeProtos(dir, env, m)[i] == ResourceTypeProto(dir, n, if n in m then m[n] else NoInfo(), env.now)
  {
  }

  lemma ListDirNamed(gv: Versions, c: ClientSpec.State, cfg: Config, env: Env, dir: Inode)
    requires ServerNamed(c.server) && CacheNamed(gv, c.cache) && Typed(c.cache) && EnvNamed(gv, c.server, env)
        && NodeNamed(gv, dir)
    ensures CacheNamed(gv, ListDir(c, cfg, env, dir).0.cache) && ListDir(c, cfg, env, dir).0.server == c.server
    ensures ListDir(c, cfg, env, dir).1.Ok? ==>
      forall i :: 0 <= i < |ListDir(c, cfg, env, dir).1.value| ==> NodeNamed(gv, ListDir(c, cfg, env, dir).1.value[i])
  {
    if DirQuery(dir).Some? {
      var q := DirQuery(dir).value;
      AskNamed(gv, c, cfg, env, q);
      AskTyped(c, cfg, env, q);
      if Ask(c, cfg, env, q).1.Ok? {
        var v := Ask(c, cfg, env, q).1.value;
        forall i: nat | i < |AnswerProtos(dir, env, v)| ensures NodeNamed(gv, AnswerProtos(dir, env, v)[i]) {
          ProtoNamed(gv, dir, env, v, i);
        }
      }
    }
  }

  lemma {:induction false} AddAllNamed(gv: Versions, t: Table, p: nat, protos: seq<Inode>)
    requires TableNamed(gv, t) && forall i :: 0 <= i < |protos| ==> NodeNamed(gv, protos[i])
    ensures TableNamed(gv, AddAll(t, p, protos))
  {
    if protos != [] {
      AddAllNamed(gv, t, p, protos[..|protos| - 1]);
    }
  }

  lemma RefreshNamed(gv: Versions, c: ClientSpec.State, t: Table, cfg: Config, env: Env, dir: Inode)
    requires ServerNamed(c.server) && CacheNamed(gv, c.cache) && Typed(c.cache) && EnvNamed(gv, c.server, env)
    requires NodeNamed(gv, dir) && TableNamed(gv, t)
    ensures
      var (c', t', _) := Refresh(c, t, cfg, env, dir);
      CacheNamed(gv, c'.cache) && c'.server == c.server && TableNamed(gv, t')
  {
    if dir.IsDir() {
      ListDirNamed(gv, c, cfg, env, dir);
      var r := ListDir(c, cfg, env, dir).1;
      if r.Ok? {
        AddAllNamed(gv, t, dir.id, r.value);
      }
    }
  }

  // ---- Steps ----

  lemma LookupNamed(gv: Versions, cfg: FsConfig, s: FsState, env: Env, p: nat, name: string)
    requires Typed(s.client.cache) && Named(gv, s) && EnvNamed(gv, s.client.server, env)
    ensures Named(gv, Lookup(s, cfg, env, p, name).0)
    ensures Named(gv, Children(s, cfg, env, p).0)
  {
    if p in s.table.inodes {
      RefreshNamed(gv, s.client, s.table, cfg.client, env, s.table.inodes[p]);
    }
  }

  lemma FetchContentNamed(gv: Versions, cfg: FsConfig, s: FsState, env: Env, node: Inode)
    requires Named(gv, s) && EnvNamed(gv, s.client.server, env)
    ensures Named(gv, FetchContent(s, cfg, env, node).0)
  {
    if NodeQuery(node).Ok? {
      AskNamed(gv, s.client, cfg.client, env, NodeQuery(node).value);
    }
  }

  lemma OpenNamed(gv: Versions, cfg: FsConfig, s: FsState, env: Env, id: nat)
    requires Named(gv, s) && EnvNamed(gv, s.client.server, env)
    ensures Named(gv, GetAttr(s, cfg, env, id).0) && Named(gv, OpenFile(s, cfg, env, id).0)
  {
    if id in s.table.inodes {
      FetchContentNamed(gv, cfg, s, env, s.table.inodes[id]);
      FetchContentNamed(gv, cfg, s.(nextHandle := s.nextHandle + 1), env, s.table.inodes[id]);
    }
  }

  lemma CreateNamed(gv: Versions, cfg: FsConfig, s: FsState, env: Env, p: nat, name: string)
    requires Named(gv, s)
    ensures Named(gv, CreateAndOpen(s, cfg, env, p, name).0)
  {
    var check := CheckCreate(s.table, cfg, p, name);
    if check.Ok? {
      var (t, child) := AddChild(s.table, p, PendingProto(check.value, name, env.now));
      assert NodeNamed(gv, child);
      assert TableNamed(gv, t);
    }
  }

  lemma RemoveNamed(gv: Versions, cfg: FsConfig, s: FsState, env: Env, p: nat, name: string, isDir: bool)
    requires Named(gv, s)
    ensures Named(gv, Remove(s, cfg, env, p, name, isDir).0)
  {
    if LookupChild(s.table, p, name).Some? {
      DeleteNamed(gv, cfg, s.client, env, LookupChild(s.table, p, name).value);
    }
  }

  lemma DeleteNamed(gv: Versions, cfg: FsConfig, c: ClientSpec.State, env: Env, child: Inode)
    requires ServerNamed(c.server) && CacheNamed(gv, c.cache)
    ensures
      var c' := DeleteBehind(c, cfg, env, child).0;
      ServerNamed(c'.server) && CacheNamed(gv, c'.cache)
  {
  }

  lemma FlushNamed(gv: Versions, cfg: FsConfig, s: FsState, env: Env, h: nat)
    requires Named(gv, s)
    ensures Named(gv, FlushHandle(s, cfg, env, h).0)
  {
    if h in s.files {
      SendNamed(gv, cfg, s.client, env, s.files[h]);
    }
  }

  lemma SendNamed(gv: Versions, cfg: FsConfig, c: ClientSpec.State, env: Env, f: Handle)
    requires ServerNamed(c.server) && CacheNamed(gv, c.cache)
    ensures
      var c' := Send(c, cfg, env, f).0;
      ServerNamed(c'.server) && CacheNamed(gv, c'.cache)
  {
  }

  lemma BuffersNamed(gv: Versions, cfg: FsConfig, s: FsState, id: nat, size: nat, h: nat, offset: nat, data: Bytes)
    requires Named(gv, s)
    ensures Named(gv, Truncate(s, cfg, id, size).0)
    ensures Named(gv, WriteHandle(s, cfg, h, offset, data).0)
    ensures Named(gv, ReleaseHandle(s, h))
  {
  }

  lemma TreeStepNamed(gv: Versions, cfg: FsConfig, s: FsState, e: Event)
    requires Typed(s.client.cache) && Named(gv, s) && EventNamed(gv, s, e)
    requires e.op.DoLookup? || e.op.DoChildren? || e.op.DoGetAttr? || e.op.DoOpen? || e.op.DoRemove? || e.op.DoCreate?
    ensures Named(gv, Step(cfg, s, e.env, e.op))
  {
    match e.op
    case DoRemove(p, name, isDir) => RemoveNamed(gv, cfg, s, e.env, p, name, isDir);
    case DoCreate(p, name) => CreateNamed(gv, cfg, s, e.env, p, name);
    case _ => ReadStepNamed(gv, cfg, s, e);
  }

  lemma ReadStepNamed(gv: Versions, cfg: FsConfig, s: FsState, e: Event)
    requires Typed(s.client.cache) && Named(gv, s) && EventNamed(gv, s, e)
    requires e.op.DoLookup? || e.op.DoChildren? || e.op.DoGetAttr? || e.op.DoOpen?
    ensures Named(gv, Step(cfg, s, e.env, e.op))
  {
    match e.op
    case DoLookup(p, name) => LookupNamed(gv, cfg, s, e.env, p, name);
    case DoChildren(id) => LookupNamed(gv, cfg, s, e.env, id, "");
    case DoGetAttr(id) => OpenNamed(gv, cfg, s, e.env, id);
    case DoOpen(id) => OpenNamed(gv, cfg, s, e.env, id);
  }

  /** Every operation keeps the naming rules, as long as the server's other users do. */
  lemma StepNamed(gv: Versions, cfg: FsConfig, s: FsState, e: Event)
    requires Typed(s.client.cache) && Named(gv, s) && EventNamed(gv, s, e)
    ensures Named(gv, Step(cfg, s, e.env, e.op))
  {
    match e.op
    case DoFlush(h) => FlushNamed(gv, cfg, s, e.env, h);
    case DoRead(_, _, _) =>
    case ServerChange(_) =>
    case _ =>
      if e.op.DoTruncate? || e.op.DoWrite? || e.op.DoRelease? {
        BufferStepNamed(gv, cfg, s, e);
      } else {
        TreeStepNamed(gv, cfg, s, e);
      }
  }

  lemma BufferStepNamed(gv: Versions, cfg: FsConfig, s: FsState, e: Event)
    requires Named(gv, s) && (e.op.DoTruncate? || e.op.DoWrite? || e.op.DoRelease?)
    ensures Named(gv, Step(cfg, s, e.env, e.op))
  {
    match e.op
    case DoTruncate(id, size) => BuffersNamed(gv, cfg, s, id, size, 0, 0, []);
    case DoWrite(h, offset, data) => BuffersNamed(gv, cfg, s, 0, 0, h, offset, data);
    case DoRelease(h) => BuffersNamed(gv, cfg, s, 0, 0, h, 0, []);
  }

  lemma StartNamed(gv: Versions, server: Server, now: int)
    requires ServerNamed(server)
    ensures Named(gv, Start(server, now))
  {
  }
}
