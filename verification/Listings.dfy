/** What directories list, read off the server's namespaces, discovery, objects and keys. */
module Listings {
  import opened Prelude
  import opened Api
  import opened Caching
  import opened Keys
  import opened ClientSpec
  import opened TableSpec
  import opened FsSpec
  import opened Served
  import opened Order
  import opened Runs
  import opened Naming
  import opened Reconciliation
  import opened Paths
  import Base64

  // ---- Discovery ----

  /** The API groups that answer. */
  function Groups(server: Server, env: Env): seq<ApiList> {
    if env.fails(DiscoverCall) then env.answering(server.lists) else server.lists
  }

  /** The group offers a resource of this name that can be listed and read. */
  predicate Offers(l: ApiList, r: ApiResource, name: string) {
    && r in l.resources && r.name == name && '/' !in name
    && "list" in r.verbs && "get" in r.verbs
    && ParseGroupVersion(l.groupVersion).Some?
  }

  ghost predicate Offered(lists: seq<ApiList>, name: string) {
    exists l, r :: l in lists && Offers(l, r, name)
  }

  lemma {:induction false} OfferedIn(gv: GroupVersion, l: ApiList, rs: seq<ApiResource>, name: string)
    requires ParseGroupVersion(l.groupVersion) == Some(gv) && rs <= l.resources
    ensures FirstIn(gv, rs, name).Some? <==> exists r :: r in rs && Offers(l, r, name)
    decreases |rs|
  {
    if rs != [] {
      var front, last := rs[..|rs| - 1], rs[|rs| - 1];
      OfferedIn(gv, l, front, name);
      assert rs == front + [last] && last in l.resources;
      assert Browsable(last) && last.name == name <==> Offers(l, last, name);
      assert forall r :: r in rs <==> r in front || r == last;
    }
  }

  lemma {:induction false} HitIffOffered(lists: seq<ApiList>, name: string)
    ensures FirstHit(lists, name).Some? <==> Offered(lists, name)
  {
    if lists != [] {
      var front, l := lists[..|lists| - 1], lists[|lists| - 1];
      HitIffOffered(front, name);
      assert forall x :: x in lists <==> x in front || x == l;
      if ParseGroupVersion(l.groupVersion).Some? {
        OfferedIn(ParseGroupVersion(l.groupVersion).value, l, l.resources, name);
      }
    }
  }

  /** Discovery knows a name exactly if a group that answers offers it. */
  lemma DiscoveredIffOffered(lists: seq<ApiList>, name: string)
    ensures name in Discovered(lists) <==> Offered(lists, name)
  {
    DiscoveredExact(lists, name);
    HitIffOffered(lists, name);
  }

  /** And the first resource of the first group that offers the name gives it its group,
      version and kind. */
  lemma FirstOfferWins(before: seq<ApiList>, l: ApiList, after: seq<ApiList>, rs: seq<ApiResource>, r: ApiResource,
      more: seq<ApiResource>, name: string)
    requires l.resources == rs + [r] + more && Offers(l, r, name)
    requires !Offered(before, name) && forall x :: x in rs ==> !Offers(l, x, name)
    ensures
      var lists, gv := before + [l] + after, ParseGroupVersion(l.groupVersion).value;
      name in Discovered(lists) && Discovered(lists)[name] == ResourceInfo(gv.group, gv.version, name, r.kind)
  {
    var gv := ParseGroupVersion(l.groupVersion).value;
    HitIffOffered(before, name);
    DiscoveredExact(before + [l] + after, name);
    OfferedIn(gv, l, rs, name);
    assert (rs + [r])[..|rs|] == rs;
    FirstInStays(gv, rs + [r], more, name);
    assert (before + [l])[..|before|] == before;
    FirstStays(before + [l], after, name);
  }

  lemma {:induction false} FirstInStays(gv: GroupVersion, front: seq<ApiResource>, more: seq<ApiResource>, name: string)
    requires FirstIn(gv, front, name).Some?
    ensures FirstIn(gv, front + more, name) == FirstIn(gv, front, name)
  {
    if more == [] {
      assert front + more == front;
    } else {
      FirstInStays(gv, front, more[..|more| - 1], name);
      assert (front + more)[..|front + more| - 1] == front + more[..|more| - 1];
    }
  }

  lemma {:induction false} FirstStays(front: seq<ApiList>, after: seq<ApiList>, name: string)
    requires FirstHit(front, name).Some?
    ensures FirstHit(front + after, name) == FirstHit(front, name)
  {
    if after == [] {
      assert front + after == front;
    } else {
      FirstStays(front, after[..|after| - 1], name);
      assert (front + after)[..|front + after| - 1] == front + after[..|after| - 1];
    }
  }

  /** A bare version belongs to the core group; otherwise a slash parts group and version, and
      with two slashes or more it is neither. */
  lemma GroupVersionsParsed(g: string, v: string, more: string)
    requires '/' !in g && '/' !in v
    ensures ParseGroupVersion(v) == Some(GroupVersion("", v))
    ensures ParseGroupVersion(g + "/" + v) == Some(GroupVersion(g, v))
    ensures ParseGroupVersion(g + "/" + v + "/" + more) == None
  {
    NoSlash(g);
    NoSlash(v);
    OneSlash(g, v);
    OneSlash(g, v + "/" + more);
    OneSlash(v, more);
    assert g + "/" + v + "/" + more == g + "/" + (v + "/" + more);
    if g + "/" + v == "/" {
      assert |g| + |v| == 0;
    }
    assert (g + "/" + v)[|g| + 1..] == v;
    assert |g + "/" + v + "/" + more| >= 2;
  }

  lemma {:induction false} NoSlash(s: string)
    requires '/' !in s
    ensures SlashCount(s) == 0
  {
    if s != "" {
      NoSlash(s[1..]);
    }
  }

  lemma {:induction false} OneSlash(a: string, b: string)
    requires '/' !in a
    ensures SlashCount(a + "/" + b) == 1 + SlashCount(b) && BeforeSlash(a + "/" + b) == a
  {
    var s := a + "/" + b;
    if a == "" {
      assert s[1..] == b;
    } else {
      assert s[1..] == a[1..] + "/" + b;
      OneSlash(a[1..], b);
    }
  }

  // ---- Directories ----

  /** The server has this entry for the directory. */
  ghost predicate Has(server: Server, env: Env, dir: Inode, name: string) {
    match dir.kind
    case NodeRoot => name in server.namespaces
    case NodeNamespace => Offered(Groups(server, env), name)
    case NodeResourceType => Ref(Gvr(dir.group, dir.version, dir.res), dir.ns, name) in server.objects
    case NodeObject =>
      || name == "yaml" || name == "json" || name == "describe"
      || (name == "logs" && dir.res == "pods")
      || (name == "data" && (dir.res == "configmaps" || dir.res == "secrets"))
    case NodeDataDir =>
      RefOf(dir) in server.objects &&
      var data := server.objects[RefOf(dir)].data;
      data.Fields? && name in data.fields && data.fields[name].Str?
    case _ => false
  }

  /** The listing of the directory fails: a call does, and of discovery no group answers. */
  ghost predicate Outage(server: Server, env: Env, dir: Inode) {
    match dir.kind
    case NodeRoot => env.fails(ListNamespacesCall)
    case NodeNamespace => env.fails(DiscoverCall) && env.answering(server.lists) == []
    case NodeResourceType => env.fails(ListCall(Gvr(dir.group, dir.version, dir.res), dir.ns))
    case NodeDataDir =>
      || env.fails(GetCall(RefOf(dir))) || RefOf(dir) !in server.objects
      || (dir.res == "secrets" && Undecodable(server.objects[RefOf(dir)]))
    case _ => false
  }

  ghost predicate Undecodable(obj: Object) {
    obj.data.Fields? && exists k :: k in obj.data.fields && obj.data.fields[k].Str?
                                    && Base64.Decode(obj.data.fields[k].bytes).None?
  }

  /** The client has no current entry for the directory's listing. */
  predicate Unlisted(c: ClientSpec.State, env: Env, dir: Inode) {
    match dir.kind
    case NodeRoot => Hit(c.cache, "namespaces", env.now).None?
    case NodeNamespace => Hit(c.cache, "resources", env.now).None?
    case NodeResourceType => Hit(c.cache, Key(View.Listing(dir.ns, dir.res)), env.now).None?
    case NodeDataDir => Hit(c.cache, Key(Data(dir.ns, dir.res, dir.obj)), env.now).None?
    case _ => true
  }

  lemma RootShown(c: ClientSpec.State, cfg: Config, env: Env, dir: Inode)
    requires dir.kind == NodeRoot && Unlisted(c, env, dir) && env.Valid()
    ensures
      var r := ListDir(c, cfg, env, dir).1;
      && (r.Err? <==> Outage(c.server, env, dir))
      && (r.Ok? ==> forall name :: name in NamesOf(r.value) <==> Has(c.server, env, dir, name))
  {
    var names := SortBy(env.order(c.server.namespaces), NameKey);
    SortedSet(env.order(c.server.namespaces), c.server.namespaces);
    ProtoNames(dir, env, NameList(names));
  }

  lemma SortedSet(q: seq<string>, names: set<string>)
    requires Enumerates(q, names)
    ensures forall n :: n in SortBy(q, NameKey) <==> n in names
  {
    SortByCorrect(q, NameKey);
    forall n ensures n in SortBy(q, NameKey) <==> n in names {
      assert n in SortBy(q, NameKey) <==> n in multiset(SortBy(q, NameKey));
      assert n in q <==> n in multiset(q);
    }
  }

  lemma TypesShown(c: ClientSpec.State, cfg: Config, env: Env, dir: Inode)
    requires dir.kind == NodeNamespace && Unlisted(c, env, dir) && env.Valid()
    ensures
      var r := ListDir(c, cfg, env, dir).1;
      && (r.Err? <==> Outage(c.server, env, dir))
      && (r.Ok? ==> forall name :: name in NamesOf(r.value) <==> Has(c.server, env, dir, name))
  {
    var lists := Groups(c.server, env);
    ProtoNames(dir, env, ResourceMap(Discovered(lists)));
    forall name ensures name in Discovered(lists) <==> Offered(lists, name) {
      DiscoveredIffOffered(lists, name);
    }
  }

  lemma ObjectsShown(c: ClientSpec.State, cfg: Config, env: Env, dir: Inode)
    requires dir.kind == NodeResourceType && Unlisted(c, env, dir) && env.Valid()
    ensures
      var r := ListDir(c, cfg, env, dir).1;
      && (r.Err? <==> Outage(c.server, env, dir))
      && (r.Ok? ==> forall name :: name in NamesOf(r.value) <==> Has(c.server, env, dir, name))
  {
    var gvr := Gvr(dir.group, dir.version, dir.res);
    var items := List(c.server, env, gvr, dir.ns);
    if items.Ok? {
      ItemsAre(c.server, env, gvr, dir.ns);
      ProtoNames(dir, env, ObjectList(SortBy(items.value, (o: ObjectInfo) => o.name)));
    }
  }

  lemma ItemsAre(server: Server, env: Env, gvr: Gvr, ns: string)
    requires env.Valid() && !env.fails(ListCall(gvr, ns))
    ensures
      var items := SortBy(List(server, env, gvr, ns).value, (o: ObjectInfo) => o.name);
      && (forall name :: Ref(gvr, ns, name) in server.objects <==> exists o :: o in items && o.name == name)
      && (forall o :: o in items ==>
            Ref(gvr, ns, o.name) in server.objects && o.created == server.objects[Ref(gvr, ns, o.name)].created)
  {
    var list := List(server, env, gvr, ns).value;
    var items := SortBy(list, (o: ObjectInfo) => o.name);
    UnsortedItems(server, env, gvr, ns);
    SortByCorrect(list, (o: ObjectInfo) => o.name);
    forall o ensures o in items <==> o in list {
      assert o in items <==> o in multiset(items);
      assert o in list <==> o in multiset(list);
    }
  }

  lemma UnsortedItems(server: Server, env: Env, gvr: Gvr, ns: string)
    requires env.Valid() && !env.fails(ListCall(gvr, ns))
    ensures
      var list := List(server, env, gvr, ns).value;
      && (forall name :: Ref(gvr, ns, name) in server.objects <==> exists o :: o in list && o.name == name)
      && (forall o :: o in list ==>
            Ref(gvr, ns, o.name) in server.objects && o.created == server.objects[Ref(gvr, ns, o.name)].created)
  {
    var names, list := env.order(Api.NamesIn(server, gvr, ns)), List(server, env, gvr, ns).value;
    assert Enumerates(names, Api.NamesIn(server, gvr, ns));
    forall o | o in list ensures o.name in names {
      var i :| 0 <= i < |list| && list[i] == o;
    }
    forall name | Ref(gvr, ns, name) in server.objects ensures exists o :: o in list && o.name == name {
      assert Ref(gvr, ns, name).name in Api.NamesIn(server, gvr, ns);
      var i :| 0 <= i < |names| && names[i] == name;
      assert list[i] in list;
    }
  }

  /** Names and objects are answered in ascending order. */
  lemma AnswersAscend(server: Server, lib: Library, env: Env, q: Query)
    requires env.Valid()
    ensures
      match Fetch(server, lib, env, q)
      case Ok(NameList(names)) => Ascending(names, NameKey)
      case Ok(ObjectList(objects)) => Ascending(objects, (o: ObjectInfo) => o.name)
      case _ => true
  {
    match q.view
    case Namespaces =>
      assert Enumerates(env.order(server.namespaces), server.namespaces);
      SortByCorrect(env.order(server.namespaces), NameKey);
    case Listing(ns, _) =>
      assert Enumerates(env.order(Api.NamesIn(server, q.ri.GVR(), ns)), Api.NamesIn(server, q.ri.GVR(), ns));
      if !env.fails(ListCall(q.ri.GVR(), ns)) {
        SortByCorrect(List(server, env, q.ri.GVR(), ns).value, (o: ObjectInfo) => o.name);
      }
    case _ =>
  }

  lemma FilesShown(dir: Inode)
    requires dir.kind == NodeObject
    ensures forall server, env, name :: name in NamesOf(ActionProtos(dir)) <==> Has(server, env, dir, name)
  {
    forall name ensures name in NamesOf(ActionProtos(dir)) <==>
      || name == "yaml" || name == "json" || name == "describe"
      || (name == "logs" && dir.res == "pods")
      || (name == "data" && (dir.res == "configmaps" || dir.res == "secrets"))
    {
      FileNamed(dir, name);
    }
  }

  lemma FileNamed(dir: Inode, name: string)
    requires dir.kind == NodeObject
    ensures name in NamesOf(ActionProtos(dir)) <==>
      || name == "yaml" || name == "json" || name == "describe"
      || (name == "logs" && dir.res == "pods")
      || (name == "data" && (dir.res == "configmaps" || dir.res == "secrets"))
  {
    var protos := ActionProtos(dir);
    NamesOfMembers(protos, name);
    assert protos[0].name == "yaml" && protos[1].name == "json" && protos[2].name == "describe";
    if dir.res == "pods" {
      assert "pods"[0] != "configmaps"[0] && "pods"[0] != "secrets"[0];
      assert |protos| == 4 && protos[3].name == "logs";
    } else if dir.res == "configmaps" || dir.res == "secrets" {
      assert |protos| == 4 && protos[3].name == "data";
    } else {
      assert |protos| == 3;
    }
  }

  lemma KeysShown(c: ClientSpec.State, cfg: Config, env: Env, dir: Inode)
    requires dir.kind == NodeDataDir && Unlisted(c, env, dir) && env.Valid()
    ensures
      var r := ListDir(c, cfg, env, dir).1;
      && (r.Err? <==> Outage(c.server, env, dir))
      && (r.Ok? ==> forall name :: name in NamesOf(r.value) <==> Has(c.server, env, dir, name))
  {
    if !env.fails(GetCall(RefOf(dir))) && RefOf(dir) in c.server.objects {
      var r := ExtractData(c.server.objects[RefOf(dir)].data, dir.res);
      if r.Ok? {
        ProtoNames(dir, env, DataMap(r.value));
      }
    }
  }

  lemma ListsShown(c: ClientSpec.State, cfg: Config, env: Env, dir: Inode)
    requires dir.IsDir() && Unlisted(c, env, dir) && env.Valid()
    ensures
      var r := ListDir(c, cfg, env, dir).1;
      && (r.Err? <==> Outage(c.server, env, dir))
      && (r.Ok? ==> forall name :: name in NamesOf(r.value) <==> Has(c.server, env, dir, name))
  {
    match dir.kind
    case NodeRoot => RootShown(c, cfg, env, dir);
    case NodeNamespace => TypesShown(c, cfg, env, dir);
    case NodeResourceType => ObjectsShown(c, cfg, env, dir);
    case NodeObject => FilesShown(dir);
    case NodeDataDir => KeysShown(c, cfg, env, dir);
  }

  /** With nothing remembered, a directory is listed as the server has it now. If the listing
      fails, the error is EIO and the tree stays; otherwise the directory's names are exactly
      those the server has, what stays keeps its number, and nothing else in the tree changes. */
  lemma ListsServer(cfg: FsConfig, s: FsState, env: Env, id: nat)
    requires TreeOk(s) && id in s.table.inodes && s.table.inodes[id].IsDir()
    requires Unlisted(s.client, env, s.table.inodes[id]) && env.Valid()
    ensures
      var dir, (s', err) := s.table.inodes[id], Children(s, cfg, env, id);
      if Outage(s.client.server, env, dir) then err == Some(EIO) && s'.table == s.table
      else
        && err == None
        && (forall name :: name in ChildNames(s'.table, id) <==> Has(s.client.server, env, dir, name))
        && Reconciled(s.table, s'.table, id, ChildNames(s'.table, id))
  {
    var dir := s.table.inodes[id];
    assert NodeLinked(s.table, id);
    ListsShown(s.client, cfg.client, env, dir);
    EnsureReconciles(s, cfg, env, dir);
  }

  /** And a lookup in it finds a name exactly if the server has it. */
  lemma LooksUpServer(cfg: FsConfig, s: FsState, env: Env, id: nat, name: string)
    requires TreeOk(s) && id in s.table.inodes && s.table.inodes[id].IsDir()
    requires Unlisted(s.client, env, s.table.inodes[id]) && env.Valid()
    ensures
      var dir, (s', r) := s.table.inodes[id], Lookup(s, cfg, env, id, name);
      && s' == Children(s, cfg, env, id).0
      && (if Outage(s.client.server, env, dir) then r == Err(EIO)
          else if !Has(s.client.server, env, dir, name) then r == Err(ENOENT)
          else r.Ok? && r.value.name == name && r.value.parent == id
               && r.value.id in s'.table.inodes && s'.table.inodes[r.value.id] == r.value)
  {
    ListsServer(cfg, s, env, id);
    OnlyRefreshes(s, cfg, env, id, name);
    LookupKeepsTree(s, cfg, env, id, name);
    var s' := Lookup(s, cfg, env, id, name).0;
    if name in ChildNames(s'.table, id) {
      assert EntryLinked(s'.table, id, name);
      assert NodeLinked(s'.table, s'.table.index[id][name]);
    }
  }

  /** What a node says that the listing of dir brings in: where it lies, what it stands for, and
      since when it has been there. */
  ghost predicate Says(server: Server, env: Env, dir: Inode, n: Inode) {
    match dir.kind
    case NodeRoot => n == Inode(n.id, n.name, NodeNamespace, dir.id, n.name, "", "", "", "", "", env.now)
    case NodeNamespace =>
      && n == Inode(n.id, n.name, NodeResourceType, dir.id, dir.ns, n.name, "", "", n.group, n.version, env.now)
      && n.name in Discovered(Groups(server, env))
      && n.group == Discovered(Groups(server, env))[n.name].group
      && n.version == Discovered(Groups(server, env))[n.name].version
    case NodeResourceType =>
      var ref := Ref(Gvr(dir.group, dir.version, dir.res), dir.ns, n.name);
      && ref in server.objects
      && n == Inode(n.id, n.name, NodeObject, dir.id, dir.ns, dir.res, n.name, "", dir.group, dir.version,
                    server.objects[ref].created)
    case NodeObject =>
      var isData := n.name == "data";
      n == Inode(n.id, n.name, if isData then NodeDataDir else NodeFile, dir.id, dir.ns, dir.res, dir.obj,
                 if isData then "" else n.name, dir.group, dir.version, dir.created)
    case NodeDataDir =>
      n == Inode(n.id, n.name, NodeDataFile, dir.id, dir.ns, dir.res, dir.obj, n.name, dir.group, dir.version,
          dir.created)
    case _ => false
  }

  lemma ProtoSays(c: ClientSpec.State, cfg: Config, env: Env, dir: Inode, i: nat)
    requires dir.IsDir() && Unlisted(c, env, dir) && env.Valid()
    requires ListDir(c, cfg, env, dir).1.Ok? && i < |ListDir(c, cfg, env, dir).1.value|
    ensures forall id :: Says(c.server, env, dir, ListDir(c, cfg, env, dir).1.value[i].(id := id, parent := dir.id))
  {
    if dir.kind == NodeResourceType {
      ItemsAre(c.server, env, Gvr(dir.group, dir.version, dir.res), dir.ns);
    } else if dir.kind == NodeNamespace {
      var m := Discovered(Groups(c.server, env));
      ProtoAt(dir, env, m, i);
      OrderedIn(env, m.Keys, i);
      TypeSays(c.server, env, dir, ListDir(c, cfg, env, dir).1.value[i], env.order(m.Keys)[i]);
    } else if dir.kind == NodeObject {
      assert "yaml" != "data" && "json" != "data" && "describe" != "data" && "logs" != "data";
    }
  }

  lemma TypeSays(server: Server, env: Env, dir: Inode, proto: Inode, n: string)
    requires dir.kind == NodeNamespace && n in Discovered(Groups(server, env))
    requires proto == ResourceTypeProto(dir, n, Discovered(Groups(server, env))[n], env.now)
    ensures forall id :: Says(server, env, dir, proto.(id := id, parent := dir.id))
  {
  }

  lemma OrderedIn(env: Env, keys: set<string>, i: nat)
    requires env.Valid() && i < |env.order(keys)|
    ensures env.order(keys)[i] in keys
  {
    assert env.order(keys)[i] in env.order(keys);
  }

  /** The nodes that a listing brings in say what the server says. */
  lemma NewNodesSay(cfg: FsConfig, s: FsState, env: Env, id: nat, x: nat)
    requires TreeOk(s) && id in s.table.inodes && s.table.inodes[id].IsDir()
    requires Unlisted(s.client, env, s.table.inodes[id]) && env.Valid()
    requires x in Children(s, cfg, env, id).0.table.inodes && x !in s.table.inodes
    ensures Says(s.client.server, env, s.table.inodes[id], Children(s, cfg, env, id).0.table.inodes[x])
  {
    var dir := s.table.inodes[id];
    assert NodeLinked(s.table, id);
    var r := ListDir(s.client, cfg.client, env, dir).1;
    if r.Ok? {
      NewNodesAsListed(s.table, id, r.value, x);
      var i :| 0 <= i < |r.value| && Reconcile(s.table, id, r.value).inodes[x] == r.value[i].(id := x, parent := id);
      ProtoSays(s.client, cfg.client, env, dir, i);
    }
  }
}
