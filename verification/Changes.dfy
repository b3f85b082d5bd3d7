/** What a change leaves behind, in the server, the caches and the tree. */
module Changes {
  import opened Prelude
  import opened Api
  import opened Caching
  import opened Keys
  import opened ClientSpec
  import opened TableSpec
  import opened FsSpec
  import opened Served
  import opened Runs
  import opened Naming
  import opened Reconciliation
  import opened Paths
  import opened PathSpec
  import opened Authority
  import opened Listings

  // ---- Removing ----

  /** The object behind a directory can be deleted. */
  predicate Deletable(cfg: FsConfig, server: Server, env: Env, child: Inode) {
    cfg.verbs.delete && child.kind == NodeObject && RefOf(child) in server.objects
        && !env.fails(DeleteCall(RefOf(child)))
  }

  /** Just the subtree of child is gone from the tree. */
  ghost predicate LosesSubtree(t: Table, t': Table, child: nat) {
    forall x :: (x in t'.inodes <==> x in t.inodes && !Above(t, child, x))
        && (x in t'.inodes ==> t'.inodes[x] == t.inodes[x])
  }

  lemma DeleteDecides(cfg: FsConfig, c: ClientSpec.State, env: Env, child: Inode)
    ensures
      var (c', err) := DeleteBehind(c, cfg, env, child);
      if Deletable(cfg, c.server, env, child) then
        err == None && c'.server == c.server.(objects := c.server.objects - {RefOf(child)}, revision :=
            c.server.revision + 1)
      else
        c' == c && err == Some(if cfg.verbs.delete && child.kind == NodeObject then EIO else EPERM)
  {
    assert child.kind == NodeObject ==> InfoFor(child).GVR() == RefOf(child).gvr;
  }

  /** Removing a directory succeeds exactly if it stands for an object that can be deleted; the
      server then loses that object and nothing else, and the tree just the directory with all
      below it. Otherwise nothing changes. */
  lemma RemoveDirDecides(cfg: FsConfig, s: FsState, env: Env, p: nat, name: string)
    requires Good(s.table) && LookupChild(s.table, p, name).Some?
    ensures
      var child, (s', err) := LookupChild(s.table, p, name).value, Remove(s, cfg, env, p, name, true);
      if Deletable(cfg, s.client.server, env, child) then
        && err == None
        && s'.client.server == s.client.server.(objects := s.client.server.objects - {RefOf(child)},
                                                revision := s.client.server.revision + 1)
        && LosesSubtree(s.table, s'.table, child.id)
        && s' == s.(client := s'.client, table := s'.table)
      else
        s' == s && err == Some(if cfg.verbs.delete && child.kind == NodeObject then EIO else EPERM)
  {
    var child := LookupChild(s.table, p, name).value;
    DeleteDecides(cfg, s.client, env, child);
    Loses(s.table, p, name);
    RemovesBehind(cfg, s, env, p, name, child);
  }

  lemma RemovesBehind(cfg: FsConfig, s: FsState, env: Env, p: nat, name: string, child: Inode)
    requires LookupChild(s.table, p, name) == Some(child)
    ensures
      var (s', err), (c, failed) := Remove(s, cfg, env, p, name, true), DeleteBehind(s.client, cfg, env, child);
      && err == failed
      && s' == s.(client := c, table := if failed.None? then RemoveChild(s.table, p, name).0 else s.table)
  {
  }

  /** Removing a file never touches the server: it leaves the tree if it lies right below a
      type. */
  lemma RemoveFileDecides(cfg: FsConfig, s: FsState, env: Env, p: nat, name: string)
    requires Good(s.table) && LookupChild(s.table, p, name).Some?
    ensures
      var child, (s', err) := LookupChild(s.table, p, name).value, Remove(s, cfg, env, p, name, false);
      if p in s.table.inodes && s.table.inodes[p].kind == NodeResourceType then
        err == None && s' == s.(table := s'.table) && LosesSubtree(s.table, s'.table, child.id)
      else s' == s && err == Some(EPERM)
  {
    Loses(s.table, p, name);
    RemovesFile(cfg, s, env, p, name);
  }

  lemma RemovesFile(cfg: FsConfig, s: FsState, env: Env, p: nat, name: string)
    requires LookupChild(s.table, p, name).Some?
    ensures Remove(s, cfg, env, p, name, false) ==
      if p in s.table.inodes && s.table.inodes[p].kind == NodeResourceType
      then (s.(table := RemoveChild(s.table, p, name).0), None) else (s, Some(EPERM))
  {
  }

  lemma Loses(t: Table, p: nat, name: string)
    requires Good(t) && LookupChild(t, p, name).Some?
    ensures LosesSubtree(t, RemoveChild(t, p, name).0, LookupChild(t, p, name).value.id)
  {
    assert NodeLinked(t, t.index[p][name]);
    forall x
      ensures
        var t' := RemoveChild(t, p, name).0;
        (x in t'.inodes <==> x in t.inodes && !Above(t, t.index[p][name], x))
            && (x in t'.inodes ==> t'.inodes[x] == t.inodes[x])
    {
      DropExact(t, p, {name}, x);
    }
  }

  lemma NothingToRemove(cfg: FsConfig, s: FsState, env: Env, p: nat, name: string, isDir: bool)
    requires LookupChild(s.table, p, name).None?
    ensures Remove(s, cfg, env, p, name, isDir) == (s, Some(ENOENT))
  {
  }

  // ---- Forgetting ----

  /** The client remembers neither a file of this object nor the listing it is in. */
  ghost predicate Forgotten(c: ClientSpec.State, ns: string, res: string, obj: string) {
    && (forall n: Inode, env :: n.ns == ns && n.res == res && n.obj == obj ==> !ClientHas(c, env, n))
    && (forall d: Inode, env :: d.kind == NodeResourceType && d.ns == ns && d.res == res ==> Unlisted(c, env, d))
    && (forall d: Inode, env :: d.kind == NodeDataDir && d.ns == ns && d.res == res && d.obj == obj ==>
        Unlisted(c, env, d))
  }

  lemma InvalidatedForgets(c: ClientSpec.State, ns: string, res: string, obj: string)
    ensures Forgotten(c.(cache := Invalidated(c.cache, ns, res, obj)), ns, res, obj)
  {
  }

  /** A removal, or a flush of a data file, is forgotten by the client's cache: every file of
      the object, whichever way it renders it, and its listing are read afresh. */
  lemma RemoveForgets(cfg: FsConfig, s: FsState, env: Env, p: nat, name: string)
    requires LookupChild(s.table, p, name).Some?
    requires Deletable(cfg, s.client.server, env, LookupChild(s.table, p, name).value)
    ensures
      var child := LookupChild(s.table, p, name).value;
      Forgotten(Remove(s, cfg, env, p, name, true).0.client, child.ns, child.res, child.obj)
  {
    var child := LookupChild(s.table, p, name).value;
    var c := Remove(s, cfg, env, p, name, true).0.client;
    InvalidatedForgets(s.client.(server := c.server), child.ns, child.res, child.obj);
  }

  lemma FlushForgets(cfg: FsConfig, s: FsState, env: Env, h: nat)
    requires Dirty(s, h) && !s.files[h].pending && FlushHandle(s, cfg, env, h).1.None?
    ensures
      var node, c := s.files[h].node, FlushHandle(s, cfg, env, h).0.client;
      && (node.kind == NodeDataFile ==> Forgotten(c, node.ns, node.res, node.obj))
      && (node.kind == NodeFile ==>
            cfg.client.lib.parse(s.files[h].buf).Some?
            && Forgotten(c, node.ns, node.res, cfg.client.lib.parse(s.files[h].buf).value.name))
  {
    var node, c := s.files[h].node, FlushHandle(s, cfg, env, h).0.client;
    var obj := if node.kind == NodeFile then cfg.client.lib.parse(s.files[h].buf).value.name else node.obj;
    InvalidatedForgets(s.client.(server := c.server), node.ns, node.res, obj);
  }

  // ---- Through the adapter ----

  lemma PathParts(path: seq<string>)
    ensures path != [] ==> DirName(path) + [BaseName(path)] == path
    ensures DirName([]) == [] && BaseName([]) == "."
  {
  }

  /** Removing a path resolves its directory and then the path. What kind of node the path leads
      to decides whether an object is deleted: only for a directory, and only if the entry of
      that name then stands for an object that can be; for a file never. */
  lemma RemoveAtDecides(cfg: FsConfig, s: FsState, env: Env, path: seq<string>)
    requires TreeOk(s)
    ensures
      var (s1, dir) := Resolve(s, cfg, env, DirName(path));
      var (s2, node) := Resolve(s1, cfg, env, path);
      var (s', err) := RemoveAt(s, cfg, env, path);
      if dir.Err? then err == Some(dir.error) && s' == s1
      else if node.Err? then err == Some(node.error) && s' == s2
      else
        && dir.value.Some? && node.value.Some?
        && var child := LookupChild(s2.table, dir.value.value.id, BaseName(path));
        && (child.None? ==> err == Some(ENOENT) && s' == s2)
        && (child.Some? && node.value.value.kind != NodeFile && node.value.value.kind != NodeDataFile ==>
              && (err.None? <==> Deletable(cfg, s2.client.server, env, child.value))
              && s'.client.server.objects == s2.client.server.objects - if err.None? then {RefOf(child.value)} else {})
        && (child.Some? && (node.value.value.kind == NodeFile || node.value.value.kind == NodeDataFile) ==>
              s'.client.server == s2.client.server)
  {
    var (s1, dir) := Resolve(s, cfg, env, DirName(path));
    DescendLive(s, cfg, env, ROOT, DirName(path));
    DescendLive(s1, cfg, env, ROOT, path);
    var (s2, node) := Resolve(s1, cfg, env, path);
    if dir.Ok? && node.Ok? {
      EntryRemoved(cfg, s2, env, dir.value.value.id, BaseName(path), node.value.value.IsDir());
    }
  }

  lemma EntryRemoved(cfg: FsConfig, s: FsState, env: Env, p: nat, name: string, isDir: bool)
    requires Good(s.table)
    ensures
      var child, (s', err) := LookupChild(s.table, p, name), Remove(s, cfg, env, p, name, isDir);
      && (child.None? ==> err == Some(ENOENT) && s' == s)
      && (child.Some? && isDir ==>
            && (err.None? <==> Deletable(cfg, s.client.server, env, child.value))
            && s'.client.server.objects == s.client.server.objects - if err.None? then {RefOf(child.value)} else {})
      && (child.Some? && !isDir ==> s'.client.server == s.client.server)
  {
    if LookupChild(s.table, p, name).Some? {
      if isDir {
        RemoveDirDecides(cfg, s, env, p, name);
      } else {
        RemoveFileDecides(cfg, s, env, p, name);
      }
    }
  }

  /** Opening a path gives a handle for a file, and none for a directory. */
  lemma OpenAtDecides(cfg: FsConfig, s: FsState, env: Env, path: seq<string>)
    requires TreeOk(s)
    ensures
      var (s1, node), (s', r) := Resolve(s, cfg, env, path), OpenAt(s, cfg, env, path);
      if node.Err? then r == Err(node.error) && s' == s1
      else
        && node.value.Some?
        && var n := node.value.value;
        if n.kind != NodeFile && n.kind != NodeDataFile then r == Ok((n, None)) && s' == s1
        else r == Ok((n, Some(s1.nextHandle))) && s' == OpenFile(s1, cfg, env, n.id).0
  {
    DescendLive(s, cfg, env, ROOT, path);
    var (s1, id) := Descend(s, cfg, env, ROOT, path);
    if id.Ok? {
      assert NodeLinked(s1.table, id.value);
    }
  }

  /** Creating a path creates its last name in the directory that the rest resolves to. */
  lemma CreateAtDecides(cfg: FsConfig, s: FsState, env: Env, dir: seq<string>, name: string)
    requires TreeOk(s)
    ensures
      var (s1, d) := Resolve(s, cfg, env, dir);
      CreateAt(s, cfg, env, dir + [name]) ==
        if d.Err? then (s1, Err(d.error))
        else if d.value.None? then (s1, Err(ENOENT))
        else CreateAndOpen(s1, cfg, env, d.value.value.id, name)
  {
    PathParts(dir + [name]);
  }

  // ---- What is removed stays away ----

  /** The object is not on the server, and no listing that the client remembers has its name. */
  ghost predicate Away(c: ClientSpec.State, ref: Ref) {
    && ref !in c.server.objects
    && (Key(View.Listing(ref.ns, ref.gvr.resource)) in c.cache ==>
          ListsOthers(c.cache[Key(View.Listing(ref.ns, ref.gvr.resource))].value, ref.name))
  }

  predicate ListsOthers(v: CacheValue, name: string) {
    v.ObjectList? && forall o :: o in v.objects ==> o.name != name
  }

  /** Nobody creates the object, and nobody lists a type of this name under another group or
      version, which would be remembered under the same key. */
  ghost predicate LeftAway(s: FsState, e: Event, ref: Ref) {
    && EventNamed(AnyVersion(), s, e)
    && (e.op.ServerChange? ==> ref !in e.op.server.objects)
    && (Asked(s, e.env, e.op).Some? ==> ListsOwn(Asked(s, e.env, e.op).value, ref))
  }

  ghost predicate ListsOwn(q: Query, ref: Ref) {
    q.view == View.Listing(ref.ns, ref.gvr.resource) ==> q.ri.GVR() == ref.gvr
  }

  lemma AskKeepsAway(c: ClientSpec.State, cfg: Config, env: Env, q: Query, ref: Ref)
    requires Away(c, ref) && WellNamed(q.view) && WellNamed(View.Listing(ref.ns, ref.gvr.resource)) && env.Valid()
    requires ListsOwn(q, ref)
    ensures Away(Ask(c, cfg, env, q).0, ref)
  {
    KeyInjective(q.view, View.Listing(ref.ns, ref.gvr.resource));
    if q.view == View.Listing(ref.ns, ref.gvr.resource) && !env.fails(ListCall(ref.gvr, ref.ns)) {
      ItemsAre(c.server, env, ref.gvr, ref.ns);
    }
  }

  lemma StepKeepsAway(cfg: FsConfig, s: FsState, e: Event, ref: Ref)
    requires Numbered(s.table) && TableNamed(AnyVersion(), s.table) && WellNamed(View.Listing(ref.ns, ref.gvr.resource))
    requires Away(s.client, ref) && LeftAway(s, e, ref) && ref !in Step(cfg, s, e.env, e.op).client.server.objects
    ensures Away(Step(cfg, s, e.env, e.op).client, ref)
  {
    CacheAfter(cfg, s, e);
    AskedWellNamed(s, e.env, e.op);
    if Asked(s, e.env, e.op).Some? {
      AskKeepsAway(s.client, cfg.client, e.env, Asked(s, e.env, e.op).value, ref);
    }
  }

  lemma StaysOff(cfg: FsConfig, s: FsState, e: Event, ref: Ref)
    requires Inv(s) && ref !in s.client.server.objects && (e.op.ServerChange? ==> ref !in e.op.server.objects)
    ensures ref !in Step(cfg, s, e.env, e.op).client.server.objects
  {
    if !e.op.ServerChange? {
      StepWithin(cfg, s, e);
    }
  }

  ghost predicate LeftAwayAlong(cfg: FsConfig, s: FsState, run: seq<Event>, ref: Ref)
    decreases |run|
  {
    run == [] ||
    (LeftAway(s, run[0], ref) && LeftAwayAlong(cfg, Step(cfg, s, run[0].env, run[0].op), run[1..], ref))
  }

  lemma {:induction false} RunKeepsAway(cfg: FsConfig, s: FsState, run: seq<Event>, ref: Ref)
    requires Inv(s) && Named(AnyVersion(), s) && WellNamed(View.Listing(ref.ns, ref.gvr.resource))
    requires Away(s.client, ref) && LeftAwayAlong(cfg, s, run, ref)
    ensures Away(Run(cfg, s, run).client, ref) && Inv(Run(cfg, s, run))
    decreases |run|
  {
    if run != [] {
      OwnNumbers(s.table);
      StaysOff(cfg, s, run[0], ref);
      StepKeepsAway(cfg, s, run[0], ref);
      StepKeepsInv(cfg, s, run[0].env, run[0].op);
      StepNamed(AnyVersion(), cfg, s, run[0]);
      RunKeepsAway(cfg, Step(cfg, s, run[0].env, run[0].op), run[1..], ref);
    }
  }

  /** While an object is away, its type's listing does not have it, from the cache or from the
      server, and looking it up finds nothing. */
  lemma NotFound(cfg: FsConfig, s: FsState, env: Env, id: nat, ref: Ref)
    requires TreeOk(s) && Away(s.client, ref) && env.Valid()
    requires id in s.table.inodes && s.table.inodes[id].kind == NodeResourceType
    requires
      var d := s.table.inodes[id];
      d.ns == ref.ns && Gvr(d.group, d.version, d.res) == ref.gvr
    ensures Lookup(s, cfg, env, id, ref.name).1.Err?
    ensures
      var (s', err) := Children(s, cfg, env, id);
      err.None? ==> ref.name !in ChildNames(s'.table, id)
  {
    var d := s.table.inodes[id];
    assert NodeLinked(s.table, id);
    EnsureReconciles(s, cfg, env, d);
    NotListed(s.client, cfg.client, env, d, ref);
    OnlyRefreshes(s, cfg, env, id, ref.name);
    LookupLooks(cfg, env, s, id, ref.name);
  }

  lemma NotListed(c: ClientSpec.State, cfg: Config, env: Env, d: Inode, ref: Ref)
    requires Away(c, ref) && env.Valid() && d.kind == NodeResourceType
    requires d.ns == ref.ns && Gvr(d.group, d.version, d.res) == ref.gvr
    ensures ListDir(c, cfg, env, d).1.Ok? ==> ref.name !in NamesOf(ListDir(c, cfg, env, d).1.value)
  {
    var key := Key(View.Listing(d.ns, d.res));
    if Hit(c.cache, key, env.now).Some? {
      ProtoNames(d, env, c.cache[key].value);
    } else {
      ObjectsShown(c, cfg, env, d);
    }
  }

  lemma RemovedAway(c: ClientSpec.State, child: Inode)
    requires RefOf(child) !in c.server.objects && Forgotten(c, child.ns, child.res, child.obj)
    ensures Away(c, RefOf(child))
  {
    var key := Key(View.Listing(child.ns, child.res));
    var last := if key in c.cache then c.cache[key].expiresAt else 0;
    var env := Env(last, (call: Call) => false, (lists: seq<ApiList>) => lists, (names: set<string>) => []);
    assert Unlisted(c, env, child.(kind := NodeResourceType));
  }

  /** After a successful removal of an object's directory, and any run in which nobody creates
      the object again, a lookup of its name in its type fails. */
  lemma RemovedStaysAway(cfg: FsConfig, s: FsState, env: Env, p: nat, name: string, run: seq<Event>, env': Env, id: nat)
    requires Inv(s) && Named(AnyVersion(), s) && LookupChild(s.table, p, name).Some?
    requires Deletable(cfg, s.client.server, env, LookupChild(s.table, p, name).value)
    requires
      var ref, s1 := RefOf(LookupChild(s.table, p, name).value), Remove(s, cfg, env, p, name, true).0;
      && LeftAwayAlong(cfg, s1, run, ref) && env'.Valid()
      && id in Run(cfg, s1, run).table.inodes
      && var d := Run(cfg, s1, run).table.inodes[id];
      && d.kind == NodeResourceType && d.ns == ref.ns && Gvr(d.group, d.version, d.res) == ref.gvr
    ensures
      var s1 := Remove(s, cfg, env, p, name, true).0;
      Lookup(Run(cfg, s1, run), cfg, env', id, LookupChild(s.table, p, name).value.obj).1.Err?
  {
    var child, s1 := LookupChild(s.table, p, name).value, Remove(s, cfg, env, p, name, true).0;
    RemoveDirDecides(cfg, s, env, p, name);
    RemoveForgets(cfg, s, env, p, name);
    assert NodeLinked(s.table, s.table.index[p][name]) && NodeNamed(AnyVersion(), child);
    RemovedAway(s1.client, child);
    RemoveKeepsInv(s, cfg, env, p, name, true);
    RemoveNamed(AnyVersion(), cfg, s, env, p, name, true);
    RunKeepsAway(cfg, s1, run, RefOf(child));
    NotFound(cfg, Run(cfg, s1, run), env', id, RefOf(child));
  }
}
