/** Runs of the filesystem: any sequence of operations, with anything happening at the
    server in between, and what every run keeps. */
module Runs {
  import opened Prelude
  import opened Api
  import opened Keys
  import opened ClientSpec
  import opened TableSpec
  import opened FsSpec

  datatype Op =
    | DoLookup(p: nat, name: string)
    | DoChildren(id: nat)
    | DoGetAttr(id: nat)
    | DoTruncate(id: nat, size: nat)
    | DoRemove(p: nat, name: string, isDir: bool)
    | DoCreate(p: nat, name: string)
    | DoOpen(id: nat)
    | DoRead(h: nat, offset: nat, n: nat)
    | DoWrite(h: nat, offset: nat, data: Bytes)
    | DoFlush(h: nat)
    | DoRelease(h: nat)
    | ServerChange(server: Server)    // by somebody else

  function Step(cfg: FsConfig, s: FsState, env: Env, op: Op): FsState {
    match op
    case DoLookup(p, name) => Lookup(s, cfg, env, p, name).0
    case DoChildren(id) => Children(s, cfg, env, id).0
    case DoGetAttr(id) => GetAttr(s, cfg, env, id).0
    case DoTruncate(id, size) => Truncate(s, cfg, id, size).0
    case DoRemove(p, name, isDir) => Remove(s, cfg, env, p, name, isDir).0
    case DoCreate(p, name) => CreateAndOpen(s, cfg, env, p, name).0
    case DoOpen(id) => OpenFile(s, cfg, env, id).0
    case DoRead(_, _, _) => s
    case DoWrite(h, offset, data) => WriteHandle(s, cfg, h, offset, data).0
    case DoFlush(h) => FlushHandle(s, cfg, env, h).0
    case DoRelease(h) => ReleaseHandle(s, h)
    case ServerChange(server) => s.(client := s.client.(server := server))
  }

  datatype Event = Event(env: Env, op: Op)

  function Run(cfg: FsConfig, s: FsState, run: seq<Event>): FsState
    decreases |run|
  {
    if run == [] then s else Run(cfg, Step(cfg, s, run[0].env, run[0].op), run[1..])
  }

  /** The question an operation puts to the client, if it puts one. */
  function Asked(s: FsState, env: Env, op: Op): Option<Query> {
    match op
    case DoLookup(p, _) => ListingAsk(s, p)
    case DoChildren(id) => ListingAsk(s, id)
    case DoGetAttr(id) => ContentAsk(s, env, id)
    case DoOpen(id) => ContentAsk(s, env, id)
    case _ => None
  }

  function ListingAsk(s: FsState, id: nat): Option<Query> {
    if id in s.table.inodes then DirQuery(s.table.inodes[id]) else None
  }

  function ContentAsk(s: FsState, env: Env, id: nat): Option<Query> {
    if id !in s.table.inodes || Fresh(s, id, env.now) then None
    else match NodeQuery(s.table.inodes[id]) case Ok(q) => Some(q) case Err(_) => None
  }

  predicate Dirty(s: FsState, h: nat) { h in s.files && s.files[h].dirty }

  /** This event is a write to h that is accepted. */
  predicate Writes(cfg: FsConfig, s: FsState, e: Event, h: nat) {
    e.op.DoWrite? && e.op.h == h && WriteHandle(s, cfg, h, e.op.offset, e.op.data).1.Ok?
  }

  function Start(server: Server, now: int): FsState {
    FsState(ClientSpec.State(map[], server), NewTable(now), 1, map[], map[])
  }

  // ---- The typed tree ----

  /** What may hang under what, and which coordinates a node takes from its directory. */
  ghost predicate EdgeOk(d: Inode, n: Inode) {
    match d.kind
    case NodeRoot =>
      n.kind == NodeNamespace && n.ns == n.name && n.res == n.obj == n.file == n.group == n.version == ""
    case NodeNamespace =>
      n.kind == NodeResourceType && n.ns == d.ns && n.res == n.name && n.obj == n.file == ""
    case NodeResourceType =>
      && n.ns == d.ns && n.res == d.res && n.group == d.group && n.version == d.version
      && (|| (n.kind == NodeObject && n.obj == n.name && n.file == "")
          || (n.kind == NodeFile && n.obj == "" && n.file == n.name && CreatableName(n.name)))
    case NodeObject =>
      && n.ns == d.ns && n.res == d.res && n.group == d.group && n.version == d.version && n.obj == d.obj
      && (|| (n.kind == NodeFile && n.file == n.name && n.name in ActionFiles(n.res))
          || (n.kind == NodeDataDir && n.file == "" && n.name == "data" && HasDataDir(n.res)))
    case NodeDataDir =>
      && n.ns == d.ns && n.res == d.res && n.group == d.group && n.version == d.version && n.obj == d.obj
      && n.kind == NodeDataFile && n.file == n.name
    case _ => false
  }

  ghost predicate TypedTree(t: Table) {
    forall x {:trigger NodeTyped(t, x)} :: x in t.inodes && x != ROOT ==> NodeTyped(t, x)
  }

  ghost predicate NodeTyped(t: Table, x: nat)
    requires x in t.inodes
  {
    t.inodes[x].parent in t.inodes && EdgeOk(t.inodes[t.inodes[x].parent], t.inodes[x])
  }

  /** Later tables keep the nodes they have: an ID below the old counter names the node it
      named before, or none. */
  ghost predicate Later(t: Table, t': Table) {
    && t.next <= t'.next
    && forall x :: x in t'.inodes && x < t.next ==> x in t.inodes && t'.inodes[x] == t.inodes[x]
  }

  // ---- Handles ----

  ghost predicate HandleOk(t: Table, f: Handle) {
    && f.node.id < t.next
    && (f.node.id in t.inodes ==> t.inodes[f.node.id] == f.node)
    && (f.dirty ==> Writable(f.node) && !f.pending)
    && (f.pending ==> !Writable(f.node))
  }

  ghost predicate TreeOk(s: FsState) {
    Typed(s.client.cache) && Good(s.table) && TypedTree(s.table)
  }

  ghost predicate Inv(s: FsState) {
    && TreeOk(s)
    && s.nextHandle > 0
    && (forall h :: h in s.files ==> 0 < h < s.nextHandle && HandleOk(s.table, s.files[h]))
    && (forall id :: id in s.content ==> id < s.table.next)
  }

  lemma StartInv(server: Server, now: int)
    ensures Inv(Start(server, now))
  {
  }

  // ---- What listing and removing do to the tree ----

  /** The edge rule does not look at the numbers AddChild hands out. */
  lemma RenumberedOk(d: Inode, n: Inode, id: nat, parent: nat)
    requires EdgeOk(d, n)
    ensures EdgeOk(d, n.(id := id, parent := parent))
  {
  }

  lemma AddTyped(t: Table, p: nat, proto: Inode)
    requires Good(t) && TypedTree(t) && p in t.index && EdgeOk(t.inodes[p], proto)
    ensures
      var t' := AddChild(t, p, proto).0;
      Good(t') && TypedTree(t') && Later(t, t') && p in t'.index && t'.inodes[p] == t.inodes[p]
  {
    assert NodeLinked(t, p);
    AddLinked(t, p, proto);
    var t' := AddChild(t, p, proto).0;
    forall x | x in t.inodes ensures x < t.next { assert NodeLinked(t, x); }
    if t' != t {
      RenumberedOk(t.inodes[p], proto, t.next, p);
      forall x | x in t'.inodes && x != ROOT ensures NodeTyped(t', x) {
        if x != t.next {
          assert NodeTyped(t, x);
        }
      }
    }
  }

  /** The child that AddChild returns is live under its name, and may hang there. */
  lemma AddedChild(t: Table, p: nat, proto: Inode)
    requires Good(t) && TypedTree(t) && p in t.index && EdgeOk(t.inodes[p], proto)
    ensures
      var (t', child) := AddChild(t, p, proto);
      LookupChild(t', p, proto.name) == Some(child) && EdgeOk(t.inodes[p], child)
  {
    if proto.name in t.index[p] {
      assert EntryLinked(t, p, proto.name);
      assert NodeTyped(t, t.index[p][proto.name]);
    } else {
      RenumberedOk(t.inodes[p], proto, t.next, p);
    }
  }

  lemma {:induction false} AddAllTyped(t: Table, p: nat, protos: seq<Inode>)
    requires Good(t) && TypedTree(t) && p in t.index
    requires forall i :: 0 <= i < |protos| ==> EdgeOk(t.inodes[p], protos[i])
    ensures
      var t' := AddAll(t, p, protos);
      Good(t') && TypedTree(t') && Later(t, t') && p in t'.index && t'.inodes[p] == t.inodes[p]
  {
    if protos != [] {
      var front := protos[..|protos| - 1];
      AddAllTyped(t, p, front);
      AddTyped(AddAll(t, p, front), p, protos[|protos| - 1]);
    }
  }

  lemma DropTyped(t: Table, p: nat, drop: set<string>)
    requires Good(t) && TypedTree(t)
    ensures Good(DropNames(t, p, drop)) && TypedTree(DropNames(t, p, drop)) && Later(t, DropNames(t, p, drop))
  {
    DropLinked(t, p, drop);
    var t' := DropNames(t, p, drop);
    forall x | x in t'.inodes && x != ROOT
      ensures NodeTyped(t', x)
    {
      assert NodeLinked(t', x);
      assert NodeTyped(t, x);
    }
  }

  lemma ReconcileTyped(t: Table, p: nat, protos: seq<Inode>)
    requires Good(t) && TypedTree(t) && p in t.index
    requires forall i :: 0 <= i < |protos| ==> EdgeOk(t.inodes[p], protos[i])
    ensures
      var t' := Reconcile(t, p, protos);
      Good(t') && TypedTree(t') && Later(t, t')
  {
    AddAllTyped(t, p, protos);
    var t1 := AddAll(t, p, protos);
    DropTyped(t1, p, ChildNames(t1, p) - NamesOf(protos));
  }

  /** Everything a directory's listing produces may hang under that directory. */
  lemma ListingTyped(c: ClientSpec.State, cfg: Config, env: Env, dir: Inode)
    requires Typed(c.cache) && dir.IsDir()
    ensures Typed(ListDir(c, cfg, env, dir).0.cache) && ListDir(c, cfg, env, dir).0.server == c.server
    ensures ListDir(c, cfg, env, dir).1.Ok? ==>
      forall i :: 0 <= i < |ListDir(c, cfg, env, dir).1.value| ==> EdgeOk(dir, ListDir(c, cfg, env, dir).1.value[i])
  {
    if DirQuery(dir).Some? {
      var q := DirQuery(dir).value;
      AskTyped(c, cfg, env, q);
      if Ask(c, cfg, env, q).1.Ok? {
        AnswerTyped(dir, env, Ask(c, cfg, env, q).1.value);
      }
    } else {
      ActionsTyped(dir);
    }
  }

  lemma AnswerTyped(dir: Inode, env: Env, v: CacheValue)
    requires DirQuery(dir).Some? && Fits(Kind(DirQuery(dir).value.view), v)
    ensures
      var protos := AnswerProtos(dir, env, v);
      forall i :: 0 <= i < |protos| ==> EdgeOk(dir, protos[i])
  {
  }

  lemma ActionsTyped(dir: Inode)
    requires dir.kind == NodeObject
    ensures forall i :: 0 <= i < |ActionProtos(dir)| ==> EdgeOk(dir, ActionProtos(dir)[i])
  {
  }

  lemma RefreshTyped(c: ClientSpec.State, t: Table, cfg: Config, env: Env, dir: Inode)
    requires Typed(c.cache) && Good(t) && TypedTree(t)
    requires dir.id in t.inodes && t.inodes[dir.id] == dir
    ensures
      var (c', t', _) := Refresh(c, t, cfg, env, dir);
      Typed(c'.cache) && c'.server == c.server && Good(t') && TypedTree(t') && Later(t, t')
  {
    if dir.IsDir() {
      ListingTyped(c, cfg, env, dir);
      var (c', r) := ListDir(c, cfg, env, dir);
      if r.Ok? {
        ReconcileTyped(t, dir.id, r.value);
      }
    }
  }

  lemma OnlyRefreshes(s: FsState, cfg: FsConfig, env: Env, p: nat, name: string)
    requires p in s.table.inodes
    ensures Lookup(s, cfg, env, p, name).0 == EnsureChildren(s, cfg, env, s.table.inodes[p]).0
    ensures Children(s, cfg, env, p).0 == EnsureChildren(s, cfg, env, s.table.inodes[p]).0
  {
  }

  lemma LookupKeepsTree(s: FsState, cfg: FsConfig, env: Env, p: nat, name: string)
    requires TreeOk(s)
    ensures
      var (s', r) := Lookup(s, cfg, env, p, name);
      TreeOk(s') && (r.Ok? ==> r.value.id in s'.table.inodes && s'.table.inodes[r.value.id] == r.value)
  {
    if p in s.table.inodes {
      assert NodeLinked(s.table, p);
      RefreshTyped(s.client, s.table, cfg.client, env, s.table.inodes[p]);
      var (s', r) := Lookup(s, cfg, env, p, name);
      if r.Ok? {
        ChildLive(s'.table, p, name);
      }
    }
  }

  lemma CreateKeepsTree(s: FsState, cfg: FsConfig, env: Env, p: nat, name: string)
    requires TreeOk(s)
    ensures TreeOk(CreateAndOpen(s, cfg, env, p, name).0)
  {
    var check := CheckCreate(s.table, cfg, p, name);
    if check.Ok? {
      AddTyped(s.table, p, PendingProto(check.value, name, env.now));
    }
  }

  lemma RemoveKeepsTree(s: FsState, cfg: FsConfig, env: Env, p: nat, name: string, isDir: bool)
    requires TreeOk(s)
    ensures TypedTree(Remove(s, cfg, env, p, name, isDir).0.table)
  {
    DropTyped(s.table, p, {name});
  }

  // ---- Every step keeps the invariant ----

  lemma GetContentTyped(c: ClientSpec.State, cfg: Config, env: Env, node: Inode)
    requires Typed(c.cache)
    ensures Typed(GetContent(c, cfg, env, node).0.cache) && GetContent(c, cfg, env, node).0.server == c.server
  {
    if NodeQuery(node).Ok? {
      AskTyped(c, cfg, env, NodeQuery(node).value);
    }
  }

  lemma FetchKeepsInv(s: FsState, cfg: FsConfig, env: Env, node: Inode)
    requires Inv(s) && node.id < s.table.next
    ensures
      var s' := FetchContent(s, cfg, env, node).0;
      Inv(s') && s'.table == s.table && s'.files == s.files && s'.nextHandle == s.nextHandle
          && s'.client.server == s.client.server
  {
    GetContentTyped(s.client, cfg.client, env, node);
  }

  lemma HandlesLater(s: FsState, t': Table)
    requires Inv(s) && Later(s.table, t')
    ensures forall h :: h in s.files ==> HandleOk(t', s.files[h])
  {
  }

  lemma EnsureKeepsInv(s: FsState, cfg: FsConfig, env: Env, node: Inode)
    requires Inv(s) && node.id in s.table.inodes && s.table.inodes[node.id] == node
    ensures
      var s' := EnsureChildren(s, cfg, env, node).0;
      Inv(s') && Later(s.table, s'.table) && s'.client.server == s.client.server && s'.files == s.files
          && s'.content == s.content
      && s'.nextHandle == s.nextHandle
  {
    RefreshTyped(s.client, s.table, cfg.client, env, node);
    HandlesLater(s, EnsureChildren(s, cfg, env, node).0.table);
  }

  /** A name that CreateAndOpen accepts is longer than "yaml" and "json". */
  lemma PendingNotWritable(d: Inode, n: Inode)
    requires d.kind == NodeResourceType && EdgeOk(d, n)
    ensures !Writable(n)
  {
  }

  lemma CreateKeepsInv(s: FsState, cfg: FsConfig, env: Env, p: nat, name: string)
    requires Inv(s)
    ensures
      var s' := CreateAndOpen(s, cfg, env, p, name).0;
      Inv(s') && Later(s.table, s'.table) && s'.client == s.client && s'.content == s.content
  {
    var check := CheckCreate(s.table, cfg, p, name);
    if check.Ok? {
      var proto := PendingProto(check.value, name, env.now);
      AddTyped(s.table, p, proto);
      AddedChild(s.table, p, proto);
      var (t, child) := AddChild(s.table, p, proto);
      PendingNotWritable(check.value, child);
      HandlesLater(s, t);
      ChildLive(t, p, name);
    }
  }

  lemma ChildLive(t: Table, p: nat, name: string)
    requires Good(t) && LookupChild(t, p, name).Some?
    ensures
      var child := LookupChild(t, p, name).value;
      child.id < t.next && child.id in t.inodes && t.inodes[child.id] == child && child.name == name
          && child.parent == p
  {
    assert EntryLinked(t, p, name);
    assert NodeLinked(t, t.index[p][name]);
  }

  lemma DroppedKeepsInv(s: FsState, c: ClientSpec.State, p: nat, name: string)
    requires Inv(s) && Typed(c.cache)
    ensures
      var s' := s.(client := c, table := RemoveChild(s.table, p, name).0);
      Inv(s') && Later(s.table, s'.table)
  {
    DropTyped(s.table, p, {name});
    HandlesLater(s, RemoveChild(s.table, p, name).0);
  }

  lemma RemoveKeepsInv(s: FsState, cfg: FsConfig, env: Env, p: nat, name: string, isDir: bool)
    requires Inv(s)
    ensures Inv(Remove(s, cfg, env, p, name, isDir).0) && Later(s.table, Remove(s, cfg, env, p, name, isDir).0.table)
  {
    if LookupChild(s.table, p, name).Some? {
      var c := DeleteBehind(s.client, cfg, env, LookupChild(s.table, p, name).value).0;
      DeleteTyped(s.client, cfg, env, LookupChild(s.table, p, name).value);
      DroppedKeepsInv(s, c, p, name);
      DroppedKeepsInv(s, s.client, p, name);
      ClientReplaced(s, c);
      RemoveOutcomes(s, cfg, env, p, name, isDir);
    }
  }

  lemma ClientReplaced(s: FsState, c: ClientSpec.State)
    requires Inv(s) && Typed(c.cache)
    ensures Inv(s.(client := c))
  {
  }

  lemma RemoveOutcomes(s: FsState, cfg: FsConfig, env: Env, p: nat, name: string, isDir: bool)
    requires LookupChild(s.table, p, name).Some?
    ensures
      var s', t := Remove(s, cfg, env, p, name, isDir).0, RemoveChild(s.table, p, name).0;
      var c := DeleteBehind(s.client, cfg, env, LookupChild(s.table, p, name).value).0;
      s' == s || s' == s.(client := c) || s' == s.(table := t) || s' == s.(client := c, table := t)
  {
  }

  lemma DeleteTyped(c: ClientSpec.State, cfg: FsConfig, env: Env, child: Inode)
    requires Typed(c.cache)
    ensures Typed(DeleteBehind(c, cfg, env, child).0.cache)
  {
  }

  lemma SendTyped(c: ClientSpec.State, cfg: FsConfig, env: Env, f: Handle)
    requires Typed(c.cache)
    ensures Typed(Send(c, cfg, env, f).0.cache)
  {
  }

  lemma FlushKeepsInv(s: FsState, cfg: FsConfig, env: Env, h: nat)
    requires Inv(s)
    ensures Inv(FlushHandle(s, cfg, env, h).0) && FlushHandle(s, cfg, env, h).0.table == s.table
  {
    if h in s.files {
      SendTyped(s.client, cfg, env, s.files[h]);
    }
  }

  lemma TruncateKeepsInv(s: FsState, cfg: FsConfig, id: nat, size: nat)
    requires Inv(s)
    ensures Inv(Truncate(s, cfg, id, size).0) && Truncate(s, cfg, id, size).0.table == s.table
  {
  }

  lemma WriteKeepsInv(s: FsState, cfg: FsConfig, h: nat, offset: nat, data: Bytes)
    requires Inv(s)
    ensures Inv(WriteHandle(s, cfg, h, offset, data).0) && WriteHandle(s, cfg, h, offset, data).0.table == s.table
  {
  }

  lemma ReleaseKeepsInv(s: FsState, h: nat)
    requires Inv(s)
    ensures Inv(ReleaseHandle(s, h)) && ReleaseHandle(s, h).table == s.table
  {
  }

  lemma LookupKeepsInv(s: FsState, cfg: FsConfig, env: Env, p: nat, name: string)
    requires Inv(s)
    ensures Inv(Lookup(s, cfg, env, p, name).0) && Later(s.table, Lookup(s, cfg, env, p, name).0.table)
    ensures Inv(Children(s, cfg, env, p).0) && Later(s.table, Children(s, cfg, env, p).0.table)
  {
    if p in s.table.inodes {
      assert NodeLinked(s.table, p);
      EnsureKeepsInv(s, cfg, env, s.table.inodes[p]);
    }
  }

  lemma GetAttrKeepsInv(s: FsState, cfg: FsConfig, env: Env, id: nat)
    requires Inv(s)
    ensures Inv(GetAttr(s, cfg, env, id).0) && GetAttr(s, cfg, env, id).0.table == s.table
  {
    if id in s.table.inodes {
      assert NodeLinked(s.table, id);
      FetchKeepsInv(s, cfg, env, s.table.inodes[id]);
    }
  }

  lemma OpenKeepsInv(s: FsState, cfg: FsConfig, env: Env, id: nat)
    requires Inv(s)
    ensures Inv(OpenFile(s, cfg, env, id).0) && OpenFile(s, cfg, env, id).0.table == s.table
  {
    if id in s.table.inodes {
      assert NodeLinked(s.table, id);
      FetchKeepsInv(s.(nextHandle := s.nextHandle + 1), cfg, env, s.table.inodes[id]);
    }
  }

  lemma StepKeepsInv(cfg: FsConfig, s: FsState, env: Env, op: Op)
    requires Inv(s)
    ensures Inv(Step(cfg, s, env, op))
    ensures Later(s.table, Step(cfg, s, env, op).table)
  {
    if op.DoLookup? || op.DoChildren? {
      ListStepKeepsInv(cfg, s, env, op);
    } else if op.DoRemove? {
      RemoveStepKeepsInv(cfg, s, env, op.p, op.name, op.isDir);
    } else if op.DoCreate? {
      CreateStepKeepsInv(cfg, s, env, op.p, op.name);
    } else if op.DoGetAttr? || op.DoOpen? || op.DoFlush? {
      CallStepKeepsInv(cfg, s, env, op);
    } else {
      LocalStepKeepsInv(cfg, s, env, op);
    }
  }

  lemma ListStepKeepsInv(cfg: FsConfig, s: FsState, env: Env, op: Op)
    requires Inv(s) && (op.DoLookup? || op.DoChildren?)
    ensures Inv(Step(cfg, s, env, op)) && Later(s.table, Step(cfg, s, env, op).table)
  {
    match op
    case DoLookup(p, name) => LookupKeepsInv(s, cfg, env, p, name);
    case DoChildren(id) => LookupKeepsInv(s, cfg, env, id, "");
  }

  lemma RemoveStepKeepsInv(cfg: FsConfig, s: FsState, env: Env, p: nat, name: string, isDir: bool)
    requires Inv(s)
    ensures Inv(Step(cfg, s, env, DoRemove(p, name, isDir)))
    ensures Later(s.table, Step(cfg, s, env, DoRemove(p, name, isDir)).table)
  {
    RemoveKeepsInv(s, cfg, env, p, name, isDir);
  }

  lemma CreateStepKeepsInv(cfg: FsConfig, s: FsState, env: Env, p: nat, name: string)
    requires Inv(s)
    ensures Inv(Step(cfg, s, env, DoCreate(p, name))) && Later(s.table, Step(cfg, s, env, DoCreate(p, name)).table)
  {
    CreateKeepsInv(s, cfg, env, p, name);
  }

  lemma CallStepKeepsInv(cfg: FsConfig, s: FsState, env: Env, op: Op)
    requires Inv(s)
    requires op.DoGetAttr? || op.DoOpen? || op.DoFlush?
    ensures Inv(Step(cfg, s, env, op)) && Step(cfg, s, env, op).table == s.table
  {
    match op
    case DoGetAttr(id) => GetAttrKeepsInv(s, cfg, env, id);
    case DoOpen(id) => OpenKeepsInv(s, cfg, env, id);
    case DoFlush(h) => FlushKeepsInv(s, cfg, env, h);
  }

  lemma LocalStepKeepsInv(cfg: FsConfig, s: FsState, env: Env, op: Op)
    requires Inv(s)
    requires op.DoTruncate? || op.DoWrite? || op.DoRelease? || op.DoRead? || op.ServerChange?
    ensures Inv(Step(cfg, s, env, op)) && Step(cfg, s, env, op).table == s.table
  {
    match op
    case DoTruncate(id, size) => TruncateKeepsInv(s, cfg, id, size);
    case DoWrite(h, offset, data) => WriteKeepsInv(s, cfg, h, offset, data);
    case DoRelease(h) => ReleaseKeepsInv(s, h);
    case DoRead(_, _, _) =>
    case ServerChange(_) =>
  }

  /** Over every run: the tree is well formed and typed, and every dirty handle is on a
      node that can be written. */
  lemma {:induction false} RunKeepsInv(cfg: FsConfig, s: FsState, run: seq<Event>)
    requires Inv(s)
    ensures Inv(Run(cfg, s, run)) && Later(s.table, Run(cfg, s, run).table)
    decreases |run|
  {
    if run != [] {
      StepKeepsInv(cfg, s, run[0].env, run[0].op);
      RunKeepsInv(cfg, Step(cfg, s, run[0].env, run[0].op), run[1..]);
    }
  }

  // ---- What operations do to the open files ----

  predicate TouchesFiles(op: Op) {
    op.DoTruncate? || op.DoCreate? || op.DoOpen? || op.DoWrite? || op.DoFlush? || op.DoRelease?
  }

  /** All other operations leave the open files alone. */
  lemma FilesUntouched(cfg: FsConfig, s: FsState, env: Env, op: Op)
    requires !TouchesFiles(op)
    ensures Step(cfg, s, env, op).files == s.files && Step(cfg, s, env, op).nextHandle == s.nextHandle
  {
    match op
    case DoLookup(_, _) =>
    case DoChildren(_) =>
    case DoGetAttr(_) =>
    case DoRemove(_, _, _) =>
    case DoRead(_, _, _) =>
    case ServerChange(_) =>
  }

  lemma OpenedFiles(cfg: FsConfig, s: FsState, env: Env, id: nat)
    ensures
      var s' := OpenFile(s, cfg, env, id).0;
      || (s'.files == s.files && s'.nextHandle == s.nextHandle)
      || (id in s.table.inodes && s'.nextHandle == s.nextHandle + 1
          && s'.files.Keys == s.files.Keys + {s.nextHandle}
          && s'.files[s.nextHandle].node == s.table.inodes[id] && !s'.files[s.nextHandle].dirty
              && !s'.files[s.nextHandle].pending
          && forall h :: h in s.files && h != s.nextHandle ==> s'.files[h] == s.files[h])
  {
  }

  lemma FlushedFiles(cfg: FsConfig, s: FsState, env: Env, h: nat)
    ensures
      var s' := FlushHandle(s, cfg, env, h).0;
      && s'.nextHandle == s.nextHandle
      && (s'.files == s.files
          || (h in s.files && s'.files == s.files[h := s.files[h].(dirty := false, pending := false)]))
  {
  }

  // ---- Where handles' nodes come from ----

  /** Every handle's node was held before or is live now. */
  lemma HandlesBorn(cfg: FsConfig, s: FsState, e: Event)
    requires Inv(s)
    ensures
      var s' := Step(cfg, s, e.env, e.op);
      forall h :: h in s'.files ==>
        || (h in s.files && s'.files[h].node == s.files[h].node)
        || (s'.files[h].node.id in s'.table.inodes && s'.table.inodes[s'.files[h].node.id] == s'.files[h].node)
  {
    if e.op.DoOpen? {
      OpenedLive(cfg, s, e.env, e.op.id);
    } else if e.op.DoCreate? {
      CreatedLive(cfg, s, e.env, e.op.p, e.op.name);
    } else {
      HandlesStay(cfg, s, e);
    }
  }

  lemma HandlesStay(cfg: FsConfig, s: FsState, e: Event)
    requires !e.op.DoOpen? && !e.op.DoCreate?
    ensures
      var s' := Step(cfg, s, e.env, e.op);
      forall h :: h in s'.files ==> h in s.files && s'.files[h].node == s.files[h].node
  {
    if !TouchesFiles(e.op) {
      FilesUntouched(cfg, s, e.env, e.op);
    } else if e.op.DoFlush? {
      FlushedFiles(cfg, s, e.env, e.op.h);
    }
  }

  lemma OpenedLive(cfg: FsConfig, s: FsState, env: Env, id: nat)
    requires Inv(s)
    ensures
      var (s', r) := OpenFile(s, cfg, env, id);
      && s'.table == s.table
      && forall h :: h in s'.files ==>
           (h in s.files && s'.files[h] == s.files[h])
           || (id in s.table.inodes && s.table.inodes[id].id == id && s'.files[h].node == s.table.inodes[id])
  {
    if id in s.table.inodes {
      assert NodeLinked(s.table, id);
    }
  }

  lemma CreatedLive(cfg: FsConfig, s: FsState, env: Env, p: nat, name: string)
    requires Inv(s)
    ensures
      var (s', r) := CreateAndOpen(s, cfg, env, p, name);
      r.Ok? ==> r.value.0.id in s'.table.inodes && s'.table.inodes[r.value.0.id] == r.value.0
  {
    var check := CheckCreate(s.table, cfg, p, name);
    if check.Ok? {
      var proto := PendingProto(check.value, name, env.now);
      AddTyped(s.table, p, proto);
      AddedChild(s.table, p, proto);
      ChildLive(AddChild(s.table, p, proto).0, p, name);
    }
  }

  // ---- What operations do to the caches ----

  ghost predicate Numbered(t: Table) { forall x :: x in t.inodes ==> t.inodes[x].id == x }

  lemma OwnNumbers(t: Table)
    requires Good(t)
    ensures Numbered(t)
  {
    forall x | x in t.inodes ensures t.inodes[x].id == x {
      assert NodeLinked(t, x);
    }
  }

  ghost predicate Fewer<K, V>(m: map<K, V>, m': map<K, V>) { forall k :: k in m' ==> k in m && m'[k] == m[k] }

  /** What an operation does to the client's cache: it puts one question, or forgets entries. */
  lemma CacheAfter(cfg: FsConfig, s: FsState, e: Event)
    requires Numbered(s.table)
    ensures
      var c := Step(cfg, s, e.env, e.op).client;
      match Asked(s, e.env, e.op)
      case Some(q) => c == Ask(s.client, cfg.client, e.env, q).0
      case None => Fewer(s.client.cache, c.cache)
  {
    if e.op.DoFlush? {
      FlushCache(cfg, s, e.env, e.op.h);
    } else if e.op.DoRemove? {
      RemoveCache(cfg, s, e.env, e.op.p, e.op.name, e.op.isDir);
    } else if e.op.DoLookup? {
      ListingCache(cfg, s, e.env, e.op.p, e.op.name);
    } else if e.op.DoChildren? {
      ListingCache(cfg, s, e.env, e.op.id, "");
    }
  }

  lemma FlushCache(cfg: FsConfig, s: FsState, env: Env, h: nat)
    ensures Fewer(s.client.cache, FlushHandle(s, cfg, env, h).0.client.cache)
  {
  }

  lemma RemoveCache(cfg: FsConfig, s: FsState, env: Env, p: nat, name: string, isDir: bool)
    ensures Fewer(s.client.cache, Remove(s, cfg, env, p, name, isDir).0.client.cache)
  {
  }

  lemma ListingCache(cfg: FsConfig, s: FsState, env: Env, id: nat, name: string)
    ensures
      var c := Lookup(s, cfg, env, id, name).0.client;
      && c == Children(s, cfg, env, id).0.client
      && c == match ListingAsk(s, id) case Some(q) => Ask(s.client, cfg.client, env, q).0 case None => s.client
  {
  }

  /** The node whose content an operation fetches, if it fetches any. */
  function Fetches(s: FsState, op: Op): Option<Inode> {
    match op
    case DoOpen(id) => Node(s, id)
    case DoGetAttr(id) => if id in s.table.inodes && !s.table.inodes[id].IsDir() then Node(s, id) else None
    case _ => None
  }

  /** And to the content cache: it fetches for one node, or forgets. */
  lemma ContentAfter(cfg: FsConfig, s: FsState, e: Event)
    ensures
      var s' := Step(cfg, s, e.env, e.op);
      match Fetches(s, e.op)
      case Some(n) => s'.content == FetchContent(s, cfg, e.env, n).0.content
      case None => Fewer(s.content, s'.content)
  {
  }
}
