/** What a flush puts into the cluster, traced back to what the file was opened with; and which
    object a document changes. */
module Saving {
  import opened Prelude
  import opened Api
  import opened Caching
  import opened Keys
  import opened ClientSpec
  import opened TableSpec
  import opened FsSpec
  import opened Served
  import opened Runs
  import opened Naming
  import opened Authority
  import opened Buffers
  import opened Staleness
  import opened ReadYourWrites
  import opened Rmw

  // ---- Opened, edited, saved ----

  /** If a flush changes the server, it does so with an update that carries these bytes. */
  ghost predicate Saves(cfg: FsConfig, before: Server, after: Server, env: Env, node: Inode, bytes: Bytes) {
    after == before ||
    exists obj :: Carries(cfg, before, Handle(node, bytes, true, false), obj)
                  && Update(before, env, InfoFor(node).GVR(), node.ns, obj) == Ok(after)
  }

  /** Through both caches, the buffer and the server: after any run, a file is opened; after any
      further run, its handle is flushed. What the flush puts into the cluster is what the
      open found, with exactly the writes and truncations in between applied. And what the open
      found was the text of an error, or the server's content within the staleness bound. */
  lemma SavesWhatWasOpened(cfg: FsConfig, server: Server, now: int, run: seq<Event>, env: Env, id: nat,
      edits: seq<Event>, env': Env)
    requires ServerNamed(server) && Timely(AnyVersion(), cfg, Start(server, now), run, now)
        && ClockAfter(run, now) <= env.now
    requires id in Run(cfg, Start(server, now), run).table.inodes
    requires NeverReleased(edits, Run(cfg, Start(server, now), run).nextHandle)
    ensures
      var s, past := Run(cfg, Start(server, now), run), History(cfg, server, now, run);
      var snaps := past.snaps + [Snap(env.now, s.client.server)];
      var node, h := s.table.inodes[id], s.nextHandle;
      var s1 := OpenFile(s, cfg, env, id).0;
      var found, s2 := FetchContent(s, cfg, env, node).1, Run(cfg, s1, edits);
      && OpenFile(s, cfg, env, id).1 == Ok(h)
      && (IsErrorText(cfg, found)
          || TrueRecently(cfg, snaps, As(node, ServedAs(past, s, env, node)), found, env.now, CONTENT_TTL + Slack(cfg)))
      && Saves(cfg, s2.client.server, FlushHandle(s2, cfg, env', h).0.client.server, env', node,
               ApplyAll(found, OpsOn(cfg, s1, edits, h)))
  {
    var s := Run(cfg, Start(server, now), run);
    StalenessBound(cfg, server, now, run, env, id);
    StartInv(server, now);
    RunKeepsInv(cfg, Start(server, now), run);
    OpenKeepsInv(s, cfg, env, id);
    OpenedWith(cfg, s, env, id);
    var s1 := OpenFile(s, cfg, env, id).0;
    BufferOverRuns(cfg, s1, edits, s.nextHandle);
    RunKeepsInv(cfg, s1, edits);
    FlushSaves(cfg, Run(cfg, s1, edits), env', s.nextHandle);
  }

  lemma OpenedWith(cfg: FsConfig, s: FsState, env: Env, id: nat)
    requires id in s.table.inodes
    ensures
      var (s', h) := OpenFile(s, cfg, env, id);
      var node := s.table.inodes[id];
      && h == Ok(s.nextHandle) && s.nextHandle in s'.files
      && s'.files[s.nextHandle] == Handle(node, FetchContent(s, cfg, env, node).1, false, false)
  {
  }

  lemma FlushSaves(cfg: FsConfig, s: FsState, env: Env, h: nat)
    requires h in s.files && HandleOk(s.table, s.files[h])
    ensures Saves(cfg, s.client.server, FlushHandle(s, cfg, env, h).0.client.server, env, s.files[h].node,
        s.files[h].buf)
  {
    if s.files[h].dirty {
      var obj := ApplyChanges(s.client, cfg, env, s.files[h]);
      if ApplyContent(s.client, cfg.client, env, s.files[h].node, s.files[h].buf).1.None? {
        assert Carries(cfg, s.client.server, Handle(s.files[h].node, s.files[h].buf, true, false), obj);
      }
    }
  }

  // ---- Errors that are opened, and saved ----

  /** Nothing that is remembered answers for the node. */
  predicate Unremembered(s: FsState, env: Env, node: Inode) {
    !Fresh(s, node.id, env.now) && Hit(s.client.cache, Key(DataView(node)), env.now).None?
  }

  /** The server has a value for the key, and the object can be read and decoded. */
  predicate Readable(server: Server, env: Env, node: Inode) {
    && !env.fails(GetCall(RefOf(node))) && RefOf(node) in server.objects
    && var m := FieldsOf(server.objects[RefOf(node)].data);
    && (forall k | k in m :: Decodes(node.res, m[k]))
    && node.file in m && m[node.file].Str?
  }

  /** Unless a cache answers, opening a data file fills the buffer with an error's text exactly
      if the file is not readable. The open succeeds either way. */
  lemma OpensErrorIff(cfg: FsConfig, s: FsState, env: Env, id: nat)
    requires id in s.table.inodes && s.table.inodes[id].kind == NodeDataFile && s.table.inodes[id].id == id
    requires Unremembered(s, env, s.table.inodes[id])
    ensures
      var node := s.table.inodes[id];
      var (s', h), view := OpenFile(s, cfg, env, id), Shown(s.client.server, cfg.client.lib, env, node);
      && h.Ok? && h.value in s'.files
      && (view.Ok? <==> Readable(s.client.server, env, node))
      && s'.files[h.value].buf == Text(cfg.client.lib, view)
  {
  }

  /** So an error's text can end up in the cluster: a data file is opened while its object cannot
      be fetched; any accepted write, an empty one too, marks it; and once calls work again, the
      flush succeeds and stores the text of the error under the key. */
  lemma ErrorTextSaved(cfg: FsConfig, s: FsState, env: Env, id: nat, env': Env)
    requires Inv(s) && ServerOk(s.client.server) && cfg.verbs.update
    requires id in s.table.inodes && s.table.inodes[id].kind == NodeDataFile
    requires Unremembered(s, env, s.table.inodes[id]) && env.fails(GetCall(RefOf(s.table.inodes[id])))
    requires
      var ref := RefOf(s.table.inodes[id]);
      ref in s.client.server.objects && !env'.fails(GetCall(ref)) && !env'.fails(UpdateCall(ref))
    ensures
      var node := s.table.inodes[id];
      var s1, h := OpenFile(s, cfg, env, id).0, s.nextHandle;
      var (s2, written) := WriteHandle(s1, cfg, h, 0, []);
      var (s3, err) := FlushHandle(s2, cfg, env', h);
      && written == Ok(0) && err.None?
      && RefOf(node) in s3.client.server.objects
      && var m := FieldsOf(s3.client.server.objects[RefOf(node)].data);
         node.file in m && m[node.file] == StoredValue(node.res, cfg.client.lib.errorText(CallFailed))
  {
    assert NodeLinked(s.table, id);
    OpensCallFailed(cfg, s, env, id);
    EditedThenSaved(cfg, OpenFile(s, cfg, env, id).0, env', s.nextHandle);
  }

  lemma OpensCallFailed(cfg: FsConfig, s: FsState, env: Env, id: nat)
    requires id in s.table.inodes && s.table.inodes[id].kind == NodeDataFile && s.table.inodes[id].id == id
    requires Unremembered(s, env, s.table.inodes[id]) && env.fails(GetCall(RefOf(s.table.inodes[id])))
    ensures
      var s', h := OpenFile(s, cfg, env, id).0, s.nextHandle;
      && s'.client.server == s.client.server && h in s'.files
      && s'.files[h] == Handle(s.table.inodes[id], cfg.client.lib.errorText(CallFailed), false, false)
  {
    OpenedWith(cfg, s, env, id);
  }

  lemma EditedThenSaved(cfg: FsConfig, s: FsState, env: Env, h: nat)
    requires ServerOk(s.client.server) && cfg.verbs.update
    requires h in s.files && !s.files[h].pending && s.files[h].node.kind == NodeDataFile
    requires
      var ref := RefOf(s.files[h].node);
      ref in s.client.server.objects && !env.fails(GetCall(ref)) && !env.fails(UpdateCall(ref))
    ensures
      var f, (s1, written) := s.files[h], WriteHandle(s, cfg, h, 0, []);
      var (s2, err) := FlushHandle(s1, cfg, env, h);
      && written == Ok(0) && err.None? && RefOf(f.node) in s2.client.server.objects
      && var m := FieldsOf(s2.client.server.objects[RefOf(f.node)].data);
         f.node.file in m && m[f.node.file] == StoredValue(f.node.res, f.buf)
  {
    EmptyWrite(cfg, s, h);
    SavedKey(cfg, WriteHandle(s, cfg, h, 0, []).0, env, h);
  }

  lemma EmptyWrite(cfg: FsConfig, s: FsState, h: nat)
    requires h in s.files && !s.files[h].pending && cfg.verbs.update && Writable(s.files[h].node)
    ensures WriteHandle(s, cfg, h, 0, []) == (s.(files := s.files[h := s.files[h].(dirty := true)]), Ok(0))
  {
    assert Overlay(s.files[h].buf, 0, []) == s.files[h].buf;
  }

  lemma SavedKey(cfg: FsConfig, s: FsState, env: Env, h: nat)
    requires ServerOk(s.client.server) && cfg.verbs.update
    requires h in s.files && s.files[h].dirty && !s.files[h].pending && s.files[h].node.kind == NodeDataFile
    requires
      var ref := RefOf(s.files[h].node);
      ref in s.client.server.objects && !env.fails(GetCall(ref)) && !env.fails(UpdateCall(ref))
    ensures
      var f, (s', err) := s.files[h], FlushHandle(s, cfg, env, h);
      && err.None? && RefOf(f.node) in s'.client.server.objects
      && var m := FieldsOf(s'.client.server.objects[RefOf(f.node)].data);
         f.node.file in m && m[f.node.file] == StoredValue(f.node.res, f.buf)
  {
    var f := s.files[h];
    var before := s.client.server.objects[RefOf(f.node)];
    assert ObjectOk(before, RefOf(f.node), s.client.server.revision);
    UpdatesOneKey(before, RefOf(f.node), f.node.res, KeyWrite(f.node.file, f.buf), s.client.server.revision);
  }

  // ---- Documents ----

  /** What is stored for a document that the server takes. */
  function StoredDocument(doc: Object, revision: nat): Object {
    doc.(version := Some(revision + 1), data := Transported(doc.data))
  }

  /** A dirty handle of a yaml or json file, whose flush succeeds. */
  ghost predicate SendsDocument(cfg: FsConfig, s: FsState, env: Env, h: nat) {
    Inv(s) && Dirty(s, h) && s.files[h].node.kind == NodeFile && FlushHandle(s, cfg, env, h).1.None?
  }

  /** A flushed yaml or json file changes the object that its document names, and nothing else. */
  lemma DocumentStored(cfg: FsConfig, s: FsState, env: Env, h: nat) returns (doc: Object)
    requires SendsDocument(cfg, s, env, h)
    ensures cfg.client.lib.parse(s.files[h].buf) == Some(doc)
    ensures
      var node, s' := s.files[h].node, FlushHandle(s, cfg, env, h).0;
      var ref := Ref(InfoFor(node).GVR(), node.ns, doc.name);
      && (node.file == "yaml" || node.file == "json")
      && ref in s.client.server.objects
      && s'.client.server.objects == s.client.server.objects[ref := StoredDocument(doc, s.client.server.revision)]
      && s'.client.cache == Invalidated(s.client.cache, node.ns, node.res, doc.name)
      && s'.content == s.content - {node.id}
  {
    doc := cfg.client.lib.parse(s.files[h].buf).value;
  }

  /** That is the file's own object if and only if the document has its name. Then the next fetch
      shows the document as stored. Otherwise the file's own object stays as it was, and the next
      fetch answers as if there had been no flush. */
  lemma DocumentDecides(cfg: FsConfig, s: FsState, env: Env, h: nat, env': Env)
    requires SendsDocument(cfg, s, env, h) && ServerOk(s.client.server) && Named(AnyVersion(), s)
    requires RefOf(s.files[h].node) in s.client.server.objects && !env'.fails(GetCall(RefOf(s.files[h].node)))
    ensures cfg.client.lib.parse(s.files[h].buf).Some?
    ensures
      var node, s' := s.files[h].node, FlushHandle(s, cfg, env, h).0;
      var doc, own := cfg.client.lib.parse(s.files[h].buf).value, RefOf(node);
      && own in s'.client.server.objects
      && (s'.client.server.objects[own] != s.client.server.objects[own] <==> doc.name == node.obj)
      && (doc.name == node.obj ==>
            FetchContent(s', cfg, env', node).1 == Rendered(cfg.client.lib, node.file,
                StoredDocument(doc, s.client.server.revision)))
      && (doc.name != node.obj ==>
            GetContent(s'.client, cfg.client, env', node).1 == GetContent(s.client, cfg.client, env', node).1)
  {
    var doc := DocumentStored(cfg, s, env, h);
    ReadAfterDocument(cfg, s, FlushHandle(s, cfg, env, h).0, env', s.files[h].node, doc);
  }

  lemma ReadAfterDocument(cfg: FsConfig, s: FsState, s': FsState, env: Env, node: Inode, doc: Object)
    requires node.kind == NodeFile && (node.file == "yaml" || node.file == "json")
    requires ColonFree(node.ns) && ColonFree(node.res)
    requires ServerOk(s.client.server) && RefOf(node) in s.client.server.objects && !env.fails(GetCall(RefOf(node)))
    requires
      var ref, stored := Ref(InfoFor(node).GVR(), node.ns, doc.name), StoredDocument(doc, s.client.server.revision);
      && s'.client.server.objects == s.client.server.objects[ref := stored]
      && s'.client.cache == Invalidated(s.client.cache, node.ns, node.res, doc.name)
      && s'.content == s.content - {node.id}
    ensures RefOf(node) in s'.client.server.objects
    ensures s'.client.server.objects[RefOf(node)] != s.client.server.objects[RefOf(node)] <==> doc.name == node.obj
    ensures doc.name == node.obj ==>
      FetchContent(s', cfg, env, node).1 == Rendered(cfg.client.lib, node.file,
          StoredDocument(doc, s.client.server.revision))
    ensures doc.name != node.obj ==>
      GetContent(s'.client, cfg.client, env, node).1 == GetContent(s.client, cfg.client, env, node).1
  {
    assert ObjectOk(s.client.server.objects[RefOf(node)], RefOf(node), s.client.server.revision);
    InvalidatedExactly(s.client.cache, node.ns, node.res, doc.name, NodeQuery(node).value.view);
    if doc.name == node.obj {
      OwnDocument(cfg, s', env, node);
    } else {
      OtherDocument(cfg, s, s', env, node);
    }
  }

  lemma OwnDocument(cfg: FsConfig, s: FsState, env: Env, node: Inode)
    requires node.kind == NodeFile && (node.file == "yaml" || node.file == "json") && node.id !in s.content
    requires Key(NodeQuery(node).value.view) !in s.client.cache
    requires RefOf(node) in s.client.server.objects && !env.fails(GetCall(RefOf(node)))
    ensures FetchContent(s, cfg, env, node).1 == Rendered(cfg.client.lib, node.file,
        s.client.server.objects[RefOf(node)])
  {
  }

  lemma OtherDocument(cfg: FsConfig, s: FsState, s': FsState, env: Env, node: Inode)
    requires node.kind == NodeFile && (node.file == "yaml" || node.file == "json")
    requires
      var k := Key(NodeQuery(node).value.view);
      (k in s'.client.cache <==> k in s.client.cache) && (k in s.client.cache ==>
          s'.client.cache[k] == s.client.cache[k])
    requires RefOf(node) in s.client.server.objects && RefOf(node) in s'.client.server.objects
    requires s'.client.server.objects[RefOf(node)] == s.client.server.objects[RefOf(node)]
    ensures GetContent(s'.client, cfg.client, env, node).1 == GetContent(s.client, cfg.client, env, node).1
  {
  }
}
