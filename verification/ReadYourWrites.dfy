/** What is read back after a data file has been written and flushed. */
module ReadYourWrites {
  import opened Prelude
  import opened Api
  import opened Keys
  import opened ClientSpec
  import opened TableSpec
  import opened FsSpec
  import opened Served
  import opened Runs
  import opened Naming
  import Base64
  import Utf8

  function DataView(node: Inode): View { Data(node.ns, node.res, node.obj) }

  /** What a caller can check before flushing: that the bytes will come back. For a secret
      every other value has to be base64; elsewhere the bytes have to be UTF-8. */
  ghost predicate ComesBack(before: Object, res: string, key: string, value: Bytes) {
    var m := FieldsOf(before.data);
    if res == "secrets" then forall k :: k in m && k != key ==> Decodes(res, m[k])
    else Utf8.Valid(value)
  }

  // ---- One object ----

  /** The stored object after the update of one key. */
  function AfterUpdate(before: Object, res: string, key: string, value: Bytes, revision: nat): Object {
    var sent := WithKey(before, res, key, value);
    sent.(version := Some(revision + 1), data := Transported(sent.data))
  }

  /** Every other key, and everything outside the data map, is as it was. */
  lemma OtherKeysUnchanged(before: Object, ref: Ref, res: string, key: string, value: Bytes, revision: nat)
    requires ObjectOk(before, ref, revision)
    ensures
      var after := AfterUpdate(before, res, key, value, revision);
      && after.name == before.name && after.created == before.created && after.rest == before.rest
      && after.data.Fields? && key in after.data.fields
      && (forall k :: k != key ==> (k in after.data.fields <==> k in FieldsOf(before.data)))
      && (forall k :: k != key && k in FieldsOf(before.data) ==> after.data.fields[k] == FieldsOf(before.data)[k])
  {
    var m := FieldsOf(before.data);
    forall k | k != key && k in m ensures AfterUpdate(before, res, key, value, revision).data.fields[k] == m[k] {
      if m[k].Str? {
        Utf8.CoerceIdentity(m[k].bytes);
      }
    }
  }

  /** What the written key decodes to once it is stored. */
  lemma WrittenKey(before: Object, res: string, key: string, value: Bytes, revision: nat)
    ensures
      var v := AfterUpdate(before, res, key, value, revision).data.fields[key];
      && v.Str? && Decodes(res, v)
      && Decoded(res, v) == (if res == "secrets" then value else Utf8.Coerce(value))
  {
    if res == "secrets" {
      var e := Base64.Encode(value);
      Base64.RoundTrip(value);
      Base64.EncodedAscii(value);
      Utf8.AsciiValid(e);
      Utf8.CoerceIdentity(e);
    }
  }

  /** Reading the stored object gives back exactly the written bytes if and only if the
      condition held beforehand. */
  lemma ExtractedExactly(before: Object, ref: Ref, res: string, key: string, value: Bytes, revision: nat)
    requires ObjectOk(before, ref, revision)
    ensures
      var r := ExtractData(AfterUpdate(before, res, key, value, revision).data, res);
      (r.Ok? && key in r.value && r.value[key] == value) <==> ComesBack(before, res, key, value)
  {
    var after := AfterUpdate(before, res, key, value, revision);
    var m, m' := FieldsOf(before.data), after.data.fields;
    OtherKeysUnchanged(before, ref, res, key, value, revision);
    WrittenKey(before, res, key, value, revision);
    Utf8.CoerceIdentity(value);
    assert (forall k :: k in m' ==> Decodes(res, m'[k])) <==>
        (forall k :: k in m && k != key ==> Decodes(res, m[k])) by {
      forall k | k != key ensures k in m' <==> k in m {}
    }
  }

  // ---- One flush, then one read ----

  /** The object the flush found, for a flush that succeeded. */
  lemma FlushStores(cfg: FsConfig, s: FsState, env: Env, h: nat) returns (before: Object)
    requires ServerOk(s.client.server)
    requires h in s.files && s.files[h].dirty && !s.files[h].pending && s.files[h].node.kind == NodeDataFile
    requires FlushHandle(s, cfg, env, h).1.None?
    ensures
      var f, s' := s.files[h], FlushHandle(s, cfg, env, h).0;
      var ref, server := RefOf(f.node), s.client.server;
      && ref in server.objects && before == server.objects[ref]
      && s'.client.server.objects ==
           server.objects[ref := AfterUpdate(before, f.node.res, f.node.file, f.buf, server.revision)]
      && s'.client.server.namespaces == server.namespaces && s'.client.server.lists == server.lists
      && s'.client.cache == Invalidated(s.client.cache, f.node.ns, f.node.res, f.node.obj)
      && s'.content == s.content - {f.node.id} && s'.table == s.table
  {
    var node := s.files[h].node;
    before := s.client.server.objects[RefOf(node)];
    assert ObjectOk(before, RefOf(node), s.client.server.revision);
  }

  /** Read-your-writes through both caches: after a flush of a data file has succeeded,
      the next fetch of that inode, whenever it happens, asks the server again, and yields
      exactly the flushed buffer if and only if the condition on the object held. The
      other keys of the object, and all other objects, are as they were. */
  lemma ReadYourWrites(cfg: FsConfig, s: FsState, env: Env, h: nat, env': Env)
    requires Inv(s) && ServerOk(s.client.server)
    requires Dirty(s, h) && s.files[h].node.kind == NodeDataFile
    requires FlushHandle(s, cfg, env, h).1.None?
    requires !env'.fails(GetCall(RefOf(s.files[h].node)))
    ensures
      var f, s' := s.files[h], FlushHandle(s, cfg, env, h).0;
      var ref := RefOf(f.node);
      && ref in s.client.server.objects && ref in s'.client.server.objects
      && !Fresh(s', f.node.id, env'.now)
      && (GetContent(s'.client, cfg.client, env', f.node).1 == Ok(f.buf) <==>
            ComesBack(s.client.server.objects[ref], f.node.res, f.node.file, f.buf))
      && (ComesBack(s.client.server.objects[ref], f.node.res, f.node.file, f.buf) ==>
            FetchContent(s', cfg, env', f.node).1 == f.buf)
      && SameButKey(s.client.server.objects[ref], s'.client.server.objects[ref], f.node.file)
      && (forall r :: r != ref ==> (r in s'.client.server.objects <==> r in s.client.server.objects))
      && (forall r :: r != ref && r in s.client.server.objects ==>
          s'.client.server.objects[r] == s.client.server.objects[r])
  {
    var f := s.files[h];
    var before := FlushStores(cfg, s, env, h);
    var revision := s.client.server.revision;
    OtherKeysUnchanged(before, RefOf(f.node), f.node.res, f.node.file, f.buf, revision);
    ExtractedExactly(before, RefOf(f.node), f.node.res, f.node.file, f.buf, revision);
    ServedFresh(cfg, FlushHandle(s, cfg, env, h).0, env', f.node);
  }

  ghost predicate SameButKey(a: Object, b: Object, key: string) {
    && b.name == a.name && b.created == a.created && b.rest == a.rest
    && (forall k :: k != key ==> (k in FieldsOf(b.data) <==> k in FieldsOf(a.data)))
    && (forall k :: k != key && k in FieldsOf(a.data) ==> FieldsOf(b.data)[k] == FieldsOf(a.data)[k])
  }

  /** With the data view out of the cache, a read of the file is a read of the server. */
  lemma ServedFresh(cfg: FsConfig, s: FsState, env: Env, node: Inode)
    requires node.kind == NodeDataFile && Key(DataView(node)) !in s.client.cache
    requires RefOf(node) in s.client.server.objects && !env.fails(GetCall(RefOf(node)))
    ensures
      GetContent(s.client, cfg.client, env, node).1 ==
        match ExtractData(s.client.server.objects[RefOf(node)].data, node.res)
        case Err(e) => Err(e)
        case Ok(m) => if node.file in m then Ok(m[node.file]) else Err(KeyMissing)
  {
  }

  // ---- Any run in between ----

  /** On the server the file reads as v, and nothing that the filesystem remembers contradicts
      that. */
  ghost predicate Settled(s: FsState, node: Inode, v: Bytes) {
    && ReadsAs(s.client.server, node, v)
    && CacheSettled(s.client.cache, node, v)
    && (node.id in s.content ==> s.content[node.id].data == v)
    && node.id < s.table.next
    && (node.id in s.table.inodes ==> s.table.inodes[node.id] == node)
  }

  ghost predicate CacheSettled(cache: Entries, node: Inode, v: Bytes) {
    Key(DataView(node)) in cache ==>
      var value := cache[Key(DataView(node))].value;
      value.DataMap? && node.file in value.data && value.data[node.file] == v
  }

  /** The object decodes, and its key reads as v. */
  ghost predicate ReadsAs(server: Server, node: Inode, v: Bytes) {
    RefOf(node) in server.objects &&
    var r := ExtractData(server.objects[RefOf(node)].data, node.res);
    r.Ok? && node.file in r.value && r.value[node.file] == v
  }

  lemma AskSettled(c: ClientSpec.State, cfg: Config, env: Env, q: Query, node: Inode, v: Bytes)
    requires CacheSettled(c.cache, node, v) && ReadsAs(c.server, node, v)
    requires NodeNamed(AnyVersion(), node) && node.kind == NodeDataFile && WellNamed(q.view)
    requires AsksOwn(q, node)
    ensures CacheSettled(Ask(c, cfg, env, q).0.cache, node, v) && Ask(c, cfg, env, q).0.server == c.server
  {
    KeyInjective(q.view, DataView(node));
  }

  /** Whoever asks for the node's data view asks about the node's own object. */
  ghost predicate AsksOwn(q: Query, node: Inode) {
    q.view == DataView(node) ==> q.ri.GVR() == InfoFor(node).GVR()
  }

  lemma FetchSettled(cfg: FsConfig, s: FsState, env: Env, n: Inode, node: Inode, v: Bytes)
    requires Settled(s, node, v)
    requires NodeNamed(AnyVersion(), node) && node.kind == NodeDataFile && NodeNamed(AnyVersion(), n)
    requires n.id == node.id ==> n == node
    requires !env.fails(GetCall(RefOf(node)))
    requires !Fresh(s, n.id, env.now) && NodeQuery(n).Ok? ==> AsksOwn(NodeQuery(n).value, node)
    ensures Settled(FetchContent(s, cfg, env, n).0, node, v)
    ensures n == node ==> FetchContent(s, cfg, env, n).1 == v
  {
    if !Fresh(s, n.id, env.now) && NodeQuery(n).Ok? {
      QueriesNamed(AnyVersion(), n);
      AskSettled(s.client, cfg.client, env, NodeQuery(n).value, node, v);
    }
  }

  /** After the event the file still reads as v on the server, whatever else has become of its
      object; reading the object did not fail; and nobody put an answer about another object
      under the key of its data. */
  ghost predicate Quiet(cfg: FsConfig, s: FsState, e: Event, node: Inode, v: Bytes) {
    && ReadsAs(Step(cfg, s, e.env, e.op).client.server, node, v)
    && !e.env.fails(GetCall(RefOf(node)))
    && (Asked(s, e.env, e.op).Some? ==> AsksOwn(Asked(s, e.env, e.op).value, node))
  }

  /** With stable discovery nobody does: two nodes that ask for the same data view ask for
      the same object. */
  lemma StableAsksOwn(gv: Assignment, s: FsState, e: Event, node: Inode)
    requires Named(Stable(gv), s) && NodeNamed(Stable(gv), node) && node.kind == NodeDataFile
    ensures Asked(s, e.env, e.op).Some? ==> AsksOwn(Asked(s, e.env, e.op).value, node)
  {
  }

  lemma CacheStepSettled(cfg: FsConfig, s: FsState, e: Event, node: Inode, v: Bytes)
    requires Numbered(s.table) && TableNamed(AnyVersion(), s.table) && Settled(s, node, v)
    requires NodeNamed(AnyVersion(), node) && node.kind == NodeDataFile && Quiet(cfg, s, e, node, v)
    ensures CacheSettled(Step(cfg, s, e.env, e.op).client.cache, node, v)
  {
    CacheAfter(cfg, s, e);
    AskedWellNamed(s, e.env, e.op);
    if Asked(s, e.env, e.op).Some? {
      AskSettled(s.client, cfg.client, e.env, Asked(s, e.env, e.op).value, node, v);
    }
  }

  lemma ContentStepSettled(cfg: FsConfig, s: FsState, e: Event, node: Inode, v: Bytes)
    requires Numbered(s.table) && TableNamed(AnyVersion(), s.table) && Settled(s, node, v)
    requires NodeNamed(AnyVersion(), node) && node.kind == NodeDataFile && Quiet(cfg, s, e, node, v)
    ensures
      var content := Step(cfg, s, e.env, e.op).content;
      node.id in content ==> content[node.id].data == v
  {
    ContentAfter(cfg, s, e);
    if Fetches(s, e.op).Some? {
      FetchSettled(cfg, s, e.env, Fetches(s, e.op).value, node, v);
    }
  }

  lemma StepSettled(cfg: FsConfig, s: FsState, e: Event, node: Inode, v: Bytes)
    requires Inv(s) && Named(AnyVersion(), s) && Settled(s, node, v)
    requires NodeNamed(AnyVersion(), node) && node.kind == NodeDataFile && Quiet(cfg, s, e, node, v)
    ensures Settled(Step(cfg, s, e.env, e.op), node, v)
  {
    OwnNumbers(s.table);
    CacheStepSettled(cfg, s, e, node, v);
    ContentStepSettled(cfg, s, e, node, v);
    StepKeepsInv(cfg, s, e.env, e.op);
  }

  ghost predicate QuietRun(cfg: FsConfig, s: FsState, run: seq<Event>, node: Inode, v: Bytes)
    decreases |run|
  {
    run == [] ||
    (EventNamed(AnyVersion(), s, run[0]) && Quiet(cfg, s, run[0], node, v)
     && QuietRun(cfg, Step(cfg, s, run[0].env, run[0].op), run[1..], node, v))
  }

  lemma {:induction false} RunSettled(cfg: FsConfig, s: FsState, run: seq<Event>, node: Inode, v: Bytes)
    requires Inv(s) && Named(AnyVersion(), s) && Settled(s, node, v)
    requires NodeNamed(AnyVersion(), node) && node.kind == NodeDataFile && QuietRun(cfg, s, run, node, v)
    ensures
      var s' := Run(cfg, s, run);
      Inv(s') && Named(AnyVersion(), s') && Settled(s', node, v)
    decreases |run|
  {
    if run != [] {
      StepSettled(cfg, s, run[0], node, v);
      StepKeepsInv(cfg, s, run[0].env, run[0].op);
      StepNamed(AnyVersion(), cfg, s, run[0]);
      RunSettled(cfg, Step(cfg, s, run[0].env, run[0].op), run[1..], node, v);
    }
  }

  /** Read-your-writes over runs: after a successful flush of a data file, and any run of
      operations in which the file's key keeps its value on the server, whatever becomes of the
      other keys as long as the object decodes, a fetch of that inode, and a handle opened on
      it, still hold exactly the flushed bytes. */
  lemma ReadYourWritesOverRuns(cfg: FsConfig, s: FsState, env: Env, h: nat, run: seq<Event>, env': Env)
    requires Inv(s) && Named(AnyVersion(), s) && ServerOk(s.client.server)
    requires Dirty(s, h) && s.files[h].node.kind == NodeDataFile
    requires FlushHandle(s, cfg, env, h).1.None?
    requires
      var f := s.files[h];
      && RefOf(f.node) in s.client.server.objects
      && ComesBack(s.client.server.objects[RefOf(f.node)], f.node.res, f.node.file, f.buf)
      && QuietRun(cfg, FlushHandle(s, cfg, env, h).0, run, f.node, f.buf)
      && !env'.fails(GetCall(RefOf(f.node)))
    ensures
      var f, s' := s.files[h], Run(cfg, FlushHandle(s, cfg, env, h).0, run);
      && FetchContent(s', cfg, env', f.node).1 == f.buf
      && (f.node.id in s'.table.inodes ==>
            var (s'', r) := OpenFile(s', cfg, env', f.node.id);
            r.Ok? && r.value in s''.files && s''.files[r.value] == Handle(f.node, f.buf, false, false))
  {
    var f, s1 := s.files[h], FlushHandle(s, cfg, env, h).0;
    SettledByFlush(cfg, s, env, h);
    RunSettled(cfg, s1, run, f.node, f.buf);
    SettledReads(cfg, Run(cfg, s1, run), env', f.node, f.buf);
  }

  lemma SettledByFlush(cfg: FsConfig, s: FsState, env: Env, h: nat)
    requires Inv(s) && Named(AnyVersion(), s) && ServerOk(s.client.server)
    requires Dirty(s, h) && s.files[h].node.kind == NodeDataFile
    requires FlushHandle(s, cfg, env, h).1.None?
    requires
      var f := s.files[h];
      && RefOf(f.node) in s.client.server.objects
      && ComesBack(s.client.server.objects[RefOf(f.node)], f.node.res, f.node.file, f.buf)
    ensures
      var f, s1 := s.files[h], FlushHandle(s, cfg, env, h).0;
      Inv(s1) && Named(AnyVersion(), s1) && Settled(s1, f.node, f.buf)
  {
    var f := s.files[h];
    var before := FlushStores(cfg, s, env, h);
    ExtractedExactly(before, RefOf(f.node), f.node.res, f.node.file, f.buf, s.client.server.revision);
    FlushKeepsInv(s, cfg, env, h);
    FlushNamed(AnyVersion(), cfg, s, env, h);
  }

  lemma SettledReads(cfg: FsConfig, s: FsState, env: Env, node: Inode, v: Bytes)
    requires Settled(s, node, v)
    requires NodeNamed(AnyVersion(), node) && node.kind == NodeDataFile && !env.fails(GetCall(RefOf(node)))
    ensures FetchContent(s, cfg, env, node).1 == v
    ensures node.id in s.table.inodes ==>
      var (s', r) := OpenFile(s, cfg, env, node.id);
      r.Ok? && r.value in s'.files && s'.files[r.value] == Handle(node, v, false, false)
  {
    FetchSettled(cfg, s, env, node, node, v);
    FetchSettled(cfg, s.(nextHandle := s.nextHandle + 1), env, node, node, v);
  }

  /** Where the condition fails for a secret, the flush succeeds and the file then reads as
      an error: one other value that is not base64 makes the whole object unreadable. */
  lemma SpoiledSecret(cfg: FsConfig, s: FsState, env: Env, h: nat, env': Env)
    requires Inv(s) && ServerOk(s.client.server) && Dirty(s, h)
    requires s.files[h].node.kind == NodeDataFile && s.files[h].node.res == "secrets"
    requires FlushHandle(s, cfg, env, h).1.None? && !env'.fails(GetCall(RefOf(s.files[h].node)))
    requires
      var f := s.files[h];
      RefOf(f.node) in s.client.server.objects && !ComesBack(s.client.server.objects[RefOf(f.node)], "secrets",
          f.node.file, f.buf)
    ensures FetchContent(FlushHandle(s, cfg, env, h).0, cfg, env', s.files[h].node).1 ==
        cfg.client.lib.errorText(BadBase64)
  {
    var f := s.files[h];
    var before := FlushStores(cfg, s, env, h);
    SpoiledMap(before, RefOf(f.node), f.node.file, f.buf, s.client.server.revision);
    ServedFresh(cfg, FlushHandle(s, cfg, env, h).0, env', f.node);
  }

  lemma SpoiledMap(before: Object, ref: Ref, key: string, value: Bytes, revision: nat)
    requires ObjectOk(before, ref, revision) && !ComesBack(before, "secrets", key, value)
    ensures ExtractData(AfterUpdate(before, "secrets", key, value, revision).data, "secrets") == Err(BadBase64)
  {
    OtherKeysUnchanged(before, ref, "secrets", key, value, revision);
    var k :| k in FieldsOf(before.data) && k != key && !Decodes("secrets", FieldsOf(before.data)[k]);
    assert !Decodes("secrets", AfterUpdate(before, "secrets", key, value, revision).data.fields[k]);
  }

  /** Such an object can be there: the client takes the resource secrets of any group for
      the core one, and only the core one's values are checked by the server. */
  lemma BadSiblingHidesSecret()
    ensures
      var ref, obj := Ref(Gvr("example.org", "v1", "secrets"), "ns", "s"),
          Object("s", Some(1), 0, Fields(map["bad" := Str([33])]), 0);
      && ObjectOk(obj, ref, 1)
      && (forall value :: !ComesBack(obj, "secrets", "key", value))
      && (forall value :: ExtractData(AfterUpdate(obj, "secrets", "key", value, 1).data, "secrets") == Err(BadBase64))
  {
    var ref, obj := Ref(Gvr("example.org", "v1", "secrets"), "ns", "s"),
        Object("s", Some(1), 0, Fields(map["bad" := Str([33])]), 0);
    assert Utf8.Valid([33]) by { Utf8.AsciiValid([33]); }
    assert "bad" != "key" by { assert "bad"[0] != "key"[0]; }
    assert Base64.StripNewlines([33]) == [33];
    assert !Decodes("secrets", FieldsOf(obj.data)["bad"]);
    forall value ensures ExtractData(AfterUpdate(obj, "secrets", "key", value, 1).data, "secrets") == Err(BadBase64) {
      SpoiledMap(obj, ref, "key", value, 1);
    }
  }

  /** And a value that is not UTF-8 comes back changed from a ConfigMap: as U+FFFD. */
  lemma BinaryConfigMapChanges()
    ensures
      var before := Object("c", Some(1), 0, Absent, 0);
      && !ComesBack(before, "configmaps", "key", [0xFF])
      && ExtractData(AfterUpdate(before, "configmaps", "key", [0xFF], 1).data, "configmaps") ==
          Ok(map["key" := [0xEF, 0xBF, 0xBD]])
  {
    var after := AfterUpdate(Object("c", Some(1), 0, Absent, 0), "configmaps", "key", [0xFF], 1);
    WrittenKey(Object("c", Some(1), 0, Absent, 0), "configmaps", "key", [0xFF], 1);
    assert "configmaps"[0] != "secrets"[0];
    assert Utf8.Coerce([0xFF]) == [0xEF, 0xBF, 0xBD] by {
      assert Utf8.RuneLength([0xFF]) == 0;
      assert [0xFF][1..] == [] && Utf8.Coerce([]) == [];
    }
    assert after.data.fields.Keys == {"key"};
    assert ExtractData(after.data, "configmaps").value == map["key" := [0xEF, 0xBF, 0xBD]];
  }
}
