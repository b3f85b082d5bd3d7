/** What becomes of a file's handle when the adapter closes it: which files let go of their
    handles, and which never do. */
module Closing {
  import opened Prelude
  import opened Api
  import opened ClientSpec
  import opened TableSpec
  import opened FsSpec
  import opened Runs
  import opened Authority
  import opened Mounts

  // ---- Who sends ----

  /** The step closes file i for the first time, and the update that i's handle sends is what
      it does to the server. */
  ghost predicate Sends(cfg: FsConfig, m: Mount, e: Use, i: nat) {
    && e.op == CloseFile(i) && i < |m.files| && !m.files[i].closed && !m.files[i].isDir
    && SendsUpdate(cfg, m.fs, e.env, DoFlush(m.files[i].handle), Next(cfg, m, e).fs)
  }

  ghost predicate Harmless(cfg: FsConfig, m: Mount, e: Use) {
    || Next(cfg, m, e).fs.client.server == m.fs.client.server
    || e.op.Change?
    || (e.op.RemovePath? && cfg.verbs.delete)
  }

  /** Only the first Close of a file sends anything to the server. */
  lemma OnlyCloseSends(cfg: FsConfig, m: Mount, e: Use)
    requires MountOk(cfg, m)
    ensures Harmless(cfg, m, e) || (e.op.CloseFile? && Sends(cfg, m, e, e.op.i))
  {
    if !OnFile(e.op) {
      TreeOpOk(cfg, m, e.env, e.op);
    } else if e.op.i < |m.files| {
      FileOpOk(cfg, m, e.env, e.op);
      if e.op.CloseFile? && !m.files[e.op.i].closed && !m.files[e.op.i].isDir { CloseSends(cfg, m, e); }
    }
  }

  lemma CloseSends(cfg: FsConfig, m: Mount, e: Use)
    requires MountOk(cfg, m) && e.op.CloseFile? && e.op.i < |m.files| && !m.files[e.op.i].closed
        && !m.files[e.op.i].isDir
    ensures Harmless(cfg, m, e) || Sends(cfg, m, e, e.op.i)
  {
    var h := m.files[e.op.i].handle;
    FlushAuthorised(cfg, m.fs, e.env, h);
    SameUpdate(cfg, m.fs, e.env, h, FlushHandle(m.fs, cfg, e.env, h).0, Next(cfg, m, e).fs);
  }

  lemma SameUpdate(cfg: FsConfig, s: FsState, env: Env, h: nat, a: FsState, b: FsState)
    requires a.client == b.client
    ensures SendsUpdate(cfg, s, env, DoFlush(h), a) ==> SendsUpdate(cfg, s, env, DoFlush(h), b)
  {
  }

  // ---- Files that never let go ----

  /** Closed, and still in the adapter's set. */
  predicate Stranded(m: Mount, i: nat) { i < |m.files| && m.files[i].closed && i in m.held }

  /** Closed, and gone from it. */
  predicate LetGo(m: Mount, i: nat) { i < |m.files| && !m.files[i].isDir && m.files[i].closed && i !in m.held }

  predicate SameFile(m: Mount, m': Mount, i: nat)
    requires i < |m.files|
  {
    i < |m'.files| && m'.files[i].handle == m.files[i].handle && m'.files[i].isDir == m.files[i].isDir
  }

  lemma TreeOpAdds(cfg: FsConfig, m: Mount, env: Env, op: MountOp)
    requires !OnFile(op)
    ensures
      var m' := NextOnTree(cfg, m, env, op);
      m.files <= m'.files && forall i :: i < |m.files| ==> (i in m'.held <==> i in m.held)
  {
  }

  lemma FileOpKeeps(cfg: FsConfig, m: Mount, env: Env, op: MountOp, i: nat)
    requires OnFile(op) && op.i < |m.files| && i < |m.files|
    ensures
      var m' := NextOnFile(cfg, m, env, op);
      && SameFile(m, m', i)
      && (m.files[i].closed ==> m'.files[i].closed && (i in m'.held <==> i in m.held))
  {
  }

  lemma ClosedForGood(cfg: FsConfig, m: Mount, e: Use, i: nat)
    requires i < |m.files|
    ensures
      var m' := Next(cfg, m, e);
      && SameFile(m, m', i)
      && (Stranded(m, i) ==> Stranded(m', i))
      && (LetGo(m, i) ==> LetGo(m', i))
  {
    if !OnFile(e.op) {
      TreeOpAdds(cfg, m, e.env, e.op);
      assert Next(cfg, m, e).files[i] == m.files[i];
    } else if e.op.i < |m.files| {
      FileOpKeeps(cfg, m, e.env, e.op, i);
    }
  }

  /** A file that is closed and still holds its handle stays so in every run: the handle stays
      in the adapter's set and in the filesystem's, and dirty. */
  lemma {:induction false} StrandedForEver(cfg: FsConfig, m: Mount, run: seq<Use>, i: nat)
    requires MountOk(cfg, m) && Stranded(m, i)
    ensures
      var m' := After(cfg, m, run);
      && MountOk(cfg, m') && Stranded(m', i) && SameFile(m, m', i)
      && Dirty(m'.fs, m.files[i].handle)
    decreases |run|
  {
    assert FileOk(m, i);
    if run != [] {
      NextOk(cfg, m, run[0]);
      ClosedForGood(cfg, m, run[0], i);
      StrandedForEver(cfg, Next(cfg, m, run[0]), run[1..], i);
    }
  }

  lemma {:induction false} LetGoForEver(cfg: FsConfig, m: Mount, run: seq<Use>, i: nat)
    requires MountOk(cfg, m) && LetGo(m, i)
    ensures
      var m' := After(cfg, m, run);
      && LetGo(m', i) && SameFile(m, m', i) && m.files[i].handle !in m'.fs.files
    decreases |run|
  {
    assert FileOk(m, i);
    if run != [] {
      NextOk(cfg, m, run[0]);
      ClosedForGood(cfg, m, run[0], i);
      LetGoForEver(cfg, Next(cfg, m, run[0]), run[1..], i);
    }
  }

  /** And it is behind no change of the server: each is somebody else's, a delete, or the
      update that another file's handle sends when that file is first closed. */
  lemma StrandedNeverSends(cfg: FsConfig, m: Mount, run: seq<Use>, e: Use, i: nat)
    requires MountOk(cfg, m) && Stranded(m, i)
    ensures
      var m' := After(cfg, m, run);
      || Harmless(cfg, m', e)
      || (e.op.CloseFile? && Sends(cfg, m', e, e.op.i) && m'.files[e.op.i].handle != m.files[i].handle)
  {
    StrandedForEver(cfg, m, run, i);
    var m' := After(cfg, m, run);
    OnlyCloseSends(cfg, m', e);
    if e.op.CloseFile? && Sends(cfg, m', e, e.op.i) {
      assert FileOk(m', i);
    }
  }

  // ---- The first Close decides ----

  /** The server would take this object as an update. */
  predicate Takes(server: Server, env: Env, gvr: Gvr, ns: string, obj: Object) {
    var ref := Ref(gvr, ns, obj.name);
    && !env.fails(UpdateCall(ref)) && ref in server.objects
    && (obj.version.None? || obj.version == server.objects[ref].version)
  }

  /** What can be told before a buffer is sent: for a data file, that its object is there and
      can be read and updated; for yaml and json, that the buffer is a document with a name,
      and that the server would take it. */
  predicate WillBeTaken(cfg: FsConfig, server: Server, env: Env, f: Handle) {
    var gvr, ns := InfoFor(f.node).GVR(), f.node.ns;
    if f.node.kind == NodeDataFile then
      var ref := Ref(gvr, ns, f.node.obj);
      && !env.fails(GetCall(ref)) && ref in server.objects
      && Takes(server, env, gvr, ns, WithKey(server.objects[ref], f.node.res, f.node.file, f.buf))
    else
      match cfg.client.lib.parse(f.buf)
      case None => false
      case Some(obj) => obj.name != "" && Takes(server, env, gvr, ns, obj)
  }

  /** Where the server is consistent, a data file's buffer is taken unless a call fails. */
  lemma DataFileTaken(cfg: FsConfig, server: Server, env: Env, f: Handle)
    requires ServerOk(server) && f.node.kind == NodeDataFile
    ensures
      var ref := Ref(InfoFor(f.node).GVR(), f.node.ns, f.node.obj);
      WillBeTaken(cfg, server, env, f) <==>
        ref in server.objects && !env.fails(GetCall(ref)) && !env.fails(UpdateCall(ref))
  {
  }

  lemma FlushSucceedsIff(cfg: FsConfig, s: FsState, env: Env, h: nat)
    requires Inv(s) && Dirty(s, h) && cfg.verbs.update
    ensures FlushHandle(s, cfg, env, h).1.None? <==> WillBeTaken(cfg, s.client.server, env, s.files[h])
  {
  }

  /** Closing this file now would leave it stranded. */
  predicate Strands(cfg: FsConfig, m: Mount, env: Env, i: nat)
    requires i < |m.files|
  {
    Dirty(m.fs, m.files[i].handle) && !WillBeTaken(cfg, m.fs.client.server, env, m.fs.files[m.files[i].handle])
  }

  lemma CloseStrandsIff(cfg: FsConfig, m: Mount, env: Env, i: nat)
    requires MountOk(cfg, m) && i < |m.files| && !m.files[i].isDir && !m.files[i].closed
    ensures
      var m' := Next(cfg, m, Use(env, CloseFile(i)));
      && SameFile(m, m', i)
      && (Strands(cfg, m, env, i) ==> Stranded(m', i))
      && (!Strands(cfg, m, env, i) ==> LetGo(m', i))
  {
    var h := m.files[i].handle;
    assert FileOk(m, i);
    if Dirty(m.fs, h) {
      FlushSucceedsIff(cfg, m.fs, env, h);
    }
  }

  /** The first Close of a file decides for good. However the adapter was used before and
      whatever happens afterwards, closing it again included: the handle is gone from both
      sides if and only if at that Close it was clean or the server would take its buffer, and
      otherwise both sides keep it, dirty. */
  lemma FirstCloseDecides(cfg: FsConfig, server: Server, now: int, before: seq<Use>, env: Env, i: nat, run: seq<Use>)
    requires
      var m := After(cfg, StartMount(server, now), before);
      i < |m.files| && !m.files[i].isDir && !m.files[i].closed
    ensures
      var m := After(cfg, StartMount(server, now), before);
      var h, m' := m.files[i].handle, After(cfg, Next(cfg, m, Use(env, CloseFile(i))), run);
      && (i in m'.held <==> Strands(cfg, m, env, i))
      && (h in m'.fs.files <==> Strands(cfg, m, env, i))
      && (Strands(cfg, m, env, i) ==> Dirty(m'.fs, h))
  {
    var m := After(cfg, StartMount(server, now), before);
    StartOk(cfg, server, now);
    AfterOk(cfg, StartMount(server, now), before);
    NextOk(cfg, m, Use(env, CloseFile(i)));
    CloseStrandsIff(cfg, m, env, i);
    var m1 := Next(cfg, m, Use(env, CloseFile(i)));
    if Strands(cfg, m, env, i) {
      StrandedForEver(cfg, m1, run, i);
    } else {
      LetGoForEver(cfg, m1, run, i);
    }
  }
}
