/** Who may change the server, over whole runs. */
module Authority {
  import opened Prelude
  import opened Api
  import opened ClientSpec
  import opened TableSpec
  import opened FsSpec
  import opened Runs

  /** A step changes the server only as somebody else's change, as the deletion of the
      object a directory stands for, or as one update sent by a dirty writable handle. */
  ghost predicate Authorised(cfg: FsConfig, s: FsState, env: Env, op: Op, s': FsState) {
    || s'.client.server == s.client.server
    || op.ServerChange?
    || DeletesObject(cfg, s, env, op, s')
    || SendsUpdate(cfg, s, env, op, s')
  }

  ghost predicate DeletesObject(cfg: FsConfig, s: FsState, env: Env, op: Op, s': FsState) {
    && op.DoRemove? && op.isDir && cfg.verbs.delete
    && LookupChild(s.table, op.p, op.name).Some?
    && var child := LookupChild(s.table, op.p, op.name).value;
    && child.kind == NodeObject
    && Delete(s.client.server, env, Ref(InfoFor(child).GVR(), child.ns, child.obj)) == Ok(s'.client.server)
  }

  ghost predicate SendsUpdate(cfg: FsConfig, s: FsState, env: Env, op: Op, s': FsState) {
    && op.DoFlush? && cfg.verbs.update
    && op.h in s.files
    && var f := s.files[op.h];
    && f.dirty && !f.pending && Writable(f.node)
    && exists obj :: Carries(cfg, s.client.server, f, obj)
                     && Update(s.client.server, env, InfoFor(f.node).GVR(), f.node.ns, obj) == Ok(s'.client.server)
  }

  /** The object sent is the stored one with the file's key set to the buffer, or the
      document in the buffer. */
  ghost predicate Carries(cfg: FsConfig, server: Server, f: Handle, obj: Object) {
    if f.node.kind == NodeDataFile then
      var ref := Ref(InfoFor(f.node).GVR(), f.node.ns, f.node.obj);
      ref in server.objects && obj == WithKey(server.objects[ref], f.node.res, f.node.file, f.buf)
    else cfg.client.lib.parse(f.buf) == Some(obj)
  }

  lemma ApplyChanges(c: ClientSpec.State, cfg: FsConfig, env: Env, f: Handle) returns (obj: Object)
    ensures
      var (c', err) := ApplyContent(c, cfg.client, env, f.node, f.buf);
      if err.Some? then c'.server == c.server
      else
        && Carries(cfg, c.server, f, obj)
        && Update(c.server, env, InfoFor(f.node).GVR(), f.node.ns, obj) == Ok(c'.server)
  {
    var node, data := f.node, f.buf;
    obj := Object("", None, 0, Absent, 0);
    if node.kind == NodeDataFile {
      var r := Get(c.server, env, Ref(InfoFor(node).GVR(), node.ns, node.obj));
      if r.Ok? {
        obj := WithKey(r.value, node.res, node.file, data);
      }
    } else if node.kind == NodeFile && cfg.client.lib.parse(data).Some? {
      obj := cfg.client.lib.parse(data).value;
    }
  }

  lemma FlushAuthorised(cfg: FsConfig, s: FsState, env: Env, h: nat)
    requires h in s.files ==> HandleOk(s.table, s.files[h])
    ensures Authorised(cfg, s, env, DoFlush(h), FlushHandle(s, cfg, env, h).0)
  {
    if h in s.files && s.files[h].dirty {
      var f := s.files[h];
      var obj := ApplyChanges(s.client, cfg, env, f);
    }
  }

  lemma ReadsKeepServer(cfg: FsConfig, s: FsState, env: Env, op: Op)
    requires !op.DoRemove? && !op.DoFlush? && !op.ServerChange?
    ensures Step(cfg, s, env, op).client.server == s.client.server
  {
  }

  lemma StepAuthorised(cfg: FsConfig, s: FsState, env: Env, op: Op)
    requires Inv(s)
    ensures Authorised(cfg, s, env, op, Step(cfg, s, env, op))
  {
    if op.DoFlush? {
      FlushAuthorised(cfg, s, env, op.h);
    } else if op.DoRemove? {
      RemoveAuthorised(cfg, s, env, op.p, op.name, op.isDir);
    } else if !op.ServerChange? {
      ReadsKeepServer(cfg, s, env, op);
    }
  }

  lemma RemoveAuthorised(cfg: FsConfig, s: FsState, env: Env, p: nat, name: string, isDir: bool)
    ensures Authorised(cfg, s, env, DoRemove(p, name, isDir), Remove(s, cfg, env, p, name, isDir).0)
  {
  }

  /** An accepted write to h, made with the update verb. */
  ghost predicate AcceptedWrite(cfg: FsConfig, s: FsState, e: Event, h: nat) {
    cfg.verbs.update && Writes(cfg, s, e, h)
  }

  ghost predicate WrittenDuring(cfg: FsConfig, s: FsState, run: seq<Event>, h: nat) {
    exists i :: 0 <= i < |run| && AcceptedWrite(cfg, Run(cfg, s, run[..i]), run[i], h)
  }

  lemma {:induction false} RunSnoc(cfg: FsConfig, s: FsState, run: seq<Event>, e: Event)
    ensures Run(cfg, s, run + [e]) == Step(cfg, Run(cfg, s, run), e.env, e.op)
    decreases |run|
  {
    if run == [] {
      assert Run(cfg, s, [e]) == Run(cfg, Step(cfg, s, e.env, e.op), []);
    } else {
      assert (run + [e])[1..] == run[1..] + [e];
      RunSnoc(cfg, Step(cfg, s, run[0].env, run[0].op), run[1..], e);
    }
  }

  lemma DirtyStep(cfg: FsConfig, s: FsState, e: Event, h: nat)
    requires h in s.files ==> HandleOk(s.table, s.files[h])
    requires h in Step(cfg, s, e.env, e.op).files && Step(cfg, s, e.env, e.op).files[h].dirty
    ensures (h in s.files && s.files[h].dirty) || AcceptedWrite(cfg, s, e, h)
  {
    if !TouchesFiles(e.op) {
      FilesUntouched(cfg, s, e.env, e.op);
    } else if e.op.DoOpen? {
      OpenedFiles(cfg, s, e.env, e.op.id);
    } else if e.op.DoFlush? {
      FlushedFiles(cfg, s, e.env, e.op.h);
    }
  }

  /** A handle is dirty only because of a write that the update verb let through. */
  lemma {:induction false} DirtyWasWritten(cfg: FsConfig, server: Server, now: int, run: seq<Event>, h: nat)
    requires
      var s := Run(cfg, Start(server, now), run);
      h in s.files && s.files[h].dirty
    ensures WrittenDuring(cfg, Start(server, now), run, h)
    decreases |run|
  {
    if run != [] {
      var start := Start(server, now);
      var front, e := run[..|run| - 1], run[|run| - 1];
      assert run == front + [e];
      LastStep(cfg, server, now, front, e, h);
      if AcceptedWrite(cfg, Run(cfg, start, front), e, h) {
        assert run[..|front|] == front;
      } else {
        DirtyWasWritten(cfg, server, now, front, h);
        var i :| 0 <= i < |front| && AcceptedWrite(cfg, Run(cfg, start, front[..i]), front[i], h);
        assert run[..i] == front[..i] && run[i] == front[i];
      }
    }
  }

  lemma LastStep(cfg: FsConfig, server: Server, now: int, front: seq<Event>, e: Event, h: nat)
    requires
      var s := Run(cfg, Start(server, now), front + [e]);
      h in s.files && s.files[h].dirty
    ensures
      var s := Run(cfg, Start(server, now), front);
      (h in s.files && s.files[h].dirty) || AcceptedWrite(cfg, s, e, h)
  {
    RunSnoc(cfg, Start(server, now), front, e);
    StartInv(server, now);
    RunKeepsInv(cfg, Start(server, now), front);
    DirtyStep(cfg, Run(cfg, Start(server, now), front), e, h);
  }

  /** Over every run from the start, each change of the server is authorised: somebody
      else's, a delete under the delete verb of a directory that stands for an object, or
      an update from a handle that was written under the update verb. */
  lemma AuthorisedMutation(cfg: FsConfig, server: Server, now: int, run: seq<Event>, e: Event)
    ensures
      var s := Run(cfg, Start(server, now), run);
      var s' := Step(cfg, s, e.env, e.op);
      && Authorised(cfg, s, e.env, e.op, s')
      && (SendsUpdate(cfg, s, e.env, e.op, s') ==> WrittenDuring(cfg, Start(server, now), run, e.op.h))
  {
    StartInv(server, now);
    RunKeepsInv(cfg, Start(server, now), run);
    var s := Run(cfg, Start(server, now), run);
    StepAuthorised(cfg, s, e.env, e.op);
    if SendsUpdate(cfg, s, e.env, e.op, Step(cfg, s, e.env, e.op)) {
      DirtyWasWritten(cfg, server, now, run, e.op.h);
    }
  }

  ghost predicate Undisturbed(run: seq<Event>) {
    forall i :: 0 <= i < |run| ==> !run[i].op.ServerChange?
  }

  /** What the verbs let the filesystem do to the server. */
  ghost predicate Within(verbs: Verbs, before: Server, after: Server) {
    && (!verbs.update && !verbs.delete ==> after == before)
    && (!verbs.update ==>
          forall ref :: ref in after.objects ==> ref in before.objects && after.objects[ref] == before.objects[ref])
    && (!verbs.delete ==> after.objects.Keys == before.objects.Keys)
    && after.objects.Keys <= before.objects.Keys
  }

  lemma StepWithin(cfg: FsConfig, s: FsState, e: Event)
    requires Inv(s) && !e.op.ServerChange?
    ensures Within(cfg.verbs, s.client.server, Step(cfg, s, e.env, e.op).client.server)
  {
    StepAuthorised(cfg, s, e.env, e.op);
    ChangesWithin(cfg, s, e.env, e.op, Step(cfg, s, e.env, e.op));
  }

  lemma ChangesWithin(cfg: FsConfig, s: FsState, env: Env, op: Op, s': FsState)
    requires Authorised(cfg, s, env, op, s') && !op.ServerChange?
    ensures Within(cfg.verbs, s.client.server, s'.client.server)
  {
  }

  /** Without the update and delete verbs no sequence of operations changes the server,
      truncations included; without the update verb none changes an object; without the
      delete verb none removes one; and no verbs at all let a run add one. */
  lemma {:induction false} ReadOnlySafe(cfg: FsConfig, s: FsState, run: seq<Event>)
    requires Inv(s) && Undisturbed(run)
    ensures Within(cfg.verbs, s.client.server, Run(cfg, s, run).client.server)
    decreases |run|
  {
    if run != [] {
      StepWithin(cfg, s, run[0]);
      StepKeepsInv(cfg, s, run[0].env, run[0].op);
      ReadOnlySafe(cfg, Step(cfg, s, run[0].env, run[0].op), run[1..]);
    }
  }

  /** Every open file of node n is n itself, n takes no writes, and handle h, if it is still
      open, is one of them. */
  ghost predicate Sealed(s: FsState, n: Inode, h: nat) {
    && !Writable(n) && n.id < s.table.next && h < s.nextHandle
    && (n.id in s.table.inodes ==> s.table.inodes[n.id] == n)
    && (forall k :: k in s.files && (k == h || s.files[k].node.id == n.id) ==> s.files[k].node == n)
  }

  lemma CreateSeals(cfg: FsConfig, s: FsState, env: Env, p: nat, name: string)
    requires Inv(s) && CreateAndOpen(s, cfg, env, p, name).1.Ok?
    ensures
      var (s', r) := CreateAndOpen(s, cfg, env, p, name);
      Sealed(s', r.value.0, r.value.1)
  {
    var proto := PendingProto(s.table.inodes[p], name, env.now);
    AddTyped(s.table, p, proto);
    AddedChild(s.table, p, proto);
    var (t, child) := AddChild(s.table, p, proto);
    PendingNotWritable(s.table.inodes[p], child);
    ChildLive(t, p, name);
    HandlesLater(s, t);
  }

  lemma StaysSealed(cfg: FsConfig, s: FsState, e: Event, n: Inode, h: nat)
    requires Inv(s) && Sealed(s, n, h)
    ensures Sealed(Step(cfg, s, e.env, e.op), n, h)
  {
    StepKeepsInv(cfg, s, e.env, e.op);
    HandlesBorn(cfg, s, e);
    OldHandles(cfg, s, e, h);
  }

  /** A number handed out before stands for the file it stood for, or none. */
  lemma OldHandles(cfg: FsConfig, s: FsState, e: Event, h: nat)
    requires h < s.nextHandle
    ensures
      var s' := Step(cfg, s, e.env, e.op);
      s.nextHandle <= s'.nextHandle && (h in s'.files ==> h in s.files && s'.files[h].node == s.files[h].node)
  {
    if !TouchesFiles(e.op) {
      FilesUntouched(cfg, s, e.env, e.op);
    } else if e.op.DoOpen? {
      OpenedFiles(cfg, s, e.env, e.op.id);
    } else if e.op.DoFlush? {
      FlushedFiles(cfg, s, e.env, e.op.h);
    }
  }

  lemma {:induction false} RunStaysSealed(cfg: FsConfig, s: FsState, run: seq<Event>, n: Inode, h: nat)
    requires Inv(s) && Sealed(s, n, h)
    ensures Inv(Run(cfg, s, run)) && Sealed(Run(cfg, s, run), n, h)
    decreases |run|
  {
    if run != [] {
      StepKeepsInv(cfg, s, run[0].env, run[0].op);
      StaysSealed(cfg, s, run[0], n, h);
      RunStaysSealed(cfg, Step(cfg, s, run[0].env, run[0].op), run[1..], n, h);
    }
  }

  /** The documented way to create an object never reaches the server. Whenever CreateAndOpen
      succeeds, in any run, then in every continuation the handle it returned, and every
      other handle that is ever opened on the node it returned, is clean, refuses every
      write, and sends nothing. */
  lemma NoCreateReachesServer(cfg: FsConfig, server: Server, now: int, run: seq<Event>, env: Env, p: nat, name: string,
      later: seq<Event>, k: nat)
    requires CreateAndOpen(Run(cfg, Start(server, now), run), cfg, env, p, name).1.Ok?
    ensures
      var (s, made) := CreateAndOpen(Run(cfg, Start(server, now), run), cfg, env, p, name);
      var s' := Run(cfg, s, later);
      k in s'.files && (k == made.value.1 || s'.files[k].node.id == made.value.0.id) ==>
        && !s'.files[k].dirty
        && (forall offset: nat, data ::
              WriteHandle(s', cfg, k, offset, data).0 == s' && WriteHandle(s', cfg, k, offset, data).1.Err?)
        && (forall env' :: FlushHandle(s', cfg, env', k) == (s', None))
  {
    StartInv(server, now);
    RunKeepsInv(cfg, Start(server, now), run);
    CreateKeepsInv(Run(cfg, Start(server, now), run), cfg, env, p, name);
    CreateSeals(cfg, Run(cfg, Start(server, now), run), env, p, name);
    var (s, made) := CreateAndOpen(Run(cfg, Start(server, now), run), cfg, env, p, name);
    RunStaysSealed(cfg, s, later, made.value.0, made.value.1);
    var s' := Run(cfg, s, later);
    if k in s'.files && (k == made.value.1 || s'.files[k].node.id == made.value.0.id) {
      SealedRefuses(cfg, s', made.value.0, made.value.1, k);
    }
  }

  lemma SealedRefuses(cfg: FsConfig, s: FsState, n: Inode, h: nat, k: nat)
    requires Inv(s) && Sealed(s, n, h) && k in s.files && (k == h || s.files[k].node.id == n.id)
    ensures !s.files[k].dirty
    ensures forall offset: nat, data ::
      WriteHandle(s, cfg, k, offset, data).0 == s && WriteHandle(s, cfg, k, offset, data).1.Err?
    ensures forall env :: FlushHandle(s, cfg, env, k) == (s, None)
  {
  }

  /** On every reachable state a write is accepted exactly when the handle is open on a
      data file or on a file named yaml or json, and the update verb is enabled. */
  lemma WriteAcceptedIff(cfg: FsConfig, s: FsState, h: nat, offset: nat, data: Bytes)
    requires Inv(s)
    ensures WriteHandle(s, cfg, h, offset, data).1.Ok? <==>
      h in s.files && cfg.verbs.update && Writable(s.files[h].node)
  {
  }

  /** The write bit that GetAttr shows for a file is the truth: it is set exactly when a handle
      opened on the file takes writes. */
  lemma WriteBitIsTrue(cfg: FsConfig, s: FsState, env: Env, env': Env, id: nat, offset: nat, data: Bytes)
    requires Inv(s) && id in s.table.inodes && !s.table.inodes[id].IsDir()
    ensures
      var attr, (s', h) := GetAttr(s, cfg, env, id).1, OpenFile(s, cfg, env', id);
      attr.Ok? && h.Ok? && (attr.value.perm / 128 % 2 == 1 <==> WriteHandle(s', cfg, h.value, offset, data).1.Ok?)
  {
  }

  /** A flush never meets the provider's refusals: a dirty handle is on a writable node. */
  lemma FlushMeetsNoRefusal(cfg: FsConfig, s: FsState, env: Env, h: nat)
    requires Inv(s) && h in s.files && s.files[h].dirty
    ensures
      var f := s.files[h];
      && !f.pending
      && ApplyContent(s.client, cfg.client, env, f.node, f.buf).1 != Some(ReadOnlyFile)
      && ApplyContent(s.client, cfg.client, env, f.node, f.buf).1 != Some(NotAFile)
  {
  }
}
