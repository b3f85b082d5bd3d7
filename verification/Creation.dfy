/** A run that creates a file the way the documentation describes, and is refused. */
module Creation {
  import opened Prelude
  import opened Api
  import opened TableSpec
  import opened FsSpec
  import opened Runs
  import opened Scene

  /** With all verbs on, a walk to the type, a create that succeeds, and every write to the
      new file answered with EPERM. */
  lemma CreatedThenRefused() returns (run: seq<Event>, env: Env, p: nat)
    ensures
      var s := Run(Setup(), Start(Cluster(), 0), run);
      var (s', made) := CreateAndOpen(s, Setup(), env, p, "x.yaml");
      && Setup().verbs.create && Setup().verbs.update
      && made.Ok?
      && forall offset: nat, data :: WriteHandle(s', Setup(), made.value.1, offset, data).1 == Err(EPERM)
  {
    var s: FsState, e: Inode;
    run, s, e := TypeReached();
    env, p := At(0, Cluster().lists), e.id;
    CreatedPending(s, env, e);
  }

  lemma TypeReached() returns (run: seq<Event>, s: FsState, e: Inode)
    ensures Run(Setup(), Start(Cluster(), 0), run) == s && Inv(s) && Live(s, e) && e.kind == NodeResourceType
  {
    var a: Inode, b: Inode;
    run, s, a, b := Begin();
    run, s, e := SeeType(run, s, 0, 0, Cluster().lists, OLD, a, b);
  }

  lemma CreatedPending(s: FsState, env: Env, e: Inode)
    requires Inv(s) && Live(s, e) && e.kind == NodeResourceType
    ensures
      var (s', made) := CreateAndOpen(s, Setup(), env, e.id, "x.yaml");
      made.Ok? && forall offset: nat, data :: WriteHandle(s', Setup(), made.value.1, offset, data).1 == Err(EPERM)
  {
    assert HasSuffix("x.yaml", ".yaml") by { assert "x.yaml"[1..] == ".yaml"; }
    var proto := PendingProto(e, "x.yaml", env.now);
    assert NodeLinked(s.table, e.id);
    AddedChild(s.table, e.id, proto);
    PendingNotWritable(e, AddChild(s.table, e.id, proto).1);
  }
}
