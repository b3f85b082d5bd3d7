/** A run in which a Close fails: a yaml file is edited into something that is no document. */
module Unsaved {
  import opened Prelude
  import opened Api
  import opened Keys
  import opened ClientSpec
  import opened TableSpec
  import opened FsSpec
  import opened Runs
  import opened Naming
  import opened PathSpec
  import opened Paths
  import opened Mounts
  import opened Closing
  import opened Scene

  const PATH := ["a", "events", "o", "yaml"]

  function Versions(): Assignment { (name: string) => OLD }

  ghost function Now(): Env { At(0, Cluster().lists) }

  lemma StartNamedHere()
    ensures ServerNamed(Cluster()) && Named(Stable(Versions()), Start(Cluster(), 0))
    ensures EnvNamed(Stable(Versions()), Cluster(), Now()) && Discover(Cluster(), Now()) == Cluster().lists
  {
    assert ColonFree("a") && ColonFree("b") && ColonFree("");
    AnswersAt(0, Cluster().lists);
    EventsAmong(Cluster().lists, OLD);
    NothingElse(Cluster().lists);
  }

  lemma TypesListed()
    ensures Types(Start(Cluster(), 0).client, Setup(), Now()) == Discovered(Cluster().lists)
    ensures "events" in Paths.Listing(Start(Cluster(), 0).client, Setup(), Now(), ["a"])
    ensures TypeInfo(Start(Cluster(), 0).client, Setup(), Now(), "events") == ResourceInfo("", "v1", "events", "")
  {
    StartNamedHere();
    EventsAmong(Cluster().lists, OLD);
  }

  lemma NamespaceListed()
    ensures "a" in Paths.Listing(Start(Cluster(), 0).client, Setup(), Now(), [])
  {
    AnswersAt(0, Cluster().lists);
    SortedNames(Now().order({"a", "b"}), {"a", "b"});
  }

  lemma ObjectListed()
    ensures "o" in Paths.Listing(Start(Cluster(), 0).client, Setup(), Now(), ["a", "events"])
  {
    AnswersAt(0, Cluster().lists);
    TypesListed();
    ObjectAnswered(Start(Cluster(), 0).client, Now(), ResourceInfo("", "v1", "events", ""));
  }

  lemma ObjectAnswered(c: ClientSpec.State, env: Env, ri: ResourceInfo)
    requires c.server == Cluster() && c.cache == map[] && ri == ResourceInfo("", "v1", "events", "")
    requires env.Valid() && !env.fails(ListCall(ri.GVR(), "a"))
    ensures "o" in NamesAnswered(Ask(c, Setup().client, env, Query(View.Listing("a", "events"), ri)).1)
  {
    OneListed(env, ri.GVR());
  }

  lemma FileListed()
    ensures "yaml" in FixedNames("events")
  {
    assert ActionFiles("events")[0] == "yaml";
  }

  lemma AllListed()
    ensures Listed(Start(Cluster(), 0).client, Setup(), Now(), PATH)
  {
    NamespaceListed();
    TypesListed();
    ObjectListed();
    FileListed();
    FourListed(Start(Cluster(), 0).client, Setup(), Now(), "a", "events", "o", "yaml");
  }

  lemma FourListed(c: ClientSpec.State, cfg: FsConfig, env: Env, ns: string, res: string, obj: string, file: string)
    requires ns in Paths.Listing(c, cfg, env, []) && res in Paths.Listing(c, cfg, env, [ns])
    requires obj in Paths.Listing(c, cfg, env, [ns, res]) && file in FixedNames(res)
    ensures Listed(c, cfg, env, [ns, res, obj, file])
  {
    var path := [ns, res, obj, file];
    forall i | 0 <= i < 4 ensures path[i] in Paths.Listing(c, cfg, env, path[..i]) {
      if i == 0 {
        assert path[..0] == [];
      } else if i == 1 {
        assert path[..1] == [ns];
      } else if i == 2 {
        assert path[..2] == [ns, res];
      } else {
        assert path[..3] == [ns, res, obj];
      }
    }
  }

  /** The path leads to a file called yaml. */
  lemma Found() returns (n: Inode)
    ensures
      var (s, r) := Resolve(Start(Cluster(), 0), Setup(), Now(), PATH);
      && r == Ok(Some(n)) && Inv(s) && Live(s, n) && n.kind == NodeFile && n.file == "yaml"
      && s.files == map[] && s.nextHandle == 1
  {
    var s0 := Start(Cluster(), 0);
    StartInv(Cluster(), 0);
    StartNamedHere();
    AllListed();
    ResolveRefinesListing(Versions(), Setup(), Now(), s0, PATH);
    ResolveKeeps(Setup(), s0, Now(), PATH);
    var (s, r) := Resolve(s0, Setup(), Now(), PATH);
    n := r.value.value;
    KindAt(s.table, n.id);
    assert "yaml"[0] != "data"[0];
    assert NodeTyped(s.table, n.id);
  }

  /** The file is opened and written to. */
  function Edit(env: Env): seq<Use> { [Use(env, OpenPath(PATH)), Use(env, WriteFile(0, []))] }

  lemma Edited() returns (n: Inode)
    ensures
      var m := After(Setup(), StartMount(Cluster(), 0), Edit(Now()));
      OneOpen(m, n) && m.fs.files[1].dirty
  {
    n := Found();
    OpenThenWrite(StartMount(Cluster(), 0), Now(), PATH, n);
  }

  lemma OpenThenWrite(m: Mount, env: Env, path: seq<string>, n: Inode)
    requires m.files == [] && m.held == {} && n.kind == NodeFile && n.file == "yaml"
    requires
      var (s, r) := Resolve(m.fs, Setup(), env, path);
      r == Ok(Some(n)) && Live(s, n) && s.nextHandle == 1
    ensures
      var m' := After(Setup(), m, [Use(env, OpenPath(path)), Use(env, WriteFile(0, []))]);
      OneOpen(m', n) && m'.fs.files[1].dirty
  {
    PathOpened(m, env, path, n);
    BytesWritten(Opened(Setup(), m, env, path), n);
    TwoUses(m, [Use(env, OpenPath(path)), Use(env, WriteFile(0, []))]);
  }

  lemma TwoUses(m: Mount, run: seq<Use>)
    requires |run| == 2
    ensures After(Setup(), m, run) == Mounts.Next(Setup(), Mounts.Next(Setup(), m, run[0]), run[1])
  {
    var m1 := Mounts.Next(Setup(), m, run[0]);
    assert After(Setup(), m, run) == After(Setup(), m1, run[1..]);
    assert run[1..][1..] == [] && After(Setup(), Mounts.Next(Setup(), m1, run[1]), []) ==
        Mounts.Next(Setup(), m1, run[1]);
  }

  /** A mount with one file, open and clean, on a yaml node. */
  ghost predicate OneOpen(m: Mount, n: Inode) {
    && m.files == [File(n, 1, false, 0, false)] && m.held == {0}
    && 1 in m.fs.files && m.fs.files[1].node == n && !m.fs.files[1].pending
    && n.kind == NodeFile && n.file == "yaml"
  }

  lemma PathOpened(m: Mount, env: Env, path: seq<string>, n: Inode)
    requires m.files == [] && m.held == {} && n.kind == NodeFile && n.file == "yaml"
    requires
      var (s, r) := Resolve(m.fs, Setup(), env, path);
      r == Ok(Some(n)) && Live(s, n) && s.nextHandle == 1
    ensures OneOpen(Opened(Setup(), m, env, path), n)
  {
    OpenedAs(Resolve(m.fs, Setup(), env, path).0, env, n);
  }

  lemma OpenedAs(s: FsState, env: Env, n: Inode)
    requires Live(s, n)
    ensures
      var (s', h) := OpenFile(s, Setup(), env, n.id);
      && h == Ok(s.nextHandle) && s.nextHandle in s'.files
      && s'.files[s.nextHandle].node == n && !s'.files[s.nextHandle].pending
  {
  }

  lemma BytesWritten(m: Mount, n: Inode)
    requires OneOpen(m, n)
    ensures
      var m' := Written(Setup(), m, 0, []);
      OneOpen(m', n) && m'.fs.files[1].dirty
  {
  }

  /** No call fails, but what was written is no document. So the first Close fails, and
      by FirstCloseDecides the handle stays for ever. */
  lemma NoDocument() returns (env: Env)
    ensures forall call :: call != DiscoverCall ==> !env.fails(call)
    ensures
      var m := After(Setup(), StartMount(Cluster(), 0), Edit(env));
      && |m.files| == 1 && !m.files[0].isDir && !m.files[0].closed
      && Strands(Setup(), m, env, 0)
      && CloseHandle(m.fs, Setup(), env, m.files[0].handle).1 == Some(EIO)
  {
    env := Now();
    AnswersAt(0, Cluster().lists);
    var n := Edited();
  }
}
