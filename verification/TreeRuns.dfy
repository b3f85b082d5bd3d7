/** The tree over whole runs: one path per node, a typed shape, bounded depth. */
module TreeRuns {
  import opened Prelude
  import opened Api
  import opened TableSpec
  import opened FsSpec
  import opened Runs

  /** How deep a node of a kind can lie. */
  function Level(kind: NodeType): nat {
    match kind
    case NodeRoot => 0
    case NodeNamespace => 1
    case NodeResourceType => 2
    case NodeObject => 3
    case NodeFile => 4
    case NodeDataDir => 4
    case NodeDataFile => 5
  }

  lemma {:induction false} DepthBounded(t: Table, x: nat)
    requires Good(t) && TypedTree(t) && x in t.inodes
    ensures |PathTo(t, x)| <= Level(t.inodes[x].kind)
    decreases x
  {
    assert NodeLinked(t, x);
    if x != ROOT {
      assert NodeTyped(t, x);
      DepthBounded(t, t.inodes[x].parent);
    }
  }

  /** Below the level that sets it, a coordinate is the name of the ancestor on that level. */
  lemma {:induction false} Coordinates(t: Table, x: nat)
    requires Good(t) && TypedTree(t) && x in t.inodes
    ensures
      var n, path := t.inodes[x], PathTo(t, x);
      && (|path| >= 1 ==> n.ns == path[0])
      && (|path| >= 2 ==> n.res == path[1])
      && (|path| >= 3 && n.obj != "" ==> n.obj == path[2])
      && (|path| >= 1 ==> n.name == path[|path| - 1])
      && (n.kind != NodeFile ==> |path| == Level(n.kind))
      && (n.kind == NodeFile ==> |path| == 4 || (|path| == 3 && n.obj == ""))
    decreases x
  {
    assert NodeLinked(t, x);
    if x != ROOT {
      assert NodeTyped(t, x);
      Coordinates(t, t.inodes[x].parent);
    }
  }

  /** After any run from the start: exactly the live directories have an index, whose entries
      lead to live nodes of the entry's name and directory. */
  lemma IndexOverRuns(cfg: FsConfig, server: Server, now: int, run: seq<Event>, p: nat, name: string)
    ensures
      var t := Run(cfg, Start(server, now), run).table;
      && (p in t.index <==> p in t.inodes && t.inodes[p].IsDir())
      && (p in t.index && name in t.index[p] ==>
            var c := t.index[p][name];
            p < c && c in t.inodes && t.inodes[c].id == c && t.inodes[c].name == name && t.inodes[c].parent == p)
  {
    StartInv(server, now);
    RunKeepsInv(cfg, Start(server, now), run);
    var t := Run(cfg, Start(server, now), run).table;
    if p in t.index && name in t.index[p] {
      assert EntryLinked(t, p, name);
      assert NodeLinked(t, t.index[p][name]);
    }
  }

  /** After any run from the start: every live node hangs from the root by its own path and
      no other, at most five names deep, and its coordinates are the names on that path. */
  lemma TreeOverRuns(cfg: FsConfig, server: Server, now: int, run: seq<Event>, x: nat, path: seq<string>)
    requires x in Run(cfg, Start(server, now), run).table.inodes
    ensures
      var t := Run(cfg, Start(server, now), run).table;
      && (Walk(t, ROOT, path) == Some(x) <==> path == PathTo(t, x))
      && |PathTo(t, x)| <= 5
      && ROOT in t.inodes
      && (forall p :: p in t.index <==> p in t.inodes && t.inodes[p].IsDir())
      && (|PathTo(t, x)| >= 1 ==> t.inodes[x].ns == PathTo(t, x)[0])
      && (|PathTo(t, x)| >= 2 ==> t.inodes[x].res == PathTo(t, x)[1])
  {
    StartInv(server, now);
    RunKeepsInv(cfg, Start(server, now), run);
    var t := Run(cfg, Start(server, now), run).table;
    UniquePath(t, x, path);
    DepthBounded(t, x);
    Coordinates(t, x);
  }
}
