/** The inode tree on plain values: nodes by ID, and an index of child names per
    directory. */
module TableSpec {
  import opened Prelude

  const ROOT: nat := 1

  datatype NodeType =
    | NodeRoot
    | NodeNamespace
    | NodeResourceType
    | NodeObject
    | NodeFile
    | NodeDataDir
    | NodeDataFile

  /** An inode never changes after AddChild has numbered it, and its number is never given
      to another, so comparing IDs is comparing nodes. */
  datatype Inode = Inode(
    id: nat,
    name: string,
    kind: NodeType,
    parent: nat,
    ns: string,
    res: string,
    obj: string,
    file: string,
    group: string,
    version: string,
    created: int)
  {
    predicate IsDir() { kind != NodeFile && kind != NodeDataFile }
  }

  datatype Table = Table(inodes: map<nat, Inode>, index: map<nat, map<string, nat>>, next: nat)

  function RootInode(now: int): Inode {
    Inode(ROOT, "", NodeRoot, ROOT, "", "", "", "", "", "", now)
  }

  function NewTable(now: int): Table {
    Table(map[ROOT := RootInode(now)], map[ROOT := map[]], ROOT + 1)
  }

  function LookupChild(t: Table, p: nat, name: string): Option<Inode> {
    if p in t.index && name in t.index[p] && t.index[p][name] in t.inodes
    then Some(t.inodes[t.index[p][name]]) else None
  }

  function ChildNames(t: Table, p: nat): set<string> {
    if p in t.index then t.index[p].Keys else {}
  }

  /** Finds the child called proto.name, or numbers a new one. */
  function AddChild(t: Table, p: nat, proto: Inode): (Table, Inode) {
    if p in t.index && proto.name in t.index[p] && t.index[p][proto.name] in t.inodes then
      (t, t.inodes[t.index[p][proto.name]])
    else
      var child := proto.(id := t.next, parent := p);
      var children := if p in t.index then t.index[p] else map[];
      var index := t.index[p := children[proto.name := t.next]];
      (Table(t.inodes[t.next := child],
             if child.IsDir() then index[t.next := map[]] else index,
             t.next + 1), child)
  }

  // ---- Descendants, by parent links ----

  /** a is x or an ancestor of x. */
  predicate Above(t: Table, a: nat, x: nat)
    decreases x
  {
    x == a || (x in t.inodes && t.inodes[x].parent < x && Above(t, a, t.inodes[x].parent))
  }

  /** The live nodes at or below a. */
  function Subtree(t: Table, a: nat): set<nat> {
    set x | x in t.inodes && Above(t, a, x)
  }

  /** The live nodes at or below the children of p named in drop. */
  function Under(t: Table, p: nat, drop: set<string>): set<nat>
    requires p in t.index
  {
    set x | x in t.inodes && exists n :: n in t.index[p] && n in drop && Above(t, t.index[p][n], x)
  }

  function Prune(t: Table, gone: set<nat>): Table {
    Table(t.inodes - gone, t.index - gone, t.next)
  }

  /** Both maps lose the named children with everything below them, and nothing else. */
  function DropNames(t: Table, p: nat, drop: set<string>): Table {
    if p !in t.index then t
    else
      var gone := Under(t, p, drop);
      Table(t.inodes - gone, (t.index - gone)[p := t.index[p] - drop], t.next)
  }

  function RemoveChild(t: Table, p: nat, name: string): (Table, bool) {
    if name in ChildNames(t, p) then (DropNames(t, p, {name}), true) else (t, false)
  }

  function RemoveChildren(t: Table, p: nat, keep: set<string>): Table {
    DropNames(t, p, ChildNames(t, p) - keep)
  }

  // ---- Invariants ----

  /** What every interleaving of table operations keeps, and what still holds in the
      middle of a deletion: links up and down agree, and children have larger IDs. An
      entry may only dangle while its subtree is being deleted. */
  ghost predicate Linked(t: Table) {
    && (forall x {:trigger NodeLinked(t, x)} :: x in t.inodes ==> NodeLinked(t, x))
    && (forall p :: p in t.index ==> p < t.next)
    && (forall p, n {:trigger EntryLinked(t, p, n)} :: p in t.index && n in t.index[p] ==> EntryLinked(t, p, n))
  }

  ghost predicate NodeLinked(t: Table, x: nat)
    requires x in t.inodes
  {
    var node := t.inodes[x];
    && node.id == x && x < t.next
    && (x != ROOT ==>
          && node.parent < x && node.parent in t.index
          && node.name in t.index[node.parent] && t.index[node.parent][node.name] == x)
    && (x == ROOT ==> node.parent == ROOT)
  }

  ghost predicate EntryLinked(t: Table, p: nat, n: string)
    requires p in t.index && n in t.index[p]
  {
    var c := t.index[p][n];
    && ROOT < c && p < c < t.next
    && (if c in t.inodes then t.inodes[c].parent == p && t.inodes[c].name == n else c !in t.index)
  }

  /** No entry dangles: the invariant between operations of any interleaving. */
  ghost predicate NoDangling(t: Table) {
    forall p, n :: p in t.index && n in t.index[p] ==> t.index[p][n] in t.inodes
  }

  /** The invariant of sequential runs: moreover the root is live, every index belongs to
      a live directory, and every live directory has one. */
  ghost predicate Good(t: Table) {
    && Linked(t) && NoDangling(t)
    && ROOT in t.inodes && t.inodes[ROOT].kind == NodeRoot
    && (forall p :: p in t.index ==> p in t.inodes)
    && (forall x :: x in t.inodes ==> (x in t.index <==> t.inodes[x].IsDir()))
  }

  // ---- Facts about ancestors ----

  lemma {:induction false} AboveTransitive(t: Table, a: nat, b: nat, x: nat)
    requires Above(t, a, b) && Above(t, b, x)
    ensures Above(t, a, x)
    decreases x
  {
    if x != b {
      AboveTransitive(t, a, b, t.inodes[x].parent);
    }
  }

  /** The last step down to x starts at some child of a. */
  lemma {:induction false} AboveChild(t: Table, a: nat, x: nat) returns (name: string)
    requires Linked(t) && x in t.inodes && Above(t, a, x) && x != a
    ensures a in t.index && name in t.index[a] && Above(t, t.index[a][name], x)
    decreases x
  {
    var p := t.inodes[x].parent;
    assert NodeLinked(t, x);
    if p == a {
      name := t.inodes[x].name;
    } else {
      name := AboveChild(t, a, p);
    }
  }

  lemma {:induction false} NothingBelowDead(t: Table, c: nat, x: nat)
    requires Linked(t) && c !in t.inodes && c !in t.index && x in t.inodes
    ensures !Above(t, c, x)
    decreases x
  {
    assert NodeLinked(t, x);
    if t.inodes[x].parent < x && t.inodes[x].parent in t.inodes {
      NothingBelowDead(t, c, t.inodes[x].parent);
    }
  }

  /** A set of nodes that holds every child of its members. */
  ghost predicate Closed(t: Table, s: set<nat>) {
    && ROOT !in s
    && forall x :: x in t.inodes && x != ROOT && t.inodes[x].parent in s ==> x in s
  }

  lemma PruneLinked(t: Table, s: set<nat>)
    requires Linked(t) && Closed(t, s)
    ensures Linked(Prune(t, s))
  {
    var t' := Prune(t, s);
    forall x | x in t'.inodes ensures NodeLinked(t', x) {
      assert NodeLinked(t, x);
    }
    forall p, n | p in t'.index && n in t'.index[p] ensures EntryLinked(t', p, n) {
      assert EntryLinked(t, p, n);
    }
  }

  lemma {:induction false} PruneAbove(t: Table, s: set<nat>, a: nat, x: nat)
    requires Linked(t) && Closed(t, s) && x in t.inodes && x !in s
    ensures Above(Prune(t, s), a, x) == Above(t, a, x)
    decreases x
  {
    assert NodeLinked(t, x);
    if x != a && x != ROOT {
      var p := t.inodes[x].parent;
      if p in t.inodes {
        PruneAbove(t, s, a, p);
      }
    }
  }

  /** Below a there are exactly a and what lies below its children. */
  lemma SubtreeUnfold(t: Table, a: nat)
    requires Linked(t) && a in t.index
    ensures Subtree(t, a) == Under(t, a, t.index[a].Keys) + ({a} * t.inodes.Keys)
  {
    forall x | x in Subtree(t, a) && x != a ensures x in Under(t, a, t.index[a].Keys) {
      var n := AboveChild(t, a, x);
    }
    forall x | x in Under(t, a, t.index[a].Keys) ensures x in Subtree(t, a) {
      var n :| n in t.index[a] && Above(t, t.index[a][n], x);
      var c := t.index[a][n];
      assert EntryLinked(t, a, n);
      if c in t.inodes {
        assert Above(t, a, c) by { assert Above(t, a, a); }
        AboveTransitive(t, a, c, x);
      } else {
        NothingBelowDead(t, c, x);
      }
    }
  }

  lemma UnderClosed(t: Table, p: nat, drop: set<string>)
    requires Linked(t) && p in t.index
    ensures Closed(t, Under(t, p, drop)) && p !in Under(t, p, drop)
  {
    var s := Under(t, p, drop);
    forall x | x in t.inodes && x != ROOT && t.inodes[x].parent in s ensures x in s {
      assert NodeLinked(t, x);
      var n :| n in t.index[p] && n in drop && Above(t, t.index[p][n], t.inodes[x].parent);
      assert Above(t, t.index[p][n], x);
    }
    forall x | x in s ensures x > p && x != ROOT {
      var n :| n in t.index[p] && n in drop && Above(t, t.index[p][n], x);
      assert EntryLinked(t, p, n);
      AboveLess(t, t.index[p][n], x);
    }
  }

  lemma {:induction false} AboveLess(t: Table, a: nat, x: nat)
    requires Above(t, a, x)
    ensures a <= x
    decreases x
  {
    if x != a {
      AboveLess(t, a, t.inodes[x].parent);
    }
  }

  /** Dropping one more name from a table where some are gone is dropping them together. */
  lemma DropStep(t: Table, p: nat, drop: set<string>, name: string)
    requires Linked(t) && p in t.index && name in t.index[p] && name !in drop
    ensures DropNames(DropNames(t, p, drop), p, {name}) == DropNames(t, p, drop + {name})
  {
    var t1 := DropNames(t, p, drop);
    var s := Under(t, p, drop);
    UnderClosed(t, p, drop);
    assert t1.inodes == Prune(t, s).inodes;
    assert t1.index[p] == t.index[p] - drop;
    var c := t.index[p][name];
    forall x | x in t1.inodes ensures Above(t1, c, x) == Above(t, c, x) {
      PruneAbove(t, s, c, x);
      AboveOnlyInodes(Prune(t, s), t1, c, x);
    }
    var s1 := Under(t1, p, {name});
    assert s1 == set x | x in t1.inodes && Above(t1, c, x);
    assert s + s1 == Under(t, p, drop + {name});
    UnderClosed(t, p, drop + {name});
    var all := DropNames(t, p, drop + {name});
    assert all.inodes == t1.inodes - s1;
    assert t.index[p] - (drop + {name}) == t1.index[p] - {name};
    assert all.index == (t1.index - s1)[p := t1.index[p] - {name}];
  }

  lemma {:induction false} AboveOnlyInodes(t: Table, t': Table, a: nat, x: nat)
    requires t.inodes == t'.inodes
    ensures Above(t, a, x) == Above(t', a, x)
    decreases x
  {
    if x != a && x in t.inodes && t.inodes[x].parent < x {
      AboveOnlyInodes(t, t', a, t.inodes[x].parent);
    }
  }

  lemma DropNothing(t: Table, p: nat)
    ensures DropNames(t, p, {}) == t
  {
    if p in t.index {
      assert Under(t, p, {}) == {};
      assert t.index[p] - {} == t.index[p];
      assert (t.index - {})[p := t.index[p]] == t.index;
    }
  }

  /** One child goes with its subtree: what RemoveChild does after removeSubtree. */
  lemma DropOne(t: Table, p: nat, name: string)
    requires Linked(t) && p in t.index && name in t.index[p]
    ensures
      var pruned := Prune(t, Subtree(t, t.index[p][name]));
      && p in pruned.index
      && DropNames(t, p, {name}) == pruned.(index := pruned.index[p := pruned.index[p] - {name}])
  {
    UnderClosed(t, p, {name});
    assert Under(t, p, {name}) == Subtree(t, t.index[p][name]);
  }

  lemma DropLinked(t: Table, p: nat, drop: set<string>)
    requires Linked(t)
    ensures Linked(DropNames(t, p, drop))
    ensures NoDangling(t) ==> NoDangling(DropNames(t, p, drop))
    ensures Good(t) ==> Good(DropNames(t, p, drop))
  {
    if p in t.index {
      var s := Under(t, p, drop);
      UnderClosed(t, p, drop);
      PruneLinked(t, s);
      var t1, t' := Prune(t, s), DropNames(t, p, drop);
      forall x | x in t'.inodes ensures NodeLinked(t', x) {
        assert NodeLinked(t1, x);
        NamedInUnder(t, p, drop, x);
      }
      forall q, n | q in t'.index && n in t'.index[q] ensures EntryLinked(t', q, n) {
        assert EntryLinked(t1, q, n);
        assert EntryLinked(t, q, n);
      }
      if NoDangling(t) {
        forall q, n | q in t'.index && n in t'.index[q] ensures t'.index[q][n] in t'.inodes {
          assert EntryLinked(t, q, n);
          UnderParent(t, p, drop, q, n);
        }
      }
    }
  }

  lemma NamedInUnder(t: Table, p: nat, drop: set<string>, x: nat)
    requires Linked(t) && p in t.index && x in t.inodes
    ensures x != ROOT && t.inodes[x].parent == p && t.inodes[x].name in drop ==> x in Under(t, p, drop)
  {
    assert NodeLinked(t, x);
    assert Above(t, x, x);
  }

  /** A child goes with its parent, or because it was named itself. */
  lemma UnderParent(t: Table, p: nat, drop: set<string>, q: nat, n: string)
    requires Linked(t) && NoDangling(t) && p in t.index && q in t.index && n in t.index[q]
    ensures t.index[q][n] in Under(t, p, drop) ==> q in Under(t, p, drop) || (q == p && n in drop)
  {
    var s, c := Under(t, p, drop), t.index[q][n];
    assert EntryLinked(t, q, n);
    if c in s {
      var m :| m in t.index[p] && m in drop && Above(t, t.index[p][m], c);
      var e := t.index[p][m];
      assert EntryLinked(t, p, m);
      if c != e {
        assert Above(t, e, q);
        AboveLess(t, e, q);
      }
    }
  }

  lemma AddLinked(t: Table, p: nat, proto: Inode)
    requires Linked(t) && NoDangling(t) && p < t.next && t.next > ROOT
    ensures Linked(AddChild(t, p, proto).0) && NoDangling(AddChild(t, p, proto).0)
    ensures Good(t) && p in t.index && proto.kind != NodeRoot ==> Good(AddChild(t, p, proto).0)
  {
    var t' := AddChild(t, p, proto).0;
    if t' != t {
      forall x | x in t'.inodes ensures NodeLinked(t', x) {
        if x != t.next {
          assert NodeLinked(t, x);
        }
      }
      AddEntries(t, p, proto);
    }
  }

  lemma AddEntries(t: Table, p: nat, proto: Inode)
    requires Linked(t) && NoDangling(t) && p < t.next && t.next > ROOT
    ensures
      var t' := AddChild(t, p, proto).0;
      forall q, n {:trigger EntryLinked(t', q, n)} :: q in t'.index && n in t'.index[q] ==>
        EntryLinked(t', q, n) && t'.index[q][n] in t'.inodes
  {
    var t' := AddChild(t, p, proto).0;
    forall q, n {:trigger EntryLinked(t', q, n)} | q in t'.index && n in t'.index[q]
      ensures EntryLinked(t', q, n) && t'.index[q][n] in t'.inodes
    {
      if q in t.index && n in t.index[q] {
        assert EntryLinked(t, q, n);
      }
    }
  }

  // ---- Every live node hangs from the root by exactly one path ----

  /** The names on the way from the root down to x. */
  function PathTo(t: Table, x: nat): seq<string>
    decreases x
  {
    if x in t.inodes && x != ROOT && t.inodes[x].parent < x
    then PathTo(t, t.inodes[x].parent) + [t.inodes[x].name] else []
  }

  function Walk(t: Table, from: nat, path: seq<string>): Option<nat>
    decreases |path|
  {
    if path == [] then Some(from)
    else if from in t.index && path[0] in t.index[from] then Walk(t, t.index[from][path[0]], path[1..])
    else None
  }

  lemma {:induction false} WalkAppend(t: Table, from: nat, path: seq<string>, name: string)
    ensures Walk(t, from, path + [name]) ==
      match Walk(t, from, path)
      case None => None
      case Some(x) => if x in t.index && name in t.index[x] then Some(t.index[x][name]) else None
    decreases |path|
  {
    if path == [] {
      assert Walk(t, from, [name]) ==
        if from in t.index && name in t.index[from] then Walk(t, t.index[from][name], []) else None;
    } else {
      assert (path + [name])[1..] == path[1..] + [name];
      if from in t.index && path[0] in t.index[from] {
        WalkAppend(t, t.index[from][path[0]], path[1..], name);
      }
    }
  }

  lemma {:induction false} Reachable(t: Table, x: nat)
    requires Good(t) && x in t.inodes
    ensures Walk(t, ROOT, PathTo(t, x)) == Some(x)
    decreases x
  {
    assert NodeLinked(t, x);
    if x != ROOT {
      var p := t.inodes[x].parent;
      Reachable(t, p);
      WalkAppend(t, ROOT, PathTo(t, p), t.inodes[x].name);
    }
  }

  lemma {:induction false} PathUnique(t: Table, path: seq<string>)
    requires Good(t) && Walk(t, ROOT, path).Some?
    ensures Walk(t, ROOT, path).value in t.inodes && path == PathTo(t, Walk(t, ROOT, path).value)
    decreases |path|
  {
    if path != [] {
      var front, name := path[..|path| - 1], path[|path| - 1];
      assert path == front + [name];
      WalkAppend(t, ROOT, front, name);
      PathUnique(t, front);
      var p := Walk(t, ROOT, front).value;
      assert EntryLinked(t, p, name);
    }
  }

  /** A path leads to a live node exactly when it is that node's own path. */
  lemma UniquePath(t: Table, x: nat, path: seq<string>)
    requires Good(t) && x in t.inodes
    ensures Walk(t, ROOT, path) == Some(x) <==> path == PathTo(t, x)
  {
    Reachable(t, x);
    if Walk(t, ROOT, path) == Some(x) {
      PathUnique(t, path);
    }
  }
}
