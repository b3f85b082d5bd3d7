/** What bringing a directory in line with a listing does to the tree, stated without
    following the loop that does it. */
module Reconciliation {
  import opened Prelude
  import opened TableSpec
  import opened FsSpec
  import opened Order
  import opened Api
  import opened Runs

  lemma {:induction false} NamesOfMembers(protos: seq<Inode>, name: string)
    ensures name in NamesOf(protos) <==> exists i :: 0 <= i < |protos| && protos[i].name == name
  {
    if protos != [] {
      var front := protos[..|protos| - 1];
      NamesOfMembers(front, name);
      assert protos[|protos| - 1].name in NamesOf(protos);
      if name in NamesOf(front) {
        var i :| 0 <= i < |front| && front[i].name == name;
        assert protos[i].name == name;
      }
      if i :| 0 <= i < |protos| && protos[i].name == name {
        if i < |front| { assert front[i].name == name; }
      }
    }
  }

  /** t' has the nodes of t, and besides them only new children of p. */
  ghost predicate Grown(t: Table, t': Table, p: nat) {
    && p in t.index && p in t'.index
    && NodesGrown(t, t', p) && IndexGrown(t, t', p)
  }

  ghost predicate NodesGrown(t: Table, t': Table, p: nat) {
    && t.next <= t'.next
    && (forall x :: x in t.inodes ==> x in t'.inodes && t'.inodes[x] == t.inodes[x])
    && (forall x :: x in t'.inodes && x !in t.inodes ==> t.next <= x && t'.inodes[x].parent == p)
  }

  ghost predicate IndexGrown(t: Table, t': Table, p: nat)
    requires p in t.index && p in t'.index
  {
    && (forall q :: q in t.index && q != p ==> q in t'.index && t'.index[q] == t.index[q])
    && (forall n :: n in t.index[p] ==> n in t'.index[p] && t'.index[p][n] == t.index[p][n])
    && (forall n :: n in t'.index[p] && n !in t.index[p] ==> t.next <= t'.index[p][n])
  }

  lemma GrownTransitive(t: Table, t1: Table, t2: Table, p: nat)
    requires Grown(t, t1, p) && Grown(t1, t2, p)
    ensures Grown(t, t2, p)
  {
  }

  lemma {:induction false} AddAllGood(t: Table, p: nat, protos: seq<Inode>)
    requires Good(t) && p in t.index
    requires forall i :: 0 <= i < |protos| ==> protos[i].kind != NodeRoot
    ensures Good(AddAll(t, p, protos)) && p in AddAll(t, p, protos).index
  {
    if protos != [] {
      var t1 := AddAll(t, p, protos[..|protos| - 1]);
      AddAllGood(t, p, protos[..|protos| - 1]);
      assert NodeLinked(t1, p);
      AddLinked(t1, p, protos[|protos| - 1]);
    }
  }

  lemma {:induction false} AddAllGrown(t: Table, p: nat, protos: seq<Inode>)
    requires Good(t) && p in t.index
    requires forall i :: 0 <= i < |protos| ==> protos[i].kind != NodeRoot
    ensures Grown(t, AddAll(t, p, protos), p) && ChildNames(AddAll(t, p, protos), p) ==
        ChildNames(t, p) + NamesOf(protos)
  {
    if protos != [] {
      var front, last := protos[..|protos| - 1], protos[|protos| - 1];
      var t1 := AddAll(t, p, front);
      AddAllGood(t, p, front);
      AddAllGrown(t, p, front);
      AddGrown(t1, p, last);
      GrownTransitive(t, t1, AddChild(t1, p, last).0, p);
    }
  }

  lemma AddGrown(t: Table, p: nat, proto: Inode)
    requires Linked(t) && NoDangling(t) && p in t.index
    ensures Grown(t, AddChild(t, p, proto).0, p) && ChildNames(AddChild(t, p, proto).0, p) ==
        ChildNames(t, p) + {proto.name}
  {
    if proto.name !in t.index[p] {
      NewGrown(t, p, proto);
    }
  }

  lemma NewGrown(t: Table, p: nat, proto: Inode)
    requires Linked(t) && p in t.index && proto.name !in t.index[p]
    ensures Grown(t, AddChild(t, p, proto).0, p)
    ensures AddChild(t, p, proto).0.index[p] == t.index[p][proto.name := t.next]
  {
    forall x | x in t.inodes ensures x < t.next { assert NodeLinked(t, x); }
  }

  lemma {:induction false} GrownAbove(t: Table, t': Table, p: nat, a: nat, x: nat)
    requires Good(t) && Grown(t, t', p) && x in t.inodes
    ensures Above(t', a, x) == Above(t, a, x)
    decreases x
  {
    assert NodeLinked(t, x);
    if x != a && x != ROOT {
      assert t'.inodes[x] == t.inodes[x];
      GrownAbove(t, t', p, a, t.inodes[x].parent);
    }
  }

  /** The old nodes that go are those at or below a dropped name; no new node goes. */
  lemma GoneExactly(t: Table, t1: Table, p: nat, drop: set<string>, x: nat)
    requires Good(t) && Good(t1) && Grown(t, t1, p) && x in t1.inodes
    requires drop <= ChildNames(t, p)
    ensures x in Under(t1, p, drop) <==> x in Under(t, p, drop)
  {
    if x in t.inodes {
      forall n | n in t.index[p] ensures Above(t1, t1.index[p][n], x) == Above(t, t.index[p][n], x) {
        GrownAbove(t, t1, p, t.index[p][n], x);
      }
    } else {
      forall n | n in drop ensures !Above(t1, t1.index[p][n], x) {
        assert EntryLinked(t, p, n);
        NewChildAlone(t1, p, t1.index[p][n], x);
      }
    }
  }

  lemma SameGone(t: Table, t1: Table, p: nat, drop: set<string>)
    requires Good(t) && Good(t1) && Grown(t, t1, p) && drop <= ChildNames(t, p)
    ensures Under(t1, p, drop) == Under(t, p, drop) && p !in Under(t, p, drop)
  {
    forall x | x in t1.inodes ensures x in Under(t1, p, drop) <==> x in Under(t, p, drop) {
      GoneExactly(t, t1, p, drop, x);
    }
    UnderClosed(t, p, drop);
  }

  lemma NewChildAlone(t: Table, p: nat, c: nat, x: nat)
    requires Good(t) && x in t.inodes && t.inodes[x].parent == p && p < c && c != x
    ensures !Above(t, c, x)
  {
    if Above(t, c, x) {
      assert Above(t, c, p);
      AboveLess(t, c, p);
    }
  }

  /** What listing p with these names does to a tree. */
  ghost predicate Reconciled(t: Table, t': Table, p: nat, names: set<string>) {
    && p in t.index && p in t'.index
    && var gone := Under(t, p, ChildNames(t, p) - names);
    // the children are exactly what is listed
    && t'.index[p].Keys == names
    // names that stay keep their IDs, and new names get IDs never used before
    && (forall n :: n in names && n in t.index[p] ==> t'.index[p][n] == t.index[p][n])
    && (forall n :: n in names && n !in t.index[p] ==> t'.index[p][n] >= t.next)
    // vanished subtrees are gone from both maps, and every other old node is untouched
    && (forall x :: x in gone ==> x !in t'.inodes && x !in t'.index)
    && (forall x :: x in t.inodes && x !in gone ==> x in t'.inodes && t'.inodes[x] == t.inodes[x])
    && (forall x :: x in t.index && x !in gone && x != p ==> x in t'.index && t'.index[x] == t.index[x])
    // nothing else appears
    && (forall x :: x in t'.inodes && x !in t.inodes ==> x >= t.next && t'.inodes[x].parent == p)
  }

  lemma DroppedGrown(t: Table, t1: Table, p: nat, names: set<string>)
    requires Grown(t, t1, p) && ChildNames(t1, p) == ChildNames(t, p) + names
    requires
      var drop := ChildNames(t, p) - names;
      Under(t1, p, drop) == Under(t, p, drop) && p !in Under(t, p, drop)
    ensures Reconciled(t, DropNames(t1, p, ChildNames(t, p) - names), p, names)
  {
  }

  /** The exact effect of a successful listing of p on the tree. */
  lemma ReconcileExact(t: Table, p: nat, protos: seq<Inode>)
    requires Good(t) && p in t.index
    requires forall i :: 0 <= i < |protos| ==> protos[i].kind != NodeRoot
    ensures Good(Reconcile(t, p, protos))
    ensures Reconciled(t, Reconcile(t, p, protos), p, NamesOf(protos))
  {
    var t1 := AddAll(t, p, protos);
    AddAllGood(t, p, protos);
    DropLinked(t1, p, ChildNames(t1, p) - NamesOf(protos));
    ReconcileGrown(t, p, protos);
  }

  lemma ReconcileGrown(t: Table, p: nat, protos: seq<Inode>)
    requires Good(t) && p in t.index && Good(AddAll(t, p, protos))
    requires forall i :: 0 <= i < |protos| ==> protos[i].kind != NodeRoot
    ensures Reconciled(t, Reconcile(t, p, protos), p, NamesOf(protos))
  {
    AddAllGrown(t, p, protos);
    var t1 := AddAll(t, p, protos);
    var drop := ChildNames(t, p) - NamesOf(protos);
    assert drop == ChildNames(t1, p) - NamesOf(protos);
    SameGone(t, t1, p, drop);
    DroppedGrown(t, t1, p, NamesOf(protos));
  }

  lemma {:induction false} AddedAsListed(t: Table, p: nat, protos: seq<Inode>, x: nat)
    requires x in AddAll(t, p, protos).inodes && x !in t.inodes
    ensures exists i :: 0 <= i < |protos| && AddAll(t, p, protos).inodes[x] == protos[i].(id := x, parent := p)
  {
    var front, last := protos[..|protos| - 1], protos[|protos| - 1];
    if AddAll(t, p, protos).inodes[x] == last.(id := x, parent := p) {
      assert protos[|protos| - 1] == last;
    } else {
      AddedAsListed(t, p, front, x);
      var i :| 0 <= i < |front| && AddAll(t, p, front).inodes[x] == front[i].(id := x, parent := p);
      assert protos[i] == front[i];
    }
  }

  /** A node that a listing brings in has the fields that the listing gives it. */
  lemma NewNodesAsListed(t: Table, p: nat, protos: seq<Inode>, x: nat)
    requires x in Reconcile(t, p, protos).inodes && x !in t.inodes
    ensures exists i :: 0 <= i < |protos| && Reconcile(t, p, protos).inodes[x] == protos[i].(id := x, parent := p)
  {
    AddedAsListed(t, p, protos, x);
  }

  lemma {:induction false} AddExisting(t: Table, p: nat, protos: seq<Inode>)
    requires Good(t) && NamesOf(protos) <= ChildNames(t, p)
    ensures AddAll(t, p, protos) == t
  {
    if protos != [] {
      AddExisting(t, p, protos[..|protos| - 1]);
    }
  }

  /** Listing a second time with the same names changes nothing. */
  lemma ReconcileIdempotent(t: Table, p: nat, protos: seq<Inode>, again: seq<Inode>)
    requires Good(t) && p in t.index
    requires forall i :: 0 <= i < |protos| ==> protos[i].kind != NodeRoot
    requires NamesOf(again) == NamesOf(protos)
    ensures Reconcile(Reconcile(t, p, protos), p, again) == Reconcile(t, p, protos)
  {
    ReconcileExact(t, p, protos);
    var t' := Reconcile(t, p, protos);
    AddExisting(t', p, again);
    assert ChildNames(t', p) - NamesOf(again) == {};
    DropNothing(t', p);
  }

  /** The listing handed to a reader is the one strictly ascending enumeration of the
      directory's names. */
  lemma ListingUnique(t: Table, p: nat, list: seq<Inode>, names: seq<string>)
    requires IsListing(t, p, list)
    requires Ascending(names, (x: string) => x) && forall n :: n in names <==> n in ChildNames(t, p)
    ensures |list| == |names| && forall i :: 0 <= i < |list| ==> list[i].name == names[i]
  {
    var mine := seq(|list|, i requires 0 <= i < |list| => list[i].name);
    forall i, j | 0 <= i < j < |mine| ensures Precedes(mine[i], mine[j]) {
      assert Precedes(NameOf(list[i]), NameOf(list[j]));
    }
    assert Ascending(mine, (x: string) => x);
    forall n ensures n in mine <==> n in names {
      if n in ChildNames(t, p) {
        var i :| 0 <= i < |list| && list[i].name == n;
        assert mine[i] == n;
      }
    }
    AscendingUnique(mine, names);
  }

  /** A successful listing brings the children of a live directory in line with exactly
      what the client answers; a failed one leaves the tree alone. */
  lemma EnsureReconciles(s: FsState, cfg: FsConfig, env: Env, dir: Inode)
    requires TreeOk(s) && dir.IsDir() && dir.id in s.table.inodes && s.table.inodes[dir.id] == dir
    ensures
      var (s', err) := EnsureChildren(s, cfg, env, dir);
      match ListDir(s.client, cfg.client, env, dir).1
      case Ok(protos) => err.None? && Reconciled(s.table, s'.table, dir.id, NamesOf(protos))
      case Err(_) => err == Some(EIO) && s'.table == s.table
  {
    ListingTyped(s.client, cfg.client, env, dir);
    var r := ListDir(s.client, cfg.client, env, dir).1;
    if r.Ok? {
      forall i | 0 <= i < |r.value| ensures r.value[i].kind != NodeRoot {
        assert EdgeOk(dir, r.value[i]);
      }
      ReconcileExact(s.table, dir.id, r.value);
    }
  }

  // ---- RemoveChild and RemoveChildren ----

  /** Dropping children removes from both maps exactly the nodes that had a dropped child
      as themselves or an ancestor, and leaves everything else as it was. */
  lemma DropExact(t: Table, p: nat, drop: set<string>, x: nat)
    requires Good(t) && p in t.index
    ensures
      var t' := DropNames(t, p, drop);
      var gone := exists n :: n in t.index[p] && n in drop && Above(t, t.index[p][n], x);
      && t'.next == t.next
      && (x in t'.inodes <==> x in t.inodes && !gone)
      && (x in t'.inodes ==> t'.inodes[x] == t.inodes[x])
      && (x in t'.index <==> x in t.index && !gone)
      && (x in t'.index && x != p ==> t'.index[x] == t.index[x])
      && t'.index[p] == t.index[p] - drop
  {
    UnderClosed(t, p, drop);
    assert x in t.index ==> x in t.inodes;
  }

  /** A dropped node is really out of reach: no path from the root leads to it. */
  lemma DropUnreachable(t: Table, p: nat, drop: set<string>, x: nat, path: seq<string>)
    requires Good(t) && p in t.index && x in Under(t, p, drop)
    ensures Walk(DropNames(t, p, drop), ROOT, path) != Some(x)
  {
    DropLinked(t, p, drop);
    if Walk(DropNames(t, p, drop), ROOT, path) == Some(x) {
      PathUnique(DropNames(t, p, drop), path);
    }
  }
}
