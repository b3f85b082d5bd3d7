/** The inode table, which changes its two maps in place. */
module InodeTables {
  import opened Prelude
  import opened TableSpec

  class InodeTable {
    var inodes: map<nat, Inode>
    var childIndex: map<nat, map<string, nat>>
    var nextID: nat

    ghost function T(): Table
      reads this
    {
      Table(inodes, childIndex, nextID)
    }

    ghost predicate Valid()
      reads this
    {
      Good(T())
    }

    constructor (now: int)
      ensures T() == NewTable(now) && Valid()
    {
      inodes := map[ROOT := RootInode(now)];
      childIndex := map[ROOT := map[]];
      nextID := ROOT + 1;
    }

    function Get(id: nat): Option<Inode>
      reads this
    {
      if id in inodes then Some(inodes[id]) else None
    }

    method LookupChild(parentID: nat, name: string) returns (r: Option<Inode>)
      ensures r == TableSpec.LookupChild(T(), parentID, name)
    {
      if parentID !in childIndex { return None; }
      var children: map<string, nat> := childIndex[parentID];
      if name !in children { return None; }
      return Get(children[name]);
    }

    /** All live children, in no particular order. */
    method Children(parentID: nat) returns (result: seq<Inode>)
      requires Linked(T()) && NoDangling(T())
      ensures forall i :: 0 <= i < |result| ==> LookupNamed(result[i], parentID)
      ensures forall n :: n in ChildNames(T(), parentID) <==> exists i :: 0 <= i < |result| && result[i].name == n
      ensures forall i, j :: 0 <= i < j < |result| ==> result[i].name != result[j].name
    {
      result := [];
      if parentID !in childIndex { return; }
      var children: map<string, nat> := childIndex[parentID];
      var rest := children.Keys;
      while rest != {}
        invariant rest <= children.Keys
        invariant forall i :: 0 <= i < |result| ==> LookupNamed(result[i], parentID) && result[i].name !in rest
        invariant forall n :: n in children && n !in rest ==> exists i :: 0 <= i < |result| && result[i].name == n
        invariant forall i, j :: 0 <= i < j < |result| ==> result[i].name != result[j].name
        decreases rest
      {
        var name :| name in rest;
        rest := rest - {name};
        assert EntryLinked(T(), parentID, name);
        var node := Get(children[name]);
        if node.Some? {
          ghost var before := result;
          result := result + [node.value];
          assert forall i :: 0 <= i < |before| ==> result[i] == before[i];
          assert result[|before|].name == name;
        }
      }
    }

    ghost predicate LookupNamed(node: Inode, parentID: nat)
      reads this
    {
      TableSpec.LookupChild(T(), parentID, node.name) == Some(node)
    }

    method AddChild(parentID: nat, proto: Inode) returns (child: Inode)
      requires NoDangling(T())
      modifies this
      ensures (T(), child) == TableSpec.AddChild(old(T()), parentID, proto)
      ensures old(childIndex).Keys <= childIndex.Keys && old(nextID) <= nextID
      ensures old(Linked(T())) && ROOT < old(nextID) && parentID < old(nextID) ==> Linked(T()) && NoDangling(T())
      ensures old(Valid()) && old(parentID in childIndex) && proto.kind != NodeRoot ==> Valid()
    {
      ghost var spec := TableSpec.AddChild(T(), parentID, proto);
      if Linked(T()) && ROOT < nextID && parentID < nextID {
        AddLinked(T(), parentID, proto);
      }
      assert proto.name in ChildNames(T(), parentID) ==> childIndex[parentID][proto.name] in inodes;
      var children: map<string, nat> := if parentID in childIndex then childIndex[parentID] else map[];
      if proto.name in children {
        return inodes[children[proto.name]];
      }

      child := proto.(id := nextID, parent := parentID);
      nextID := nextID + 1;

      inodes := inodes[child.id := child];
      childIndex := childIndex[parentID := children[proto.name := child.id]];

      if child.IsDir() {
        childIndex := childIndex[child.id := map[]];
      }
      assert T() == spec.0;
    }

    /** Removes one child with everything below it. */
    method RemoveChild(parentID: nat, name: string) returns (ok: bool)
      requires Linked(T()) && NoDangling(T())
      modifies this
      ensures (T(), ok) == TableSpec.RemoveChild(old(T()), parentID, name)
      ensures Linked(T()) && NoDangling(T())
      ensures old(Valid()) ==> Valid()
    {
      DropLinked(T(), parentID, {name});
      if parentID !in childIndex { return false; }
      if name !in childIndex[parentID] { return false; }
      var childID := childIndex[parentID][name];
      DropOne(T(), parentID, name);
      assert EntryLinked(T(), parentID, name);
      RemoveSubtree(childID);
      childIndex := childIndex[parentID := childIndex[parentID] - {name}];
      return true;
    }

    /** Removes every child whose name is not kept. */
    method RemoveChildren(parentID: nat, keep: set<string>)
      requires Linked(T()) && NoDangling(T())
      modifies this
      ensures T() == TableSpec.RemoveChildren(old(T()), parentID, keep)
      ensures Linked(T()) && NoDangling(T())
      ensures old(Valid()) ==> Valid()
    {
      DropLinked(T(), parentID, ChildNames(T(), parentID) - keep);
      if parentID !in childIndex { return; }
      ghost var t := T();
      var names := childIndex[parentID].Keys;
      var rest := names;
      ghost var dropped: set<string> := {};
      DropNothing(t, parentID);
      while rest != {}
        invariant rest <= names
        invariant dropped == names - rest - keep
        invariant T() == DropNames(t, parentID, dropped)
        decreases rest
      {
        var name :| name in rest;
        rest := rest - {name};
        if name !in keep {
          DropLinked(t, parentID, dropped);
          DropStep(t, parentID, dropped, name);
          DropOne(T(), parentID, name);
          assert EntryLinked(T(), parentID, name);
          RemoveSubtree(childIndex[parentID][name]);
          childIndex := childIndex[parentID := childIndex[parentID] - {name}];
          dropped := dropped + {name};
        }
      }
      assert dropped == names - keep;
    }

    /** Deletes id and everything below it from both maps. The recursion ends because a
        child's ID is larger than its parent's. */
    method RemoveSubtree(id: nat)
      requires Linked(T()) && ROOT < id < nextID
      requires id in inodes || id !in childIndex
      modifies this
      ensures T() == Prune(old(T()), Subtree(old(T()), id))
      decreases nextID - id
    {
      ghost var t := T();
      if id in childIndex {
        SubtreeUnfold(t, id);
        var children := childIndex[id];
        var rest := children.Keys;
        ghost var done: set<string> := {};
        assert Under(t, id, {}) == {};
        while rest != {}
          invariant rest <= children.Keys
          invariant done == children.Keys - rest
          invariant T() == Prune(t, Under(t, id, done))
          decreases rest
        {
          var name :| name in rest;
          rest := rest - {name};
          var childID := children[name];
          PruneStep(t, id, done, name);
          RemoveSubtree(childID);
          done := done + {name};
        }
        assert done == children.Keys;
        childIndex := childIndex - {id};
      } else {
        NoChildren(t, id);
      }
      inodes := inodes - {id};
    }

    static lemma PruneStep(t: Table, id: nat, done: set<string>, name: string)
      requires Linked(t) && id in t.index && name in t.index[id] && name !in done
      ensures
        var mid := Prune(t, Under(t, id, done));
        var c := t.index[id][name];
        && Linked(mid) && ROOT < c < mid.next && id < c
        && (c in mid.inodes || c !in mid.index)
        && Prune(mid, Subtree(mid, c)) == Prune(t, Under(t, id, done + {name}))
    {
      var s := Under(t, id, done);
      var mid := Prune(t, s);
      var c := t.index[id][name];
      UnderClosed(t, id, done);
      PruneLinked(t, s);
      assert EntryLinked(t, id, name);
      forall x | x in mid.inodes ensures Above(mid, c, x) == Above(t, c, x) {
        PruneAbove(t, s, c, x);
      }
      assert s + Subtree(mid, c) == Under(t, id, done + {name});
    }

    static lemma NoChildren(t: Table, id: nat)
      requires Linked(t) && id !in t.index
      ensures Subtree(t, id) == {id} * t.inodes.Keys
    {
      forall x | x in Subtree(t, id) ensures x == id {
        if x != id {
          var n := AboveChild(t, id, x);
        }
      }
    }
  }
}
