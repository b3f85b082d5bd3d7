/** The filesystem: it reconciles the tree with the server's listings and runs the
    open files, changing all of it in place. */
module Kubefs {
  import opened Prelude
  import opened Api
  import opened Keys
  import opened ClientSpec
  import opened TableSpec
  import opened FsSpec
  import opened InodeTables
  import opened Order
  import K8s

  /** Joins the fields of an inode to the client call that serves it. */
  class ContentProvider {
    const client: K8s.Client

    constructor (client: K8s.Client)
      ensures this.client == client
    {
      this.client := client;
    }

    method GetContent(env: Env, node: Inode) returns (r: Result<Bytes, Error>)
      requires client.Valid() && env.Valid()
      modifies client.cache
      ensures client.Valid()
      ensures (client.State(), r) == FsSpec.GetContent(old(client.State()), client.Config(), env, node)
    {
      var ri := ResourceInfo(node.group, node.version, node.res, "");
      match node.kind {
        case NodeDataFile =>
          var dataMap := client.GetObjectData(env, node.ns, ri, node.obj);
          if dataMap.Err? { return Err(dataMap.error); }
          if node.file !in dataMap.value { return Err(KeyMissing); }
          return Ok(dataMap.value[node.file]);
        case NodeFile =>
          if node.file == "yaml" {
            r := client.GetObjectYAML(env, node.ns, node.res, node.obj, ri);
          } else if node.file == "json" {
            r := client.GetObjectJSON(env, node.ns, node.res, node.obj, ri);
          } else if node.file == "describe" {
            r := client.DescribeObject(env, node.ns, node.res, node.obj, ri);
          } else if node.file == "logs" {
            r := client.GetPodLogs(env, node.ns, node.obj);
          } else {
            r := Err(UnknownFile);
          }
        case _ =>
          r := Err(NotAFile);
      }
    }

    method CreateContent(env: Env, node: Inode, data: Bytes) returns (err: Option<Error>)
      requires client.Valid()
      modifies client.cache, client.server
      ensures client.Valid()
      ensures (client.State(), err) == FsSpec.CreateContent(old(client.State()), client.Config(), env, node, data)
    {
      var ri := ResourceInfo(node.group, node.version, node.res, "");
      err := client.CreateObject(env, node.ns, ri, data);
    }

    method ApplyContent(env: Env, node: Inode, data: Bytes) returns (err: Option<Error>)
      requires client.Valid()
      modifies client.cache, client.server
      ensures client.Valid()
      ensures (client.State(), err) == FsSpec.ApplyContent(old(client.State()), client.Config(), env, node, data)
    {
      var ri := ResourceInfo(node.group, node.version, node.res, "");
      match node.kind {
        case NodeDataFile =>
          err := client.UpdateObjectDataKey(env, node.ns, ri, node.obj, node.file, data);
        case NodeFile =>
          if node.file == "yaml" || node.file == "json" {
            err := client.ApplyObject(env, node.ns, ri, data);
          } else {
            err := Some(ReadOnlyFile);
          }
        case _ =>
          err := Some(NotAFile);
      }
    }
  }

  /** One open file, changed in place by writes, truncations and flushes. */
  class OpenFile {
    const node: Inode
    ghost const handle: nat
    var buf: Bytes
    var dirty: bool
    var pending: bool

    constructor (node: Inode, data: Bytes, pending: bool, ghost handle: nat)
      ensures this.handle == handle && Value() == Handle(node, data, false, pending)
    {
      this.node := node;
      this.handle := handle;
      buf := data;
      dirty := false;
      this.pending := pending;
    }

    ghost function Value(): Handle
      reads this
    {
      Handle(node, buf, dirty, pending)
    }

    /** Grows the buffer with zeros if it is too short, copies data in, and marks it. */
    method Write(offset: nat, data: Bytes)
      modifies this
      ensures Value() == old(Value()).(buf := Overlay(old(buf), offset, data), dirty := true)
    {
      var end := offset + |data|;
      if end > |buf| {
        buf := buf + Zeros(end - |buf|);
      }
      buf := buf[..offset] + data + buf[end..];
      dirty := true;
    }

    method Truncate(size: nat)
      modifies this
      ensures Value() == old(Value()).(buf := Cut(old(buf), size))
    {
      if size < |buf| {
        buf := buf[..size];
      }
    }

    method MarkClean()
      modifies this
      ensures Value() == old(Value()).(dirty := false, pending := false)
    {
      dirty := false;
      pending := false;
    }
  }

  class FS {
    const client: K8s.Client
    const content: ContentProvider
    const inodes: InodeTable
    const verbs: Verbs

    var nextHandle: nat
    var openFiles: map<nat, OpenFile>
    var contentCache: map<nat, Cached>
    ghost var Files: map<nat, Handle>       // what the open files hold
    ghost var Repr: set<OpenFile>           // the objects that hold it

    ghost predicate Valid()
      reads this, client.cache, inodes, Repr
    {
      && content.client == client
      && client.Valid()
      && inodes.Valid()
      && nextHandle > 0
      && (forall h :: h in openFiles ==> 0 < h < nextHandle)
      && FilesOk()
    }

    /** Every handle has an open file of its own. */
    ghost predicate FilesOk()
      reads this`openFiles, this`Files, this`Repr, Repr
    {
      && Files.Keys == openFiles.Keys
      && (forall h :: h in openFiles ==>
            var f := openFiles[h];
            f in Repr && f.handle == h && Handle(f.node, f.buf, f.dirty, f.pending) == Files[h])
    }

    ghost function Config(): FsConfig { FsConfig(client.Config(), verbs) }

    /** The abstract state of the filesystem, its client and the server. */
    ghost function State(): FsState
      reads this, client.cache, client.server, inodes
    {
      FsState(client.State(), inodes.T(), nextHandle, Files, contentCache)
    }

    constructor (client: K8s.Client, verbs: Verbs, now: int)
      requires client.Valid()
      ensures Valid() && fresh(inodes)
      ensures this.client == client && this.verbs == verbs
      ensures State() == FsState(client.State(), NewTable(now), 1, map[], map[])
    {
      this.client := client;
      content := new ContentProvider(client);
      inodes := new InodeTable(now);
      this.verbs := verbs;
      nextHandle := 1;
      openFiles := map[];
      contentCache := map[];
      Files := map[];
      Repr := {};
    }

    method AllocHandle() returns (h: nat)
      modifies this`nextHandle
      ensures h == old(nextHandle) && nextHandle == h + 1
    {
      h := nextHandle;
      nextHandle := nextHandle + 1;
    }

    method Lookup(env: Env, parentID: nat, name: string) returns (r: Result<Inode, Errno>)
      requires Valid() && env.Valid()
      modifies client.cache, inodes
      ensures Valid()
      ensures (State(), r) == FsSpec.Lookup(old(State()), Config(), env, parentID, name)
    {
      var parent := inodes.Get(parentID);
      if parent.None? { return Err(ENOENT); }
      RootedAt(parentID);
      var err := EnsureChildren(env, parent.value);
      assert FilesOk() == old(FilesOk());
      if err.Some? { return Err(err.value); }
      var child := inodes.LookupChild(parentID, name);
      if child.None? { return Err(ENOENT); }
      return Ok(child.value);
    }

    lemma RootedAt(id: nat)
      requires Valid() && id in inodes.inodes
      ensures inodes.inodes[id].id == id < inodes.nextID && inodes.nextID > ROOT
    {
      assert NodeLinked(inodes.T(), id);
    }

    /** Child nodes in strictly ascending order of their names. */
    method Children(env: Env, id: nat) returns (r: Result<seq<Inode>, Errno>)
      requires Valid() && env.Valid()
      modifies client.cache, inodes
      ensures Valid()
      ensures State() == FsSpec.Children(old(State()), Config(), env, id).0
      ensures match FsSpec.Children(old(State()), Config(), env, id).1
              case Some(e) => r == Err(e)
              case None => r.Ok? && IsListing(State().table, id, r.value)
    {
      var node := inodes.Get(id);
      if node.None? { return Err(ENOENT); }
      RootedAt(id);
      var err := EnsureChildren(env, node.value);
      assert FilesOk() == old(FilesOk());
      if err.Some? { return Err(err.value); }
      var children := inodes.Children(id);
      SortedListing(inodes.T(), id, children);
      return Ok(SortBy(children, NameOf));
    }

    method GetAttr(env: Env, id: nat) returns (r: Result<Attr, Errno>)
      requires Valid() && env.Valid()
      modifies client.cache, this`contentCache
      ensures Valid()
      ensures (State(), r) == FsSpec.GetAttr(old(State()), Config(), env, id)
    {
      var node := inodes.Get(id);
      if node.None? { return Err(ENOENT); }
      var size := 0;
      if node.value.kind == NodeFile || node.value.kind == NodeDataFile {
        var data := FetchContent(env, node.value);
        size := |data|;
      }
      var nlink := if node.value.IsDir() then 2 else 1;
      var perm := ModeWithVerbs(node.value);
      return Ok(Attr(size, nlink, perm, node.value.created));
    }

    /** The permission bits of a node; a writable file loses its write bit without the
        update verb. */
    method ModeWithVerbs(node: Inode) returns (perm: nat)
      ensures perm == Perm(node, verbs.update)
    {
      perm := 292;
      if node.IsDir() {
        return 365;
      }
      if node.kind == NodeDataFile || node.file == "yaml" || node.file == "json" {
        perm := 420;
      }
      if !verbs.update && perm / 128 % 2 == 1 {
        perm := perm - 128;
      }
    }

    method Truncate(id: nat, size: nat) returns (err: Option<Errno>)
      requires Valid()
      modifies this`Files, Repr
      ensures Valid()
      ensures (State(), err) == FsSpec.Truncate(old(State()), Config(), id, size)
    {
      if verbs.ReadOnly() { return Some(EROFS); }
      var node := inodes.Get(id);
      if node.None? { return Some(ENOENT); }
      CutBuffers(id, size);
      return None;
    }

    method CutBuffers(id: nat, size: nat)
      requires FilesOk()
      modifies this`Files, Repr
      ensures FilesOk()
      ensures Files == FsSpec.CutBuffers(old(Files), id, size)
    {
      ghost var files := Files;
      ghost var cut := FsSpec.CutBuffers(files, id, size);
      var rest := openFiles.Keys;
      while rest != {}
        invariant rest <= openFiles.Keys
        invariant forall h :: h in openFiles ==>
          var f := openFiles[h];
          f in Repr && f.handle == h && Handle(f.node, f.buf, f.dirty, f.pending) ==
              (if h in rest then files[h] else cut[h])
        decreases rest
      {
        var h :| h in rest;
        rest := rest - {h};
        var f := openFiles[h];
        if f.node.id == id {
          f.Truncate(size);
        }
      }
      Files := cut;
    }

    method Remove(env: Env, parentID: nat, name: string, isDir: bool) returns (err: Option<Errno>)
      requires Valid()
      modifies client.cache, client.server, inodes
      ensures Valid()
      ensures (State(), err) == FsSpec.Remove(old(State()), Config(), env, parentID, name, isDir)
    {
      err := RemoveEntry(env, parentID, name, isDir);
      assert FilesOk() == old(FilesOk());
    }

    method RemoveEntry(env: Env, parentID: nat, name: string, isDir: bool) returns (err: Option<Errno>)
      requires client.Valid() && inodes.Valid()
      modifies client.cache, client.server, inodes
      ensures client.Valid() && inodes.Valid()
      ensures (State(), err) == FsSpec.Remove(old(State()), Config(), env, parentID, name, isDir)
    {
      var child := inodes.LookupChild(parentID, name);
      if child.None? { return Some(ENOENT); }
      err := Permit(env, parentID, child.value, isDir);
      if err.Some? { return err; }
      var _ := inodes.RemoveChild(parentID, name);
      return None;
    }

    /** A directory goes once its object is deleted; a file if it lies under a type. */
    method Permit(env: Env, parentID: nat, child: Inode, isDir: bool) returns (err: Option<Errno>)
      requires client.Valid()
      modifies client.cache, client.server
      ensures client.Valid()
      ensures isDir ==> (client.State(), err) == FsSpec.DeleteBehind(old(client.State()), Config(), env, child)
      ensures !isDir ==> client.State() == old(client.State())
      ensures !isDir ==>
        (err.None? <==> inodes.Get(parentID).Some? && inodes.Get(parentID).value.kind == NodeResourceType)
      ensures !isDir && err.Some? ==> err == Some(EPERM)
    {
      if isDir {
        err := DeleteBehind(env, child);
        return err;
      }
      var parent := inodes.Get(parentID);
      if parent.None? || parent.value.kind != NodeResourceType { return Some(EPERM); }
      return None;
    }

    method DeleteBehind(env: Env, child: Inode) returns (err: Option<Errno>)
      requires client.Valid()
      modifies client.cache, client.server
      ensures client.Valid()
      ensures (client.State(), err) == FsSpec.DeleteBehind(old(client.State()), Config(), env, child)
    {
      if !verbs.delete { return Some(EPERM); }
      if child.kind != NodeObject { return Some(EPERM); }
      var ri := ResourceInfo(child.group, child.version, child.res, "");
      var failed := client.DeleteObject(env, child.ns, ri, child.obj);
      return if failed.Some? then Some(EIO) else None;
    }

    /** Whether a file of this name may be created, and if so where. */
    method CheckCreate(parentID: nat, name: string) returns (r: Result<Inode, Errno>)
      requires inodes.Valid()
      ensures r == FsSpec.CheckCreate(inodes.T(), Config(), parentID, name)
      ensures r.Ok? ==> parentID in inodes.childIndex && parentID < inodes.nextID && inodes.nextID > ROOT
    {
      if !verbs.create { return Err(EROFS); }
      var parent := inodes.Get(parentID);
      if parent.None? { return Err(ENOENT); }
      if parent.value.kind != NodeResourceType { return Err(EPERM); }
      if !HasSuffix(name, ".yaml") && !HasSuffix(name, ".json") { return Err(EPERM); }
      assert NodeLinked(inodes.T(), parentID);
      return Ok(parent.value);
    }

    method CreateAndOpen(env: Env, parentID: nat, name: string) returns (r: Result<(Inode, nat), Errno>)
      requires Valid()
      modifies inodes, this
      ensures Valid() && fresh(Repr - old(Repr))
      ensures (State(), r) == FsSpec.CreateAndOpen(old(State()), Config(), env, parentID, name)
    {
      var dir := CheckCreate(parentID, name);
      if dir.Err? { return Err(dir.error); }
      var child, handle := AddPending(parentID, PendingProto(dir.value, name, env.now));
      return Ok((child, handle));
    }

    /** Adds a node and opens it with an empty buffer. */
    method AddPending(parentID: nat, proto: Inode) returns (child: Inode, handle: nat)
      requires Valid() && parentID in inodes.childIndex && proto.kind != NodeRoot
      requires parentID < inodes.nextID && inodes.nextID > ROOT
      modifies inodes, this
      ensures Valid() && fresh(Repr - old(Repr))
      ensures handle == old(nextHandle)
      ensures child == TableSpec.AddChild(old(inodes.T()), parentID, proto).1
      ensures State() == old(State()).(table := TableSpec.AddChild(old(inodes.T()), parentID, proto).0,
                                       nextHandle := handle + 1,
                                       files := old(Files)[handle := Handle(child, [], false, true)])
    {
      child := inodes.AddChild(parentID, proto);
      handle := OpenPending(child);
    }

    method OpenPending(child: Inode) returns (handle: nat)
      requires Valid()
      modifies this`nextHandle, this`openFiles, this`Files, this`Repr
      ensures Valid() && fresh(Repr - old(Repr))
      ensures handle == old(nextHandle)
      ensures State() == old(State()).(nextHandle := handle + 1,
                                       files := old(Files)[handle := Handle(child, [], false, true)])
    {
      handle := AllocHandle();
      Open(handle, child, [], true);
    }

    /** Puts a new open file under a handle. */
    method Open(handle: nat, node: Inode, data: Bytes, pending: bool)
      requires Valid() && 0 < handle < nextHandle
      modifies this`openFiles, this`Files, this`Repr
      ensures Valid() && fresh(Repr - old(Repr))
      ensures State() == old(State()).(files := old(Files)[handle := Handle(node, data, false, pending)])
    {
      InsertFile(handle, node, data, pending);
    }

    method InsertFile(handle: nat, node: Inode, data: Bytes, pending: bool)
      requires FilesOk()
      modifies this`openFiles, this`Files, this`Repr
      ensures FilesOk() && fresh(Repr - old(Repr))
      ensures Files == old(Files)[handle := Handle(node, data, false, pending)]
    {
      var f := new OpenFile(node, data, pending, handle);
      openFiles, Files, Repr := openFiles[handle := f], Files[handle := f.Value()], Repr + {f};
    }

    method OpenFile(env: Env, id: nat) returns (r: Result<nat, Errno>)
      requires Valid() && env.Valid()
      modifies client.cache, this
      ensures Valid() && fresh(Repr - old(Repr))
      ensures (State(), r) == FsSpec.OpenFile(old(State()), Config(), env, id)
    {
      var node := inodes.Get(id);
      if node.None? { return Err(ENOENT); }
      var handle := AllocHandle();
      var data := FetchContent(env, node.value);
      assert FilesOk() == old(FilesOk());
      Open(handle, node.value, data, false);
      return Ok(handle);
    }

    /** Copies at most n bytes out of the buffer. */
    method ReadHandle(handle: nat, offset: nat, n: nat) returns (r: Result<Bytes, Errno>)
      requires Valid()
      ensures r == FsSpec.ReadHandle(State(), handle, offset, n)
    {
      if handle !in openFiles { return Err(EIO); }
      var f := openFiles[handle];
      if offset >= |f.buf| { return Ok([]); }
      var end := offset + n;
      if end > |f.buf| { end := |f.buf|; }
      return Ok(f.buf[offset..end]);
    }

    /** The verb and the kind of node decide whether a handle takes writes. */
    method CheckWrite(f: OpenFile) returns (err: Option<Errno>)
      ensures err == if !(if f.pending then verbs.create else verbs.update) then Some(EROFS)
                     else if !Writable(f.node) then Some(EPERM) else None
    {
      if f.pending {
        if !verbs.create { return Some(EROFS); }
      } else if !verbs.update { return Some(EROFS); }
      match f.node.kind {
        case NodeDataFile => return None;
        case NodeFile =>
          if f.node.file != "yaml" && f.node.file != "json" { return Some(EPERM); }
          return None;
        case _ => return Some(EPERM);
      }
    }

    /** The write changes the open file of this handle alone. */
    method WriteHandle(handle: nat, offset: nat, data: Bytes) returns (r: Result<nat, Errno>)
      requires Valid()
      modifies this`Files
      modifies if handle in openFiles then {openFiles[handle]} else {}
      ensures Valid()
      ensures (State(), r) == FsSpec.WriteHandle(old(State()), Config(), handle, offset, data)
    {
      if handle !in openFiles { return Err(EIO); }
      var f := openFiles[handle];
      var err := CheckWrite(f);
      if err.Some? { return Err(err.value); }
      Overwrite(handle, offset, data);
      return Ok(|data|);
    }

    method Overwrite(handle: nat, offset: nat, data: Bytes)
      requires FilesOk() && handle in openFiles
      modifies this`Files, openFiles[handle]
      ensures FilesOk()
      ensures
        var f := old(Files)[handle];
        Files == old(Files)[handle := f.(buf := Overlay(f.buf, offset, data), dirty := true)]
    {
      var f := openFiles[handle];
      f.Write(offset, data);
      Files := Files[handle := f.Value()];
    }

    method FlushHandle(env: Env, handle: nat) returns (err: Option<Errno>)
      requires Valid()
      modifies client.cache, client.server, this`contentCache, this`Files
      modifies if handle in openFiles then {openFiles[handle]} else {}
      ensures Valid()
      ensures (State(), err) == FsSpec.FlushHandle(old(State()), Config(), env, handle)
    {
      if handle !in openFiles { return None; }
      var f := openFiles[handle];
      if !f.dirty { return None; }
      assert f.Value() == Files[handle];
      err := Send(env, f);
      if err.Some? { return err; }
      MarkFlushed(handle);
    }

    method MarkFlushed(handle: nat)
      requires FilesOk() && handle in openFiles
      modifies this`Files, this`contentCache, openFiles[handle]
      ensures FilesOk()
      ensures Files == old(Files)[handle := old(Files)[handle].(dirty := false, pending := false)]
      ensures contentCache == old(contentCache) - {openFiles[handle].node.id}
    {
      var f := openFiles[handle];
      f.MarkClean();
      Files, contentCache := Files[handle := f.Value()], contentCache - {f.node.id};
    }

    method Send(env: Env, f: OpenFile) returns (err: Option<Errno>)
      requires client.Valid() && content.client == client
      modifies client.cache, client.server
      ensures client.Valid()
      ensures (client.State(), err) == FsSpec.Send(old(client.State()), Config(), env, f.Value())
    {
      var failed: Option<Error>;
      if f.pending {
        if !verbs.create { return Some(EROFS); }
        failed := content.CreateContent(env, f.node, f.buf);
      } else {
        if !verbs.update { return Some(EROFS); }
        failed := content.ApplyContent(env, f.node, f.buf);
      }
      return if failed.Some? then Some(EIO) else None;
    }

    method ReleaseHandle(handle: nat)
      requires Valid()
      modifies this`openFiles, this`Files
      ensures Valid()
      ensures State() == FsSpec.ReleaseHandle(old(State()), handle)
      ensures openFiles.Keys == old(openFiles.Keys) - {handle}
    {
      openFiles := openFiles - {handle};
      Files := Files - {handle};
    }

    method FetchContent(env: Env, node: Inode) returns (data: Bytes)
      requires Valid() && env.Valid()
      modifies client.cache, this`contentCache
      ensures Valid()
      ensures (State(), data) == FsSpec.FetchContent(old(State()), Config(), env, node)
    {
      if node.id in contentCache && env.now - contentCache[node.id].fetchedAt < CONTENT_TTL {
        return contentCache[node.id].data;
      }
      var r := content.GetContent(env, node);
      if r.Err? {
        data := client.lib.errorText(r.error);
      } else {
        data := r.value;
      }
      contentCache := contentCache[node.id := Cached(data, env.now)];
    }

    method EnsureChildren(env: Env, node: Inode) returns (err: Option<Errno>)
      requires client.Valid() && inodes.Valid() && env.Valid()
      requires inodes.Get(node.id) == Some(node)
      modifies client.cache, inodes
      ensures client.Valid() && inodes.Valid()
      ensures (client.State(), inodes.T(), err) ==
        Refresh(old(client.State()), old(inodes.T()), client.Config(), env, node)
    {
      match node.kind {
        case NodeRoot => err := PopulateNamespaces(env, node);
        case NodeNamespace => err := PopulateResourceTypes(env, node);
        case NodeResourceType => err := PopulateObjects(env, node);
        case NodeObject => err := PopulateActionFiles(env, node);
        case NodeDataDir => err := PopulateDataKeys(env, node);
        case _ => err := None;
      }
    }

    /** The loop that every populate method ends in: add what is listed, drop what is not. */
    method Populate(dir: Inode, protos: seq<Inode>)
      requires inodes.Valid() && inodes.Get(dir.id) == Some(dir) && dir.IsDir()
      requires forall i :: 0 <= i < |protos| ==> protos[i].kind != NodeRoot
      modifies inodes
      ensures inodes.Valid()
      ensures inodes.T() == Reconcile(old(inodes.T()), dir.id, protos)
    {
      ghost var t := inodes.T();
      var keep: set<string> := {};
      assert dir.id in inodes.childIndex;
      for i := 0 to |protos|
        invariant inodes.Valid() && dir.id in inodes.childIndex
        invariant inodes.T() == AddAll(t, dir.id, protos[..i])
        invariant keep == NamesOf(protos[..i])
      {
        assert protos[..i + 1][..i] == protos[..i];
        keep := keep + {protos[i].name};
        var _ := inodes.AddChild(dir.id, protos[i]);
      }
      assert protos[..|protos|] == protos;
      inodes.RemoveChildren(dir.id, keep);
    }

    method PopulateNamespaces(env: Env, root: Inode) returns (err: Option<Errno>)
      requires client.Valid() && inodes.Valid() && inodes.Get(root.id) == Some(root) && root.kind == NodeRoot
      modifies client.cache, inodes
      ensures client.Valid() && inodes.Valid()
      ensures (client.State(), inodes.T(), err) ==
        Refresh(old(client.State()), old(inodes.T()), client.Config(), env, root)
    {
      ListDirTyped(client.State(), client.Config(), env, root);
      var namespaces := client.ListNamespaces(env);
      if namespaces.Err? { return Some(EIO); }
      Populate(root, NamespaceProtos(namespaces.value, env.now));
      return None;
    }

    method PopulateResourceTypes(env: Env, nsNode: Inode) returns (err: Option<Errno>)
      requires client.Valid() && inodes.Valid() && inodes.Get(nsNode.id) == Some(nsNode) && nsNode.kind == NodeNamespace
      modifies client.cache, inodes
      ensures client.Valid() && inodes.Valid()
      ensures (client.State(), inodes.T(), err) ==
        Refresh(old(client.State()), old(inodes.T()), client.Config(), env, nsNode)
    {
      ListDirTyped(client.State(), client.Config(), env, nsNode);
      var resources := client.DiscoverResources(env);
      if resources.Err? { return Some(EIO); }
      var protos := ResourceTypeProtos(nsNode, env, resources.value);
      TypesBelow(nsNode, env, resources.value);
      Populate(nsNode, protos);
      return None;
    }

    lemma TypesBelow(dir: Inode, env: Env, m: map<string, ResourceInfo>)
      ensures
        var protos := ResourceTypeProtos(dir, env, m);
        forall i :: 0 <= i < |protos| ==> protos[i].kind == NodeResourceType
    {
    }

    method PopulateObjects(env: Env, rtNode: Inode) returns (err: Option<Errno>)
      requires client.Valid() && inodes.Valid() && inodes.Get(rtNode.id) == Some(rtNode)
          && rtNode.kind == NodeResourceType
      modifies client.cache, inodes
      ensures client.Valid() && inodes.Valid()
      ensures (client.State(), inodes.T(), err) ==
        Refresh(old(client.State()), old(inodes.T()), client.Config(), env, rtNode)
    {
      var ri := ResourceInfo(rtNode.group, rtNode.version, rtNode.res, "");
      ListDirTyped(client.State(), client.Config(), env, rtNode);
      var objects := client.ListObjects(env, rtNode.ns, ri);
      if objects.Err? { return Some(EIO); }
      Populate(rtNode, ObjectProtos(rtNode, objects.value));
      return None;
    }

    method PopulateActionFiles(env: Env, objNode: Inode) returns (err: Option<Errno>)
      requires client.Valid() && inodes.Valid() && inodes.Get(objNode.id) == Some(objNode) && objNode.kind == NodeObject
      modifies inodes
      ensures client.Valid() && inodes.Valid()
      ensures (client.State(), inodes.T(), err) ==
        Refresh(old(client.State()), old(inodes.T()), client.Config(), env, objNode)
    {
      var protos := Each(ActionFiles(objNode.res), (a: string) => ActionProto(objNode, a));
      if HasDataDir(objNode.res) {
        protos := protos + [DataDirProto(objNode)];
      }
      Populate(objNode, protos);
      assert protos == ActionProtos(objNode);
      return None;
    }

    method PopulateDataKeys(env: Env, dataDirNode: Inode) returns (err: Option<Errno>)
      requires client.Valid() && inodes.Valid() && env.Valid()
      requires inodes.Get(dataDirNode.id) == Some(dataDirNode) && dataDirNode.kind == NodeDataDir
      modifies client.cache, inodes
      ensures client.Valid() && inodes.Valid()
      ensures (client.State(), inodes.T(), err) ==
        Refresh(old(client.State()), old(inodes.T()), client.Config(), env, dataDirNode)
    {
      var ri := ResourceInfo(dataDirNode.group, dataDirNode.version, dataDirNode.res, "");
      ListDirTyped(client.State(), client.Config(), env, dataDirNode);
      var dataMap := client.GetObjectData(env, dataDirNode.ns, ri, dataDirNode.obj);
      if dataMap.Err? { return Some(EIO); }
      Populate(dataDirNode, KeyProtos(dataDirNode, env, dataMap.value));
      return None;
    }
  }
}
