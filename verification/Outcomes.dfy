/** How each operation answers, and with which error, by verbs, kinds and names. */
module Outcomes {
  import opened Prelude
  import opened Api
  import opened Keys
  import opened ClientSpec
  import opened TableSpec
  import opened FsSpec

  /** Whatever a truncation cuts off, it cuts off buffers that are open on the node and longer,
      and it needs some verb, no matter which. */
  lemma TruncateDecides(cfg: FsConfig, s: FsState, id: nat, size: nat, h: nat)
    ensures
      var (s', err), v := Truncate(s, cfg, id, size), cfg.verbs;
      && err == (if !v.create && !v.update && !v.delete then Some(EROFS)
                 else if id !in s.table.inodes then Some(ENOENT) else None)
      && (err.Some? ==> s' == s)
      && s' == s.(files := s'.files) && (h in s'.files <==> h in s.files)
      && (err.None? && h in s.files ==>
            var f := s.files[h];
            s'.files[h] == if f.node.id == id && size < |f.buf| then f.(buf := f.buf[..size]) else f)
  {
  }

  predicate EndsIn(name: string, suffix: string) {
    exists i :: 0 <= i <= |name| && name[i..] == suffix
  }

  lemma SuffixIs(name: string, suffix: string)
    ensures HasSuffix(name, suffix) <==> EndsIn(name, suffix)
  {
    if EndsIn(name, suffix) {
      var i :| 0 <= i <= |name| && name[i..] == suffix;
      assert i == |name| - |suffix|;
    }
  }

  /** A create needs its verb, a live parent that is a type, and a name that ends in .yaml or
      .json; it then opens the child of that name, which is there or is made, empty and pending
      under the next handle. */
  lemma CreateDecides(cfg: FsConfig, s: FsState, env: Env, p: nat, name: string)
    ensures
      var (s', r) := CreateAndOpen(s, cfg, env, p, name);
      if !cfg.verbs.create then r == Err(EROFS) && s' == s
      else if p !in s.table.inodes then r == Err(ENOENT) && s' == s
      else if s.table.inodes[p].kind != NodeResourceType || !(EndsIn(name, ".yaml") || EndsIn(name, ".json")) then
        r == Err(EPERM) && s' == s
      else
        && r.Ok? && r.value.1 == s.nextHandle
        && s' == s.(table := s'.table, nextHandle := s.nextHandle + 1,
                    files := s.files[s.nextHandle := Handle(r.value.0, [], false, true)])
        && (match LookupChild(s.table, p, name)
            case Some(child) => r.value.0 == child && s'.table == s.table
            case None =>
              var d := s.table.inodes[p];
              && r.value.0 == Inode(s.table.next, name, NodeFile, p, d.ns, d.res, "", name, d.group, d.version, env.now)
              && s'.table.inodes == s.table.inodes[s.table.next := r.value.0]
              && LookupChild(s'.table, p, name) == Some(r.value.0))
  {
    SuffixIs(name, ".yaml");
    SuffixIs(name, ".json");
  }

  /** A write needs an open handle, the verb (that for creating while the file is pending), and a
      file that is a key, or called yaml or json. */
  lemma WriteDecides(cfg: FsConfig, s: FsState, h: nat, offset: nat, data: Bytes)
    ensures
      var r := WriteHandle(s, cfg, h, offset, data).1;
      if h !in s.files then r == Err(EIO)
      else
        var f := s.files[h];
        if (f.pending && !cfg.verbs.create) || (!f.pending && !cfg.verbs.update) then r == Err(EROFS)
        else if f.node.kind == NodeDataFile || (f.node.kind == NodeFile
            && (f.node.file == "yaml" || f.node.file == "json"))
        then r == Ok(|data|)
        else r == Err(EPERM)
    ensures
      var (s', r) := WriteHandle(s, cfg, h, offset, data);
      && (r.Err? ==> s' == s)
      && s' == s.(files := s'.files) && s'.files.Keys == s.files.Keys
      && (forall k :: k in s.files && k != h ==> s'.files[k] == s.files[k])
      && (r.Ok? ==> s'.files[h] == s.files[h].(buf := s'.files[h].buf, dirty := true))
  {
  }

  lemma ReadDecides(s: FsState, h: nat, offset: nat, n: nat)
    ensures
      var r := ReadHandle(s, h, offset, n);
      if h !in s.files then r == Err(EIO)
      else
        var buf := s.files[h].buf;
        && r.Ok? && |r.value| == Max(0, Min(n, |buf| - offset))
        && forall i :: 0 <= i < |r.value| ==> r.value[i] == buf[offset + i]
  {
  }

  /** A flush fails for want of the verb, or because the server does not take the buffer, and
      then leaves the handle as it is. */
  lemma FlushDecides(cfg: FsConfig, s: FsState, env: Env, h: nat)
    ensures
      var (s', err) := FlushHandle(s, cfg, env, h);
      if h !in s.files || !s.files[h].dirty then err == None && s' == s
      else
        var f := s.files[h];
        && (err == Some(EROFS) <==> (f.pending && !cfg.verbs.create) || (!f.pending && !cfg.verbs.update))
        && (err.Some? ==> err.value == EROFS || err.value == EIO)
        && (err.Some? ==> s'.files == s.files && s'.content == s.content && s'.client.server == s.client.server)
        && (err.None? ==> s'.files == s.files[h := f.(dirty := false, pending := false)]
                          && s'.content == s.content - {f.node.id})
        && s'.table == s.table && s'.nextHandle == s.nextHandle
  {
  }

  /** What a flush sends: a pending file is created as an object; otherwise a key file sets its
      key, yaml and json replace the object, and nothing else is sent. */
  lemma SendDecides(cfg: FsConfig, s: FsState, env: Env, h: nat)
    requires h in s.files && s.files[h].dirty && FlushHandle(s, cfg, env, h).1 != Some(EROFS)
    ensures
      var f, (s', err) := s.files[h], FlushHandle(s, cfg, env, h);
      var n := f.node;
      var ri := ResourceInfo(n.group, n.version, n.res, "");
      if f.pending then
        var (c, failed) := CreateObject(s.client, cfg.client, env, n.ns, ri, f.buf);
        s'.client == c && (err.None? <==> failed.None?)
      else if n.kind == NodeDataFile then
        var (c, failed) := UpdateObjectDataKey(s.client, env, n.ns, ri, n.obj, n.file, f.buf);
        s'.client == c && (err.None? <==> failed.None?)
      else if n.kind == NodeFile && (n.file == "yaml" || n.file == "json") then
        var (c, failed) := ApplyObject(s.client, cfg.client, env, n.ns, ri, f.buf);
        s'.client == c && (err.None? <==> failed.None?)
      else s'.client == s.client && err == Some(EIO)
  {
  }

  /** Letting go of a handle loses what it holds, and nothing else. */
  lemma ReleaseDecides(s: FsState, h: nat, k: nat)
    ensures
      var s' := ReleaseHandle(s, h);
      && s' == s.(files := s'.files)
      && (k in s'.files <==> k in s.files && k != h) && (k in s'.files ==> s'.files[k] == s.files[k])
  {
  }

  /** What stat shows: directories are r-xr-xr-x, files that take writes rw-r--r-- as long as
      the update verb is on, and all others r--r--r--. */
  lemma GetAttrDecides(cfg: FsConfig, s: FsState, env: Env, id: nat)
    ensures
      var (s', r) := GetAttr(s, cfg, env, id);
      if id !in s.table.inodes then r == Err(ENOENT) && s' == s
      else
        var n := s.table.inodes[id];
        && r.Ok? && r.value.mtime == n.created
        && (if n.kind != NodeFile && n.kind != NodeDataFile then s' == s && r.value.(mtime := 0) == Attr(0, 2, 365, 0)
            else
              var writes := n.kind == NodeDataFile || n.file == "yaml" || n.file == "json";
              && s' == FetchContent(s, cfg, env, n).0 && r.value.nlink == 1
              && r.value.size == |FetchContent(s, cfg, env, n).1|
              && r.value.perm == if writes && cfg.verbs.update then 420 else 292)
  {
  }

  /** Opening fails only for a node that is not there. */
  lemma OpenDecides(cfg: FsConfig, s: FsState, env: Env, id: nat)
    ensures
      var (s', r) := OpenFile(s, cfg, env, id);
      if id !in s.table.inodes then r == Err(ENOENT) && s' == s
      else
        && r == Ok(s.nextHandle) && s'.nextHandle == s.nextHandle + 1 && s'.table == s.table
        && s'.files == s.files[s.nextHandle := Handle(s.table.inodes[id],
            FetchContent(s, cfg, env, s.table.inodes[id]).1,
                                                      false, false)]
  {
  }

  /** Looking up, or listing, what is no directory finds nothing and asks nobody. */
  lemma NoDirectory(cfg: FsConfig, s: FsState, env: Env, id: nat, name: string)
    requires id in s.table.inodes ==> !s.table.inodes[id].IsDir()
    requires id !in s.table.index
    ensures Lookup(s, cfg, env, id, name) == (s, Err(ENOENT))
    ensures Children(s, cfg, env, id) == (s, if id in s.table.inodes then None else Some(ENOENT))
  {
  }

  // ---- The client's changes ----

  /** Creating needs a document with a name that nothing has yet; only the listing is then
      forgotten. */
  lemma CreateObjectDecides(c: ClientSpec.State, cfg: Config, env: Env, ns: string, ri: ResourceInfo, data: Bytes)
    ensures
      var (c', err) := CreateObject(c, cfg, env, ns, ri, data);
      match cfg.lib.parse(data)
      case None => err == Some(BadDocument) && c' == c
      case Some(obj) =>
        var ref := Ref(Gvr(ri.group, ri.version, ri.resource), ns, obj.name);
        if env.fails(CreateCall(ref)) then err == Some(CallFailed) && c' == c
        else if obj.name == "" then err == Some(NoName) && c' == c
        else if ref in c.server.objects then err == Some(AlreadyExists) && c' == c
        else
          && err == None && c'.cache == c.cache - {Key(View.Listing(ns, ri.resource))}
          && c'.server.objects == c.server.objects[ref := c'.server.objects[ref]]
          && c'.server.objects[ref] == obj.(version := Some(c.server.revision + 1), data := c'.server.objects[ref].data)
  {
  }

  /** Replacing needs a document with the name of an object that is there, and no other version
      than the stored one. */
  lemma ApplyObjectDecides(c: ClientSpec.State, cfg: Config, env: Env, ns: string, ri: ResourceInfo, data: Bytes)
    ensures
      var (c', err) := ApplyObject(c, cfg, env, ns, ri, data);
      && (err.Some? ==> c' == c)
      && match cfg.lib.parse(data)
         case None => err == Some(BadDocument)
         case Some(obj) =>
           var ref := Ref(Gvr(ri.group, ri.version, ri.resource), ns, obj.name);
           if obj.name == "" then err == Some(NoName)
           else if env.fails(UpdateCall(ref)) then err == Some(CallFailed)
           else if ref !in c.server.objects then err == Some(NotFound)
           else if obj.version.Some? && obj.version != c.server.objects[ref].version then err == Some(Conflict)
           else err == None && c'.server.objects.Keys == c.server.objects.Keys
  {
  }
}
