/** The billy adapter: paths, file cursors, and a set of open files that has to stay in
    step with the filesystem's own. */
module NfsMount {
  import opened Prelude
  import opened Api
  import opened TableSpec
  import opened FsSpec
  import opened Runs
  import opened PathSpec
  import opened Paths
  import Kubefs

  datatype BillyError = Sys(errno: Errno) | IsDirectory | Eof

  class BillyFS {
    const fs: Kubefs.FS
    var handles: set<BillyFile>
    ghost var ByHandle: map<nat, BillyFile>

    ghost predicate Valid()
      reads this, fs, fs.client.cache, fs.inodes, fs.Repr
    {
      FsOk() && InStep()
    }

    ghost predicate FsOk()
      reads fs, fs.client.cache, fs.inodes, fs.Repr
    {
      fs.Valid() && TypedTree(fs.inodes.T())
    }

    /** As long as only this adapter drives the filesystem, its files and the filesystem's
        open handles correspond one to one. */
    ghost predicate InStep()
      reads this`handles, this`ByHandle, fs`openFiles
    {
      ByHandle.Keys == fs.openFiles.Keys && MapOk()
    }

    ghost predicate MapOk()
      reads this`handles, this`ByHandle
    {
      && (forall h :: h in ByHandle ==> ByHandle[h].handle == h && !ByHandle[h].isDir && ByHandle[h] in handles)
      && (forall f :: f in handles ==> f.handle in ByHandle && ByHandle[f.handle] == f)
    }

    constructor (fs: Kubefs.FS)
      requires fs.Valid() && TypedTree(fs.inodes.T()) && fs.openFiles == map[]
      ensures Valid() && this.fs == fs && handles == {}
    {
      this.fs := fs;
      handles := {};
      ByHandle := map[];
    }

    // ---- Single steps on the filesystem, each leaving the two sides in step ----

    method FlushFile(env: Env, f: BillyFile) returns (err: Option<Errno>)
      requires Valid()
      modifies fs`contentCache, fs`Files, fs.client.cache, fs.client.server
      modifies fs.Repr
      ensures Valid() && handles == old(handles) && f.closed == old(f.closed)
      ensures fs.State() == FsSpec.FlushHandle(old(fs.State()), fs.Config(), env, f.handle).0
      ensures err == FsSpec.FlushHandle(old(fs.State()), fs.Config(), env, f.handle).1
    {
      err := FlushBehind(env, f);
    }

    /** The flush as this adapter sees it. */
    method FlushBehind(env: Env, f: BillyFile) returns (err: Option<Errno>)
      requires fs.Valid()
      modifies fs`contentCache, fs`Files, fs.client.cache, fs.client.server
      modifies fs.Repr
      ensures fs.Valid() && unchanged(fs`openFiles)
      ensures unchanged(this) && unchanged(f)
      ensures (fs.State(), err) == FsSpec.FlushHandle(old(fs.State()), fs.Config(), env, f.handle)
    {
      err := fs.FlushHandle(env, f.handle);
    }

    method ReleaseFile(f: BillyFile)
      requires Valid() && f in handles
      modifies this`handles, this`ByHandle, fs`openFiles, fs`Files
      ensures Valid() && handles == old(handles) - {f} && f.closed == old(f.closed)
      ensures fs.State() == FsSpec.ReleaseHandle(old(fs.State()), f.handle)
    {
      fs.ReleaseHandle(f.handle);
      Leave(f);
    }

    method Leave(f: BillyFile)
      requires FsOk() && MapOk() && f in handles && fs.openFiles.Keys == ByHandle.Keys - {f.handle}
      modifies this`handles, this`ByHandle
      ensures Valid() && handles == old(handles) - {f}
    {
      handles, ByHandle := handles - {f}, ByHandle - {f.handle};
    }

    method FlushAndRelease(env: Env, f: BillyFile) returns (err: Option<Errno>)
      requires Valid() && f in handles
      modifies this`handles, this`ByHandle, fs`openFiles, fs`Files, fs`contentCache, fs.client.cache, fs.client.server
      modifies fs.Repr
      ensures Valid()
      ensures fs.State() == CloseHandle(old(fs.State()), fs.Config(), env, f.handle).0
      ensures err == CloseHandle(old(fs.State()), fs.Config(), env, f.handle).1
      ensures f.closed == old(f.closed)
      ensures handles == if err.None? then old(handles) - {f} else old(handles)
    {
      err := FlushFile(env, f);
      if err.Some? { return err; }
      ReleaseFile(f);
    }

    method WriteFile(h: nat, offset: nat, data: Bytes) returns (r: Result<nat, Errno>)
      requires Valid()
      modifies fs`Files
      modifies fs.Repr
      ensures Valid()
      ensures (fs.State(), r) == FsSpec.WriteHandle(old(fs.State()), fs.Config(), h, offset, data)
    {
      r := WriteBehind(h, offset, data);
    }

    method WriteBehind(h: nat, offset: nat, data: Bytes) returns (r: Result<nat, Errno>)
      requires fs.Valid()
      modifies fs`Files
      modifies fs.Repr
      ensures fs.Valid() && fs.inodes.T() == old(fs.inodes.T()) && unchanged(fs`openFiles) && unchanged(this)
      ensures (fs.State(), r) == FsSpec.WriteHandle(old(fs.State()), fs.Config(), h, offset, data)
    {
      r := fs.WriteHandle(h, offset, data);
    }

    method CreateIn(env: Env, p: nat, name: string) returns (r: Result<BillyFile, Errno>)
      requires Valid()
      modifies this, fs, fs.inodes
      ensures Valid() && handles == old(handles) + if r.Ok? then {r.value} else {}
      ensures r.Ok? ==>
        fresh(r.value) && r.value.bfs == this && !r.value.isDir && !r.value.closed && r.value.offset == 0
      ensures fs.State() == FsSpec.CreateAndOpen(old(fs.State()), fs.Config(), env, p, name).0
      ensures match FsSpec.CreateAndOpen(old(fs.State()), fs.Config(), env, p, name).1
              case Err(e) => r == Err(e)
              case Ok((n, h)) => r.Ok? && r.value.node == n && r.value.handle == h
    {
      CreateKeepsTree(fs.State(), fs.Config(), env, p, name);
      var made := CreateBehind(env, p, name);
      if made.Err? { return Err(made.error); }
      var f := Adopt(made.value.0, made.value.1);
      return Ok(f);
    }

    method CreateBehind(env: Env, p: nat, name: string) returns (r: Result<(Inode, nat), Errno>)
      requires fs.Valid()
      modifies fs, fs.inodes
      ensures fs.Valid() && handles == old(handles) && ByHandle == old(ByHandle)
      ensures (fs.State(), r) == FsSpec.CreateAndOpen(old(fs.State()), fs.Config(), env, p, name)
    {
      r := fs.CreateAndOpen(env, p, name);
    }

    method OpenNode(env: Env, node: Inode) returns (r: Result<BillyFile, Errno>)
      requires Valid() && env.Valid()
      modifies this, fs, fs.client.cache
      ensures Valid() && handles == old(handles) + if r.Ok? then {r.value} else {}
      ensures r.Ok? ==>
        fresh(r.value) && r.value.bfs == this && !r.value.isDir && !r.value.closed && r.value.offset == 0
      ensures fs.State() == FsSpec.OpenFile(old(fs.State()), fs.Config(), env, node.id).0
      ensures match FsSpec.OpenFile(old(fs.State()), fs.Config(), env, node.id).1
              case Err(e) => r == Err(e)
              case Ok(h) => r.Ok? && r.value.node == node && r.value.handle == h
    {
      var handle := fs.OpenFile(env, node.id);
      if handle.Err? { return Err(handle.error); }
      var f := Adopt(node, handle.value);
      return Ok(f);
    }

    // ---- The billy interface ----

    /** Walks the path from the root, one lookup per component. */
    method Resolve(env: Env, path: seq<string>) returns (r: Result<Option<Inode>, Errno>)
      requires Valid() && env.Valid()
      modifies fs.client.cache, fs.inodes
      ensures Valid()
      ensures (fs.State(), r) == PathSpec.Resolve(old(fs.State()), fs.Config(), env, path)
    {
      ghost var s0 := fs.State();
      if path == [] {
        return Ok(fs.inodes.Get(ROOT));
      }
      var current := ROOT;
      for i := 0 to |path|
        invariant Valid()
        invariant Descend(s0, fs.Config(), env, ROOT, path) == Descend(fs.State(), fs.Config(), env, current, path[i..])
      {
        ghost var s := fs.State();
        LookupKeepsTree(s, fs.Config(), env, current, path[i]);
        assert path[i..][1..] == path[i + 1..];
        var node := fs.Lookup(env, current, path[i]);
        if node.Err? {
          return Err(node.error);
        }
        current := node.value.id;
      }
      return Ok(fs.inodes.Get(current));
    }

    /** The directory a path lies in, and its last name. */
    method ParentAndName(env: Env, path: seq<string>) returns (r: Result<(nat, string), Errno>)
      requires Valid() && env.Valid()
      modifies fs.client.cache, fs.inodes
      ensures Valid()
      ensures fs.State() == PathSpec.Resolve(old(fs.State()), fs.Config(), env, DirName(path)).0
      ensures match PathSpec.Resolve(old(fs.State()), fs.Config(), env, DirName(path)).1
              case Err(e) => r == Err(e)
              case Ok(None) => false
              case Ok(Some(dir)) => r == Ok((dir.id, BaseName(path)))
    {
      DescendLive(fs.State(), fs.Config(), env, ROOT, DirName(path));
      var parent := Resolve(env, DirName(path));
      if parent.Err? { return Err(parent.error); }
      return Ok((parent.value.value.id, BaseName(path)));
    }

    /** Creates a file, and opens it. */
    method Create(env: Env, path: seq<string>) returns (r: Result<BillyFile, Errno>)
      requires Valid() && env.Valid()
      modifies this, fs, fs.client.cache, fs.inodes
      ensures Valid()
      ensures handles == old(handles) + if r.Ok? then {r.value} else {}
      ensures r.Ok? ==>
        fresh(r.value) && r.value.bfs == this && !r.value.isDir && !r.value.closed && r.value.offset == 0
      ensures fs.State() == PathSpec.CreateAt(old(fs.State()), fs.Config(), env, path).0
      ensures match PathSpec.CreateAt(old(fs.State()), fs.Config(), env, path).1
              case Err(e) => r == Err(e)
              case Ok((n, h)) => r.Ok? && r.value.node == n && r.value.handle == h
    {
      var parent := ParentAndName(env, path);
      if parent.Err? { return Err(parent.error); }
      r := CreateIn(env, parent.value.0, parent.value.1);
    }

    /** Opens a path; a directory gets a file without a handle. */
    method OpenFile(env: Env, path: seq<string>) returns (r: Result<BillyFile, Errno>)
      requires Valid() && env.Valid()
      modifies this, fs, fs.client.cache, fs.inodes
      ensures Valid()
      ensures r.Ok? ==> fresh(r.value) && r.value.bfs == this && !r.value.closed && r.value.offset == 0
      ensures handles == old(handles) + if r.Ok? && !r.value.isDir then {r.value} else {}
      ensures fs.State() == PathSpec.OpenAt(old(fs.State()), fs.Config(), env, path).0
      ensures match PathSpec.OpenAt(old(fs.State()), fs.Config(), env, path).1
              case Err(e) => r == Err(e)
              case Ok((n, None)) => r.Ok? && r.value.node == n && r.value.isDir
              case Ok((n, Some(h))) => r.Ok? && r.value.node == n && !r.value.isDir && r.value.handle == h
    {
      DescendLive(fs.State(), fs.Config(), env, ROOT, path);
      var node := Resolve(env, path);
      if node.Err? { return Err(node.error); }
      var n := node.value.value;
      if n.IsDir() {
        var d := new BillyFile(this, n, 0, true);
        return Ok(d);
      }
      r := OpenNode(env, n);
    }

    /** Makes a file for the handle that the filesystem has just opened. */
    method Adopt(node: Inode, handle: nat) returns (f: BillyFile)
      requires FsOk() && MapOk()
      requires handle !in ByHandle && fs.openFiles.Keys == ByHandle.Keys + {handle}
      modifies this`handles, this`ByHandle
      ensures Valid() && fs.State() == old(fs.State()) && handles == old(handles) + {f}
      ensures fresh(f) && f.bfs == this && f.node == node && f.handle == handle && !f.isDir && !f.closed
          && f.offset == 0
    {
      f := new BillyFile(this, node, handle, false);
      assert FsOk() == old(FsOk()) && fs.State() == old(fs.State());
      Enter(f);
    }

    method Enter(f: BillyFile)
      requires MapOk() && !f.isDir && f.handle !in ByHandle
      modifies this`handles, this`ByHandle
      ensures MapOk() && ByHandle.Keys == old(ByHandle.Keys) + {f.handle} && handles == old(handles) + {f}
      ensures FsOk() == old(FsOk()) && fs.State() == old(fs.State())
    {
      handles, ByHandle := handles + {f}, ByHandle[f.handle := f];
    }

    method Remove(env: Env, path: seq<string>) returns (err: Option<Errno>)
      requires Valid() && env.Valid()
      modifies fs.client.cache, fs.client.server, fs.inodes
      ensures Valid()
      ensures (fs.State(), err) == PathSpec.RemoveAt(old(fs.State()), fs.Config(), env, path)
    {
      var parent := ParentAndName(env, path);
      if parent.Err? { return Some(parent.error); }
      DescendLive(fs.State(), fs.Config(), env, ROOT, path);
      var node := Resolve(env, path);
      if node.Err? { return Some(node.error); }
      err := RemoveIn(env, parent.value.0, parent.value.1, node.value.value.IsDir());
    }

    method RemoveIn(env: Env, p: nat, name: string, isDir: bool) returns (err: Option<Errno>)
      requires Valid()
      modifies fs.client.cache, fs.client.server, fs.inodes
      ensures Valid()
      ensures (fs.State(), err) == FsSpec.Remove(old(fs.State()), fs.Config(), env, p, name, isDir)
    {
      RemoveKeepsTree(fs.State(), fs.Config(), env, p, name, isDir);
      err := fs.Remove(env, p, name, isDir);
      assert InStep() == old(InStep());
    }
  }

  /** An open file with a cursor. */
  class BillyFile {
    const bfs: BillyFS
    const node: Inode
    const handle: nat
    const isDir: bool
    var offset: nat
    var closed: bool

    constructor (bfs: BillyFS, node: Inode, handle: nat, isDir: bool)
      ensures this.bfs == bfs && this.node == node && this.handle == handle && this.isDir == isDir
      ensures offset == 0 && !closed
    {
      this.bfs := bfs;
      this.node := node;
      this.handle := handle;
      this.isDir := isDir;
      offset := 0;
      closed := false;
    }

    /** Reads on from the cursor; reading nothing without an error is the end of the file. */
    method Read(n: nat) returns (r: Result<Bytes, BillyError>)
      requires bfs.Valid()
      modifies this`offset
      ensures r == if isDir then Err(IsDirectory)
                   else match FsSpec.ReadHandle(bfs.fs.State(), handle, old(offset), n)
                     case Err(e) => Err(Sys(e))
                     case Ok(b) => if b == [] then Err(Eof) else Ok(b)
      ensures offset == old(offset) + if r.Ok? then |r.value| else 0
    {
      if isDir { return Err(IsDirectory); }
      var got := bfs.fs.ReadHandle(handle, offset, n);
      if got.Err? { return Err(Sys(got.error)); }
      offset := offset + |got.value|;
      if |got.value| == 0 { return Err(Eof); }
      return Ok(got.value);
    }

    method Advance(k: nat)
      requires bfs.Valid()
      modifies this`offset
      ensures bfs.Valid() && bfs.fs.State() == old(bfs.fs.State())
      ensures offset == old(offset) + k
    {
      offset := offset + k;
    }

    /** Writes at the cursor and moves it past what was written. */
    method Write(p: Bytes) returns (r: Result<nat, BillyError>)
      requires bfs.Valid()
      modifies this`offset, bfs.fs`Files
      modifies bfs.fs.Repr
      ensures bfs.Valid()
      ensures r == if isDir then Err(IsDirectory)
                   else match FsSpec.WriteHandle(old(bfs.fs.State()), bfs.fs.Config(), handle, old(offset), p).1
                     case Err(e) => Err(Sys(e))
                     case Ok(k) => Ok(k)
      ensures !isDir ==> bfs.fs.State() == FsSpec.WriteHandle(old(bfs.fs.State()), bfs.fs.Config(), handle,
          old(offset), p).0
      ensures offset == old(offset) + if r.Ok? then r.value else 0
    {
      if isDir { return Err(IsDirectory); }
      var k := bfs.WriteFile(handle, offset, p);
      if k.Err? { return Err(Sys(k.error)); }
      Advance(k.value);
      return Ok(k.value);
    }

    /** Flushes and lets go of the handle. If the flush fails, the file counts as closed
        but both sides keep the handle; closing again does nothing either way. */
    method Close(env: Env) returns (err: Option<Errno>)
      requires bfs.Valid() && env.Valid()
      requires !isDir && !closed ==> this in bfs.handles
      modifies this`closed, bfs`handles, bfs`ByHandle, bfs.fs`openFiles, bfs.fs`Files, bfs.fs`contentCache
      modifies bfs.fs.client.cache, bfs.fs.client.server
      modifies bfs.fs.Repr
      ensures bfs.Valid()
      ensures closed == (old(closed) || !isDir)
      ensures old(closed) || isDir ==>
        err.None? && bfs.handles == old(bfs.handles) && bfs.fs.State() == old(bfs.fs.State())
      ensures !old(closed) && !isDir ==>
        bfs.fs.State() == CloseHandle(old(bfs.fs.State()), bfs.fs.Config(), env, handle).0
      ensures !old(closed) && !isDir ==> err == CloseHandle(old(bfs.fs.State()), bfs.fs.Config(), env, handle).1
      ensures !old(closed) && !isDir ==> bfs.handles == if err.None? then old(bfs.handles) - {this}
          else old(bfs.handles)
    {
      if closed || isDir { return None; }
      err := CloseOpen(env);
    }

    method CloseOpen(env: Env) returns (err: Option<Errno>)
      requires bfs.Valid() && env.Valid() && this in bfs.handles
      modifies this`closed, bfs`handles, bfs`ByHandle, bfs.fs`openFiles, bfs.fs`Files, bfs.fs`contentCache
      modifies bfs.fs.client.cache, bfs.fs.client.server
      modifies bfs.fs.Repr
      ensures bfs.Valid() && closed
      ensures bfs.fs.State() == CloseHandle(old(bfs.fs.State()), bfs.fs.Config(), env, handle).0
      ensures err == CloseHandle(old(bfs.fs.State()), bfs.fs.Config(), env, handle).1
      ensures bfs.handles == if err.None? then old(bfs.handles) - {this} else old(bfs.handles)
    {
      MarkClosed();
      err := bfs.FlushAndRelease(env, this);
    }

    method MarkClosed()
      requires bfs.Valid()
      modifies this`closed
      ensures closed && bfs.Valid() && bfs.fs.State() == old(bfs.fs.State())
    {
      closed := true;
    }
  }
}
