/** Runs of the billy adapter on plain values: they are runs of the filesystem, and keep the
    adapter's files in step with the filesystem's handles. */
module Mounts {
  import opened Prelude
  import opened Api
  import opened ClientSpec
  import opened TableSpec
  import opened FsSpec
  import opened Runs
  import opened PathSpec
  import opened Authority

  /** A file that the adapter has given out. The caller keeps it, closed or not. */
  datatype File = File(node: Inode, handle: nat, isDir: bool, offset: nat, closed: bool)

  /** files holds every file in the order in which the adapter gave them out; held is the
      adapter's set of open files, by their places in files. */
  datatype Mount = Mount(fs: FsState, files: seq<File>, held: set<nat>)

  datatype MountOp =
    | CreateFile(path: seq<string>)
    | OpenPath(path: seq<string>)
    | RemovePath(path: seq<string>)
    | ListPath(path: seq<string>)
    | StatPath(path: seq<string>)
    | StatNode(id: nat)
    | ReadFile(i: nat, n: nat)
    | WriteFile(i: nat, data: Bytes)
    | SeekFile(i: nat, to: nat)
    | TruncateFile(i: nat, size: nat)
    | CloseFile(i: nat)
    | Change(server: Server)            // by somebody else

  /** One use of the adapter, with what surrounds it. */
  datatype Use = Use(env: Env, op: MountOp)

  function StartMount(server: Server, now: int): Mount { Mount(Start(server, now), [], {}) }

  /** Gives out a file for a handle that was just opened. */
  function Adopted(m: Mount, s: FsState, node: Inode, h: nat): Mount {
    Mount(s, m.files + [File(node, h, false, 0, false)], m.held + {|m.files|})
  }

  function Created(cfg: FsConfig, m: Mount, env: Env, path: seq<string>): Mount {
    match CreateAt(m.fs, cfg, env, path)
    case (s, Err(_)) => m.(fs := s)
    case (s, Ok((n, h))) => Adopted(m, s, n, h)
  }

  function Opened(cfg: FsConfig, m: Mount, env: Env, path: seq<string>): Mount {
    match OpenAt(m.fs, cfg, env, path)
    case (s, Err(_)) => m.(fs := s)
    case (s, Ok((n, None))) => m.(fs := s, files := m.files + [File(n, 0, true, 0, false)])
    case (s, Ok((n, Some(h)))) => Adopted(m, s, n, h)
  }

  function ListAt(s: FsState, cfg: FsConfig, env: Env, path: seq<string>): FsState {
    match Resolve(s, cfg, env, path)
    case (s', Ok(Some(node))) => Children(s', cfg, env, node.id).0
    case (s', _) => s'
  }

  function StatAt(s: FsState, cfg: FsConfig, env: Env, path: seq<string>): FsState {
    match Resolve(s, cfg, env, path)
    case (s', Ok(Some(node))) => GetAttr(s', cfg, env, node.id).0
    case (s', _) => s'
  }

  function Moved(m: Mount, i: nat, offset: nat): Mount
    requires i < |m.files|
  {
    m.(files := m.files[i := m.files[i].(offset := offset)])
  }

  function Read(m: Mount, i: nat, n: nat): Mount
    requires i < |m.files|
  {
    var f := m.files[i];
    if f.isDir then m
    else match ReadHandle(m.fs, f.handle, f.offset, n)
         case Ok(b) => Moved(m, i, f.offset + |b|)
         case Err(_) => m
  }

  function Written(cfg: FsConfig, m: Mount, i: nat, data: Bytes): Mount
    requires i < |m.files|
  {
    var f := m.files[i];
    if f.isDir then m
    else match WriteHandle(m.fs, cfg, f.handle, f.offset, data)
         case (s, Ok(n)) => Moved(m.(fs := s), i, f.offset + n)
         case (s, Err(_)) => m.(fs := s)
  }

  /** Closing a file a second time does nothing, whatever became of the first. */
  function Closed(cfg: FsConfig, m: Mount, env: Env, i: nat): Mount
    requires i < |m.files|
  {
    var f := m.files[i];
    if f.closed || f.isDir then m
    else
      var (s, err) := CloseHandle(m.fs, cfg, env, f.handle);
      Mount(s, m.files[i := f.(closed := true)], if err.None? then m.held - {i} else m.held)
  }

  predicate OnFile(op: MountOp) { op.ReadFile? || op.WriteFile? || op.SeekFile? || op.TruncateFile? || op.CloseFile? }

  function NextOnFile(cfg: FsConfig, m: Mount, env: Env, op: MountOp): Mount
    requires OnFile(op) && op.i < |m.files|
  {
    match op
    case ReadFile(i, n) => Read(m, i, n)
    case WriteFile(i, data) => Written(cfg, m, i, data)
    case SeekFile(i, to) => Moved(m, i, to)
    case TruncateFile(i, size) => m.(fs := Truncate(m.fs, cfg, m.files[i].node.id, size).0)
    case CloseFile(i) => Closed(cfg, m, env, i)
  }

  function NextOnTree(cfg: FsConfig, m: Mount, env: Env, op: MountOp): Mount
    requires !OnFile(op)
  {
    match op
    case CreateFile(path) => Created(cfg, m, env, path)
    case OpenPath(path) => Opened(cfg, m, env, path)
    case RemovePath(path) => m.(fs := RemoveAt(m.fs, cfg, env, path).0)
    case ListPath(path) => m.(fs := ListAt(m.fs, cfg, env, path))
    case StatPath(path) => m.(fs := StatAt(m.fs, cfg, env, path))
    case StatNode(id) => m.(fs := GetAttr(m.fs, cfg, env, id).0)
    case Change(server) => m.(fs := m.fs.(client := m.fs.client.(server := server)))
  }

  function Next(cfg: FsConfig, m: Mount, e: Use): Mount {
    if !OnFile(e.op) then NextOnTree(cfg, m, e.env, e.op)
    else if e.op.i < |m.files| then NextOnFile(cfg, m, e.env, e.op)
    else m
  }

  function After(cfg: FsConfig, m: Mount, run: seq<Use>): Mount
    decreases |run|
  {
    if run == [] then m else After(cfg, Next(cfg, m, run[0]), run[1..])
  }

  // ---- Every run of the adapter is a run of the filesystem ----

  lemma {:induction false} RunAppend(cfg: FsConfig, s: FsState, a: seq<Event>, b: seq<Event>)
    ensures Run(cfg, s, a + b) == Run(cfg, Run(cfg, s, a), b)
    decreases |a|
  {
    if a == [] {
      assert a + b == b;
    } else {
      assert (a + b)[1..] == a[1..] + b;
      RunAppend(cfg, Step(cfg, s, a[0].env, a[0].op), a[1..], b);
    }
  }

  lemma RunOne(cfg: FsConfig, s: FsState, e: Event)
    ensures Run(cfg, s, [e]) == Step(cfg, s, e.env, e.op)
  {
    assert Run(cfg, s, [e]) == Run(cfg, Step(cfg, s, e.env, e.op), [e][1..]);
  }

  lemma Then(cfg: FsConfig, s: FsState, run: seq<Event>, env: Env, op: Op) returns (longer: seq<Event>)
    ensures Run(cfg, s, longer) == Step(cfg, Run(cfg, s, run), env, op)
  {
    longer := run + [Event(env, op)];
    RunSnoc(cfg, s, run, Event(env, op));
  }

  lemma {:induction false} DescendIsRun(cfg: FsConfig, s: FsState, env: Env, current: nat, parts: seq<string>)
    returns (run: seq<Event>)
    ensures Run(cfg, s, run) == Descend(s, cfg, env, current, parts).0
    decreases |parts|
  {
    run := [];
    if parts != [] {
      var e := Event(env, DoLookup(current, parts[0]));
      var (s', r) := Lookup(s, cfg, env, current, parts[0]);
      var rest := [];
      if r.Ok? {
        rest := DescendIsRun(cfg, s', env, r.value.id, parts[1..]);
      }
      run := [e] + rest;
      RunOne(cfg, s, e);
      RunAppend(cfg, s, [e], rest);
    }
  }

  lemma ResolveIsRun(cfg: FsConfig, s: FsState, env: Env, path: seq<string>) returns (run: seq<Event>)
    ensures Run(cfg, s, run) == Resolve(s, cfg, env, path).0
  {
    run := DescendIsRun(cfg, s, env, ROOT, path);
  }

  lemma OpenIsRun(cfg: FsConfig, s: FsState, env: Env, path: seq<string>) returns (run: seq<Event>)
    ensures Run(cfg, s, run) == OpenAt(s, cfg, env, path).0
  {
    run := ResolveIsRun(cfg, s, env, path);
    match Resolve(s, cfg, env, path)
    case (s', Ok(Some(node))) => if !node.IsDir() { run := Then(cfg, s, run, env, DoOpen(node.id)); }
    case _ =>
  }

  lemma CreateIsRun(cfg: FsConfig, s: FsState, env: Env, path: seq<string>) returns (run: seq<Event>)
    ensures Run(cfg, s, run) == CreateAt(s, cfg, env, path).0
  {
    run := ResolveIsRun(cfg, s, env, DirName(path));
    match Resolve(s, cfg, env, DirName(path))
    case (s', Ok(Some(dir))) => run := Then(cfg, s, run, env, DoCreate(dir.id, BaseName(path)));
    case _ =>
  }

  lemma RemoveIsRun(cfg: FsConfig, s: FsState, env: Env, path: seq<string>) returns (run: seq<Event>)
    ensures Run(cfg, s, run) == RemoveAt(s, cfg, env, path).0
  {
    run := ResolveIsRun(cfg, s, env, DirName(path));
    match Resolve(s, cfg, env, DirName(path))
    case (s1, Ok(Some(dir))) =>
      var again := ResolveIsRun(cfg, s1, env, path);
      RunAppend(cfg, s, run, again);
      run := run + again;
      match Resolve(s1, cfg, env, path) {
        case (s2, Ok(Some(node))) => run := Then(cfg, s, run, env, DoRemove(dir.id, BaseName(path), node.IsDir()));
        case _ =>
      }
    case _ =>
  }

  lemma ListIsRun(cfg: FsConfig, s: FsState, env: Env, path: seq<string>) returns (run: seq<Event>)
    ensures Run(cfg, s, run) == ListAt(s, cfg, env, path)
  {
    run := ResolveIsRun(cfg, s, env, path);
    match Resolve(s, cfg, env, path)
    case (s', Ok(Some(node))) => run := Then(cfg, s, run, env, DoChildren(node.id));
    case _ =>
  }

  lemma StatIsRun(cfg: FsConfig, s: FsState, env: Env, path: seq<string>) returns (run: seq<Event>)
    ensures Run(cfg, s, run) == StatAt(s, cfg, env, path)
  {
    run := ResolveIsRun(cfg, s, env, path);
    match Resolve(s, cfg, env, path)
    case (s', Ok(Some(node))) => run := Then(cfg, s, run, env, DoGetAttr(node.id));
    case _ =>
  }

  lemma CloseIsRun(cfg: FsConfig, s: FsState, env: Env, h: nat) returns (run: seq<Event>)
    ensures Run(cfg, s, run) == CloseHandle(s, cfg, env, h).0
  {
    run := Then(cfg, s, [], env, DoFlush(h));
    if FlushHandle(s, cfg, env, h).1.None? {
      run := Then(cfg, s, run, env, DoRelease(h));
    }
  }

  lemma FileOpIsRun(cfg: FsConfig, m: Mount, env: Env, op: MountOp) returns (run: seq<Event>)
    requires OnFile(op) && op.i < |m.files|
    ensures Run(cfg, m.fs, run) == NextOnFile(cfg, m, env, op).fs
  {
    run := [];
    match op
    case WriteFile(i, data) =>
      if !m.files[i].isDir {
        run := Then(cfg, m.fs, [], env, DoWrite(m.files[i].handle, m.files[i].offset, data));
      }
    case TruncateFile(i, size) => run := Then(cfg, m.fs, [], env, DoTruncate(m.files[i].node.id, size));
    case CloseFile(i) =>
      if !m.files[i].closed && !m.files[i].isDir {
        run := CloseIsRun(cfg, m.fs, env, m.files[i].handle);
      }
    case _ =>
  }

  lemma TreeOpIsRun(cfg: FsConfig, m: Mount, env: Env, op: MountOp) returns (run: seq<Event>)
    requires !OnFile(op)
    ensures Run(cfg, m.fs, run) == NextOnTree(cfg, m, env, op).fs
  {
    if op.CreateFile? || op.OpenPath? {
      run := OpeningIsRun(cfg, m, env, op);
    } else {
      match op
      case RemovePath(path) => run := RemoveIsRun(cfg, m.fs, env, path);
      case ListPath(path) => run := ListIsRun(cfg, m.fs, env, path);
      case StatPath(path) => run := StatIsRun(cfg, m.fs, env, path);
      case StatNode(id) => run := Then(cfg, m.fs, [], env, DoGetAttr(id));
      case Change(server) => run := Then(cfg, m.fs, [], env, ServerChange(server));
    }
  }

  lemma OpeningIsRun(cfg: FsConfig, m: Mount, env: Env, op: MountOp) returns (run: seq<Event>)
    requires op.CreateFile? || op.OpenPath?
    ensures Run(cfg, m.fs, run) == NextOnTree(cfg, m, env, op).fs
  {
    match op
    case CreateFile(path) => run := CreateIsRun(cfg, m.fs, env, path);
    case OpenPath(path) => run := OpenIsRun(cfg, m.fs, env, path);
  }

  lemma NextIsRun(cfg: FsConfig, m: Mount, e: Use) returns (run: seq<Event>)
    ensures Run(cfg, m.fs, run) == Next(cfg, m, e).fs
  {
    run := [];
    if !OnFile(e.op) {
      run := TreeOpIsRun(cfg, m, e.env, e.op);
    } else if e.op.i < |m.files| {
      run := FileOpIsRun(cfg, m, e.env, e.op);
    }
  }

  /** Whatever the adapter is used for, the filesystem behind it goes through a run of its own
      operations, and so keeps what every run keeps. */
  lemma {:induction false} MountIsRun(cfg: FsConfig, m: Mount, run: seq<Use>) returns (calls: seq<Event>)
    ensures Run(cfg, m.fs, calls) == After(cfg, m, run).fs
    decreases |run|
  {
    calls := [];
    if run != [] {
      var first := NextIsRun(cfg, m, run[0]);
      var rest := MountIsRun(cfg, Next(cfg, m, run[0]), run[1..]);
      RunAppend(cfg, m.fs, first, rest);
      calls := first + rest;
    }
  }

  // ---- The invariant ----

  /** An open handle is one that the adapter holds; it holds every file that nobody has closed,
      and a closed one only if it still has something to send. */
  ghost predicate FileOk(m: Mount, i: nat)
    requires i < |m.files|
  {
    var f := m.files[i];
    if f.isDir then i !in m.held
    else
      && f.handle < m.fs.nextHandle
      && (i in m.held <==> f.handle in m.fs.files)
      && (!f.closed ==> i in m.held)
      && (f.closed && i in m.held ==> Dirty(m.fs, f.handle))
  }

  ghost predicate MountOk(cfg: FsConfig, m: Mount) {
    && Inv(m.fs)
    && (forall h :: Dirty(m.fs, h) ==> cfg.verbs.update)
    && (forall i :: i in m.held ==> i < |m.files|)
    && (forall i: nat :: i < |m.files| ==> FileOk(m, i))
    && (forall i: nat, j: nat :: i < j < |m.files| && !m.files[i].isDir && !m.files[j].isDir ==>
          m.files[i].handle != m.files[j].handle)
  }

  lemma StartOk(cfg: FsConfig, server: Server, now: int)
    ensures MountOk(cfg, StartMount(server, now))
  {
    StartInv(server, now);
  }

  /** The same handles are open, and dirty ones stay dirty. */
  ghost predicate SameHandles(cfg: FsConfig, s: FsState, s': FsState) {
    && s'.nextHandle == s.nextHandle && s'.files.Keys == s.files.Keys
    && (forall h :: Dirty(s, h) ==> Dirty(s', h))
    && (forall h :: Dirty(s', h) ==> Dirty(s, h) || cfg.verbs.update)
  }

  lemma FsChanged(cfg: FsConfig, m: Mount, s: FsState)
    requires MountOk(cfg, m) && Inv(s) && SameHandles(cfg, m.fs, s)
    ensures MountOk(cfg, m.(fs := s))
  {
    forall i: nat | i < |m.files| ensures FileOk(m.(fs := s), i) {
      assert FileOk(m, i);
    }
  }

  lemma FileMoved(cfg: FsConfig, m: Mount, i: nat, offset: nat)
    requires MountOk(cfg, m) && i < |m.files|
    ensures MountOk(cfg, Moved(m, i, offset))
  {
    forall j: nat | j < |m.files| ensures FileOk(Moved(m, i, offset), j) {
      assert FileOk(m, j);
    }
  }

  lemma FileAdopted(cfg: FsConfig, m: Mount, s: FsState, node: Inode, h: nat)
    requires MountOk(cfg, m) && Inv(s) && h == m.fs.nextHandle && s.nextHandle == h + 1
    requires s.files.Keys == m.fs.files.Keys + {h}
    requires !s.files[h].dirty && forall k :: k in m.fs.files && k != h ==> s.files[k] == m.fs.files[k]
    ensures MountOk(cfg, Adopted(m, s, node, h))
  {
    var m' := Adopted(m, s, node, h);
    forall i: nat | i < |m'.files| ensures FileOk(m', i) {
      if i < |m.files| {
        assert FileOk(m, i);
      }
    }
    forall i: nat, j: nat | i < j < |m'.files| && !m'.files[i].isDir && !m'.files[j].isDir
      ensures m'.files[i].handle != m'.files[j].handle
    {
      assert FileOk(m, i);
    }
    forall k | Dirty(s, k) ensures cfg.verbs.update {
      assert Dirty(m.fs, k);
    }
  }

  /** Walking a path opens, closes and sends nothing. */
  lemma {:induction false} WalkKeeps(cfg: FsConfig, s: FsState, env: Env, current: nat, parts: seq<string>)
    requires Inv(s)
    ensures
      var s' := Descend(s, cfg, env, current, parts).0;
      && Inv(s') && s'.files == s.files && s'.nextHandle == s.nextHandle && s'.client.server == s.client.server
    decreases |parts|
  {
    if parts != [] {
      var (s', r) := Lookup(s, cfg, env, current, parts[0]);
      LookupKeepsInv(s, cfg, env, current, parts[0]);
      FilesUntouched(cfg, s, env, DoLookup(current, parts[0]));
      ReadsKeepServer(cfg, s, env, DoLookup(current, parts[0]));
      if r.Ok? {
        WalkKeeps(cfg, s', env, r.value.id, parts[1..]);
      }
    }
  }

  lemma ResolveKeeps(cfg: FsConfig, s: FsState, env: Env, path: seq<string>)
    requires Inv(s)
    ensures
      var s' := Resolve(s, cfg, env, path).0;
      && Inv(s') && s'.files == s.files && s'.nextHandle == s.nextHandle && s'.client.server == s.client.server
  {
    WalkKeeps(cfg, s, env, ROOT, path);
  }

  lemma CreatedOk(cfg: FsConfig, m: Mount, env: Env, path: seq<string>)
    requires MountOk(cfg, m)
    ensures MountOk(cfg, Created(cfg, m, env, path))
    ensures Created(cfg, m, env, path).fs.client.server == m.fs.client.server
  {
    ResolveKeeps(cfg, m.fs, env, DirName(path));
    var (s, r) := Resolve(m.fs, cfg, env, DirName(path));
    FsChanged(cfg, m, s);
    match r
    case Ok(Some(dir)) =>
      NodeCreated(cfg, m.(fs := s), env, dir.id, BaseName(path));
    case _ =>
  }

  lemma NodeCreated(cfg: FsConfig, m: Mount, env: Env, p: nat, name: string)
    requires MountOk(cfg, m)
    ensures
      var (s, made) := CreateAndOpen(m.fs, cfg, env, p, name);
      && s.client == m.fs.client
      && MountOk(cfg, if made.Ok? then Adopted(m, s, made.value.0, made.value.1) else m.(fs := s))
  {
    CreateKeepsInv(m.fs, cfg, env, p, name);
    var (s, made) := CreateAndOpen(m.fs, cfg, env, p, name);
    if made.Ok? {
      FileAdopted(cfg, m, s, made.value.0, made.value.1);
    }
  }

  lemma OpenedOk(cfg: FsConfig, m: Mount, env: Env, path: seq<string>)
    requires MountOk(cfg, m)
    ensures MountOk(cfg, Opened(cfg, m, env, path))
    ensures Opened(cfg, m, env, path).fs.client.server == m.fs.client.server
  {
    ResolveKeeps(cfg, m.fs, env, path);
    var (s, r) := Resolve(m.fs, cfg, env, path);
    FsChanged(cfg, m, s);
    match r
    case Ok(Some(node)) =>
      if node.IsDir() {
        DirAdopted(cfg, m.(fs := s), node);
      } else {
        NodeOpened(cfg, m.(fs := s), env, node);
      }
    case _ =>
  }

  lemma DirAdopted(cfg: FsConfig, m: Mount, node: Inode)
    requires MountOk(cfg, m)
    ensures MountOk(cfg, m.(files := m.files + [File(node, 0, true, 0, false)]))
  {
    var m' := m.(files := m.files + [File(node, 0, true, 0, false)]);
    forall i: nat | i < |m'.files| ensures FileOk(m', i) {
      assert i < |m.files| ==> FileOk(m, i);
    }
  }

  lemma NodeOpened(cfg: FsConfig, m: Mount, env: Env, node: Inode)
    requires MountOk(cfg, m)
    ensures
      var (s, h) := OpenFile(m.fs, cfg, env, node.id);
      && s.client.server == m.fs.client.server
      && MountOk(cfg, if h.Ok? then Adopted(m, s, node, h.value) else m.(fs := s))
  {
    var (s, h) := OpenFile(m.fs, cfg, env, node.id);
    OpenKeepsInv(m.fs, cfg, env, node.id);
    ReadsKeepServer(cfg, m.fs, env, DoOpen(node.id));
    if h.Ok? {
      FileAdopted(cfg, m, s, node, h.value);
    }
  }

  lemma RemovedOk(cfg: FsConfig, m: Mount, env: Env, path: seq<string>)
    requires MountOk(cfg, m)
    ensures MountOk(cfg, m.(fs := RemoveAt(m.fs, cfg, env, path).0))
    ensures cfg.verbs.delete || RemoveAt(m.fs, cfg, env, path).0.client.server == m.fs.client.server
  {
    ResolveKeeps(cfg, m.fs, env, DirName(path));
    var (s1, r1) := Resolve(m.fs, cfg, env, DirName(path));
    FsChanged(cfg, m, s1);
    match r1
    case Ok(Some(dir)) =>
      ResolveKeeps(cfg, s1, env, path);
      var (s2, r2) := Resolve(s1, cfg, env, path);
      FsChanged(cfg, m, s2);
      if r2.Ok? && r2.value.Some? {
        NodeRemoved(cfg, m.(fs := s2), env, dir.id, BaseName(path), r2.value.value.IsDir());
      }
    case _ =>
  }

  lemma NodeRemoved(cfg: FsConfig, m: Mount, env: Env, p: nat, name: string, isDir: bool)
    requires MountOk(cfg, m)
    ensures MountOk(cfg, m.(fs := Remove(m.fs, cfg, env, p, name, isDir).0))
    ensures cfg.verbs.delete || Remove(m.fs, cfg, env, p, name, isDir).0.client.server == m.fs.client.server
  {
    RemoveKeepsInv(m.fs, cfg, env, p, name, isDir);
    NoFileRemoved(cfg, m.fs, env, p, name, isDir);
    FsChanged(cfg, m, Remove(m.fs, cfg, env, p, name, isDir).0);
  }

  lemma NoFileRemoved(cfg: FsConfig, s: FsState, env: Env, p: nat, name: string, isDir: bool)
    ensures
      var s' := Remove(s, cfg, env, p, name, isDir).0;
      && s'.files == s.files && s'.nextHandle == s.nextHandle
      && (cfg.verbs.delete || s'.client.server == s.client.server)
  {
  }

  lemma ListedOk(cfg: FsConfig, m: Mount, env: Env, path: seq<string>)
    requires MountOk(cfg, m)
    ensures MountOk(cfg, m.(fs := ListAt(m.fs, cfg, env, path)))
    ensures ListAt(m.fs, cfg, env, path).client.server == m.fs.client.server
  {
    ResolveKeeps(cfg, m.fs, env, path);
    var (s, r) := Resolve(m.fs, cfg, env, path);
    FsChanged(cfg, m, s);
    if r.Ok? && r.value.Some? {
      DirListed(cfg, m.(fs := s), env, r.value.value.id);
    }
  }

  lemma DirListed(cfg: FsConfig, m: Mount, env: Env, id: nat)
    requires MountOk(cfg, m)
    ensures MountOk(cfg, m.(fs := Children(m.fs, cfg, env, id).0))
    ensures Children(m.fs, cfg, env, id).0.client.server == m.fs.client.server
  {
    LookupKeepsInv(m.fs, cfg, env, id, "");
    NoFileListed(cfg, m.fs, env, id);
    FsChanged(cfg, m, Children(m.fs, cfg, env, id).0);
  }

  lemma NoFileListed(cfg: FsConfig, s: FsState, env: Env, id: nat)
    ensures
      var s' := Children(s, cfg, env, id).0;
      s'.files == s.files && s'.nextHandle == s.nextHandle && s'.client.server == s.client.server
  {
    FilesUntouched(cfg, s, env, DoChildren(id));
    ReadsKeepServer(cfg, s, env, DoChildren(id));
  }

  lemma StattedOk(cfg: FsConfig, m: Mount, env: Env, path: seq<string>)
    requires MountOk(cfg, m)
    ensures MountOk(cfg, m.(fs := StatAt(m.fs, cfg, env, path)))
    ensures StatAt(m.fs, cfg, env, path).client.server == m.fs.client.server
  {
    ResolveKeeps(cfg, m.fs, env, path);
    var (s, r) := Resolve(m.fs, cfg, env, path);
    FsChanged(cfg, m, s);
    if r.Ok? && r.value.Some? {
      NodeStatted(cfg, m.(fs := s), env, r.value.value.id);
    }
  }

  lemma NodeStatted(cfg: FsConfig, m: Mount, env: Env, id: nat)
    requires MountOk(cfg, m)
    ensures MountOk(cfg, m.(fs := GetAttr(m.fs, cfg, env, id).0))
    ensures GetAttr(m.fs, cfg, env, id).0.client.server == m.fs.client.server
  {
    GetAttrKeepsInv(m.fs, cfg, env, id);
    FilesUntouched(cfg, m.fs, env, DoGetAttr(id));
    ReadsKeepServer(cfg, m.fs, env, DoGetAttr(id));
    FsChanged(cfg, m, GetAttr(m.fs, cfg, env, id).0);
  }

  lemma WrittenOk(cfg: FsConfig, m: Mount, i: nat, data: Bytes)
    requires MountOk(cfg, m) && i < |m.files|
    ensures MountOk(cfg, Written(cfg, m, i, data)) && Written(cfg, m, i, data).fs.client.server == m.fs.client.server
  {
    var f := m.files[i];
    if !f.isDir {
      var (s, r) := WriteHandle(m.fs, cfg, f.handle, f.offset, data);
      BufferWritten(cfg, m, f.handle, f.offset, data);
      if r.Ok? {
        FileMoved(cfg, m.(fs := s), i, f.offset + r.value);
      }
    }
  }

  lemma BufferWritten(cfg: FsConfig, m: Mount, h: nat, offset: nat, data: Bytes)
    requires MountOk(cfg, m)
    ensures
      var s := WriteHandle(m.fs, cfg, h, offset, data).0;
      MountOk(cfg, m.(fs := s)) && s.client == m.fs.client
  {
    WriteKeepsInv(m.fs, cfg, h, offset, data);
    WriteAcceptedIff(cfg, m.fs, h, offset, data);
    FsChanged(cfg, m, WriteHandle(m.fs, cfg, h, offset, data).0);
  }

  lemma TruncatedOk(cfg: FsConfig, m: Mount, id: nat, size: nat)
    requires MountOk(cfg, m)
    ensures MountOk(cfg, m.(fs := Truncate(m.fs, cfg, id, size).0))
    ensures Truncate(m.fs, cfg, id, size).0.client.server == m.fs.client.server
  {
    TruncateKeepsInv(m.fs, cfg, id, size);
    FsChanged(cfg, m, Truncate(m.fs, cfg, id, size).0);
  }

  lemma ClosedOk(cfg: FsConfig, m: Mount, env: Env, i: nat)
    requires MountOk(cfg, m) && i < |m.files|
    ensures MountOk(cfg, Closed(cfg, m, env, i))
  {
    var f := m.files[i];
    if !f.closed && !f.isDir {
      assert FileOk(m, i);
      FlushKeepsInv(m.fs, cfg, env, f.handle);
      var (s, err) := FlushHandle(m.fs, cfg, env, f.handle);
      FlushedFiles(cfg, m.fs, env, f.handle);
      if err.None? {
        ReleaseKeepsInv(s, f.handle);
        CloseDone(cfg, m, i, ReleaseHandle(s, f.handle));
      } else {
        CloseFailed(cfg, m, i, s);
      }
    }
  }

  lemma CloseDone(cfg: FsConfig, m: Mount, i: nat, s: FsState)
    requires MountOk(cfg, m) && i < |m.files| && !m.files[i].isDir && Inv(s)
    requires s.nextHandle == m.fs.nextHandle && s.files.Keys == m.fs.files.Keys - {m.files[i].handle}
    requires forall k :: k in s.files ==> s.files[k] == m.fs.files[k]
    ensures MountOk(cfg, Mount(s, m.files[i := m.files[i].(closed := true)], m.held - {i}))
  {
    var m' := Mount(s, m.files[i := m.files[i].(closed := true)], m.held - {i});
    forall j: nat | j < |m'.files| ensures FileOk(m', j) {
      assert FileOk(m, j);
      if j != i && !m.files[j].isDir {
        assert m.files[j].handle != m.files[i].handle;
      }
    }
    forall k | Dirty(s, k) ensures cfg.verbs.update {
      assert Dirty(m.fs, k);
    }
  }

  lemma CloseFailed(cfg: FsConfig, m: Mount, i: nat, s: FsState)
    requires MountOk(cfg, m) && i < |m.files| && !m.files[i].isDir && Inv(s) && Dirty(s, m.files[i].handle)
    requires s.nextHandle == m.fs.nextHandle && s.files == m.fs.files
    ensures MountOk(cfg, m.(fs := s, files := m.files[i := m.files[i].(closed := true)]))
  {
    var m' := m.(fs := s, files := m.files[i := m.files[i].(closed := true)]);
    forall j: nat | j < |m'.files| ensures FileOk(m', j) {
      assert FileOk(m, j);
    }
    forall k | Dirty(s, k) ensures cfg.verbs.update {
      assert Dirty(m.fs, k);
    }
  }

  /** An operation on the tree changes the server only if it removes something. */
  lemma TreeOpOk(cfg: FsConfig, m: Mount, env: Env, op: MountOp)
    requires MountOk(cfg, m) && !OnFile(op)
    ensures MountOk(cfg, NextOnTree(cfg, m, env, op))
    ensures NextOnTree(cfg, m, env, op).fs.client.server == m.fs.client.server
            || op.Change? || (op.RemovePath? && cfg.verbs.delete)
  {
    match op
    case CreateFile(path) => CreatedOk(cfg, m, env, path);
    case OpenPath(path) => OpenedOk(cfg, m, env, path);
    case RemovePath(path) => RemovedOk(cfg, m, env, path);
    case ListPath(path) => ListedOk(cfg, m, env, path);
    case StatPath(path) => StattedOk(cfg, m, env, path);
    case StatNode(id) => NodeStatted(cfg, m, env, id);
    case Change(server) => FsChanged(cfg, m, NextOnTree(cfg, m, env, op).fs);
  }

  /** An operation on a file only if it closes it. */
  lemma FileOpOk(cfg: FsConfig, m: Mount, env: Env, op: MountOp)
    requires MountOk(cfg, m) && OnFile(op) && op.i < |m.files|
    ensures MountOk(cfg, NextOnFile(cfg, m, env, op))
    ensures NextOnFile(cfg, m, env, op).fs.client.server == m.fs.client.server || op.CloseFile?
  {
    match op
    case WriteFile(i, data) => WrittenOk(cfg, m, i, data);
    case TruncateFile(i, size) => TruncatedOk(cfg, m, m.files[i].node.id, size);
    case CloseFile(i) => ClosedOk(cfg, m, env, i);
    case SeekFile(i, to) => FileMoved(cfg, m, i, to);
    case ReadFile(i, n) => ReadOk(cfg, m, i, n);
  }

  lemma ReadOk(cfg: FsConfig, m: Mount, i: nat, n: nat)
    requires MountOk(cfg, m) && i < |m.files|
    ensures MountOk(cfg, Read(m, i, n)) && Read(m, i, n).fs == m.fs
  {
    var f := m.files[i];
    if !f.isDir && ReadHandle(m.fs, f.handle, f.offset, n).Ok? {
      FileMoved(cfg, m, i, f.offset + |ReadHandle(m.fs, f.handle, f.offset, n).value|);
    }
  }

  /** Every operation keeps the two sides in step. */
  lemma NextOk(cfg: FsConfig, m: Mount, e: Use)
    requires MountOk(cfg, m)
    ensures MountOk(cfg, Next(cfg, m, e))
  {
    if !OnFile(e.op) {
      TreeOpOk(cfg, m, e.env, e.op);
    } else if e.op.i < |m.files| {
      FileOpOk(cfg, m, e.env, e.op);
    }
  }

  lemma {:induction false} AfterOk(cfg: FsConfig, m: Mount, run: seq<Use>)
    requires MountOk(cfg, m)
    ensures MountOk(cfg, After(cfg, m, run))
    decreases |run|
  {
    if run != [] {
      NextOk(cfg, m, run[0]);
      AfterOk(cfg, Next(cfg, m, run[0]), run[1..]);
    }
  }
}
