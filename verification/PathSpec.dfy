/** Path walking over a tree that is brought in line with the server at every step. Paths
    are cleaned sequences of components. */
module PathSpec {
  import opened Prelude
  import opened Api
  import opened TableSpec
  import opened FsSpec

  function Descend(s: FsState, cfg: FsConfig, env: Env, current: nat, parts: seq<string>): (FsState, Result<nat, Errno>)
    decreases |parts|
  {
    if parts == [] then (s, Ok(current))
    else
      var (s', r) := Lookup(s, cfg, env, current, parts[0]);
      match r
      case Err(e) => (s', Err(e))
      case Ok(node) => Descend(s', cfg, env, node.id, parts[1..])
  }

  /** The node a path leads to; None stands for a nil node without an error. */
  function Resolve(s: FsState, cfg: FsConfig, env: Env, path: seq<string>): (FsState, Result<Option<Inode>, Errno>) {
    var (s', r) := Descend(s, cfg, env, ROOT, path);
    match r
    case Err(e) => (s', Err(e))
    case Ok(id) => (s', Ok(Node(s', id)))
  }

  function BaseName(path: seq<string>): string {
    if path == [] then "." else path[|path| - 1]
  }

  function DirName(path: seq<string>): seq<string> {
    if path == [] then [] else path[..|path| - 1]
  }

  // The operations on paths. None for a node does not happen in a sequential run, see DescendLive.

  function CreateAt(s: FsState, cfg: FsConfig, env: Env, path: seq<string>): (FsState, Result<(Inode, nat), Errno>) {
    match Resolve(s, cfg, env, DirName(path))
    case (s', Err(e)) => (s', Err(e))
    case (s', Ok(None)) => (s', Err(ENOENT))
    case (s', Ok(Some(dir))) => CreateAndOpen(s', cfg, env, dir.id, BaseName(path))
  }

  /** A directory is opened without a handle. */
  function OpenAt(s: FsState, cfg: FsConfig, env: Env, path: seq<string>)
    : (FsState, Result<(Inode, Option<nat>), Errno>)
  {
    match Resolve(s, cfg, env, path)
    case (s', Err(e)) => (s', Err(e))
    case (s', Ok(None)) => (s', Err(ENOENT))
    case (s', Ok(Some(node))) =>
      if node.IsDir() then (s', Ok((node, None)))
      else
        var (s'', r) := OpenFile(s', cfg, env, node.id);
        (s'', match r case Err(e) => Err(e) case Ok(h) => Ok((node, Some(h))))
  }

  function RemoveAt(s: FsState, cfg: FsConfig, env: Env, path: seq<string>): (FsState, Option<Errno>) {
    match Resolve(s, cfg, env, DirName(path))
    case (s1, Err(e)) => (s1, Some(e))
    case (s1, Ok(None)) => (s1, Some(ENOENT))
    case (s1, Ok(Some(dir))) =>
      match Resolve(s1, cfg, env, path)
      case (s2, Err(e)) => (s2, Some(e))
      case (s2, Ok(None)) => (s2, Some(ENOENT))
      case (s2, Ok(Some(node))) => Remove(s2, cfg, env, dir.id, BaseName(path), node.IsDir())
  }

  /** Closing flushes, and lets go of the handle unless the flush failed. */
  function CloseHandle(s: FsState, cfg: FsConfig, env: Env, h: nat): (FsState, Option<Errno>) {
    var (s', err) := FlushHandle(s, cfg, env, h);
    if err.Some? then (s', err) else (ReleaseHandle(s', h), None)
  }

  /** Walking one more component is one more Lookup. */
  lemma {:induction false} DescendSnoc(s: FsState, cfg: FsConfig, env: Env, current: nat, parts: seq<string>,
      name: string)
    ensures Descend(s, cfg, env, current, parts + [name]) ==
      var (s1, r) := Descend(s, cfg, env, current, parts);
      match r
      case Err(e) => (s1, Err(e))
      case Ok(id) =>
        var (s2, r2) := Lookup(s1, cfg, env, id, name);
        (s2, match r2 case Err(e) => Err(e) case Ok(node) => Ok(node.id))
    decreases |parts|
  {
    if parts == [] {
      assert (parts + [name])[1..] == [];
    } else {
      assert (parts + [name])[1..] == parts[1..] + [name];
      var (s', r) := Lookup(s, cfg, env, current, parts[0]);
      if r.Ok? {
        DescendSnoc(s', cfg, env, r.value.id, parts[1..], name);
      }
    }
  }
}
