/** What every filesystem operation does, on plain values. */
module FsSpec {
  import opened Prelude
  import opened Api
  import opened Keys
  import opened ClientSpec
  import opened TableSpec
  import opened Order

  /** 30 seconds, in nanoseconds. */
  const CONTENT_TTL: int := 30_000_000_000

  datatype Verbs = Verbs(create: bool, update: bool, delete: bool) {
    predicate ReadOnly() { !create && !update && !delete }
  }

  datatype FsConfig = FsConfig(client: Config, verbs: Verbs)

  datatype Handle = Handle(node: Inode, buf: Bytes, dirty: bool, pending: bool)

  datatype Cached = Cached(data: Bytes, fetchedAt: int)

  datatype FsState = FsState(
    client: ClientSpec.State,
    table: Table,
    nextHandle: nat,
    files: map<nat, Handle>,
    content: map<nat, Cached>)

  datatype Attr = Attr(size: nat, nlink: nat, perm: nat, mtime: int)

  // ---- Content of a node ----

  /** The provider asks about the node's resource without naming its kind. */
  function InfoFor(node: Inode): ResourceInfo {
    ResourceInfo(node.group, node.version, node.res, "")
  }

  function NodeQuery(node: Inode): Result<Query, Error> {
    match node.kind
    case NodeDataFile => Ok(Query(Data(node.ns, node.res, node.obj), InfoFor(node)))
    case NodeFile =>
      if node.file == "yaml" then Ok(Query(Yaml(node.ns, node.res, node.obj), InfoFor(node)))
      else if node.file == "json" then Ok(Query(Json(node.ns, node.res, node.obj), InfoFor(node)))
      else if node.file == "describe" then Ok(Query(Describe(node.ns, node.res, node.obj), InfoFor(node)))
      else if node.file == "logs" then Ok(Query(Logs(node.ns, node.obj), NoInfo()))
      else Err(UnknownFile)
    case _ => Err(NotAFile)
  }

  /** The node's part of an answer: one key of a data map, or the whole rendering. */
  function PartFor(node: Inode, a: Result<CacheValue, Error>): Result<Bytes, Error> {
    if node.kind != NodeDataFile then AsBytes(a)
    else
      match AsData(a)
      case Err(e) => Err(e)
      case Ok(m) => if node.file in m then Ok(m[node.file]) else Err(KeyMissing)
  }

  function GetContent(c: ClientSpec.State, cfg: Config, env: Env, node: Inode)
    : (ClientSpec.State, Result<Bytes, Error>)
  {
    match NodeQuery(node)
    case Err(e) => (c, Err(e))
    case Ok(q) =>
      var (c', a) := Ask(c, cfg, env, q);
      (c', PartFor(node, a))
  }

  function CreateContent(c: ClientSpec.State, cfg: Config, env: Env, node: Inode, data: Bytes)
    : (ClientSpec.State, Option<Error>)
  {
    CreateObject(c, cfg, env, node.ns, InfoFor(node), data)
  }

  function ApplyContent(c: ClientSpec.State, cfg: Config, env: Env, node: Inode, data: Bytes)
    : (ClientSpec.State, Option<Error>)
  {
    match node.kind
    case NodeDataFile => UpdateObjectDataKey(c, env, node.ns, InfoFor(node), node.obj, node.file, data)
    case NodeFile =>
      if node.file == "yaml" || node.file == "json" then ApplyObject(c, cfg, env, node.ns, InfoFor(node), data)
      else (c, Some(ReadOnlyFile))
    case _ => (c, Some(NotAFile))
  }

  predicate Fresh(s: FsState, id: nat, now: int) {
    id in s.content && now - s.content[id].fetchedAt < CONTENT_TTL
  }

  /** Content no older than the TTL, or else a fetch, whose outcome (an error's text
      included) is remembered. */
  function FetchContent(s: FsState, cfg: FsConfig, env: Env, node: Inode): (FsState, Bytes) {
    if Fresh(s, node.id, env.now) then (s, s.content[node.id].data)
    else
      var (c, r) := GetContent(s.client, cfg.client, env, node);
      var data := match r case Ok(b) => b case Err(e) => cfg.client.lib.errorText(e);
      (s.(client := c, content := s.content[node.id := Cached(data, env.now)]), data)
  }

  // ---- Listings ----

  function NamespaceProto(name: string, now: int): Inode {
    Inode(0, name, NodeNamespace, 0, name, "", "", "", "", "", now)
  }

  function ResourceTypeProto(dir: Inode, name: string, ri: ResourceInfo, now: int): Inode {
    Inode(0, name, NodeResourceType, 0, dir.ns, name, "", "", ri.group, ri.version, now)
  }

  function ObjectProto(dir: Inode, o: ObjectInfo): Inode {
    Inode(0, o.name, NodeObject, 0, dir.ns, dir.res, o.name, "", dir.group, dir.version, o.created)
  }

  function ActionProto(dir: Inode, action: string): Inode {
    Inode(0, action, NodeFile, 0, dir.ns, dir.res, dir.obj, action, dir.group, dir.version, dir.created)
  }

  function DataDirProto(dir: Inode): Inode {
    Inode(0, "data", NodeDataDir, 0, dir.ns, dir.res, dir.obj, "", dir.group, dir.version, dir.created)
  }

  function KeyProto(dir: Inode, key: string): Inode {
    Inode(0, key, NodeDataFile, 0, dir.ns, dir.res, dir.obj, key, dir.group, dir.version, dir.created)
  }

  function PendingProto(dir: Inode, name: string, now: int): Inode {
    Inode(0, name, NodeFile, 0, dir.ns, dir.res, "", name, dir.group, dir.version, now)
  }

  function ActionFiles(res: string): seq<string> {
    ["yaml", "json", "describe"] + if res == "pods" then ["logs"] else []
  }

  predicate HasDataDir(res: string) { res == "configmaps" || res == "secrets" }

  function Each<T>(s: seq<T>, f: T -> Inode): seq<Inode> {
    seq(|s|, i requires 0 <= i < |s| => f(s[i]))
  }

  function ActionProtos(dir: Inode): seq<Inode> {
    Each(ActionFiles(dir.res), (a: string) => ActionProto(dir, a))
    + if HasDataDir(dir.res) then [DataDirProto(dir)] else []
  }

  function DirQuery(dir: Inode): Option<Query> {
    match dir.kind
    case NodeRoot => Some(Query(Namespaces, NoInfo()))
    case NodeNamespace => Some(Query(Resources, NoInfo()))
    case NodeResourceType => Some(Query(Listing(dir.ns, dir.res), InfoFor(dir)))
    case NodeDataDir => Some(Query(Data(dir.ns, dir.res, dir.obj), InfoFor(dir)))
    case _ => None
  }

  // The nodes an answer puts under a directory, in the order they are added.

  function NamespaceProtos(names: seq<string>, now: int): seq<Inode> {
    Each(names, (n: string) => NamespaceProto(n, now))
  }

  function ResourceTypeProtos(dir: Inode, env: Env, m: map<string, ResourceInfo>): seq<Inode> {
    Each(env.order(m.Keys), (n: string) =>
      ResourceTypeProto(dir, n, if n in m then m[n] else NoInfo(), env.now))
  }

  function ObjectProtos(dir: Inode, objects: seq<ObjectInfo>): seq<Inode> {
    Each(objects, (o: ObjectInfo) => ObjectProto(dir, o))
  }

  function KeyProtos(dir: Inode, env: Env, m: map<string, Bytes>): seq<Inode> {
    Each(env.order(m.Keys), (k: string) => KeyProto(dir, k))
  }

  function AnswerProtos(dir: Inode, env: Env, v: CacheValue): seq<Inode> {
    match v
    case NameList(names) => NamespaceProtos(names, env.now)
    case ResourceMap(m) => ResourceTypeProtos(dir, env, m)
    case ObjectList(objects) => ObjectProtos(dir, objects)
    case DataMap(m) => KeyProtos(dir, env, m)
    case Blob(_) => []
  }

  /** The listing of a directory, as the nodes it should have. */
  function ListDir(c: ClientSpec.State, cfg: Config, env: Env, dir: Inode)
    : (ClientSpec.State, Result<seq<Inode>, Error>)
  {
    match DirQuery(dir)
    case None => (c, Ok(if dir.kind == NodeObject then ActionProtos(dir) else []))
    case Some(q) =>
      var (c', a) := Ask(c, cfg, env, q);
      (c', match a case Err(e) => Err(e) case Ok(v) => Ok(AnswerProtos(dir, env, v)))
  }

  /** A listing of a directory of each kind, by the typed answer that its reader gets. */
  lemma ListDirTyped(c: ClientSpec.State, cfg: Config, env: Env, dir: Inode)
    requires Typed(c.cache) && DirQuery(dir).Some?
    ensures
      var (c', a) := Ask(c, cfg, env, DirQuery(dir).value);
      && ListDir(c, cfg, env, dir).0 == c'
      && (a.Err? ==> ListDir(c, cfg, env, dir).1.Err?)
      && (a.Ok? ==> ListDir(c, cfg, env, dir).1 == Ok(
            match dir.kind
            case NodeRoot => NamespaceProtos(AsNames(a).value, env.now)
            case NodeNamespace => ResourceTypeProtos(dir, env, AsResources(a).value)
            case NodeResourceType => ObjectProtos(dir, AsObjects(a).value)
            case _ => KeyProtos(dir, env, AsData(a).value)))
  {
    AskTyped(c, cfg, env, DirQuery(dir).value);
  }

  function NamesOf(protos: seq<Inode>): set<string> {
    if protos == [] then {} else NamesOf(protos[..|protos| - 1]) + {protos[|protos| - 1].name}
  }

  function AddAll(t: Table, p: nat, protos: seq<Inode>): Table {
    if protos == [] then t
    else AddChild(AddAll(t, p, protos[..|protos| - 1]), p, protos[|protos| - 1]).0
  }

  function Reconcile(t: Table, p: nat, protos: seq<Inode>): Table {
    RemoveChildren(AddAll(t, p, protos), p, NamesOf(protos))
  }

  /** Brings a directory's children in line with its listing. */
  function Refresh(c: ClientSpec.State, t: Table, cfg: Config, env: Env, node: Inode)
    : (ClientSpec.State, Table, Option<Errno>)
  {
    if !node.IsDir() then (c, t, None)
    else
      var (c', r) := ListDir(c, cfg, env, node);
      match r
      case Err(_) => (c', t, Some(EIO))
      case Ok(protos) => (c', Reconcile(t, node.id, protos), None)
  }

  function EnsureChildren(s: FsState, cfg: FsConfig, env: Env, node: Inode): (FsState, Option<Errno>) {
    var (c, t, err) := Refresh(s.client, s.table, cfg.client, env, node);
    (s.(client := c, table := t), err)
  }

  // ---- Operations ----

  function Node(s: FsState, id: nat): Option<Inode> {
    if id in s.table.inodes then Some(s.table.inodes[id]) else None
  }

  function Lookup(s: FsState, cfg: FsConfig, env: Env, p: nat, name: string): (FsState, Result<Inode, Errno>) {
    match Node(s, p)
    case None => (s, Err(ENOENT))
    case Some(dir) =>
      var (s', err) := EnsureChildren(s, cfg, env, dir);
      match err
      case Some(e) => (s', Err(e))
      case None =>
        match LookupChild(s'.table, p, name)
        case None => (s', Err(ENOENT))
        case Some(child) => (s', Ok(child))
  }

  /** The state after a directory has been listed. */
  function Children(s: FsState, cfg: FsConfig, env: Env, id: nat): (FsState, Option<Errno>) {
    match Node(s, id)
    case None => (s, Some(ENOENT))
    case Some(dir) => EnsureChildren(s, cfg, env, dir)
  }

  /** Permission bits: r-xr-xr-x, rw-r--r-- or r--r--r--. */
  function Perm(node: Inode, update: bool): nat {
    if node.IsDir() then 365
    else if update && (node.kind == NodeDataFile || node.file == "yaml" || node.file == "json") then 420
    else 292
  }

  function GetAttr(s: FsState, cfg: FsConfig, env: Env, id: nat): (FsState, Result<Attr, Errno>) {
    match Node(s, id)
    case None => (s, Err(ENOENT))
    case Some(node) =>
      if node.IsDir() then (s, Ok(Attr(0, 2, Perm(node, cfg.verbs.update), node.created)))
      else
        var (s', data) := FetchContent(s, cfg, env, node);
        (s', Ok(Attr(|data|, 1, Perm(node, cfg.verbs.update), node.created)))
  }

  function Cut(buf: Bytes, size: nat): Bytes {
    if size < |buf| then buf[..size] else buf
  }

  function CutBuffers(files: map<nat, Handle>, id: nat, size: nat): map<nat, Handle> {
    map h | h in files :: if files[h].node.id == id then files[h].(buf := Cut(files[h].buf, size)) else files[h]
  }

  /** Shortens the buffers open on a node; it never grows one and marks none as dirty. */
  function Truncate(s: FsState, cfg: FsConfig, id: nat, size: nat): (FsState, Option<Errno>) {
    if cfg.verbs.ReadOnly() then (s, Some(EROFS))
    else
      match Node(s, id)
      case None => (s, Some(ENOENT))
      case Some(_) =>
        (s.(files := CutBuffers(s.files, id, size)), None)
  }

  /** Deletes the object a directory stands for. */
  function DeleteBehind(c: ClientSpec.State, cfg: FsConfig, env: Env, child: Inode): (ClientSpec.State, Option<Errno>) {
    if !cfg.verbs.delete || child.kind != NodeObject then (c, Some(EPERM))
    else
      var (c', err) := DeleteObject(c, env, child.ns, InfoFor(child), child.obj);
      (c', if err.Some? then Some(EIO) else None)
  }

  function Remove(s: FsState, cfg: FsConfig, env: Env, p: nat, name: string, isDir: bool): (FsState, Option<Errno>) {
    match LookupChild(s.table, p, name)
    case None => (s, Some(ENOENT))
    case Some(child) =>
      if isDir then
        var (c, err) := DeleteBehind(s.client, cfg, env, child);
        if err.Some? then (s.(client := c), err)
        else (s.(client := c, table := RemoveChild(s.table, p, name).0), None)
      else if p in s.table.inodes && s.table.inodes[p].kind == NodeResourceType then
        (s.(table := RemoveChild(s.table, p, name).0), None)
      else (s, Some(EPERM))
  }

  function NameOf(n: Inode): string { n.name }

  /** list holds each child of p once, in strictly ascending order of names. */
  ghost predicate IsListing(t: Table, p: nat, list: seq<Inode>) {
    && Ascending(list, NameOf)
    && (forall i :: 0 <= i < |list| ==> LookupChild(t, p, list[i].name) == Some(list[i]))
    && (forall n :: n in ChildNames(t, p) <==> exists i :: 0 <= i < |list| && list[i].name == n)
  }

  /** Sorting the children of a directory by name gives its listing. */
  lemma SortedListing(t: Table, p: nat, list: seq<Inode>)
    requires forall i :: 0 <= i < |list| ==> LookupChild(t, p, list[i].name) == Some(list[i])
    requires forall n :: n in ChildNames(t, p) <==> exists i :: 0 <= i < |list| && list[i].name == n
    requires forall i, j :: 0 <= i < j < |list| ==> list[i].name != list[j].name
    ensures IsListing(t, p, SortBy(list, NameOf))
  {
    var sorted := SortBy(list, NameOf);
    SortByCorrect(list, NameOf);
    assert DistinctKeys(list, NameOf);
    forall i | 0 <= i < |sorted| ensures LookupChild(t, p, sorted[i].name) == Some(sorted[i]) {
      SortKeeps(list, sorted[i]);
    }
    forall n ensures n in ChildNames(t, p) <==> exists i :: 0 <= i < |sorted| && sorted[i].name == n {
      SortKeepsName(list, n);
    }
  }

  lemma SortKeeps(list: seq<Inode>, x: Inode)
    ensures x in SortBy(list, NameOf) <==> x in list
  {
    SortByCorrect(list, NameOf);
    assert x in SortBy(list, NameOf) <==> x in multiset(list);
  }

  lemma SortKeepsName(list: seq<Inode>, n: string)
    ensures
      var sorted := SortBy(list, NameOf);
      (exists i :: 0 <= i < |sorted| && sorted[i].name == n) <==> (exists i :: 0 <= i < |list| && list[i].name == n)
  {
    var sorted := SortBy(list, NameOf);
    if i :| 0 <= i < |list| && list[i].name == n {
      SortKeeps(list, list[i]);
    }
    if i :| 0 <= i < |sorted| && sorted[i].name == n {
      SortKeeps(list, sorted[i]);
    }
  }

  predicate CreatableName(name: string) {
    HasSuffix(name, ".yaml") || HasSuffix(name, ".json")
  }

  function CheckCreate(t: Table, cfg: FsConfig, p: nat, name: string): Result<Inode, Errno> {
    if !cfg.verbs.create then Err(EROFS)
    else if p !in t.inodes then Err(ENOENT)
    else if t.inodes[p].kind != NodeResourceType || !CreatableName(name) then Err(EPERM)
    else Ok(t.inodes[p])
  }

  function CreateAndOpen(s: FsState, cfg: FsConfig, env: Env, p: nat, name: string)
    : (FsState, Result<(Inode, nat), Errno>)
  {
    match CheckCreate(s.table, cfg, p, name)
    case Err(e) => (s, Err(e))
    case Ok(dir) =>
      var (t, child) := AddChild(s.table, p, PendingProto(dir, name, env.now));
      var h := s.nextHandle;
      (s.(table := t, nextHandle := h + 1, files := s.files[h := Handle(child, [], false, true)]), Ok((child, h)))
  }

  function OpenFile(s: FsState, cfg: FsConfig, env: Env, id: nat): (FsState, Result<nat, Errno>) {
    match Node(s, id)
    case None => (s, Err(ENOENT))
    case Some(node) =>
      var h := s.nextHandle;
      var (s', data) := FetchContent(s.(nextHandle := h + 1), cfg, env, node);
      (s'.(files := s'.files[h := Handle(node, data, false, false)]), Ok(h))
  }

  function ReadHandle(s: FsState, h: nat, offset: nat, n: nat): Result<Bytes, Errno> {
    if h !in s.files then Err(EIO)
    else
      var buf := s.files[h].buf;
      if offset >= |buf| then Ok([]) else Ok(buf[offset..Min(offset + n, |buf|)])
  }

  /** Only data files and the files called exactly yaml or json take writes. */
  predicate Writable(node: Inode) {
    node.kind == NodeDataFile || (node.kind == NodeFile && (node.file == "yaml" || node.file == "json"))
  }

  /** The buffer after data is copied in at offset, grown with zeros to reach that far. */
  function Overlay(buf: Bytes, offset: nat, data: Bytes): (r: Bytes)
    ensures |r| == Max(|buf|, offset + |data|)
  {
    var end := offset + |data|;
    var grown := if end > |buf| then buf + Zeros(end - |buf|) else buf;
    grown[..offset] + data + grown[end..]
  }

  function WriteHandle(s: FsState, cfg: FsConfig, h: nat, offset: nat, data: Bytes): (FsState, Result<nat, Errno>) {
    if h !in s.files then (s, Err(EIO))
    else
      var f := s.files[h];
      if !(if f.pending then cfg.verbs.create else cfg.verbs.update) then (s, Err(EROFS))
      else if !Writable(f.node) then (s, Err(EPERM))
      else (s.(files := s.files[h := f.(buf := Overlay(f.buf, offset, data), dirty := true)]), Ok(|data|))
  }

  /** Sends a buffer to the server, as a new object or as a change to an existing one. */
  function Send(c: ClientSpec.State, cfg: FsConfig, env: Env, f: Handle): (ClientSpec.State, Option<Errno>) {
    if !(if f.pending then cfg.verbs.create else cfg.verbs.update) then (c, Some(EROFS))
    else
      var (c', err) := if f.pending then CreateContent(c, cfg.client, env, f.node, f.buf)
                       else ApplyContent(c, cfg.client, env, f.node, f.buf);
      (c', if err.Some? then Some(EIO) else None)
  }

  function FlushHandle(s: FsState, cfg: FsConfig, env: Env, h: nat): (FsState, Option<Errno>) {
    if h !in s.files || !s.files[h].dirty then (s, None)
    else
      var f := s.files[h];
      var (c, err) := Send(s.client, cfg, env, f);
      if err.Some? then (s.(client := c), err)
      else
        (s.(client := c, files := s.files[h := f.(dirty := false, pending := false)],
            content := s.content - {f.node.id}), None)
  }

  function ReleaseHandle(s: FsState, h: nat): FsState {
    s.(files := s.files - {h})
  }
}
