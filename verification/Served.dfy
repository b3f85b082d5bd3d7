/** What files show of the server, read off its objects and logs: the ground that everything
    said about caches stands on. */
module Served {
  import opened Prelude
  import opened Api
  import opened Caching
  import opened Keys
  import opened ClientSpec
  import opened TableSpec
  import opened FsSpec
  import Base64

  function RefOf(node: Inode): Ref { Ref(Gvr(node.group, node.version, node.res), node.ns, node.obj) }

  /** What the file with this name shows of an object. */
  function Rendered(lib: Library, file: string, obj: Object): Bytes {
    if file == "yaml" then lib.yaml(obj)
    else if file == "json" then lib.json(obj) + ['\n' as int]
    else lib.describe(obj, "")
  }

  /** What the file of one key shows of an object. One value of a secret that is not base64
      makes all its keys unreadable. */
  function KeyShown(res: string, key: string, obj: Object): Result<Bytes, Error> {
    var m := if obj.data.Fields? then obj.data.fields else map[];
    if res == "secrets" && exists k :: k in m && m[k].Str? && Base64.Decode(m[k].bytes).None? then Err(BadBase64)
    else if key !in m || !m[key].Str? then Err(KeyMissing)
    else if res != "secrets" then Ok(m[key].bytes)
    else Ok(Base64.Decode(m[key].bytes).value)
  }

  /** What a node shows of the server, or why it shows nothing. */
  function Shown(server: Server, lib: Library, env: Env, node: Inode): Result<Bytes, Error> {
    var ref := RefOf(node);
    if node.kind != NodeFile && node.kind != NodeDataFile then Err(NotAFile)
    else if node.kind == NodeFile && node.file == "logs" then
      if env.fails(LogsCall(node.ns, node.obj)) then Err(CallFailed)
      else if (node.ns, node.obj) !in server.logs then Err(NotFound)
      else Ok(server.logs[(node.ns, node.obj)])
    else if node.kind == NodeFile && node.file != "yaml" && node.file != "json" && node.file != "describe" then
      Err(UnknownFile)
    else if env.fails(GetCall(ref)) then Err(CallFailed)
    else if ref !in server.objects then Err(NotFound)
    else if node.kind == NodeFile then Ok(Rendered(lib, node.file, server.objects[ref]))
    else KeyShown(node.res, node.file, server.objects[ref])
  }

  /** The client reads exactly that. */
  lemma ReadsShown(server: Server, cfg: Config, env: Env, node: Inode)
    ensures Shown(server, cfg.lib, env, node) ==
      match NodeQuery(node) case Err(e) => Err(e) case Ok(q) => PartFor(node, Fetch(server, cfg.lib, env, q))
  {
  }

  /** The client's reads of one object, for any caller: each asks for the object of the given
      group, version, type, namespace and name, and describing it takes the caller's kind. */
  lemma ReadsObject(server: Server, lib: Library, env: Env, ns: string, ri: ResourceInfo, name: string)
    ensures
      var ref, res := Ref(Gvr(ri.group, ri.version, ri.resource), ns, name), ri.resource;
      var yaml, json := Fetch(server, lib, env, Query(Yaml(ns, res, name), ri)),
          Fetch(server, lib, env, Query(Json(ns, res, name), ri));
      var text := Fetch(server, lib, env, Query(Describe(ns, res, name), ri));
      if env.fails(GetCall(ref)) then yaml == json == text == Err(CallFailed)
      else if ref !in server.objects then yaml == json == text == Err(NotFound)
      else
        var obj := server.objects[ref];
        && yaml == Ok(Blob(lib.yaml(obj))) && json == Ok(Blob(lib.json(obj) + ['\n' as int]))
        && text == Ok(Blob(lib.describe(obj, ri.kind)))
  {
  }

  /** The view a file is cached under. */
  function ViewOf(node: Inode): Option<View> {
    if node.kind == NodeDataFile then Some(Data(node.ns, node.res, node.obj))
    else if node.kind != NodeFile then None
    else if node.file == "yaml" then Some(Yaml(node.ns, node.res, node.obj))
    else if node.file == "json" then Some(Json(node.ns, node.res, node.obj))
    else if node.file == "describe" then Some(Describe(node.ns, node.res, node.obj))
    else if node.file == "logs" then Some(Logs(node.ns, node.obj))
    else None
  }

  /** The filesystem remembers content of the node from less than 30 seconds ago. */
  predicate Remembers(s: FsState, env: Env, node: Inode) {
    node.id in s.content && env.now - s.content[node.id].fetchedAt < 30_000_000_000
  }

  /** The client has an entry for the node's view that has not expired. */
  predicate ClientHas(c: ClientSpec.State, env: Env, node: Inode) {
    ViewOf(node).Some? && Key(ViewOf(node).value) in c.cache && env.now <= c.cache[Key(ViewOf(node).value)].expiresAt
  }

  function Text(lib: Library, r: Result<Bytes, Error>): Bytes {
    match r case Ok(b) => b case Err(e) => lib.errorText(e)
  }

  /** With nothing remembered, a fetch yields what the node shows of the server now, or the
      text of the error if it shows nothing; and that is remembered for this node alone. */
  lemma FetchesShown(cfg: FsConfig, s: FsState, env: Env, node: Inode)
    requires !Remembers(s, env, node) && !ClientHas(s.client, env, node)
    ensures
      var data := Text(cfg.client.lib, Shown(s.client.server, cfg.client.lib, env, node));
      var s' := FetchContent(s, cfg, env, node).0;
      && FetchContent(s, cfg, env, node).1 == data
      && s' == s.(client := s'.client, content := s.content[node.id := Cached(data, env.now)])
      && s'.client.server == s.client.server
  {
    ReadsShown(s.client.server, cfg.client, env, node);
  }

  /** What the filesystem remembers is served without asking anybody. */
  lemma FetchesRemembered(cfg: FsConfig, s: FsState, env: Env, node: Inode)
    requires Remembers(s, env, node)
    ensures FetchContent(s, cfg, env, node) == (s, s.content[node.id].data)
  {
  }

  /** A success is remembered for a ttl from when the server gave it, whatever the server would
      answer meanwhile; a failure is not. */
  lemma SuccessRemembered(c: ClientSpec.State, cfg: Config, env: Env, q: Query, later: Env, server: Server)
    requires Key(q.view) !in c.cache
    ensures
      var (c1, a) := Ask(c, cfg, env, q);
      var c2 := c1.(server := server);
      if a.Err? then c1 == c
      else if later.now <= env.now + cfg.ttl then Ask(c2, cfg, later, q) == (c2, a)
      else Ask(c2, cfg, later, q).1 == Ask(c.(server := server), cfg, later, q).1
  {
  }
}
