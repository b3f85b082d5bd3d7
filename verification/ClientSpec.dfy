/** What the API client does, on plain values: every read goes through the cache, every
    write invalidates it. */
module ClientSpec {
  import opened Prelude
  import opened Api
  import opened Caching
  import opened Keys
  import opened Order
  import Base64

  /** The values the cache holds; which one a key holds depends on the key's kind. */
  datatype CacheValue =
    | NameList(names: seq<string>)
    | ResourceMap(resources: map<string, ResourceInfo>)
    | ObjectList(objects: seq<ObjectInfo>)
    | Blob(bytes: Bytes)
    | DataMap(data: map<string, Bytes>)

  type Entries = map<string, Entry<CacheValue>>

  datatype State = State(cache: Entries, server: Server)

  datatype Config = Config(ttl: int, lib: Library)

  // ---- Discovery ----

  datatype GroupVersion = GroupVersion(group: string, version: string)

  function SlashCount(s: string): nat {
    if s == "" then 0 else (if s[0] == '/' then 1 else 0) + SlashCount(s[1..])
  }

  function BeforeSlash(s: string): string {
    if s == "" || s[0] == '/' then "" else [s[0]] + BeforeSlash(s[1..])
  }

  /** "group/version", or a bare version for the core group. */
  function ParseGroupVersion(s: string): Option<GroupVersion> {
    if s == "" || s == "/" then Some(GroupVersion("", ""))
    else if SlashCount(s) == 0 then Some(GroupVersion("", s))
    else if SlashCount(s) == 1 then
      var g := BeforeSlash(s);
      Some(GroupVersion(g, if |g| < |s| then s[|g| + 1..] else ""))
    else None
  }

  predicate Browsable(r: ApiResource) {
    "list" in r.verbs && "get" in r.verbs && '/' !in r.name
  }

  function InfoOf(gv: GroupVersion, r: ApiResource): ResourceInfo {
    ResourceInfo(gv.group, gv.version, r.name, r.kind)
  }

  /** The first browsable resource called name, in the order the server prefers them. */
  function FirstIn(gv: GroupVersion, rs: seq<ApiResource>, name: string): Option<ResourceInfo> {
    if rs == [] then None
    else
      var earlier := FirstIn(gv, rs[..|rs| - 1], name);
      var r := rs[|rs| - 1];
      if earlier.Some? then earlier
      else if Browsable(r) && r.name == name then Some(InfoOf(gv, r))
      else None
  }

  function FirstHit(lists: seq<ApiList>, name: string): Option<ResourceInfo> {
    if lists == [] then None
    else
      var earlier := FirstHit(lists[..|lists| - 1], name);
      var l := lists[|lists| - 1];
      var gv := ParseGroupVersion(l.groupVersion);
      if earlier.Some? then earlier
      else if gv.None? then None
      else FirstIn(gv.value, l.resources, name)
  }

  function AllNames(lists: seq<ApiList>): set<string> {
    set l, r | l in lists && r in l.resources :: r.name
  }

  function Discovered(lists: seq<ApiList>): map<string, ResourceInfo> {
    map n | n in AllNames(lists) && FirstHit(lists, n).Some? :: FirstHit(lists, n).value
  }

  lemma {:induction false} FirstInNamed(gv: GroupVersion, rs: seq<ApiResource>, name: string)
    ensures FirstIn(gv, rs, name).Some? ==>
      FirstIn(gv, rs, name).value.resource == name && exists r :: r in rs && r.name == name
  {
    if rs != [] {
      FirstInNamed(gv, rs[..|rs| - 1], name);
    }
  }

  lemma {:induction false} FirstHitNamed(lists: seq<ApiList>, name: string)
    ensures FirstHit(lists, name).Some? ==>
      FirstHit(lists, name).value.resource == name && name in AllNames(lists)
  {
    if lists != [] {
      var front, l := lists[..|lists| - 1], lists[|lists| - 1];
      FirstHitNamed(front, name);
      assert AllNames(front) <= AllNames(lists);
      if ParseGroupVersion(l.groupVersion).Some? {
        FirstInNamed(ParseGroupVersion(l.groupVersion).value, l.resources, name);
      }
    }
  }

  /** The merge keeps exactly the names that have a hit, each with its first hit. */
  lemma DiscoveredExact(lists: seq<ApiList>, name: string)
    ensures name in Discovered(lists) <==> FirstHit(lists, name).Some?
    ensures name in Discovered(lists) ==> FirstHit(lists, name) == Some(Discovered(lists)[name])
    ensures name in Discovered(lists) ==> Discovered(lists)[name].resource == name
  {
    FirstHitNamed(lists, name);
  }

  // ---- The data field ----

  function FieldsOf(d: DataField): map<string, Value> {
    if d.Fields? then d.fields else map[]
  }

  predicate Decodes(res: string, v: Value) {
    v.Str? && res == "secrets" ==> Base64.Decode(v.bytes).Some?
  }

  function Decoded(res: string, v: Value): Bytes
    requires v.Str? && Decodes(res, v)
  {
    if res == "secrets" then Base64.Decode(v.bytes).value else v.bytes
  }

  /** The data map as raw bytes; values that are not strings are skipped, and one secret
      that is not base64 spoils the whole map. */
  function ExtractData(d: DataField, res: string): Result<map<string, Bytes>, Error> {
    var m := FieldsOf(d);
    if forall k | k in m :: Decodes(res, m[k]) then
      Ok(map k | k in m && m[k].Str? :: Decoded(res, m[k]))
    else Err(BadBase64)
  }

  function Encoded(res: string, value: Bytes): Value {
    Str(if res == "secrets" then Base64.Encode(value) else value)
  }

  /** The object that UpdateObjectDataKey sends back. */
  function WithKey(obj: Object, res: string, key: string, value: Bytes): Object {
    obj.(data := Fields(FieldsOf(obj.data)[key := Encoded(res, value)]))
  }

  // ---- Reads ----

  /** One read of the client: the cached view it asks for, and the resource it asks the
      server about. */
  datatype Query = Query(view: View, ri: ResourceInfo)

  /** For the reads that name no resource. */
  function NoInfo(): ResourceInfo { ResourceInfo("", "", "", "") }

  function NameKey(s: string): string { s }

  function Fetch(s: Server, lib: Library, env: Env, q: Query): Result<CacheValue, Error> {
    match q.view
    case Namespaces =>
      if env.fails(ListNamespacesCall) then Err(CallFailed)
      else Ok(NameList(SortBy(env.order(s.namespaces), NameKey)))
    case Resources =>
      var lists := Discover(s, env);
      if env.fails(DiscoverCall) && lists == [] then Err(CallFailed) else Ok(ResourceMap(Discovered(lists)))
    case Listing(ns, _) =>
      (match List(s, env, q.ri.GVR(), ns)
       case Ok(items) => Ok(ObjectList(SortBy(items, (o: ObjectInfo) => o.name)))
       case Err(e) => Err(e))
    case Yaml(ns, _, name) =>
      (match Get(s, env, Ref(q.ri.GVR(), ns, name))
       case Ok(obj) => Ok(Blob(lib.yaml(obj)))
       case Err(e) => Err(e))
    case Json(ns, _, name) =>
      (match Get(s, env, Ref(q.ri.GVR(), ns, name))
       case Ok(obj) => Ok(Blob(lib.json(obj) + [10]))
       case Err(e) => Err(e))
    case Describe(ns, _, name) =>
      (match Get(s, env, Ref(q.ri.GVR(), ns, name))
       case Ok(obj) => Ok(Blob(lib.describe(obj, q.ri.kind)))
       case Err(e) => Err(e))
    case Data(ns, res, name) =>
      (match Get(s, env, Ref(q.ri.GVR(), ns, name))
       case Ok(obj) =>
         (match ExtractData(obj.data, res)
          case Ok(m) => Ok(DataMap(m))
          case Err(e) => Err(e))
       case Err(e) => Err(e))
    case Logs(ns, name) =>
      (match GetLogs(s, env, ns, name)
       case Ok(b) => Ok(Blob(b))
       case Err(e) => Err(e))
  }

  /** Answer from the cache, or else from the server, remembering the answer. */
  function Ask(c: State, cfg: Config, env: Env, q: Query): (State, Result<CacheValue, Error>) {
    var key := Key(q.view);
    match Hit(c.cache, key, env.now)
    case Some(v) => (c, Ok(v))
    case None =>
      var cache := Evicted(c.cache, key, env.now);
      match Fetch(c.server, cfg.lib, env, q)
      case Err(e) => (c.(cache := cache), Err(e))
      case Ok(v) => (c.(cache := Stored(cache, key, v, env.now, cfg.ttl)), Ok(v))
  }

  // ---- Writes ----

  function Invalidated(cache: Entries, ns: string, res: string, name: string): Entries {
    cache - KeysOf(ns, res, name)
  }

  /** Invalidating an object takes away the entries of its own views, of its listing and of
      the logs under its name, and no other view's. */
  lemma InvalidatedExactly(cache: Entries, ns: string, res: string, name: string, v: View)
    requires ColonFree(ns) && ColonFree(res) && WellNamed(v)
    ensures
      var after := Invalidated(cache, ns, res, name);
      && (Key(v) in after <==> Key(v) in cache && v !in ViewsOf(ns, res, name))
      && (Key(v) in after ==> after[Key(v)] == cache[Key(v)])
  {
    KeysOfExact(ns, res, name, v);
  }

  function ApplyObject(c: State, cfg: Config, env: Env, ns: string, ri: ResourceInfo, data: Bytes)
    : (State, Option<Error>)
  {
    match cfg.lib.parse(data)
    case None => (c, Some(BadDocument))
    case Some(obj) =>
      if obj.name == "" then (c, Some(NoName))
      else
        match Update(c.server, env, ri.GVR(), ns, obj)
        case Err(e) => (c, Some(e))
        case Ok(s) => (State(Invalidated(c.cache, ns, ri.resource, obj.name), s), None)
  }

  function CreateObject(c: State, cfg: Config, env: Env, ns: string, ri: ResourceInfo, data: Bytes)
    : (State, Option<Error>)
  {
    match cfg.lib.parse(data)
    case None => (c, Some(BadDocument))
    case Some(obj) =>
      match Create(c.server, env, ri.GVR(), ns, obj)
      case Err(e) => (c, Some(e))
      case Ok(s) => (State(c.cache - {Key(Listing(ns, ri.resource))}, s), None)
  }

  function UpdateObjectDataKey(c: State, env: Env, ns: string, ri: ResourceInfo, name: string, key: string,
      value: Bytes)
    : (State, Option<Error>)
  {
    match Get(c.server, env, Ref(ri.GVR(), ns, name))
    case Err(e) => (c, Some(e))
    case Ok(obj) =>
      match Update(c.server, env, ri.GVR(), ns, WithKey(obj, ri.resource, key, value))
      case Err(e) => (c, Some(e))
      case Ok(s) => (State(Invalidated(c.cache, ns, ri.resource, name), s), None)
  }

  function DeleteObject(c: State, env: Env, ns: string, ri: ResourceInfo, name: string): (State, Option<Error>) {
    match Delete(c.server, env, Ref(ri.GVR(), ns, name))
    case Err(e) => (c, Some(e))
    case Ok(s) => (State(Invalidated(c.cache, ns, ri.resource, name), s), None)
  }

  // ---- The cache is well typed ----

  predicate Fits(kind: nat, v: CacheValue) {
    match kind
    case 0 => v.NameList?
    case 1 => v.ResourceMap?
    case 2 => v.ObjectList?
    case 6 => v.DataMap?
    case _ => v.Blob?
  }

  ghost predicate Typed(cache: Entries) {
    forall k :: k in cache ==> Fits(KindOfKey(k), cache[k].value)
  }

  /** A read finds a value of the kind its caller asserts, so no type assertion panics. */
  lemma AskTyped(c: State, cfg: Config, env: Env, q: Query)
    requires Typed(c.cache)
    ensures Typed(Ask(c, cfg, env, q).0.cache)
    ensures Ask(c, cfg, env, q).0.server == c.server
    ensures Ask(c, cfg, env, q).1.Ok? ==> Fits(Kind(q.view), Ask(c, cfg, env, q).1.value)
  {
    KeyShowsKind(q.view);
  }

  /** Reading does not disturb other views: within one instant every view keeps its answer. */
  lemma AskStable(c: State, cfg: Config, env: Env, q: Query, other: Query)
    requires WellNamed(q.view) && WellNamed(other.view)
    requires q.view == other.view ==> q.ri.GVR() == other.ri.GVR() && q.ri.kind == other.ri.kind
    ensures Ask(Ask(c, cfg, env, q).0, cfg, env, other).1 == Ask(c, cfg, env, other).1
  {
    KeyInjective(q.view, other.view);
  }

  // ---- Results as the callers type them ----

  function AsNames(r: Result<CacheValue, Error>): Result<seq<string>, Error> {
    match r case Err(e) => Err(e) case Ok(v) => Ok(if v.NameList? then v.names else [])
  }

  function AsResources(r: Result<CacheValue, Error>): Result<map<string, ResourceInfo>, Error> {
    match r case Err(e) => Err(e) case Ok(v) => Ok(if v.ResourceMap? then v.resources else map[])
  }

  function AsObjects(r: Result<CacheValue, Error>): Result<seq<ObjectInfo>, Error> {
    match r case Err(e) => Err(e) case Ok(v) => Ok(if v.ObjectList? then v.objects else [])
  }

  function AsBytes(r: Result<CacheValue, Error>): Result<Bytes, Error> {
    match r case Err(e) => Err(e) case Ok(v) => Ok(if v.Blob? then v.bytes else [])
  }

  function AsData(r: Result<CacheValue, Error>): Result<map<string, Bytes>, Error> {
    match r case Err(e) => Err(e) case Ok(v) => Ok(if v.DataMap? then v.data else map[])
  }
}
