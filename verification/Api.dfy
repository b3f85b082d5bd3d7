/** The API server as the filesystem sees it: a store of objects behind calls that may
    fail. Everything outside the process (the clock, failures, Go's map iteration order,
    and the YAML and JSON encoders) is a parameter. */
module Api {
  import opened Prelude
  import Utf8

  /** A value under an object's data field. */
  datatype Value = Str(bytes: Bytes) | NotString(tag: nat)

  datatype DataField = Absent | Malformed(tag: nat) | Fields(fields: map<string, Value>)

  /** rest stands for everything in the object besides the parts named here. */
  datatype Object = Object(name: string, version: Option<nat>, created: int, data: DataField, rest: nat)

  datatype Gvr = Gvr(group: string, version: string, resource: string)

  datatype Ref = Ref(gvr: Gvr, ns: string, name: string)

  datatype ResourceInfo = ResourceInfo(group: string, version: string, resource: string, kind: string) {
    function GVR(): Gvr { Gvr(group, version, resource) }
  }

  datatype ObjectInfo = ObjectInfo(name: string, created: int)

  datatype ApiResource = ApiResource(name: string, kind: string, verbs: seq<string>)

  datatype ApiList = ApiList(groupVersion: string, resources: seq<ApiResource>)

  datatype Server = Server(
    namespaces: set<string>,
    lists: seq<ApiList>,
    objects: map<Ref, Object>,
    logs: map<(string, string), Bytes>,
    revision: nat)

  datatype Call =
    | ListNamespacesCall
    | DiscoverCall
    | ListCall(gvr: Gvr, ns: string)
    | GetCall(ref: Ref)
    | LogsCall(ns: string, name: string)
    | CreateCall(ref: Ref)
    | UpdateCall(ref: Ref)
    | DeleteCall(ref: Ref)

  /** What the world does during one operation: the clock reading, which API calls fail,
      which groups still answer when discovery does, and the order in which Go happens to
      range over a map. */
  datatype Env = Env(
    now: int,
    fails: Call -> bool,
    answering: seq<ApiList> -> seq<ApiList>,
    order: set<string> -> seq<string>)
  {
    ghost predicate Valid() {
      && (forall s: set<string> :: Enumerates(order(s), s))
      && (forall lists: seq<ApiList>, l: ApiList :: l in answering(lists) ==> l in lists)
    }
  }

  datatype Error =
    | CallFailed
    | NotFound
    | Conflict
    | AlreadyExists
    | BadBase64
    | BadDocument
    | NoName
    | KeyMissing
    | UnknownFile
    | NotAFile
    | ReadOnlyFile

  /** The encoders and decoders the repository imports, and the text of an error. */
  datatype Library = Library(
    yaml: Object -> Bytes,
    json: Object -> Bytes,
    describe: (Object, string) -> Bytes,
    parse: Bytes -> Option<Object>,
    errorText: Error -> Bytes)

  // ---- Reading calls ----

  /** What discovery returns, with or without an error: all groups, or those that answer. */
  function Discover(s: Server, env: Env): seq<ApiList> {
    if env.fails(DiscoverCall) then env.answering(s.lists) else s.lists
  }

  function Get(s: Server, env: Env, ref: Ref): Result<Object, Error> {
    if env.fails(GetCall(ref)) then Err(CallFailed)
    else if ref !in s.objects then Err(NotFound)
    else Ok(s.objects[ref])
  }

  function NamesIn(s: Server, gvr: Gvr, ns: string): set<string> {
    set ref | ref in s.objects && ref.gvr == gvr && ref.ns == ns :: ref.name
  }

  function List(s: Server, env: Env, gvr: Gvr, ns: string): Result<seq<ObjectInfo>, Error> {
    if env.fails(ListCall(gvr, ns)) then Err(CallFailed)
    else
      var names := env.order(NamesIn(s, gvr, ns));
      Ok(seq(|names|, i requires 0 <= i < |names| =>
        ObjectInfo(names[i], if Ref(gvr, ns, names[i]) in s.objects then s.objects[Ref(gvr, ns, names[i])].created
            else 0)))
  }

  function GetLogs(s: Server, env: Env, ns: string, name: string): Result<Bytes, Error> {
    if env.fails(LogsCall(ns, name)) then Err(CallFailed)
    else if (ns, name) !in s.logs then Err(NotFound)
    else Ok(s.logs[(ns, name)])
  }

  // ---- Changing calls ----

  /** What an object looks like after its trip as JSON: every string is valid UTF-8. */
  function Transported(d: DataField): DataField {
    match d
    case Fields(m) => Fields(map k | k in m :: match m[k] case Str(b) => Str(Utf8.Coerce(b)) case v => v)
    case _ => d
  }

  /** The server refuses an update of a missing object, or one that carries a resource
      version other than the stored one. */
  function Update(s: Server, env: Env, gvr: Gvr, ns: string, obj: Object): Result<Server, Error> {
    var ref := Ref(gvr, ns, obj.name);
    if env.fails(UpdateCall(ref)) then Err(CallFailed)
    else if ref !in s.objects then Err(NotFound)
    else if obj.version.Some? && obj.version != s.objects[ref].version then Err(Conflict)
    else
      var stored := obj.(version := Some(s.revision + 1), data := Transported(obj.data));
      Ok(s.(objects := s.objects[ref := stored], revision := s.revision + 1))
  }

  function Create(s: Server, env: Env, gvr: Gvr, ns: string, obj: Object): Result<Server, Error> {
    var ref := Ref(gvr, ns, obj.name);
    if env.fails(CreateCall(ref)) then Err(CallFailed)
    else if obj.name == "" then Err(NoName)
    else if ref in s.objects then Err(AlreadyExists)
    else
      var stored := obj.(version := Some(s.revision + 1), data := Transported(obj.data));
      Ok(s.(objects := s.objects[ref := stored], revision := s.revision + 1))
  }

  function Delete(s: Server, env: Env, ref: Ref): Result<Server, Error> {
    if env.fails(DeleteCall(ref)) then Err(CallFailed)
    else if ref !in s.objects then Err(NotFound)
    else Ok(s.(objects := s.objects - {ref}, revision := s.revision + 1))
  }

  /** Strings that came out of the store are valid UTF-8, versions are set and below the
      revision counter, and an object is stored under its own name. */
  ghost predicate ServerOk(s: Server) {
    forall ref :: ref in s.objects ==> ObjectOk(s.objects[ref], ref, s.revision)
  }

  ghost predicate ObjectOk(o: Object, ref: Ref, revision: nat) {
    && o.name == ref.name
    && o.version.Some? && o.version.value <= revision
    && (o.data.Fields? ==> forall k :: k in o.data.fields && o.data.fields[k].Str? ==>
        Utf8.Valid(o.data.fields[k].bytes))
  }

  lemma TransportedOk(d: DataField)
    ensures Transported(d).Fields? ==>
      forall k :: k in Transported(d).fields && Transported(d).fields[k].Str? ==>
          Utf8.Valid(Transported(d).fields[k].bytes)
  {
    if d.Fields? {
      forall k | k in d.fields && d.fields[k].Str? ensures Utf8.Valid(Transported(d).fields[k].bytes) {
        Utf8.CoerceValid(d.fields[k].bytes);
      }
    }
  }

  /** Every accepted change leaves the store consistent. */
  lemma ChangesKeepServerOk(s: Server, env: Env, gvr: Gvr, ns: string, obj: Object, ref: Ref)
    requires ServerOk(s)
    ensures Update(s, env, gvr, ns, obj).Ok? ==> ServerOk(Update(s, env, gvr, ns, obj).value)
    ensures Create(s, env, gvr, ns, obj).Ok? ==> ServerOk(Create(s, env, gvr, ns, obj).value)
    ensures Delete(s, env, ref).Ok? ==> ServerOk(Delete(s, env, ref).value)
  {
    TransportedOk(obj.data);
  }

  /** The server process, whose state the filesystem changes only through these calls. */
  class ApiServer {
    var state: Server

    constructor (initial: Server)
      ensures state == initial
    {
      state := initial;
    }

    method UpdateObject(env: Env, gvr: Gvr, ns: string, obj: Object) returns (err: Option<Error>)
      modifies this
      ensures match Update(old(state), env, gvr, ns, obj)
              case Ok(s) => err.None? && state == s
              case Err(e) => err == Some(e) && state == old(state)
    {
      var r := Update(state, env, gvr, ns, obj);
      if r.Err? { return Some(r.error); }
      state := r.value;
      err := None;
    }

    method CreateObject(env: Env, gvr: Gvr, ns: string, obj: Object) returns (err: Option<Error>)
      modifies this
      ensures match Create(old(state), env, gvr, ns, obj)
              case Ok(s) => err.None? && state == s
              case Err(e) => err == Some(e) && state == old(state)
    {
      var r := Create(state, env, gvr, ns, obj);
      if r.Err? { return Some(r.error); }
      state := r.value;
      err := None;
    }

    method DeleteObject(env: Env, ref: Ref) returns (err: Option<Error>)
      modifies this
      ensures match Delete(old(state), env, ref)
              case Ok(s) => err.None? && state == s
              case Err(e) => err == Some(e) && state == old(state)
    {
      var r := Delete(state, env, ref);
      if r.Err? { return Some(r.error); }
      state := r.value;
      err := None;
    }
  }
}
