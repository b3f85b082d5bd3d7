/** The API client, which updates its cache in place. */
module K8s {
  import opened Prelude
  import opened Api
  import opened Caching
  import opened Keys
  import opened Order
  import opened ClientSpec
  import Base64

  class Client {
    const cache: Cache<CacheValue>
    const server: ApiServer
    const lib: Library

    ghost function State(): ClientSpec.State
      reads cache, server
    {
      ClientSpec.State(cache.entries, server.state)
    }

    ghost function Config(): ClientSpec.Config {
      ClientSpec.Config(cache.ttl, lib)
    }

    /** Every cached value has the type its key promises. */
    ghost predicate Valid()
      reads cache
    {
      Typed(cache.entries)
    }

    constructor (server: ApiServer, lib: Library, ttl: int)
      ensures Valid() && fresh(cache) && this.server == server && this.lib == lib
      ensures State() == ClientSpec.State(map[], server.state) && Config() == ClientSpec.Config(ttl, lib)
    {
      cache := new Cache<CacheValue>(ttl);
      this.server := server;
      this.lib := lib;
    }

    method ListNamespaces(env: Env) returns (r: Result<seq<string>, Error>)
      requires Valid()
      modifies cache
      ensures Valid()
      ensures var (c, a) := Ask(old(State()), Config(), env, Query(Namespaces, NoInfo()));
              State() == c && r == AsNames(a)
    {
      AskTyped(State(), Config(), env, Query(Namespaces, NoInfo()));
      KeyShowsKind(Namespaces);
      var hit := cache.Get("namespaces", env.now);
      if hit.Some? {
        return Ok(hit.value.names);
      }
      if env.fails(ListNamespacesCall) {
        return Err(CallFailed);
      }
      var names := SortBy(env.order(server.state.namespaces), NameKey);
      cache.Set("namespaces", NameList(names), env.now);
      return Ok(names);
    }

    method DiscoverResources(env: Env) returns (r: Result<map<string, ResourceInfo>, Error>)
      requires Valid()
      modifies cache
      ensures Valid()
      ensures var (c, a) := Ask(old(State()), Config(), env, Query(Resources, NoInfo()));
              State() == c && r == AsResources(a)
    {
      AskTyped(State(), Config(), env, Query(Resources, NoInfo()));
      KeyShowsKind(Resources);
      var hit := cache.Get("resources", env.now);
      if hit.Some? {
        return Ok(hit.value.resources);
      }
      var lists := Discover(server.state, env);
      if env.fails(DiscoverCall) && |lists| == 0 {
        return Err(CallFailed);
      }
      var resources := MergeLists(lists);
      cache.Set("resources", ResourceMap(resources), env.now);
      return Ok(resources);
    }

    /** The merge loop of DiscoverResources: the first browsable hit for a name wins. */
    static method MergeLists(lists: seq<ApiList>) returns (resources: map<string, ResourceInfo>)
      ensures resources == Discovered(lists)
    {
      resources := map[];
      for i := 0 to |lists|
        invariant forall n :: n in resources <==> FirstHit(lists[..i], n).Some?
        invariant forall n :: n in resources ==> FirstHit(lists[..i], n) == Some(resources[n])
      {
        assert lists[..i + 1][..i] == lists[..i];
        var gv := ParseGroupVersion(lists[i].groupVersion);
        if gv.None? { continue; }
        var rs := lists[i].resources;
        ghost var before := resources;
        for j := 0 to |rs|
          invariant forall n :: n in resources <==> n in before || FirstIn(gv.value, rs[..j], n).Some?
          invariant forall n :: n in resources ==>
            if n in before then resources[n] == before[n] else FirstIn(gv.value, rs[..j], n) == Some(resources[n])
        {
          assert rs[..j + 1][..j] == rs[..j];
          var r := rs[j];
          if !("list" in r.verbs) || !("get" in r.verbs) { continue; }
          if '/' in r.name { continue; }
          if r.name !in resources {
            resources := resources[r.name := ResourceInfo(gv.value.group, gv.value.version, r.name, r.kind)];
          }
        }
        assert rs[..|rs|] == rs;
      }
      assert lists[..|lists|] == lists;
      FirstHitsAreAll(lists, resources);
    }

    static lemma FirstHitsAreAll(lists: seq<ApiList>, resources: map<string, ResourceInfo>)
      requires forall n :: n in resources <==> FirstHit(lists, n).Some?
      requires forall n :: n in resources ==> FirstHit(lists, n) == Some(resources[n])
      ensures resources == Discovered(lists)
    {
      forall n ensures n in resources <==> n in Discovered(lists) {
        DiscoveredExact(lists, n);
      }
      forall n | n in resources ensures resources[n] == Discovered(lists)[n] {
        DiscoveredExact(lists, n);
      }
    }

    method ListObjects(env: Env, ns: string, ri: ResourceInfo) returns (r: Result<seq<ObjectInfo>, Error>)
      requires Valid()
      modifies cache
      ensures Valid()
      ensures var (c, a) := Ask(old(State()), Config(), env, Query(Listing(ns, ri.resource), ri));
              State() == c && r == AsObjects(a)
    {
      var v := Listing(ns, ri.resource);
      AskTyped(State(), Config(), env, Query(v, ri));
      KeyShowsKind(v);
      var hit := cache.Get(Key(v), env.now);
      if hit.Some? {
        return Ok(hit.value.objects);
      }
      var list := List(server.state, env, ri.GVR(), ns);
      if list.Err? {
        return Err(list.error);
      }
      var objects := SortBy(list.value, (o: ObjectInfo) => o.name);
      cache.Set(Key(v), ObjectList(objects), env.now);
      return Ok(objects);
    }

    method GetObjectYAML(env: Env, ns: string, resource: string, name: string, ri: ResourceInfo)
      returns (r: Result<Bytes, Error>)
      requires Valid()
      modifies cache
      ensures Valid()
      ensures var (c, a) := Ask(old(State()), Config(), env, Query(Yaml(ns, resource, name), ri));
              State() == c && r == AsBytes(a)
    {
      var v := Yaml(ns, resource, name);
      AskTyped(State(), Config(), env, Query(v, ri));
      KeyShowsKind(v);
      var hit := cache.Get(Key(v), env.now);
      if hit.Some? {
        return Ok(hit.value.bytes);
      }
      var obj := Get(server.state, env, Ref(ri.GVR(), ns, name));
      if obj.Err? {
        return Err(obj.error);
      }
      var data := lib.yaml(obj.value);
      cache.Set(Key(v), Blob(data), env.now);
      return Ok(data);
    }

    method GetObjectJSON(env: Env, ns: string, resource: string, name: string, ri: ResourceInfo)
      returns (r: Result<Bytes, Error>)
      requires Valid()
      modifies cache
      ensures Valid()
      ensures var (c, a) := Ask(old(State()), Config(), env, Query(Json(ns, resource, name), ri));
              State() == c && r == AsBytes(a)
    {
      var v := Json(ns, resource, name);
      AskTyped(State(), Config(), env, Query(v, ri));
      KeyShowsKind(v);
      var hit := cache.Get(Key(v), env.now);
      if hit.Some? {
        return Ok(hit.value.bytes);
      }
      var obj := Get(server.state, env, Ref(ri.GVR(), ns, name));
      if obj.Err? {
        return Err(obj.error);
      }
      var data := lib.json(obj.value) + [10];
      cache.Set(Key(v), Blob(data), env.now);
      return Ok(data);
    }

    method DescribeObject(env: Env, ns: string, resource: string, name: string, ri: ResourceInfo)
      returns (r: Result<Bytes, Error>)
      requires Valid()
      modifies cache
      ensures Valid()
      ensures var (c, a) := Ask(old(State()), Config(), env, Query(Describe(ns, resource, name), ri));
              State() == c && r == AsBytes(a)
    {
      var v := Describe(ns, resource, name);
      AskTyped(State(), Config(), env, Query(v, ri));
      KeyShowsKind(v);
      var hit := cache.Get(Key(v), env.now);
      if hit.Some? {
        return Ok(hit.value.bytes);
      }
      var obj := Get(server.state, env, Ref(ri.GVR(), ns, name));
      if obj.Err? {
        return Err(obj.error);
      }
      var data := lib.describe(obj.value, ri.kind);
      cache.Set(Key(v), Blob(data), env.now);
      return Ok(data);
    }

    method GetPodLogs(env: Env, ns: string, name: string) returns (r: Result<Bytes, Error>)
      requires Valid()
      modifies cache
      ensures Valid()
      ensures var (c, a) := Ask(old(State()), Config(), env, Query(Logs(ns, name), NoInfo()));
              State() == c && r == AsBytes(a)
    {
      var v := Logs(ns, name);
      AskTyped(State(), Config(), env, Query(v, NoInfo()));
      KeyShowsKind(v);
      var hit := cache.Get(Key(v), env.now);
      if hit.Some? {
        return Ok(hit.value.bytes);
      }
      var data := GetLogs(server.state, env, ns, name);
      if data.Err? {
        return Err(data.error);
      }
      cache.Set(Key(v), Blob(data.value), env.now);
      return data;
    }

    method GetObjectData(env: Env, ns: string, ri: ResourceInfo, name: string)
      returns (r: Result<map<string, Bytes>, Error>)
      requires Valid() && env.Valid()
      modifies cache
      ensures Valid()
      ensures var (c, a) := Ask(old(State()), Config(), env, Query(Data(ns, ri.resource, name), ri));
              State() == c && r == AsData(a)
    {
      var v := Data(ns, ri.resource, name);
      AskTyped(State(), Config(), env, Query(v, ri));
      KeyShowsKind(v);
      var hit := cache.Get(Key(v), env.now);
      if hit.Some? {
        return Ok(hit.value.data);
      }
      var obj := Get(server.state, env, Ref(ri.GVR(), ns, name));
      if obj.Err? {
        return Err(obj.error);
      }
      r := Extract(env, obj.value, ri.resource);
      if r.Err? {
        return r;
      }
      cache.Set(Key(v), DataMap(r.value), env.now);
    }

    /** Ranges over the data map in whatever order Go picks, and stops at the first
        secret that does not decode. */
    static method Extract(env: Env, obj: Object, resource: string) returns (r: Result<map<string, Bytes>, Error>)
      requires env.Valid()
      ensures r == ExtractData(obj.data, resource)
    {
      var field := FieldsOf(obj.data);
      var keys := env.order(field.Keys);
      var result: map<string, Bytes> := map[];
      for i := 0 to |keys|
        invariant forall k :: k in result <==> k in keys[..i] && field[k].Str?
        invariant forall j :: 0 <= j < i ==> Decodes(resource, field[keys[j]])
        invariant forall k :: k in result ==> Decodes(resource, field[k]) && result[k] == Decoded(resource, field[k])
      {
        var k := keys[i];
        if field[k].NotString? { continue; }
        if resource == "secrets" {
          var decoded := Base64.Decode(field[k].bytes);
          if decoded.None? {
            assert !Decodes(resource, field[k]);
            return Err(BadBase64);
          }
          result := result[k := decoded.value];
        } else {
          result := result[k := field[k].bytes];
        }
      }
      assert keys[..|keys|] == keys;
      forall k | k in field ensures Decodes(resource, field[k]) {
        assert k in keys;
      }
      assert result == map k | k in field && field[k].Str? :: Decoded(resource, field[k]);
      r := Ok(result);
    }

    method InvalidateObject(ns: string, resource: string, name: string)
      requires Valid()
      modifies cache
      ensures Valid()
      ensures cache.entries == Invalidated(old(cache.entries), ns, resource, name)
    {
      SixKeys(cache.entries, Key(Yaml(ns, resource, name)), Key(Json(ns, resource, name)),
          Key(Describe(ns, resource, name)),
              Key(Data(ns, resource, name)), Key(Logs(ns, name)), Key(Listing(ns, resource)));
      cache.Delete(Key(Yaml(ns, resource, name)));
      cache.Delete(Key(Json(ns, resource, name)));
      cache.Delete(Key(Describe(ns, resource, name)));
      cache.Delete(Key(Data(ns, resource, name)));
      cache.Delete(Key(Logs(ns, name)));
      cache.Delete(Key(Listing(ns, resource)));
    }

    static lemma SixKeys(e: Entries, a: string, b: string, c: string, d: string, f: string, g: string)
      ensures e - {a} - {b} - {c} - {d} - {f} - {g} == e - {a, b, c, d, f, g}
      ensures Typed(e) ==> Typed(e - {a, b, c, d, f, g})
    {
    }

    method CreateObject(env: Env, ns: string, ri: ResourceInfo, data: Bytes) returns (err: Option<Error>)
      requires Valid()
      modifies cache, server
      ensures Valid()
      ensures (State(), err) == ClientSpec.CreateObject(old(State()), Config(), env, ns, ri, data)
    {
      var obj := lib.parse(data);
      if obj.None? { return Some(BadDocument); }
      err := server.CreateObject(env, ri.GVR(), ns, obj.value);
      if err.Some? { return err; }
      cache.Delete(Key(Listing(ns, ri.resource)));
    }

    method ApplyObject(env: Env, ns: string, ri: ResourceInfo, data: Bytes) returns (err: Option<Error>)
      requires Valid()
      modifies cache, server
      ensures Valid()
      ensures (State(), err) == ClientSpec.ApplyObject(old(State()), Config(), env, ns, ri, data)
    {
      var obj := lib.parse(data);
      if obj.None? { return Some(BadDocument); }
      if obj.value.name == "" { return Some(NoName); }
      err := server.UpdateObject(env, ri.GVR(), ns, obj.value);
      if err.Some? { return err; }
      InvalidateObject(ns, ri.resource, obj.value.name);
    }

    /** Read-modify-write of one key of the data map. */
    method UpdateObjectDataKey(env: Env, ns: string, ri: ResourceInfo, objName: string, dataKey: string, value: Bytes)
      returns (err: Option<Error>)
      requires Valid()
      modifies cache, server
      ensures Valid()
      ensures (State(), err) == ClientSpec.UpdateObjectDataKey(old(State()), env, ns, ri, objName, dataKey, value)
    {
      var obj := Get(server.state, env, Ref(ri.GVR(), ns, objName));
      if obj.Err? { return Some(obj.error); }

      var field := FieldsOf(obj.value.data);
      if ri.resource == "secrets" {
        field := field[dataKey := Str(Base64.Encode(value))];
      } else {
        field := field[dataKey := Str(value)];
      }
      var updated := obj.value.(data := Fields(field));

      err := server.UpdateObject(env, ri.GVR(), ns, updated);
      if err.Some? { return err; }
      InvalidateObject(ns, ri.resource, objName);
    }

    method DeleteObject(env: Env, ns: string, ri: ResourceInfo, name: string) returns (err: Option<Error>)
      requires Valid()
      modifies cache, server
      ensures Valid()
      ensures (State(), err) == ClientSpec.DeleteObject(old(State()), env, ns, ri, name)
    {
      err := server.DeleteObject(env, Ref(ri.GVR(), ns, name));
      if err.Some? { return err; }
      InvalidateObject(ns, ri.resource, name);
    }
  }
}
