/** Writers racing to change one object: UpdateObjectDataKey split into its fetch and its
    update, against a server that refuses a stale resource version. */
module Rmw {
  import opened Prelude
  import opened Api
  import opened Keys
  import opened ClientSpec
  import opened ReadYourWrites
  import Utf8

  /** The object that all writers write to. */
  datatype Target = Target(ns: string, ri: ResourceInfo, name: string) {
    function Ref(): Ref { Api.Ref(ri.GVR(), ns, name) }
  }

  datatype KeyWrite = KeyWrite(key: string, value: Bytes)

  /** A writer between its two calls: what it fetched, and what it is going to change. */
  datatype Pending = Pending(obj: Object, write: KeyWrite)

  datatype Race = Race(server: Server, held: map<nat, Pending>)

  datatype Move =
    | Begin(writer: nat, env: Env, write: KeyWrite)
    | Commit(writer: nat, env: Env)
    | Others(server: Server)        // anything that anybody else does, to this object too

  /** The update call that a writer is about to make. */
  function Sent(t: Target, r: Race, w: nat, env: Env): Result<Server, Error>
    requires w in r.held
  {
    var p := r.held[w];
    Update(r.server, env, t.ri.GVR(), t.ns, WithKey(p.obj, t.ri.resource, p.write.key, p.write.value))
  }

  function Next(t: Target, r: Race, m: Move): Race {
    match m
    case Begin(w, env, write) =>
      if w in r.held then r
      else (match Get(r.server, env, t.Ref())
            case Err(_) => r
            case Ok(obj) => r.(held := r.held[w := Pending(obj, write)]))
    case Commit(w, env) =>
      if w !in r.held then r
      else Race(match Sent(t, r, w, env) case Err(_) => r.server case Ok(s) => s, r.held - {w})
    case Others(server) => r.(server := server)
  }

  /** An object without its name, which never changes, and its version. */
  datatype Doc = Doc(created: int, rest: nat, fields: map<string, Value>)

  function DocAt(t: Target, s: Server): Option<Doc> {
    if t.Ref() !in s.objects then None
    else
      var obj := s.objects[t.Ref()];
      Some(Doc(obj.created, obj.rest, FieldsOf(obj.data)))
  }

  /** One thing that happened to the object: an accepted write, or what somebody else made of
      it, a deletion included. */
  datatype Entry = Wrote(write: KeyWrite) | Became(doc: Option<Doc>)

  function LoggedBy(t: Target, r: Race, m: Move): seq<Entry> {
    match m
    case Begin(_, _, _) => []
    case Commit(w, env) => if w in r.held && Sent(t, r, w, env).Ok? then [Wrote(r.held[w].write)] else []
    case Others(server) => [Became(DocAt(t, server))]
  }

  function RaceAfter(t: Target, r: Race, moves: seq<Move>): Race
    decreases |moves|
  {
    if moves == [] then r else RaceAfter(t, Next(t, r, moves[0]), moves[1..])
  }

  /** What happened to the object, in the order in which the server accepted it. */
  function Log(t: Target, r: Race, moves: seq<Move>): seq<Entry>
    decreases |moves|
  {
    if moves == [] then [] else LoggedBy(t, r, moves[0]) + Log(t, Next(t, r, moves[0]), moves[1..])
  }

  /** What others do to a consistent server leaves it consistent, and an object that it
      changes or creates gets a version that no object has had before. */
  ghost predicate Orderly(t: Target, s: Server, s': Server) {
    && ServerOk(s') && s'.revision >= s.revision
    && (t.Ref() in s'.objects ==>
          || (t.Ref() in s.objects && s'.objects[t.Ref()] == s.objects[t.Ref()])
          || s'.objects[t.Ref()].version.value > s.revision)
  }

  ghost predicate Fair(t: Target, r: Race, moves: seq<Move>)
    decreases |moves|
  {
    moves == [] ||
    ((moves[0].Others? ==> Orderly(t, r.server, moves[0].server)) && Fair(t, Next(t, r, moves[0]), moves[1..]))
  }

  // ---- The plain form: entries applied one after another ----

  function StoredValue(res: string, value: Bytes): Value { Str(Utf8.Coerce(Encoded(res, value).bytes)) }

  function Apply(res: string, d: Option<Doc>, e: Entry): Option<Doc> {
    match e
    case Became(doc) => doc
    case Wrote(w) =>
      if d.None? then None else Some(d.value.(fields := d.value.fields[w.key := StoredValue(res, w.value)]))
  }

  function Applied(res: string, d: Option<Doc>, log: seq<Entry>): Option<Doc>
    decreases |log|
  {
    if log == [] then d else Applied(res, Apply(res, d, log[0]), log[1..])
  }

  lemma {:induction false} AppliedSplit(res: string, d: Option<Doc>, a: seq<Entry>, b: seq<Entry>)
    ensures Applied(res, d, a + b) == Applied(res, Applied(res, d, a), b)
    decreases |a|
  {
    if a == [] {
      assert a + b == b;
    } else {
      assert (a + b)[1..] == a[1..] + b;
      AppliedSplit(res, Apply(res, d, a[0]), a[1..], b);
    }
  }

  // ---- Versions tell objects apart ----

  /** Whatever a writer holds is an earlier version of the object, or the object itself. */
  ghost predicate RaceOk(t: Target, r: Race) {
    && ServerOk(r.server)
    && forall w :: w in r.held ==> HeldOk(t, r.held[w].obj, r.server)
  }

  ghost predicate HeldOk(t: Target, held: Object, s: Server) {
    && held.name == t.name && held.version.Some? && held.version.value <= s.revision
    && (t.Ref() in s.objects && held.version == s.objects[t.Ref()].version ==> held == s.objects[t.Ref()])
  }

  /** One key of the stored map changes, and nothing else about the object. */
  lemma UpdatesOneKey(before: Object, ref: Ref, res: string, w: KeyWrite, revision: nat)
    requires ObjectOk(before, ref, revision)
    ensures
      var after := AfterUpdate(before, res, w.key, w.value, revision);
      && ObjectOk(after, ref, revision + 1)
      && after.created == before.created && after.rest == before.rest
      && after.version == Some(revision + 1)
      && FieldsOf(after.data) == FieldsOf(before.data)[w.key := StoredValue(res, w.value)]
  {
    var after := AfterUpdate(before, res, w.key, w.value, revision);
    OtherKeysUnchanged(before, ref, res, w.key, w.value, revision);
    TransportedOk(WithKey(before, res, w.key, w.value).data);
    var expected := FieldsOf(before.data)[w.key := StoredValue(res, w.value)];
    assert FieldsOf(after.data) == expected;
  }

  /** The server refuses a writer exactly when the object has changed under it, or is gone. */
  lemma RefusedIffStale(t: Target, r: Race, w: nat, env: Env)
    requires RaceOk(t, r) && w in r.held && !env.fails(UpdateCall(t.Ref()))
    ensures Sent(t, r, w, env).Ok? <==> t.Ref() in r.server.objects && r.held[w].obj == r.server.objects[t.Ref()]
    ensures Sent(t, r, w, env).Err? ==>
      Sent(t, r, w, env) == Err(if t.Ref() in r.server.objects then Conflict else NotFound)
  {
    assert HeldOk(t, r.held[w].obj, r.server);
    assert t.Ref() in r.server.objects ==> ObjectOk(r.server.objects[t.Ref()], t.Ref(), r.server.revision);
  }

  lemma CommitLands(t: Target, r: Race, w: nat, env: Env)
    requires RaceOk(t, r) && w in r.held && Sent(t, r, w, env).Ok?
    ensures t.Ref() in r.server.objects
    ensures
      var before := r.server.objects[t.Ref()];
      var s := Sent(t, r, w, env).value;
      var after := AfterUpdate(before, t.ri.resource, r.held[w].write.key, r.held[w].write.value, r.server.revision);
      && s.objects == r.server.objects[t.Ref() := after]
      && s.revision == r.server.revision + 1
      && ServerOk(s)
  {
    assert HeldOk(t, r.held[w].obj, r.server);
    RefusedIffStale(t, r, w, env);
    var before := r.server.objects[t.Ref()];
    assert ObjectOk(before, t.Ref(), r.server.revision);
    UpdatesOneKey(before, t.Ref(), t.ri.resource, r.held[w].write, r.server.revision);
  }

  lemma MoveKeepsRaceOk(t: Target, r: Race, m: Move)
    requires RaceOk(t, r) && (m.Others? ==> Orderly(t, r.server, m.server))
    ensures
      var r' := Next(t, r, m);
      && RaceOk(t, r')
      && DocAt(t, r'.server) == Applied(t.ri.resource, DocAt(t, r.server), LoggedBy(t, r, m))
  {
    match m
    case Begin(_, _, _) =>
      assert t.Ref() in r.server.objects ==> ObjectOk(r.server.objects[t.Ref()], t.Ref(), r.server.revision);
    case Commit(w, env) =>
      if w in r.held && Sent(t, r, w, env).Ok? {
        CommitLands(t, r, w, env);
        CommitKeepsHeld(t, r, w, env);
        UpdatesOneKey(r.server.objects[t.Ref()], t.Ref(), t.ri.resource, r.held[w].write, r.server.revision);
        OneEntry(t.ri.resource, DocAt(t, r.server), Wrote(r.held[w].write));
      }
    case Others(server) =>
      OneEntry(t.ri.resource, DocAt(t, r.server), Became(DocAt(t, server)));
      OthersKeepHeld(t, r, server);
  }

  lemma OneEntry(res: string, d: Option<Doc>, e: Entry)
    ensures Applied(res, d, [e]) == Apply(res, d, e)
  {
    assert [e][1..] == [];
  }

  lemma CommitKeepsHeld(t: Target, r: Race, w: nat, env: Env)
    requires RaceOk(t, r) && w in r.held && Sent(t, r, w, env).Ok?
    ensures forall x :: x in r.held ==> HeldOk(t, r.held[x].obj, Sent(t, r, w, env).value)
  {
    CommitLands(t, r, w, env);
  }

  lemma OthersKeepHeld(t: Target, r: Race, server: Server)
    requires RaceOk(t, r) && Orderly(t, r.server, server)
    ensures forall x :: x in r.held ==> HeldOk(t, r.held[x].obj, server)
  {
  }

  /** No interleaving loses a write: whatever others do to the object in between, it ends up as
      what happened to it, applied in the order of acceptance to what it was. */
  lemma {:induction false} NothingLost(t: Target, r: Race, moves: seq<Move>)
    requires RaceOk(t, r) && Fair(t, r, moves)
    ensures
      var r' := RaceAfter(t, r, moves);
      && RaceOk(t, r')
      && DocAt(t, r'.server) == Applied(t.ri.resource, DocAt(t, r.server), Log(t, r, moves))
    decreases |moves|
  {
    if moves != [] {
      MoveKeepsRaceOk(t, r, moves[0]);
      var r1 := Next(t, r, moves[0]);
      NothingLost(t, r1, moves[1..]);
      AppliedSplit(t.ri.resource, DocAt(t, r.server), LoggedBy(t, r, moves[0]), Log(t, r1, moves[1..]));
    }
  }

  /** The entry does not take the key's value away. */
  predicate Keeps(e: Entry, key: string, v: Value) {
    match e
    case Wrote(w) => w.key != key
    case Became(d) => d.Some? && key in d.value.fields && d.value.fields[key] == v
  }

  predicate Has(d: Option<Doc>, key: string, v: Value) {
    d.Some? ==> key in d.value.fields && d.value.fields[key] == v
  }

  /** An accepted write is there in the end, unless somebody later took its value away. */
  lemma {:induction false} LastWriteStands(res: string, d: Option<Doc>, log: seq<Entry>, i: nat)
    requires i < |log| && log[i].Wrote?
    requires forall j :: i < j < |log| ==> Keeps(log[j], log[i].write.key, StoredValue(res, log[i].write.value))
    ensures Has(Applied(res, d, log), log[i].write.key, StoredValue(res, log[i].write.value))
    decreases |log|
  {
    if i > 0 {
      LastWriteStands(res, Apply(res, d, log[0]), log[1..], i - 1);
    } else {
      StillThere(res, Apply(res, d, log[0]), log[1..], log[0].write.key, StoredValue(res, log[0].write.value));
    }
  }

  lemma {:induction false} StillThere(res: string, d: Option<Doc>, log: seq<Entry>, key: string, v: Value)
    requires Has(d, key, v) && forall j :: 0 <= j < |log| ==> Keeps(log[j], key, v)
    ensures Has(Applied(res, d, log), key, v)
    decreases |log|
  {
    if log != [] {
      assert Keeps(log[0], key, v);
      StillThere(res, Apply(res, d, log[0]), log[1..], key, v);
    }
  }

  // ---- One writer alone ----

  /** Without anybody in between, the two halves are UpdateObjectDataKey. */
  lemma UninterruptedIsUpdate(t: Target, c: ClientSpec.State, w: nat, env: Env, write: KeyWrite)
    ensures
      var r := Race(c.server, map[]);
      RaceAfter(t, r, [Begin(w, env, write), Commit(w, env)]).server
      == UpdateObjectDataKey(c, env, t.ns, t.ri, t.name, write.key, write.value).0.server
  {
    var r := Race(c.server, map[]);
    var moves := [Begin(w, env, write), Commit(w, env)];
    assert moves[1..] == [Commit(w, env)];
    assert moves[1..][1..] == [];
    var r1 := Next(t, r, moves[0]);
    assert RaceAfter(t, r, moves) == RaceAfter(t, r1, [Commit(w, env)]);
    assert RaceAfter(t, r1, [Commit(w, env)]) == Next(t, r1, Commit(w, env));
  }

  function Updated(c: ClientSpec.State, t: Target, env: Env, w: KeyWrite): ClientSpec.State {
    UpdateObjectDataKey(c, env, t.ns, t.ri, t.name, w.key, w.value).0
  }

  lemma UpdateSucceeds(c: ClientSpec.State, t: Target, env: Env, w: KeyWrite)
    requires ServerOk(c.server) && t.Ref() in c.server.objects
    requires !env.fails(GetCall(t.Ref())) && !env.fails(UpdateCall(t.Ref()))
    ensures
      var s, c' := c.server, Updated(c, t, env, w);
      var after := AfterUpdate(s.objects[t.Ref()], t.ri.resource, w.key, w.value, s.revision);
      && ServerOk(c'.server)
      && c' == ClientSpec.State(Invalidated(c.cache, t.ns, t.ri.resource, t.name),
                                s.(objects := s.objects[t.Ref() := after], revision := s.revision + 1))
  {
    var before := c.server.objects[t.Ref()];
    assert ObjectOk(before, t.Ref(), c.server.revision);
    UpdatesOneKey(before, t.Ref(), t.ri.resource, w, c.server.revision);
  }

  /** The object after two writes, one after the other. */
  lemma TwoWrites(c: ClientSpec.State, t: Target, env: Env, a: KeyWrite, b: KeyWrite)
    requires ServerOk(c.server) && t.Ref() in c.server.objects
    requires !env.fails(GetCall(t.Ref())) && !env.fails(UpdateCall(t.Ref()))
    ensures
      var before, c' := c.server.objects[t.Ref()], Updated(Updated(c, t, env, a), t, env, b);
      var x, y := StoredValue(t.ri.resource, a.value), StoredValue(t.ri.resource, b.value);
      var m := FieldsOf(before.data)[a.key := x][b.key := y];
      && t.Ref() in c'.server.objects
      && c'.server.objects[t.Ref()] == before.(version := Some(c.server.revision + 2), data := Fields(m))
  {
    var res, revision, before := t.ri.resource, c.server.revision, c.server.objects[t.Ref()];
    UpdateSucceeds(c, t, env, a);
    UpdateSucceeds(Updated(c, t, env, a), t, env, b);
    UpdatesOneKey(before, t.Ref(), res, a, revision);
    var mid := AfterUpdate(before, res, a.key, a.value, revision);
    UpdatesOneKey(mid, t.Ref(), res, b, revision + 1);
  }

  /** Two writes commute exactly when their keys differ or they store the same value. */
  lemma WritesCommute(c: ClientSpec.State, t: Target, env: Env, a: KeyWrite, b: KeyWrite)
    requires ServerOk(c.server) && t.Ref() in c.server.objects
    requires !env.fails(GetCall(t.Ref())) && !env.fails(UpdateCall(t.Ref()))
    ensures Updated(Updated(c, t, env, a), t, env, b) == Updated(Updated(c, t, env, b), t, env, a)
       <==> (a.key != b.key || StoredValue(t.ri.resource, a.value) == StoredValue(t.ri.resource, b.value))
  {
    var x, y := StoredValue(t.ri.resource, a.value), StoredValue(t.ri.resource, b.value);
    var m := FieldsOf(c.server.objects[t.Ref()].data);
    TwoWrites(c, t, env, a, b);
    TwoWrites(c, t, env, b, a);
    SetsCommute(m, a.key, x, b.key, y);
    SameObjectSameState(c, t, env, a, b);
  }

  lemma SetsCommute(m: map<string, Value>, j: string, x: Value, k: string, y: Value)
    ensures m[j := x][k := y] == m[k := y][j := x] <==> j != k || x == y
  {
    var jk, kj := m[j := x][k := y], m[k := y][j := x];
    if j == k {
      assert jk[j] == y && kj[j] == x;
      if x == y { assert jk == kj; }
    } else {
      assert jk == kj;
    }
  }

  lemma SameObjectSameState(c: ClientSpec.State, t: Target, env: Env, a: KeyWrite, b: KeyWrite)
    requires ServerOk(c.server) && t.Ref() in c.server.objects
    requires !env.fails(GetCall(t.Ref())) && !env.fails(UpdateCall(t.Ref()))
    ensures
      var ab, ba := Updated(Updated(c, t, env, a), t, env, b), Updated(Updated(c, t, env, b), t, env, a);
      && t.Ref() in ab.server.objects && t.Ref() in ba.server.objects
      && (ab == ba <==> ab.server.objects[t.Ref()] == ba.server.objects[t.Ref()])
  {
  }

  /** All of it rests on the versions: on a server that hands out objects without one, two
      writers that overlap can lose the first write. */
  lemma UnversionedLosesWrite() returns (t: Target, r: Race, moves: seq<Move>)
    ensures Fair(t, r, moves) && r.held == map[] && t.Ref() in r.server.objects
    ensures Log(t, r, moves) == [Wrote(KeyWrite("a", [])), Wrote(KeyWrite("b", []))]
    ensures
      var server := RaceAfter(t, r, moves).server;
      t.Ref() in server.objects && "a" !in FieldsOf(server.objects[t.Ref()].data)
  {
    t := Target("ns", ResourceInfo("", "v1", "configmaps", "ConfigMap"), "cm");
    var obj := Object("cm", None, 0, Absent, 0);
    var env := Env(0, call => false, lists => lists, names => []);
    r := Race(Server({}, [], map[t.Ref() := obj], map[], 0), map[]);
    var a, b := KeyWrite("a", []), KeyWrite("b", []);
    moves := [Begin(1, env, a), Begin(2, env, b), Commit(1, env), Commit(2, env)];
    FourMoves(t, r, moves);
    var r2 := Race(r.server, map[1 := Pending(obj, a), 2 := Pending(obj, b)]);
    assert Next(t, Next(t, r, moves[0]), moves[1]) == r2;
  }

  lemma FourMoves(t: Target, r: Race, moves: seq<Move>)
    requires |moves| == 4 && forall i :: 0 <= i < 4 ==> !moves[i].Others?
    ensures
      var r1 := Next(t, r, moves[0]);
      var r2 := Next(t, r1, moves[1]);
      var r3 := Next(t, r2, moves[2]);
      && Fair(t, r, moves)
      && RaceAfter(t, r, moves) == Next(t, r3, moves[3])
      && Log(t, r, moves) ==
           LoggedBy(t, r, moves[0]) + LoggedBy(t, r1, moves[1]) + LoggedBy(t, r2, moves[2]) + LoggedBy(t, r3, moves[3])
  {
    var r2 := Next(t, Next(t, r, moves[0]), moves[1]);
    TwoMoves(t, r, moves);
    assert moves[2..][0] == moves[2] && moves[2..][1] == moves[3] && moves[2..][2..] == [];
    TwoMoves(t, r2, moves[2..]);
  }

  lemma TwoMoves(t: Target, r: Race, moves: seq<Move>)
    requires |moves| >= 2 && !moves[0].Others? && !moves[1].Others?
    ensures
      var r1 := Next(t, r, moves[0]);
      var r2 := Next(t, r1, moves[1]);
      && Fair(t, r, moves) == Fair(t, r2, moves[2..])
      && RaceAfter(t, r, moves) == RaceAfter(t, r2, moves[2..])
      && Log(t, r, moves) == LoggedBy(t, r, moves[0]) + LoggedBy(t, r1, moves[1]) + Log(t, r2, moves[2..])
  {
    assert moves[1..][1..] == moves[2..];
    OneMove(t, r, moves);
    OneMove(t, Next(t, r, moves[0]), moves[1..]);
  }

  lemma OneMove(t: Target, r: Race, moves: seq<Move>)
    requires |moves| > 0
    ensures RaceAfter(t, r, moves) == RaceAfter(t, Next(t, r, moves[0]), moves[1..])
    ensures Log(t, r, moves) == LoggedBy(t, r, moves[0]) + Log(t, Next(t, r, moves[0]), moves[1..])
    ensures !moves[0].Others? ==> Fair(t, r, moves) == Fair(t, Next(t, r, moves[0]), moves[1..])
  {
  }
}
