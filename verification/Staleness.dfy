/** How old a file's content can be, through two caches, and whose content it is. */
module Staleness {
  import opened Prelude
  import opened Api
  import opened Caching
  import opened Keys
  import opened ClientSpec
  import opened TableSpec
  import opened FsSpec
  import opened Served
  import opened Runs
  import opened Naming

  /** The server as it stood at one instant. */
  datatype Snap = Snap(now: int, server: Server)

  /** What a run has gone through: the server at each event, and the node that each inode
      number was given to; moreover the group and version that the entry under each cache
      key was asked for, and that each inode's content was fetched for. */
  datatype Past = Past(
    snaps: seq<Snap>,
    born: map<nat, Inode>,
    askedAs: map<string, GroupVersion>,
    fetchedAs: map<nat, GroupVersion>)

  function VersionOf(ri: ResourceInfo): GroupVersion { GroupVersion(ri.group, ri.version) }

  /** A question that reaches the server and is answered labels the entry it leaves. */
  function Labels(cfg: FsConfig, askedAs: map<string, GroupVersion>, c: ClientSpec.State, env: Env, q: Query)
    : map<string, GroupVersion>
  {
    if Hit(c.cache, Key(q.view), env.now).None? && Fetch(c.server, cfg.client.lib, env, q).Ok?
    then askedAs[Key(q.view) := VersionOf(q.ri)] else askedAs
  }

  function Labelled(cfg: FsConfig, past: Past, s: FsState, e: Event): Past {
    match Asked(s, e.env, e.op)
    case None => past
    case Some(q) =>
      var askedAs := Labels(cfg, past.askedAs, s.client, e.env, q);
      var fetches := (e.op.DoGetAttr? || e.op.DoOpen?) && Key(q.view) in askedAs;
      past.(askedAs := askedAs,
            fetchedAs := if fetches then past.fetchedAs[e.op.id := askedAs[Key(q.view)]] else past.fetchedAs)
  }

  function Remember(cfg: FsConfig, past: Past, s: FsState, e: Event): Past {
    var s' := Step(cfg, s, e.env, e.op);
    var added := map x | x in s'.table.inodes && x !in past.born :: s'.table.inodes[x];
    Labelled(cfg, past, s, e).(snaps := past.snaps + [Snap(e.env.now, s.client.server)], born := past.born + added)
  }

  function PastOf(cfg: FsConfig, s: FsState, past: Past, run: seq<Event>): Past
    decreases |run|
  {
    if run == [] then past
    else PastOf(cfg, Step(cfg, s, run[0].env, run[0].op), Remember(cfg, past, s, run[0]), run[1..])
  }

  // ---- The server's view, with no caches and no failures ----

  function Calm(): Env { Env(0, (c: Call) => false, (lists: seq<ApiList>) => lists, (s: set<string>) => []) }

  function Truth(server: Server, cfg: FsConfig, node: Inode): Result<Bytes, Error> {
    Shown(server, cfg.client.lib, Calm(), node)
  }

  /** The node of the same kind, namespace, type, object and file under another group and
      version. */
  function As(node: Inode, g: GroupVersion): Inode { node.(group := g.group, version := g.version) }

  predicate IsContent(v: View) { !v.Namespaces? && !v.Resources? && !v.Listing? }

  function QueryAs(v: View, g: GroupVersion): Query
    requires IsContent(v)
  {
    if v.Logs? then Query(v, NoInfo()) else Query(v, ResourceInfo(g.group, g.version, v.res, ""))
  }

  /** Logs are asked for without naming a resource. */
  ghost predicate Allowed(gv: Versions, v: View, g: GroupVersion)
    requires IsContent(v)
  {
    v.Logs? || gv(v.res, g)
  }

  lemma QueriesAs(gv: Versions, n: Inode)
    requires NodeNamed(gv, n)
    ensures NodeQuery(n).Ok? ==>
      var q := NodeQuery(n).value;
      IsContent(q.view) && WellNamed(q.view) && q == QueryAs(q.view, VersionOf(q.ri))
          && Allowed(gv, q.view, VersionOf(q.ri))
    ensures DirQuery(n).Some? ==> WellNamed(DirQuery(n).value.view)
    ensures DirQuery(n).Some? && IsContent(DirQuery(n).value.view) ==>
      var q := DirQuery(n).value;
      q == QueryAs(q.view, VersionOf(q.ri)) && Allowed(gv, q.view, VersionOf(q.ri))
  {
  }

  // ---- Invariants ----

  /** At instant at the server answered the question with value. */
  ghost predicate Seen(cfg: FsConfig, snaps: seq<Snap>, q: Query, at: int, value: CacheValue) {
    exists i :: 0 <= i < |snaps| && snaps[i].now == at && Fetch(snaps[i].server, cfg.client.lib, Calm(), q) == Ok(value)
  }

  /** The entry under a content view's key is the server's answer for that view, under the
      group and version of its label. */
  ghost predicate EntrySeen(gv: Versions, cfg: FsConfig, past: Past, v: View, e: Entry<CacheValue>)
    requires IsContent(v)
  {
    && Key(v) in past.askedAs
    && Allowed(gv, v, past.askedAs[Key(v)])
    && Seen(cfg, past.snaps, QueryAs(v, past.askedAs[Key(v)]), e.expiresAt - cfg.client.ttl, e.value)
  }

  ghost predicate CacheSeen(gv: Versions, cfg: FsConfig, past: Past, cache: Entries) {
    forall v {:trigger Key(v)} :: WellNamed(v) && IsContent(v) && Key(v) in cache ==>
      EntrySeen(gv, cfg, past, v, cache[Key(v)])
  }

  ghost predicate IsErrorText(cfg: FsConfig, data: Bytes) {
    exists e :: data == cfg.client.lib.errorText(e)
  }

  /** data is the node's content on the server at an instant at most slack before at. */
  ghost predicate TrueWithin(cfg: FsConfig, snaps: seq<Snap>, node: Inode, data: Bytes, at: int, slack: int) {
    exists i :: 0 <= i < |snaps| && snaps[i].now <= at <= snaps[i].now + slack
        && Truth(snaps[i].server, cfg, node) == Ok(data)
  }

  /** data is the node's content on the server at an instant less than bound before now. */
  ghost predicate TrueRecently(cfg: FsConfig, snaps: seq<Snap>, node: Inode, data: Bytes, now: int, bound: int) {
    exists i :: 0 <= i < |snaps| && 0 <= now - snaps[i].now < bound && Truth(snaps[i].server, cfg, node) == Ok(data)
  }

  function Slack(cfg: FsConfig): int { Max(0, cfg.client.ttl) }

  /** data is an error's text, or was served for node under the group and version g. */
  ghost predicate ServedFor(gv: Versions, cfg: FsConfig, snaps: seq<Snap>, node: Inode, g: GroupVersion, data: Bytes,
      at: int) {
    || IsErrorText(cfg, data)
    || (NodeQuery(node).Ok? && IsContent(NodeQuery(node).value.view) && Allowed(gv, NodeQuery(node).value.view, g)
        && TrueWithin(cfg, snaps, As(node, g), data, at, Slack(cfg)))
  }

  /** Each remembered content was fetched for the one node ever given its number. */
  ghost predicate ContentSeen(gv: Versions, cfg: FsConfig, past: Past, content: map<nat, Cached>) {
    forall id :: id in content ==> ContentEntrySeen(gv, cfg, past, id, content[id])
  }

  ghost predicate ContentEntrySeen(gv: Versions, cfg: FsConfig, past: Past, id: nat, c: Cached) {
    && id in past.born
    && (IsErrorText(cfg, c.data)
        || (id in past.fetchedAs && ServedFor(gv, cfg, past.snaps, past.born[id], past.fetchedAs[id], c.data,
            c.fetchedAt)))
  }

  ghost predicate BornOk(past: Past, s: FsState) {
    && (forall x :: x in s.table.inodes ==> x in past.born && past.born[x] == s.table.inodes[x])
    && (forall h :: h in s.files ==>
          s.files[h].node.id in past.born && past.born[s.files[h].node.id] == s.files[h].node)
    && (forall x :: x in past.born ==> x < s.table.next)
  }

  ghost predicate Consistent(gv: Versions, cfg: FsConfig, past: Past, s: FsState, clock: int) {
    && Inv(s) && Named(gv, s) && BornOk(past, s)
    && CacheSeen(gv, cfg, past, s.client.cache)
    && ContentSeen(gv, cfg, past, s.content)
    && (forall i :: 0 <= i < |past.snaps| ==> past.snaps[i].now <= clock)
  }

  // ---- Growing histories ----

  /** past' has seen what past has, and labels the same. */
  ghost predicate Extends(past: Past, past': Past) {
    && |past.snaps| <= |past'.snaps| && past'.snaps[..|past.snaps|] == past.snaps
    && (forall x :: x in past.born ==> x in past'.born && past'.born[x] == past.born[x])
    && past'.askedAs == past.askedAs && past'.fetchedAs == past.fetchedAs
  }

  lemma SeenLonger(cfg: FsConfig, past: Past, past': Past, q: Query, at: int, value: CacheValue)
    requires Extends(past, past') && Seen(cfg, past.snaps, q, at, value)
    ensures Seen(cfg, past'.snaps, q, at, value)
  {
    var i :| 0 <= i < |past.snaps| && past.snaps[i].now == at
        && Fetch(past.snaps[i].server, cfg.client.lib, Calm(), q) == Ok(value);
    assert past'.snaps[i] == past.snaps[i];
  }

  lemma CacheLonger(gv: Versions, cfg: FsConfig, past: Past, past': Past, cache: Entries)
    requires Extends(past, past') && CacheSeen(gv, cfg, past, cache)
    ensures CacheSeen(gv, cfg, past', cache)
  {
    forall v {:trigger Key(v)} | WellNamed(v) && IsContent(v) && Key(v) in cache
      ensures EntrySeen(gv, cfg, past', v, cache[Key(v)])
    {
      var e := cache[Key(v)];
      SeenLonger(cfg, past, past', QueryAs(v, past.askedAs[Key(v)]), e.expiresAt - cfg.client.ttl, e.value);
    }
  }

  lemma TrueLonger(cfg: FsConfig, past: Past, past': Past, node: Inode, data: Bytes, at: int, slack: int)
    requires Extends(past, past') && TrueWithin(cfg, past.snaps, node, data, at, slack)
    ensures TrueWithin(cfg, past'.snaps, node, data, at, slack)
  {
    var i :| 0 <= i < |past.snaps| && past.snaps[i].now <= at <= past.snaps[i].now + slack
        && Truth(past.snaps[i].server, cfg, node) == Ok(data);
    assert past'.snaps[i] == past.snaps[i];
  }

  lemma ContentLonger(gv: Versions, cfg: FsConfig, past: Past, past': Past, content: map<nat, Cached>)
    requires Extends(past, past') && ContentSeen(gv, cfg, past, content)
    ensures ContentSeen(gv, cfg, past', content)
  {
    forall id | id in content ensures ContentEntrySeen(gv, cfg, past', id, content[id]) {
      assert ContentEntrySeen(gv, cfg, past, id, content[id]);
      if !IsErrorText(cfg, content[id].data) {
        TrueLonger(cfg, past, past', As(past.born[id], past.fetchedAs[id]), content[id].data, content[id].fetchedAt,
            Slack(cfg));
      }
    }
  }

  // ---- Reads ----

  /** The history's last snap is the server as it is now. */
  ghost predicate UpToDate(past: Past, server: Server, now: int) {
    && |past.snaps| > 0 && past.snaps[|past.snaps| - 1] == Snap(now, server)
    && forall i :: 0 <= i < |past.snaps| ==> past.snaps[i].now <= now
  }

  lemma FetchedSeen(cfg: FsConfig, past: Past, server: Server, env: Env, v: View, g: GroupVersion)
    requires UpToDate(past, server, env.now)
    requires IsContent(v) && Fetch(server, cfg.client.lib, env, QueryAs(v, g)).Ok?
    ensures Seen(cfg, past.snaps, QueryAs(v, g), env.now, Fetch(server, cfg.client.lib, env, QueryAs(v, g)).value)
  {
    assert Fetch(server, cfg.client.lib, Calm(), QueryAs(v, g)) == Fetch(server, cfg.client.lib, env, QueryAs(v, g));
  }

  /** Asking one question leaves the account of every other view alone. */
  lemma AskSeen(gv: Versions, cfg: FsConfig, past: Past, c: ClientSpec.State, env: Env, q: Query)
    requires CacheSeen(gv, cfg, past, c.cache) && WellNamed(q.view) && UpToDate(past, c.server, env.now)
    requires IsContent(q.view) ==> q == QueryAs(q.view, VersionOf(q.ri)) && Allowed(gv, q.view, VersionOf(q.ri))
    ensures CacheSeen(gv, cfg, past.(askedAs := Labels(cfg, past.askedAs, c, env, q)),
        Ask(c, cfg.client, env, q).0.cache)
  {
    var past' := past.(askedAs := Labels(cfg, past.askedAs, c, env, q));
    var cache := Ask(c, cfg.client, env, q).0.cache;
    if IsContent(q.view) && Hit(c.cache, Key(q.view), env.now).None? && Fetch(c.server, cfg.client.lib, env, q).Ok? {
      FetchedSeen(cfg, past, c.server, env, q.view, VersionOf(q.ri));
    }
    forall v {:trigger Key(v)} | WellNamed(v) && IsContent(v) && Key(v) in cache
      ensures EntrySeen(gv, cfg, past', v, cache[Key(v)])
    {
      KeyInjective(v, q.view);
      if Key(v) in c.cache {
        assert EntrySeen(gv, cfg, past, v, c.cache[Key(v)]);
      }
    }
  }

  /** What a question is answered with was the server's answer to it, under the label that
      its key then has, no more than the cache's time to live ago. */
  lemma AnswerSeen(gv: Versions, cfg: FsConfig, past: Past, c: ClientSpec.State, env: Env, q: Query)
    returns (at: int)
    requires CacheSeen(gv, cfg, past, c.cache) && WellNamed(q.view) && UpToDate(past, c.server, env.now)
    requires IsContent(q.view) && q == QueryAs(q.view, VersionOf(q.ri)) && Allowed(gv, q.view, VersionOf(q.ri))
    requires Ask(c, cfg.client, env, q).1.Ok?
    ensures
      var askedAs := Labels(cfg, past.askedAs, c, env, q);
      && Key(q.view) in askedAs && Allowed(gv, q.view, askedAs[Key(q.view)])
      && Seen(cfg, past.snaps, QueryAs(q.view, askedAs[Key(q.view)]), at, Ask(c, cfg.client, env, q).1.value)
      && (at == env.now || at + cfg.client.ttl >= env.now)
  {
    if Hit(c.cache, Key(q.view), env.now).Some? {
      assert EntrySeen(gv, cfg, past, q.view, c.cache[Key(q.view)]);
      at := c.cache[Key(q.view)].expiresAt - cfg.client.ttl;
    } else {
      FetchedSeen(cfg, past, c.server, env, q.view, VersionOf(q.ri));
      at := env.now;
    }
  }

  lemma TruthAs(server: Server, cfg: FsConfig, node: Inode, g: GroupVersion)
    requires NodeQuery(node).Ok?
    ensures
      var v := NodeQuery(node).value.view;
      IsContent(v) && Truth(server, cfg, As(node, g)) ==
          PartFor(node, Fetch(server, cfg.client.lib, Calm(), QueryAs(v, g)))
  {
  }

  /** Content that the provider hands out was true of the server no more than the cache's
      time to live ago, for the node under the label of its view's key. */
  lemma GetContentTrue(gv: Versions, cfg: FsConfig, past: Past, c: ClientSpec.State, env: Env, node: Inode)
    requires CacheSeen(gv, cfg, past, c.cache) && NodeNamed(gv, node) && UpToDate(past, c.server, env.now)
    requires GetContent(c, cfg.client, env, node).1.Ok?
    ensures NodeQuery(node).Ok?
    ensures
      var q := NodeQuery(node).value;
      var askedAs := Labels(cfg, past.askedAs, c, env, q);
      Key(q.view) in askedAs
      && ServedFor(gv, cfg, past.snaps, node, askedAs[Key(q.view)], GetContent(c, cfg.client, env, node).1.value,
          env.now)
  {
    var q := NodeQuery(node).value;
    QueriesAs(gv, node);
    var a := Ask(c, cfg.client, env, q).1;
    var at := AnswerSeen(gv, cfg, past, c, env, q);
    var g := Labels(cfg, past.askedAs, c, env, q)[Key(q.view)];
    var i :| 0 <= i < |past.snaps| && past.snaps[i].now == at
        && Fetch(past.snaps[i].server, cfg.client.lib, Calm(), QueryAs(q.view, g)) == Ok(a.value);
    TruthAs(past.snaps[i].server, cfg, node, g);
  }

  // ---- Steps ----

  predicate Opens(s: FsState, e: Event, node: Inode) {
    (e.op.DoGetAttr? || e.op.DoOpen?) && e.op.id == node.id && node.id in s.table.inodes
        && s.table.inodes[node.id] == node
  }

  lemma AskedLabels(gv: Versions, cfg: FsConfig, past: Past, past': Past, cache: Entries)
    requires CacheSeen(gv, cfg, past, cache) && past'.snaps == past.snaps && past'.askedAs == past.askedAs
    ensures CacheSeen(gv, cfg, past', cache)
  {
    forall v {:trigger Key(v)} | WellNamed(v) && IsContent(v) && Key(v) in cache
      ensures EntrySeen(gv, cfg, past', v, cache[Key(v)])
    {
      assert EntrySeen(gv, cfg, past, v, cache[Key(v)]);
    }
  }

  lemma FetchedEntry(gv: Versions, cfg: FsConfig, past: Past, s: FsState, e: Event, node: Inode)
    requires CacheSeen(gv, cfg, past, s.client.cache) && UpToDate(past, s.client.server, e.env.now)
        && NodeNamed(gv, node)
    requires node.id in past.born && past.born[node.id] == node
    requires Opens(s, e, node) && !Fresh(s, node.id, e.env.now)
    ensures
      var c := Cached(FetchContent(s, cfg, e.env, node).1, e.env.now);
      ContentEntrySeen(gv, cfg, Labelled(cfg, past, s, e), node.id, c)
  {
    var r := GetContent(s.client, cfg.client, e.env, node).1;
    if r.Ok? {
      GetContentTrue(gv, cfg, past, s.client, e.env, node);
    } else {
      assert IsErrorText(cfg, cfg.client.lib.errorText(r.error));
    }
  }

  /** Labelling one inode's content anew does not touch the others'. */
  lemma Relabelled(gv: Versions, cfg: FsConfig, past: Past, past': Past, content: map<nat, Cached>, id: nat)
    requires ContentSeen(gv, cfg, past, content) && past'.snaps == past.snaps && past'.born == past.born
    requires forall x :: x != id ==> (x in past.fetchedAs <==> x in past'.fetchedAs)
    requires forall x :: x != id && x in past.fetchedAs ==> past'.fetchedAs[x] == past.fetchedAs[x]
    ensures forall x :: x in content && x != id ==> ContentEntrySeen(gv, cfg, past', x, content[x])
  {
    forall x | x in content && x != id ensures ContentEntrySeen(gv, cfg, past', x, content[x]) {
      assert ContentEntrySeen(gv, cfg, past, x, content[x]);
    }
  }

  lemma OtherLabels(gv: Versions, cfg: FsConfig, past: Past, askedAs: map<string, GroupVersion>,
      content: map<nat, Cached>)
    requires ContentSeen(gv, cfg, past, content)
    ensures ContentSeen(gv, cfg, past.(askedAs := askedAs), content)
  {
    forall id | id in content ensures ContentEntrySeen(gv, cfg, past.(askedAs := askedAs), id, content[id]) {
      assert ContentEntrySeen(gv, cfg, past, id, content[id]);
    }
  }

  lemma FewerSeen(gv: Versions, cfg: FsConfig, past: Past, cache: Entries, cache': Entries)
    requires CacheSeen(gv, cfg, past, cache)
    requires forall k :: k in cache' ==> k in cache && cache'[k] == cache[k]
    ensures CacheSeen(gv, cfg, past, cache')
  {
    forall v {:trigger Key(v)} | WellNamed(v) && IsContent(v) && Key(v) in cache'
      ensures EntrySeen(gv, cfg, past, v, cache'[Key(v)])
    {
      assert Key(v) in cache;
    }
  }

  /** A live node is properly named, has its own number, and was born with it. */
  ghost predicate Known(gv: Versions, past: Past, s: FsState, id: nat) {
    id in s.table.inodes ==>
      var n := s.table.inodes[id];
      n.id == id && NodeNamed(gv, n) && id in past.born && past.born[id] == n
  }

  /** The client's cache after one step, against the history that already holds the step's
      snap. */
  lemma CacheStaysSeen(gv: Versions, cfg: FsConfig, past: Past, s: FsState, e: Event)
    requires CacheSeen(gv, cfg, past, s.client.cache)
    requires UpToDate(past, s.client.server, e.env.now) && forall id :: Known(gv, past, s, id)
    ensures CacheSeen(gv, cfg, Labelled(cfg, past, s, e), Step(cfg, s, e.env, e.op).client.cache)
  {
    forall x | x in s.table.inodes ensures s.table.inodes[x].id == x {
      assert Known(gv, past, s, x);
    }
    CacheAfter(cfg, s, e);
    var cache := Step(cfg, s, e.env, e.op).client.cache;
    match Asked(s, e.env, e.op)
    case None => FewerSeen(gv, cfg, past, s.client.cache, cache);
    case Some(q) =>
      AskedAs(gv, past, s, e);
      AskSeen(gv, cfg, past, s.client, e.env, q);
      AskedLabels(gv, cfg, past.(askedAs := Labels(cfg, past.askedAs, s.client, e.env, q)), Labelled(cfg, past, s, e),
          cache);
  }

  lemma AskedAs(gv: Versions, past: Past, s: FsState, e: Event)
    requires Asked(s, e.env, e.op).Some? && forall id :: Known(gv, past, s, id)
    ensures
      var q := Asked(s, e.env, e.op).value;
      && WellNamed(q.view)
      && (IsContent(q.view) ==> q == QueryAs(q.view, VersionOf(q.ri)) && Allowed(gv, q.view, VersionOf(q.ri)))
  {
    var id := if e.op.DoLookup? then e.op.p else e.op.id;
    assert Known(gv, past, s, id);
    QueriesAs(gv, s.table.inodes[id]);
  }

  /** And what the filesystem remembers. */
  lemma ContentStaysSeen(gv: Versions, cfg: FsConfig, past: Past, s: FsState, e: Event)
    requires CacheSeen(gv, cfg, past, s.client.cache) && ContentSeen(gv, cfg, past, s.content)
    requires UpToDate(past, s.client.server, e.env.now) && forall id :: Known(gv, past, s, id)
    ensures ContentSeen(gv, cfg, Labelled(cfg, past, s, e), Step(cfg, s, e.env, e.op).content)
  {
    ContentAfter(cfg, s, e);
    match Fetches(s, e.op)
    case None => OtherLabels(gv, cfg, past, Labelled(cfg, past, s, e).askedAs, s.content);
    case Some(n) =>
      assert Known(gv, past, s, e.op.id);
      FetchStaysSeen(gv, cfg, past, s, e, n);
  }

  lemma FetchStaysSeen(gv: Versions, cfg: FsConfig, past: Past, s: FsState, e: Event, n: Inode)
    requires CacheSeen(gv, cfg, past, s.client.cache) && ContentSeen(gv, cfg, past, s.content)
    requires UpToDate(past, s.client.server, e.env.now) && NodeNamed(gv, n)
    requires n.id in past.born && past.born[n.id] == n
    requires Opens(s, e, n)
    ensures ContentSeen(gv, cfg, Labelled(cfg, past, s, e), FetchContent(s, cfg, e.env, n).0.content)
  {
    var past' := Labelled(cfg, past, s, e);
    if Fresh(s, n.id, e.env.now) {
      OtherLabels(gv, cfg, past, past'.askedAs, s.content);
    } else {
      Relabelled(gv, cfg, past, past', s.content, n.id);
      FetchedEntry(gv, cfg, past, s, e, n);
    }
  }

  lemma BornStep(cfg: FsConfig, past: Past, s: FsState, e: Event)
    requires Inv(s) && BornOk(past, s)
    ensures BornOk(Remember(cfg, past, s, e), Step(cfg, s, e.env, e.op))
  {
    NumbersGiven(cfg, s, e);
    HandlesBorn(cfg, s, e);
  }

  lemma NumbersGiven(cfg: FsConfig, s: FsState, e: Event)
    requires Inv(s)
    ensures
      var t' := Step(cfg, s, e.env, e.op).table;
      Later(s.table, t') && forall x :: x in t'.inodes ==> x < t'.next
  {
    var s' := Step(cfg, s, e.env, e.op);
    StepKeepsInv(cfg, s, e.env, e.op);
    forall x | x in s'.table.inodes ensures x < s'.table.next {
      assert NodeLinked(s'.table, x);
    }
  }

  /** The caches after one step, against the history extended by that step. */
  lemma CachesRemembered(gv: Versions, cfg: FsConfig, past: Past, s: FsState, e: Event, clock: int)
    requires Consistent(gv, cfg, past, s, clock) && clock <= e.env.now
    ensures
      var past', s' := Remember(cfg, past, s, e), Step(cfg, s, e.env, e.op);
      CacheSeen(gv, cfg, past', s'.client.cache) && ContentSeen(gv, cfg, past', s'.content)
  {
    var s' := Step(cfg, s, e.env, e.op);
    var mid := past.(snaps := past.snaps + [Snap(e.env.now, s.client.server)]);
    CacheLonger(gv, cfg, past, mid, s.client.cache);
    ContentLonger(gv, cfg, past, mid, s.content);
    AllKnown(gv, cfg, past, s, clock, mid);
    CacheStaysSeen(gv, cfg, mid, s, e);
    ContentStaysSeen(gv, cfg, mid, s, e);
    BornLater(cfg, past, s, e);
    CacheLonger(gv, cfg, Labelled(cfg, mid, s, e), Remember(cfg, past, s, e), s'.client.cache);
    ContentLonger(gv, cfg, Labelled(cfg, mid, s, e), Remember(cfg, past, s, e), s'.content);
  }

  lemma AllKnown(gv: Versions, cfg: FsConfig, past: Past, s: FsState, clock: int, past': Past)
    requires Consistent(gv, cfg, past, s, clock) && past'.born == past.born
    ensures forall id :: Known(gv, past', s, id)
  {
    forall id ensures Known(gv, past', s, id) {
      if id in s.table.inodes {
        assert NodeLinked(s.table, id);
      }
    }
  }

  /** Remembering is labelling with the snap at hand, and then the newborn nodes. */
  lemma BornLater(cfg: FsConfig, past: Past, s: FsState, e: Event)
    ensures
      var mid := past.(snaps := past.snaps + [Snap(e.env.now, s.client.server)]);
      Extends(Labelled(cfg, mid, s, e), Remember(cfg, past, s, e))
  {
  }

  lemma StepConsistent(gv: Versions, cfg: FsConfig, past: Past, s: FsState, e: Event, clock: int)
    requires Consistent(gv, cfg, past, s, clock) && EventNamed(gv, s, e) && clock <= e.env.now
    ensures Consistent(gv, cfg, Remember(cfg, past, s, e), Step(cfg, s, e.env, e.op), e.env.now)
  {
    StepKeepsInv(cfg, s, e.env, e.op);
    StepNamed(gv, cfg, s, e);
    BornStep(cfg, past, s, e);
    CachesRemembered(gv, cfg, past, s, e, clock);
    SnapsTimely(cfg, past, s, e, clock);
  }

  lemma SnapsTimely(cfg: FsConfig, past: Past, s: FsState, e: Event, clock: int)
    requires clock <= e.env.now && forall i :: 0 <= i < |past.snaps| ==> past.snaps[i].now <= clock
    ensures
      var snaps := Remember(cfg, past, s, e).snaps;
      forall i :: 0 <= i < |snaps| ==> snaps[i].now <= e.env.now
  {
  }

  /** Clock readings do not go back, and everybody obeys the naming rules. */
  ghost predicate Timely(gv: Versions, cfg: FsConfig, s: FsState, run: seq<Event>, clock: int)
    decreases |run|
  {
    run == [] ||
    (EventNamed(gv, s, run[0]) && clock <= run[0].env.now
     && Timely(gv, cfg, Step(cfg, s, run[0].env, run[0].op), run[1..], run[0].env.now))
  }

  function ClockAfter(run: seq<Event>, clock: int): int {
    if run == [] then clock else run[|run| - 1].env.now
  }

  lemma RunUnfolds(cfg: FsConfig, s: FsState, past: Past, run: seq<Event>, clock: int)
    requires run != []
    ensures
      var s' := Step(cfg, s, run[0].env, run[0].op);
      && Run(cfg, s, run) == Run(cfg, s', run[1..])
      && PastOf(cfg, s, past, run) == PastOf(cfg, s', Remember(cfg, past, s, run[0]), run[1..])
      && ClockAfter(run, clock) == ClockAfter(run[1..], run[0].env.now)
  {
  }

  lemma {:induction false} RunConsistent(gv: Versions, cfg: FsConfig, past: Past, s: FsState, run: seq<Event>,
      clock: int)
    requires Consistent(gv, cfg, past, s, clock) && Timely(gv, cfg, s, run, clock)
    ensures Consistent(gv, cfg, PastOf(cfg, s, past, run), Run(cfg, s, run), ClockAfter(run, clock))
    decreases |run|
  {
    if run != [] {
      var e := run[0];
      StepConsistent(gv, cfg, past, s, e, clock);
      RunConsistent(gv, cfg, Remember(cfg, past, s, e), Step(cfg, s, e.env, e.op), run[1..], e.env.now);
      RunUnfolds(cfg, s, past, run, clock);
    }
  }

  function NoPast(now: int): Past { Past([], map[ROOT := RootInode(now)], map[], map[]) }

  lemma StartConsistent(gv: Versions, cfg: FsConfig, server: Server, now: int)
    requires ServerNamed(server)
    ensures Consistent(gv, cfg, NoPast(now), Start(server, now), now)
  {
    StartInv(server, now);
  }

  /** What a run from the start has gone through. */
  function History(cfg: FsConfig, server: Server, now: int, run: seq<Event>): Past {
    PastOf(cfg, Start(server, now), NoPast(now), run)
  }

  /** The group and version that a fetch of this node is served under. Before the fetch one
      can tell: those of the live entry under the node's key, if there is one. */
  function ServedAs(past: Past, s: FsState, env: Env, node: Inode): GroupVersion {
    if Fresh(s, node.id, env.now) && node.id in past.fetchedAs then past.fetchedAs[node.id]
    else
      match NodeQuery(node)
      case Err(_) => VersionOf(InfoFor(node))
      case Ok(q) =>
        if Hit(s.client.cache, Key(q.view), env.now).Some? && Key(q.view) in past.askedAs then past.askedAs[Key(q.view)]
        else VersionOf(q.ri)
  }

  /** Composed staleness bound: after any run, whatever discovery answered in it, the bytes
      a fetch returns for a node are the text of an error, or the server's content, at some
      instant of the run less than the content's TTL and the cache's TTL together ago, for
      the node of the same kind, namespace, type, object and file under the group and
      version of the entry that serves it. If those are the node's own, it is the server's
      content for that very node. */
  lemma StalenessBound(cfg: FsConfig, server: Server, now: int, run: seq<Event>, env: Env, id: nat)
    requires ServerNamed(server) && Timely(AnyVersion(), cfg, Start(server, now), run, now)
        && ClockAfter(run, now) <= env.now
    requires id in Run(cfg, Start(server, now), run).table.inodes
    ensures
      var s, past := Run(cfg, Start(server, now), run), History(cfg, server, now, run);
      var snaps := past.snaps + [Snap(env.now, s.client.server)];
      var node := s.table.inodes[id];
      var data, g := FetchContent(s, cfg, env, node).1, ServedAs(past, s, env, node);
      && (IsErrorText(cfg, data) || TrueRecently(cfg, snaps, As(node, g), data, env.now, CONTENT_TTL + Slack(cfg)))
      && (g == VersionOf(InfoFor(node)) ==>
            IsErrorText(cfg, data) || TrueRecently(cfg, snaps, node, data, env.now, CONTENT_TTL + Slack(cfg)))
  {
    StartConsistent(AnyVersion(), cfg, server, now);
    RunConsistent(AnyVersion(), cfg, NoPast(now), Start(server, now), run, now);
    FetchBound(AnyVersion(), cfg, History(cfg, server, now, run), Run(cfg, Start(server, now), run), env, id,
        ClockAfter(run, now));
  }

  /** With stable discovery the condition always holds. */
  lemma StableBound(gv: Assignment, cfg: FsConfig, server: Server, now: int, run: seq<Event>, env: Env, id: nat)
    requires ServerNamed(server) && Timely(Stable(gv), cfg, Start(server, now), run, now)
        && ClockAfter(run, now) <= env.now
    requires id in Run(cfg, Start(server, now), run).table.inodes
    ensures
      var s := Run(cfg, Start(server, now), run);
      var snaps := History(cfg, server, now, run).snaps + [Snap(env.now, s.client.server)];
      var data := FetchContent(s, cfg, env, s.table.inodes[id]).1;
      IsErrorText(cfg, data) || TrueRecently(cfg, snaps, s.table.inodes[id], data, env.now, CONTENT_TTL + Slack(cfg))
  {
    StartConsistent(Stable(gv), cfg, server, now);
    RunConsistent(Stable(gv), cfg, NoPast(now), Start(server, now), run, now);
    StableFetch(gv, cfg, History(cfg, server, now, run), Run(cfg, Start(server, now), run), env, id,
        ClockAfter(run, now));
  }

  lemma StableFetch(gv: Assignment, cfg: FsConfig, past: Past, s: FsState, env: Env, id: nat, clock: int)
    requires Consistent(Stable(gv), cfg, past, s, clock) && clock <= env.now && id in s.table.inodes
    ensures
      var snaps, node := past.snaps + [Snap(env.now, s.client.server)], s.table.inodes[id];
      var data := FetchContent(s, cfg, env, node).1;
      IsErrorText(cfg, data) || TrueRecently(cfg, snaps, node, data, env.now, CONTENT_TTL + Slack(cfg))
  {
    FetchBound(Stable(gv), cfg, past, s, env, id, clock);
    var snaps, node := past.snaps + [Snap(env.now, s.client.server)], s.table.inodes[id];
    var data := FetchContent(s, cfg, env, node).1;
    if !IsErrorText(cfg, data) {
      StableTruth(gv, cfg, snaps, node, ServedAs(past, s, env, node), data, env.now, CONTENT_TTL + Slack(cfg));
    }
  }

  /** Logs do not depend on the label, and with stable discovery the label is the node's. */
  lemma StableTruth(gv: Assignment, cfg: FsConfig, snaps: seq<Snap>, node: Inode, g: GroupVersion, data: Bytes,
      now: int, bound: int)
    requires NodeNamed(Stable(gv), node)
    requires NodeQuery(node).Ok? && IsContent(NodeQuery(node).value.view)
        && Allowed(Stable(gv), NodeQuery(node).value.view, g)
    requires TrueRecently(cfg, snaps, As(node, g), data, now, bound)
    ensures TrueRecently(cfg, snaps, node, data, now, bound)
  {
  }

  /** What a fetch from here would be served, and how old it is. */
  ghost predicate WellServed(gv: Versions, cfg: FsConfig, past: Past, s: FsState, env: Env, node: Inode) {
    var snaps := past.snaps + [Snap(env.now, s.client.server)];
    var data, g := FetchContent(s, cfg, env, node).1, ServedAs(past, s, env, node);
    || IsErrorText(cfg, data)
    || (NodeQuery(node).Ok? && IsContent(NodeQuery(node).value.view) && Allowed(gv, NodeQuery(node).value.view, g)
        && TrueRecently(cfg, snaps, As(node, g), data, env.now, CONTENT_TTL + Slack(cfg)))
  }

  lemma FetchBound(gv: Versions, cfg: FsConfig, past: Past, s: FsState, env: Env, id: nat, clock: int)
    requires Consistent(gv, cfg, past, s, clock) && clock <= env.now && id in s.table.inodes
    ensures WellServed(gv, cfg, past, s, env, s.table.inodes[id])
  {
    AllKnown(gv, cfg, past, s, clock, past);
    assert Known(gv, past, s, id);
    if Fresh(s, id, env.now) {
      RememberedServed(gv, cfg, past, s, env, s.table.inodes[id], clock);
    } else {
      AnsweredServed(gv, cfg, past, s, env, s.table.inodes[id], clock);
    }
  }

  lemma RememberedServed(gv: Versions, cfg: FsConfig, past: Past, s: FsState, env: Env, node: Inode, clock: int)
    requires ContentSeen(gv, cfg, past, s.content) && node.id in past.born && past.born[node.id] == node
    requires clock <= env.now && forall i :: 0 <= i < |past.snaps| ==> past.snaps[i].now <= clock
    requires Fresh(s, node.id, env.now)
    ensures WellServed(gv, cfg, past, s, env, node)
  {
    var longer := past.(snaps := past.snaps + [Snap(env.now, s.client.server)]);
    ContentLonger(gv, cfg, past, longer, s.content);
    assert ContentEntrySeen(gv, cfg, longer, node.id, s.content[node.id]);
    RecentIn(cfg, longer.snaps, As(node, ServedAs(past, s, env, node)), s.content[node.id].data,
        s.content[node.id].fetchedAt, env.now);
  }

  lemma AnsweredServed(gv: Versions, cfg: FsConfig, past: Past, s: FsState, env: Env, node: Inode, clock: int)
    requires CacheSeen(gv, cfg, past, s.client.cache) && NodeNamed(gv, node)
    requires clock <= env.now && forall i :: 0 <= i < |past.snaps| ==> past.snaps[i].now <= clock
    requires !Fresh(s, node.id, env.now)
    ensures WellServed(gv, cfg, past, s, env, node)
  {
    var longer := past.(snaps := past.snaps + [Snap(env.now, s.client.server)]);
    CacheLonger(gv, cfg, past, longer, s.client.cache);
    var r := GetContent(s.client, cfg.client, env, node).1;
    if r.Err? {
      assert IsErrorText(cfg, cfg.client.lib.errorText(r.error));
    } else {
      GetContentTrue(gv, cfg, longer, s.client, env, node);
      LabelServed(gv, cfg, past, s, env, node);
      RecentIn(cfg, longer.snaps, As(node, ServedAs(past, s, env, node)), r.value, env.now, env.now);
    }
  }

  /** The label of an answered question is the one that can be told before asking. */
  lemma LabelServed(gv: Versions, cfg: FsConfig, past: Past, s: FsState, env: Env, node: Inode)
    requires !Fresh(s, node.id, env.now) && GetContent(s.client, cfg.client, env, node).1.Ok? && NodeQuery(node).Ok?
    ensures
      var q := NodeQuery(node).value;
      var labels := Labels(cfg, past.askedAs, s.client, env, q);
      Key(q.view) in labels ==> labels[Key(q.view)] == ServedAs(past, s, env, node)
  {
  }

  lemma RecentIn(cfg: FsConfig, snaps: seq<Snap>, node: Inode, data: Bytes, at: int, now: int)
    requires now < at + CONTENT_TTL && forall i :: 0 <= i < |snaps| ==> snaps[i].now <= now
    ensures TrueWithin(cfg, snaps, node, data, at, Slack(cfg)) ==>
      TrueRecently(cfg, snaps, node, data, now, CONTENT_TTL + Slack(cfg))
  {
  }

  /** Content never crosses nodes: whatever the content cache holds under a number was
      fetched for the only node that ever had the number, even if that node is gone and
      another of the same name has taken its place, under the recorded group and version. */
  lemma ContentNeverCrosses(cfg: FsConfig, server: Server, now: int, run: seq<Event>, id: nat)
    requires ServerNamed(server) && Timely(AnyVersion(), cfg, Start(server, now), run, now)
    requires id in Run(cfg, Start(server, now), run).content
    ensures
      var s, past := Run(cfg, Start(server, now), run), History(cfg, server, now, run);
      var c := s.content[id];
      && id in past.born
      && (id in s.table.inodes ==> s.table.inodes[id] == past.born[id])
      && (IsErrorText(cfg, c.data)
          || (id in past.fetchedAs
              && TrueWithin(cfg, past.snaps, As(past.born[id], past.fetchedAs[id]), c.data, c.fetchedAt, Slack(cfg))))
  {
    StartConsistent(AnyVersion(), cfg, server, now);
    RunConsistent(AnyVersion(), cfg, NoPast(now), Start(server, now), run, now);
    var s, past := Run(cfg, Start(server, now), run), History(cfg, server, now, run);
    assert ContentEntrySeen(AnyVersion(), cfg, past, id, s.content[id]);
  }
}
