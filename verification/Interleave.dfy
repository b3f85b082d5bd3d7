/** What survives concurrency. Every critical section of the filesystem is one step, and
    the steps of any number of threads interleave freely. */
module Interleave {
  import opened Prelude
  import opened Keys
  import opened ClientSpec
  import opened TableSpec
  import opened FsSpec

  /** What the server answered, and the node that asked it; or the text of an error. */
  datatype Content = Answered(source: Inode, value: CacheValue) | Failed

  /** A thread between two critical sections of OpenFile, CreateAndOpen, GetAttr or a walk. */
  datatype Thread =
    | HasNode(node: Inode)
    | MadeNode(node: Inode)                                       // by CreateAndOpen
    | HasHandle(node: Inode, handle: nat)
    | Fetching(node: Inode, h: Option<nat>)                       // not in the content cache
    | Asking(node: Inode, h: Option<nat>)                         // nor in the client's
    | Told(node: Inode, h: Option<nat>, content: Content)         // not in the client's cache yet
    | Fetched(node: Inode, h: Option<nat>, content: Content)      // not in the content cache yet
    | Ready(node: Inode, handle: nat, data: Option<Content>)      // not inserted yet
    | Walked(id: nat)                                             // the last lookup gave this ID
    | Crashed                                                     // on a nil inode

  datatype File = File(node: Inode, data: Option<Content>)

  /** cache is the client's, keyed by view as its string keys are for colon-free names. born
      remembers every node that was ever given an ID. */
  datatype World = World(
    table: Table,
    nextHandle: nat,
    files: map<nat, File>,
    content: map<nat, Content>,
    cache: map<View, Content>,
    threads: map<nat, Thread>,
    born: map<nat, Inode>)

  datatype Act =
    | Add(p: nat, proto: Inode)                       // listing a directory somebody got hold of
    | Drop(p: nat, name: string)
    | DropStale(p: nat, keep: set<string>)
    | Get(t: nat, id: nat)
    | AddPending(t: nat, p: nat, proto: Inode)
    | AllocHandle(t: nat)
    | CheckContent(t: nat, stale: bool)
    | CheckClient(t: nat, expired: bool)
    | Answer(t: nat, value: CacheValue)
    | Fail(t: nat)
    | Remember(t: nat)
    | StoreContent(t: nat)
    | ListData(id: nat, value: CacheValue)            // listing a data directory
    | Invalidate(v: View)
    | WalkTo(t: nat, p: nat, name: string)
    | GetWalked(t: nat)
    | InsertHandle(t: nat)
    | Forget(id: nat)                                 // by a flush
    | Release(h: nat)

  function AddTo(w: World, p: nat, proto: Inode): World {
    var (table, child) := AddChild(w.table, p, proto);
    w.(table := table, born := if table == w.table then w.born else w.born[child.id := child])
  }

  function WithThread(w: World, t: nat, th: Thread): World { w.(threads := w.threads[t := th]) }

  function Stopped(w: World, t: nat): World { w.(threads := w.threads - {t}) }

  /** Once content is there, an open goes on to insert its handle; GetAttr is done. */
  function GotContent(w: World, t: nat, node: Inode, h: Option<nat>, c: Content): World {
    match h
    case Some(handle) => WithThread(w, t, Ready(node, handle, Some(c)))
    case None => Stopped(w, t)
  }

  // One critical section each; a step that its thread is not ready for changes nothing.

  function WithHandle(th: Thread, h: nat): Thread {
    match th
    case HasNode(node) => HasHandle(node, h)
    case MadeNode(node) => Ready(node, h, None)
    case _ => th
  }

  function Allocate(w: World, t: nat): World {
    if t in w.threads && (w.threads[t].HasNode? || w.threads[t].MadeNode?)
    then WithThread(w.(nextHandle := w.nextHandle + 1), t, WithHandle(w.threads[t], w.nextHandle)) else w
  }

  function LookInContent(w: World, t: nat, stale: bool): World {
    if t !in w.threads || !(w.threads[t].HasNode? || w.threads[t].HasHandle?) then w
    else
      var node := w.threads[t].node;
      var h := if w.threads[t].HasHandle? then Some(w.threads[t].handle) else None;
      if node.id in w.content && !stale then GotContent(w, t, node, h, w.content[node.id])
      else WithThread(w, t, Fetching(node, h))
  }

  /** What the client's cache makes of a thread that looks into it. */
  function FromClient(w: World, node: Inode, h: Option<nat>, expired: bool): Thread {
    match NodeQuery(node)
    case Err(_) => Fetched(node, h, Failed)
    case Ok(q) => if q.view in w.cache && !expired then Fetched(node, h, w.cache[q.view]) else Asking(node, h)
  }

  function LookInClient(w: World, t: nat, expired: bool): World {
    if t in w.threads && w.threads[t].Fetching?
    then WithThread(w, t, FromClient(w, w.threads[t].node, w.threads[t].h, expired)) else w
  }

  function Reply(w: World, t: nat, value: CacheValue): World {
    if t in w.threads && w.threads[t].Asking?
    then WithThread(w, t, Told(w.threads[t].node, w.threads[t].h, Answered(w.threads[t].node, value))) else w
  }

  function NoReply(w: World, t: nat): World {
    if t in w.threads && w.threads[t].Asking?
    then WithThread(w, t, Fetched(w.threads[t].node, w.threads[t].h, Failed)) else w
  }

  function StoreInClient(w: World, t: nat): World {
    if t in w.threads && w.threads[t].Told? && NodeQuery(w.threads[t].node).Ok? then
      var th := w.threads[t];
      WithThread(w.(cache := w.cache[NodeQuery(th.node).value.view := th.content]), t,
          Fetched(th.node, th.h, th.content))
    else w
  }

  function StoreInContent(w: World, t: nat): World {
    if t in w.threads && w.threads[t].Fetched? then
      var th := w.threads[t];
      GotContent(w.(content := w.content[th.node.id := th.content]), t, th.node, th.h, th.content)
    else w
  }

  function Insert(w: World, t: nat): World {
    if t in w.threads && w.threads[t].Ready? then
      var th := w.threads[t];
      Stopped(w.(files := w.files[th.handle := File(th.node, th.data)]), t)
    else w
  }

  function StoreListing(w: World, id: nat, value: CacheValue): World {
    if id in w.born && DirQuery(w.born[id]).Some?
    then w.(cache := w.cache[DirQuery(w.born[id]).value.view := Answered(w.born[id], value)]) else w
  }

  function EndWalk(w: World, t: nat): World {
    if t in w.threads && w.threads[t].Walked? then
      var id := w.threads[t].id;
      WithThread(w, t, if id in w.table.inodes then HasNode(w.table.inodes[id]) else Crashed)
    else w
  }

  function Do(w: World, a: Act): World {
    match a
    case Add(p, proto) => if p < w.table.next then AddTo(w, p, proto) else w
    case Drop(p, name) => w.(table := RemoveChild(w.table, p, name).0)
    case DropStale(p, keep) => w.(table := RemoveChildren(w.table, p, keep))
    case Get(t, id) =>
      if t !in w.threads && id in w.table.inodes then WithThread(w, t, HasNode(w.table.inodes[id])) else w
    case AddPending(t, p, proto) =>
      if t !in w.threads && p < w.table.next
      then WithThread(AddTo(w, p, proto), t, MadeNode(AddChild(w.table, p, proto).1)) else w
    case AllocHandle(t) => Allocate(w, t)
    case CheckContent(t, stale) => LookInContent(w, t, stale)
    case CheckClient(t, expired) => LookInClient(w, t, expired)
    case Answer(t, value) => Reply(w, t, value)
    case Fail(t) => NoReply(w, t)
    case Remember(t) => StoreInClient(w, t)
    case StoreContent(t) => StoreInContent(w, t)
    case InsertHandle(t) => Insert(w, t)
    case ListData(id, value) => StoreListing(w, id, value)
    case Invalidate(v) => w.(cache := w.cache - {v})
    case WalkTo(t, p, name) =>
      if t !in w.threads && LookupChild(w.table, p, name).Some?
      then WithThread(w, t, Walked(LookupChild(w.table, p, name).value.id)) else w
    case GetWalked(t) => EndWalk(w, t)
    case Forget(id) => w.(content := w.content - {id})
    case Release(h) => w.(files := w.files - {h})
  }

  function DoAll(w: World, acts: seq<Act>): World
    decreases |acts|
  {
    if acts == [] then w else DoAll(Do(w, acts[0]), acts[1..])
  }

  // ---- The invariant ----

  function HandleOf(th: Thread): Option<nat> {
    match th
    case HasHandle(_, h) => Some(h)
    case Fetching(_, h) => h
    case Asking(_, h) => h
    case Told(_, h, _) => h
    case Fetched(_, h, _) => h
    case Ready(_, h, _) => Some(h)
    case _ => None
  }

  /** Links agree and no entry dangles, though a directory that is gone may still have one;
      and a number below the counter stands for the one node that was given it. */
  ghost predicate TableOk(w: World) {
    && Linked(w.table) && NoDangling(w.table) && w.table.next > ROOT
    && (forall x :: x in w.born ==> x < w.table.next && w.born[x].id == x)
    && (forall x :: x in w.table.inodes ==> Born(w, w.table.inodes[x]))
  }

  ghost predicate Born(w: World, n: Inode) {
    n.id in w.born && w.born[n.id] == n
  }

  /** n's own question, or the listing of n, is this view. */
  predicate AsksFor(n: Inode, v: View) {
    || (NodeQuery(n).Ok? && NodeQuery(n).value.view == v)
    || (DirQuery(n).Some? && DirQuery(n).value.view == v)
  }

  ghost predicate AnswerOk(w: World, v: View, c: Content) {
    c.Answered? ==> Born(w, c.source) && AsksFor(c.source, v)
  }

  /** Content of node was asked for by a node with the same view. */
  ghost predicate ContentOk(w: World, node: Inode, c: Content) {
    c.Answered? ==> NodeQuery(node).Ok? && AnswerOk(w, NodeQuery(node).value.view, c)
  }

  ghost predicate ThreadOk(w: World, th: Thread) {
    && (th.Walked? ==> th.id in w.born)
    && (!th.Walked? && !th.Crashed? ==> Born(w, th.node))
    && (th.Asking? ==> NodeQuery(th.node).Ok?)
    && (th.Told? || th.Fetched? ==> ContentOk(w, th.node, th.content))
    && (th.Ready? && th.data.Some? ==> ContentOk(w, th.node, th.data.value))
    && (HandleOf(th).Some? ==> 0 < HandleOf(th).value < w.nextHandle && HandleOf(th).value !in w.files)
  }

  ghost predicate HandlesOk(w: World) {
    && w.nextHandle > 0
    && (forall h :: h in w.files ==> 0 < h < w.nextHandle)
    && (forall t, u :: t in w.threads && u in w.threads && t != u && HandleOf(w.threads[t]).Some? ==>
          HandleOf(w.threads[t]) != HandleOf(w.threads[u]))
  }

  ghost predicate WorldOk(w: World) {
    && TableOk(w) && HandlesOk(w)
    && (forall t :: t in w.threads ==> ThreadOk(w, w.threads[t]))
    && (forall id :: id in w.content ==> id in w.born && ContentOk(w, w.born[id], w.content[id]))
    && (forall h :: h in w.files && w.files[h].data.Some? ==> ContentOk(w, w.files[h].node, w.files[h].data.value))
    && (forall v :: v in w.cache ==> AnswerOk(w, v, w.cache[v]))
  }

  lemma AddKeepsTable(w: World, p: nat, proto: Inode)
    requires TableOk(w) && p < w.table.next
    ensures
      var w' := AddTo(w, p, proto);
      && TableOk(w') && Born(w', AddChild(w.table, p, proto).1)
      && (forall x :: x in w.born ==> x in w'.born && w'.born[x] == w.born[x])
  {
    AddLinked(w.table, p, proto);
    var w' := AddTo(w, p, proto);
    forall x | x in w.table.inodes ensures x < w.table.next { assert NodeLinked(w.table, x); }
    if w'.table == w.table {
      assert proto.name in w.table.index[p];
    }
  }

  lemma DropKeepsTable(w: World, p: nat, drop: set<string>)
    requires TableOk(w)
    ensures TableOk(w.(table := DropNames(w.table, p, drop)))
  {
    DropLinked(w.table, p, drop);
  }

  lemma TableChanged(w: World, w': World)
    requires WorldOk(w) && TableOk(w')
    requires w' == w.(table := w'.table, born := w'.born)
    requires forall x :: x in w.born ==> x in w'.born && w'.born[x] == w.born[x]
    ensures WorldOk(w')
  {
    forall t | t in w.threads ensures ThreadOk(w', w'.threads[t]) {
      assert ThreadOk(w, w.threads[t]);
    }
    forall id | id in w.content ensures ContentOk(w', w'.born[id], w.content[id]) {
      assert ContentOk(w, w.born[id], w.content[id]);
    }
    forall h | h in w.files && w.files[h].data.Some? ensures ContentOk(w', w.files[h].node, w.files[h].data.value) {
      assert ContentOk(w, w.files[h].node, w.files[h].data.value);
    }
    forall v | v in w.cache ensures AnswerOk(w', v, w.cache[v]) {
      assert AnswerOk(w, v, w.cache[v]);
    }
  }

  /** A thread moves on, keeping its handle if it has one. */
  lemma ThreadMoved(w: World, t: nat, th: Thread)
    requires WorldOk(w) && ThreadOk(w, th)
    requires HandleOf(th).Some? ==> t in w.threads && HandleOf(w.threads[t]) == HandleOf(th)
    ensures WorldOk(WithThread(w, t, th))
  {
    var w' := WithThread(w, t, th);
    assert ThreadOk(w', th);
    forall u | u in w.threads ensures ThreadOk(w', w.threads[u]) {
      assert ThreadOk(w, w.threads[u]);
    }
    CachesAlike(w, w');
  }

  /** Neither threads nor open handles matter to what the caches and files hold. */
  lemma CachesAlike(w: World, w': World)
    requires WorldOk(w) && w'.born == w.born && w'.content == w.content && w'.cache == w.cache
    requires forall h :: h in w'.files ==> h in w.files && w'.files[h] == w.files[h]
    ensures forall id :: id in w'.content ==> id in w'.born && ContentOk(w', w'.born[id], w'.content[id])
    ensures forall h :: h in w'.files && w'.files[h].data.Some? ==>
        ContentOk(w', w'.files[h].node, w'.files[h].data.value)
    ensures forall v :: v in w'.cache ==> AnswerOk(w', v, w'.cache[v])
  {
    forall id | id in w'.content ensures ContentOk(w', w'.born[id], w'.content[id]) {
      assert ContentOk(w, w.born[id], w.content[id]);
    }
    forall h | h in w'.files && w'.files[h].data.Some? ensures ContentOk(w', w'.files[h].node, w'.files[h].data.value) {
      assert ContentOk(w, w.files[h].node, w.files[h].data.value);
    }
    forall v | v in w'.cache ensures AnswerOk(w', v, w'.cache[v]) {
      assert AnswerOk(w, v, w.cache[v]);
    }
  }

  lemma ThreadStopped(w: World, t: nat)
    requires WorldOk(w)
    ensures WorldOk(Stopped(w, t))
  {
    var w' := Stopped(w, t);
    forall u | u in w'.threads ensures ThreadOk(w', w'.threads[u]) {
      assert ThreadOk(w, w.threads[u]);
    }
    CachesAlike(w, w');
  }

  lemma Allocated(w: World, t: nat)
    requires WorldOk(w) && t in w.threads && (w.threads[t].HasNode? || w.threads[t].MadeNode?)
    ensures WorldOk(Allocate(w, t))
  {
    var w' := w.(nextHandle := w.nextHandle + 1);
    var th := WithHandle(w.threads[t], w.nextHandle);
    Counted(w);
    HandleGiven(w', w.threads[t], w.nextHandle);
    NewHandle(w', t, th);
    assert Allocate(w, t) == WithThread(w', t, th);
  }

  lemma HandleGiven(w: World, th: Thread, h: nat)
    requires ThreadOk(w, th) && (th.HasNode? || th.MadeNode?)
    requires 0 < h < w.nextHandle && h !in w.files
    ensures ThreadOk(w, WithHandle(th, h)) && HandleOf(WithHandle(th, h)) == Some(h)
  {
  }

  /** No thread has the number that the counter moves past. */
  lemma Counted(w: World)
    requires WorldOk(w)
    ensures WorldOk(w.(nextHandle := w.nextHandle + 1))
    ensures forall u :: u in w.threads ==> HandleOf(w.threads[u]) != Some(w.nextHandle)
  {
    var w' := w.(nextHandle := w.nextHandle + 1);
    forall u | u in w.threads ensures ThreadOk(w', w.threads[u]) && HandleOf(w.threads[u]) != Some(w.nextHandle) {
      assert ThreadOk(w, w.threads[u]);
    }
    CachesAlike(w, w');
  }

  /** A thread takes a handle that nobody has. */
  lemma NewHandle(w: World, t: nat, th: Thread)
    requires WorldOk(w) && ThreadOk(w, th)
    requires forall u :: u in w.threads ==> HandleOf(w.threads[u]) != HandleOf(th)
    ensures WorldOk(WithThread(w, t, th))
  {
    var w' := WithThread(w, t, th);
    forall u | u in w'.threads ensures ThreadOk(w', w'.threads[u]) {
      assert u != t ==> ThreadOk(w, w.threads[u]);
    }
    CachesAlike(w, w');
  }

  lemma Inserted(w: World, t: nat)
    requires WorldOk(w) && t in w.threads && w.threads[t].Ready?
    ensures WorldOk(Insert(w, t))
  {
    var th, w' := w.threads[t], Insert(w, t);
    assert ThreadOk(w, th);
    forall u | u in w'.threads ensures ThreadOk(w', w'.threads[u]) {
      assert ThreadOk(w, w.threads[u]);
    }
    CachesAlike(w, w'.(files := w.files));
    forall h | h in w'.files && w'.files[h].data.Some? ensures ContentOk(w', w'.files[h].node, w'.files[h].data.value) {
      if h != th.handle {
        assert ContentOk(w, w.files[h].node, w.files[h].data.value);
      }
    }
  }

  lemma CachesChanged(w: World, w': World)
    requires WorldOk(w) && w' == w.(content := w'.content, cache := w'.cache)
    requires forall id :: id in w'.content ==> id in w.born && ContentOk(w, w.born[id], w'.content[id])
    requires forall v :: v in w'.cache ==> AnswerOk(w, v, w'.cache[v])
    ensures WorldOk(w')
  {
    forall t | t in w.threads ensures ThreadOk(w', w'.threads[t]) {
      assert ThreadOk(w, w.threads[t]);
    }
    forall id | id in w'.content ensures ContentOk(w', w'.born[id], w'.content[id]) {
      assert ContentOk(w, w.born[id], w'.content[id]);
    }
    forall h | h in w.files && w.files[h].data.Some? ensures ContentOk(w', w.files[h].node, w.files[h].data.value) {
      assert ContentOk(w, w.files[h].node, w.files[h].data.value);
    }
    forall v | v in w'.cache ensures AnswerOk(w', v, w'.cache[v]) {
      assert AnswerOk(w, v, w'.cache[v]);
    }
  }

  lemma GotContentOk(w: World, t: nat, c: Content)
    requires WorldOk(w) && t in w.threads && !w.threads[t].Walked? && !w.threads[t].Crashed?
        && ContentOk(w, w.threads[t].node, c)
    ensures WorldOk(GotContent(w, t, w.threads[t].node, HandleOf(w.threads[t]), c))
  {
    var th := w.threads[t];
    assert ThreadOk(w, th);
    if HandleOf(th).Some? {
      ThreadMoved(w, t, Ready(th.node, HandleOf(th).value, Some(c)));
    } else {
      ThreadStopped(w, t);
    }
  }

  lemma CheckedContent(w: World, t: nat, stale: bool)
    requires WorldOk(w)
    ensures WorldOk(LookInContent(w, t, stale)) && LookInContent(w, t, stale).born == w.born
  {
    if t in w.threads && (w.threads[t].HasNode? || w.threads[t].HasHandle?) {
      var th := w.threads[t];
      assert ThreadOk(w, th);
      if th.node.id in w.content && !stale {
        GotContentOk(w, t, w.content[th.node.id]);
      } else {
        ThreadMoved(w, t, Fetching(th.node, HandleOf(th)));
      }
    }
  }

  lemma CheckedClient(w: World, t: nat, expired: bool)
    requires WorldOk(w)
    ensures WorldOk(LookInClient(w, t, expired)) && LookInClient(w, t, expired).born == w.born
  {
    if t in w.threads && w.threads[t].Fetching? {
      assert ThreadOk(w, w.threads[t]);
      ThreadMoved(w, t, FromClient(w, w.threads[t].node, w.threads[t].h, expired));
    }
  }

  lemma Replied(w: World, t: nat, value: CacheValue)
    requires WorldOk(w)
    ensures WorldOk(Reply(w, t, value)) && Reply(w, t, value).born == w.born
    ensures WorldOk(NoReply(w, t)) && NoReply(w, t).born == w.born
  {
    if t in w.threads && w.threads[t].Asking? {
      var th := w.threads[t];
      assert ThreadOk(w, th);
      ThreadMoved(w, t, Told(th.node, th.h, Answered(th.node, value)));
      ThreadMoved(w, t, Fetched(th.node, th.h, Failed));
    }
  }

  lemma Remembered(w: World, t: nat)
    requires WorldOk(w)
    ensures WorldOk(StoreInClient(w, t)) && StoreInClient(w, t).born == w.born
  {
    if t in w.threads && w.threads[t].Told? && NodeQuery(w.threads[t].node).Ok? {
      var th := w.threads[t];
      assert ThreadOk(w, th);
      var stored := w.(cache := w.cache[NodeQuery(th.node).value.view := th.content]);
      CachesChanged(w, stored);
      ThreadMoved(stored, t, Fetched(th.node, th.h, th.content));
    }
  }

  lemma StoredContent(w: World, t: nat)
    requires WorldOk(w)
    ensures WorldOk(StoreInContent(w, t)) && StoreInContent(w, t).born == w.born
  {
    if t in w.threads && w.threads[t].Fetched? {
      var th := w.threads[t];
      assert ThreadOk(w, th);
      var stored := w.(content := w.content[th.node.id := th.content]);
      CachesChanged(w, stored);
      GotContentOk(stored, t, th.content);
    }
  }

  lemma FetchKeepsWorld(w: World, a: Act)
    requires WorldOk(w)
    requires a.CheckContent? || a.CheckClient? || a.Answer? || a.Fail? || a.Remember? || a.StoreContent?
    ensures WorldOk(Do(w, a)) && Do(w, a).born == w.born
  {
    match a
    case CheckContent(t, stale) => CheckedContent(w, t, stale);
    case CheckClient(t, expired) => CheckedClient(w, t, expired);
    case Answer(t, value) => Replied(w, t, value);
    case Fail(t) => Replied(w, t, Blob([]));
    case Remember(t) => Remembered(w, t);
    case StoreContent(t) => StoredContent(w, t);
  }

  lemma CachesKeepWorld(w: World, a: Act)
    requires WorldOk(w) && (a.ListData? || a.Invalidate? || a.Forget?)
    ensures WorldOk(Do(w, a)) && Do(w, a).born == w.born
  {
    CachesChanged(w, Do(w, a));
  }

  lemma PendingAdded(w: World, t: nat, p: nat, proto: Inode)
    requires WorldOk(w) && t !in w.threads && p < w.table.next
    ensures
      var w' := WithThread(AddTo(w, p, proto), t, MadeNode(AddChild(w.table, p, proto).1));
      WorldOk(w') && forall x :: x in w.born ==> x in w'.born && w'.born[x] == w.born[x]
  {
    AddKeepsTable(w, p, proto);
    TableChanged(w, AddTo(w, p, proto));
    ThreadMoved(AddTo(w, p, proto), t, MadeNode(AddChild(w.table, p, proto).1));
  }

  lemma TreeKeepsWorld(w: World, a: Act)
    requires WorldOk(w) && (a.Add? || a.AddPending? || a.Drop? || a.DropStale?)
    ensures
      var w' := Do(w, a);
      WorldOk(w') && forall x :: x in w.born ==> x in w'.born && w'.born[x] == w.born[x]
  {
    match a
    case Add(p, proto) =>
      if p < w.table.next {
        AddKeepsTable(w, p, proto);
        TableChanged(w, AddTo(w, p, proto));
      }
    case AddPending(t, p, proto) =>
      if t !in w.threads && p < w.table.next { PendingAdded(w, t, p, proto); }
    case Drop(p, name) =>
      DropKeepsTable(w, p, {name});
      TableChanged(w, Do(w, a));
    case DropStale(p, keep) =>
      DropKeepsTable(w, p, ChildNames(w.table, p) - keep);
      TableChanged(w, Do(w, a));
  }

  lemma NodesKeepWorld(w: World, a: Act)
    requires WorldOk(w) && (a.Get? || a.WalkTo? || a.GetWalked?)
    ensures WorldOk(Do(w, a)) && Do(w, a).born == w.born
  {
    if a.Get? {
      if a.t !in w.threads && a.id in w.table.inodes { ThreadMoved(w, a.t, HasNode(w.table.inodes[a.id])); }
    } else if a.WalkTo? {
      if a.t !in w.threads && LookupChild(w.table, a.p, a.name).Some? {
        ThreadMoved(w, a.t, Walked(LookupChild(w.table, a.p, a.name).value.id));
      }
    } else {
      WalkEnded(w, a.t);
    }
  }

  lemma WalkEnded(w: World, t: nat)
    requires WorldOk(w)
    ensures WorldOk(EndWalk(w, t))
  {
    if t in w.threads && w.threads[t].Walked? {
      ThreadMoved(w, t, EndWalk(w, t).threads[t]);
    }
  }

  lemma Released(w: World, h: nat)
    requires WorldOk(w)
    ensures WorldOk(w.(files := w.files - {h}))
  {
    var w' := w.(files := w.files - {h});
    forall t | t in w.threads ensures ThreadOk(w', w.threads[t]) {
      assert ThreadOk(w, w.threads[t]);
    }
    CachesAlike(w, w');
  }

  lemma HandlesKeepWorld(w: World, a: Act)
    requires WorldOk(w) && (a.AllocHandle? || a.InsertHandle? || a.Release?)
    ensures WorldOk(Do(w, a)) && Do(w, a).born == w.born
  {
    match a
    case AllocHandle(t) => AllocateKeepsWorld(w, t);
    case InsertHandle(t) => InsertKeepsWorld(w, t);
    case Release(h) => Released(w, h);
  }

  lemma AllocateKeepsWorld(w: World, t: nat)
    requires WorldOk(w)
    ensures WorldOk(Allocate(w, t)) && Allocate(w, t).born == w.born
  {
    if t in w.threads && (w.threads[t].HasNode? || w.threads[t].MadeNode?) {
      Allocated(w, t);
    }
  }

  lemma InsertKeepsWorld(w: World, t: nat)
    requires WorldOk(w)
    ensures WorldOk(Insert(w, t)) && Insert(w, t).born == w.born
  {
    if t in w.threads && w.threads[t].Ready? {
      Inserted(w, t);
    }
  }

  /** Every critical section of every thread keeps the invariant, and no ID changes its
      node. */
  lemma DoKeepsWorld(w: World, a: Act)
    requires WorldOk(w)
    ensures
      var w' := Do(w, a);
      WorldOk(w') && forall x :: x in w.born ==> x in w'.born && w'.born[x] == w.born[x]
  {
    if a.Add? || a.AddPending? || a.Drop? || a.DropStale? {
      TreeKeepsWorld(w, a);
    } else if a.Get? || a.WalkTo? || a.GetWalked? {
      NodesKeepWorld(w, a);
    } else if a.ListData? || a.Invalidate? || a.Forget? {
      CachesKeepWorld(w, a);
    } else if a.AllocHandle? || a.InsertHandle? || a.Release? {
      HandlesKeepWorld(w, a);
    } else {
      FetchKeepsWorld(w, a);
    }
  }

  lemma {:induction false} RunKeepsWorld(w: World, acts: seq<Act>)
    requires WorldOk(w)
    ensures
      var w' := DoAll(w, acts);
      WorldOk(w') && forall x :: x in w.born ==> x in w'.born && w'.born[x] == w.born[x]
    decreases |acts|
  {
    if acts != [] {
      DoKeepsWorld(w, acts[0]);
      RunKeepsWorld(Do(w, acts[0]), acts[1..]);
    }
  }

  function StartWorld(now: int): World {
    World(NewTable(now), 1, map[], map[], map[], map[], map[ROOT := RootInode(now)])
  }

  lemma StartWorldOk(now: int)
    ensures WorldOk(StartWorld(now))
  {
  }

  // ---- What follows for every interleaving ----

  /** Content never leaves its view, even if a node is removed while its content is being
      fetched and another takes its name: what the content cache holds under a number, or an
      open file got, is an error's text, or was asked for by a node with the very view, the
      same kind of rendering of the same namespace, type and object, that the one node ever
      given that number asks for. Which group and version that node had is another matter. */
  lemma ContentStaysInItsView(now: int, acts: seq<Act>, id: nat, h: nat)
    ensures
      var w := DoAll(StartWorld(now), acts);
      && (id in w.content ==> id in w.born && ContentOk(w, w.born[id], w.content[id]))
      && (id in w.content && id in w.table.inodes ==> w.table.inodes[id] == w.born[id])
      && (h in w.files && w.files[h].data.Some? ==> ContentOk(w, w.files[h].node, w.files[h].data.value))
  {
    StartWorldOk(now);
    RunKeepsWorld(StartWorld(now), acts);
    var w := DoAll(StartWorld(now), acts);
    if id in w.table.inodes {
      assert NodeLinked(w.table, id);
    }
  }

  /** If the node that asked has the group and version of the node that is served, it asked
      the server the very question that the latter would. */
  lemma SameVersionSameQuestion(n: Inode, source: Inode)
    requires NodeQuery(n).Ok? && AsksFor(source, NodeQuery(n).value.view)
    requires source.group == n.group && source.version == n.version
    ensures NodeQuery(n) == NodeQuery(source) || Some(NodeQuery(n).value) == DirQuery(source)
  {
  }

  /** Links stay right: whatever interleaves, an entry of the index leads to a live node that
      has the entry's name and directory and a larger number than its directory. */
  lemma EntriesLeadToLiveNodes(now: int, acts: seq<Act>, p: nat, name: string)
    ensures
      var t := DoAll(StartWorld(now), acts).table;
      p in t.index && name in t.index[p] ==>
        var c := t.index[p][name];
        p < c < t.next && c in t.inodes && t.inodes[c].id == c && t.inodes[c].name == name && t.inodes[c].parent == p
  {
    StartWorldOk(now);
    RunKeepsWorld(StartWorld(now), acts);
    var t := DoAll(StartWorld(now), acts).table;
    if p in t.index && name in t.index[p] {
      assert EntryLinked(t, p, name);
      assert NodeLinked(t, t.index[p][name]);
    }
  }

  /** An insertion never replaces an open file, though the number was allocated in an
      earlier critical section. */
  lemma InsertionIsNew(now: int, acts: seq<Act>, t: nat)
    ensures
      var w := DoAll(StartWorld(now), acts);
      t in w.threads && w.threads[t].Ready? ==>
        w.threads[t].handle > 0 && w.threads[t].handle !in w.files
  {
    StartWorldOk(now);
    RunKeepsWorld(StartWorld(now), acts);
    var w := DoAll(StartWorld(now), acts);
    if t in w.threads {
      assert ThreadOk(w, w.threads[t]);
    }
  }

  /** A number that was given out, and is neither open nor on its way to be. */
  ghost predicate Retired(w: World, h: nat) {
    h < w.nextHandle && h !in w.files && forall t :: t in w.threads ==> HandleOf(w.threads[t]) != Some(h)
  }

  /** A retired handle never opens again, and a dead node never comes back. */
  lemma {:induction false} NoComebacks(w: World, acts: seq<Act>, h: nat, id: nat)
    requires WorldOk(w)
    ensures Retired(w, h) ==> Retired(DoAll(w, acts), h)
    ensures id < w.table.next && id !in w.table.inodes ==> id !in DoAll(w, acts).table.inodes
    decreases |acts|
  {
    if acts != [] {
      DoKeepsWorld(w, acts[0]);
      if Retired(w, h) { StaysRetired(w, acts[0], h); }
      if id < w.table.next && id !in w.table.inodes { StaysDead(w, acts[0], id); }
      NoComebacks(Do(w, acts[0]), acts[1..], h, id);
    }
  }

  lemma StaysRetired(w: World, a: Act, h: nat)
    requires WorldOk(w) && Retired(w, h)
    ensures Retired(Do(w, a), h)
  {
    match a
    case AllocHandle(t) =>
    case InsertHandle(t) => InsertedRetired(w, t, h);
    case CheckContent(t, stale) => ContentRetired(w, t, stale, h);
    case StoreContent(t) => ContentRetired(w, t, false, h);
    case _ => MovedRetired(w, a, h);
  }

  lemma InsertedRetired(w: World, t: nat, h: nat)
    requires Retired(w, h)
    ensures Retired(Insert(w, t), h)
  {
  }

  lemma ContentRetired(w: World, t: nat, stale: bool, h: nat)
    requires Retired(w, h)
    ensures Retired(LookInContent(w, t, stale), h)
    ensures Retired(StoreInContent(w, t), h)
  {
  }

  lemma MovedRetired(w: World, a: Act, h: nat)
    requires Retired(w, h) && !a.AllocHandle? && !a.InsertHandle? && !a.CheckContent? && !a.StoreContent?
    ensures Retired(Do(w, a), h)
  {
    match a
    case Answer(_, _) =>
    case Fail(_) =>
    case Remember(_) =>
    case CheckClient(_, _) =>
    case _ =>
  }

  lemma StaysDead(w: World, a: Act, id: nat)
    requires id < w.table.next && id !in w.table.inodes
    ensures id < Do(w, a).table.next && id !in Do(w, a).table.inodes
  {
  }

  // ---- Walks ----

  /** The thread that an act belongs to, if it belongs to one. */
  function ThreadOf(a: Act): Option<nat> {
    match a
    case Get(t, _) => Some(t)
    case AddPending(t, _, _) => Some(t)
    case AllocHandle(t) => Some(t)
    case CheckContent(t, _) => Some(t)
    case CheckClient(t, _) => Some(t)
    case Answer(t, _) => Some(t)
    case Fail(t) => Some(t)
    case Remember(t) => Some(t)
    case StoreContent(t) => Some(t)
    case WalkTo(t, _, _) => Some(t)
    case GetWalked(t) => Some(t)
    case InsertHandle(t) => Some(t)
    case _ => None
  }

  /** The name in directory p heads the node: it is the node's own entry or an ancestor's. */
  ghost predicate Heads(t: Table, p: nat, name: string, id: nat) {
    p in t.index && name in t.index[p] && Above(t, t.index[p][name], id)
  }

  /** The act removes a name that heads the node, or lists a directory without such a name. */
  ghost predicate Removes(w: World, a: Act, id: nat) {
    || (a.Drop? && Heads(w.table, a.p, a.name, id))
    || (a.DropStale? && exists name :: name !in a.keep && Heads(w.table, a.p, name, id))
  }

  /** These acts, and no others, take a live node out of the tree. */
  lemma RemovesExactly(w: World, a: Act, id: nat)
    requires id in w.table.inodes
    ensures id !in Do(w, a).table.inodes <==> Removes(w, a, id)
  {
    match a
    case Drop(p, name) => DropsHeaded(w.table, p, {name}, id);
    case DropStale(p, keep) => DropsHeaded(w.table, p, ChildNames(w.table, p) - keep, id);
    case _ => OthersRemoveNothing(w, a, id);
  }

  lemma DropsHeaded(t: Table, p: nat, drop: set<string>, id: nat)
    requires id in t.inodes
    ensures id !in DropNames(t, p, drop).inodes <==> exists name :: name in drop && Heads(t, p, name, id)
  {
  }

  lemma OthersRemoveNothing(w: World, a: Act, id: nat)
    requires id in w.table.inodes && !a.Drop? && !a.DropStale?
    ensures id in Do(w, a).table.inodes
  {
  }

  ghost predicate RemovedDuring(w: World, acts: seq<Act>, id: nat)
    decreases |acts|
  {
    acts != [] && (Removes(w, acts[0], id) || RemovedDuring(Do(w, acts[0]), acts[1..], id))
  }

  lemma {:induction false} GoneIffRemoved(w: World, acts: seq<Act>, id: nat)
    requires WorldOk(w) && id in w.table.inodes
    ensures id !in DoAll(w, acts).table.inodes <==> RemovedDuring(w, acts, id)
    decreases |acts|
  {
    if acts != [] {
      assert NodeLinked(w.table, id);
      var w1 := Do(w, acts[0]);
      DoKeepsWorld(w, acts[0]);
      RemovesExactly(w, acts[0], id);
      if id in w1.table.inodes {
        GoneIffRemoved(w1, acts[1..], id);
      } else {
        StillLower(w, acts[0], id);
        NoComebacks(w1, acts[1..], 0, id);
      }
    }
  }

  lemma StillLower(w: World, a: Act, id: nat)
    requires id < w.table.next
    ensures id < Do(w, a).table.next
  {
  }

  lemma {:induction false} StillWalked(w: World, acts: seq<Act>, t: nat)
    requires t in w.threads && forall i :: 0 <= i < |acts| ==> ThreadOf(acts[i]) != Some(t)
    ensures t in DoAll(w, acts).threads && DoAll(w, acts).threads[t] == w.threads[t]
    decreases |acts|
  {
    if acts != [] {
      OthersMove(w, acts[0], t);
      StillWalked(Do(w, acts[0]), acts[1..], t);
    }
  }

  lemma OthersMove(w: World, a: Act, t: nat)
    requires t in w.threads && ThreadOf(a) != Some(t)
    ensures t in Do(w, a).threads && Do(w, a).threads[t] == w.threads[t]
  {
    match a
    case CheckContent(u, stale) => OthersLook(w, u, t, stale);
    case StoreContent(u) => OthersLook(w, u, t, false);
    case CheckClient(_, _) =>
    case AllocHandle(_) =>
    case InsertHandle(_) =>
    case _ =>
  }

  lemma OthersLook(w: World, u: nat, t: nat, stale: bool)
    requires t in w.threads && u != t
    ensures t in LookInContent(w, u, stale).threads && LookInContent(w, u, stale).threads[t] == w.threads[t]
    ensures t in StoreInContent(w, u).threads && StoreInContent(w, u).threads[t] == w.threads[t]
  {
  }

  /** A walk whose last lookup found a node gets a nil inode for it, and crashes on it, if and
      only if in between some other thread removed a name that heads that node, or listed a
      directory without it. */
  lemma CrashIffRemoved(w: World, t: nat, p: nat, name: string, acts: seq<Act>)
    requires WorldOk(w) && t !in w.threads && LookupChild(w.table, p, name).Some?
    requires forall i :: 0 <= i < |acts| ==> ThreadOf(acts[i]) != Some(t)
    ensures
      var found, w1 := LookupChild(w.table, p, name).value, Do(w, WalkTo(t, p, name));
      var w2 := Do(DoAll(w1, acts), GetWalked(t));
      && t in w2.threads
      && (w2.threads[t] == Crashed <==> RemovedDuring(w1, acts, found.id))
      && (w2.threads[t] != Crashed ==> w2.threads[t] == HasNode(found))
  {
    var found, w1 := LookupChild(w.table, p, name).value, Do(w, WalkTo(t, p, name));
    assert EntryLinked(w.table, p, name);
    assert NodeLinked(w.table, w.table.index[p][name]);
    DoKeepsWorld(w, WalkTo(t, p, name));
    StillWalked(w1, acts, t);
    GoneIffRemoved(w1, acts, found.id);
    SameNodeLater(w1, acts, found.id);
    WalkEnds(DoAll(w1, acts), t, found.id);
  }

  lemma SameNodeLater(w: World, acts: seq<Act>, id: nat)
    requires WorldOk(w) && id in w.table.inodes
    ensures id in DoAll(w, acts).table.inodes ==> DoAll(w, acts).table.inodes[id] == w.table.inodes[id]
  {
    RunKeepsWorld(w, acts);
    var t := DoAll(w, acts).table;
    assert NodeLinked(w.table, id);
    assert id in t.inodes ==> NodeLinked(t, id);
  }

  lemma WalkEnds(w: World, t: nat, id: nat)
    requires t in w.threads && w.threads[t] == Walked(id)
    ensures
      var w' := Do(w, GetWalked(t));
      && t in w'.threads && w'.threads[t] == if id in w.table.inodes then HasNode(w.table.inodes[id]) else Crashed
  {
  }

  // ---- What does not survive ----

  /** Of the sequential invariant, adding a child keeps everything exactly when the
      directory is still live. AddChild does not check. */
  lemma AddKeepsGoodIff(t: Table, p: nat, proto: Inode)
    requires Good(t) && p < t.next && proto.kind != NodeRoot
    ensures Good(AddChild(t, p, proto).0) <==> p in t.inodes && t.inodes[p].IsDir()
  {
    assert NodeLinked(t, ROOT);
    AddLinked(t, p, proto);
    assert p in AddChild(t, p, proto).0.index;
  }

  /** Two threads are enough: one gets hold of a directory, the other removes it, and the
      first adds a child that no path leads to. */
  lemma OrphanPossible(now: int) returns (acts: seq<Act>, orphan: nat)
    ensures
      var w := DoAll(StartWorld(now), acts);
      orphan in w.table.inodes && forall path :: Walk(w.table, ROOT, path) != Some(orphan)
  {
    var dir := RootInode(now).(name := "ns", kind := NodeNamespace);
    var child := dir.(name := "pods", kind := NodeResourceType);
    var w := StartWorld(now);
    var w1 := Do(w, Add(ROOT, dir));
    var w2 := Do(w1, Drop(ROOT, "ns"));
    acts, orphan := [Add(ROOT, dir), Drop(ROOT, "ns"), Add(2, child)], 3;
    ThreeActs(w, acts);
    DroppedNamespace(w1.table, "ns", 2);
    NoWayFromRoot(Do(w2, acts[2]).table, orphan);
  }

  lemma DroppedNamespace(t: Table, name: string, id: nat)
    requires ROOT in t.index && t.index[ROOT] == map[name := id]
    requires ROOT in t.inodes && t.inodes[ROOT].parent == ROOT && id in t.inodes && id != ROOT
    ensures
      var t' := RemoveChild(t, ROOT, name).0;
      id !in t'.index && id !in t'.inodes && t'.next == t.next && ROOT in t'.index && t'.index[ROOT] == map[]
  {
  }

  lemma NoWayFromRoot(t: Table, x: nat)
    requires ROOT in t.index && t.index[ROOT] == map[] && x != ROOT
    ensures forall path :: Walk(t, ROOT, path) != Some(x)
  {
  }

  lemma ThreeActs(w: World, acts: seq<Act>)
    requires |acts| == 3
    ensures DoAll(w, acts) == Do(Do(Do(w, acts[0]), acts[1]), acts[2])
  {
    var w1 := Do(w, acts[0]);
    assert DoAll(w, acts) == DoAll(w1, acts[1..]);
    assert DoAll(w1, acts[1..]) == DoAll(Do(w1, acts[1]), acts[1..][1..]);
    assert acts[1..][1..] == [acts[2]];
  }

  /** Such a crash is possible: somebody lists a directory again between a walk's last lookup
      and its GetInode. */
  lemma NilPossible(now: int)
    ensures
      var dir := RootInode(now).(name := "ns", kind := NodeNamespace);
      var acts := [Add(ROOT, dir), WalkTo(1, ROOT, "ns"), DropStale(ROOT, {}), GetWalked(1)];
      var w := DoAll(StartWorld(now), acts);
      1 in w.threads && w.threads[1] == Crashed
  {
    var dir := RootInode(now).(name := "ns", kind := NodeNamespace);
    var rest := [WalkTo(1, ROOT, "ns"), DropStale(ROOT, {}), GetWalked(1)];
    var w1 := Do(StartWorld(now), Add(ROOT, dir));
    assert ([Add(ROOT, dir)] + rest)[1..] == rest;
    ThreeActs(w1, rest);
    assert w1.table.index[ROOT] == map["ns" := 2] && 2 in w1.table.inodes && w1.table.inodes[2].id == 2;
    FoundDropped(w1, 1, "ns", 2);
  }

  lemma FoundDropped(w: World, t: nat, name: string, id: nat)
    requires ROOT in w.table.index && w.table.index[ROOT] == map[name := id] && id in w.table.inodes
        && w.table.inodes[id].id == id
    requires t !in w.threads
    ensures
      var w3 := Do(Do(Do(w, WalkTo(t, ROOT, name)), DropStale(ROOT, {})), GetWalked(t));
      t in w3.threads && w3.threads[t] == Crashed
  {
    var w1 := Do(w, WalkTo(t, ROOT, name));
    Relisted(w.table, name, id);
    WalkEnds(Do(w1, DropStale(ROOT, {})), t, id);
  }

  lemma Relisted(t: Table, name: string, id: nat)
    requires ROOT in t.index && t.index[ROOT] == map[name := id] && id in t.inodes
    ensures id !in RemoveChildren(t, ROOT, {}).inodes
  {
    assert name in t.index[ROOT] && Above(t, id, id);
  }
}
