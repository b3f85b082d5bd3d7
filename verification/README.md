# A verified model of kubefs

kubefs mounts a Kubernetes cluster as a file tree: `/namespace/type/object/` holds `yaml`, `json`,
`describe` and `logs`, and for config maps and secrets a `data/` directory with one file per key. This
project models the part of it that keeps state, and proves what that state keeps over every run.

Five pieces interact, and the project models each twice: once in the form the program gives it (a class
whose methods change fields in place), and once as a function on plain values. Every method is proved
equal to its function, and the theorems are about the functions and about runs of them.

| piece | class | on values | what is proved about it |
|---|---|---|---|
| inode table | `InodeTables.InodeTable` | `TableSpec` | `TableSpec`, `Reconciliation`, `TreeRuns`, `Interleave` |
| TTL cache | `Caching.Cache` | `Caching` | `Caching`, `Keys`, `CacheRace` |
| API client | `K8s.Client` | `ClientSpec` | `ClientSpec`, `Served`, `Listings`, `Rmw` |
| content provider and filesystem | `Kubefs.ContentProvider`, `Kubefs.OpenFile`, `Kubefs.FS` | `FsSpec` | `Served`, `Listings`, `Changes`, `Outcomes`, `Runs`, `Authority`, `Flushes`, `Buffers`, `Naming`, `ReadYourWrites`, `Staleness`, `Saving`; by example `Outages`, `Creation` |
| billy adapter | `NfsMount.BillyFS`, `NfsMount.BillyFile` | `PathSpec`, `Mounts` | `Paths`, `Cursors`, `Mounts`, `Closing`; by example `Unsaved` |

`Api` is the server: a store of objects behind calls that may fail. It hands out a new resource version
with every change and refuses an update that carries another version than the stored one; strings pass
through JSON, so bytes that are not UTF-8 become U+FFFD on the way (`Utf8`). `Base64` is the encoding of
section 4 of RFC 4648, with Go's treatment of line breaks in the decoder.

A run (`Runs.Run`) is any sequence of filesystem operations with changes by other users of the server in
between. Each operation gets an `Env`: the clock reading (which does not move during one call), which API
calls fail, which API groups answer a discovery, and in which order Go ranges over a map. The clock, failures
and that order are thus inputs over which every theorem quantifies. YAML, JSON and `describe` rendering, parsing, and
error texts are function parameters (`Api.Library`). A run of the billy adapter (`Mounts.After`) is any sequence of its
operations on paths and on the files it has given out, which the caller may keep using after closing them.

Four modules pin the functions themselves to the ground, without following how they are computed: `Served` says what
every file shows of the server's objects and logs, `Listings` what every directory has of its namespaces, discovery,
objects and keys, `Changes` what removals and flushes leave behind in server, caches and tree, and `Outcomes` how each
operation answers, and with which error. `Order`, `Base64` and `Utf8` do the same for their standards. What the staleness
theorems call true is what `Served` says.

Three modules look at interleavings. `CacheRace` splits `Get` of the cache into its read, its clock check and its
later eviction. `Rmw` splits `UpdateObjectDataKey` into its fetch and its update. `Interleave` splits the
operations of the filesystem, down to the lookups of a walk and the accesses to the client's cache, into
their critical sections. `Slices` repeats the open files' buffers at the level of Go's arrays, where sharing would show.

## Where the code and its documentation differ, or the code surprises

The model follows the code.

- `README.md:125-127` says that a `.yaml` or `.json` file can be created and written to create an object.
  `WriteHandle` only accepts files named exactly `yaml` or `json` (`internal/kubefs/fs.go:341`), and the node of a
  created file has its whole name as its file name, so every write to it is refused: `Authority.NoCreateReachesServer`,
  and a run in `Creation.CreatedThenRefused`.
- Read-your-writes does not hold on all inputs. `ReadYourWrites.ReadYourWrites` states exactly when it does, and
  `SpoiledSecret`, `BadSiblingHidesSecret` and `BinaryConfigMapChanges` what is read where it fails.
- Content is cached for its kind, namespace, type and object only: the keys leave out group and version
  (`internal/k8s/client.go:205`, `226`, `249`, `347`). While discovery is unstable a file can show what was fetched for a
  namesake of another API group, and never was its own: `Outages.OtherGroupServed` is a run of reads on a server
  that never changes. `Staleness.StalenessBound` says what is served in general, and that
  it is the file's own content if the entry that serves it was asked for under the file's own group and version.
- A walk looks the last node up and gets it in two critical sections, and takes the nil that the second may return for a
  node (`internal/nfsmount/billy.go:72`, `85`, `124`). `Interleave.CrashIffRemoved` states when it crashes on it, and
  `Interleave.NilPossible` is such an interleaving.
- A billy file whose first `Close` fails to flush keeps its handle for ever on both sides, and nothing sends its buffer
  again, since closing it again does nothing (`internal/nfsmount/billy.go:281`). `Closing.FirstCloseDecides` states exactly when
  that happens, `Closing.StrandedForEver` and `Closing.StrandedNeverSends` what follows, and `Unsaved.NoDocument` is a run in
  which it does: a yaml file is edited into something that is no document.
- `AddChild` does not check that its parent is live (`internal/kubefs/inode.go:173`), so the invariant that
  everything hangs from the root holds in sequential runs only: `Interleave.AddKeepsGoodIff` and `Interleave.OrphanPossible`.
- The cache promises to return nothing expired; an entry still counts as live at the very instant it
  expires (`internal/k8s/cache.go:49`). And a slow `Get` may evict a newer value: `CacheRace.LostIffEvicted` states exactly which
  values get lost, `CacheRace.EvictedHadExpired` a guard under which nothing fresh does, and
  `CacheRace.EvictionLosesFreshValue` is a run in which something does.
- An open never fails for want of content: the buffer then holds the text of the error (`internal/kubefs/fs.go:285`), and a
  flush stores that text in the cluster like any other: `Saving.OpensErrorIff` and `Saving.ErrorTextSaved`.
- A yaml or json file changes the object that its document names, which need not be the file's own:
  `Saving.DocumentDecides`.

## Model

| member | source | states |
|---|---|---|
| `InodeTables.InodeTable.constructor` | internal/kubefs/inode.go:108-126 | a new table holds the live root alone and satisfies the tree invariant |
| `InodeTables.InodeTable.LookupChild` | internal/kubefs/inode.go:136-148 | a child is found exactly if the directory's index has the name and the node is live |
| `InodeTables.InodeTable.Children` | internal/kubefs/inode.go:151-165 | each child of the directory is returned, and returned once |
| `InodeTables.InodeTable.AddChild` | internal/kubefs/inode.go:169-195 | finds the child of that name or gives a new node the next ID; the links stay right for any parent ID handed out before, and the tree invariant for a live directory |
| `InodeTables.InodeTable.RemoveChild` | internal/kubefs/inode.go:198-212 | both maps lose the child with its whole subtree and nothing else |
| `InodeTables.InodeTable.RemoveChildren` | internal/kubefs/inode.go:215-228 | both maps lose every child not kept, with their subtrees, and nothing else, in whatever order the map is walked |
| `InodeTables.InodeTable.RemoveSubtree` | internal/kubefs/inode.go:230-238 | the recursion deletes exactly the node and its descendants from both maps, and ends because IDs grow along child edges |
| `Reconciliation.DropExact` | internal/kubefs/inode.go:198-238 | a node survives a removal if and only if no removed child is the node or one of its ancestors; survivors and their index entries are unchanged |
| `Reconciliation.DropUnreachable` | internal/kubefs/inode.go:198-238 | afterwards no path leads to a removed node |
| `TableSpec.DropLinked` | internal/kubefs/inode.go:198-238 | removal keeps the weak link invariant, the absence of dangling entries, and the full tree invariant |
| `TableSpec.AddLinked` | internal/kubefs/inode.go:169-195 | addition keeps the weak invariant under any earlier parent ID, and the full one under a live directory |
| `TableSpec.Reachable` | internal/kubefs/inode.go:108-238 | in a good table the path read off the parent links leads from the root back to the node |
| `TableSpec.UniquePath` | internal/kubefs/inode.go:108-238 | a path leads to a live node if and only if it is that one path |
| `TreeRuns.DepthBounded` | internal/kubefs/fs.go:464-606 | no node lies deeper than its type allows |
| `TreeRuns.Coordinates` | internal/kubefs/fs.go:464-606 | namespace, type and object name of a node are the names of its ancestors on those levels |
| `TreeRuns.TreeOverRuns` | internal/kubefs/inode.go:108-238 | after every run each live node hangs from the root by exactly one path of at most five names, whose first two are its namespace and type; the root lives, and an ID has an index if and only if it is a live directory |
| `TreeRuns.IndexOverRuns` | internal/kubefs/inode.go:108-238 | after every run exactly the live directories have an index, and each entry leads to a live node of its name and directory with a larger ID |
| `Runs.AddTyped` | internal/kubefs/inode.go:169-195 | adding a node that may hang under its directory keeps the typed tree and changes no old node |
| `Runs.ListingTyped` | internal/kubefs/fs.go:464-606 | whatever a directory's listing produces may hang under that directory |
| `Runs.RefreshTyped` | internal/kubefs/fs.go:447-606 | bringing a directory in line with the server keeps the typed tree, and no ID changes its node |
| `Runs.CreateKeepsInv` | internal/kubefs/fs.go:237-275 | creating a file keeps the invariant and leaves client and caches alone |
| `Runs.RemoveKeepsInv` | internal/kubefs/fs.go:197-233 | removing keeps the invariant |
| `Runs.FlushKeepsInv` | internal/kubefs/fs.go:361-396 | flushing keeps the invariant and the tree |
| `Runs.StepKeepsInv` | internal/kubefs/fs.go:120-427 | every operation keeps the tree typed and good, the cache well typed, handles in range, and dirty handles writable and not pending |
| `Runs.RunKeepsInv` | internal/kubefs/fs.go:120-427 | so does every run |
| `Reconciliation.ReconcileExact` | internal/kubefs/fs.go:464-606 | after a listing the directory's names are exactly the listed ones; old names keep IDs and subtrees, new names get unused IDs, vanished subtrees are gone, all else is untouched |
| `Reconciliation.NewNodesAsListed` | internal/kubefs/fs.go:464-606 | a node that a listing brings in has the fields the listing gives it |
| `Reconciliation.ReconcileIdempotent` | internal/kubefs/fs.go:464-606 | listing again with the same names changes nothing |
| `Reconciliation.EnsureReconciles` | internal/kubefs/fs.go:447-606 | ensureChildren does this with what the client answers, and leaves the tree alone when the client fails |
| `Listings.ListsServer` | internal/kubefs/fs.go:447-606 | with nothing remembered, listing a directory fails with EIO if and only if its call fails (and for types no group answers; for keys also if the object is gone or does not decode), leaving the tree; otherwise its names are exactly what the server has |
| `Listings.LooksUpServer` | internal/kubefs/fs.go:120-136 | a lookup is EIO in that case, and otherwise finds a name if and only if the server has it |
| `Listings.NewNodesSay` | internal/kubefs/fs.go:464-606 | a new node has the coordinates, group, version and age of what it stands for on the server |
| `Listings.DiscoveredIffOffered` | internal/k8s/client.go:134-172 | a type is discovered if and only if a group that answers offers it to be listed and read |
| `Listings.FirstOfferWins` | internal/k8s/client.go:163-171 | with group, version and kind of the first that does |
| `Listings.GroupVersionsParsed` | internal/k8s/client.go:149-152 | a bare version is of the core group, one slash parts group and version, more do not parse |
| `Listings.AnswersAscend` | internal/k8s/client.go:112-201 | namespaces and objects are answered in ascending order |
| `Reconciliation.ListingUnique` | internal/kubefs/fs.go:144-155 | a strictly ascending listing of a directory's names is unique |
| `FsSpec.SortedListing` | internal/kubefs/fs.go:144-155 | sorting the children gives each live child once, each name preceding all that come after it |
| `Order.LessExact` | internal/kubefs/fs.go:153 | one name comes before another if and only if, behind what they have in common, it ends or has the smaller character |
| `Order.SortByCorrect` | internal/k8s/client.go:197 | sorting keeps the elements, and of distinct keys each precedes all that come after it |
| `Order.AscendingUnique` | internal/k8s/client.go:126 | a set of names has one ascending enumeration |
| `Caching.Cache.Get` | internal/k8s/cache.go:44-58 | a hit is an entry not past its expiry; an expired entry is dropped, every other kept |
| `Caching.LookedUp` | internal/k8s/cache.go:44-58 | an entry counts up to the instant at which it expires; a lookup drops at most its own key, and only once expired |
| `Caching.Cache.Set` | internal/k8s/cache.go:61-68 | one entry is replaced and expires a ttl from now |
| `Caching.Cache.Delete` | internal/k8s/cache.go:71-75 | one key goes |
| `Caching.Cache.DeletePrefix` | internal/k8s/cache.go:78-86 | the loop removes every key with the prefix and no other |
| `CacheRace.InitInv` | internal/k8s/cache.go:35-40 | an empty cache satisfies the refinement |
| `CacheRace.StepKeepsInv` | internal/k8s/cache.go:44-86 | each step of any goroutine keeps the stored entries a subset of the ideal map, the last values set and not deleted, and every hit its value |
| `CacheRace.LossyRefinement` | internal/k8s/cache.go:44-86 | over every interleaving the cache is a lossy refinement of that map, and a hit returns the value the map had when Get looked, set at most a ttl before the expiry check |
| `CacheRace.LostIffEvicted` | internal/k8s/cache.go:44-86 | after every interleaving the cache misses a value that the ideal map has if and only if some Get evicted its key after it was last set |
| `CacheRace.EvictedHadExpired` | internal/k8s/cache.go:44-58 | if nobody sets the key between a Get's look and its eviction, what the eviction removes has expired |
| `CacheRace.EvictionLosesFreshValue` | internal/k8s/cache.go:49-54 | without that guard it fails: a run in which the late eviction of a Get removes a value that is still fresh |
| `Keys.KeyShowsKind` | internal/k8s/client.go:180-267 | a cache key determines which kind of view it stands for |
| `Keys.KeyInjective` | internal/k8s/client.go:180-267 | for colon-free namespaces and types, and any object names, two views share a key if and only if they are equal |
| `Keys.KeyCollision` | internal/k8s/client.go:180 | with colons in a namespace two listings do share a key |
| `Keys.KeysOfExact` | internal/k8s/client.go:410-417 | the keys that invalidation names are those of the object's views, its listing and the logs of its name, and no other view's |
| `ClientSpec.InvalidatedExactly` | internal/k8s/client.go:410-417 | after invalidation an entry is left if and only if it is of none of these views, and unchanged |
| `ClientSpec.DiscoveredExact` | internal/k8s/client.go:148-172 | the merge keeps a name if and only if some browsable resource has it, with the first such hit in server order |
| `ClientSpec.AskTyped` | internal/k8s/client.go:112-362 | a cached value always has the type its reader asserts, and reads never change the server |
| `ClientSpec.AskStable` | internal/k8s/client.go:112-362 | at one instant, reading one view leaves the answer of every other view as it was |
| `K8s.Client.ListNamespaces` | internal/k8s/client.go:112-130 | answers from the cache or with the server's names in order, and remembers only successes |
| `K8s.Client.DiscoverResources` | internal/k8s/client.go:134-176 | the groups that answer count, a failing discovery is an error only if none does; the outcome is remembered even if it is partial |
| `K8s.Client.MergeLists` | internal/k8s/client.go:148-172 | the two nested loops compute the first-hit merge |
| `K8s.Client.ListObjects` | internal/k8s/client.go:179-201 | the listing through the cache, sorted by name |
| `K8s.Client.GetObjectYAML` | internal/k8s/client.go:204-222 | the YAML view through the cache |
| `K8s.Client.GetObjectJSON` | internal/k8s/client.go:225-244 | the JSON view, with its final newline, through the cache |
| `K8s.Client.DescribeObject` | internal/k8s/client.go:248-263 | the description through the cache |
| `K8s.Client.GetPodLogs` | internal/k8s/client.go:266-286 | the logs through the cache |
| `K8s.Client.GetObjectData` | internal/k8s/client.go:346-364 | the decoded data map through the cache; an undecodable secret is an error and is not remembered |
| `K8s.Client.Extract` | internal/k8s/client.go:421-440 | the loop decodes every string value in any order, or fails if and only if some value of a secret is not base64 |
| `K8s.Client.CreateObject` | internal/k8s/client.go:289-311 | a parsed document is created, and the type's listing forgotten |
| `Outcomes.CreateObjectDecides` | internal/k8s/client.go:289-311 | when creating succeeds, with which error it fails, and what it stores |
| `K8s.Client.ApplyObject` | internal/k8s/client.go:314-341 | a parsed document with a name replaces the object, whose views are forgotten; errors change nothing |
| `Outcomes.ApplyObjectDecides` | internal/k8s/client.go:314-341 | when replacing succeeds, and with which error it fails |
| `K8s.Client.UpdateObjectDataKey` | internal/k8s/client.go:368-396 | reads the object, sets one key of its data map, writes it back with all it fetched, and forgets its views |
| `K8s.Client.DeleteObject` | internal/k8s/client.go:399-407 | the object goes and its views are forgotten |
| `K8s.Client.InvalidateObject` | internal/k8s/client.go:410-417 | the six keys of the object go from the cache |
| `Base64.EncodedAscii` | internal/k8s/client.go:379 | an encoded value is printable ASCII, so JSON transport leaves it alone |
| `Base64.RoundTrip` | internal/k8s/client.go:379-430 | decoding an encoded value gives it back, for all byte strings |
| `Base64.FollowsStandard` | internal/k8s/client.go:379-430 | encoding and decoding are those of the RFC: letters and bytes have the same bits, first ones highest, over its alphabet, with its padding |
| `Base64.DecodesIff` | internal/k8s/client.go:430 | a text decodes if and only if it is whole quadruples of letters, with at most two bytes of padding at the very end |
| `Base64.StripExact` | internal/k8s/client.go:430 | before that, line breaks are dropped and nothing else |
| `Utf8.CoerceIdentity` | internal/k8s/client.go:381 | a value survives JSON transport if and only if it is well-formed UTF-8 |
| `Utf8.CoerceValid` | internal/k8s/client.go:381 | what transport delivers is always well-formed |
| `Utf8.CoerceExact` | internal/k8s/client.go:381 | transport keeps the encoding of a code point wherever one starts, and replaces every other byte by U+FFFD |
| `Api.ChangesKeepServerOk` | internal/k8s/client.go:289-407 | every accepted change leaves versions below the revision counter, names equal to keys and strings well-formed |
| `ReadYourWrites.OtherKeysUnchanged` | internal/k8s/client.go:368-396 | an update of one key leaves every other key, and the rest of the object, as it was |
| `ReadYourWrites.WrittenKey` | internal/k8s/client.go:378-382 | the written key decodes to the written bytes in a secret, and to their transported form elsewhere |
| `ReadYourWrites.ExtractedExactly` | internal/k8s/client.go:346-440 | reading the updated object returns exactly the written bytes if and only if, for a secret, all other values decode, and otherwise the bytes are UTF-8 |
| `ReadYourWrites.ReadYourWrites` | internal/kubefs/fs.go:361-427 | after a successful flush of a data file the next fetch asks the server again and yields the flushed buffer if and only if that condition holds; other keys and objects are unchanged |
| `ReadYourWrites.ReadYourWritesOverRuns` | internal/kubefs/fs.go:361-427 | the same, for the content and for a handle opened on the file, after any run in between during which the key keeps its value and the object decodes, whatever else others do to it, no read of it fails, and no node of another group or version asks for a view with its key, however the caches fill and expire |
| `ReadYourWrites.StableAsksOwn` | internal/k8s/client.go:346-364 | no node ever does if discovery gives each type one group and version |
| `ReadYourWrites.SpoiledSecret` | internal/k8s/client.go:421-440 | where the condition fails for a secret, the flush succeeds and the file then reads as the text of a decoding error |
| `ReadYourWrites.BadSiblingHidesSecret` | internal/k8s/client.go:421-440 | an object of another group's type secrets whose one undecodable value does so to every write of another key |
| `ReadYourWrites.BinaryConfigMapChanges` | internal/k8s/client.go:381 | the byte FF written to a config map reads back as the three bytes of U+FFFD |
| `Rmw.RefusedIffStale` | internal/k8s/client.go:368-396 | the server refuses a writer if and only if the object changed since its fetch or is gone |
| `Rmw.UpdatesOneKey` | internal/k8s/client.go:373-387 | one update is one assignment to the stored data map |
| `Rmw.MoveKeepsRaceOk` | internal/k8s/client.go:368-396 | every fetch and update of any writer, and everything others do to the object, keeps what writers hold at or behind the stored version |
| `Rmw.NothingLost` | internal/k8s/client.go:368-396 | after every interleaving of writers with other changes, deletions and creations of the object, the object is what it was with all that happened to it applied in the order of acceptance |
| `Rmw.LastWriteStands` | internal/k8s/client.go:368-396 | an accepted write is there in the end unless a later write or somebody else's change took its value away |
| `Rmw.UninterruptedIsUpdate` | internal/k8s/client.go:368-396 | the two halves in a row are UpdateObjectDataKey |
| `Rmw.WritesCommute` | internal/k8s/client.go:368-396 | two sequential writes commute, caches and server included, if and only if their keys differ or they store the same value |
| `Rmw.UnversionedLosesWrite` | internal/k8s/client.go:368-396 | without resource versions, two overlapping writers lose a write |
| `Kubefs.ContentProvider.GetContent` | internal/kubefs/content.go:35-71 | each node is served by the call and the view its fields name; a missing key and other nodes are errors |
| `Kubefs.ContentProvider.CreateContent` | internal/kubefs/content.go:74-81 | creates under the node's type and namespace |
| `Kubefs.ContentProvider.ApplyContent` | internal/kubefs/content.go:84-106 | a data file updates its key, yaml and json replace the object, all else is refused |
| `Kubefs.OpenFile.Write` | internal/kubefs/fs.go:347-355 | the buffer is overlaid with the data, grown with zeros to reach that far, and marked |
| `Kubefs.OpenFile.Truncate` | internal/kubefs/fs.go:185-188 | the buffer is cut and neither grown nor marked |
| `Kubefs.FS.constructor` | internal/kubefs/fs.go:87-98 | a new filesystem has the root alone, no handles, and hands out 1 first |
| `Kubefs.FS.AllocHandle` | internal/kubefs/fs.go:103-109 | the counter's value is handed out and the counter moves on |
| `Kubefs.FS.Lookup` | internal/kubefs/fs.go:120-136 | the parent is brought in line with the server first, then the name is looked up |
| `Kubefs.FS.Children` | internal/kubefs/fs.go:144-155 | the listing after that is each child once, each name preceding all that come after it |
| `Outcomes.NoDirectory` | internal/kubefs/fs.go:120-155 | looking up or listing what is no directory finds nothing and asks nobody |
| `Kubefs.FS.GetAttr` | internal/kubefs/fs.go:158-170 | a file's size is the length of the content it would read; link count and permission bits follow the node and the verbs |
| `Kubefs.FS.ModeWithVerbs` | internal/kubefs/inode.go:68-96 | the permission bits: of a directory, of a writable file, and without the write bit of any other file or without the update verb |
| `Outcomes.GetAttrDecides` | internal/kubefs/fs.go:158-170 | kind, name of the file and update verb decide what stat shows |
| `Kubefs.FS.Truncate` | internal/kubefs/fs.go:173-193 | any one verb lets it through; exactly the buffers open on the node are cut |
| `Kubefs.FS.CutBuffers` | internal/kubefs/fs.go:182-191 | the loop cuts each open file of the node once, in any order |
| `Outcomes.TruncateDecides` | internal/kubefs/fs.go:173-193 | a truncation needs a live node and any one verb, and then cuts exactly the longer buffers open on the node |
| `Kubefs.FS.Remove` | internal/kubefs/fs.go:197-233 | a directory needs the delete verb, an object behind it and a successful delete; a file only leaves the tree, and only under a resource type |
| `Changes.RemoveDirDecides` | internal/kubefs/fs.go:197-233 | removing a directory succeeds if and only if the verb is on and it stands for an object that is there and whose delete succeeds; then the server loses that object alone and the tree that subtree alone, otherwise nothing changes |
| `Changes.RemoveFileDecides` | internal/kubefs/fs.go:197-233 | removing a file never touches the server |
| `Changes.NothingToRemove` | internal/kubefs/fs.go:197-201 | a name that is not there is ENOENT |
| `Changes.RemoveForgets` | internal/k8s/client.go:399-417 | after a removal the client remembers no file of the object and no listing with it |
| `Changes.RemovedStaysAway` | internal/kubefs/fs.go:120-233 | after a removal and any run in which nobody creates the object again, a lookup of its name in its type fails |
| `Kubefs.FS.CheckCreate` | internal/kubefs/fs.go:238-252 | which creates are refused, and with which error |
| `Kubefs.FS.CreateAndOpen` | internal/kubefs/fs.go:237-275 | finds or adds the node and opens it empty and pending under a new handle |
| `Outcomes.CreateDecides` | internal/kubefs/fs.go:237-275 | verb, parent and ending of the name decide a create, with which error; it opens the child of that name, there or new, empty and pending under the next handle |
| `Kubefs.FS.OpenFile` | internal/kubefs/fs.go:278-295 | a new handle holds the fetched content |
| `Outcomes.OpenDecides` | internal/kubefs/fs.go:278-295 | opening fails only for a node that is not there |
| `Kubefs.FS.ReadHandle` | internal/kubefs/fs.go:298-317 | at most the asked-for bytes from the offset; past the end nothing and no error |
| `Outcomes.ReadDecides` | internal/kubefs/fs.go:298-317 | length and bytes of a read, for every offset |
| `Kubefs.FS.WriteHandle` | internal/kubefs/fs.go:320-358 | verb and node decide; an accepted write changes one buffer |
| `Outcomes.WriteDecides` | internal/kubefs/fs.go:320-358 | handle, verb, kind and name of the file decide a write, with which error, and it changes no other handle, cache or node |
| `Kubefs.FS.FlushHandle` | internal/kubefs/fs.go:361-396 | a clean or unknown handle does nothing; a dirty one is sent and, on success only, marked clean and its inode's cached content dropped |
| `Changes.FlushForgets` | internal/k8s/client.go:314-417 | after a successful flush the client remembers no file of the changed object, whichever way it renders it |
| `Outcomes.FlushDecides` | internal/kubefs/fs.go:361-396 | verb and server decide a flush; a failed one leaves the handle dirty and the server as it was |
| `Outcomes.SendDecides` | internal/kubefs/content.go:74-106 | a pending file is sent as a new object, a key file as its key, yaml and json as a replacement, and nothing else |
| `Kubefs.FS.ReleaseHandle` | internal/kubefs/fs.go:399-403 | the handle goes, unsent data included |
| `Outcomes.ReleaseDecides` | internal/kubefs/fs.go:399-403 | one handle goes and nothing else |
| `Kubefs.FS.FetchContent` | internal/kubefs/fs.go:406-427 | content younger than the TTL, or else a fetch whose outcome, error text included, is remembered |
| `Served.FetchesShown` | internal/kubefs/content.go:35-71 | with nothing remembered, a fetch yields by kind and name of the file the YAML, JSON or description of the stored object, its log, or its decoded key, and in all other cases the text of the error that says why; and it remembers that |
| `Served.ReadsObject` | internal/k8s/client.go:204-263 | YAML, JSON and description are of the object with the caller's group, version, type, namespace and name, the description with the caller's kind |
| `Served.FetchesRemembered` | internal/kubefs/fs.go:406-411 | content less than 30 seconds old is served without asking anybody |
| `Served.SuccessRemembered` | internal/k8s/client.go:112-362 | a success is answered again for a ttl, whatever the server has meanwhile; a failure is not remembered |
| `Kubefs.FS.EnsureChildren` | internal/kubefs/fs.go:447-462 | dispatches on the node type to the listing that brings its children in line |
| `Kubefs.FS.PopulateNamespaces` | internal/kubefs/fs.go:464-483 | the root's children become the namespaces |
| `Kubefs.FS.PopulateResourceTypes` | internal/kubefs/fs.go:485-507 | a namespace's children become the discovered types with their group and version |
| `Kubefs.FS.PopulateObjects` | internal/kubefs/fs.go:509-538 | a type's children become its objects |
| `Kubefs.FS.PopulateActionFiles` | internal/kubefs/fs.go:540-574 | an object's children become its action files and, for two types, data |
| `Kubefs.FS.PopulateDataKeys` | internal/kubefs/fs.go:576-606 | a data directory's children become the object's keys |
| `Authority.AuthorisedMutation` | internal/kubefs/fs.go:173-396 | in every run each change of the server is somebody else's, the delete of an object's directory under the delete verb, or an update under the update verb that carries the buffer of a handle written in that run |
| `Authority.DirtyWasWritten` | internal/kubefs/fs.go:320-358 | a handle is dirty only after an accepted write to it under the update verb |
| `Authority.ReadOnlySafe` | internal/kubefs/fs.go:173-396 | without update and delete no sequence of operations changes the server; without update none alters an object, without delete none removes one, and none ever adds one |
| `Authority.NoCreateReachesServer` | README.md:125-127 | contrary to the documentation: whenever CreateAndOpen succeeds, in any run, then in every continuation its handle and every handle opened on its node is clean, refuses every write, and sends nothing |
| `Creation.CreatedThenRefused` | internal/kubefs/fs.go:237-345 | a run in which, with all verbs on, a create of a .yaml file succeeds and every write to it is refused |
| `Authority.WriteAcceptedIff` | internal/kubefs/fs.go:320-345 | in reachable states a write is accepted if and only if the update verb is on and the open node is a data file or a file named yaml or json |
| `Authority.WriteBitIsTrue` | internal/kubefs/inode.go:68-96 | the write bit of a file is set if and only if a handle opened on it takes writes |
| `Authority.FlushMeetsNoRefusal` | internal/kubefs/content.go:91-105 | a flush never reaches the provider's read-only and not-a-file branches |
| `Flushes.AtMostOncePerWrite` | internal/kubefs/fs.go:361-396 | over any run a handle sends at most once per accepted write |
| `Flushes.AtMostOnceBetweenWrites` | internal/kubefs/fs.go:361-396 | between writes at most one flush sends, and none if the handle was clean |
| `Flushes.HandlesNeverReused` | internal/kubefs/fs.go:103-109 | over any run a closed handle number never opens again |
| `Buffers.BufferRefines` | internal/kubefs/fs.go:182-355 | after any writes and truncations the buffer is the abstract file: last write wins, gaps are zero, bytes cut off never return |
| `Buffers.BufferOverRuns` | internal/kubefs/fs.go:278-358 | over any run a buffer is decided by the writes to its handle and the truncations of its node alone |
| `Buffers.BytesOverRuns` | internal/kubefs/fs.go:278-358 | the same byte by byte |
| `Buffers.SizeIsWhatOpens` | internal/kubefs/fs.go:158-170 | the reported size is the length of what opening the file then yields, while the fetched content is fresh |
| `Slices.Buffer.Copy` | internal/kubefs/fs.go:286-289 | an opened file gets an array of its own with the cached bytes |
| `Slices.Buffer.Write` | internal/kubefs/fs.go:347-354 | in place or in a fresh zeroed array, the contents are the overlay, whatever the old array holds beyond its length |
| `Slices.Buffer.Truncate` | internal/kubefs/fs.go:185-188 | reslicing in place cuts the contents |
| `Slices.Buffer.Read` | internal/kubefs/fs.go:307-316 | what fits is copied out, and nothing else of the caller's array changes |
| `Slices.Buffers.Open` | internal/kubefs/fs.go:278-295 | no two files, and no file and cache, ever share an array |
| `Slices.Buffers.Write` | internal/kubefs/fs.go:320-358 | other files' bytes and both caches' bytes stay as they are |
| `Staleness.StalenessBound` | internal/kubefs/fs.go:406-427 | after any run with colon-free names, whatever discovery answered in it, fetched bytes are an error text or were, less than content TTL plus cache ttl ago, the server's content for the node of that kind, namespace, type, object and file under the group and version that the serving entry was asked for; if those are the node's own, for the node itself |
| `Staleness.StableBound` | internal/kubefs/fs.go:406-427 | if discovery gives each type one group and version throughout, it is the node's own content less than that long ago |
| `Staleness.ContentNeverCrosses` | internal/kubefs/fs.go:406-424 | what the content cache holds under an ID was fetched for the kind, namespace, type, object and file of the only node that ever had it, also after removal and re-creation, and was true at most a cache ttl before under the recorded group and version |
| `Outages.OtherGroupServed` | internal/k8s/client.go:204-267 | a run of reads, on a server that never changes, after which a file's bytes are another group's, and at no instant of the run were the file's own |
| `Outages.OtherGroupLabelled` | internal/k8s/client.go:204-267 | in every run in which that happens on that server, the serving entry was asked for under another group or version than the file's |
| `Saving.SavesWhatWasOpened` | internal/kubefs/fs.go:278-396 | after any run a file is opened, and after any further run flushed: the update it sends carries what the open found with exactly the accepted writes and truncations in between applied, and the open found an error's text or the server's content within the staleness bound |
| `Saving.OpensErrorIff` | internal/kubefs/fs.go:278-295 | unless a cache answers, an opened data file holds an error's text if and only if the call fails, the object is gone or does not decode, or the key is missing |
| `Saving.ErrorTextSaved` | internal/kubefs/fs.go:278-396 | opened while its object cannot be fetched, written to with no bytes, and flushed once calls work again, a data file puts the text of the error under its key |
| `Saving.DocumentStored` | internal/k8s/client.go:314-341 | a flushed yaml or json file stores its document under the name in it and changes no other object |
| `Saving.DocumentDecides` | internal/k8s/client.go:329-340 | the file's own object changes if and only if the document has its name; then the next fetch renders the document as stored, and otherwise it answers as if there had been no flush |
| `Naming.StartNamed` | internal/kubefs/fs.go:87-98 | a new filesystem over a properly named server is properly named |
| `Naming.StepNamed` | internal/kubefs/fs.go:464-606 | while other users name things properly, every node and view in the filesystem is properly named |
| `Interleave.DoKeepsWorld` | internal/kubefs/fs.go:103-427 | every critical section of every thread keeps the weak tree invariant, one node per ID, one owner per handle, and every cached answer under the view it was asked for |
| `Interleave.EntriesLeadToLiveNodes` | internal/kubefs/inode.go:169-238 | under every interleaving an index entry leads to a live node of that name and parent with a larger ID |
| `Interleave.ContentStaysInItsView` | internal/kubefs/fs.go:406-427 | under every interleaving, cached content and an open file's content is an error text or the answer to a question about the very view of the node that has it, the only node that ever had the ID; it may have been asked under another group or version |
| `Interleave.SameVersionSameQuestion` | internal/k8s/client.go:204-267 | if it was asked under the same group and version, it answers the question that node itself asks |
| `Interleave.InsertionIsNew` | internal/kubefs/fs.go:265-294 | a handle inserted after its allocation is not zero and replaces no open file |
| `Interleave.NoComebacks` | internal/kubefs/fs.go:103-109 | under every interleaving a retired handle never opens again and a dead ID never lives again |
| `Interleave.RemovesExactly` | internal/kubefs/inode.go:198-238 | an act takes a live node out of the tree if and only if it removes, or lists a directory without, the node's own name or that of an ancestor |
| `Interleave.CrashIffRemoved` | internal/nfsmount/billy.go:55-73 | a walk whose last lookup found a node crashes on a nil inode if and only if, before GetInode, another thread removed a name that heads the node or listed a directory without that name; otherwise it gets that node |
| `Interleave.NilPossible` | internal/nfsmount/billy.go:64-72 | an interleaving of a walk and a listing that ends so |
| `Interleave.AddKeepsGoodIff` | internal/kubefs/inode.go:169-195 | adding a child keeps the full invariant if and only if the parent is a live directory |
| `Interleave.OrphanPossible` | internal/kubefs/inode.go:173-176 | an interleaving that leaves a live node no path leads to |
| `PathSpec.DescendSnoc` | internal/nfsmount/billy.go:64-71 | walking one more component is one more lookup |
| `Paths.ResolveRefinesListing` | internal/nfsmount/billy.go:55-73 | with stable discovery and no pending create under a listed name, a path resolves if and only if each component is in the client's listing of what precedes it, to a live node with that path and its coordinates |
| `Paths.ResolveIsLookup` | internal/nfsmount/billy.go:55-86 | resolving a path is looking its last name up in what parentAndName finds |
| `Paths.DescendLive` | internal/nfsmount/billy.go:55-73 | a walk never ends at a node that is gone |
| `Paths.ShadowHidesObject` | internal/kubefs/fs.go:254-263 | a pending file under a listed object's name hides the object |
| `Cursors.ReadsAreOneStretch` | internal/nfsmount/billy.go:236-246 | successive reads of any sizes return one stretch of the buffer without gap or repetition |
| `Cursors.WritesAreOneWrite` | internal/nfsmount/billy.go:255-262 | successive writes act as one write of everything |
| `Cursors.WrittenComesBack` | internal/nfsmount/billy.go:236-262 | what is written to an empty file is what a reader gets, however either side cuts it up |
| `NfsMount.BillyFS.constructor` | internal/nfsmount/billy.go:44-53 | starts with no files over a filesystem without handles |
| `NfsMount.BillyFS.Resolve` | internal/nfsmount/billy.go:55-73 | the loop is the walk by lookups |
| `NfsMount.BillyFS.ParentAndName` | internal/nfsmount/billy.go:75-86 | the parent resolves to a live directory node or to the error, and never to nil |
| `NfsMount.BillyFS.Create` | internal/nfsmount/billy.go:89-110 | files and open handles stay in one-to-one correspondence; the state is that of resolve and create |
| `Changes.CreateAtDecides` | internal/nfsmount/billy.go:75-110 | the last name is created in what the rest resolves to |
| `NfsMount.BillyFS.OpenFile` | internal/nfsmount/billy.go:118-144 | the same for opening; a directory gets a file without a handle |
| `Changes.OpenAtDecides` | internal/nfsmount/billy.go:118-144 | a file is opened with a handle, a directory without |
| `NfsMount.BillyFS.Remove` | internal/nfsmount/billy.go:183-193 | the same for removing |
| `Changes.RemoveAtDecides` | internal/nfsmount/billy.go:183-193 | the kind of node that the path leads to decides whether an object is deleted, and never for a file |
| `NfsMount.BillyFile.Read` | internal/nfsmount/billy.go:236-246 | reads at the cursor and moves it by what was read; nothing read is the end of the file |
| `NfsMount.BillyFile.Write` | internal/nfsmount/billy.go:255-262 | writes at the cursor and moves it by what was written |
| `NfsMount.BillyFile.Close` | internal/nfsmount/billy.go:280-295 | closing again sends nothing; a failed flush keeps the handle on both sides, a successful one drops it from both |
| `Mounts.MountIsRun` | internal/nfsmount/billy.go:55-300 | whatever the adapter is used for, the filesystem goes through a run of its own operations, and so keeps what every run keeps |
| `Mounts.NextOk` | internal/nfsmount/billy.go:55-300 | every operation keeps handles distinct, a handle open if and only if its file is held, every file that was not closed held, and a closed one held only if it is dirty |
| `Closing.OnlyCloseSends` | internal/nfsmount/billy.go:280-295 | each change of the server is somebody else's, a removal's, or the update carrying the buffer of the file whose first Close this is |
| `Closing.DataFileTaken` | internal/k8s/client.go:368-396 | on a consistent server a data file's buffer is taken if and only if its object is there and neither call fails |
| `Closing.FirstCloseDecides` | internal/nfsmount/billy.go:280-295 | over every run before and after the first Close of a file, its handle is gone from the adapter's and the filesystem's side if and only if at that Close it was clean or the server would take its buffer; otherwise both keep it, dirty |
| `Closing.StrandedForEver` | internal/nfsmount/billy.go:280-295 | a file that is closed and still holds its handle stays so, and dirty, in every run of the adapter |
| `Closing.StrandedNeverSends` | internal/nfsmount/billy.go:280-295 | and no change of the server in any such run comes from it |
| `Unsaved.NoDocument` | internal/nfsmount/billy.go:280-295 | a run from the start in which no call fails and a Close does, of a yaml file edited into something that is no document |

## Left out

- The Kubernetes client libraries, discovery, log streaming, kubeconfig loading and the network: `Api` stands for them.
- The server's own admission and defaulting: it stores what it is sent, apart from the resource version and JSON transport.
- YAML and JSON encoding, `formatDescription`, and the wording of errors: parameters of the model. A failing encoder is not modelled.
- The go-fuse adapter, NFS start-up, mount commands, signals, daemon mode, cobra commands and `hack/`: wrappers and process I/O.
- ParseVerbs, ownership, access time and StatFS: they would only add easy members.
- `filepath.Clean` and splitting at slashes: paths are cleaned sequences of components.
- `Open`, `Stat`, `ReadDir`, `ReadAt`, `Seek` and `Truncate` of the billy adapter as methods: they pass through to what is modelled, and are operations of `Mounts`; with `Seek`, a cursor that becomes negative or is set from the end.
- Negative offsets, and sizes that do not fit an int: callers pass neither.
- The 64-bit wrap-around of inode IDs and handle numbers: both are unbounded here.
- Pointer identity of inodes: two references to one node are equal IDs, which `Interleave.NoComebacks` justifies.
- Concurrent operations on one handle: `buf` is changed outside any lock, so one operation at a time is the caller's part.
- Read-your-writes under concurrency or between sibling views (`yaml` against `data/KEY`): the code does not provide it.
- Creating objects through the filesystem as a success: see above.
- Kubefs.OpenFile.Write: the buffer is a value here; in-place update of the array, and that no array is shared, is proved in `Slices`.
- Kubefs.FS.GetAttr: size, link count, permission bits and modification time only.
- Interleave.DoKeepsWorld: what the server answers is any value; how old it is under concurrency is not stated, and a flush is one step of the caches.
- Staleness.StalenessBound: for sequential runs, and for namespaces and types without colons, see `Keys.KeyCollision`.
- Closing.FirstCloseDecides: a failing call has no effect on the server; an update that is accepted but whose reply is lost is not modelled.
- Paths.ResolveRefinesListing: all lookups of one walk happen at one clock reading and against one state of the server.
- NfsMount.BillyFS.Remove: the correspondence of files and handles assumes that only this adapter drives the filesystem.
