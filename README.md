# walacor-data-tracker lineage ledger, in Dafny

This project models the in-memory core of walacor-data-tracker, a lineage tracker for data pipelines, and proves properties of the model. Every transformation reported by an adapter becomes an immutable **Snapshot**. The **Tracker** drops a report when it repeats the last one for the same artifact. Otherwise it appends the snapshot to a bounded **History** and publishes it on an **event bus**.

The History is a ring buffer with a parent index and a child index. `append` evicts the oldest snapshot when the buffer is full, and then removes the evicted snapshot's edges from the indices.

Some smaller pieces are modelled as well:

- the `BaseAdapter` start/stop switch;
- `jsonify`, which prepares values for JSON;
- the read-side queries of the Walacor catalog, with the SDK store taken as a fixed function from request to rows.

Layout, one module per file:

| file | module | source |
|---|---|---|
| `wrappers.dfy` | `Wrappers` | `Option` |
| `seqs.dfy` | `Seqs` | list helpers: `dict.get(k, [])`, `list.remove`, counting |
| `text.dfy` | `Text` | code-point order, `sorted(set(...))`, `",".join`, `str()` of ints, tuples and lists |
| `snapshot.dfy` | `Snapshots` | `src/walatrack/core/snapshot.py` |
| `history.dfy` | `Histories` | `src/core/history.py` |
| `events.dfy` | `Events` | `src/walatrack/core/events.py` |
| `core_events.dfy` | `CoreEvents` | `core/events.py` |
| `tracker.dfy` | `Trackers` | `src/walatrack/core/tracker.py` |
| `adapter.dfy` | `Adapters` | `src/walatrack/adapters/base.py` |
| `json.dfy` | `Json` | `src/walacor_data_tracker/writers/walacor/_json.py` |
| `catalog.dfy` | `Catalog` | `src/walacor_data_tracker/writers/walacor/catalog.py` |

The modelling follows the form of the code:

- `History`, `Tracker`, both `EventBus`es, `BaseAdapter` and `Catalog` are classes whose fields change in place.
- Their loops are `while` loops proved against pure specification functions:
  - `AppendSpec` and `Unlink` for History;
  - `Deliver` and `Removed` for the buses;
  - `Summary` for the catalog.
- The properties are proved about those functions.

### What the model shows about the source

These three behaviours are stated and proved as the code does them:

- **Eviction can raise.** `_remove_snapshot` pops the evicted id's whole child list. When a later eviction reaches one of those children, `self._children.get(p, []).remove(sid)` raises ValueError. By then the buffer and `_parents` have already changed.
  - `Histories.AppendSucceedsIff` states exactly when `append` gets through.
  - `Histories.ChainEviction` exhibits a four-snapshot chain at capacity 2 whose fourth append raises.
  - `History.Append` returns `ok == false` together with the state the source leaves behind at the error.
  - Along appends that get through, `_children` follows the buffer in both directions. Nothing is claimed for a failed append, which stops unlinking part-way.
    - `Histories.AppendChildrenSound`: every listed child is buffered and has a parent edge behind it, so an evicted snapshot is never named.
    - `Histories.AppendChildrenComplete`: every parent edge from a retained snapshot to an older retained one is listed.
    - Together, `_children[p]` lists each retained snapshot younger than `p` exactly as often as that snapshot names `p` (`Histories.ChildrenListed`, `Histories.History.ChildrenOf`).
- **The fingerprint parts run together.** `_make_fp` feeds five parts to one blake2b with no separator between them. Operation `"a"` with parent `"b"` therefore gets the same fingerprint as operation `"ab"` with no parents (`Trackers.FingerprintCollision`).
- **The walatrack bus is global.** Its registry is a class attribute, so every `EventBus` instance shares subscriptions, and `reset` on one clears them for all. The model passes one registry object to every bus; `Events.SharedRegistry` shows two buses over the same registry seeing each other's subscriptions and reset.

`src/walatrack/core/tracker.py` imports a History from `src/walatrack/core/history.py`, which is not part of this model. The History of `src/core/history.py`, which has the same interface, stands in for it.

## Model

| member | source | states |
|---|---|---|
| Snapshots.NewSnapshot | src/walatrack/core/snapshot.py:31-39 | a snapshot holds the operation, shape and parents it was built with; its id and timestamp come from the factories, not from the caller |
| Snapshots.NewSnapshotDefaults | src/walatrack/core/snapshot.py:33-36 | omitted fields default to no parents, no args, no kwargs and no artifact |
| Snapshots.ShapeStr | src/walatrack/core/snapshot.py:44 | `str(shape)` is `None` exactly for a missing shape; a tuple never prints as `None` |
| Snapshots.ParentLabel | src/walatrack/core/snapshot.py:42 | `<root>` for no parents; otherwise the ids joined by commas, in order, so that splitting on commas gives them back when no id holds a comma |
| Snapshots.Repr | src/walatrack/core/snapshot.py:41-46 | `__repr__` opens with `<Snapshot `, the timestamp and ` op=` with the operation, then ` shape=`; it closes with ` parents=`, the parent label and `>` (`parents=<root>>` for a root snapshot) |
| Snapshots.ReprParents | src/walatrack/core/snapshot.py:41-46 | the parents can be read back from a repr: the label before the closing `>` splits into the parent ids |
| Histories.CapacityOf | src/core/history.py:11 | capacity is `max_len`, or 1000 when it is None or 0; a negative `max_len` is refused |
| Histories.Push | src/core/history.py:22-26 | the deque append keeps at most `cap` entries, puts the new one last and drops exactly the oldest when full |
| Histories.PushIds | src/core/history.py:22-26 | a fresh id keeps buffered ids distinct; the ids become the old ones, minus the evicted one, plus the new one |
| Histories.PushParents | src/core/history.py:26-33 | after append, `_parents` has exactly one entry per buffered snapshot, holding its parents |
| Histories.AddChildren | src/core/history.py:29-30 | installing the edges leaves the list of every id that is not a parent unchanged |
| Histories.AddChildrenAt | src/core/history.py:29-30 | each parent's child list gains the new id at its end, once per occurrence of that parent |
| Histories.AddChildrenKeys | src/core/history.py:29-30 | the child index gains exactly the new snapshot's parents as keys |
| Histories.RemoveOnce | src/core/history.py:82-84 | one `remove(sid)` on parent `p`'s list: that list becomes `RemoveFirst` of it and is deleted when left empty; every other list and key is unchanged |
| Histories.RemoveOnceKeepsOrder | src/core/history.py:82 | when `sid` is in `p`'s list, exactly its first occurrence goes and the other children of `p` keep their order |
| Seqs.RemoveFirstDrops | src/core/history.py:82 | the list model of Python's `lst.remove(x)` drops exactly the first occurrence of `x` and keeps the other elements in order |
| Histories.RemoveOnceCount | src/core/history.py:82 | removing from a list that holds the id lowers its count there by exactly one |
| Histories.Unlink | src/core/history.py:81-84 | the unlinking loop never adds a key to the child index, and can only fail when the evicted snapshot has parents |
| Histories.UnlinkAt | src/core/history.py:81-84 | unlinking touches only the evicted snapshot's parents; on success each loses the evicted id once per occurrence |
| Histories.UnlinkNoEmpty | src/core/history.py:83-84 | a child list left empty is deleted |
| Histories.UnlinkSucceedsIff | src/core/history.py:81-84 | the loop raises ValueError unless every parent lists the id at least as often as the parent occurs |
| Histories.AppendSpec | src/core/history.py:16-33 | append always pushes the snapshot onto the buffer, even when the eviction then raises; without an eviction it never raises |
| Histories.AppendWellFormed | src/core/history.py:16-33 | append keeps the capacity bound, distinct ids, `_parents` matching the buffer and no empty child list, whether or not the eviction raised (how `_children` follows the buffer is stated by `Histories.AppendChildrenSound` and `Histories.AppendChildrenComplete`) |
| Histories.AppendChildrenSound | src/core/history.py:16-33 | a successful append keeps `_children` sound: every listed child is a buffered snapshot, listed under `p` no more often than it names `p` as a parent; the evicted id is then in no child list |
| Histories.AppendChildrenComplete | src/core/history.py:16-33 | a successful append keeps `_children` complete: for every retained snapshot `p` and every younger retained snapshot `c`, `_children[p]` lists `c` at least as often as `_parents[c]` names `p`; the new snapshot's edges are installed and no edge between kept snapshots is lost to the eviction |
| Histories.NewEdgeListed | src/core/history.py:28-29 | after a successful append, a kept snapshot's list holds the new id at least as often as the new snapshot names that parent |
| Histories.KeptEdgeListed | src/core/history.py:79-86 | after a successful append, the eviction leaves the count of every other kept id in a kept snapshot's list unchanged |
| Histories.EmptyChildrenComplete | src/core/history.py:10-13 | a history with an empty buffer is complete |
| Histories.PrecedesAfterPush | src/core/history.py:25 | a pair in order in the buffer after `deque.append` is either an old snapshot followed by the new one, or a pair that was in order before and avoids the dropped head |
| Histories.ChildrenListed | src/core/history.py:39-40 | under soundness, a parent's child list names only buffered snapshots; adding completeness, it lists each younger buffered snapshot exactly as often as that snapshot names the parent |
| Histories.AppendSucceedsIff | src/core/history.py:22-33 | append gets through exactly when nothing is evicted, or when the evicted snapshot is still listed under each of its parents often enough |
| Histories.AppendChildren | src/core/history.py:26-33 | the child lists after append: new edges at the end; the evicted id removed from its parents' lists; the evicted id's own list gone, even if the new snapshot names it |
| Histories.ChainEviction | src/core/history.py:79-86 | in the chain s1←s2←s3←s4 at capacity 2, evicting s1 drops its child list while s2 still names it; evicting s2 then raises, after the buffer has changed |
| Histories.Matching | src/core/history.py:73-77 | the filtered stream is no longer than the buffer, and every snapshot in it has the requested operation |
| Histories.MatchingMembers | src/core/history.py:73-77 | a snapshot is in the filtered stream exactly when it is buffered and has the operation; for None the stream is the whole buffer |
| Histories.MatchingSingle | src/core/history.py:75-77 | one snapshot is yielded exactly when `op` is None or its operation equals `op` |
| Histories.MatchingAppend | src/core/history.py:75-77 | filtering a concatenation is the concatenation of the filtered parts, so the stream follows buffer order |
| Histories.Traverse | src/core/history.py:42-62 | the stack-and-seen-set walk yields each id reachable by one or more edges exactly once, and nothing else |
| Histories.History.constructor | src/core/history.py:10-13 | a new history is empty, with capacity `max_len or 1000`, and its `_children` is sound and complete |
| Histories.History.Append | src/core/history.py:16-33 | `append` performs exactly `AppendSpec`, keeps the invariant, reports whether `_remove_snapshot` raised (with the iff-condition), and when it succeeds keeps `_children` sound and complete |
| Histories.History.RemoveSnapshot | src/core/history.py:79-86 | drops the id's `_parents` entry, unlinks it from each parent, stops at the first ValueError, then drops its child list |
| Histories.History.ParentsOf | src/core/history.py:36-37 | a buffered snapshot's parents; empty for an id not buffered |
| Histories.History.ChildrenOf | src/core/history.py:39-40 | empty exactly when the index has no list for the id; with a sound index it names only buffered snapshots; with a sound and complete one it lists each snapshot younger than `sid` exactly as often as that snapshot names `sid` |
| Histories.History.AncestorsOf | src/core/history.py:42-51 | each ancestor exactly once; the start id only when it lies on a cycle |
| Histories.History.DescendantsOf | src/core/history.py:53-62 | each descendant exactly once; the start id only when it lies on a cycle |
| Histories.History.Len | src/core/history.py:64-65 | the length never exceeds the capacity |
| Histories.History.GetItem | src/core/history.py:70-71 | Python indexing of the window, negative indices from the end; IndexError outside `-len..len-1` |
| Histories.History.Filter | src/core/history.py:73-77 | the filter loop collects exactly `Matching` |
| Events.Subscribed | src/walatrack/core/events.py:22-23 | the callback goes at the end of the event's list, duplicates allowed; other lists unchanged |
| Events.Unsubscribed | src/walatrack/core/events.py:25-27 | the closure removes one occurrence, and raises ValueError when none is left |
| Events.UnsubscribedKeepsOrder | src/walatrack/core/events.py:27 | the closure's `.remove` drops the callback's first occurrence and keeps the rest of the event's list in order |
| Events.Removed | src/walatrack/core/events.py:31-40 | with an event, one occurrence leaves that list only; without one, one occurrence leaves every list; a list without the callback is untouched |
| Events.RemovedKeepsOrder | src/walatrack/core/events.py:35-40 | on each list `unsubscribe` removes from, the first occurrence goes and the other callbacks keep their order |
| Events.Deliver | src/walatrack/core/events.py:42-47 | the callbacks are called in order until one raises; that one is the last called and its exception propagates |
| Events.EventBus.Subscribe | src/walatrack/core/events.py:17-29 | subscribe performs `Subscribed` on the shared registry and returns the closure |
| Events.EventBus.CallUnsubscriber | src/walatrack/core/events.py:25-27 | calling the closure performs `Unsubscribed`; the registry is unchanged on ValueError |
| Events.EventBus.Unsubscribe | src/walatrack/core/events.py:31-40 | the loop over all events performs exactly `Removed` |
| Events.EventBus.Publish | src/walatrack/core/events.py:42-47 | publish delivers exactly `Deliver` over the list as it was at the call, and leaves the registry alone |
| Events.EventBus.Reset | src/walatrack/core/events.py:61-64 | the registry is empty afterwards |
| Events.EventBus.Enter | src/walatrack/core/events.py:49-50 | `__enter__` returns the bus |
| Events.EventBus.Exit | src/walatrack/core/events.py:52-59 | `__exit__` resets the registry and does not suppress the exception |
| Events.UnsubscriberRemovesEarliest | src/walatrack/core/events.py:22-27 | when the callback was already registered, the new closure removes the earlier registration |
| Events.UnsubscriberOnce | tests/core/test_events.py:23-33 | the closure restores the event's list; a second call raises ValueError |
| Events.UnsubscribedNotDelivered | tests/core/test_events.py:23-33 | after the closure, publish no longer calls the callback |
| Events.RemovedEverywhere | tests/core/test_events.py:36-50 | after `unsubscribe(cb)`, no event delivers to a callback registered at most once per event |
| Events.SharedRegistry | src/walatrack/core/events.py:14-15 | a subscription through one bus is delivered through another; a reset through either ends all delivery |
| CoreEvents.Added | core/events.py:9-12 | a handler is appended only when the event does not already hold it |
| CoreEvents.Dropped | core/events.py:19-21 | a held handler loses one occurrence; otherwise the list is unchanged; other events unchanged |
| CoreEvents.DroppedKeepsOrder | core/events.py:20-21 | a held handler loses its first occurrence and the other handlers keep their order |
| CoreEvents.AddedNoDuplicates | core/events.py:9-12 | a handler appears at most once per event |
| CoreEvents.DroppedNoDuplicates | core/events.py:19-21 | after unsubscribe the handler is no longer in that event's list |
| CoreEvents.SubscribeUnsubscribeRestores | core/events.py:9-21 | subscribing a new handler and unsubscribing it restores every event's list |
| CoreEvents.DroppedNotDelivered | core/events.py:14-21 | after unsubscribe, publish does not reach the handler |
| CoreEvents.Bus.constructor | core/events.py:6-7 | a new bus has no subscribers |
| CoreEvents.Bus.Subscribe | core/events.py:9-12 | subscribe performs `Added` and keeps the no-duplicates invariant |
| CoreEvents.Bus.Publish | core/events.py:14-17 | each handler of the event is called once, in order, until one raises; nothing for an unknown event |
| CoreEvents.Bus.Unsubscribe | core/events.py:19-21 | unsubscribe performs `Dropped` and keeps the invariant |
| CoreEvents.Independent | core/events.py:6-7 | a subscription on one bus is not delivered by another |
| Trackers.ShapeOf | src/walatrack/core/tracker.py:87-89 | the `shape` attribute, else `(len,)`, else None |
| Trackers.KwargsMap | src/walatrack/core/tracker.py:38 | the kwargs dict has exactly the names passed |
| Trackers.SortedItems | src/walatrack/core/tracker.py:45 | `sorted(kwargs.items())`: ascending by name, each name once, with its value |
| Trackers.FingerprintInput | src/walatrack/core/tracker.py:40-45 | the digested text opens with the operation followed at once by the comma-joined parent ids, with no separator |
| Trackers.FingerprintIgnoresKwargsOrder | src/walatrack/core/tracker.py:40-46 | the fingerprint does not depend on the order the keyword arguments came in |
| Trackers.FingerprintCollision | src/walatrack/core/tracker.py:41-45 | the parts run together, so different operation/parent splits can share a fingerprint |
| Trackers.Tracker.MakeFp | src/walatrack/core/tracker.py:32-46 | `_make_fp` gives the same fingerprint for any keyword arguments that make the same dict |
| Trackers.Remember | src/walatrack/core/tracker.py:66-71 | a report is dropped exactly when the artifact's cached fingerprint equals it; otherwise only that entry is overwritten |
| Trackers.RepeatAfterChangeKept | src/walatrack/core/tracker.py:68-71 | A, B, A on one artifact keeps all three |
| Trackers.ArtifactsIndependent | src/walatrack/core/tracker.py:66-71 | a report on one artifact never decides whether another's is dropped |
| Trackers.RepeatDropped | src/walatrack/core/tracker.py:68-70 | the same report twice in a row: the second is dropped |
| Trackers.Tracker.constructor | src/walatrack/core/tracker.py:16-21 | a new tracker is stopped, with an empty cache and a fresh History of capacity `max_history or 1000` whose buffer, parent index and child index are all empty |
| Trackers.Tracker.Start | src/walatrack/core/tracker.py:23-26 | running, `tracker.started` published on every call, returns the tracker |
| Trackers.Tracker.Stop | src/walatrack/core/tracker.py:28-30 | stopped, `tracker.stopped` published on every call |
| Trackers.Tracker.Track | src/walatrack/core/tracker.py:75-102 | while stopped: nothing. Otherwise one snapshot with the operation, shape and parents is appended as `AppendSpec` says, then published once as `snapshot.created` and returned |
| Trackers.Tracker.IdempotentTrack | src/walatrack/core/tracker.py:48-73 | nothing while stopped or on a repeated fingerprint; otherwise the cache entry is replaced before `track` runs |
| Trackers.Tracker.Manual | src/walatrack/core/tracker.py:104-105 | `manual(note, a)` is `_idempotent_track(note, a)` with no args or parents |
| Trackers.NewStarted | src/walatrack/core/tracker.py:16-26 | `Tracker().start()`: running, with an empty cache and an empty History of capacity 1000 |
| Trackers.DuplicateSuppressed | src/walatrack/core/tracker.py:66-73 | the same report twice on one artifact records one snapshot |
| Adapters.BaseAdapter.constructor | src/walatrack/adapters/base.py:9-10 | a new adapter is inactive and has called no hook |
| Adapters.BaseAdapter.Start | src/walatrack/adapters/base.py:18-22 | when inactive, `_patch` is called once and the adapter becomes active unless `_patch` raised; when active, nothing happens; returns the adapter |
| Adapters.BaseAdapter.Stop | src/walatrack/adapters/base.py:24-27 | when active, `_unpatch` is called once and the adapter becomes inactive unless it raised; when inactive, nothing happens |
| Adapters.Completed | src/walatrack/adapters/base.py:18-27 | the hook calls that returned: all of them, in order, when none raised; none when all raised |
| Adapters.Patches | src/walatrack/adapters/base.py:18-27 | the count of completed `_patch` calls equals the log's length exactly when every call was `_patch`, and is 0 exactly when none was |
| Adapters.AlternatingPatches | src/walatrack/adapters/base.py:18-27 | completed `_patch` calls outnumber `_unpatch` calls by one while active, and equal them while inactive |
| Adapters.StartTwice | src/walatrack/adapters/base.py:18-22 | a second start patches nothing |
| Adapters.StartStopStart | src/walatrack/adapters/base.py:18-27 | start, stop, start calls `_patch`, `_unpatch`, `_patch`: a stopped adapter patches again |
| Json.Jsonify | src/walacor_data_tracker/writers/walacor/_json.py:9-23 | the result is always JSON (primitives, dicts and lists of JSON); primitives unchanged; a callable becomes its name or `<lambda>`; a dict stays a dict of the same size; a list, tuple or set becomes a list of the same length; anything else becomes its `str` |
| Json.JsonifyEntries | src/walacor_data_tracker/writers/walacor/_json.py:17-18 | a dict keeps every key in its position, and each value is converted to JSON |
| Json.JsonifyItems | src/walacor_data_tracker/writers/walacor/_json.py:20-21 | a list, tuple or set keeps every element in its position, each converted to JSON |
| Json.JsonifyFixes | src/walacor_data_tracker/writers/walacor/_json.py:9-23 | a value that is already JSON comes back unchanged |
| Json.JsonifyIdempotent | src/walacor_data_tracker/writers/walacor/_json.py:9-23 | `jsonify(jsonify(x)) == jsonify(x)` |
| Catalog.ProjectRequest | src/walacor_data_tracker/writers/walacor/catalog.py:49-55 | the project filter carries `user_tag` only when it is truthy |
| Catalog.EmptyTagIsNone | src/walacor_data_tracker/writers/walacor/catalog.py:52 | an empty `user_tag` asks what None asks |
| Catalog.CountRuns | src/walacor_data_tracker/writers/walacor/catalog.py:104-108 | the counting loop ends with `run_counter` equal to `Counter`, its keys listed |
| Catalog.Counter | src/walacor_data_tracker/writers/walacor/catalog.py:106-108 | `run_counter` holds every (project_uid, pipeline_name) seen, with its number of runs |
| Catalog.Summary | src/walacor_data_tracker/writers/walacor/catalog.py:110-124 | a project's pipeline names are ascending, each once, and exactly the names its runs carry |
| Catalog.SummaryCounts | src/walacor_data_tracker/writers/walacor/catalog.py:110-124 | each entry carries the project's name and tag, and each pipeline its number of runs, never zero |
| Catalog.Tally | src/walacor_data_tracker/writers/walacor/catalog.py:113-117 | the comprehension lists the names paired with the project's uid among the counter keys, ascending, each once, and all of them |
| Catalog.Catalog.ListProjects | src/walacor_data_tracker/writers/walacor/catalog.py:23-35 | one entry per project row, in order, with uid, name, description and tag |
| Catalog.Catalog.ListPipelines | src/walacor_data_tracker/writers/walacor/catalog.py:37-41 | the pipeline names of all runs, ascending, each once |
| Catalog.Catalog.ProjectUid | src/walacor_data_tracker/writers/walacor/catalog.py:56-58 | no project found means no UID; otherwise the first row's UID |
| Catalog.Catalog.RunsRequest | src/walacor_data_tracker/writers/walacor/catalog.py:85-87 | the run filter carries `pipeline_name` only when it is given |
| Catalog.Catalog.ListPipelinesForProject | src/walacor_data_tracker/writers/walacor/catalog.py:43-65 | `[]` when no project matches; otherwise the first match's pipeline names, ascending, each once |
| Catalog.Catalog.ListRuns | src/walacor_data_tracker/writers/walacor/catalog.py:67-94 | `[]` when no project matches; otherwise the runs of the first match under `RunsRequest` |
| Catalog.Catalog.NodeFilter | src/walacor_data_tracker/writers/walacor/catalog.py:145-157 | `run_uid` takes precedence over `pipeline_name`; a pipeline with no runs yields no query |
| Catalog.Catalog.ListNodes | src/walacor_data_tracker/writers/walacor/catalog.py:126-164 | `[]` with no project or no runs; otherwise the nodes under `NodeFilter` |
| Catalog.Catalog.RunUidTakesPrecedence | src/walacor_data_tracker/writers/walacor/catalog.py:147-148 | with a truthy `run_uid`, the pipeline name does not matter |
| Catalog.Catalog.ListDag | src/walacor_data_tracker/writers/walacor/catalog.py:166-194 | no nodes gives no nodes and no edges; otherwise the nodes unchanged and the edges touching them |
| Catalog.Catalog.EdgesRequest | src/walacor_data_tracker/writers/walacor/catalog.py:183-193 | the edge filter is `$or` of parent and child UIDs in the node list |
| Catalog.Catalog.ListProjectsWithPipelines | src/walacor_data_tracker/writers/walacor/catalog.py:96-124 | one entry per project row, in order, each equal to `Summary`, whose properties `SummaryCounts` states |

## Left out

- Histories.AppendChildrenComplete: completeness is claimed for parent edges to older retained snapshots only. A snapshot that names a parent appended after it would need its id known in advance, which fresh uuids rule out.
- Locks (`threading.RLock`) and concurrency: every operation is atomic and sequential.
- The blake2b digest is an uninterpreted function of the text it is fed. Its internals are not modelled, and it is not assumed injective.
- Callback and hook side effects are not modelled. A callback either returns or raises, and which ones raise is a parameter; re-entrant changes to a registry during `publish` are not modelled either.
- `Trackers.Tracker.Start`, `Stop` and `Track` publish and return the delivery even when a callback raised; in Python the exception propagates after the same state change.
- Generators: `ancestors_of`, `descendants_of` and `filter` are collected into sequences, and laziness is not modelled. `__iter__` is plain iteration over the buffer.
- `repr()` of positional and keyword argument values is taken as given text. `Text.QuotedStr` quotes a name with single quotes and does not escape characters inside it.
- Clock and uuid (`src/walatrack/core/utils.py`) are given as fresh values (`now`, `freshId`); `deepcopy_artifact` is not part of this model.
- `id(artifact)` is an opaque `handle`. Its reuse after garbage collection is not modelled.
- `Catalog`: a field the code reads with `r["..."]` is required to be present in the rows it reads: every row where the code iterates, and only the first project row where it reads `prows[0]["UID"]` (`Catalog.FirstHas`). A missing field, a KeyError in Python, is not modelled. Row values are strings. The SDK's own filtering is not modelled: the store is an arbitrary function from request to rows.
- `Json.Jsonify`: a float is kept as opaque bits. A set's iteration order is taken as given. A `str`, `int` or `float` subclass that is callable is not distinguished.
- Walacor writers and clients, the schema builder (only its four ETId constants are used), the pandas adapters, the console writers and `pipeline.py` are not part of this model.
- `Events.EventBus`: the class attribute `_REGISTRY` (src/walatrack/core/events.py:14) is modelled as one `Registry` object passed to every bus; nothing in the model forces all buses to share one registry, and `Events.SharedRegistry` shows the sharing for buses built over the same registry.
- `Histories.History.Append`, `Trackers.Tracker.Track`, `Trackers.Tracker.IdempotentTrack` and `Trackers.Tracker.Manual` require the new snapshot's id to be absent from the buffer, as a fresh uuid is; appending a snapshot whose id is already buffered (the same object twice) is accepted by the source and not modelled.
- `Histories.History.constructor` and `Trackers.Tracker.constructor` require `max_len or 1000` to be non-negative; the ValueError `deque(maxlen=...)` raises for a negative `max_len` (src/core/history.py:11) is not modelled beyond `Histories.CapacityOf` returning None.
- `src/walatrack/core/history.py` is not part of this model; `src/core/history.py` stands in for it.
- Histories.RemoveOnce: its own contract ties the list to `RemoveFirst`, whose contract gives the multiset; which occurrence goes and the order of the rest are stated by `Histories.RemoveOnceKeepsOrder`, because in the function's own contract they make every proof that uses it too slow to verify.
- Events.Unsubscribed: its own contract states the multiset after `.remove`; which occurrence goes and the order of the rest are stated by `Events.UnsubscribedKeepsOrder`, for the same reason.
- Events.Removed: its own contract states the multiset of each list after `.remove`; which occurrence goes and the order of the rest are stated by `Events.RemovedKeepsOrder`, for the same reason.
- CoreEvents.Dropped: its own contract states the multiset after `.remove`; which occurrence goes and the order of the rest are stated by `CoreEvents.DroppedKeepsOrder`, for the same reason.
