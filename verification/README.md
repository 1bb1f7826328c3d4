# Verified models of the module loader, the CSS URL rewriter and the tunnel CLI

This project models the parts of the repository whose correctness depends on
state that lives across many calls, and proves what those parts promise.

**The AMD module manager** (`src/vs/loader.js`). Modules are defined, wait on
one another through inverse dependency lists, count down the dependencies they
still wait for, complete recursively, or fail when a script cannot be loaded.
Cycles are cut on the fly by a search for a dependency path.

* `LoaderModel` is the manager as a state machine: the calls in progress are
  frames on an explicit stack (`ResolveOne`, `Await` and `ResolveEnd` are
  `_resolve`; `CompleteBegin`, `FactoryReturns`, `NotifyOne` and `NotifyEnd` are
  `_onModuleComplete`; `Load` is `_loadModule` and the guard of
  `_loadPluginDependency`; `Define` is `defineModule`; `LoadError` is
  `_onLoadError`). Foreign code - factories, script loads, plugin loads - may
  call back into the loader wherever the program hands over control, so that
  modules can be defined, and loads can fail, inside a factory or a load.
* `LoaderInvariant`, `LoaderKeeps` and `LoaderSteps` state and preserve the
  invariant; `LoaderRuns` draws the conclusions about whole runs.
* `LoaderSettle` shows that every call of the manager ends, and `ModuleManager`
  is the manager with objects updated in place: `DefineModule` is proved to
  reach exactly the state in which the machine's run of that call settles, and
  `OnLoadError` the machine's error state.
* `LoaderStuck` shows how a module comes to wait for ever although everything it
  waits for has been defined: the loader marks a module whose dependency has
  already failed (lines 1737-1740) without telling the modules that wait on it.
  `LoaderTold` gives the exact condition, step by step and for whole runs.
* `LoaderHandlers` says what the steps remember and report: error handlers, reports
  to the global handler, announced cycles and the order of waits.
* `LoaderPlugins` adds the waits that the cycle check does not see, those of
  plugin resources on their plugins.

**Module ids** (`ModuleIds`) and **CSS URLs** (`CssUrls`, `CssRewrite`) are two
normalisers of slash-separated paths. `Paths` gives a path a meaning
independent of both, by following its segments from a directory.

**Loading a script once** (`OnlyOnce`) is the loader's table of callbacks per
script, with callbacks that ask for scripts again, also while the callbacks of an
earlier load are still being called.

**Server bridges** (`Bridges`, `BridgeInvariant`, `BridgeRuns`, `BridgeBatches`, `BridgeReuse`,
`BridgeServer`) is the write loop protocol of `cli/src/tunnels/control_server.rs`: one step is a
lock-protected block, one write or one close, and any number of tasks interleave.

**The keyring** (`Keyring`), **the servers used last** (`LastUsed`) and **the
table of pending calls** (`Rpc`) are the smaller stateful parts of the CLI.

Properties that turned out not to hold of the code are stated as exact
conditions, with the code left as it is:

* A rewritten CSS URL keeps its target exactly under `Condition`. The usual case
  is `RewriteUsually`; an empty segment (`EmptySegmentFails`), a `..` in the new
  file's folder or a host in front of it break it.
* A stored credential is read back for every earlier content of the keyring
  exactly when its length is not a multiple of the chunk size and its last chunk
  does not itself end in the continuation marker.
* The failure of a module reaches all that wait on it, throughout a run, exactly
  when no step finds a failed dependency of a module on which others wait
  (`ToldThroughout`).
* Attaching a bridge works exactly when nothing uses its socket id (`AttachExactly`).
  Otherwise it never gets a message (`NeverServed`), or its messages can be written
  to another bridge (`MessageToWrongBridge`).
* A server folder deleted behind the list's back, as the `prune` command does,
  makes trimming give up for good (`PruneSticks`, `NothingDropped`).
* A pending call is lost exactly when its 32-bit id comes round while it is
  pending (`LostExactly`), and one response without an id ends all answers
  (`PoisonedForever`).

## Model

| member | source | states |
|---|---|---|
| `LoaderRuns.CountingInvariant` | src/vs/loader.js:1720-1836 | in every reachable state `unresolvedDependenciesCount` of an incomplete module equals its occurrences in all inverse lists plus those in the in-flight tails and unexamined dependencies of calls in progress; it is never negative; a module whose factory ran is owed nothing |
| `LoaderRuns.WaitsNeverCycle` | src/vs/loader.js:1744-1757 | no module ever waits for itself through the inverse lists, and each wait is a dependency of a module whose dependency list is still there |
| `LoaderRuns.FactoryOnce` | src/vs/loader.js:1781-1821 | over a whole run each factory is invoked at most once, with the dependencies the module was defined with |
| `LoaderRuns.FactoryOrder` | src/vs/loader.js:1716-1836 | a factory is invoked after the factory of each of its dependencies, except those cut to break a cycle |
| `LoaderRuns.AcyclicFactoryOrder` | src/vs/loader.js:1744-1754 | a dependency that lies on no cycle of declared dependencies is never cut, so the factories run in topological order |
| `LoaderRuns.LoadErrorExact` | src/vs/loader.js:1518-1552 | a failed load poisons exactly the modules reached along the inverse lists that have not run their factory, all dependents among them, and leaves the others as they are |
| `LoaderRuns.PoisonedForever` | src/vs/loader.js:1781-1787 | a module that failed before its factory ran never has its factory run, in any later state of the run |
| `LoaderRuns.StuckOnObstacle` | src/vs/loader.js:1716-1836 | when no call is in progress, an incomplete module waits, directly or through others, on an undefined id or on a failed module |
| `LoaderRuns.StuckExactly` | src/vs/loader.js:1716-1836 | an unfailed module is incomplete between calls if and only if an undefined id or a failed module is reached along its waits |
| `LoaderRuns.NoDeadlock` | src/vs/loader.js:1716-1836 | if nothing awaited is undefined or failed, every defined module is complete between calls, whatever cycles the dependencies form |
| `LoaderRuns.ObstacleRequested` | src/vs/loader.js:1647-1774 | an awaited id that nobody defined has been asked for, or is parked at a plugin that was asked for and has not finished |
| `LoaderRuns.StepKeeps` | src/vs/loader.js:1402-1847 | every step of the loader or of foreign code keeps the invariant |
| `LoaderStuck.FailureNotPropagated` | src/vs/loader.js:1736-1740 | from every state in which a module waits on an undefined m and d has failed: if m is then defined with dependency d, it fails at once and the waiting module is left as it was, waiting on a failed one |
| `LoaderStuck.Occurs` | src/vs/loader.js:1653-1690 | such a state occurs: 5 waits on 4, 6 on 3, and the load of 3, which was asked for, fails |
| `LoaderTold.StepTold` | src/vs/loader.js:1736-1740 | as long as every module that waits on a failed one has failed, a step keeps it so if and only if it does not find a failed dependency of a module on which an incomplete module waits; for every step of the loader and of foreign code |
| `LoaderTold.ToldThroughout` | src/vs/loader.js:1518-1552 | for every run: at all times every module that waits on a failed one has failed, if and only if no step overlooks a waiting module in that way |
| `LoaderTold.StuckOnUndefined` | src/vs/loader.js:1716-1836 | then, between calls, an unfailed module is incomplete if and only if an id that nobody defined is reached along its waits |
| `LoaderPlugins.StuckBehind` | src/vs/loader.js:1758-1772 | with the waits of parked resources on their plugins added to the waits, behind every incomplete module there is a failed module, an undefined id that was asked for, or a cycle, which is not one of module waits alone |
| `LoaderPlugins.NoPluginDeadlock` | src/vs/loader.js:1716-1846 | plugins included: if these waits form no cycle, nothing has failed and everything asked for is defined, every module is complete between calls |
| `LoaderHandlers.DefinitionKept` | src/vs/loader.js:1402-1422 | in every run, an id not yet defined that is defined keeps the dependencies, the error handler and the factory it was given until its factory returns; then the handler is gone |
| `LoaderHandlers.HandlerExactly` | src/vs/loader.js:1143-1226 | at any time a module has an error handler if and only if a step defined it with one and its factory has not returned; the module made for an id whose load fails has none |
| `LoaderHandlers.LoadErrorReported` | src/vs/loader.js:1518-1552 | a failed load is reported to the global handler if and only if no module that it reaches, and whose factory has not returned, was defined with an error handler |
| `LoaderHandlers.OtherReports` | src/vs/loader.js:1185-1210 | apart from failed loads only a factory that ends with an error is reported, once |
| `LoaderHandlers.CycleSeenExactly` | src/vs/loader.js:1744-1754 | in every reachable state a cycle has been announced if and only if some dependency has been cut |
| `LoaderHandlers.WaitsInOrder` | src/vs/loader.js:1756-1757 | a module that has to wait is put behind those that wait for the same id, and no other list changes |
| `LoaderHandlers.NotifiedInOrder` | src/vs/loader.js:1821-1836 | the modules that wait for a completed one are told in the order in which they began to wait, and its list is empty |
| `LoaderHandlers.ParkedInOrder` | src/vs/loader.js:1758-1772 | a resource whose plugin is not complete is parked behind those of that plugin, and the plugin asked for; otherwise the resource is asked for at once |
| `LoaderSettle.Settle` | src/vs/loader.js:1716-1847 | the calls in progress always come to an end, in a state that keeps the invariant with no call left |
| `LoaderSettle.NextSmaller` | src/vs/loader.js:1716-1847 | each step of a call in progress lowers its measure: fewer incomplete modules, or fewer factories, loops and dependencies left |
| `ModuleManagers.Module.constructor` | src/vs/loader.js:1143-1155 | a new module waits for as many dependencies as it lists |
| `ModuleManagers.Module.Complete` | src/vs/loader.js:1185-1214 | completes the module, records an error of its factory and forgets dependencies and error handler |
| `ModuleManagers.Module.OnDependencyError` | src/vs/loader.js:1218-1226 | completes the module with an error and tells whether it had a handler |
| `ModuleManagers.ModuleManager.constructor` | src/vs/loader.js:1282-1300 | a new manager stands for the empty state |
| `ModuleManagers.ModuleManager.HasDependencyPath` | src/vs/loader.js:1559-1595 | the breadth-first search answers true if and only if there is a chain of one or more dependencies through modules that still have their dependency lists |
| `ModuleManagers.ModuleManager.Enqueue` | src/vs/loader.js:1578-1590 | one round of that search: stops exactly at the goal, queues exactly the defined targets not met before, and no id twice |
| `ModuleManagers.ModuleManager.FindCyclePath` | src/vs/loader.js:1602-1622 | a list reversed is a dependency chain of at most 51 nodes that ends in the goal or was cut off at depth 50; null means there is no such chain |
| `ModuleManagers.ModuleManager.DescribeCycle` | src/vs/loader.js:1747-1749 | the reported cycle starts and ends with the dependency and is a chain; it is a real cycle through the module unless the graph has a chain of 51 nodes from the dependency that misses the module |
| `ModuleManagers.ModuleManager.DefineModule` | src/vs/loader.js:1402-1422 | the objects end up in exactly the state in which the machine's definition of the module settles; what a definition stores is said by `DefinitionKept` |
| `ModuleManagers.ModuleManager.Resolve` | src/vs/loader.js:1716-1780 | the loop over the dependencies and the completion after it take the machine from the start of the call to its end |
| `ModuleManagers.ModuleManager.Examine` | src/vs/loader.js:1721-1774 | one round of that loop does what the machine does for the dependency: settle it, take over its failure, cut it or wait for it |
| `ModuleManagers.ModuleManager.LoadModule` | src/vs/loader.js:1647-1653 | an id is asked for unless it is defined or has been asked for |
| `ModuleManagers.ModuleManager.RecordInverse` | src/vs/loader.js:1756-1757 | the wait becomes the last entry of the dependency's inverse list |
| `ModuleManagers.ModuleManager.Park` | src/vs/loader.js:1758-1771 | a plugin resource is parked at its plugin unless the plugin is complete; gives whom to ask for |
| `ModuleManagers.ModuleManager.OnModuleComplete` | src/vs/loader.js:1781-1847 | the completion of a module, the notification of all that wait on it and the feeding of its plugin resources take the machine to the end of the call, and it ends |
| `ModuleManagers.ModuleManager.CompleteModule` | src/vs/loader.js:1821-1824 | the factory has run, its error is counted, and the inverse list is taken out of the map before it is walked |
| `ModuleManagers.ModuleManager.NotifyDependent` | src/vs/loader.js:1829-1834 | one dependent counts down and is completed when that was the last |
| `ModuleManagers.ModuleManager.FeedAll` | src/vs/loader.js:1837-1846 | the parked resources are taken out and each handed to the plugin |
| `ModuleManagers.ModuleManager.LoadPluginDependency` | src/vs/loader.js:1697-1712 | a resource is handed over unless it is defined or has been asked for |
| `ModuleManagers.ModuleManager.OnLoadError` | src/vs/loader.js:1518-1552 | the objects end up in the machine's error state: what is reached is failed, and the global handler is called exactly when nothing reached had a handler; which modules have one is said by `HandlerExactly` |
| `ModuleManagers.ModuleManager.Spread` | src/vs/loader.js:1523-1548 | the walk marks exactly the modules reached along the inverse lists, each once, and reports whether one had a handler |
| `LoaderSteps.InternalKeeps` | src/vs/loader.js:1716-1847 | every step of the loader's own code keeps the invariant |
| `LoaderSteps.DefineKeeps` | src/vs/loader.js:1402-1422 | so does a definition, also one made while other calls are in progress |
| `LoaderSteps.FactoryReturnsKeeps` | src/vs/loader.js:1821-1825 | so does the return of a factory |
| `LoaderSteps.LoadErrorKeeps` | src/vs/loader.js:1518-1552 | so does a failed load |
| `LoaderKeeps.WaitIsDependency` | src/vs/loader.js:1744-1757 | a wait is an edge of the graph that the cycle search walks |
| `OnlyOnce.OnceOnly` | src/vs/loader.js:612-633 | at most one load of a source is in flight, exactly when requests wait for it; every request is in one place: waiting, about to be called, called or called with an error |
| `OnlyOnce.AllAnswered` | src/vs/loader.js:612-633 | when nothing is in flight and no callback runs, each request has had exactly one of its callbacks called, once |
| `OnlyOnce.AnsweredByItsLoad` | src/vs/loader.js:620-633 | a request is answered the way the load it waited for was settled, and never the other way |
| `OnlyOnce.StepOrder` | src/vs/loader.js:612-633 | the callbacks of one load are kept and called in the order of the requests |
| `OnlyOnce.OldestFirst` | src/vs/loader.js:620-633 | of the callbacks that a loop has left, the one of the oldest request is called next, the success one exactly if the load succeeded |
| `OnlyOnce.OnlyOnceScriptLoader.Load` | src/vs/loader.js:608-617 | a load is started exactly when none is in flight for the source |
| `OnlyOnce.OnlyOnceScriptLoader.Trigger` | src/vs/loader.js:620-633 | the source is forgotten, its callbacks are called once each in order, successes or errors as the load went, and what they ask for joins the waiting lists; loops that were running are left as they were |
| `ModuleIds.NormalizeModuleId` | src/vs/loader.js:1106-1123 | the rewriting ends and yields the stack normal form of the id |
| `ModuleIds.RemoveDots` | src/vs/loader.js:1108-1114 | the first two rewrites leave no `./` and do not change the normal form |
| `ModuleIds.RemoveParents` | src/vs/loader.js:1115-1121 | the last two rewrites, of which the final one is needed once, reach the normal form |
| `ModuleIds.NormalizedNormal` | src/vs/loader.js:1103-1123 | the normal form has no `./` and no name before `../`, and normalising again changes nothing |
| `ModuleIds.LeadingRun` | src/vs/loader.js:1115-1121 | in the normal form of an id without empty segments `../` remains only in the leading run |
| `ModuleIds.NormalizedMeaning` | src/vs/loader.js:1103-1123 | from every directory the normalised id leads to the same place as the id |
| `ModuleIds.ResolveModule` | src/vs/loader.js:1127-1135 | the method computes the resolved id; what that is, is said by `ResolvedExactly` and `ResolvedMeaning` |
| `ModuleIds.ResolvedMeaning` | src/vs/loader.js:1127-1135 | a relative id is followed from the folder of the module it is written in, and the result is normal |
| `ModuleIds.ResolvedExactly` | src/vs/loader.js:1127-1135 | an id that starts with neither `./` nor `../` is returned as it is, one that starts with `./` never is |
| `Paths.PathOf` | src/vs/css.build.ts:175-182 | the folder part of a file name: a prefix that is empty or ends in a slash, with no slash behind it |
| `CssUrls.Push` | src/vs/css.build.ts:224-231 | the loop pushes the pieces of the path, as cut at its slashes |
| `CssUrls.JoinPaths` | src/vs/css.build.ts:189-241 | the method computes the join of the two paths; what that is, is said by the lemmas below |
| `CssUrls.JoinMeaning` | src/vs/css.build.ts:184-241 | behind the scheme and host of a, which stay, the join is canonical and means a followed by b; an absolute b discards a |
| `CssUrls.JoinHost` | src/vs/css.build.ts:191-240 | for `//`, `http://` and `https://`, every host without a slash and every path behind it: the join starts with scheme and host; what follows is canonical and means the folder followed by b, or b alone if it is absolute |
| `CssUrls.JoinScheme` | src/vs/css.build.ts:191-201 | a bare scheme stays, and what follows means b |
| `CssUrls.JoinPlain` | src/vs/css.build.ts:203-240 | for a folder that starts with none of the three the whole join is canonical and means a followed by b, or b alone if it is absolute |
| `CssUrls.HostLost` | src/vs/css.build.ts:191-222 | a host with no slash behind it is taken for a piece of the path, so that `../` removes it |
| `CssUrls.JoinedPieces` | src/vs/css.build.ts:203-240 | without a host in front, the pieces of a join are those left on the stack, and they are canonical: no `./`, and `../` only in front |
| `CssUrls.JoinedRest` | src/vs/css.build.ts:191-240 | the same behind the scheme and host of a, which are kept |
| `CssUrls.CommonFolder` | src/vs/css.build.ts:253-260 | the longest common prefix of both paths that is empty or ends in a slash |
| `CssUrls.CommonPrefix` | src/vs/css.build.ts:243-251 | the longest common prefix: behind it one path ends or they differ |
| `CssUrls.RelativePath` | src/vs/css.build.ts:262-278 | the method computes the relative path |
| `CssRewrite.RelativeExactly` | src/vs/css.build.ts:262-278 | an absolute target is returned as it is; otherwise the result is one `../` for each folder of the new file below the common folder, and then the target below it |
| `CssRewrite.RewriteUrl` | src/vs/css.build.ts:159-164 | for every original file, every URL and every new file, the rewritten URL leads to the target of the original one if and only if `Condition` holds |
| `CssRewrite.RewriteExactly` | src/vs/css.build.ts:189-278 | the same for every target: relativePath is undone by joinPaths exactly under that condition |
| `CssRewrite.RewriteUsually` | src/vs/css.build.ts:159-164 | it always holds for folders with plain names and targets without empty segments |
| `CssRewrite.EmptySegmentFails` | src/vs/css.build.ts:208-213 | an empty segment in the new file's folder breaks every target that shares no folder with it |
| `CssRewrite.RewriteFails` | src/vs/css.build.ts:159-164 | an image beside a/o.css is not found from b//n.css |
| `CssRewrite.HostStays` | src/vs/css.build.ts:189-201 | joining an absolute path to a folder on a host never gives that path back |
| `BridgeRuns.WritesInOrder` | cli/src/tunnels/control_server.rs:664-731 | in every reachable state what was written to a bridge is a subsequence of what was accepted for it, and a beginning of it if no write failed |
| `BridgeBatches.WriteOutcome` | cli/src/tunnels/control_server.rs:722-727 | a write that succeeds sends the first message of the batch; after one that fails the writer holds nothing, and every outcome added is a loss, of the batch in order |
| `BridgeBatches.BatchFate` | cli/src/tunnels/control_server.rs:702-728 | over whole runs: the messages taken in one batch are handled in order, and none behind a lost one is ever sent |
| `BridgeRuns.NothingReordered` | cli/src/tunnels/control_server.rs:664-728 | for a live record: written or lost, then held by the writer, then queued, is the sequence accepted |
| `BridgeRuns.SingleOwner` | cli/src/tunnels/control_server.rs:643-730 | in every run, whatever ids are attached, every bridge is in exactly one place: record, writer, waiting to be closed, closed or dropped |
| `BridgeRuns.NoLostWakeup` | cli/src/tunnels/control_server.rs:673-717 | a record that holds its bridge has an empty queue; otherwise a writer of that record is active |
| `BridgeRuns.ClosedOnce` | cli/src/tunnels/control_server.rs:98-122 | in every run, when the list and all tasks are gone, every bridge was closed once, unless it was dropped with its record or from it |
| `BridgeRuns.WriterCloses` | cli/src/tunnels/control_server.rs:694-731 | after a dispose a writer, left to itself, ends by closing its bridge once |
| `BridgeRuns.WriterDrains` | cli/src/tunnels/control_server.rs:700-728 | in every reachable state, the writer of a record without its bridge, left to itself, writes everything accepted, in order, and gives the bridge back |
| `BridgeReuse.AttachExactly` | cli/src/tunnels/control_server.rs:643-657 | attaching works - messages sent to the id are accepted for the new bridge, and however the run goes on no bridge handles messages not accepted for it - if and only if no record and no writer that still looks for its record uses the socket id |
| `BridgeReuse.MessageToWrongBridge` | cli/src/tunnels/control_server.rs:702-727 | from every state with a writer whose record is gone: after its id is attached again, the run can go on so that any message, accepted for the new bridge, is written to the old one |
| `BridgeReuse.NeverServed` | cli/src/tunnels/control_server.rs:672-680 | a bridge attached under the id of a live record never gets a message, whatever happens afterwards |
| `BridgeReuse.OrphanOccurs` | cli/src/tunnels/control_server.rs:432-438 | a writer whose record is gone occurs: the client closes its side while the writer is about to take a message |
| `BridgeInvariant.StepKeeps` | cli/src/tunnels/control_server.rs:643-730 | every step of any task, except attaching an id that is in use, keeps records, writers, places and order sound |
| `BridgeInvariant.StepPlaces` | cli/src/tunnels/control_server.rs:643-730 | every step whatever, such an attachment included, keeps each bridge in one place |
| `BridgeInvariant.RetainedCount` | cli/src/tunnels/control_server.rs:432-438 | closing an id removes every record of it, and of the others none |
| `BridgeInvariant.RetainedOrder` | cli/src/tunnels/control_server.rs:432-438 | the records kept stay in order |
| `BridgeServer.ServerBridgeList.AttachServerBridge` | cli/src/tunnels/control_server.rs:645-654 | appends a record with an idle bridge, whether or not the id is in use; after a dispose the list starts anew |
| `BridgeServer.ServerBridgeList.HandleServerMessage` | cli/src/tunnels/control_server.rs:664-687 | queues the message at the end of the queue of the first record of the id, leaves the other records as they are and hands out its bridge; an error exactly when there is no such record |
| `BridgeServer.ServerBridgeList.NextTurn` | cli/src/tunnels/control_server.rs:702-720 | the block at the top of the loop: nothing to do if the record is gone, bridge given back if its queue is empty, or the whole queue as the next batch |
| `BridgeServer.ServerBridgeList.CloseServerBridge` | cli/src/tunnels/control_server.rs:432-438 | removes the records of the id and keeps the others; the bridges held by the removed ones are dropped |
| `BridgeServer.ServerBridgeList.TakeAll` | cli/src/tunnels/control_server.rs:98-112 | takes the list and hands out exactly the bridges that its records hold |
| `Keyring.KeyringStorage.constructor` | cli/src/auth.rs:188-200 | no handles at first, and the entry limit of the operating system |
| `Keyring.KeyringStorage.NextEntry` | cli/src/auth.rs:202-213 | the handle of an entry, created if it is the next one |
| `Keyring.KeyringStorage.ReadAll` | cli/src/auth.rs:216-236 | the loop ends and reads what the entries spell: nothing when an entry is missing |
| `Keyring.KeyringStorage.StoreAll` | cli/src/auth.rs:238-260 | the loop stores the chunks and leaves the other entries alone |
| `Keyring.KeyringStorage.Clear` | cli/src/auth.rs:262-272 | succeeds if and only if every entry it visits is there; deletes the visited ones before the first missing one, changes no other, and then nothing can be read; from a fresh start it succeeds exactly if there is a credential to read |
| `Keyring.ReadStored` | cli/src/auth.rs:216-260 | what is read after storing, in every case, the old entries included |
| `Keyring.RoundTripFor` | cli/src/auth.rs:216-260 | for given old entries the credential comes back if and only if it is clean or the old entries happen to hold what is missing |
| `Keyring.RoundTripExactly` | cli/src/auth.rs:216-260 | it comes back for all old entries if and only if its length is not a multiple of the chunk size and its last chunk does not end in the marker |
| `Keyring.EntriesFit` | cli/src/auth.rs:238-251 | no entry exceeds the limit |
| `Keyring.StoreAt` | cli/src/auth.rs:238-260 | exactly the entries that the credential takes are written, the stale ones behind them stay |
| `Keyring.StoredPiece` | cli/src/auth.rs:242-251 | each entry holds its piece of the credential: a full chunk with the marker behind it, or the shorter rest without |
| `Keyring.StoredVisited` | cli/src/auth.rs:216-236 | reading visits exactly the entries that a clean credential takes, so that clearing from a fresh start deletes exactly these |
| `LastUsed.RetainedInOrder` | cli/src/tunnels/code_server.rs:489-497 | in every run, prunes and restarts included, the list is duplicate-free, a beginning of the different servers in the order of their last use, long enough, and the cache agrees with the file |
| `LastUsed.RetainedExactly` | cli/src/tunnels/code_server.rs:489-497 | without prunes it is the first five different servers of the history, and the folders on disk are exactly theirs |
| `LastUsed.RetainedIff` | cli/src/tunnels/code_server.rs:489-497 | a server is retained if and only if fewer than five different servers were set up since its last use |
| `LastUsed.DistinctUse` | cli/src/tunnels/paths.rs:137-145 | moving the server to the front is what one more use does to the reference list |
| `LastUsed.DistinctPlace` | cli/src/tunnels/paths.rs:137-145 | in the reference list a server stands behind as many servers as were used since |
| `LastUsed.TrimExactly` | cli/src/tunnels/paths.rs:148-163 | trimming goes through if and only if every folder past the limit is there, and then deletes exactly those |
| `LastUsed.TrimStops` | cli/src/tunnels/paths.rs:148-163 | when trimming fails a folder past the limit is missing, and exactly the folders behind the last missing one have been deleted |
| `LastUsed.FoldersDiffer` | cli/src/tunnels/paths.rs:95-122 | two servers share an install folder only if they are the same in quality, commit and kind |
| `LastUsed.FolderNames` | cli/src/tunnels/paths.rs:108-122 | the name of the folder of each quality, with `-web` behind it unless the server is headless |
| `LastUsed.PruneSticks` | cli/src/tunnels/paths.rs:148-175 | pruning the oldest of five retained servers and setting up a new one makes trimming fail |
| `LastUsed.NothingDropped` | cli/src/tunnels/paths.rs:148-163 | from then on no server ever leaves the list, until the pruned one is set up again |
| `LastUsed.PersistedState.LoadOrGet` | cli/src/state.rs:37-50 | the cached value, else that of the file, else the default, which is cached |
| `LastUsed.PersistedState.Save` | cli/src/state.rs:52-61 | cache and file hold the new value |
| `LastUsed.PersistedState.UpdateWith` | cli/src/state.rs:95-104 | the mutator is applied to the current value, and its result saved in both places |
| `LastUsed.LastUsedServers.Add` | cli/src/tunnels/paths.rs:137-145 | the server moves to the front, and the new length is returned |
| `LastUsed.LastUsedServers.TrimTo` | cli/src/tunnels/paths.rs:148-163 | the loop deletes from the end, stops at a missing folder, and saves only when it went through |
| `LastUsed.LastUsedServers.SetUpServer` | cli/src/tunnels/code_server.rs:479-497 | adds the server and trims when more than five are listed |
| `Rpc.OnePlaceEach` | cli/src/rpc.rs:192-273 | every call that drew an id is in one place, so no continuation runs twice |
| `Rpc.LostExactly` | cli/src/rpc.rs:182-227 | a call is lost if and only if one of the same id was inserted while it was pending |
| `Rpc.NoneLost` | cli/src/rpc.rs:182-227 | with at most 2^32 ids drawn none is lost, and the table holds exactly the calls that were inserted and not answered |
| `Rpc.AnswerArrives` | cli/src/rpc.rs:260-269 | at any time a response runs the continuation of the pending call with its id, of which there is at most one, and no other, with the error code of the message if it has one and else with its result; with at most 2^32 ids drawn that is the call it is for, or none |
| `Rpc.AnswersReplacement` | cli/src/rpc.rs:211-227 | after a replacement a response with the common id runs the continuation of the replacing call, with what the message says, and the replaced one is lost |
| `Rpc.PendingExactly` | cli/src/rpc.rs:211-267 | a call is pending if and only if it entered the table and since then no call of its id has entered and no response with its id has come in |
| `Rpc.LostForever` | cli/src/rpc.rs:211-227 | a lost call is never answered |
| `Rpc.PoisonedExactly` | cli/src/rpc.rs:260-269 | the lock is poisoned if and only if a response without an id came in |
| `Rpc.PoisonedForever` | cli/src/rpc.rs:260-269 | after that no pending call is ever answered |
| `Rpc.MessageIds.NextMessageId` | cli/src/rpc.rs:182-185 | ids are drawn in turn and wrap round at 32 bits |
| `Rpc.RpcDispatcher.Call` | cli/src/rpc.rs:192-230 | draws an id and inserts the call, unless the lock is poisoned |
| `Rpc.RpcDispatcher.RunContinuation` | cli/src/rpc.rs:261-267 | the call with this id leaves the table and its continuation is run; without an id the lock is poisoned |
| `Rpc.RpcDispatcher.Dispatch` | cli/src/rpc.rs:238-273 | a reply exactly for requests with an id, with that id and the code of what happened; a continuation run exactly for a response to a pending call, with the error code of the message or else its result; a panic exactly for a response without id or a poisoned lock |

## Left out

- Script back ends, `eval`, cached data and the file system behind the script loader: a load is asked for, and succeeds by defining modules or fails.
- Values of exports, `require` closures, build information, event records and console messages other than the reported cycle: no property depends on them.
- The fallback list of paths of `_loadModule`: a load fails once, when the last path has failed.
- The queue of anonymous definitions, `configure` and `reset`.
- `ModuleIdProvider`: module ids are the numbers it hands out; the three pseudo dependencies own the first three.
- Factory errors that are not caught (`shouldCatchError` false): a factory ends or throws an error that the loader records.
- Error handlers of modules do not call back into the loader.
- ModuleManagers.ModuleManager.DefineModule: in the class, factories and loads return without calling back into the manager, because a call made inside another has no state between calls to start from; the state machine covers such calls.
- ModuleManagers.ModuleManager.OnLoadError: called between other calls; the state machine covers errors that come inside a factory or a load.
- LoaderRuns.StuckExactly: a plugin resource whose plugin fails counts as an undefined id; the loader reports that error but does not fail the modules that wait for the resource.
- `replaceURL` and the inlining of images: the rewriting of one URL is modelled, not the regular expression that finds it, the quotes and blanks around it, or the guard that leaves `data:`, `http://` and `https://` URLs alone.
- CssUrls.JoinMeaning: the first path is empty or ends in a slash, as every result of `pathOf` does.
- CssUrls.JoinHost: what follows the host is said for such paths; for all others only that scheme and host stay.
- Strings are sequences of characters of one unit each; encodings are not modelled.
- The contents, compression and errors of bridge writes, other than that a write may fail.
- BridgeRuns.WritesInOrder: for runs in which an id is attached only when nothing uses it, which the code does not check; `AttachExactly` shows that this is needed.
- BridgeRuns.NothingReordered: for the same runs.
- BridgeRuns.NoLostWakeup: for the same runs.
- The write loop across its awaits is a sequence of steps of `Bridges`, not a method; the class has the blocks under the lock.
- Encryption, the OAuth flow and file storage of credentials: a credential is an arbitrary string.
- Keyring errors other than a missing entry.
- Failures of reading and writing the list of servers; a server folder that cannot be deleted is one that is not there.
- Two caches over the same list file at a time.
- Commits of servers are plain folder names; path components such as `.` in them are not resolved.
- Serialisation of remote calls: a message is what the dispatcher sees of it, and handlers are functions of the body.
- Registration of methods: the table of methods is a parameter, in which a later registration of a name has replaced an earlier one.
