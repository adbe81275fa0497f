# Verification model of the BullMQ NestJS module and its release gates

This project models the two parts of the repository that are hard to get right by reading, and
proves what they promise over every run or every input.

**The runtime services.** The worker registry, the queue-events registry, the queue cache, the
connection resolver, processor discovery and the two shutdown hooks act on shared maps and on Redis
connections, and every `await` lets other calls in. Each class here has the source's fields, and each
method is the code between two awaits; its contract ties the new state to a step function of the old
one (`RegisterStep`, `ResumeStep`, `AdvanceStep`, ...). `Runtime.dfy` puts these steps into one
machine whose events are the calls of the application, the resumption of suspended calls, time passing
and the turns of the hooks. An event that is impossible in a state leaves it unchanged, so every
finite sequence of events is a run, with any interleaving and with every close, quit and drain
resolving, rejecting or (for a graceful worker close) running out of budget. The theorems quantify
over all of them. JavaScript maps are insertion-ordered slot lists with live cursors
(`JsMap.dfy`, section 24.1 of ECMA-262): `closeAll`, the queue drain and `closeQueueEvents` iterate
the live map, while `workers.getAll()` and both `getConnections()` are copies. The metrics cache and the
benchmark's bounded pool are machines of the same kind.

**The release gates.** The API-surface gate (line diff, canonical form of the export lists, naming of
changes, comparison of two trees), the file-length ratchet and the README snippet gate are algorithms
on texts, modelled on sequences of UTF-16 code units. Their loops are methods with the source's
tables, cursors and pushed lists, proved equal to specification functions about which the properties
are then proved.

## Where the code does less than its users may expect

The code is modelled as it is; the lemmas named here give failing inputs and the exact conditions.

- Two `unregister` calls for one queue may overlap; a worker registered between their deletes loses
  its entry while its connection is open (`OverlapLoses`). A call is safe, whatever follows, exactly
  when no other call for that queue is in flight (`UnregisterIsSafeIff`).
- A worker registered after `onModuleDestroy` copied the workers and before it copied the connections
  has its connection quit and is never asked to close (`LateWorkerLosesItsConnection`). `CutOffIff` says
  which workers that happens to, `WorkerClosedIff` which are asked to close.
- A duplicate opened after the connections were copied stays open until a caller unregisters its
  worker (`DuplicateReleasedIff`).
- A queue created after the cache was emptied is never closed (`LateQueueIsNeverClosed`,
  `QueueClosedIff`).
- The hooks iterate the queue-events and the cached queues live, so they return only if their loops
  catch up with what is added. A new queue before every turn keeps `closeAll` for ever
  (`EndlessQueues`); one before every fourth turn does not (`EveryFourthIsCaught`). The exact condition
  is on the names in the calls and the turns they come before (`HookCompletesIff`): with `c(n)`
  different queues known once the calls before turn `n` are in, a loop that starts at its first element
  returns exactly when `c(2k + 1) <= k` for some `k`. Calls that add no such name never matter
  (`FirstHookReturns`, `SecondHookReturns`).
- After `invalidate`, a fetch that was already in flight puts its older snapshot back
  (`LateFetchIsServed`). No later `get` sees an older snapshot exactly when the TTL is 0 or no covered
  fetch is in flight (`InvalidateRefetchesIff`).
- `pool` with a limit of 0 and tasks to run resolves at once with none of them run
  (`PoolCompletesAllIff`).
- The normal form of a declaration file sees the order of its statements, while the report of changed
  names looks at one name at a time: swapping two differently named statements makes the gate find a
  difference without a name (`OrderIsNotNamed`). `NoNameReportedIff` says what an empty report means.
- Imports are replaced by line feeds only, while the compiler also ends lines at a lone carriage return
  and at U+2028 and U+2029. An import that holds one moves the text above it off its line
  (`SeparatorMovesTheLine`). `OwnLineIff` is the exact condition for reported lines and `HeaderIff` for
  the header; `DiagnosticsMapBack` and `PlainHeader` are the promised mapping for snippets whose line
  ends are line feeds.
- The scan for receivers reads `this.this` as a name, so in `this.this.a` it never sees `a`
  (`ChainIsReadPast`); `ListedIff` says exactly which names it finds.
- Receivers are rewritten one name after the other; if `this` itself is bound, the order shows
  (`OrderMattersForThis`), otherwise it does not (`OrderDoesNotMatter`).
- Without `--base` the file-length gate admits every tree whose baseline records its own oversize
  files (`OwnBaselineIsAcceptedIff`), so the ratchet is a property of chains of runs with a base.

## Layout

| file | holds |
|---|---|
| JsMap.dfy, Network.dfy, Text.dfy, Selection.dfy | JavaScript maps; connections, clock and log of calls; strings and lines; picking elements by index |
| WorkerRegistry.dfy, QueueEventsRegistry.dfy, QueueService.dfy, ConnectionResolver.dfy, QueueLifecycle.dfy | the services: step functions and the classes that perform them |
| Runtime.dfy, Moments.dfy | the machine of all services, and the bookkeeping every run keeps; what the registries held at each moment of the shutdown |
| RegistryCalls.dfy, Conservation.dfy | what register and unregister leave behind; connection conservation |
| TeardownOrder.dfy, TeardownKinds.dfy, Shutdown.dfy, AwaitedCalls.dfy | order of the shutdown's calls; the calls of one kind; stages, accounting and time bound; what the end of an awaited call leads to |
| FaultIsolation.dfy, HookCompletion.dfy, LiveLoops.dfy, LateArrivals.dfy | fault isolation; a hook driven turn by turn; when it returns; what arrives too late for it |
| MetricsService.dfy, ProcessorDiscovery.dfy, Benchmark.dfy | the TTL cache; dispatcher and discovery; the bounded pool and the percentile |
| LineDiff.dfy, ExportRecords.dfy, ApiSurface.dfy, ExportLists.dfy, ChangedNames.dfy, TreeReports.dfy | the API-surface gate |
| FileLength.dfy | the file-length ratchet |
| ReadmeSnippets.dfy, SnippetTexts.dfy, BoundReceivers.dfy, ReceiverNames.dfy | the README line mapping; the compiled text; receivers bound one by one or at once; which receivers are found |

`dafny verify dfyconfig.toml` verifies the project.

## Model

| member | source | states |
|---|---|---|
| Networks.Network.Duplicate | src/server/utils/duplicate-connection.ts:17-19 | a duplicate is the identity the counter stands at, and the counter moves past it |
| Networks.Network.SettleQuit | src/server/services/worker-registry.service.ts:257-263 | a resolved quit releases the connection, a rejected one is followed by a hard disconnect of the same connection |
| WorkerRegistries.WorkerRegistry.Register | src/server/services/worker-registry.service.ts:122-151 | a taken name or bad options change nothing; a throwing constructor releases the duplicate it opened; otherwise the worker is stored with its own duplicate |
| WorkerRegistries.WorkerRegistry.RegisterSandboxed | src/server/services/worker-registry.service.ts:168-199 | the processor file is checked before the registry, then as `Register` |
| WorkerRegistries.WorkerRegistry.Unregister | src/server/services/worker-registry.service.ts:208-211 | without an entry a no-op; otherwise the worker's close is called and the call is suspended holding the entry it read |
| WorkerRegistries.WorkerRegistry.ResumeUnregister | src/server/services/worker-registry.service.ts:211-214 | a rejected close ends the call with the entry still stored; otherwise the connection is quit, and only then the name deleted |
| RegistryCalls.RegistersIff | src/server/services/worker-registry.service.ts:122-151 | a registration succeeds exactly for a free name, valid options and a constructor that returns; a taken name is told apart; success maps the name to a worker on its own open connection, failure changes no name and leaves nothing open |
| RegistryCalls.SandboxedRegistersIff | src/server/services/worker-registry.service.ts:168-199 | the same with a valid processor file besides, whose check comes before that of the name |
| RegistryCalls.UnregisterRuns | src/server/services/worker-registry.service.ts:208-214 | a whole `unregister` call, by its two outcomes: the worker's close, then unless it rejected the quit, a disconnect if that rejected, and the name free again; nothing else changes |
| Runtimes.TrackedConnections | src/server/services/worker-registry.service.ts:245-249 | the two `getConnections()` copies list exactly the connections some registry tracks |
| QueueEventsRegistries.QueueEventsRegistry.GetOrCreate | src/server/services/queue-events-registry.service.ts:54-70 | one `QueueEvents` and one duplicate per name; a throwing constructor stores nothing and releases the duplicate |
| QueueServices.QueueService.GetOrCreateQueue | src/server/services/queue.service.ts:82-104 | returns what the cache holds under that name afterwards: the queue it had, a new one, or none when the constructor threw, in which case nothing is cached |
| QueueServices.QueueService.ClearQueues | src/server/services/queue.service.ts:386 | empties the cache |
| ConnectionResolvers.ConnectionResolver.InitModeA | src/server/services/connection-resolver.service.ts:139-155 | adopts the consumer's client; the probe is a duplicate and is disconnected whether or not the policy check passes |
| ConnectionResolvers.ConnectionResolver.InitModeB | src/server/services/connection-resolver.service.ts:67-81 | a client that is ready is not waited for and hears no signal; otherwise, whatever signals follow, the first one settles `init` and nothing stays registered |
| ConnectionResolvers.ConnectionResolver.Hear | src/server/services/connection-resolver.service.ts:167-184 | a signal that is heard cleans up and settles, any other is ignored |
| ConnectionResolvers.WaitSettlesOnce | src/server/services/connection-resolver.service.ts:158-188 | for every signal sequence `waitReady` settles once, by the first signal, and leaves no listener and no timer |
| QueueLifecycles.QueueLifecycle.OnModuleDestroy | src/server/lifecycle/queue-lifecycle.service.ts:78-80 | records the start time and copies the workers; which ones is what WorkersAreClosed and WorkerClosedIff say |
| QueueLifecycles.QueueLifecycle.OnApplicationShutdown | src/server/lifecycle/queue-lifecycle.service.ts:90-92 | starts with the optional drain |
| QueueLifecycles.QueueLifecycle.Advance | src/server/lifecycle/queue-lifecycle.service.ts:107-218 | one turn of the loop head the hooks stand at: the next call, or the next part |
| QueueLifecycles.QueueLifecycle.Settle | src/server/lifecycle/queue-lifecycle.service.ts:159-218 | what the hook does when the call it awaits ends; a rejection is swallowed, a rejected quit disconnects |
| QueueLifecycles.QueueLifecycle.SettleWorker | src/server/lifecycle/queue-lifecycle.service.ts:107-157 | the race with the drain timer, the forced count and the force-close |
| Runtimes.RunKeepsSound | src/server/lifecycle/queue-lifecycle.service.ts:78-99 | every run keeps: own duplicates only, paired queue-events maps, a cache that lists every queue ever created until it is cleared, cursors within bounds, settled duplicates released |
| Conservation.RunConserves | src/server/services/worker-registry.service.ts:122-214 | without overlapping `unregister` calls every run keeps each duplicate released or tracked and each suspended call owner of its entry |
| Conservation.DuplicatesAreConserved | src/server/services/queue-events-registry.service.ts:54-70 | from boot, in every reachable state, every duplicate ever opened is released or tracked |
| Conservation.OverlapLoses | src/server/services/worker-registry.service.ts:208-214 | with two calls for one name in flight there is a continuation that leaks an open connection |
| Conservation.UnregisterIsSafeIff | src/server/services/worker-registry.service.ts:208-214 | an `unregister` call conserves connections under every disciplined run that may follow exactly when none for that name is in flight |
| Conservation.ModuleDestroyReleasesDuplicates | src/server/lifecycle/queue-lifecycle.service.ts:172-184 | after the first hook every duplicate opened before the connections were copied is released |
| TeardownOrder.EachValueIsAll | src/server/services/queue.service.ts:382-387 | a live cursor that reached the end has met every value once, in order |
| TeardownOrder.RunKeepsOrder | src/server/lifecycle/queue-lifecycle.service.ts:78-99 | at every moment of every run the shutdown has made exactly the calls due so far, in order, while live maps grow under its cursors |
| Shutdown.TeardownSequence | src/server/lifecycle/queue-lifecycle.service.ts:78-99 | after both hooks the primary calls are exactly, from what the registries held at each moment: a close per worker registered when the shutdown began, one per queue-events object observed by the end of their loop, a quit per connection tracked when they were copied, the drains if asked for, the producer, a close per queue cached when the cache was emptied, and in Mode B one quit of the role client; nothing is listed twice |
| Shutdown.LateEnqueueIsSafe | src/server/lifecycle/queue-lifecycle.service.ts:85-99 | no queue, producer or role client is closed before the second hook begins; whenever the role client has been touched, every queue cached when the cache was emptied has been closed and the cache holds none of them |
| Shutdown.RoleClientOwnership | src/server/services/connection-resolver.service.ts:128-155 | Mode A never quits or disconnects the consumer's client; Mode B touches it only in the shutdown and disconnects it only after a rejected quit |
| Shutdown.RoleClientReleasedIff | src/server/services/connection-resolver.service.ts:129-136 | the role client is released exactly when the shutdown is done and the library owns it |
| Shutdown.QueueClosedIff | src/server/services/queue.service.ts:382-387 | once `closeAll` is over a queue has been closed exactly if the cache held it when it was emptied, which includes those created at the awaits of `closeAll` |
| Shutdown.DrainIsBounded | src/server/lifecycle/queue-lifecycle.service.ts:107-157 | the worker phase takes at most the workers registered when it began times the budget; the forced workers are exactly those whose close rejected or ran out of budget, their number is the count |
| Shutdown.WorkersSettleFirst | src/server/lifecycle/queue-lifecycle.service.ts:78-83 | whenever the shutdown has closed queue-events or quit or disconnected a connection, every worker registered when it began has been closed, and forced if that did not resolve; for a connection all the queue-events have been closed too |
| Shutdown.WorkersAreClosed | src/server/lifecycle/queue-lifecycle.service.ts:107-129 | after the worker phase the shutdown's graceful closes are exactly one per registry entry there was when `onModuleDestroy` was called, in registry order |
| Shutdown.EventsClosedIff | src/server/lifecycle/queue-lifecycle.service.ts:160-164 | after their loop a queue-events object has been closed exactly if it was observed by the end of it |
| Shutdown.QueueDrainedIff | src/server/lifecycle/queue-lifecycle.service.ts:190-200 | after the drain a queue has been drained exactly if `drainOnShutdown` is set and it was cached when the drain ended |
| Shutdown.NoDrainUnasked | src/server/lifecycle/queue-lifecycle.service.ts:190-191 | without the option no queue is drained at any moment |
| AwaitedCalls.SettlesAsAwaited | src/server/lifecycle/queue-lifecycle.service.ts:107-218 | in every reachable state a waiting hook waits for the last call it made, and how that ends decides: a rejected or timed-out worker close forces that worker, a rejected quit disconnects that connection, a resolved one releases it, anything else is swallowed |
| AwaitedCalls.TimerForcesIff | src/server/lifecycle/queue-lifecycle.service.ts:139-157 | the drain timer forces a worker exactly when the whole budget has passed since its close was called, whatever ran meanwhile, and does nothing before |
| FaultIsolation.FaultsAreIsolated | src/server/lifecycle/queue-lifecycle.service.ts:107-218 | every run with failures differs from the run in which the same calls succeed only in inserted force-closes and disconnects and in the failure counts |
| HookCompletion.HookCanMove | src/server/lifecycle/queue-lifecycle.service.ts:78-99 | a running hook is never stuck at a loop head, and any end of the call it awaits moves it on |
| HookCompletion.HookIsBounded | src/server/lifecycle/queue-lifecycle.service.ts:78-99 | in every run the turns a hook takes are bounded by what it had left plus four per record put into a map it has still to go over or copy; other calls add none |
| HookCompletion.DrivenIsARun | src/server/lifecycle/queue-lifecycle.service.ts:78-99 | driving a hook by a schedule of calls and outcomes, drain timeouts included, is a run of the machine |
| HookCompletion.QuietHooksComplete | src/server/lifecycle/queue-lifecycle.service.ts:78-99 | with nothing called meanwhile it returns within the turns it had left, whatever the outcomes |
| LiveLoops.HookCompletesIff | src/server/lifecycle/queue-lifecycle.service.ts:78-99 | from every reachable state and under every schedule a hook returns exactly when the names its calls observe (first hook) or use (second hook) let the live loops catch up, a condition on the calls and the turns they come before alone |
| LiveLoops.CloseAllReturnsIff | src/server/services/queue.service.ts:382-387 | `closeAll` returns exactly when for some k at most k different queues are cached once the calls before its turn 2k are in |
| LiveLoops.CloseQueueEventsReturnsIff | src/server/lifecycle/queue-lifecycle.service.ts:160-164 | the same for `closeQueueEvents` and the queues observed |
| LiveLoops.FirstHookReturns | src/server/lifecycle/queue-lifecycle.service.ts:78-83 | while finitely many different queues are observed, none for instance, `onModuleDestroy` returns whatever is registered or enqueued, for ever, and whatever fails |
| LiveLoops.SecondHookReturns | src/server/lifecycle/queue-lifecycle.service.ts:90-99 | while finitely many different queues are used, none for instance, `onApplicationShutdown` returns whatever else is called and whatever fails |
| LateArrivals.EndlessQueues | src/server/services/queue.service.ts:382-387 | for every configuration and all outcomes of the closes, a new queue used before each turn keeps `closeAll` from ever returning |
| LateArrivals.EveryFourthIsCaught | src/server/services/queue.service.ts:382-387 | a new queue before every fourth turn, for ever, does not: the loop catches up |
| LateArrivals.WorkerClosedIff | src/server/lifecycle/queue-lifecycle.service.ts:107-129 | after the worker phase a worker has been asked to close, gracefully or by force, exactly when it was registered as `onModuleDestroy` was called or an `unregister` closed it |
| LateArrivals.LateWorkerLosesItsConnection | src/server/lifecycle/queue-lifecycle.service.ts:78-83 | for every configuration there is a run to the end of both hooks in which a worker registered between the two copies has its connection quit and is never asked to close |
| LateArrivals.ShutdownQuitsIff | src/server/lifecycle/queue-lifecycle.service.ts:172-184 | after the first hook it has quit exactly the connections a registry tracked when it copied them |
| LateArrivals.CutOffIff | src/server/lifecycle/queue-lifecycle.service.ts:107-184 | a worker is quit but never asked to close exactly when its connection was tracked at that copy, it was not registered as `onModuleDestroy` was called, and no `unregister` closed it |
| LateArrivals.DuplicateReleasedIff | src/server/lifecycle/queue-lifecycle.service.ts:172-184 | after the first hook a duplicate no caller quit or disconnected is released exactly when it was opened before the connections were copied |
| LateArrivals.LateQueueIsNeverClosed | src/server/services/queue.service.ts:382-387 | for every configuration there is a run to the end of both hooks with a queue created after the clear whose close is never called |
| MetricsServices.MetricsService.GetQueue | src/server/services/metrics.service.ts:59-65 | disabled: no effect; a fresh entry is served at once, anything else starts a fetch |
| MetricsServices.MetricsService.GetAllQueues | src/server/services/metrics.service.ts:76-80 | one `get` per cached queue name, all started before any awaits |
| MetricsServices.MetricsService.EndFetch | src/server/services/metrics.service.ts:65-67 | a resolved fetch is cached with a new expiry and served; a rejected one caches nothing |
| MetricsServices.MetricsService.InvalidateCache | src/server/services/metrics.service.ts:88-95 | drops one entry, or all |
| MetricsServices.ServedSnapshotsAreJustified | src/server/services/metrics.service.ts:59-68 | every snapshot served is for the queue asked for and fetched by that call or by a fetch that completed less than a TTL before it; with TTL 0 always by that call |
| MetricsServices.GetIsServedIff | src/server/services/metrics.service.ts:59-68 | after any run a `get` is answered at once, with the last answer fetched for that queue, exactly when that is less than a TTL old and no invalidation covering the queue came in between; otherwise it starts a fetch |
| MetricsServices.GetAllAsksEach | src/server/services/metrics.service.ts:76-80 | the i-th call `getAll` makes is for the i-th name, and has been served or is fetching |
| MetricsServices.LateFetchIsServed | src/server/services/metrics.service.ts:65-67 | a fetch in flight across an invalidation is served to a later `get` |
| MetricsServices.InvalidateRefetchesIff | src/server/services/metrics.service.ts:88-95 | after any run, no `get` after an invalidation ever sees an older snapshot exactly when the TTL is 0 or no covered fetch is in flight |
| ProcessorDiscovery.BuildDispatcher | src/server/services/processor-discovery.service.ts:104-133 | the built dispatcher answers every job name as the list search does |
| ProcessorDiscovery.LastCallable | src/server/services/processor-discovery.service.ts:111-121 | the last callable entry with exactly that name, or none |
| ProcessorDiscovery.DispatcherRefinesSearch | src/server/services/processor-discovery.service.ts:104-133 | for all handler lists and job names: the last callable handler of that name, else the last callable catch-all, else a rejection |
| ProcessorDiscovery.ProcessorDiscoveryService.BindWorker | src/server/services/processor-discovery.service.ts:176-191 | binds the callable worker listeners in order |
| ProcessorDiscovery.ProcessorDiscoveryService.BindEvents | src/server/services/processor-discovery.service.ts:193-211 | binds the callable queue listeners in order |
| ProcessorDiscovery.ProcessorDiscoveryService.WireProcessor | src/server/services/processor-discovery.service.ts:142-212 | rejects a repeated queue, registers the worker with its dispatcher, binds its listeners and observes the queue if it has queue listeners |
| ProcessorDiscovery.ProcessorDiscoveryService.OnModuleInit | src/server/services/processor-discovery.service.ts:77-93 | wires exactly the annotated providers, by their places in the list, in order and stops at the first that throws |
| ProcessorDiscovery.DiscoveryTakes | src/server/services/processor-discovery.service.ts:77-93 | discovery succeeds exactly when each processor is wirable alone and no two share a queue, and then takes exactly their names |
| ProcessorDiscovery.DiscoveryAdds | src/server/services/processor-discovery.service.ts:142-212 | it then adds one worker and dispatcher per processor in order, and opens one duplicate per processor and per newly observed queue |
| ProcessorDiscovery.DiscoveryBinds | src/server/services/processor-discovery.service.ts:176-211 | the listeners bound are exactly the callable ones, each to the worker of its processor or the queue-events object of its queue |
| ProcessorDiscovery.StopsAtFirst | src/server/services/processor-discovery.service.ts:149-156 | a failing discovery stops at the first processor that spoils the list with exactly the earlier ones wired; a repeated name changes nothing |
| ProcessorDiscovery.DiscoverySucceedsIff | src/server/services/processor-discovery.service.ts:77-212 | over any provider list and any registry state: no problem exactly when the annotated providers can each be wired and share no queue, and then their queues and dispatchers are those added, in order; otherwise the problem is the one the first bad annotated provider has, with those before it wired |
| ProcessorDiscovery.DiscoveryConserves | src/server/services/processor-discovery.service.ts:77-93 | however far discovery gets, no duplicate it opened is lost |
| Benchmark.PoolRun.constructor | scripts/benchmark.mjs:129-136 | the runners start one after the other, each up to its first await |
| Benchmark.PoolRun.Take | scripts/benchmark.mjs:134 | the loop head: take the next index, or leave |
| Benchmark.PoolRun.Settle | scripts/benchmark.mjs:134 | a resolved task lets its runner go on, a rejected one ends it |
| Benchmark.EachIndexStartsOnce | scripts/benchmark.mjs:128-138 | under every interleaving the indices started are 0, 1, 2, ... once each, at most min(limit, count) are in flight, and every started one is completed, in flight or rejected |
| Benchmark.PoolCompletesAllIff | scripts/benchmark.mjs:129-138 | the pool resolves only after every index completed, in every run, exactly when limit is at least 1 or count is 0 |
| Benchmark.PoolEnds | scripts/benchmark.mjs:129-138 | at most count tasks settle, and after count of them nothing is in flight or left to start |
| Benchmark.PoolResolvesIff | scripts/benchmark.mjs:128-138 | when every task resolves and there is a runner, the pool has resolved exactly when count tasks have settled, and until then one is in flight |
| Benchmark.PercentileIsNearestRank | scripts/benchmark.mjs:58-61 | the result is the least sample that at least p percent of the samples do not exceed |
| LineDiff.FillRow | scripts/check-api-surface.mjs:329-334 | fills one row of the table and leaves the others alone |
| LineDiff.FillTable | scripts/check-api-surface.mjs:326-335 | every cell holds the value of the recurrence for its two suffixes |
| LineDiff.CellIsLongestCommon | scripts/check-api-surface.mjs:325-335 | that value is the length of a longest common subsequence, against all common subsequences given by increasing index maps |
| LineDiff.ScriptIsMinimal | scripts/check-api-surface.mjs:336-348 | the script has as many lines as both texts together less twice the LCS length, both texts are order-preserving merges of one longest common subsequence with its lines, and no other explanation is shorter |
| LineDiff.EmptyScript | scripts/check-api-surface.mjs:310-313 | the script is empty exactly for equal line lists |
| LineDiff.DiffLines | scripts/check-api-surface.mjs:322-350 | the printed text explains both sides: beside one longest common subsequence, the left lines are those printed with `- ` and the right lines those printed with `+ `, in order; no other line is printed, and nothing for equal texts |
| LineDiff.DiffTextIsExact | scripts/check-api-surface.mjs:322-350 | the diff text is empty exactly for equal texts and otherwise its lines are the printed lines of the minimal script, none lost |
| ExportRecords.UnquoteContent | scripts/check-api-surface.mjs:73-75 | JSON quoting (section 7 of RFC 8259) round-trips for every code-unit string |
| ExportRecords.RecordIsInjective | scripts/check-api-surface.mjs:73-75 | two specifiers with one record are the same specifier |
| ExportRecords.RecordReadsBack | scripts/check-api-surface.mjs:73-75 | a record reads back as a JSON array of the flag and the two names |
| ExportRecords.PlainIsNotEscaped | scripts/check-api-surface.mjs:73-75 | names without control characters, quotes, backslashes and surrogates are quoted as they are |
| ExportRecords.LeqIsCodeUnitOrder | scripts/check-api-surface.mjs:85 | the sort order is that of code units |
| ExportRecords.SortingIsUnique | scripts/check-api-surface.mjs:85 | a multiset of lines has one ascending order |
| ExportRecords.BlockLines | scripts/check-api-surface.mjs:85 | the printed block splits back into its records |
| ExportRecords.BlockIsCanonical | scripts/check-api-surface.mjs:66-85 | two blocks are equal text exactly when the multisets of (typeOnly, local, exported) are equal |
| ApiSurface.ListRecords | scripts/check-api-surface.mjs:70-76 | one record per specifier of a list; which specifier is what SpecifierStandsAt says |
| ApiSurface.Normalize | scripts/check-api-surface.mjs:57-86 | the loop over the statements yields the normal form |
| ApiSurface.NormalFormIff | scripts/check-api-surface.mjs:57-86 | two normal forms are equal exactly when directives, kind, kept text and the multiset of specifiers are |
| ExportLists.SpecifierStandsAt | scripts/check-api-surface.mjs:70-75 | below `exports:` a specifier stands exactly as often as there are list elements that mean it: type-only if the list or the element is, and under the name before `as` if there is one |
| ExportLists.TypeDropIsSeenIff | scripts/check-api-surface.mjs:72 | dropping `type` from a list leaves the normal form as it is exactly when every element is type-only by itself |
| ExportLists.TypeMovesInward | scripts/check-api-surface.mjs:72 | moving `type` from a list onto each element changes nothing |
| ExportLists.OwnNameIsNoName | scripts/check-api-surface.mjs:71 | `x as x` and `x` print alike |
| ExportLists.KeptAreOthers | scripts/check-api-surface.mjs:77-79 | every statement that is no local export list is kept, once and in order |
| ChangedNames.FileAll | scripts/check-api-surface.mjs:149-150 | files a list of texts, appending to a name that has one |
| ChangedNames.DeclarationsByName | scripts/check-api-surface.mjs:139-171 | the map of everything filed, in filing order |
| ChangedNames.ByNameHolds | scripts/check-api-surface.mjs:149-170 | a name maps to the texts filed under it, in order, joined by line feeds |
| ChangedNames.ReportedIff | scripts/check-api-surface.mjs:187-197 | a name is reported exactly when the two files hold different text under it |
| ChangedNames.SamePartsReportNothing | scripts/check-api-surface.mjs:191-197 | files with the same directives, kind, printed statements and specifiers report no name |
| ChangedNames.NoNameReportedIff | scripts/check-api-surface.mjs:191-197 | for files that are each tidy, no name is reported exactly when directives, kind, specifiers and the text under every statement name agree |
| ChangedNames.OrderIsNotNamed | scripts/check-api-surface.mjs:129-137 | swapping two differently named statements changes the normal form and reports no name |
| TreeReports.FiledIff | scripts/check-api-surface.mjs:151-170 | what is filed is each statement's print under its name, each specifier's record under `export ` and its exported name, the directives and the kind |
| TreeReports.TypeDropIsReported | scripts/check-api-surface.mjs:151-163 | in tidy files, a list that drops its `type` has every name that is not type-only by itself reported |
| ChangedNames.CompareDist | scripts/check-api-surface.mjs:294-319 | one entry per file that is on one side only or differs, with its diff and its names |
| ChangedNames.NoDifferencesIff | scripts/check-api-surface.mjs:294-319 | no entry exactly when every file is on both sides with one normal form |
| ChangedNames.TreesAgreeIff | scripts/check-api-surface.mjs:285-319 | no entry exactly when both trees hold the same files with the same directives, kind, statement text and specifiers |
| TreeReports.ReportSays | scripts/check-api-surface.mjs:294-319 | one entry per disagreeing file, in order: removed or added as it was for a lone file, and otherwise a diff whose `- ` lines explain the old normal form and `+ ` lines the new one, with exactly the names whose text differs |
| FileLength.LineCountCountsLines | scripts/check-file-length.mjs:46-51 | the count is the number of lines, with or without a final line feed |
| FileLength.SourceIff | scripts/check-file-length.mjs:38 | a path is source exactly when it ends in a dot and an extension the pattern accepts |
| FileLength.Oversize | scripts/check-file-length.mjs:53-67 | the table of tracked source files over the limit, or the first unreadable one |
| FileLength.OversizeHolds | scripts/check-file-length.mjs:59-67 | the table holds exactly the tracked source files over the limit with their lengths, each once |
| FileLength.ParseBaseline | scripts/check-file-length.mjs:69-85 | the table, or the failure of the first entry that is no integer above the limit |
| FileLength.ParseIff | scripts/check-file-length.mjs:69-85 | a baseline parses exactly when it is an object whose `files` is one that records an integer above the limit for every path, and the table then holds those |
| FileLength.FirstBadIs | scripts/check-file-length.mjs:76-83 | the path a rejected table is blamed on is the first that records no integer above the limit |
| FileLength.PropertyIsLast | scripts/check-file-length.mjs:70-75 | of members with one name the last one counts |
| FileLength.ProblemsOf | scripts/check-file-length.mjs:122-149 | the messages of both loops, in order |
| FileLength.ProblemsHold | scripts/check-file-length.mjs:122-149 | a message is given exactly when what it says is true of the two tables |
| FileLength.NoProblemsIff | scripts/check-file-length.mjs:122-149 | no problem exactly when the oversize table equals the baseline |
| FileLength.Widening | scripts/check-file-length.mjs:106-120 | the messages of the loop, in order |
| FileLength.WideningHolds | scripts/check-file-length.mjs:107-120 | a message is given exactly for an entry the base does not have, or has lower |
| FileLength.NoWideningIff | scripts/check-file-length.mjs:106-120 | none exactly when the baseline only loses or lowers entries of the base |
| FileLength.Check | scripts/check-file-length.mjs:156-169 | the failures and problems of a whole run |
| FileLength.AcceptedIff | scripts/check-file-length.mjs:156-169 | a run succeeds exactly when everything is readable, the baseline is exact, and it narrows the base's if there is one |
| FileLength.ChainOnlyShrinks | scripts/check-file-length.mjs:6-20 | along any chain of revisions, each run against its predecessor, an oversize file was oversize at every earlier revision and no shorter |
| FileLength.OnceWithinAlwaysWithin | scripts/check-file-length.mjs:6-20 | a file once within the limit is never oversize afterwards |
| FileLength.ChainNeverGrows | scripts/check-file-length.mjs:6-20 | the total excess over the limit never rises along a chain |
| FileLength.RecordedParses | scripts/check-file-length.mjs:69-85 | a baseline that records a table parses back to it |
| FileLength.OwnBaselineIsAcceptedIff | scripts/check-file-length.mjs:17-20 | a tree that records its own oversize files passes exactly when there is no base or it narrows the base's baseline |
| ReadmeSnippets.BindReceivers | scripts/readme-snippets.mjs:206-218 | binds exactly the named receivers whose class is exported and which the snippet does not declare, and rewrites them one name after the other |
| ReceiverNames.ListedIff | scripts/readme-snippets.mjs:208 | a name is listed exactly if `this.<name>` stands between word boundaries somewhere, starts with a small letter and has an even number of `this.` in a row before it |
| ReceiverNames.PlainListedIff | scripts/readme-snippets.mjs:208 | so without `this.this` exactly the names that occur are listed |
| ReceiverNames.ChainIsReadPast | scripts/readme-snippets.mjs:208 | in `this.this.a` the name `a` occurs and is not listed |
| ReceiverNames.BoundIff | scripts/readme-snippets.mjs:211-214 | a listed receiver is bound exactly if its class is exported and the snippet does not declare it |
| ReceiverNames.ClassOfReceiver | scripts/readme-snippets.mjs:187-189 | `metricsService` is bound to `MetricsService`, and different receivers to different classes |
| ReceiverNames.ConstantsDiffer | scripts/readme-snippets.mjs:215-236 | no two snippets share a constant, and no two receivers of one |
| ReadmeSnippets.BindingIsLineByLine | scripts/readme-snippets.mjs:206-218 | line k of the rewritten snippet is line k of the snippet, rewritten by itself |
| BoundReceivers.SnippetIsTogether | scripts/readme-snippets.mjs:206-218 | the rewritten snippet is the snippet with all bound receivers replaced in one pass, unless `this` is one of them |
| BoundReceivers.OrderDoesNotMatter | scripts/readme-snippets.mjs:208-216 | so the order in which the names are met does not matter |
| BoundReceivers.OrderMattersForThis | scripts/readme-snippets.mjs:208-216 | with `this` itself bound, a chain `this.this.a` is rewritten differently in the two orders |
| ReadmeSnippets.PrepareSnippet | scripts/readme-snippets.mjs:333-350 | prefix, blanked body and suffix, and the line feeds of the prefix as offset |
| SnippetTexts.WrapperChoice | scripts/readme-snippets.mjs:340-350 | a decorated method is put in a class, statements in a function, and a snippet that declares something is left as written below its header |
| SnippetTexts.ResolvedPoints | scripts/readme-snippets.mjs:304-313 | a relative import points at the file of the first of its names that a snippet exports; any other import is left alone |
| SnippetTexts.HeaderHoldsImports | scripts/readme-snippets.mjs:334-337 | the header ends with every import of the snippet, resolved, in order |
| ReadmeSnippets.PrefixClosed | scripts/readme-snippets.mjs:337-348 | the prefix is empty or ends in a line feed, relative imports resolved or not |
| ReadmeSnippets.BodyLines | scripts/readme-snippets.mjs:335 | blanking keeps the line count up to the line ends of imports that are no line feeds |
| ReadmeSnippets.KeptLine | scripts/readme-snippets.mjs:333-350 | every kept character is carried over, further down by the prefix's lines and up by the lost ones |
| ReadmeSnippets.OwnLineIff | scripts/readme-snippets.mjs:399-404 | a diagnostic on kept text is reported on its own line exactly when the prefix's other line ends equal those lost before it |
| ReadmeSnippets.SeparatorMovesTheLine | scripts/readme-snippets.mjs:326-350 | a one-line snippet with an import of U+2028 below it has a diagnostic on its line reported elsewhere, whatever wraps it and whatever names are imported for it |
| ReadmeSnippets.DiagnosticsMapBack | scripts/readme-snippets.mjs:396-405 | with line feeds as only line ends, a diagnostic on kept text is reported on its line of the snippet |
| ReadmeSnippets.HeaderIff | scripts/readme-snippets.mjs:402-404 | for every snippet, exactly the positions of the prefix are reported as header if and only if the prefix has no line end but line feeds |
| ReadmeSnippets.PlainHeader | scripts/readme-snippets.mjs:402-404 | in particular whenever line feeds are the only line ends of the snippet and the names imported for it |
| ReadmeSnippets.LineOfOriginal | scripts/readme-snippets.mjs:366-374 | that line is the same line of the README's snippet, with its receivers rewritten |

## Left out

- BullMQ, ioredis and Redis: a connection, worker, queue-events object or queue is an identity, and how its calls end is a choice of the run.
- NestJS: provider scanning, reflection metadata and hook scheduling are inputs; the second hook begins only after the first has returned, and services run only after `init` succeeded.
- Option validation, processor-file checks and the usability and retry checks of a client are booleans of the call.
- `new Redis` throwing, and a Mode B client left open when `init` rejects, are not part of this model.
- HookCompletesIff: a schedule ends every call the hook awaits, a graceful worker close also by its timer; a quit, drain or other close that never settles suspends the hook for good, in the code as well.
- DrainIsBounded: the drain timer is ideal, so time does not pass a pending deadline; a late timer adds its own delay.
- DuplicatesAreConserved: assumes that no `unregister` of a queue begins while another of it is in flight; UnregisterIsSafeIff shows that this is the condition.
- TeardownSequence: the flow producer, the queues and the role client are called from the shutdown only; a consumer that closes them itself is outside the model.
- Awaits that only pass through (`async` functions that return at once) are not separate points; every point where a call of the model can fall between two effects of a hook is one.
- A metrics fetch also caches its queue in `QueueService`; that is a `Use` event of the runtime machine, not repeated in the metrics machine.
- The list `MetricsService.getAll` resolves with is given by the calls it makes (GetAllAsksEach); `Promise.all` itself is not modelled.
- Listener guards, log lines, error envelopes and exception texts.
- PercentileIsNearestRank: exact arithmetic for a whole percentage from 1 to 100 of a non-empty list; floating-point rounding of `p / 100` is not modelled.
- The TypeScript parser and printer: a statement is a name and a printed text, an export list a sequence of specifiers, and `changelogSection`, `classifyBump` and the version helpers are left to their own reading.
- Directive parsing: a normalized directive is one line that starts with a slash; the attribute rewriting is not modelled.
- SamePartsReportNothing: compares the lists of printed statements, not only their joined text, and takes a statement's name to be readable off its print.
- NoNameReportedIff: assumes that no file exports a name twice, that no statement bears a pseudo-name of its own file, and that no printed statement starts with a bracket.
- CompareDist: the sorted union of the two file listings is an input, and a file that is listed can be read.
- ParseBaseline: a JSON number is a real and a repeated member takes its last value; the enumeration of integer-like member names before others, which only affects which entry fails first, is not modelled.
- Check: `git` and the file system are inputs (the listing, the readable texts, the baseline and the base's baseline).
- PrepareSnippet: the snippet is given cut at its imports, for any cut whose pieces open with the keyword and end in a line feed, which every match of the import pattern does; the two patterns that choose the wrapper, the generated import of public names and the parser's list of declared receivers are inputs.
- DiagnosticsMapBack: lines only; a rewritten receiver shifts the columns after it, in the code as well.
- The link, DNS and package probes, the size checks, the Redis measurements of the benchmark and the remaining scripts.
