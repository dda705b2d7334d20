# rice-verification

A Dafny model of rice, a Go HTTP framework on fasthttp, and proofs about it. Bytes are
modelled as characters; every theorem is for all of them.

- **Routing** (`Routes`, `Segments`, `Params`, `Pattern`, `PatternErrors`, `RadixGraph`,
  `RadixSearch`, `RadixGrowth`, `RadixTree`, `RouteOrder`, `TreeOrder`). A pattern is a
  sequence of symbols: literal bytes, parameters and a final wildcard. What it matches, and which of several matching
  patterns is best, is defined without any tree. The tree is a graph of mutable nodes,
  split in place; its invariant is local to each node, over a snapshot of the fields, and
  its meaning is a map from patterns to handlers. Insertion and backtracking lookup are
  proved against that map, the captures and their rollback included.
- **Registration and Build** (`Chain`, `GroupJoin`, `Build`). Groups with parent pointers,
  one tree per method, and the rebuild that installs compiled middleware chains.
- **Serving and shutting down** (`Lifecycle`, `LifecycleInv`, `LifecycleSafety`,
  `LifecycleRuns`, `LifecycleDelay`, `LifecycleProgress`, `RunContext`, `RunContextRuns`). A
  step system: any number of Serve, Shutdown, RunContext and connection goroutines, each with a program counter, one step per
  critical section, atomic access, channel operation or call into the transport. The
  transport is the abstract machine described at the head of `Lifecycle.dfy`. Theorems are
  about every reachable state and every continuation of it.
- **Rate limiting** (`RateLimit`, `MemoryStore`). GCRA on one key, the bound it enforces
  and the token bucket it is; the sharded, swept store in 64-bit arithmetic that refines it.
- **Server-sent events and streams** (`EventStream`, `StreamWriter`, `StreamSteps`). The
  encoder, a parser by sections 9.2.5 and 9.2.6 of the HTML Living Standard, and the
  goroutines that share the writer.
- **Content negotiation** (`AcceptRule`, `AcceptOrder`, `Accept`). The rule of sections
  12.5.1 and 12.4.2 of RFC 9110, stated over the elements of all lines, and the scanner proved to compute it.
- **Dispatch and the error funnel** (`Errors`, `DispatchRule`, `DispatchPath`, `Dispatch`).
  User code is an arbitrary finite script, which says at each call of HandleError what the ErrorHandler would
  do there; the theorems are for every script.
- **The benchmark's histogram** (`Histogram`).

## Findings

- Joining a checked group prefix to a valid path is not always a valid pattern
  (group.go:28-30). `GroupJoins.JoinIsAcceptable` says exactly when it is.
- RunContext can return while OnShutdown hooks run (server.go:128-136). Its comment says that
  it never does, and that hooks which start later may be cut short: its check finds them not
  started, and a Shutdown called elsewhere starts them before it returns.
  `RunContextRuns.PromiseKept` is the exact condition: the promise is kept if and only if no
  Shutdown is called elsewhere.
- A Shutdown whose first drain times out skips closing the listener it saw
  (server.go:294-316). If the transport had not recorded that listener yet, which takes an
  earlier Serve that failed and left a busy connection, the listener is still open when
  Shutdown returns; what it accepts is closed on arrival.
  `LifecycleSafety.OpenAtReturnIfMissed` is the exact condition, and
  `LifecycleSafety.OneServeIsNotMissed` a guard a caller can check.
- The limit enforced is one request per Per/Rate rounded down, so in the long run more than
  Rate requests per Per whenever that division has a remainder (ratelimit.go:35).
  `RateLimits.RateIsKept` is the exact condition.

## Assumptions

- The transport records a listener before it accepts on it and never while it shuts down;
  it counts a Serve loop as open from before its first accept, and a connection from its
  accept until its goroutine has left; StateNew is reported before a connection is read;
  Serve returns nil only once a Shutdown has begun; a Serve that stops on its own leaves its
  listener recorded, which the third finding rests on.
- Readings of the clock by Takes on one shard do not decrease in the order of its lock, and
  the uptime is at most half the int64 range.
- Sections 9.2.5 and 9.2.6 are applied to bytes.

## Model

| member | source | states |
|---|---|---|
| `Routes.BestIsUnique` | internal/router/tree.go:156-166 | the priority static byte, then parameter, then wildcard at the first differing symbol singles out at most one best route for a path |
| `Routes.BetterIsOneWay` | internal/router/tree.go:156-164 | of two patterns at most one is the better |
| `Routes.MatchIsUnique` | internal/router/tree.go:188-217 | the values a pattern captures from a path are determined: only one choice, put back in place of its markers, spells the path |
| `Routes.EmptyPath` | internal/router/tree.go:170-172 | the empty path is matched by no pattern but the empty one |
| `RadixTree.Tree.Insert` | internal/router/router.go:35-60 | accepted exactly when the pattern is acceptable, new and no marker of its kind has another name at the same place; then the route map gains exactly this route, the count one and the parameter maximum rises as needed; otherwise every node, link, route, count and maximum is as before |
| `RadixTree.Tree.InsertSegments` | internal/router/tree.go:36-79 | the walk over the segments ends in a stored handler, a duplicate or a name clash, each exactly when the registered patterns say so |
| `RadixTree.Tree.InsertStatic` | internal/router/tree.go:81-120 | descending and splitting in place reaches the node that spells the text, keeps the meaning of the tree, and creates something only where no handler or marker can be |
| `RadixTree.Tree.Divide` | internal/router/tree.go:95-114 | splitting a node keeps every route: the meaning of the tree and the way to every registered pattern are unchanged |
| `RadixTree.Tree.StaticChild` | internal/router/tree.go:122-134 | the one static child that starts with the byte, or none at all |
| `RadixTree.CommonPrefixLen` | internal/router/tree.go:136-146 | the length of the longest common prefix |
| `RadixTree.Tree.Lookup` | internal/router/router.go:66-76 | answers exactly when some registered pattern matches the path, with the handler of the best one, and appends exactly its captures, in pattern order; on a miss the captures are as passed in; slots past the length stay zero and storage with room for the largest route is never outgrown, failed branches included |
| `RadixTree.Tree.LookupFrom` | internal/router/tree.go:156-220 | below any node, backtracking finds the best completion of the node's key or proves there is none, leaving no trace |
| `RadixTree.Tree.TryStatic` | internal/router/tree.go:174-186 | the static attempt finds the best completion that starts with a byte, or there is none |
| `RadixTree.Tree.TryParam` | internal/router/tree.go:188-207 | after no static completion, the parameter attempt finds the best one, or none starts with a parameter and the capture is rolled back |
| `RadixTree.Tree.TryWildcard` | internal/router/tree.go:209-217 | after neither, the wildcard attempt finds it, or none starts with a wildcard |
| `RadixTree.CountMarkers` | internal/router/router.go:50-58 | counts the values the pattern captures |
| `RadixGrowth.LeafGrows` | internal/router/tree.go:87-91 | a new leaf keeps the tree sound and every node on the way to a route |
| `RadixGrowth.MarkerGrows` | internal/router/tree.go:50-68 | so does a new parameter or wildcard child |
| `RadixGrowth.CutGrows` | internal/router/tree.go:95-114 | so does splitting a node in place |
| `RadixGraph.NoConflictInside` | internal/router/tree.go:7-14 | one tree never holds two patterns that clash over a marker's name |
| `RadixTree.WalkEnd` | internal/router/tree.go:72-78 | a handler at the end of the walk is there exactly for a duplicate |
| `RouteOrder.OrderFree` | internal/router/router.go:35-48 | patterns accepted one after another are exactly the lists with no duplicate and no clashing pair; TreeOrders.Fill ties it to a tree |
| `RouteOrder.AnyOrder` | internal/router/router.go:35-48 | two orders of the same patterns are both accepted or both rejected; TreeOrders.FillBoth states it for two trees |
| `RouteOrder.OneAnswer` | internal/router/router.go:66-76 | whatever the order, a path has one best route and one list of captures |
| `TreeOrders.Fill` | internal/router/router.go:35-60 | registering a list of routes in a new tree succeeds exactly when all are acceptable and compatible, and then the tree holds exactly them |
| `TreeOrders.FillBoth` | internal/router/router.go:35-60 | two trees filled with the same routes in two orders are both accepted or both rejected, and hold the same routes |
| `TreeOrders.LookupBoth` | internal/router/router.go:66-76 | two trees that hold the same routes answer every path with the same handler and the same captures |
| `CaptureStore.Params.Add` | internal/router/params.go:58-63 | appends one capture and grows the storage only when it is full |
| `CaptureStore.Params.Truncate` | internal/router/params.go:48-56 | rolls back to a length and zeroes everything past it |
| `CaptureStore.Params.Reset` | internal/router/params.go:42-46 | discards every capture; no slot keeps anything |
| `CaptureStore.Params.Set` | internal/router/params.go:65-80 | replaces the first capture of the name, or appends |
| `CaptureStore.Params.Get` | internal/router/params.go:82-93 | the value of the first capture of the name, or nothing |
| `CaptureStore.SetThenGet` | internal/router/params.go:65-93 | what is set under a name is got under it, and no other name changes |
| `PatternParser.ParsePattern` | internal/router/pattern.go:29-105 | accepts exactly the acceptable patterns, or gives the first reason not to; the segments it returns print back to the pattern and are well formed |
| `PatternParser.AcceptableIsPrinted` | internal/router/pattern.go:29-105 | the acceptable patterns are exactly the normalised prints of segment lists that alternate non-empty static runs with distinctly and validly named markers, any wildcard last |
| `PatternParser.ScanPrint` | internal/router/pattern.go:49-105 | scanning the print of such a list gives the list back |
| `PatternParser.ScanGood` | internal/router/pattern.go:49-105 | what a scan accepts is such a list, and prints to what was scanned |
| `PatternParser.PrintIsInjective` | internal/router/pattern.go:21-27 | two such lists with one print are one list |
| `PatternParser.CheckNormalised` | internal/router/pattern.go:142-160 | passes exactly the paths without an empty segment, a dot segment or a percent escape, and names the first of those otherwise |
| `PatternParser.DotSegments` | internal/router/pattern.go:148-152 | a path has a dot segment exactly when one or two dots stand alone between two slashes, or a slash and an end |
| `PatternErrors.ReasonsAreTrue` | internal/router/pattern.go:29-105 | every rejected pattern has what it is rejected for: the double slash, the dot segment, the escape, or a marker that is unnamed, badly named, named before, or a wildcard that is not last |
| `PatternParser.HasEscape` | internal/router/pattern.go:162-171 | finds a complete percent escape exactly when there is one |
| `PatternParser.SplitThenJoin` | internal/router/pattern.go:148 | the parts between slashes have none, and joined by slashes they are the path |
| `PatternParser.ScanName` | internal/router/pattern.go:107-116 | the name runs to the next slash or the end |
| `PatternParser.IsValidParamName` | internal/router/pattern.go:118-140 | a name is valid exactly when it is letters, digits and underscores |
| `Segments.AlternatesSpell` | internal/router/pattern.go:61-64 | such segments spell a pattern in which a parameter is a whole path segment and nothing follows a wildcard |
| `GroupJoins.JoinIsAcceptable` | group.go:26-30 | a checked prefix and a path join to an acceptable pattern if and only if both are acceptable, the prefix has no wildcard and they share no parameter name |
| `GroupJoins.SharedNameDoesNotJoin` | group.go:26-30 | the comment that joining is total is false: /:id and /:id are each acceptable and do not join |
| `GroupJoins.NormalisedJoin` | internal/router/pattern.go:142-160 | a joined path is normalised exactly when its parts are |
| `GroupJoins.TakenNames` | internal/router/pattern.go:89-94 | names already taken rule out exactly the patterns that use one of them, and change no other parse |
| `Chain.Compile` | internal/chain/chain.go:19-24 | compiles to the handler wrapped in the middleware, the first outermost |
| `Chain.ChainOrder` | internal/chain/chain.go:19-24 | a chain enters its middleware in order, runs the handler and leaves in reverse |
| `Application.FullChainRuns` | build.go:59-81 | a route's chain runs as told along the parents of its group: the application's middleware outermost, then each group's inside its parent's, then the route's own, unwinding in reverse |
| `Application.Reverse` | build.go:98-100 | swapping towards the middle reverses the list |
| `Application.GroupChain` | build.go:83-102 | the groups around a group, outermost first |
| `Application.App.MiddlewareFor` | build.go:59-81 | the middleware as it is at the time of the call, late additions included, in the order in which it then runs: application, groups from the outermost in, the route's own |
| `Application.App.Register` | route.go:84-131 | accepted exactly when nothing was built, the method is non-empty and upper-case, and the pattern is acceptable and compatible with the routes of its method; then one route is added, and otherwise none; each refusal has its own reason |
| `Application.App.GroupHandle` | group.go:76-80 | the same for a group's prefix joined with the path, which may be empty only when the prefix is not |
| `Application.App.MakeGroup` | group.go:24-61 | a group is made exactly when the prefix is checked and nothing was built; its prefix is its parent's followed by its own |
| `Application.App.GroupUse` | group.go:63-74 | adds to the group's middleware, until Build |
| `Application.App.Use` | route.go:64-82 | adds to the application's middleware, until Build |
| `Application.App.TreeFor` | route.go:148-170 | the method's tree, created on first use, with no effect on any other |
| `Application.App.Build` | build.go:8-57 | runs once; no re-insertion fails, every method keeps exactly its patterns, and every entry then runs the application's middleware around its groups', each inside its parent's, around the route's own, around its handler, as the middleware is at that moment; a miss runs the application's alone |
| `Application.App.Rebuild` | build.go:26-40 | the insertions Build calls unreachable to fail cannot fail |
| `Application.AnswersKept` | build.go:26-40 | a path that was answered before Build is answered after it, by the same registration with its compiled entry and with the same captures; one that was not is not |
| `Application.App.LookupEntry` | route.go:190-200 | the entry of the best route of the method's table, with its captures, or none exactly when no route matches; storage with room for maxParams captures is never outgrown |
| `Application.App.Served` | route.go:122-130 | every route that can answer is a registered one and answers with its own entry |
| `Application.App.Answering` | route.go:122-130 | and every registered route is in the table of its method, with its own entry |
| `LifecycleInv.StepKeepsInv` | server.go:52-359 | every step of every Serve, Shutdown and connection keeps the invariant of the whole protocol |
| `LifecycleInv.RunKeepsInv` | server.go:52-359 | so does every run |
| `LifecycleInv.ServeKeepsInv` | server.go:52-97 | every Serve step keeps it |
| `LifecycleInv.ConnKeepsInv` | conns.go:17-36 | every connection step keeps it |
| `LifecycleInv.ShutKeepsInv` | server.go:257-359 | every Shutdown step keeps it |
| `LifecycleSafety.OneServes` | server.go:55-97 | in every interleaving at most one Serve is past its first check; ready means that one has published its listener and no Shutdown has taken its first drain step |
| `LifecycleSafety.PublishedBeforeClosed` | server.go:84-94 | a listener is published, and readiness gained, only before any Shutdown has set closed |
| `LifecycleSafety.ClosedFreezes` | server.go:257-261 | once closed is set the published listener never changes, and readiness once taken away never returns, whatever follows |
| `LifecycleSafety.NothingServedAfterShutdown` | server.go:231-238 | once any Shutdown is past its drain or force-close, and for ever after its return, every accepted connection that was not hijacked is drained or closed or will be closed on arrival, the publish-record window included |
| `LifecycleSafety.ListenerClosedUnlessMissed` | server.go:284-313 | past the transport's drain the listener a Shutdown saw is open if and only if its first drain ended with its context without having found that listener; otherwise it is closed then, when the call has returned, and for ever after |
| `LifecycleSafety.OpenAtReturnIfMissed` | server.go:284-316 | so at the step by which a Shutdown that had its turn returns, its listener is open if and only if it was missed |
| `LifecycleSafety.OneServeIsNotMissed` | server.go:284-313 | with one Serve that never happens |
| `LifecycleRuns.ListenerLeftOpen` | server.go:284-316 | with a failed Serve before, it does: a run in which Shutdown returns and its listener stays open |
| `LifecycleDelay.NobodyPassesTheDelay` | server.go:334-359 | in every run from the step that takes readiness from an App that was ready, with a drain delay, no Shutdown whose context is live passes the delay or has the turn before it ends; and while every context is live the listener published is open, no call has the turn and nothing is force-closed |
| `LifecycleDelay.WaitsExactly` | server.go:338-359 | a Shutdown that comes to the delay may go on if and only if the App was not ready or has no delay, the delay has ended, or its own context has |
| `LifecycleDelay.SomeRunWaits` | server.go:338-359 | there is such a run: a Shutdown waits with its listener open, and goes on once the delay ends |
| `LifecycleProgress.OnlyShutdownTakesItsTurn` | server.go:267-282 | the only Shutdown takes its turn even when its context has ended before: it returns with the hooks run, and its listener closed unless missed |
| `LifecycleProgress.NoForceInTime` | server.go:231-238 | while every context is live nothing is force-closed, no call times out, and every Shutdown that has returned has drained and seen the hooks done |
| `LifecycleProgress.ShutdownGoesOn` | server.go:257-359 | a Shutdown that has not returned can take a step, unless it waits for another inside drainOnce or, with a live context, for the delay, its turn or what is open |
| `LifecycleProgress.EndedWaitsForTheOnce` | server.go:338-359 | one whose context has ended waits at most for a call inside drainOnce, which itself waits for nobody |
| `LifecycleProgress.EveryStepIsNearer` | server.go:257-359 | every step of its own brings a Shutdown nearer to its return, so it takes finitely many |
| `LifecycleProgress.ServeGoesOn` | server.go:52-97 | a Serve that has not returned can go on, unless the transport holds it back while it shuts down |
| `LifecycleProgress.UnservedIsClosed` | server.go:55-97 | a Serve that is refused, fails to start or comes too late serves nothing, and has closed its listener when it returns |
| `LifecycleSafety.ResultSays` | server.go:220-222 | a Shutdown that reports a timeout has force-closed; one that does not had its turn, drained to the end, ran the hooks and closed the listener it saw |
| `LifecycleSafety.OneTurn` | server.go:270-282 | one Shutdown has the turn at a time |
| `LifecycleSafety.HookRunsNext` | lifecycle.go:72-89 | a hook runs only in the call that has the turn, after its drain and every close of its force-close, with nothing served; it is the last registered one that has not run, and none runs twice |
| `LifecycleSafety.OnlyHooksRun` | lifecycle.go:76-89 | no other step runs a hook |
| `LifecycleSafety.DoneAfterHooks` | lifecycle.go:76-89 | shutdownDone is closed only after all of them, in reverse order, unless one panicked |
| `LifecycleSafety.ReturnedHow` | server.go:249-256 | a Shutdown that returned without the turn has force-closed; one that had it has seen the hooks to their end |
| `LifecycleSafety.CopyIsClosed` | conns.go:38-73 | a closeConns past its loop has closed every connection it found tracked, and closes none before the base context is cancelled |
| `LifecycleSafety.TrackedAreClosed` | conns.go:50-73 | in every run from its lock step to the end of a closeConns, every connection that was tracked at that step is closed, and the App stays closed to new ones |
| `LifecycleSafety.TrackedShrinks` | conns.go:19-36 | once forceClosed is set the tracked set only shrinks |
| `LifecycleSafety.ClosedOnArrival` | conns.go:20-25 | and a connection reported after it can only be closed on arrival |
| `RunContexts.RunContextReturns` | server.go:136-177 | in every run RunContext returns when Serve is back, and with the hooks finished or after a check that found them not started; it shuts down itself only when its context has ended, and then that call has returned, with the hooks finished if it had its turn, and nothing is served then or later; otherwise Serve failed or the hooks are finished |
| `RunContexts.AwaitsRunningHooks` | server.go:179-191 | after a check that finds the hooks started RunContext does not leave before they are done, whatever follows; after one that does not it can leave at once |
| `RunContexts.RunContextGoesOn` | server.go:136-177 | RunContext waits only for Serve or its context, for another Shutdown's hooks, for its own Shutdown, or for hooks that have started |
| `RunContexts.NoHooksAfterLeaving` | server.go:128-136 | where no Shutdown is called elsewhere no hook runs once RunContext is about to return, or later |
| `RunContextRuns.ReturnsAmidHooks` | server.go:182-191 | otherwise it can: one run from the start of RunContext to its return, with another Shutdown's hooks started after its check and running at that moment |
| `RunContextRuns.PromiseKept` | server.go:128-136 | the promise that it never returns while hooks run is kept over all runs if and only if no Shutdown is called elsewhere |
| `RateLimits.AcceptedLimits` | middleware/ratelimit.go:24-50 | a limit is accepted exactly when its rounded-down interval is at least a nanosecond and its whole burst takes at most a quarter of the int64 range; its burst is then the one given, or the rate when that is 0 |
| `RateLimits.RateIsKept` | middleware/ratelimit.go:15-17 | over every run, no window of k Pers admits more than the burst plus k times Rate, for every k, if and only if Per/Rate has no remainder |
| `RateLimits.WaitIsExact` | middleware/ratelimit.go:52-57 | after a refusal, with no charge between, a request is admitted if and only if at least the returned wait has passed |
| `RateLimits.LeastSeconds` | middleware/ratelimit.go:151-159 | Retry-After is the least whole number of seconds, at least one, that covers the wait |
| `RateLimits.WaitingSuffices` | middleware/ratelimit.go:151-153 | a client that waits as told is admitted |
| `RateLimits.RateBound` | middleware/memorystore.go:69-78 | the admissions from one to another of a key are at most the burst plus the whole intervals between them |
| `RateLimits.WindowBound` | middleware/memorystore.go:69-78 | so no window admits more than the burst plus the intervals it lasts |
| `RateLimits.WindowIsReached` | middleware/memorystore.go:69-78 | and for every length some window admits exactly that many: the bound is reached, also in the long run |
| `RateLimits.BurstAtOnce` | middleware/ratelimit.go:86-90 | an idle key gets exactly its burst at one instant: the bound is reached |
| `RateLimits.IsTokenBucket` | middleware/memorystore.go:69-78 | one step answers and leaves a key as a token bucket of capacity burst times interval and cost interval does |
| `RateLimits.RunIsTokenBucket` | middleware/memorystore.go:69-78 | so does every run on a key |
| `MemoryStores.Shard.Sweep` | middleware/memorystore.go:60-67 | deletes exactly the keys whose time has passed, which changes no key's meaning |
| `MemoryStores.Shard.Charge` | middleware/memorystore.go:57-79 | under the lock: the answer and the new time of the key are those of an unswept table; no 64-bit sum wraps for uptimes up to half the range |
| `MemoryStores.MemoryStore.Take` | middleware/memorystore.go:46-79 | a refused limit changes nothing; otherwise shards, sweeps and other keys are invisible, a refusal changes nothing and its wait is positive and exact |
| `MemoryStores.Limited` | middleware/ratelimit.go:132-148 | passes an admitted request on; a refused one gets the least number of seconds after which its key is admitted again; a key error charges nothing |
| `MemoryStores.KeysAreApart` | middleware/memorystore.go:15-22 | the replies of the table to requests on many keys are, for each key, those it would get alone |
| `MemoryStores.StoreIsTokenBuckets` | middleware/memorystore.go:15-22 | the replies of an empty table are those of one full token bucket per key |
| `MemoryStores.TakeAll` | middleware/memorystore.go:46-79 | every run of Take on a sharded, swept store gives the replies of the table; on a new store, each key those of its own full token bucket |
| `EventStream.StreamComesBack` | sse.go:71-125 | any accepted sends interleaved in any way with heartbeats are parsed, by sections 9.2.5 and 9.2.6 of the HTML Living Standard, into exactly those events in order, with the id in force, the name, whole-millisecond retries and data with each line break turned into LF |
| `EventStream.EventComesBack` | sse.go:81-120 | one event comes back between any two others; empty data still dispatches |
| `EventStream.FeedData` | sse.go:102-119 | the data lines parse to the data with CRLF, CR and LF each turned into LF |
| `EventStream.DecimalReadsBack` | sse.go:92-101 | the digits written for a retry read back as its whole milliseconds |
| `EventStream.WholeMilliseconds` | sse.go:92-101 | the retry written is the number of whole milliseconds, and none is written for less than one |
| `EventStream.HeartbeatIsSilent` | stream.go:199-202 | a heartbeat dispatches nothing and disturbs nothing |
| `EventStream.CutOffStream` | sse.go:64-70 | a stream cut off at any byte delivers a prefix of its events, each whole |
| `EventStream.RefusedExactly` | sse.go:66-74 | Send refuses exactly the events that would not come back |
| `StreamWriters.Stream.Send` | sse.go:71-125 | writes exactly the event's frame and reports no error only when all of it was sent; a refused event or a retired stream leaves the writer untouched; a failed write cancels the stream |
| `StreamWriters.Stream.WriteData` | sse.go:102-119 | the loop writes one data line per line of the data, and one for none |
| `StreamWriters.Stream.WriteString` | stream.go:53-63 | buffers the text, or reports a retired stream without touching the writer |
| `StreamWriters.Stream.Flush` | stream.go:65-75 | success means everything written was sent |
| `StreamWriters.Stream.Beat` | stream.go:199-206 | one beat writes one comment and stops, cancelling, only when its flush fails |
| `StreamWriters.Stream.Retire` | stream.go:168-171 | the last flush sends what is left, and the stream is done |
| `StreamWriters.ClientSees` | sse.go:64-70 | what a client has received of a stream of events is a prefix of them, and all of them when nothing failed |
| `StreamSteps.FramesAreWhole` | stream.go:147-209 | in every interleaving of the callback, goroutines it started and the heartbeat each frame is written without interruption |
| `StreamSteps.EveryRunIsAStream` | stream.go:147-209 | in every interleaving of Sends and the heartbeat the text written is the frames one after another, all whole but one still being written, and the client has parsed a prefix of exactly their events; all of them when none is being written |
| `StreamSteps.NothingTouchesAfterReturn` | stream.go:157-172 | once the body-writer function has returned, after a panic too, the heartbeat has exited and no step touches the writer again |
| `StreamSteps.HeartbeatLasts` | stream.go:189-209 | in every run the heartbeat goes on until the stream is cancelled, which a failed beat does itself |
| `StreamSteps.RefusedWhenReturned` | stream.go:53-75 | a call that gets the lock is refused exactly when the function has returned |
| `StreamSteps.BodyIsNotStuck` | stream.go:157-172 | on its way out the function can always go on, or the goroutine it waits for can |
| `StreamSteps.RunKeepsInv` | stream.go:147-209 | every run keeps who holds the lock, who may write and where each frame is |
| `Accepting.Negotiate` | ctx_accept.go:21-70 | a bad offer is refused, the first one; without an Accept header the first offer is chosen; otherwise the first offer with the greatest positive quality, and none when there is none: stopping at quality 1000 changes nothing |
| `Accepting.OfferQuality` | ctx_accept.go:109-127 | the weight of the first among the most specific well-formed ranges that match, over all lines: returning at the first exact match changes nothing |
| `AcceptOrder.RatedByPrecedence` | ctx_accept.go:22-24 | the quality of a media type is the weight of the first exact range with a valid weight, failing that of the first range of its type, failing that of the first of any type, failing that 0, wherever they stand in the lines |
| `AcceptOrder.MatchingRanges` | ctx_accept.go:134-150 | a range matches exactly when it is the media type itself, its type with a star, or two stars, in any case, and is of one of these kinds only |
| `AcceptOrder.KindsAreOrdered` | ctx_accept.go:129-132 | a range of two stars is less specific than one of the type, and that less than an exact one |
| `Accepting.MatchRange` | ctx_accept.go:129-173 | one element's specificity and weight, or no match |
| `Accepting.ParamsWeight` | ctx_accept.go:156-172 | the loop over the parameters gives the last q, and no weight when some q is malformed |
| `Accepting.ParseQ` | ctx_accept.go:175-204 | accepts exactly the qvalues of section 12.4.2 of RFC 9110 and the fractions without a leading 0, in thousandths |
| `Accepting.ParseFraction` | ctx_accept.go:206-218 | up to three digits as thousandths, exactly when they are digits |
| `Accepting.NextItem` | ctx_accept.go:220-237 | splits at the first separator outside every quoted string, and nowhere else |
| `Accepting.SplitOffer` | ctx_accept.go:72-91 | an offer's type and subtype, or why it has none |
| `Accepting.AddVaryAccept` | ctx_accept.go:294-310 | adds Accept unless a line lists it or a star; every line stays and afterwards one lists it |
| `Accepting.TrimOws` | ctx_accept.go:243-252 | strips spaces and tabs from both ends |
| `Accepting.EqualFold` | ctx_accept.go:273-292 | compares without regard to ASCII case |
| `AcceptRule.QuotedStringIsWhole` | ctx_accept.go:220-223 | a quoted string of section 5.6.4 of RFC 9110 is never split, and the scan goes on after it as if it were not there |
| `AcceptRule.ItemsAreParts` | ctx_accept.go:220-237 | the parts of a line put together again are the line, up to a separator at its end, and none can be cut further |
| `AcceptRule.EveryLineCounts` | ctx_accept.go:109-127 | the elements are those of every line |
| `AcceptRule.RatedOnce` | ctx_accept.go:109-111 | the rule gives a media type one quality |
| `AcceptRule.LastQCounts` | ctx_accept.go:131-132 | a weight is given exactly when every q is a qvalue, and is the last one's, or 1000 |
| `AcceptRule.OfferIsTwoTokens` | ctx_accept.go:72-91 | an offer names a media type exactly when its text is two tokens without a star around a slash, with white space around them and nothing or a semicolon after |
| `AcceptRule.QualityIsAtMostOne` | ctx_accept.go:175-178 | a quality is at most 1000, and given for exactly those texts |
| `AcceptRule.QualityIsItsFraction` | ctx_accept.go:175-218 | a quality is its decimal fraction in thousandths, with or without the leading 0 |
| `AcceptRule.QIsNamed` | ctx_accept.go:156-172 | a parameter is a q when it is named so, in either case and with white space around it |
| `AcceptRule.TrimStrips` | ctx_accept.go:243-252 | trimming takes spaces and tabs off both ends, and only there |
| `AcceptRule.CaseIsIgnored` | ctx_accept.go:273-275 | offers that differ in ASCII case get one quality |
| `ErrorTrees.AsFindsWhatIsReached` | errors.go:227-255 | the walk finds an error of a kind exactly when Unwrap reaches one |
| `ErrorTrees.AsTakesTheFirst` | errors.go:92-114 | of several causes the first that reaches one counts, and an error before what it unwraps to |
| `ErrorTrees.PanicsAre500` | errors.go:92-104 | an error from which Unwrap reaches a PanicError answers 500 with the generic body, whatever is around it |
| `ErrorTrees.OuterCodeWins` | errors.go:106-110 | an HTTPError without a panic beneath answers its own code |
| `ErrorTrees.CodesAreKept` | errors.go:137-172 | a status from 100 to 599 and a message are sent as they are; any other status is 500, and no message is the status's own text |
| `ErrorTrees.AnswersAreValid` | errors.go:124-142 | no error answers a status outside 100 to 599 |
| `ErrorTrees.RequestCtx.DefaultErrorHandler` | errors.go:56-114 | the fast path does not change the answer |
| `ErrorTrees.RequestCtx.Respond` | errors.go:144-172 | an invalid code becomes 500, and what was written before is discarded |
| `DispatchRule.EveryRequest` | app.go:363-410 | over every behaviour of the chain and the ErrorHandler: it runs at most once before a panic reaches handle and exactly once more for it; the Ctx is released once, after that; a recorded stream starts only after the release, exactly when the ErrorHandler never ran, and never for HEAD |
| `DispatchPaths.EveryResponse` | app.go:363-410 | over every behaviour: the client gets the last response written on the path that is executed, or the first one when none was, with its body replaced by the stream's when one was asked for, other than by HEAD, and the ErrorHandler never ran |
| `DispatchPaths.AfterIsPath` | app.go:406-444 | every run of user code, at any depth, does to a request what the deeds on its path say |
| `DispatchPaths.WrittenIsSent` | app.go:406-409 | when the chain returns no error the client gets what its handler wrote last; a recorded stream replaces the body and nothing else |
| `DispatchPaths.HandlersAnswerIsSent` | app.go:412-444 | for an error returned unsettled it gets what the application's own ErrorHandler wrote last |
| `DispatchRule.RunsAtMostOnce` | ctx.go:187-198 | whatever user code does, at any depth, the ErrorHandler runs at most once, and only for an unsettled request |
| `DispatchRule.RunsOnce` | app.go:412-444 | an ErrorHandler that runs, whatever it does, runs once: its own HandleError does nothing and its panic goes no further and answers 500 |
| `DispatchRule.StreamsOnce` | stream.go:123-139 | a callback is recorded at most once for a request, and never for HEAD |
| `DispatchRule.PanicAnswers500` | app.go:379-383 | under the default handler a panic that reaches handle answers 500 with the generic body, whatever was written or settled before |
| `DispatchRule.ErrorAnswers` | app.go:406-409 | an error the chain returns unsettled is answered as the error says |
| `Dispatching.App.Handle` | app.go:342-410 | for the handler of the best route or the miss handler: what happens is what the rule says, and the client gets the last response written on the path; the response closes its connection while draining; every pooled Ctx is blank and has storage of its own with room for every route |
| `Dispatching.App.Enter` | app.go:347-404 | the handler to run is that of the best route of the request's method, or the miss handler exactly when none matches; the Ctx carries that route's pattern and its captures, in the storage it was pooled with |
| `Dispatching.App.Finish` | app.go:389-393 | the Ctx is released before the recorded stream starts, and none starts for an answered request |
| `Dispatching.App.RunChain` | app.go:406-409 | the chain, and the answer to its error unless the request is settled |
| `Dispatching.App.Recovered` | app.go:379-383 | a panic is answered whatever was settled |
| `Dispatching.App.CallErrorHandler` | app.go:412-444 | the ErrorHandler with its last resort, as in the rule |
| `Dispatching.Ctx.HandleError` | ctx.go:178-198 | a nil error or a settled request changes nothing; otherwise the ErrorHandler runs, as in the rule |
| `Dispatching.Exec` | ctx.go:187-198 | user code changes the request as in the rule |
| `Dispatching.Ctx.RegisterStream` | stream.go:123-139 | a nil callback or a second stream panics and records nothing; HEAD records no callback |
| `Dispatching.Ctx.Reset` | ctx.go:58-74 | nothing of an earlier request is left |
| `Dispatching.App.Acquire` | pool.go:34-39 | a clean Ctx bound to the request and no longer pooled, its storage shared with no pooled Ctx |
| `Dispatching.App.Release` | pool.go:41-54 | the Ctx is blank and pooled again |
| `Histograms.BucketBrackets` | bench/compare/histogram.go:9-36 | every value lies in its bucket, at most a sixteenth of itself above the bucket's bound |
| `Histograms.BucketIsUnique` | bench/compare/histogram.go:19-36 | a value is in a bucket exactly when it is between that bucket's bound and the next |
| `Histograms.BucketsAreOrdered` | bench/compare/histogram.go:19-26 | buckets follow the order of the values |
| `Histograms.BoundsAreOrdered` | bench/compare/histogram.go:28-36 | the bounds are strictly increasing |
| `Histograms.BucketsSuffice` | bench/compare/histogram.go:15-26 | no 64-bit value needs a bucket past the 976th, and no bound up to there wraps |
| `Histograms.RankExists` | bench/compare/histogram.go:58-74 | every rank has exactly one value |
| `Histograms.Histogram.Record` | bench/compare/histogram.go:38-45 | the counts stay the numbers of recorded values in each bucket |
| `Histograms.Histogram.Merge` | bench/compare/histogram.go:47-53 | merging is recording both, also into itself |
| `Histograms.Histogram.Quantile` | bench/compare/histogram.go:58-76 | for every rank it reports the smallest value of the bucket that holds the true value of that rank, within a sixteenth below it |

## Left out

- The array of trees for common verbs and the map for the others: one map from verbs to trees.
- Registering a nil handler, middleware, callback of a hook, or error handler, other than a
  stream's: the model's types have no nil there.
- Wording of errors and panics: a rejected configuration is a failure result that says why.
- `RadixTree.Tree.Lookup`: returns the matched pattern and its captures as ghost results, because the source returns the handler alone.
- UTF-8 decoding of event streams, and a byte order mark, which no frame starts with.
- Concatenated partial writes inside one call of the buffered writer: it sends what it holds when its buffer is full, whole or up to where the client left.
- fasthttp, sockets, TLS, timers and logging beyond the abstract steps above; how long a step takes.
- `runtime.Goexit`, errors with an As method of their own, and a panic inside the stream's critical sections.
- OnStart hooks: one step that succeeds or fails. A hook's own error, which only joins the result.
- Whether a goroutine that can go on is ever scheduled, and whether handlers and hooks return: the progress theorems say what a call may wait for, not for how long.
- The errors of hooks joined into Shutdown's result, and RunContext's result.
- The streams' own context: that Shutdown cancels it first changes nothing modelled, since a connection may end at any time.
- `MemoryStores.MemoryStore.Take`: times that decrease in the order of a shard's lock are excluded by a precondition, as stated under Assumptions.
- 64-bit wrap-around of the histogram's counters; the floating-point product in Quantile, which takes the rank as its input.
- A pooled Ctx's debug poison; user code that changes the captures or reads them.
- Static files, JSON binding, health handlers, tracing, authentication, CORS, request ids, proxies' addresses and the framework comparison.
- Allocation budgets.
