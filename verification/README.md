# Handle lifetimes and callbacks of the C layer, in Dafny

libuvcpp wraps libuv, database drivers, HTTP/2, QUIC and HTTP/3 in C++ classes and
offers them to C and C# through opaque handles (`src/capi/`). That layer owns little of
its own beside the handles: which addresses are live, who may free what and when,
what a user's callback may do to the very object that is calling it. This project
models that layer and proves what it promises, for every run, every nesting of
callbacks and every reuse of an address by the allocator. Two parts of
`packaging/repo/publish.py` are modelled besides.

Run `dafny verify dfyconfig.toml`.

## How it is modelled

- The asynchronous database facade is concurrent: `AsyncFacade` is a machine whose
  steps are the sections under a lock, the accesses to an atomic and the hand-overs of
  the posting threads, of the private loop thread and of the one thread that frees.
  Theorems are about all interleavings.
- Everywhere else one thread runs, but user code may come back into the layer from any
  callback. What the framework and the user do is a finite tree of acts, each with the
  code that runs inside its callback, so a theorem about all trees is one about every
  nesting. Acts that do not apply in a state (a read event for a connection that is
  closed) are ones that the framework does not perform.
- Memory is explicit: `memory` maps the addresses that are allocated to what is stored
  there, `registry` is the set of registered handles, and a new handle may be put at
  any address not in use. `Ledger` gives every object ever made a serial number, so
  that "deleted exactly once" makes sense although addresses are reused.
- An object whose fields the source updates is a class with those fields (`TcpServer`,
  `DbHandles`, `QuicEndpoint`, `WebApp`, `H2Connection`, ...). Each method does the work
  in place, with the source's loops, and is proved equal to a function on values in the
  companion module (`TcpReaper`, `DbOwnership`, `QuicHandles`, `WebContinuations`,
  `H2Completions`), about which the theorems are proved.
- Those modules say what all acts keep. That the acts also do what they are for, and
  exactly when, is said in `AsyncDelivery`, `TcpEvents`, `DbOutcomes`, `QuicEvents` and
  `WebEvents`, as far as possible by what later acts then meet.

| module | models |
|---|---|
| `Base`, `Ledger` | result codes, addresses, the history of objects |
| `AsyncFacade`, `AsyncDelivery` | posting, delivering and freeing an asynchronous facade; who is served |
| `TcpReaper`, `TcpEvents`, `TcpServer` | wrappers of TCP connections, callback scopes, graveyard |
| `DbOwnership`, `DbOutcomes`, `DbHandles` | clients, pools, lent connections, facades bound to them |
| `QuicHandles`, `QuicEvents`, `QuicEndpoint` | borrowed QUIC handles, with HTTP/3's part in their end |
| `WebContinuations`, `WebEvents`, `WebApp` | continuations of route callbacks, deferred replies |
| `H2Completions`, `H2Connection` | completion slots of HTTP/2 sends |
| `HandleRegistry` | the registry, the test of a handle, scopes of callback handles |
| `VersionedTables` | callback tables that carry their size |
| `HeaderList` | header lists of HTTP/3 messages |
| `Delimited`, `PackageIndex`, `Pruner` | lists in strings, package index, pruning |

## What does not hold, and exactly when it does

- A post that throws after it was counted (`uvcpp_c_db.cpp` 1543-1552) keeps its count
  for ever, and the free waits for ever: `ThrowBlocksFree`. The free of a reachable
  facade can return if and only if no such call threw: `FreeReturnsIffNothingLeaked`.
- Freeing a pool asks only whether a facade is bound to the pool, not to the handles it
  has lent (963): `DanglingIsReachable`. It leaves no facade dangling if and only if
  nothing is bound to any of them: `PoolFreeServesIff`. Such a facade is still counted
  for the address of its late owner, so a connection or a pool that is made at that
  address cannot be freed; any other that was just made can, and freeing it restores
  all: `ClientFreeUndoesNew`, `PoolFreeUndoesNew`.
- "Whatever on_disconnect does, the borrowed QUIC handle is taken back" holds if and
  only if the very HTTP/3 handle that was started on the connection is still there when
  it ends: `DisconnectDetachesIff`, `FreedIsNeverTold`. Another HTTP/3 handle at its
  address does not do, since the C++ object goes by a life token:
  `ReusedAddressIsNotTold`. Otherwise the stale handle stays registered and is even
  given, without callbacks, to the next connection at that address:
  `EarlyFreeLeavesAStaleHandle`. The header says that the handle must be freed in
  on_disconnect; with users who do not free it earlier, the table lists open
  connections only: `TableListsOpenConnections`. (A comment in `uvcpp_c_http3.cpp`
  35-37 calls freeing early normal; the code does not support it.)
- "Each `done` of an HTTP/2 send runs exactly once if the chunk was taken" fails when a
  `done` frees its connection: the loop that runs a batch of them
  (`src/http2/uvcpp_h2_connection.cpp` 402-425) then returns, and the rest of the batch
  never runs and leaks its slots: `BatchCutShort`. The promise holds if and only if no
  batch is cut short: `ExactlyOnceIff`; so it does for callers who never free the
  connection in a `done`: `PatientDropsNone`. A send that throws before the session has
  the chunk loses its slot too; no slot leaks if and only if neither happens:
  `NoLeakIff`. One that throws after that answers with the same code, and its `done`
  runs: `KeptThoughItThrew`.
- The comment in `uvcpp_c_http2.cpp` 313-314 says that what runs in the free runs as
  cancelled. The code hands back also what the session is already done with, and that
  runs with the status bound to it: `FreeRunsPendingInOrder`.
- Each type of handle is meant to have its own mark (`uvcpp_c_internal.h` 167-169,
  181-182), but a route's request handle (`uvcpp_c_webapp.cpp` 85) is marked as a QUIC
  server is (`uvcpp_c_internal.h` 186): `MarksAgreeIff`. The test of a handle tells its
  type exactly but for this pair: `AliveIff`.
- A scope that is given more handles than it can note leaves the others registered when
  they no longer exist: `FrameExactIff`. None of the source's scopes is:
  `SourceIsRoomy`.
- A callback table that is refused for its size has already erased the old one in the
  net, QUIC and HTTP/3 files, not in the HTTP/2 file: `DisciplinesAgreeIff`.
- Pruning incrementally equals pruning from scratch, for all listings, if and only if
  no tie straddles the cut and, for a negative `keep` (`--keep` is any integer,
  `publish.py` 297), every group of more than -`keep` files gets again all the old ones
  that a first pruning may take: `IncrementalIff`. Releases of one RPM version tie, so
  there it can fail: `ReleasesAreNotIncremental`; for a negative `keep` it fails as a
  rule: `NegativeKeepIsNotIncremental`.
- Scanning a comma list, and reading stanzas back, give the input exactly if it is in
  the form stated: `ScanUndoesJoinIff`, `RoundTripIff`.

## Model

| member | source | states |
|---|---|---|
| AsyncFacade.StepKeepsInv | src/capi/uvcpp_c_db.cpp:1250-1566 | every step of a post, of the loop thread and of the free keeps the invariant, and once closed lowers the termination measure unless it is a spurious wake-up or a new post |
| AsyncFacade.RunKeepsInv | src/capi/uvcpp_c_db.cpp:1250-1566 | the invariant holds after every interleaving |
| AsyncFacade.InFlightIsExact | src/capi/uvcpp_c_db.cpp:1264-1270 | in every reachable state `in_flight` is counted posts minus finished ones, bounds the callback depth, and the guard `> 0` is always true |
| AsyncFacade.DeliveredExactlyOnce | src/capi/uvcpp_c_db.cpp:1276-1310 | no callback begins twice, and one begins exactly for the jobs that end as delivered |
| AsyncFacade.SettledIsFinal | src/capi/uvcpp_c_db.cpp:1276-1310 | over every run a job once delivered, discarded or refused stays so |
| AsyncFacade.FreeLeavesNothing | src/capi/uvcpp_c_db.cpp:1476-1510 | when free has returned nothing runs, nothing is posting, and every counted job was delivered, discarded or refused |
| AsyncFacade.NothingAfterFree | src/capi/uvcpp_c_db.cpp:1526-1527 | whatever is called after that changes nothing, so no callback can ever start |
| AsyncFacade.FacadeOutlivesTheLoop | src/capi/uvcpp_c_db.cpp:1504-1507 | the C++ facade is destroyed only after the loop thread was joined, with no job left |
| AsyncFacade.NoFacadeUseAfterFree | src/capi/uvcpp_c_db.cpp:1539-1566 | no enabled step that runs in the facade meets it destroyed or its owner unbound |
| AsyncFacade.NoHandleUseAfterFree | src/capi/uvcpp_c_db.cpp:1349-1429 | no enabled step, the first one of a post included, touches the freed handle, and the single wake-up is sent while the wake handle exists |
| AsyncFacade.PostInsideCallback | src/capi/uvcpp_c_db.cpp:1537-1546 | a post made in a callback, also during a free, is counted before closing or turned away leaving all else unchanged |
| AsyncFacade.FreeFromCallbackRejected | src/capi/uvcpp_c_db.cpp:1481-1494 | the self-check turns away exactly the frees made from inside a callback |
| AsyncFacade.FreeTerminates | src/capi/uvcpp_c_db.cpp:1496-1502 | once closed, the length of every run is bounded by the measure and the environment's own steps |
| AsyncFacade.NoDeadlock | src/capi/uvcpp_c_db.cpp:1484-1504 | while free has not returned and nothing was lost, some thread can take a step |
| AsyncFacade.SleepMoves | src/capi/uvcpp_c_db.cpp:1496-1502 | the free sleeps only while another thread can move; the loop thread is never blocked by it |
| AsyncFacade.JoinMoves | src/capi/uvcpp_c_db.cpp:1418-1429 | the join waits only while the loop thread can move: the wake-up cannot be lost, also when start-up failed |
| AsyncFacade.FreeReturns | src/capi/uvcpp_c_db.cpp:1476-1510 | from every such state there is a run of orderly steps to the end of free |
| AsyncFacade.LeakBlocksFree | src/capi/uvcpp_c_db.cpp:1537-1566 | after an engine call that threw, no run passes the wait |
| AsyncFacade.FreeReturnsIffNothingLeaked | src/capi/uvcpp_c_db.cpp:1476-1510 | a free can return if and only if no counted post was lost to an exception of the call that hands it to the engine |
| AsyncFacade.ThrowBlocksFree | src/capi/uvcpp_c_db.cpp:1537-1566 | such a state is reachable |
| AsyncDelivery.NothingDiscardedWhileOpen | src/capi/uvcpp_c_db.cpp:1276-1299 | in every reachable state of an open facade no result has been thrown away |
| AsyncDelivery.AcceptedIsNotLost | src/capi/uvcpp_c_db.cpp:1276-1299 | over every run a post that the engine accepted stays on its way or is delivered, unless the facade has been closed |
| AsyncDelivery.AcceptedIsServed | src/capi/uvcpp_c_db.cpp:1276-1310 | from every reachable state of an open facade each accepted job can be delivered, its callback having begun, by steps of the loop thread alone |
| AsyncDelivery.OnlyPastTheTest | src/capi/uvcpp_c_db.cpp:1282-1292 | after the closing the only callback that can still begin is that of the job past the test |
| AsyncDelivery.AcceptedPostIsQueued | src/capi/uvcpp_c_db.cpp:1526-1566 | on an open facade whose loop is up or can be started, a post that the engine accepts ends as one more job on its way, counted once, and nothing else about jobs, posters or callbacks has changed |
| AsyncDelivery.RefusedPostIsUndone | src/capi/uvcpp_c_db.cpp:1563-1566 | one that the engine refuses leaves the count as it was |
| AsyncDelivery.FailedStartRefuses | src/capi/uvcpp_c_db.cpp:1404-1416 | once the loop could not be started every later post is turned away without a trace |
| AsyncDelivery.PostIsServed | src/capi/uvcpp_c_db.cpp:1526-1566 | for whoever posts on such a facade, in a callback or outside, there is a run in which the callback of that post begins and ends |
| AsyncDelivery.CalledFreeReturns | src/capi/uvcpp_c_db.cpp:1476-1510 | a free can be called as long as no thread outside the callbacks posts, and if no post was lost there is a run in which it returns |
| TcpReaper.DrainExact | src/capi/uvcpp_c_net.cpp:147-158 | draining deletes exactly the reaped wrappers with no frame on the stack, each once, and disturbs no other |
| TcpReaper.WrapValid | src/capi/uvcpp_c_net.cpp:202-225 | the wrapper handed out is the connection's only live one, and the tables stay a bijection |
| TcpReaper.ScopeValid | src/capi/uvcpp_c_net.cpp:122-158 | whatever ran in a callback, its scope finds its own wrapper still there when it is left, and frames below are untouched |
| TcpReaper.FinishValid | src/capi/uvcpp_c_net.cpp:181-199 | reaping unregisters the connection's wrapper and deletes or buries it as the callbacks in progress demand |
| TcpReaper.CloseSafe | src/capi/uvcpp_c_net.cpp:353-364 | a close, with any user code in on_close, ends with the connection gone and its handle unregistered |
| TcpReaper.RunSafe | src/capi/uvcpp_c_net.cpp:122-225 | for every tree of callbacks the tables stay in step, no wrapper on the stack is deleted, and the past is kept |
| TcpReaper.DepthIsSum | src/capi/uvcpp_c_net.cpp:124-134 | the server's depth is the sum of its wrappers' depths and the number of frames |
| TcpReaper.Quiescent | src/capi/uvcpp_c_net.cpp:122-225 | between callbacks the graveyard is empty, registered are exactly the wrappers of wrapped connections, all others were deleted once, and the live count is made minus deleted |
| TcpReaper.SameWrapperForLife | src/capi/uvcpp_c_net.cpp:202-225 | a connection keeps the same wrapper object until it closes, whatever happens and wherever addresses are reused |
| TcpReaper.AcceptReaches | src/capi/uvcpp_c_net.cpp:740-751 | a new connection reaches the connection callback exactly if there is one, with the handle that is then the connection's |
| TcpReaper.ReadReaches | src/capi/uvcpp_c_net.cpp:669-682 | a read event reaches the callback installed, the server's or the connection's own, with the one handle that the connection has |
| TcpReaper.CloseReaches | src/capi/uvcpp_c_net.cpp:353-364 | a close reaches the close callback before the handle is taken away |
| TcpReaper.SetTableEffect | src/capi/uvcpp_c_net.cpp:316-371 | a table installs exactly the callbacks given, starts reading at most once, and touches no other connection |
| TcpReaper.ShortTableEffect | src/capi/uvcpp_c_net.cpp:322-333 | a table too short for its size field takes both callbacks away and changes nothing else |
| TcpReaper.ArmEffect | src/capi/uvcpp_c_net.cpp:233-251 | reading is started exactly when needed and possible, and the flag follows the slot |
| TcpReaper.FreeLeavesNothing | src/capi/uvcpp_c_net.cpp:600-625 | free is refused in callbacks; otherwise, whatever closes during destruction, no wrapper stays allocated or registered and each ever made was deleted once |
| TcpEvents.DropCloses | src/capi/uvcpp_c_net.cpp:353-364 | a connection that closes is no longer open nor wrapped and its handle not registered; the close callback is entered with the handle exactly if it is installed |
| TcpEvents.CloseHandleCloses | src/capi/uvcpp_c_net.cpp:484-490 | closing by handle does just that to the connection of the handle; a handle that is not registered, or whose connection is closing, changes nothing |
| TcpEvents.ReadStopStops | src/capi/uvcpp_c_net.cpp:471-482 | no read reaches the connection's own callback any more, nothing else changes, and a later table starts reading again |
| TcpEvents.SetEventsReach | src/capi/uvcpp_c_net.cpp:316-371 | after a table is given, a read reaches the handle exactly if there is a read callback and reading was started, a close exactly if there is a close callback |
| TcpEvents.SetServerEventsReach | src/capi/uvcpp_c_net.cpp:627-688 | the server's table decides in the same way what a new connection and a read reach; one too short takes both callbacks away |
| TcpEvents.FirstReadReaches | src/capi/uvcpp_c_net.cpp:669-682 | a connection without a handle gets one with its first read, if there is room and a callback to give it to |
| TcpEvents.AcceptWithoutRoom | src/capi/uvcpp_c_net.cpp:740-751 | without room for a handle a new connection is open, has none, and nobody is called |
| TcpEvents.ScopeCloses | src/capi/uvcpp_c_net.cpp:122-158 | a callback that closes a handle closes it, its own included |
| TcpEvents.CallbacksRunTheirCode | src/capi/uvcpp_c_net.cpp:122-134 | the code in each of the four callbacks runs: a handle that it closes is closed afterwards |
| TcpServer.Server.Drain | src/capi/uvcpp_c_net.cpp:147-158 | the index loop that erases in place, reading only allocated wrappers, does what DrainExact describes |
| TcpServer.Server.ReapClient | src/capi/uvcpp_c_net.cpp:181-199 | refines the reaping of the specification |
| TcpServer.Server.WrapClient | src/capi/uvcpp_c_net.cpp:202-225 | refines the wrapping |
| TcpServer.Server.CallBack | src/capi/uvcpp_c_net.cpp:122-134 | refines entering and leaving a callback around arbitrary user code |
| TcpServer.Server.CloseConnection | src/capi/uvcpp_c_net.cpp:353-364 | refines a connection's close |
| TcpServer.Server.SetClientEvents | src/capi/uvcpp_c_net.cpp:316-371 | refines the change of a connection's table, codes included |
| TcpServer.Server.MaybeArmRead | src/capi/uvcpp_c_net.cpp:233-251 | refines starting to read |
| TcpServer.Server.StopClientReading | src/capi/uvcpp_c_net.cpp:471-482 | refines stopping to read; refused exactly for handles that are not registered |
| TcpServer.Server.SetServerTable | src/capi/uvcpp_c_net.cpp:627-688 | refines the change of the server's table, cleared when refused |
| TcpServer.Server.AcceptConnection | src/capi/uvcpp_c_net.cpp:740-751 | refines the listen callback |
| TcpServer.Server.ReadConnection | src/capi/uvcpp_c_net.cpp:669-682 | refines the server's read callback, wrapping lazily |
| TcpServer.Server.ReadArmed | src/capi/uvcpp_c_net.cpp:239-248 | refines a connection's own read callback |
| TcpServer.Server.CloseByHandle | src/capi/uvcpp_c_net.cpp:484-490 | refines closing by handle |
| TcpServer.Server.Free | src/capi/uvcpp_c_net.cpp:600-625 | refines freeing, with its two fallback loops |
| DbOwnership.ApplyValid | src/capi/uvcpp_c_db.cpp:282-301 | every operation keeps the bind counts exact, each pool's table equal to what its C++ pool has lent, and the history of loans |
| DbOwnership.RunValid | src/capi/uvcpp_c_db.cpp:942-1093 | so in every run |
| DbOwnership.OwnerOutlivesFacade | src/capi/uvcpp_c_db.cpp:659-676 | no operation other than freeing a pool leaves a facade without its connection or pool, since freeing and returning consult the exact count |
| DbOwnership.PoolFreeServesIff | src/capi/uvcpp_c_db.cpp:957-982 | freeing a pool leaves none dangling if and only if nothing is bound to a handle it has lent |
| DbOwnership.DanglingIsReachable | src/capi/uvcpp_c_db.cpp:957-982 | a run that ends in a dangling facade |
| DbOwnership.RunServes | src/capi/uvcpp_c_db.cpp:1433-1510 | in every run in which pools are freed with that care, every live facade's owner is undeleted |
| DbOwnership.LoansConserved | src/capi/uvcpp_c_db.cpp:1009-1093 | in every run the tables hold exactly the loans still open, each in one table, and open and ended loans make up all, each ended once |
| DbOwnership.ReturnedOnce | src/capi/uvcpp_c_db.cpp:1046-1093 | a second return anywhere, a free, and a return to another pool are refused and change nothing |
| DbOwnership.RefusedUnchanged | src/capi/uvcpp_c_db.cpp:942-1093 | an operation that does not succeed changes nothing |
| DbOwnership.ReturnUndoesBorrow | src/capi/uvcpp_c_db.cpp:1009-1068 | a return restores all that an acquire changed; meanwhile the handle cannot be freed as one's own |
| DbOwnership.FreeUndoesBind | src/capi/uvcpp_c_db.cpp:1433-1507 | freeing a facade restores all that binding changed; meanwhile its owner can be neither freed nor returned |
| DbOutcomes.CountAnswers | src/capi/uvcpp_c_db.cpp:297-301 | the count that is asked is positive exactly if a stored facade is bound to the owner |
| DbOutcomes.ClientNewIff | src/capi/uvcpp_c_db.cpp:644-657 | a new connection is made exactly if there is room; it is registered, the user's own, with an object of its own |
| DbOutcomes.ClientFreeIff | src/capi/uvcpp_c_db.cpp:659-676 | freeing one succeeds exactly if it is registered, the user's own and bound to by no facade; its handle and object are gone then, and nothing else is |
| DbOutcomes.ClientFreeUndoesNew | src/capi/uvcpp_c_db.cpp:644-676 | freeing a connection just made restores all, exactly if no dangling facade is bound to its address; with none dangling it always does |
| DbOutcomes.PoolNewIff | src/capi/uvcpp_c_db.cpp:942-955 | a new pool is made exactly if there is room, and lends nothing yet |
| DbOutcomes.PoolInitIff | src/capi/uvcpp_c_db.cpp:984-1007 | starting and closing a pool decide what an acquire answers that gets no connection, and nothing else |
| DbOutcomes.PoolFreeIff | src/capi/uvcpp_c_db.cpp:957-982 | freeing a pool succeeds exactly if it is registered and no facade is bound to the pool itself, loans or no loans; pool, lent handles and their objects are gone then, and nothing else is |
| DbOutcomes.PoolFreeUndoesNew | src/capi/uvcpp_c_db.cpp:942-982 | freeing a pool just made restores all, under the same condition as for a connection |
| DbOutcomes.AcquireIff | src/capi/uvcpp_c_db.cpp:1009-1044 | acquiring succeeds exactly if the pool is registered, there is a connection to lend and room for a handle, which is then lent by that pool and not the user's own |
| DbOutcomes.GiveBackIff | src/capi/uvcpp_c_db.cpp:1046-1093 | giving back succeeds exactly if this pool has lent the handle and no facade is bound to it; handle and loan are gone then |
| DbOutcomes.AsyncNewIff | src/capi/uvcpp_c_db.cpp:1433-1474 | a facade is made exactly on a registered owner of its kind, given room, and the owner is bound to then |
| DbOutcomes.AsyncFreeIff | src/capi/uvcpp_c_db.cpp:1502-1508 | at the end of a facade's free it is gone, and its owner is unbound exactly if it was the last |
| DbHandles.Db.BindOwner | src/capi/uvcpp_c_db.cpp:285-288 | counts one up |
| DbHandles.Db.UnbindOwner | src/capi/uvcpp_c_db.cpp:290-295 | counts one down, and drops the entry at nought |
| DbHandles.Db.OwnerHasAsync | src/capi/uvcpp_c_db.cpp:297-301 | answers exactly whether a live facade is bound to the owner |
| DbHandles.Db.ClientFree | src/capi/uvcpp_c_db.cpp:659-676 | refines freeing a client, codes included |
| DbHandles.Db.PoolFree | src/capi/uvcpp_c_db.cpp:957-982 | refines freeing a pool |
| DbHandles.Db.DropHandles | src/capi/uvcpp_c_db.cpp:966-975 | the loop over the table unregisters and deletes each lent handle once |
| DbHandles.Db.PoolAcquire | src/capi/uvcpp_c_db.cpp:1009-1044 | refines acquiring; without room for a handle the connection goes back |
| DbHandles.Db.PoolReturn | src/capi/uvcpp_c_db.cpp:1046-1093 | refines release and discard; only a lent connection ever goes back to a C++ pool |
| DbHandles.Db.AsyncBind | src/capi/uvcpp_c_db.cpp:1433-1474 | refines making a facade |
| DbHandles.Db.AsyncUnbind | src/capi/uvcpp_c_db.cpp:1502-1508 | refines the end of freeing one |
| QuicHandles.RunSafe | src/capi/uvcpp_c_quic.cpp:237-411 | for every tree of callbacks a server's handle is listed exactly while it is live and registered, retired once otherwise, and never deleted under a callback |
| QuicHandles.EndSafe | src/capi/uvcpp_c_quic.cpp:278-284 | whatever the user's last callback does, the handle that the callbacks are to detach is unregistered afterwards |
| QuicHandles.DisconnectDetachesIff | src/http3/uvcpp_h3_connection.cpp:181-184 | with HTTP/3 in charge the borrowed handle is unregistered after the event if and only if the HTTP/3 handle that was started on the connection is still there |
| QuicHandles.FreedIsNeverTold | src/http3/uvcpp_h3_connection.cpp:120-144 | once that handle is freed, whatever runs between and wherever addresses are reused, the end of the connection takes no handle back |
| QuicHandles.ReusedAddressIsNotTold | src/capi/uvcpp_c_http3.cpp:355-371 | a run in which another HTTP/3 handle stands at the address of the freed one, and the borrowed handle stays registered |
| QuicHandles.DetachedOnce | src/capi/uvcpp_c_quic.cpp:311-331 | detaching again, by either file, changes nothing |
| QuicHandles.ConnOfValid | src/capi/uvcpp_c_quic.cpp:389-411 | handing out a connection's handle keeps the table and the registry in step |
| QuicHandles.DetachAllParts | src/capi/uvcpp_c_quic.cpp:847-857 | walking the snapshot detaches each handle in it exactly once, in its order |
| QuicHandles.ServerFreeLeavesNothing | src/capi/uvcpp_c_quic.cpp:824-869 | freeing the server leaves none of its handles stored, and each ever made was deleted once |
| QuicHandles.TableListsOpenConnections | src/capi/uvcpp_c_http3.cpp:400-406 | if HTTP/3 handles are kept until their connection is over, the table lists only open connections, and each will detach its own handle |
| QuicHandles.EarlyFreeLeavesAStaleHandle | src/capi/uvcpp_c_http3.cpp:355-371 | a run with an HTTP/3 handle freed early that leaves a stale handle, which the next connection is given |
| QuicEvents.ClientNewGives | src/capi/uvcpp_c_quic.cpp:594-626 | a new client's handle is registered and stands for no connection |
| QuicEvents.ConnectAttaches | src/capi/uvcpp_c_quic.cpp:291-302 | connecting opens the connection, makes the client's handle stand for it, registered again if it was not, and makes its end tell and detach that handle; no other handle or connection is touched |
| QuicEvents.ReconnectsAfterEnd | src/capi/uvcpp_c_quic.cpp:291-302 | after that end, whatever ran in it, the handle is unregistered, and a second connect makes it usable again |
| QuicEvents.ClientFreeRemoves | src/capi/uvcpp_c_quic.cpp:625-649 | freeing a client removes its handle and its connections and nothing else |
| QuicEvents.SetCallbacksDecides | src/capi/uvcpp_c_quic.cpp:356-386 | a table decides whether the end of the handle's connection calls the user, and nothing else |
| QuicEvents.EndRunsCode | src/capi/uvcpp_c_quic.cpp:278-284 | the code in a last callback runs exactly if that callback is called |
| QuicEvents.AcceptGives | src/capi/uvcpp_c_quic.cpp:950-961 | a new connection is open and listed with a usable handle of its own, which its end will take back, and the listen callback's code runs |
| QuicEvents.AcceptGivesListed | src/capi/uvcpp_c_quic.cpp:389-394 | an address that is still listed is given the listed handle, which is live |
| QuicEvents.AcceptWithoutRoom | src/capi/uvcpp_c_quic.cpp:950-956 | without room for a handle nobody is called |
| QuicEvents.ServerFreeIff | src/capi/uvcpp_c_quic.cpp:824-869 | the server is freed exactly outside of its callbacks; its handles are gone then, no others are |
| QuicEvents.H3NewIff | src/capi/uvcpp_c_http3.cpp:330-353 | an HTTP/3 handle is made exactly on a usable QUIC handle, given room, and takes over nothing yet |
| QuicEvents.H3StartTakesOver | src/http3/uvcpp_h3_connection.cpp:146-205 | the first start makes the end of the connection call on_disconnect and take the borrowed handle back; a later one changes the table only |
| QuicEvents.H3FreeIff | src/capi/uvcpp_c_http3.cpp:355-371 | freeing an HTTP/3 handle removes it and nothing else |
| QuicEndpoint.Endpoints.DetachConn | src/capi/uvcpp_c_quic.cpp:311-331 | refines detaching, with the scan of the table |
| QuicEndpoint.Endpoints.QuicConnDetach | src/capi/uvcpp_c_quic.cpp:423-428 | refines the detach that HTTP/3 asks for |
| QuicEndpoint.Endpoints.InstallConnCallbacks | src/capi/uvcpp_c_quic.cpp:237-288 | refines installing the callbacks, once |
| QuicEndpoint.Endpoints.GetServerConn | src/capi/uvcpp_c_quic.cpp:389-411 | refines server_conn_of; the entry found is live, so the branch for a dead one is unreachable |
| QuicEndpoint.Endpoints.EndConnection | src/capi/uvcpp_c_http3.cpp:266-278 | refines both ends of a connection, going by the object's token and reading nothing of the HTTP/3 handle after the user's code |
| QuicEndpoint.Endpoints.StartH3 | src/http3/uvcpp_h3_connection.cpp:146-205 | refines starting HTTP/3: the table is taken each time, the connection's callbacks only the first |
| QuicEndpoint.Endpoints.AcceptConnection | src/capi/uvcpp_c_quic.cpp:950-961 | refines the listen callback |
| QuicEndpoint.Endpoints.ConnectClient | src/capi/uvcpp_c_quic.cpp:291-302 | refines attaching a client's handle, also again after a close |
| QuicEndpoint.Endpoints.DeleteClient | src/capi/uvcpp_c_quic.cpp:625-649 | refines freeing a client |
| QuicEndpoint.Endpoints.DeleteServer | src/capi/uvcpp_c_quic.cpp:824-869 | refines freeing the server: snapshot, detach, delete |
| WebContinuations.AtMostOnce | src/capi/uvcpp_c_webapp.cpp:1615-1724 | in every run no continuation is invoked twice; between callbacks only deferred replies and their handles are registered |
| WebContinuations.ExactlyOnce | src/capi/uvcpp_c_webapp.cpp:1615-1625 | a successful run or resume invokes its continuation exactly once over all that ever follows |
| WebContinuations.UseNextValid | src/capi/uvcpp_c_webapp.cpp:1615-1625 | running spends a continuation never invoked before; a refused run changes nothing |
| WebContinuations.UseDeferredValid | src/capi/uvcpp_c_webapp.cpp:1711-1724 | so does resuming |
| WebContinuations.DeferValid | src/capi/uvcpp_c_webapp.cpp:1631-1667 | deferring hands the frame's unspent continuation, uninvoked, to a registered reply |
| WebContinuations.LeaveValid | src/capi/uvcpp_c_webapp.cpp:306-337 | leaving a route callback poisons its three handles and no other |
| WebContinuations.DeferredOutlivesFrame | src/capi/uvcpp_c_webapp.cpp:306-337 | whatever the callback did, every deferred reply outlives its frame with both its handles |
| WebContinuations.RunSafe | src/capi/uvcpp_c_webapp.cpp:306-337 | for every tree of callbacks registered are exactly the stored handles, on the stack, on the heap and embedded |
| WebEvents.RunNextIff | src/capi/uvcpp_c_webapp.cpp:1615-1625 | running succeeds exactly on a registered frame whose continuation is unspent, is refused as a wrong state exactly if it was spent and as stale exactly if there is no such frame; it invokes that continuation and spends it |
| WebEvents.ResumeIff | src/capi/uvcpp_c_webapp.cpp:1711-1724 | the same of resuming a deferred reply |
| WebEvents.DeferIff | src/capi/uvcpp_c_webapp.cpp:1631-1667 | deferring gives a reply that can be resumed exactly if the continuation is unspent and there is room; spent it is either way |
| WebEvents.FreeIff | src/capi/uvcpp_c_webapp.cpp:1726-1738 | freeing succeeds exactly on a registered reply, which is then gone with its two handles, and nothing else is |
| WebEvents.RouteRuns | src/capi/uvcpp_c_webapp.cpp:306-337 | a route whose callback runs the chain adds exactly its own continuation to those invoked, however often it tries |
| WebEvents.ChainReachesNextRoute | src/capi/uvcpp_c_webapp.cpp:1615-1625 | the rest of the chain runs within: the next route is called back and runs its own |
| WebEvents.ResumedChainReachesNextRoute | src/capi/uvcpp_c_webapp.cpp:1711-1724 | so it does when a reply is resumed |
| WebEvents.SecondAttemptRefused | src/capi/uvcpp_c_webapp.cpp:1615-1667 | once spent in a callback every later run or defer there is refused, whatever runs between |
| WebEvents.DeferredIsResumed | src/capi/uvcpp_c_webapp.cpp:1631-1724 | a reply deferred in a route is resumed in its callback or after it, invoking the frame's continuation once; running it besides is refused |
| WebApp.App.RouteTrampoline | src/capi/uvcpp_c_webapp.cpp:306-337 | refines the trampoline around arbitrary user code, its three handles going through a scope with room for five |
| WebApp.App.CloseScope | src/capi/uvcpp_c_webapp.cpp:235-237 | the reverse loop takes out exactly the handles that the scope has noted |
| WebApp.App.NextRun | src/capi/uvcpp_c_webapp.cpp:1615-1625 | refines running the chain |
| WebApp.App.DeferReply | src/capi/uvcpp_c_webapp.cpp:1631-1667 | refines deferring |
| WebApp.App.DeferredResume | src/capi/uvcpp_c_webapp.cpp:1711-1724 | refines resuming |
| WebApp.App.DeferredFree | src/capi/uvcpp_c_webapp.cpp:1726-1738 | refines freeing a deferred reply |
| H2Completions.EveryDoneRunsOnce | src/capi/uvcpp_c_http2.cpp:287-319 | over a connection's life every kept send runs its `done` once or was dropped by a batch, one of the two, and no other runs; each is told the status that the session bound, or cancelled if it bound none, and then only with the handle gone; every slot but those left behind is freed once |
| H2Completions.FreeRunsPendingInOrder | src/http2/uvcpp_h2_connection.cpp:467-477 | freeing runs exactly what the session still has, after the handle is unregistered: first what it is done with, with the status bound, then what it has not sent, stream by stream and in the order of the sends, as cancelled |
| H2Completions.SendOutcome | src/http2/uvcpp_h2_connection.cpp:379-400 | only a send that is kept waits, whether the call then throws or not; a refused one leaves no slot; one that throws before leaves it behind |
| H2Completions.LeaksCounted | src/capi/uvcpp_c_http2.cpp:465-497 | the slots left when the connection is freed are as many as the sends that threw before they were kept and the `done`s that batches dropped, counted over the tree of acts; all other kept sends have run |
| H2Completions.NoLeakIff | src/capi/uvcpp_c_http2.cpp:465-497 | no slot leaks if and only if no send threw before it was kept and no batch was cut short |
| H2Completions.ExactlyOnceIff | src/http2/uvcpp_h2_session.h:340-350 | every kept send runs its `done` exactly once if and only if no batch was cut short |
| H2Completions.PatientDropsNone | src/http2/uvcpp_h2_connection.cpp:402-425 | a caller who never frees the connection in a `done` has no batch cut short |
| H2Completions.BatchCutShort | src/http2/uvcpp_h2_connection.cpp:414-423 | a run in which a `done` frees the connection and the next of its batch never runs |
| H2Completions.KeptThoughItThrew | src/http2/uvcpp_h2_connection.cpp:379-400 | a send that answers with an exception, and whose `done` runs |
| H2Completions.BatchRunsItsFirst | src/http2/uvcpp_h2_session.cpp:280-289 | a batch begins with the chunk retired first, told the status it was retired with, while the handle is registered |
| H2Completions.NoDoneInsideDone | src/http2/uvcpp_h2_connection.cpp:402-404 | while a `done` of a batch runs no other starts, whatever it does, unless it frees the connection |
| H2Completions.BatchRunsAllInOrder | src/http2/uvcpp_h2_connection.cpp:402-425 | a batch that no `done` ends by freeing the connection runs all that the session is done with, in that order, each with its status and with the handle there |
| H2Completions.RetiredIsTold | src/http2/uvcpp_h2_session.cpp:280-289 | so a chunk that is retired runs in the next batch, the last of it, told the status that it was retired with |
| H2Completions.RunSafe | src/capi/uvcpp_c_http2.cpp:465-497 | the accounting of slots, queues and statuses holds for every tree of callbacks; with a freed connection they can do nothing |
| H2Connection.Connection.Send | src/capi/uvcpp_c_http2.cpp:465-497 | refines sending, codes included |
| H2Connection.Connection.EnqueueChunk | src/http2/uvcpp_h2_session.cpp:1478-1490 | the loop finds the end of the chunk's stream in the order in which the streams are emptied |
| H2Connection.Connection.RetireOne | src/http2/uvcpp_h2_session.cpp:280-289 | refines retiring a chunk with a status |
| H2Connection.Connection.Run | src/capi/uvcpp_c_http2.cpp:483-487 | refines a completion around arbitrary user code |
| H2Connection.Connection.RunBatchOfDones | src/http2/uvcpp_h2_connection.cpp:402-425 | refines the loop that runs a batch, with its test after each `done` |
| H2Connection.Connection.Close | src/capi/uvcpp_c_http2.cpp:287-319 | refines freeing, with the loop over what was taken out |
| HandleRegistry.RegistryIsExact | src/capi/uvcpp_c_common.cpp:43-71 | in every tree of the source's trampolines, whatever the code in them registers, frees or does with memory, the registry holds exactly the handles that exist and are not poisoned, none of a callback's is left, and the live count is made minus destroyed |
| HandleRegistry.RunSafe | src/capi/uvcpp_c_internal.h:222-241 | so from every exact state, for all scopes with room enough; the handles of the callbacks around the code stay as they are |
| HandleRegistry.FrameExactIff | src/capi/uvcpp_c_webapp.cpp:232-254 | a trampoline around any such code keeps the registry exact if and only if its scope can note all its handles; otherwise exactly the others stay registered |
| HandleRegistry.SourceIsRoomy | src/capi/uvcpp_c_webapp.cpp:325-362 | every scope of the source can: a route notes 3 of 5, an upgrade at most 2 of 5, the others 1 of 1 |
| HandleRegistry.FramesLeaveNoTrace | src/capi/uvcpp_c_http2.cpp:137-157 | trampolines alone, however nested, leave registry and memory as they found them |
| HandleRegistry.AliveIff | src/capi/uvcpp_c_internal.h:222-227 | storage that does not exist is never read, and the test is passed exactly by the handles that exist and are of the type asked for, or of the one type that shares its mark |
| HandleRegistry.MarksAgreeIff | src/capi/uvcpp_c_internal.h:162-192 | two types share a mark if and only if they are a route's request and a QUIC server |
| HandleRegistry.LiveCount | src/capi/uvcpp_c_common.cpp:68-71 | the live count is made minus destroyed in every tree of callbacks, also when a scope drops a handle |
| HandleRegistry.CreateAndDestroy | src/capi/uvcpp_c_internal.h:230-241 | a handle that is registered passes the test for its type, one that is unregistered passes none |
| HandleRegistry.MemoryActs | src/capi/uvcpp_c_internal.h:222-227 | other uses of memory make no handle and end none |
| HandleRegistry.InsideFrameAlive | src/capi/uvcpp_c_webapp.cpp:325-333 | while a trampoline's code runs, each of its handles passes the test for its type |
| HandleRegistry.FrameRunsCode | src/capi/uvcpp_c_webapp.cpp:325-333 | the code in a trampoline runs: a handle that it makes is there afterwards |
| HandleRegistry.FrameScope.Note | src/capi/uvcpp_c_webapp.cpp:240-246 | notes a handle while there is room |
| HandleRegistry.Registry.RegisterHead | src/capi/uvcpp_c_internal.h:230-234 | registers and marks |
| HandleRegistry.Registry.UnregisterHead | src/capi/uvcpp_c_internal.h:237-241 | unregisters and poisons |
| HandleRegistry.Registry.Alive | src/capi/uvcpp_c_internal.h:222-227 | the test in its order: null, registry, mark |
| HandleRegistry.Registry.Trampoline | src/capi/uvcpp_c_http2.cpp:170-217 | refines a trampoline: registering through the scope, the user's code, the scope's end |
| HandleRegistry.Registry.AddAll | src/capi/uvcpp_c_webapp.cpp:240-246 | the handles registered are all, those noted the first ones |
| HandleRegistry.Registry.CloseScope | src/capi/uvcpp_c_webapp.cpp:235-237 | the reverse loop takes every noted handle out |
| VersionedTables.PrefixIsCovered | src/capi/uvcpp_c_internal.h:284-295 | the fields that a size covers are a first part of the structure |
| VersionedTables.NothingBeyondSizeIsRead | src/capi/uvcpp_c_internal.h:284-295 | no byte at or past the caller's size has any influence |
| VersionedTables.AppendingKeepsOldCallers | src/capi/uvcpp_c_internal.h:272-295 | appending fields changes nothing for an older caller and gives null in them; a newer caller's known fields are all taken |
| VersionedTables.DisciplinesAgreeIff | src/capi/uvcpp_c_http2.cpp:328-372 | clearing before the size check and after it give the same exactly unless an installed table is lost on refusal |
| VersionedTables.Callbacks.SetClearingFirst | src/capi/uvcpp_c_quic.cpp:356-386 | the installed table is the caller's fields on the covered part and null beyond; cleared on refusal |
| VersionedTables.Callbacks.SetCheckingFirst | src/capi/uvcpp_c_http2.cpp:328-372 | the same, but unchanged on refusal |
| HeaderList.UpsertIsMapUpdate | src/capi/uvcpp_c_http3.cpp:615-628 | setting a header is one update of a map up to case; names keep their order and first spelling |
| HeaderList.UpsertKeepsUnique | src/capi/uvcpp_c_http3.cpp:615-628 | names stay unique up to case |
| HeaderList.LastValueWins | src/capi/uvcpp_c_http3.cpp:615-628 | setting twice is setting once to the later value |
| HeaderList.FirstCounts | src/capi/uvcpp_c_http3.cpp:173-180 | the first header of a name decides the lookup |
| HeaderList.Headers.NameEquals | src/capi/uvcpp_c_http3.cpp:158-171 | equality up to the case of ASCII letters |
| HeaderList.Headers.FindHeader | src/capi/uvcpp_c_http3.cpp:173-180 | looks up in that map |
| HeaderList.Headers.UpsertHeader | src/capi/uvcpp_c_http3.cpp:615-628 | the loop in place updates that map |
| Delimited.ScanUndoesJoinIff | src/capi/uvcpp_c_webapp.cpp:787-803 | scanning a joined list gives it back if and only if its names are non-empty and free of commas |
| Delimited.ScanList | src/capi/uvcpp_c_webapp.cpp:787-803 | the character loop cuts at commas and drops empty parts |
| Delimited.JoinIsInjective | src/capi/uvcpp_c_db.cpp:888-894 | joined table names determine the list of names |
| Delimited.JoinNames | src/capi/uvcpp_c_db.cpp:890-894 | the loop joins with newlines between |
| PackageIndex.RoundTripIff | packaging/repo/publish.py:110-121 | stanzas come back from their rendered file if and only if each is made of lines proper; those of any file do |
| PackageIndex.Split | packaging/repo/publish.py:110-121 | the loop groups lines between blank ones |
| PackageIndex.Partition | packaging/repo/publish.py:132-146 | each architecture gets, in order, its own stanzas and those for all; fails exactly on an unknown one |
| PackageIndex.IndexReadsBack | packaging/repo/publish.py:148-152 | each written index reads back as exactly those stanzas |
| Pruner.VersionsArePreordered | packaging/repo/publish.py:56-64 | version keys give a total preorder, with ties between different versions |
| Pruner.KeyOrder | packaging/repo/publish.py:56-64 | keys themselves are totally ordered |
| Pruner.GroupKeeps | packaging/repo/publish.py:91-107 | for any listing, any ties and any `keep`, each group is left with as many files as the slice says, and none left is older than one taken away |
| Pruner.IncrementalIff | packaging/repo/publish.py:91-107 | for every `keep`, pruning what was pruned plus new files equals pruning all, for all listings, if and only if no tie straddles the cut and, for a negative one, every group is too small to be left with anything or gets its oldest again |
| Pruner.IncrementalIsFromScratch | packaging/repo/publish.py:91-107 | without ties, what ought to be kept of what ought to be kept plus new files is what ought to be kept of all |
| Pruner.PruningIncrementally | packaging/repo/publish.py:91-107 | in particular it does without ties and for `keep` at least zero, for any orders of the directory listings |
| Pruner.NoTiesNeverStraddle | packaging/repo/publish.py:102 | without ties none straddles the cut |
| Pruner.PruneKeeps | packaging/repo/publish.py:91-107 | if no tie straddles the cut, sorting and slicing keep exactly the files with too few newer ones in their group, however the directory is listed |
| Pruner.NegativeKeepIsNotIncremental | packaging/repo/publish.py:103 | three files for which the law fails with a `keep` of -1 |
| Pruner.ReleasesAreNotIncremental | packaging/repo/publish.py:41 | two releases of one RPM version for which it fails with a `keep` of 1 |
| Pruner.Directory.Prune | packaging/repo/publish.py:91-107 | the loops remove exactly the tails of the sorted groups and count them |
| Pruner.Directory.GroupAll | packaging/repo/publish.py:93-99 | the first loop groups the listing |

## Left out

Assumptions about what surrounds the layer:

- The C++ engines (`src/net`, `src/db`, `src/quic`, `src/http2`, `src/http3`) and the libraries under them are environments. Of their code the model has the life token and the single start of `uvcpp_h3_connection`, and the queues, the batch loop and the cancellation of `uvcpp_h2_connection` and `uvcpp_h2_session`. Assumed of the rest: a connection's close callback runs before its close observers, observers run once, and nothing captured for a connection fires after it is gone; `read_stop` clears the read slot; an h2 session keeps a chunk until it retires it; a C++ pool lends no connection twice; an HTTP/3 object whose borrowed handle has lost the connection is not started; destroying a QUIC server raises no events.
- Posts from outside callbacks do not overlap the free of their facade, and one thread frees a given handle; posts from inside callbacks may overlap it and are modelled.
- QUIC endpoints are not freed inside a connection's last callback; the other per-connection callbacks (read, stream, write) open no scope and change no table, so they are left out, as is the client's connect callback.
- The TCP connect and write callbacks open no scope and are left out; so are clients that the user creates, which have no server, and several loops per server.
- A handle that was freed is known as stale until its address is handed out again; after that only type and memory safety are claimed of calls by the user with the old pointer.
- AsyncFacade.FreeReturnsIffNothingLeaked: a result table is copied outside the try of its delivery (`uvcpp_c_db.cpp` 1284). What that copy throws skips `finish_one`, but nothing on the private loop thread catches it, so it ends the process; this is not modelled.
- Thread ownership checks, allocation failures beyond those modelled, exception macros, error texts and last-error buffers.

Parts of the code:

- `uvcpp_c_deferred_post`, and making and freeing the app.
- The C++ continuation that a deferred reply holds: its storage is never deleted by `uvcpp_c_deferred_free`, and nothing is claimed about it.
- `uvcpp_c_web.cpp` (the same depth and frame patterns, simpler), getters, setters, `copy_out`, the WebSocket event tables, the C# bindings.
- Files, processes, signing and the regular expressions of `publish.py`; Unicode digits in versions.
- TcpReaper.SetTableEffect: user data pointers are not modelled, since nothing but the callback itself reads them.
- HeaderList.UpsertIsMapUpdate: letters outside ASCII are compared as they are, whatever the locale.
- DbOutcomes.PoolFreeUndoesNew: assumes that a C++ pool at the address of an earlier one starts out with nothing lent, as a new one does.
- DbOwnership.ApplyValid: the locks around pool tables and bind counts are not modelled; each operation is one step.
- HandleRegistry.RegistryIsExact: the lock around the registry is not modelled; each operation is one step.
- H2Completions.RunSafe: the session may retire its chunks in any order, which is more than it does; that a user's `done` throws is not modelled.
