# ProxySQL PolarDB proxy: a Dafny model

This project models the PolarDB side of ProxySQL's PostgreSQL proxy and the RAG ingester
that ships with it, and proves what their protocols and transformations keep. The modules
follow the program's own parts:

| module | part of the program |
|---|---|
| `Common`, `PoolTypes`, `ConnectionList`, `CapacityQueue` | one server's FREE and USED lists with the exact-key index; a hostgroup's queued capacity requests with their three indexes |
| `ReservationServer`, `ReservationProtocol`, `ReservationOffers`, `ReservationRuns`, `HandOff` | reservations handed between workers: take, return, hand over, cancel, evict, retire, collect, wake routing, and what a whole hand-off achieves |
| `LsnCells`, `WriterEpoch`, `WriterProgress`, `ReadYourWrites` | the lock-free LSN cells, their writers across a writer change, and what sessions may rely on |
| `ServerSnapshots` | lifetime of server objects behind shared server-list snapshots |
| `WrappedQuery`, `SplitXids` | the filter that hides wrapper SET results; split-XID hygiene of a pooled backend |
| `Bytes`, `DirectWrite`, `BindValues`, `BindMessage` | the output stream with its resumable direct writes; the parameter values of a Bind message, and the whole message |
| `Division`, `Chunker`, `Projection`, `EmbeddingBatch` | the ingester: chunking, column projection, embedding batches |

Code that updates fields or arrays is a class whose methods are proved against functions of
the old state (`SrvConnList`, `CapacityRequests`, `SnapshotStore`, `WrapState`, `Connection`,
`DataStream` with its `Socket`, `FieldReader`, `Ingest`). Code that runs concurrently is a state machine whose
steps are single atomic accesses (`LsnCells`, `WriterEpoch`, `ServerSnapshots`) or whole
mutex sections (`ReservationRuns`), and its theorems quantify over every sequence of steps.
The topology lookup, the lag policy, the kernel, libpq, the backend and the embedding
provider appear as parameters: an arbitrary answer at every step.

## What does not hold as one might expect

The model follows the code. Where a natural claim, or a comment or document, says more than
the code does, a lemma shows the failure and another the exact condition.

- **Monitor samples carry no epoch.** `doc/polardb-arch/05-MONITOR-AND-HGM-LSN-STATE.md:245`
  says that monitor samples advance the group LSN after the current writer epoch check;
  `polardb_update_server_lsn_from_monitor` makes no such check. A sample answered before a
  writer change and published after it stays in all three cells
  (`WriterEpoch.StaleMonitorSampleSurvives`; exact condition `WriterEpoch.MonitorSectionExact`),
  and any sample that outlives a writer change can let a session read behind its own write
  (`ReadYourWrites.EverySampleCanBreak`). What a session suffers is `ReadYourWrites.NextReadExact`;
  the rules the proxy could follow instead are exactly those of
  `ReadYourWrites.SoundRulesExactly`, in terms of values it has.
- **The reset clears the group LSN before the replica maximum**, so for a moment the replica
  maximum exceeds the group LSN (`WriterEpoch.ResetWindowInvertsOrder`); `WriterEpoch.EpochSafety`
  gives the order in every other state. It also clears the LSN before its timestamp, so a
  sample can pair an old time with LSN zero (`LsnCells.ResetWindowPairsOldTimeWithZero`);
  without a reset in between it cannot (`LsnCells.SampleNotOlderThanItsTime`).
- **A purge is safe only because it republishes** the server list before anything is reclaimed
  (`ServerSnapshots.ReclaimBeforeRepublishDangles`, `ServerSnapshots.ReclaimExact`).
- **`mark_wrapper_set_failed` is also called with no wrapper SET pending**, and then revokes a
  success already recorded. Success survives the user's results exactly when none of them is
  the LSN timeout of a transaction-split read outside a session wait
  (`WrappedQuery.SuccessSurvivesExactly`).
- **An extended query on a connection that still carries the evidence of a split read** drops the
  dirty marker, whatever is on the backend. Two other mechanisms keep this from doing harm. Every
  split read that ends in an error goes to the failure handler, which releases or destroys the
  reader on each of its paths (`lib/PgSQL_Session.cpp:4347-4387`,
  `lib/PgSQL_PolarDB_Failure.cpp:452-506`); with that release every run is clean, whatever an
  aborted batch leaves behind (`SplitXids.OrdinaryQueriesSeeNoXids`). And an extended query that
  meets the marker makes the connection non-reusable, and the release clears the evidence
  (`lib/PgSQL_Data_Stream.cpp:1655-1660`), so whatever one session did, a connection that goes back
  to the pool is safe for the next (`SplitXids.LaterSessionsSeeNoXids`). Without the release the
  marker rule alone does not suffice: in `SplitXids.StaleEvidenceLeaks` an ordinary query of the
  same session sees the XIDs, on a connection that is then given up.
  `SplitXids.SoundPoliciesExactly` says which rules for extended queries would do on their own. If
  the backend always clears its split state on abort, as `include/PgSQL_Connection.h:984-986`
  says, nothing is needed (`SplitXids.ForgetfulBackendIsClean`).
- **The Bind parser's 32-bit sum wraps**, and not only for lengths above INT32_MAX: for every packet
  size above 2^31 bytes there is a Bind message that the whole parser accepts although one of its
  values runs past the end, and the field reader does not refuse it
  (`BindMessage.OverrunningMessageIsAccepted`). The walk accepts a truncated list exactly when the
  sum wraps at the first field that cannot be read and the walk carries on from there
  (`BindValues.WalkExact`); a caller who refuses packets of more than 2^31 bytes is safe, and no
  weaker limit is (`BindMessage.MessagesSoundExactlyUpTo2G`).
- **An empty packet stops a direct write** before any byte is offered; `DirectWrite.ProgressExact`
  says exactly when a stream moves.
- **The chunker loses text** when `min_chunk_size` exceeds `chunk_size`, which the configuration
  parser accepts (`Chunker.RebuildsExactly`).
- **Columns of `doc_id.format` are not selected** (`Projection.FormatColumnsAreNotCollected`,
  exact condition `Projection.DocIdAgreesExactly`, for a configuration `Projection.DocIdSafeExactly`).

## Model

| member | source | states |
|---|---|---|
| `ConnectionList.LookupRefinesScan` | include/PgSQL_HostGroups_Manager.h:338-366 | looking up a key finds a non-empty bucket exactly when some FREE position carries that key, and the bucket holds exactly the connections at those positions |
| `ConnectionList.HealthyIndexNamesEachSlotOnce` | lib/PgSQL_HostGroups_Manager.cpp:419-468 | a healthy index names a keyed connection exactly once, so a rebuild reads back the key every position already had |
| `ConnectionList.SrvConnList.FindIdx` | lib/PgSQL_HostGroups_Manager.cpp:378-399 | the result is the connection's index or negative exactly when it is absent; the stored position is only a hint, correct hints are kept and stale ones replaced |
| `ConnectionList.SrvConnList.LimitEmptyBuckets` | lib/PgSQL_HostGroups_Manager.cpp:470-487 | an emptied bucket stays cached exactly while fewer than the limit are cached, and the count follows |
| `ConnectionList.SrvConnList.PruneEmptyBuckets` | lib/PgSQL_HostGroups_Manager.cpp:489-507 | exactly the empty buckets disappear, the cached count becomes zero, and a consistent list stays consistent |
| `ConnectionList.SrvConnList.Unindex` | lib/PgSQL_HostGroups_Manager.cpp:545-573 | after a repair if the key mirror had drifted, the connection is out of the index and everything else describes the list; an absent connection changes nothing more |
| `ConnectionList.SrvConnList.Add` | lib/PgSQL_HostGroups_Manager.cpp:576-612 | after a repair if needed, the connection is appended with its key, and index, positions and atomic count describe the list; as a list of slots it grows by exactly that slot |
| `ConnectionList.SrvConnList.DropSlot` | lib/PgSQL_HostGroups_Manager.cpp:631-679 | the last element moves into the hole and its stored position moves with it |
| `ConnectionList.SrvConnList.Remove` | lib/PgSQL_HostGroups_Manager.cpp:681-697 | an index beyond the end changes nothing; otherwise, after a repair if needed, the asked-for connection is returned and the list of slots loses exactly that slot |
| `ConnectionList.SrvConnList.RemoveMatching` | lib/PgSQL_HostGroups_Manager.cpp:700-726 | after a repair of a length mismatch, a connection is returned exactly when some slot carries the key, and it is one of those; on a list that drifted otherwise, only a connection whose slot or whose one entry in the old index carries it |
| `ConnectionList.SrvConnList.Rebuild` | lib/PgSQL_HostGroups_Manager.cpp:419-468 | from any drifted index the invariant is re-established; a connection keeps a key exactly when it is unreserved and the old buckets named it once, under that key |
| `ConnectionList.SrvConnList.EnsureConsistent` | lib/PgSQL_HostGroups_Manager.cpp:509-543 | when keys and connections agree in number nothing changes; otherwise the invariant is re-established, USED keeping the keys it has and FREE taking them from the buckets that name a connection once |
| `ConnectionList.SrvConnList.DetachAll` | lib/PgSQL_HostGroups_Manager.cpp:729-742 | every connection is handed out once, also from a list that needed repair, and no bucket or count is left |
| `CapacityQueue.CapacityRequests.Register` | lib/PgSQL_HostGroups_Manager.cpp:1001-1047 | accepted exactly when well formed and neither token nor worker is queued already; the request joins the end of the arrival order in all three indexes |
| `CapacityQueue.CapacityRequests.Erase` | lib/PgSQL_HostGroups_Manager.cpp:958-999 | exactly one request leaves all three indexes and the fast counter |
| `CapacityQueue.CapacityRequests.QueuedIndexesMatch` | lib/PgSQL_HostGroups_Manager.cpp:958-999 | every queued request passes the consistency check, so the abort in the code is unreachable |
| `CapacityQueue.CapacityRequests.TakeMatching` | lib/PgSQL_HostGroups_Manager.cpp:1049-1097 | the oldest queued request with the key, of another worker than the excluded one and accepted by the lag policy, is consumed; none is exactly when there is no such request |
| `CapacityQueue.ScanBucketRefinesQueue` | lib/PgSQL_HostGroups_Manager.cpp:1049-1097 | scanning one keyed list finds the same request as scanning the whole arrival order |
| `CapacityQueue.CapacityRequests.Cancel` | lib/PgSQL_HostGroups_Manager.cpp:1099-1113 | the worker's own request for the token is withdrawn, any other call changes nothing |
| `CapacityQueue.CapacityRequests.Has` | lib/PgSQL_HostGroups_Manager.cpp:1115-1121 | true exactly when that worker's request for that token is queued |
| `CapacityQueue.BucketRemove` | lib/PgSQL_HostGroups_Manager.cpp:958-999 | erasing a request removes it from its own keyed list and touches no other list |
| `ReservationServer.ForgetKeeps` | lib/PgSQL_HostGroups_Manager.cpp:1185-1205 | ending a reservation settles exactly its token; a retirement reason leaves a record its worker can still collect |
| `ReservationServer.TakeFreeKeeps` | lib/PgSQL_HostGroups_Manager.cpp:681-697 | taking a FREE connection keeps every connection in exactly one place and every other claim |
| `ReservationServer.ReserveKeeps` | lib/PgSQL_HostGroups_Manager.cpp:1227-1254 | a reserved connection is FREE and keyless, and exactly one new claim exists |
| `ReservationServer.KeyedSlotIsUnreserved` | lib/PgSQL_HostGroups_Manager.cpp:1282-1296 | an exact-key take can never yield a reserved connection |
| `ReservationServer.TakeReservationKeeps` | lib/PgSQL_HostGroups_Manager.cpp:1706-1752 | the reserved connection moves to USED exactly for a live reservation on an online server; otherwise the answer is pending exactly while the request is queued, which changes no claim, or retired once, or missing; the others keep their claims |
| `ReservationServer.EvictSound` | lib/PgSQL_HostGroups_Manager.cpp:1814-1855 | eviction succeeds exactly when the required number of unreserved connections exists, then frees min(preferred, evictable) of them, never a reserved one; otherwise nothing moves |
| `ReservationServer.EvictFromKeeps` | lib/PgSQL_HostGroups_Manager.cpp:1814-1855 | the swap-removing scan evicts exactly the requested number and skips none |
| `ReservationServer.CancelRecordKeeps` | lib/PgSQL_HostGroups_Manager.cpp:1755-1812 | cancelling ends exactly one claim and gives its connection back with the key it must be stored under |
| `ReservationServer.CancelUndoesReserve` | lib/PgSQL_HostGroups_Manager.cpp:1755-1812 | cancelling a reservation restores the server exactly and names the key the connection must be stored under |
| `ReservationServer.CollectReturnsReserved` | lib/PgSQL_HostGroups_Manager.cpp:1706-1752 | collecting on an online server is as if the connection had gone to USED under its key at once |
| `ReservationServer.DetachFreeKeeps` | lib/PgSQL_HostGroups_Manager.cpp:1207-1225 | taking a server offline detaches every FREE connection and turns every reservation into a retirement record, losing no claim |
| `ReservationProtocol.StoreKeeps` | lib/PgSQL_HostGroups_Manager.cpp:1256-1280 | storing a connection keeps the global invariant and consumes at most one queued request, for exactly one new wake |
| `ReservationProtocol.StoreFindsOldestWaiter` | lib/PgSQL_HostGroups_Manager.cpp:1256-1280 | a stored connection is reserved, keyless, for the oldest eligible request for its key, and that request's worker is the one woken |
| `ReservationProtocol.StoreWithoutWaiter` | lib/PgSQL_HostGroups_Manager.cpp:1256-1280 | without such a request it becomes FREE under its key and nobody is woken; on a server that is not online nothing is stored |
| `ReservationProtocol.HandToRequest` | lib/PgSQL_HostGroups_Manager.cpp:1227-1254 | giving a connection to a queued request moves its token from queue to reservation and creates its one wake |
| `ReservationProtocol.CancelKeeps` | lib/PgSQL_HostGroups_Manager.cpp:1755-1812 | cancelling an undeliverable wake settles its record and keeps the global invariant; at most one more wake results, for one fewer queued request |
| `ReservationOffers.CancelFindsNextWaiter` | lib/PgSQL_HostGroups_Manager.cpp:1788-1799 | a cancelled connection of an online server is reserved for the oldest eligible waiter for its key, who is the next to be woken |
| `ReservationOffers.CancelWithoutWaiter` | lib/PgSQL_HostGroups_Manager.cpp:1788-1805 | with no such waiter, or on a server that is not online, it is FREE under its key and nobody is woken |
| `ReservationOffers.CancelWithdraws` | lib/PgSQL_HostGroups_Manager.cpp:1758-1763 | a request that is still queued is withdrawn and nothing else changes |
| `ReservationOffers.CancelDropsRecord` | lib/PgSQL_HostGroups_Manager.cpp:1767-1778 | a retirement record of the worker is dropped and nothing else changes; without one nothing changes |
| `ReservationOffers.CancelPasses` | lib/PgSQL_HostGroups_Manager.cpp:1755-1812 | in every case a live reservation's connection is reserved for the wake that is returned, or FREE with no eligible waiter for its key left |
| `ReservationProtocol.SettleKeeps` | lib/PgSQL_HostGroups_Manager.cpp:1706-1752 | removing a record together with its only holder keeps records and holders in one-to-one correspondence |
| `ReservationRuns.ReturnKeeps` | lib/PgSQL_HostGroups_Manager.cpp:1597-1659 | returning a USED connection, with or without a waiter, keeps the global invariant |
| `ReservationRuns.HandOverKeeps` | lib/PgSQL_HostGroups_Manager.cpp:1661-1697 | handing a USED connection directly to another worker's request keeps it |
| `ReservationServer.TakeSlotKeeps` | lib/PgSQL_HostGroups_Manager.cpp:1282-1322 | exact-key and reset-compatible takes move a FREE connection to USED and no one loses a claim |
| `ReservationServer.StatusKeeps` | lib/PgSQL_HostGroups_Manager.cpp:1916-1935 | a status change, including the detach of an offline server, keeps every connection in one place and every claim |
| `ReservationServer.OnPoolKeeps` | lib/PgSQL_HostGroups_Manager.cpp:1584-1595 | every operation within one pool (takes, adds, evictions, drops, status changes) keeps every connection in one place and every claim |
| `ReservationRuns.RegisterKeeps` | lib/PgSQL_PolarDB_ReaderPool_Worker.cpp:373-433 | registering under a fresh token, accepted or refused, keeps the global invariant and revives no token |
| `ReservationRuns.GiveUpKeeps` | lib/PgSQL_PolarDB_ReaderPool_Worker.cpp:448-475 | a worker that stops waiting, queued or already reserved for, leaves the global invariant intact and revives no token |
| `ReservationRuns.CollectKeeps` | lib/PgSQL_PolarDB_ReaderPool_Worker.cpp:497-552 | taking a reservation, whatever the answer, keeps the global invariant and revives no token |
| `ReservationRuns.ProcessKeeps` | lib/PgSQL_PolarDB_ReaderPool_Worker.cpp:621-650 | accepting a wake for the current token, or cancelling a wake for an abandoned wait, keeps the global invariant |
| `ReservationRuns.RunKeepsInvariant` | include/PgSQL_HostGroups_Manager.h:628-684 | over every run: each open connection is in exactly one of FREE, USED and caller-owned of its own server; reserved ones are FREE and keyless; a token is in at most one place; every record has exactly one party that will act on it |
| `ReservationRuns.FreshIsInv` | include/PgSQL_HostGroups_Manager.h:1157-1213 | a new hostgroup satisfies the invariant, so the run theorem applies to every reachable state |
| `ReservationRuns.RetiredOnceThenMissing` | include/PgSQL_HostGroups_Manager.h:832-869 | after a collect reported RETIRED, in every later state, on every server and for every worker, that token is MISSING |
| `ReservationRuns.RouteWake` | lib/PgSQL_HostGroups_Manager.cpp:4083-4099 | the loop is a run of the protocol; it delivers at the first reachable worker it asks, who then has the connection reserved under its key, and ends undelivered only when no eligible waiter for that key is left, with the connection FREE under it; it takes at most one hop more than there are queued requests |
| `HandOff.ReturnedConnectionReachesWaiter` | lib/PgSQL_HostGroups_Manager.cpp:1597-1659 | from any reachable state: a connection is returned, its wake delivered and processed, and collected; then it is USED under its key, the worker waits for nothing, the request is gone, and nothing else has changed |
| `HandOff.ReturnExact` | lib/PgSQL_HostGroups_Manager.cpp:1597-1659 | a returned connection goes to the oldest eligible request for its own key, of a worker that is not excluded |
| `HandOff.ReturnStores` | lib/PgSQL_HostGroups_Manager.cpp:1597-1659 | with no such request it is FREE under its key |
| `HandOff.HandOverExact` | lib/PgSQL_HostGroups_Manager.cpp:1661-1697 | a hand-over serves the oldest eligible request of another worker, and without one changes nothing |
| `HandOff.RefusedReturns` | lib/PgSQL_HostGroups_Manager.cpp:1597-1697 | a return of a connection that is not USED, and a hand-over without server, topology, key or returning worker, change nothing |
| `HandOff.RegisterExact` | lib/PgSQL_PolarDB_ReaderPool_Worker.cpp:373-433 | a worker that may wait takes the next token; an accepted request is the newest in the queue |
| `HandOff.AbandonedIsPassedOn` | lib/PgSQL_PolarDB_ReaderPool_Worker.cpp:448-475 | what a worker that gives up had reserved is carried by a new wake, or FREE with nobody left to have it |
| `HandOff.ForeignWakeIsPassedOn` | lib/PgSQL_PolarDB_ReaderPool_Worker.cpp:621-650 | so is what a wake carries that finds its worker waiting for something else or for nothing |
| `HandOff.GiveUpWithdraws` | lib/PgSQL_PolarDB_ReaderPool_Worker.cpp:448-475 | a worker that is still queued just leaves the queue |
| `HandOff.ConnectionComesAndGoes` | lib/PgSQL_HostGroups_Manager.cpp:1282-1322 | opened, stored, taken, dropped and closed with nobody waiting, a connection leaves the hostgroup exactly as it was |
| `HandOff.TakeSlotExact` | lib/PgSQL_HostGroups_Manager.cpp:1282-1322 | an eligible take moves exactly that connection from FREE to USED, with its key or without, and any other changes nothing |
| `HandOff.DropFreeExact` | lib/PgSQL_HostGroups_Manager.cpp:1185-1205 | a connection dropped from FREE is the caller's; a reserved one leaves its worker the reason |
| `HandOff.DropUsedExact` | lib/PgSQL_HostGroups_Manager.cpp:1584-1595 | a connection dropped from USED is the caller's; one that is not USED changes nothing |
| `HandOff.StatusExact` | lib/PgSQL_HostGroups_Manager.cpp:1916-1935 | a status change changes the status alone, and going hard offline also hands out every FREE connection and leaves every waiting worker the reason |
| `LsnCells.RaceEndsAtPeak` | include/PgSQL_HostGroups_Manager.h:1044-1060 | for every interleaving of any number of callers, weak exchanges included, the compare-and-swap loop leaves the maximum of the initial value and all samples |
| `LsnCells.RaceEnds` | include/PgSQL_HostGroups_Manager.h:1053-1058 | whatever the others do, every caller returns after at most one action more than there are callers, not counting spurious failures, and once all have had that many the cell holds the maximum |
| `LsnCells.AloneTwoActionsDo` | include/PgSQL_HostGroups_Manager.h:1053-1058 | a caller on its own loads, exchanges and returns, and leaves the larger value |
| `LsnCells.FailureMeansRise` | include/PgSQL_HostGroups_Manager.h:1053-1058 | an exchange fails, other than spuriously, exactly when the cell rose since the caller's load |
| `LsnCells.SampleNotOlderThanItsTime` | include/PgSQL_HostGroups_Manager.h:954-980 | a reader that loads the timestamp first gets an LSN at least the one published with that timestamp, if no reset intervenes |
| `LsnCells.SectionsExact` | include/PgSQL_HostGroups_Manager.h:1044-1060 | undisturbed, a publication raises the LSN and stores its time, and a reset clears both |
| `LsnCells.ResetWindowPairsOldTimeWithZero` | include/PgSQL_PolarDB.h:3587-3592 | with a reset in between, an old timestamp can be read together with LSN zero |
| `WriterEpoch.EpochSafety` | lib/PgSQL_HostGroups_Manager.cpp:7634-7765 | in every interleaving of RFQ updates, monitor updates and writer changes in which a monitor update starts with a sample of the epoch in force or one that exceeds no cell, every cached, group and replica position was seen in the current epoch, the replica maximum never exceeds the group LSN outside the reset, and a reader is answered from the epoch it asked for |
| `WriterEpoch.EpochSafetyFromStart` | lib/PgSQL_HostGroups_Manager.cpp:7634-7765 | the same for every run from the initial state |
| `WriterEpoch.OnlyReplicaSamplesRaiseReplica` | lib/PgSQL_HostGroups_Manager.cpp:7559-7632 | no step but a monitor update from a replica raises the replica-only maximum |
| `WriterEpoch.MonitorSectionIsItsSteps` | lib/PgSQL_HostGroups_Manager.cpp:7559-7632 | the single accesses of a monitor update add up to the stated change of three cells |
| `WriterEpoch.MonitorSectionExact` | lib/PgSQL_HostGroups_Manager.cpp:7559-7632 | a monitor update leaves only current-epoch positions exactly when its sample is of that epoch or exceeds none of the cells it is offered to |
| `WriterEpoch.StaleMonitorSampleSurvives` | lib/PgSQL_Monitor.cpp:2063-2083 | from the initial state, for any position, a state is reachable in which a sample from before the writer change is in all three cells of the new epoch |
| `WriterEpoch.ResetWindowInvertsOrder` | lib/PgSQL_PolarDB_Topology.cpp:624-713 | between the two clears of a writer change the replica maximum can exceed the group LSN |
| `WriterEpoch.ResetWindowIsReached` | lib/PgSQL_PolarDB_Topology.cpp:624-713 | a run from the initial state, with any published position, that ends between the two clears |
| `WriterEpoch.RfqKeeps` | lib/PgSQL_HostGroups_Manager.cpp:7634-7765 | each access of an RFQ update keeps the invariant: it stores only under the server's guard after rechecking the epoch |
| `WriterProgress.RfqSectionIsItsSteps` | lib/PgSQL_HostGroups_Manager.cpp:7709-7741 | the single accesses of an undisturbed RFQ update of the epoch in force leave the larger position in the server's cell and in the group's, and the replica maximum as it was |
| `WriterProgress.AcceptedPositionsStay` | lib/PgSQL_HostGroups_Manager.cpp:7738-7740 | in every interleaving, with no condition on samples, an RFQ position of the epoch in force that was stored stays covered by cell and group until a reset clears them |
| `WriterProgress.AcceptedFromStart` | lib/PgSQL_HostGroups_Manager.cpp:7738-7740 | the same for every run from the initial state |
| `WriterEpoch.ManagerKeeps` | lib/PgSQL_PolarDB_Topology.cpp:584-713 | each access of a writer change keeps it: all guards are held before anything is cleared and until the epoch has moved |
| `WriterProgress.ResetCompletes` | lib/PgSQL_PolarDB_Topology.cpp:624-713 | with any servers, once their guards are free a reset runs to its end: one epoch further, every cell empty, every guard free |
| `WriterEpoch.ReadKeeps` | lib/PgSQL_HostGroups_Manager.cpp:7780-7806 | each access of a reader keeps the invariant, under which a value it answers with was seen in the epoch it asked for |
| `WriterProgress.ReaderAnswersExactly` | lib/PgSQL_HostGroups_Manager.cpp:7780-7806 | whatever happens in between, a reader answers the replica maximum it loaded when both its epoch loads find its epoch, and zero otherwise |
| `ReadYourWrites.SessionsNeverGoBack` | include/PgSQL_HostGroups_Manager.h:2811-2819 | over every run of commits, replay, health checks, routing, reads and failovers that publishes a sample only in its own epoch or when it is no news, a session's completed writes and reads within one epoch never go back, whether a read waited or skipped its wait |
| `ReadYourWrites.NeverGoBackFromStart` | include/PgSQL_HostGroups_Manager.h:2811-2819 | the same for every run from the initial state |
| `ReadYourWrites.SoundRulesExactly` | lib/PgSQL_HostGroups_Manager.cpp:7559-7632 | of all rules for publishing a sample by its epoch, the current epoch, its position and the cached one, exactly those that publish only in the sample's own epoch or when it is no news keep every session from going back in every run from the start |
| `ReadYourWrites.ExecuteReachesTarget` | lib/PgSQL_PolarDB_ReaderPool.cpp:1330-1362 | every counted read executes at a replay position at or beyond its target and beyond everything the session knows |
| `ReadYourWrites.ExecuteExact` | lib/PgSQL_PolarDB_ReaderPool.cpp:1330-1362 | a read is held back exactly while it may not skip its wait and the server is behind its target; otherwise it runs at the server's position, and session and cache learn it |
| `ReadYourWrites.RouteExact` | lib/PgSQL_PolarDB_ReaderPool.cpp:1548-1622 | the target is all the session knows in this epoch, and the wait is skipped exactly when a cached position has reached a non-zero target |
| `ReadYourWrites.WaitingReadCompletes` | lib/PgSQL_PolarDB_ReaderPool.cpp:1330-1362 | whatever the cache says, a routed read completes once its server has replayed to the session's target |
| `ReadYourWrites.NextReadExact` | lib/PgSQL_PolarDB_ReaderPool.cpp:1548-1622 | after a publication, a session's next read from that server runs below its target exactly when the server is behind the target and the published or an earlier cached position says it is not |
| `ReadYourWrites.StaleSampleBreaksReadYourWrites` | lib/PgSQL_PolarDB_ReaderPool.cpp:1548-1622 | from any reachable state, publishing a stale sample from beyond the primary's position lets some session read behind its own write |
| `ReadYourWrites.EverySampleCanBreak` | lib/PgSQL_Monitor.cpp:2063-2083 | from any reachable state and with any sample in flight, a writer change before its publication is enough for some session to read behind its own write |
| `ReadYourWrites.StaleSampleOverstates` | lib/PgSQL_Monitor.cpp:2063-2083 | a concrete run that reaches such a state |
| `ReadYourWrites.FailoverKeeps` | lib/PgSQL_PolarDB_Flow.cpp:478-538 | a writer change keeps nothing that could be compared across timelines |
| `ServerSnapshots.SnapshotStore.Retire` | lib/PgSQL_PolarDB_Topology.cpp:455-463 | a removed server is recorded with the current generation |
| `ServerSnapshots.SnapshotStore.Prune` | lib/PgSQL_PolarDB_Topology.cpp:379-389 | exactly the retired snapshots with another owner stay, in order |
| `ServerSnapshots.SnapshotStore.OldestActive` | lib/PgSQL_PolarDB_Topology.cpp:409-421 | the cut-off is the oldest surviving generation, or one past the current one |
| `ServerSnapshots.SnapshotStore.DetachReclaimable` | lib/PgSQL_PolarDB_Topology.cpp:409-437 | the in-place compaction hands out exactly the servers retired before the cut-off and keeps the others, both in order |
| `ServerSnapshots.HeldServersAreNeverReclaimed` | include/PgSQL_HostGroups_Manager.h:2640-2659 | in every interleaving of threads with unlinking, republishing, pruning and reclaiming, no held snapshot lists a freed server |
| `ServerSnapshots.ReclaimExact` | lib/PgSQL_PolarDB_Topology.cpp:409-437 | a retired server is freed exactly when every surviving old snapshot is younger than its retirement |
| `ServerSnapshots.NothingLeaks` | lib/PgSQL_PolarDB_Topology.cpp:409-437 | once nobody holds an old snapshot, pruning and reclaiming leave no retired server |
| `ServerSnapshots.RepublishKeeps` | lib/PgSQL_PolarDB_Topology.cpp:484-523 | each of the three stores of a republication keeps the invariant, whoever loads a snapshot in between |
| `ServerSnapshots.SnapshotStore.Republish` | lib/PgSQL_PolarDB_Topology.cpp:484-523 | the new list names exactly the servers of all hostgroups under the next generation, and the old one joins the retired lists |
| `ServerSnapshots.RepublicationExact` | lib/PgSQL_PolarDB_Topology.cpp:484-523 | the three stores end with a current list of exactly the linked servers, one generation on, the old list kept and nothing else changed |
| `ServerSnapshots.LoadedServersAreLinked` | lib/PgSQL_PolarDB_Topology.cpp:484-523 | in every run, a list loaded outside a purge names no server that was unlinked |
| `ServerSnapshots.FreshListStays` | lib/PgSQL_PolarDB_Topology.cpp:484-523 | from a complete list on, whatever happens until servers enter or leave again, every load gets exactly the linked servers |
| `ServerSnapshots.LinkedServerIsListed` | lib/PgSQL_PolarDB_Topology.cpp:484-523 | a new server is in the list of the next republication |
| `ServerSnapshots.PurgedServerIsFreed` | lib/PgSQL_PolarDB_Topology.cpp:455-521 | a purged server that nobody looks at leaves the list and is freed, and no retired server is left |
| `ServerSnapshots.ReclaimBeforeRepublishDangles` | lib/PgSQL_HostGroups_Manager.cpp:3541-3573 | reclaiming after an unlink but before the republication frees a server the current list still names |
| `WrappedQuery.WrapState.Begin` | include/PgSQL_Connection.h:900-911 | every field for a query with n wrapper SETs, all defaults when n is zero |
| `WrappedQuery.WrapState.BeginExtendedWait` | include/PgSQL_Connection.h:912-921 | every field for an extended wait with the given notice owner |
| `WrappedQuery.WrapState.ObserveExtendedWaitCompletion` | include/PgSQL_Connection.h:922-933 | only an extended wait changes: success is added and the notice owner reset |
| `WrappedQuery.WrapState.MarkWrapperSetFailed` | include/PgSQL_Connection.h:934-939 | failure is recorded, success revoked and nothing more is pending |
| `WrappedQuery.WrapState.ConsumeSuccessfulWrapperSet` | include/PgSQL_Connection.h:940-946 | one SET fewer is pending and success is recorded at the last |
| `WrappedQuery.WrapState.Clear` | include/PgSQL_Connection.h:947-957 | every field is back at its default |
| `WrappedQuery.Connection.AsyncQueryIdle` | lib/PgSQL_Connection.cpp:2541-2590 | the session's wrapper is snapshotted and a dirty connection's simple query gets the reset SET in front |
| `WrappedQuery.Connection.QueryStart` | lib/PgSQL_Connection.cpp:2189-2222 | the dispatch snapshot becomes the countdown and is gone |
| `WrappedQuery.Connection.HandleWrapperSetError` | lib/PgSQL_Connection.cpp:227-303 | the wrapper is marked failed exactly while it is pending, or for a split LSN timeout outside a session wait |
| `WrappedQuery.Connection.TakeResult` | lib/PgSQL_Connection.cpp:846-925 | one result: swallowed and counted, or forwarded, with the reset evidence it leaves |
| `WrappedQuery.Connection.FetchResults` | lib/PgSQL_Connection.cpp:846-925 | for every result sequence exactly the user's results are forwarded, in order |
| `WrappedQuery.Connection.AsyncFreeResult` | lib/PgSQL_Connection.cpp:2439-2474 | the dirty marker goes only with a completed, error-free reset or split query |
| `WrappedQuery.Connection.ClearRequestStateForRelease` | include/PgSQL_Connection.h:973-979 | in every reachable state the early return makes no difference: the result is a full clear |
| `WrappedQuery.FilterRefines` | include/PgSQL_Connection.h:813-818 | the countdown equals an independent definition of the user's results, for every n and every sequence |
| `WrappedQuery.WrappedQueryForwards` | include/PgSQL_Connection.h:872-877 | if the n SETs succeed, exactly the later results are forwarded, success is set exactly at the n-th, and the XID-reset test holds for the first result only |
| `WrappedQuery.WrappedQueryFails` | include/PgSQL_Connection.h:934-939 | if SET k fails, its error and everything after it is forwarded, success never holds, and a failed reset makes the connection non-reusable |
| `WrappedQuery.SuccessSurvivesExactly` | lib/PgSQL_Connection.cpp:271-275 | with no SET pending, a recorded success survives the user's results exactly when none of them is the timeout of a split wait outside a session wait |
| `WrappedQuery.WrappedQuerySucceedsExactly` | lib/PgSQL_Connection.cpp:271-275 | a wrapped query whose SETs succeed ends as a success under the same exact condition on its later results |
| `WrappedQuery.EarlyReturnIsSound` | include/PgSQL_Connection.h:958-979 | in any order of operations from a new connection, "nothing active" means every field is at its default, the notice owner included |
| `WrappedQuery.ExtendedWaitExact` | include/PgSQL_Connection.h:912-935 | an extended wait counts as wrapped, has succeeded exactly when one of its completions was a success, and hands the notices back at the first completion; completions of anything else change nothing |
| `SplitXids.OrdinaryQueriesSeeNoXids` | lib/PgSQL_PolarDB_Failure.cpp:452-506 | over every run of queries from any sessions in which a failed split read is followed by its release, non-empty backend XIDs imply the dirty marker and no ordinary simple query ever sees any, whatever aborted batches leave on the backend |
| `SplitXids.LaterSessionsSeeNoXids` | lib/PgSQL_Data_Stream.cpp:1655-1660 | after any run at all, on a connection that is still reusable when it is given back no ordinary query of a later session sees XIDs and they stay flagged, given the releases of that session's own failed split reads |
| `SplitXids.LaterSessionsWithoutSplits` | lib/PgSQL_Data_Stream.cpp:1655-1660 | a later session without split reads needs no condition on anything |
| `SplitXids.ContainedStep` | lib/PgSQL_Connection.cpp:2581-2589 | every step keeps unflagged XIDs on connections that are not reusable |
| `SplitXids.SoundPoliciesExactly` | lib/PgSQL_Connection.cpp:2447-2458 | of all rules for sending extended queries by the connection's own state and whether the query waits, exactly those keep every run clean that send none without a wait to a reachable connection with the marker and a successful split wrapper |
| `SplitXids.RunExact` | lib/PgSQL_Connection.cpp:2447-2458 | without any rule, a run is clean throughout exactly when no extended query drops the marker over XIDs |
| `SplitXids.CompletedQueryCleans` | lib/PgSQL_Connection.cpp:2446-2473 | a completed simple query or split read leaves the backend clean and unflagged |
| `SplitXids.FailedResetRetires` | lib/PgSQL_Connection.cpp:901-911 | when the reset SET fails the user statement does not run, the marker stays and the connection is given up |
| `SplitXids.FailedWrapperRetires` | lib/PgSQL_Session.cpp:4441-4459 | a split read whose wrapper fails keeps the marker, and on the completion path makes the reader non-reusable |
| `SplitXids.ExchangeFails` | lib/PgSQL_Connection.cpp:2446-2473 | a failed batch never clears the marker |
| `SplitXids.LogExact` | lib/PgSQL_Connection.cpp:2554-2578 | an ordinary query runs behind the reset on a marked connection and with the backend's XIDs otherwise; a split read runs with its own, and leaves what the backend's abort leaves |
| `SplitXids.BoundariesExact` | lib/PgSQL_Data_Stream.cpp:1655-1660 | a release clears the request's state and keeps marker, XIDs and reusability; a session reset leaves no XIDs and no marker |
| `SplitXids.StepExact` | lib/PgSQL_Connection.cpp:2447-2458 | from a flagged state no step lets an ordinary query see XIDs, and exactly the extended query that drops the marker over XIDs leaves them unflagged |
| `SplitXids.StaleEvidenceLeaks` | lib/PgSQL_Connection.cpp:2447-2458 | a run from a new connection: a failed split read whose XIDs stay, an extended query without a release in between, and the next ordinary query of that session sees them, on a connection already marked non-reusable |
| `SplitXids.ForgetfulBackendIsClean` | include/PgSQL_Connection.h:981-990 | with a backend that forgets its split state on abort, every run stays clean |
| `DirectWrite.BuildView` | lib/PgSQL_Data_Stream.cpp:1112-1142 | the view is the next unsent bytes, as many as budget, vector limit and queue allow; there is none exactly when nothing is offered |
| `DirectWrite.OfferedExact` | lib/PgSQL_Data_Stream.cpp:1112-1142 | something is offered exactly when there is a packet and no empty one stands within reach |
| `DirectWrite.CountAccepted` | lib/PgSQL_Data_Stream.cpp:1144-1171 | the completed packets and the offset into the next one account for exactly the accepted bytes |
| `DirectWrite.DataStream.BatchReady` | lib/PgSQL_Data_Stream.cpp:1090-1110 | true exactly when resuming, with two packets, or with one too large for the buffer |
| `DirectWrite.DataStream.ApplyAccepted` | lib/PgSQL_Data_Stream.cpp:1144-1171 | the unsent bytes lose exactly the accepted prefix and no partial packet is left behind |
| `DirectWrite.Socket.Send` | lib/PgSQL_Data_Stream.cpp:1207-1217 | the kernel takes a prefix of what it is offered, or refuses; nothing else reaches the wire |
| `DirectWrite.DataStream.WriteDirect` | lib/PgSQL_Data_Stream.cpp:1193-1249 | the return code is what the kernel took of what was offered, or says that it would block; the wire gains exactly those bytes of the pending stream, the stream loses exactly those, and the socket fails exactly on a refused offer |
| `DirectWrite.DataStream.CopyPacket` | lib/PgSQL_Data_Stream.cpp:1441-1487 | one turn of the copy loop moves bytes into the buffer without changing what is pending |
| `DirectWrite.DataStream.Array2Buffer` | lib/PgSQL_Data_Stream.cpp:1425-1494 | buffering keeps the pending bytes and ends with a full buffer or nothing left to copy; it touches nothing while a directly written packet is in progress |
| `DirectWrite.DataStream.Array2BufferFull` | lib/PgSQL_Data_Stream.cpp:1581-1591 | the same for the full loop, unless the direct path will take the packets, which then stay as they are |
| `DirectWrite.DataStream.WriteBuffered` | lib/PgSQL_Data_Stream.cpp:752-893 | the return code is what the kernel took of the buffered bytes; the wire gains exactly those and the stream loses exactly those |
| `DirectWrite.DataStream.WriteToNetPoll` | lib/PgSQL_Data_Stream.cpp:1313-1407 | the path taken, how much it offers and how much the kernel takes determine exactly what moves from the pending stream to the wire |
| `DirectWrite.DataStream.Serve` | include/PgSQL_Data_Stream.h:95-137 | for every sequence of queueing, buffering and writing, each event does exactly what the step relation says, and the wire followed by what is pending is all packets queued, in order |
| `DirectWrite.StreamKept` | include/PgSQL_Data_Stream.h:251-296 | along every trace, wire and pending bytes together are everything queued, in order, and the wire only grows |
| `DirectWrite.ProgressExact` | include/PgSQL_Data_Stream.h:95-137 | a fill and a write that the kernel accepts send at least one byte exactly when the socket has not failed and no empty packet blocks the direct path, or something is pending on the buffered path and no packet is half-way through a direct write |
| `DirectWrite.BatchGoesDirect` | lib/PgSQL_Data_Stream.cpp:1090-1142 | on an open stream with nothing buffered, two packets, one too large for the buffer, or the rest of a cut one go directly, and a write offers what the first 64 packets still have to send, up to the budget or 32768 bytes |
| `DirectWrite.RoundsDrain` | include/PgSQL_Data_Stream.h:95-137 | without empty packets, as many accepted rounds as there are pending bytes put all of them on the wire, in order |
| `BindValues.RoundTrip` | include/PgSQL_Extended_Query_Message.h:98-205 | any list of values, encoded anywhere in a packet, is read back, NULL and empty kept apart, ending at its last byte |
| `BindValues.ReadIsEncoding` | include/PgSQL_Extended_Query_Message.h:130-205 | conversely, what is read completely is the encoding of what was read |
| `BindValues.EncodingIsInjective` | include/PgSQL_Extended_Query_Message.h:130-205 | different lists of the same length have different encodings |
| `BindValues.FieldReader.Next` | include/PgSQL_Extended_Query_Message.h:153-202 | length, pointer, cursor and count for NULL, empty, non-empty and over-long fields |
| `BindValues.ReadAll` | lib/PgSQL_Connection.cpp:3152-3170 | the binding loop returns all values, or those before the first length it refuses, or leaves the packet exactly when the list is truncated |
| `BindValues.CheckValues` | lib/PgSQL_Extended_Query_Message.cpp:374-395 | the parser's walk in 32-bit arithmetic: every complete list is accepted with its exact end, and up to 2^31 bytes every truncated one is rejected |
| `BindValues.CheckOne` | lib/PgSQL_Extended_Query_Message.cpp:379-393 | one turn of that walk, with the wrap-around of its sum |
| `BindValues.WalkExact` | lib/PgSQL_Extended_Query_Message.cpp:374-395 | the walk accepts every complete list with its exact end, and a truncated one exactly when the sum wraps at the first field that cannot be read and the walk carries on from there |
| `BindValues.SoundExactlyUpTo2G` | lib/PgSQL_Extended_Query_Message.cpp:299-319 | the walk rejects every truncated list in packets of a size exactly when that size is at most 2^31 bytes |
| `BindValues.OverrunningIsAccepted` | lib/PgSQL_Extended_Query_Message.cpp:388-392 | for every larger size, a value that runs past the end of the packet and passes the walk |
| `BindValues.BindParameters` | lib/PgSQL_Connection.cpp:3152-3170 | check, then bind: complete lists are bound as sent, an over-long length is refused or rejected as the walk decides, a truncated list is rejected unless the walk wraps, and up to 2^31 bytes nothing outside the packet is read |
| `BindValues.OverlongLengthIsWalkedBack` | lib/PgSQL_Extended_Query_Message.cpp:388-392 | an over-long length makes the 32-bit sum step back, and the reader refuses it |
| `BindMessage.ParseBind` | lib/PgSQL_Extended_Query_Message.cpp:290-424 | the whole parser accepts exactly the packets the lemmas below describe, with the places of their parts |
| `BindMessage.MessageRoundTrip` | lib/PgSQL_Extended_Query_Message.cpp:290-424 | every message that fits a packet is accepted, its parts where they were put, and its values are what is read |
| `BindMessage.AcceptedIsEncoding` | lib/PgSQL_Extended_Query_Message.cpp:290-424 | conversely, an accepted packet whose values can be read to where the parser ends them is the encoding of a message with these values |
| `BindMessage.OverrunningMessageIsAccepted` | lib/PgSQL_Extended_Query_Message.cpp:374-419 | for every size above 2^31, a message the whole parser accepts although its values leave the packet |
| `BindMessage.MessagesSoundExactlyUpTo2G` | lib/PgSQL_Extended_Query_Message.cpp:299-419 | the parser accepts no packet of a size with values beyond its end exactly when the size is at most 2^31 bytes |
| `BindMessage.BindPacket` | lib/PgSQL_Connection.cpp:3152-3170 | parse, then bind: what a client encoded is what is bound, and up to 2^31 bytes nothing outside the packet is read, whatever was sent |
| `Chunker.ParseChunking` | RAG_POC/rag_ingest.cpp:564-609 | every configuration becomes usable: missing settings are the defaults, usable ones are kept, a minimum above the chunk size included, an unusable size is the default and an overlap that is too large a quarter of the size |
| `Chunker.ChunkText` | RAG_POC/rag_ingest.cpp:759-810 | the chunks are the windows up to the end, the last one merged when it is too short; short or unchunked text is one chunk |
| `Chunker.RebuildsExactly` | RAG_POC/rag_ingest.cpp:759-810 | dropping overlaps gives back the whole text exactly when min_chunk_size <= chunk_size or length <= 2*chunk_size - overlap, and otherwise exactly the first 2*chunk_size - overlap characters |
| `Chunker.CountsExactly` | RAG_POC/rag_ingest.cpp:777-806 | 1 + ceil((length - chunk_size)/step) chunks, one fewer when the tail is merged |
| `Chunker.ChunkSizes` | RAG_POC/rag_ingest.cpp:783-806 | all chunks but the last are full, the last is at least the minimum, a merged one exceeds a chunk by less than the minimum |
| `Chunker.ChunkContent` | RAG_POC/rag_ingest.cpp:783-806 | every chunk but the last is the text of one chunk size from a multiple of the step on |
| `Projection.EvalConcat` | RAG_POC/rag_ingest.cpp:694-715 | the method computes what the next three rows describe |
| `Projection.PartsInOrder` | RAG_POC/rag_ingest.cpp:700-714 | the evaluation throws exactly when some part does, and otherwise joins the texts of the parts in their order |
| `Projection.PartsConcat` | RAG_POC/rag_ingest.cpp:700-714 | two lists of parts one behind the other give their texts one behind the other, or the type error of either |
| `Projection.ItemText` | RAG_POC/rag_ingest.cpp:703-712 | a column gives its value or nothing, a literal itself, the chunk body the chunk where it is allowed and asked for, anything else nothing |
| `Projection.PartFailsExactly` | RAG_POC/rag_ingest.cpp:701-712 | a part throws exactly when the first of its recognised keys has a value of the wrong type; a part that is no object adds nothing |
| `Projection.BuildMetadata` | RAG_POC/rag_ingest.cpp:722-752 | picked columns, then the renames in order |
| `Projection.PickedExact` | RAG_POC/rag_ingest.cpp:726-733 | the picked columns are exactly the requested ones the row has, with the row's values |
| `Projection.RenameExact` | RAG_POC/rag_ingest.cpp:741-748 | a rename moves one value to its new key, over what was there, and leaves the others; a rename to itself loses the key |
| `Projection.RenamedConcat` | RAG_POC/rag_ingest.cpp:741-748 | renames happen one after the other in the configuration's order |
| `Projection.ApplyFormat` | RAG_POC/rag_ingest.cpp:667-688 | literals and column texts in order; an unclosed brace is a literal |
| `Projection.FormatRoundTrip` | RAG_POC/rag_ingest.cpp:667-688 | a format written from characters and columns gives those characters and the columns' values, in order |
| `Projection.BuildDocument` | RAG_POC/rag_ingest.cpp:1424-1459 | each field of the document, failing exactly when title or body does |
| `Projection.MappedDocument` | RAG_POC/rag_ingest.cpp:1424-1460 | id, title, body and metadata come from their own entries of the mapping |
| `Projection.UnmappedDocument` | RAG_POC/rag_ingest.cpp:1424-1460 | without a mapping the table and the primary key name the document, and it is empty |
| `Projection.EmbeddingInputExact` | RAG_POC/rag_ingest.cpp:1466-1477 | nothing when disabled, the chunk alone without a concat, and what the parts say otherwise |
| `Projection.CollectNeededColumns` | RAG_POC/rag_ingest.cpp:886-907 | every mentioned column once, the primary key first |
| `Projection.MentionedExact` | RAG_POC/rag_ingest.cpp:886-907 | a column is collected exactly when it is the primary key, named in the title, body or embedding parts, or picked |
| `Projection.AddAll` | RAG_POC/rag_ingest.cpp:870-884 | new names are appended, none twice |
| `Projection.ProjectionPreservesDocument` | RAG_POC/rag_ingest.cpp:1424-1477 | from any selection that includes the collected columns, title, body, metadata, primary key and embedding input are those of the full row, type errors included |
| `Projection.DocIdAgreesExactly` | RAG_POC/rag_ingest.cpp:1427-1433 | the id agrees exactly when every column its format names is selected, absent or empty |
| `Projection.DocIdSafeExactly` | RAG_POC/rag_ingest.cpp:1427-1433 | the id agrees for every row exactly when every column of the format is selected |
| `Projection.FormatColumnsAreNotCollected` | RAG_POC/rag_ingest.cpp:886-907 | a mapping for which the collected columns give an empty id |
| `EmbeddingBatch.Ingest.Flush` | RAG_POC/rag_ingest.cpp:1535-1564 | the batch's rows are stored, the buffer is empty, nothing else changes |
| `EmbeddingBatch.Ingest.Accept` | RAG_POC/rag_ingest.cpp:1749-1757 | one more chunk is accounted for and the buffer stays below a batch |
| `EmbeddingBatch.Ingest.IngestAll` | RAG_POC/rag_ingest.cpp:1736-1777 | the batches are all chunks in order, cut at the batch size, and the table is what the provider returned for them |
| `EmbeddingBatch.FlushCount` | RAG_POC/rag_ingest.cpp:1752-1777 | N chunks take exactly ceil(N/B) flushes |
| `EmbeddingBatch.OneRowPerChunk` | RAG_POC/rag_ingest.cpp:1551-1557 | with one vector per input every chunk gets one row, in chunk order |
| `EmbeddingBatch.BatchSizeIsInvisible` | RAG_POC/rag_ingest.cpp:1535-1564 | if a vector depends only on its text, the table does not depend on the batch size |
| `EmbeddingBatch.RowsAreMissingExactlyWhenShort` | RAG_POC/rag_ingest.cpp:1551-1561 | rows are missing exactly when some batch came back short, although the count reported is the batch size |

## Left out

- The reservation protocol works on values: `ReservationServer`, `ReservationProtocol` and `ReservationRuns` treat each `pool_mutex` section as one step of a state machine, so update in place and lock order are not captured there. The lists and the request indexes themselves are classes.
- `ConnectionList` keeps the stored position per list, while the code keeps one field on the connection that both lists share. A list's `View()` is the slot sequence that `ReservationServer` calls `free` or `used`; that a server is two such lists and its maps is not stated as a class. An index that drifted while the lengths agree is repaired by `RemoveMatching` only, as in the code.
- `ReservationServer.TakeSlotKeeps` covers every choice of an eligible FREE connection; the scoring that chooses among them, and the marking of trim candidates, are not modelled.
- `ReadYourWrites.SessionsNeverGoBack` assumes a rule for publishing that the code does not follow; `SoundRulesExactly` says which rules would do. It models strict waits; a best-effort wait that times out reads stale data by design. The freshness window, which only removes bypasses, and the sticky unknown-position flags are not modelled.
- `WriterEpoch.EpochSafety` assumes that monitor updates start with harmless samples, which the code does not enforce; `MonitorSectionExact` says exactly when that matters. RFQs from servers outside the group are not modelled.
- `WriterProgress.RfqSectionIsItsSteps` describes an update that the worker does not coalesce with an earlier one; a coalesced one stores nothing.
- `LsnCells.SampleNotOlderThanItsTime` does not model the one-millisecond coalescing of timestamps.
- `ServerSnapshots` leaves out shutdown, which clears everything after the threads have stopped, and the 64-bit wrap of the generation.
- `SplitXids` lets an aborted batch leave anything on the backend, and takes the release of a connection as one of the steps, also where the code would destroy the connection; which session uses it is not modelled. That the failure handler releases on each of its paths is read off its code and is a condition on runs, not a proof about the handler.
- `WrappedQuery` does not model the timeout counters, the notices, or the withholding of FATAL errors from the client.
- `DirectWrite.DataStream` models the plain-text path of a frontend stream: TLS, mirror sessions, packet ownership and the poll registration are outside it. A refused buffered send is a failure or not as the environment says; the code decides by the poll flags.
- `BindMessage` keeps format codes as the bytes they travel in; the two fixed-width field readers are simpler versions of the value reader. Reading beyond the packet is an outcome of `ReadAll`; what the bytes there would be is not modelled.
- `Chunker.ChunkText` uses unbounded integers; the code's `int` arithmetic agrees for texts and settings whose sums stay below 2^31.
- `Projection` treats JSON text output as a function of the value, and takes the configuration as already parsed.
- `EmbeddingBatch` leaves out which documents are skipped as unchanged; updating and removing documents, hashes and vectors' contents are not modelled.
- Explicit transactions, hostgroup routing, query classification, warm-up, prepared statements, caches, statistics and the admin and REST interfaces would add members without harder properties.
