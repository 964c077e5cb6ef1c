# Verification of the forecast platform's serving core

A Dafny model of the parts of the platform that decide what a reader may see, and proofs about it.

* **The SHARED reader gate** (`GateProtocol`, `GateInvariant`, `GateSafety`, `GateTheorems`, `GateAnswers`,
  `ReaderGate`, `ReaderGateSpec`). Threads share one advisory lock per store through reference-counted leases, behind
  an admission semaphore and a shutdown lifecycle. Every block under a lock is one step, every database call may
  succeed, time out or break, and writers are an environment that takes EXCLUSIVE only when nobody holds SHARED. The
  classes of `ReaderGate` carry out the same functions the steps of the protocol are made of.
* **The serving caches** (`Lru`, `StoreCache`, `CacheProtocol`, `CacheAnswers`, `ShardedReader`, `PlainStore`,
  `ChunkWindows`, `ShardWriter`). A recency-ordered handle cache with one opener per key, and a reader that stacks
  three such caches over a sharded store. Cached reads are compared with a plain read that keeps nothing, and that
  with what ingestion wrote.
* **The lifecycle algebra** (`CanonicalFence`, `CanonicalSources`, `SourceNames`, `CanonicalBulk`, `Coverage`,
  `ServingWindow`, `ShardKeys`, `Decimal`, `Text`). Reclamation fences, source selection, the serving window, cycle
  expiry, object keys.
* **Numeric kernels** over exact integers and reals (`VectorField`, `VectorLayout`, `WindRose`, `WindMeaning`, `Wilson`,
  `CloudReconstruction`, `Precipitation`, `Arrays`).

`dafny verify dfyconfig.toml` checks all files.

Where the code and its documentation differ, the code is followed:

* An ensemble lead whose last variable is fenced keeps an empty variable set, which the selector reads as "carries
  everything". `CanonicalSources.SelectionAfterFencing` says exactly when the selection is nevertheless right, and
  `CanonicalSources.HollowEnsembleLeadIsSelected` gives a case where it is not.
* `protected_valid_times` steps by the cadence from the boundary, while the protected grid starts anew at midnight.
  `ServingWindow.ListingIsExact` says exactly when the two agree.
* `is_valid_time_protected` takes the boundary on its own cadence argument even when a model is named, and callers that
  name a model leave that argument at 3. `ServingWindow.CadenceArgument` says exactly when this agrees with the model's
  own boundary, and `ServingWindow.DefaultCadenceDiffers` gives a case where it does not.
* Cache keys join generation and shard with `::`. `PlainStore.GenerationsThatClash` says exactly when two generations can
  share one; the reader is proved transparent for any generations no two of which do.
* The magic number of a shard is written low byte first, so it stands in the file as RAHS, not as SHAR
  (`ShardWriter.TrailerOfFullShard`).
* Temperatures are accepted by the precipitation classifier and not used.

## Model

| member | source | states |
|---|---|---|
| GateTheorems.ReadersExcludeWriters | services/api/src/api/core/reader_gate.py:505-561 | In every state of every run, a thread inside the callback has an ACTIVE lease of its own store whose connection holds that store's SHARED gate, and no writer holds EXCLUSIVE on it. |
| GateTheorems.RevalidationDecides | services/api/src/api/core/reader_gate.py:244-521 | A creator's step out of revalidation goes on to ACTIVE if and only if it read, on its live connection, a row of its own store whose status is ready, processing or partial; any other row read there ends as a run that is not ready, a raising query or a lost connection as another error. |
| GateTheorems.OnlyRevalidationReads | services/api/src/api/core/reader_gate.py:244-266 | The row recorded for a lease is what its creator read while revalidating it; no other step changes it. |
| GateTheorems.ReadersReadReadableRuns | services/api/src/api/core/reader_gate.py:496-565 | In every state of every run, a thread inside the callback has a lease whose creator read a row of that very store with status ready, processing or partial. |
| GateTheorems.DroppedConnectionNeverActivates | services/api/src/api/core/reader_gate.py:151-272 | When the admission unlock fails after the gate was taken, the session keeps believing in a gate its dropped connection no longer has, and every next step of the creator is a failure: the assertion in `revalidate` stops it. |
| GateTheorems.RefCountIsReaders | services/api/src/api/core/reader_gate.py:391-431 | In every reachable state a lease's count is the number of threads that joined it and have not left. |
| GateTheorems.ReleasedExactlyOnce | services/api/src/api/core/reader_gate.py:416-431 | No lease is released twice, an ACTIVE one not at all, and a dead one nobody drives any more exactly once, after which it holds no connection and no gate. |
| GateTheorems.LastReaderCloses | services/api/src/api/core/reader_gate.py:416-431 | An ACTIVE lease leaves that state only by its single remaining reader's exit, which closes it and takes over its release. |
| GateTheorems.DeadLeasesStayDead | services/api/src/api/core/reader_gate.py:357-431 | No step revives a FAILED or CLOSED lease or adds a reader to it. |
| GateTheorems.RegistryRespected | services/api/src/api/core/reader_gate.py:391-431 | A step changes an entry of the lease table only by putting a new lease there or by removing a dead one, so the exit of a replaced lease never removes its successor. |
| GateTheorems.PooledConnectionsHoldNothing | services/api/src/api/core/reader_gate.py:229-242 | In every reachable state a connection lying in the pool holds no advisory lock. |
| GateTheorems.ConnectionsComeFromCheckout | services/api/src/api/core/reader_gate.py:151-156 | A session gets a connection only from a checkout, which takes one occurrence of it out of the pool or makes a new one. |
| GateTheorems.ConnectionsLeaveCleanOrDropped | services/api/src/api/core/reader_gate.py:172-242 | A step whose lock call breaks or whose unlock is not confirmed drops the connection and leaves the pool alone; any other step that parts a session from its connection returns it to the pool with no lock held. |
| GateTheorems.AdmissionBoundsReaders | services/api/src/api/core/reader_gate.py:434-565 | Permits in the semaphore plus permits held equal the limit, the active count equals the number of calls inside, and at most the limit of gated reads run at once. |
| GateTheorems.DrainedStays | services/api/src/api/core/reader_gate.py:73-84 | Once drained during shutdown the lifecycle stays drained in all later states. |
| GateTheorems.NoReaderAfterDrain | services/api/src/api/core/reader_gate.py:54-89 | After shutdown began and the drain wait returned, no thread is inside a counted call or the callback in any later state. |
| GateTheorems.QuietMeansClean | services/api/src/api/core/reader_gate.py:462-565 | Whenever no call is in progress, on whatever paths the calls ended, all permits are back, the table is empty and every lease was released once and holds no connection. |
| GateAnswers.CheckoutAnswers | services/api/src/api/core/reader_gate.py:151-156 | In every reachable state a checkout may raise anything and may hand out exactly the pooled connections and new ones. |
| GateAnswers.LockAnswers | services/api/src/api/core/reader_gate.py:172-199 | In every reachable state a lock call may time out or break, and may be granted exactly when no writer holds the lock it asks for, admission first and the gate second. |
| GateAnswers.UnlockAnswers | services/api/src/api/core/reader_gate.py:200-229 | In every reachable state every unlock call made may be confirmed, refused or break. |
| GateAnswers.QueryAnswers | services/api/src/api/core/reader_gate.py:252-261 | The revalidation query may read any row or none, and may raise. |
| GateAnswers.PlainAnswers | services/api/src/api/core/reader_gate.py:505-565 | At every other position of a lease the call goes on by itself, so no call is stuck. |
| GateAnswers.WaiterAnswers | services/api/src/api/core/reader_gate.py:537-546 | A joiner's deadline can strike exactly while its lease is initialising, and then some thread is setting that lease up. |
| GateAnswers.CallAnswers | services/api/src/api/core/reader_gate.py:496-565 | Outside a lease a call always goes on; a new one starts exactly when a permit is left. |
| GateAnswers.WriterAnswers | services/api/src/api/core/reader_gate.py:1-18 | A writer gets EXCLUSIVE on a lock exactly while no other writer, no lease's connection and no pooled connection holds it. |
| GateAnswers.ShutdownAnswers | services/api/src/api/core/reader_gate.py:73-84 | Shutdown may begin at any time, and in every reachable state its wait may return exactly when no call is inside. |
| GateAnswers.JoinsOrCreates | services/api/src/api/core/reader_gate.py:391-413 | A call joins the registered lease exactly while that is young and INITIALIZING or ACTIVE; otherwise it registers a new INITIALIZING one and becomes its creator. |
| GateAnswers.CreatorSettles | services/api/src/api/core/reader_gate.py:151-199 | A creator fails with what checkout raised, with a timeout when a lock call timed out, with a missing run when the row read is not readable, and with another error when a lock call or the query broke. |
| GateAnswers.JoinerSettles | services/api/src/api/core/reader_gate.py:537-557 | A joiner leaves with a timeout at its deadline; from a failed lease with its missing run or timeout, or another error for anything else; an ACTIVE lease lets it into the callback. |
| GateAnswers.CallbackSettles | services/api/src/api/core/reader_gate.py:559-565 | After the callback the outcome is its value or exactly what it raised. |
| GateAnswers.CallSettles | services/api/src/api/core/reader_gate.py:505-509 | Outside a lease an outcome is settled only by entering while closing and by a path without lock keys. |
| GateAnswers.OutcomeIsHandedOut | services/api/src/api/core/reader_gate.py:496-565 | Over every run, an outcome once settled is the one the call hands out, whatever clean-up lies in between. |
| GateAnswers.ValuesComeFromCallbacks | services/api/src/api/core/reader_gate.py:559-565 | Over every run, a call that hands out a value had its own callback return one within it. |
| GateAnswers.LeaseErrorIsCreators | services/api/src/api/core/reader_gate.py:522-526 | Over every run, the error of a failed lease is the failure its creator met. |
| GateAnswers.RunsGrow | services/api/src/api/core/reader_gate.py:57-60 | Runs start from an empty gate with any limit and any threads, and every possible step extends them. |
| GateSafety.RunInvariant | services/api/src/api/core/reader_gate.py:391-565 | The invariant behind these results holds in every state of every interleaving of creators, joiners, timed-out waiters, failures and writers. |
| GateSafety.NextKeepsInv | services/api/src/api/core/reader_gate.py:391-565 | Every single step of every thread, of the shutdown and of a writer keeps the invariant. |
| GateInvariant.StepGuarantee | services/api/src/api/core/reader_gate.py:496-565 | What each position of a call promises the other threads: its own count, its own driving role, untouched state of others, and the rules for connections and the table. |
| GateInvariant.OtherThreadKeeps | services/api/src/api/core/reader_gate.py:357-372 | A thread of the same lease keeps what it relies on while another one takes a step. |
| ReaderGate.ReaderGateSession.InvalidateConn | services/api/src/api/core/reader_gate.py:231-237 | The connection is invalidated, not pooled, and the session has none. |
| ReaderGate.ReaderGateSession.CloseConn | services/api/src/api/core/reader_gate.py:239-242 | The connection goes to the pool with whatever locks it holds, and the session has none. |
| ReaderGate.ReaderGateSession.AcquireShared | services/api/src/api/core/reader_gate.py:172-199 | A granted lock is added, a lock timeout only raises, any other failure invalidates the connection; the new state is that of the protocol's lock step. |
| ReaderGate.ReaderGateSession.ReleaseShared | services/api/src/api/core/reader_gate.py:200-229 | A confirmed unlock removes one hold, any other answer invalidates the connection; the new state is that of the protocol's unlock step. |
| ReaderGate.ReaderGateSession.Acquire | services/api/src/api/core/reader_gate.py:151-170 | For every answer of the four calls: success exactly when both locks were granted; the connection is invalidated exactly when a lock call broke or the admission unlock was not confirmed; a pooled one holds nothing; no connection is forgotten. |
| ReaderGate.ReaderGateSession.Release | services/api/src/api/core/reader_gate.py:268-272 | Afterwards the session has no connection and no gate; the connection was pooled empty if the unlock was confirmed and invalidated otherwise. |
| ReaderGate.StoreGateLease.TryJoin | services/api/src/api/core/reader_gate.py:398-408 | Joins an INITIALIZING or ACTIVE lease by one and refuses any other. |
| ReaderGate.StoreGateLease.MakeActive | services/api/src/api/core/reader_gate.py:519-521 | The creator's activation, equal to the protocol's. |
| ReaderGate.StoreGateLease.MakeFailed | services/api/src/api/core/reader_gate.py:522-526 | The creator's failure with its error, equal to the protocol's. |
| ReaderGate.StoreGateLease.GiveUp | services/api/src/api/core/reader_gate.py:537-549 | A waiter's departure, equal to the protocol's. |
| ReaderGate.StoreGateLease.Exit | services/api/src/api/core/reader_gate.py:416-424 | A reader's exit, equal to the protocol's; the last one closes the lease. |
| ReaderGate.LeaseTable.AcquireOrJoin | services/api/src/api/core/reader_gate.py:391-413 | Joins the registered lease exactly when it is young and alive; otherwise registers a new INITIALIZING one in its place and touches no other count. |
| ReaderGate.LeaseTable.Remove | services/api/src/api/core/reader_gate.py:416-431 | Removes the key only while this very lease is registered under it. |
| ReaderGate.LeaseTable.ExitLease | services/api/src/api/core/reader_gate.py:416-431 | The last reader closes, unregisters its own entry only and releases the session; every other reader only counts down. |
| ReaderGate.ReaderGateLifecycle.Enter | services/api/src/api/core/reader_gate.py:62-66 | Raises exactly once closing, and moves the lifecycle by the same function as the protocol's entering step. |
| ReaderGate.ReaderGateLifecycle.Exit | services/api/src/api/core/reader_gate.py:68-71 | Moves the lifecycle by the same function as the protocol's leaving step, on which the conservation of the active count rests. |
| ReaderGate.ReaderGateLifecycle.BeginShutdown | services/api/src/api/core/reader_gate.py:73-75 | Moves the lifecycle by the same function as the protocol's shutdown step. |
| Lru.CacheIsMostRecent | services/api/src/api/core/store_cache.py:157-199 | After any sequence of lookups a cache of capacity n holds exactly the n most recently used distinct keys, in that order. |
| Lru.RecencyOrder | services/api/src/api/core/store_cache.py:158-195 | That order lists every key ever looked up, each in the order of its last lookup. |
| Lru.CachedIffRecentEnough | services/api/src/api/core/store_cache.py:157-199 | A key is cached exactly when it was looked up and fewer than n distinct keys were used since. |
| Lru.LargerCacheHitsMore | services/api/src/api/core/store_cache.py:134-199 | On the same sequence every hit of a smaller cache is a hit of a larger one. |
| StoreCache.StoreHandleCache.BeginLookup | services/api/src/api/core/store_cache.py:156-168 | A hit moves to the end and counts; otherwise the caller follows the flight of its key or leads a new pending one. |
| StoreCache.StoreHandleCache.FinishRaised | services/api/src/api/core/store_cache.py:183-188 | The key leaves the flights, its followers get the error and no entry changes. |
| StoreCache.StoreHandleCache.FinishOpened | services/api/src/api/core/store_cache.py:189-199 | The eviction loop leaves the last entries that fit, with the new one newest, and the followers get the same dataset. |
| StoreCache.StoreHandleCache.GetOrOpen | services/api/src/api/core/store_cache.py:143-199 | Lookups one at a time hit exactly on the most recently used keys, count hits and opened misses, and change nothing when the opener raises. |
| StoreCache.HitTracks | services/api/src/api/core/store_cache.py:158-162 | A hit keeps the entries equal to the most recently used keys. |
| StoreCache.MissTracks | services/api/src/api/core/store_cache.py:189-195 | A published miss keeps the entries equal to the most recently used keys. |
| CacheProtocol.RunInvariant | services/api/src/api/core/store_cache.py:143-199 | The invariant behind the results on the handle cache holds in every state of every interleaving of lookups, openers and followers. |
| CacheProtocol.NextKeepsInv | services/api/src/api/core/store_cache.py:143-199 | Every critical section and every opener outcome keeps the invariant. |
| CacheProtocol.OneOpenerPerKey | services/api/src/api/core/store_cache.py:164-182 | At most one thread runs an opener for a key. |
| CacheProtocol.CacheStaysBounded | services/api/src/api/core/store_cache.py:189-199 | Between critical sections the cache fits its capacity, caches no key twice and no key that is in flight. |
| CacheProtocol.CacheHoldsMostRecentlyUsed | services/api/src/api/core/store_cache.py:157-199 | In every state of every interleaving the cache holds exactly the most recently used keys that fit, in order, a use being a hit or a publication. |
| CacheProtocol.OnlyOpenedDatasets | services/api/src/api/core/store_cache.py:170-199 | Every dataset cached or handed out for a key came from a successful opener run for that key. |
| CacheProtocol.FailedOpenLeavesNothing | services/api/src/api/core/store_cache.py:183-188 | After a failed open its key is neither cached nor in flight and no entry moved. |
| CacheProtocol.FollowersHaveALeader | services/api/src/api/core/store_cache.py:170-178 | While a follower's flight is pending some thread leads it. |
| CacheAnswers.CallAnswer | services/api/src/api/core/store_cache.py:143-199 | How every call of every interleaving ends: a cached key at once with the cached dataset as a hit; otherwise with the dataset its flight opened, a hit exactly for a follower, or with exactly the error its flight's opener raised. |
| CacheAnswers.OutcomesAreFinal | services/api/src/api/core/store_cache.py:182-199 | A flight lands once: later states keep its key, its leader and its outcome. |
| CacheAnswers.OutcomeIsOpeners | services/api/src/api/core/store_cache.py:181-199 | The outcome of a landed flight is what the opener of its leader answered in an earlier step. |
| CacheAnswers.LeaderHandsOut | services/api/src/api/core/store_cache.py:181-199 | A leader returns its own opener's dataset, not as a hit, or raises its own opener's error, and its flight lands with the same. |
| CacheAnswers.NobodyIsStuck | services/api/src/api/core/store_cache.py:157-199 | In every reachable state every thread can take its next step, whatever an opener answers; only a follower of a pending flight waits, and then a thread leads that flight. |
| CacheAnswers.RunsGrow | services/api/src/api/core/store_cache.py:134-141 | Runs start from an empty cache of any capacity with any threads, and every possible step extends them. |
| PlainStore.BilinearMeaning | services/api/src/api/core/zarr.py:133-149 | The blend is the convex combination of the four corners, and NaN exactly when one of them is. |
| ShardWriter.IndexMeaning | services/api/src/api/core/zarr.py:338-372 | What the reader takes from the end of a shard: entry k is the offset in bytes 16k to 16k+7 and the length in the next eight, low byte first, of the last 1932 bytes; a shorter object has no index. |
| ShardWriter.BuildShardedV1Container | services/ingestion/src/ingestion/core/zarr_writer.py:623-651 | The two loops lay out the non-empty chunks one after the other, then an entry per chunk, then the trailer. |
| ShardWriter.TrailerOfFullShard | services/ingestion/src/ingestion/core/zarr_writer.py:644-649 | A container of 120 chunks is 1932 bytes longer than its payload and ends in the count, the size of the index and the magic number, each low byte first. |
| ShardWriter.WrittenIndex | services/ingestion/src/ingestion/core/zarr_writer.py:623-651 | The reader finds in a written container exactly the offset and length the writer entered for every chunk. |
| ShardWriter.ContainerRoundTrip | services/api/src/api/core/zarr.py:374-428 | Chunk (row, col) of a written container reads as the decoding of exactly the bytes the writer was given as chunk 15 row + col, and as NaN where it was given none. |
| ShardWriter.FillChunk | services/ingestion/src/ingestion/core/zarr_writer.py:690-707 | The chunk buffer is NaN except for the part of the array that reaches into it. |
| ShardWriter.EncodeRegion | services/ingestion/src/ingestion/core/zarr_writer.py:663-720 | The loops over chunk rows and columns put the compressed chunks of the array in row-major order into one container. |
| ShardWriter.WrittenCellIsRead | services/api/src/api/core/zarr.py:430-455 | What was written is read: under lossless compression the value at every (lat, lon) of the chunk grid is the cell of the array that was encoded, and NaN beyond it. |
| ShardWriter.WrittenCornersAreRead | services/api/src/api/core/zarr.py:495-526 | The four corners of an interpolation are the array's cells at (lat0, lon0), (lat0, lon1), (lat1, lon0) and (lat1, lon1). |
| PlainStore.IndexKeyUnique | services/api/src/api/core/zarr.py:316-340 | Two keys of the index cache are equal only for the same shard and, unless two generations clash, the same generation. |
| PlainStore.ChunkKeyUnique | services/api/src/api/core/zarr.py:374-399 | Two keys of the chunk cache are equal only for the same shard and chunk and, unless two generations clash, the same generation. |
| PlainStore.GenerationsThatClash | services/api/src/api/core/zarr.py:316-340 | For every two generations: some field under one and some field under the other share an index key if and only if they clash, that is, one's text with its separator begins the other's. |
| PlainStore.OrdinaryIsSeparable | services/api/src/api/core/zarr.py:316-340 | Generations that are not empty, not spelt `live`, contain no `::` and do not end in a colon never clash, so one reader may serve them all together with none. |
| ShardedReader.ShardedV1Reader.GetShardIndex | services/api/src/api/core/zarr.py:316-372 | Returns the index parsed from the stored shard, cached or not, with other threads reading in between, for any generations no two of which clash; a hit moves to the end, and an index that was read is cached. |
| ShardedReader.InsertEvictsOldest | services/api/src/api/core/zarr.py:367-370 | Inserting into a cache within its capacity keeps the last entries that fit with the new one newest; a key that was there keeps its place. |
| ShardedReader.ShardedV1Reader.CachesStayBounded | services/api/src/api/core/zarr.py:367-370 | The three caches stay within their capacities. |
| ShardedReader.ShardedV1Reader.AbsentShardIsNotCached | services/api/src/api/core/zarr.py:340-360 | An absent shard is never in the index cache: every read looks for it again. |
| ShardedReader.ShardedV1Reader.ReadChunk | services/api/src/api/core/zarr.py:374-428 | Returns the chunk an uncached read returns: NaN outside the grid, for an absent shard and for an empty entry, a failure when it cannot be decoded; a chunk of a shard that was read is cached. |
| ShardedReader.ShardedV1Reader.ReadPointValue | services/api/src/api/core/zarr.py:430-455 | Returns the cell an uncached read returns. |
| ShardedReader.ShardedV1Reader.ReadCorners | services/api/src/api/core/zarr.py:495-526 | The one-chunk fast path and the four reads give the same four stored cells. |
| ShardedReader.ShardedV1Reader.InterpolatePoint | services/api/src/api/core/zarr.py:457-532 | The bilinear blend of the four stored cells, for any call history, any capacities and other threads in between; the corners are cached, whatever the weights. |
| ShardedReader.ShardedV1Reader.ReadWindow | services/api/src/api/core/zarr.py:583-649 | Cell by cell the plain point value on the grid and NaN off it; fails exactly for a negative extent or when some cell's chunk cannot be decoded. |
| ShardedReader.ShardedV1Reader.WindowCell | services/api/src/api/core/zarr.py:583-649 | The cell of a window's answer is the plain value for 0 <= lat < 721 and 0 <= lon < 1440 and NaN elsewhere. |
| ChunkWindows.FailingCell | services/api/src/api/core/zarr.py:583-649 | Only a cell of that grid whose chunk cannot be decoded makes the read of a window fail. |
| ChunkWindows.ChunkPlacements | services/api/src/api/core/zarr.py:169-210 | For every window the placements cover exactly the cells below the ends of the axes, each by one placement, from its own chunk; a window without cells gets the empty list. |
| ChunkWindows.CoveredCell | services/api/src/api/core/zarr.py:186-210 | The chunk cell a placement copies to a window cell is the grid's cell there. |
| ChunkWindows.CellIsCovered | services/api/src/api/core/zarr.py:186-210 | The chunk of every cell below the ends of the axes contributes a placement that covers it. |
| ChunkWindows.DestinationsDisjoint | services/api/src/api/core/zarr.py:169-210 | Two placements of a window that touch the same cell are the same. |
| ChunkWindows.WriteBackOrderIrrelevant | services/api/src/api/core/zarr.py:616-649 | Writing the pieces back in any order, even repeatedly, gives the same window: plain values where covered, NaN elsewhere. |
| ChunkWindows.WritePiece | services/api/src/api/core/zarr.py:640-647 | One piece is copied cell by cell and no other cell changes. |
| ShardKeys.KeyRoundTrip | packages/domain/src/domain/reclamation.py:149-173 | Parsing the shard key of a normalised target gives the target back, for every variable string and every lead. |
| ShardKeys.KeysDistinct | packages/domain/src/domain/reclamation.py:75-173 | Distinct normalised targets of a store have distinct shard keys. |
| ShardKeys.ReaderFindsDeletedKey | services/api/src/api/core/zarr.py:291-302 | The key the API reader builds is the key reclamation deletes. |
| ShardKeys.MarkerWrapsRegion | packages/domain/src/domain/locks.py:207-232 | A region marker's key is the marker directory around exactly the logical region encoding. |
| ShardKeys.ShardWrapsRegion | packages/domain/src/domain/reclamation.py:149-173 | A shard key is its variable's directory around the same region encoding. |
| ShardKeys.KeyExamples | packages/domain/src/domain/reclamation.py:149-206 | The documented spellings, for every variable: `det_L0006`, `mean_L0006` and `mem017_L0006` in shard keys, and the same encoding in a marker key. |
| Decimal.NumberRoundTrip | packages/domain/src/domain/reclamation.py:160-173 | A zero-padded number is read back from the end of any text that ends in neither a digit nor a minus. |
| Decimal.FormatShape | packages/domain/src/domain/reclamation.py:166-172 | A formatted number is the shortest numeral of at least the width: padded with zeros up to it and never beyond, the minus counting as a character. |
| CanonicalFence.BuildFenceIndex | packages/domain/src/domain/canonical.py:262-300 | One pass over a stream of rows, in any order and with repetitions, yields the projections of its set of keys. |
| CanonicalFence.IndexAnswersScan | packages/domain/src/domain/canonical.py:234-259 | Each projection answers what scanning the raw keys for the run, lead and variable, member or mean would answer. |
| CanonicalFence.NarrowMeaning | packages/domain/src/domain/canonical.py:354-401 | What is left of a surviving candidate: each variable, each member and the ensemble mean stay exactly when no raw key takes them, the rest is kept, and an ensemble lead still has at least the ratio, in ten-thousandths, of the expected members. |
| CanonicalFence.DroppedMeaning | packages/domain/src/domain/canonical.py:358-391 | A candidate is dropped exactly when, as an ensemble lead, no members are expected or its unfenced ones are fewer than the ratio, in ten-thousandths, of those expected and, outside ensembles, when every variable it names is fenced by a raw key. |
| CanonicalFence.DroppedBelowTwentySix | packages/domain/src/domain/canonical.py:358-372 | With thirty expected members and the default ratio a lead goes exactly when fewer than 26 of its members are unfenced. |
| Coverage.ThresholdIsRounded | packages/domain/src/domain/coverage.py:148-176 | A lead is servable if and only if members are expected, the count is not negative, and it is at least the expected count times the ratio taken to the nearest ten-thousandth, ties to even. |
| Coverage.ThresholdIsRatio | packages/domain/src/domain/coverage.py:148-176 | For a ratio of whole ten-thousandths: if and only if the count is at least the ratio times the expected count. |
| Coverage.ThresholdIsNearRatio | packages/domain/src/domain/coverage.py:148-176 | For every ratio the same within half a ten-thousandth, in both directions. |
| Coverage.LeastOfThirty | packages/domain/src/domain/coverage.py:148-176 | 26 of 30 members is the least that serves at the default ratio. |
| CanonicalFence.NarrowCandidate | packages/domain/src/domain/canonical.py:358-401 | The branches of the loop body compute that narrowing. |
| CanonicalFence.FilterCandidates | packages/domain/src/domain/canonical.py:355-402 | The loop over one valid time keeps the narrowed candidates in order. |
| CanonicalFence.FilterByFenceIndex | packages/domain/src/domain/canonical.py:333-405 | The filter returns the fenced schedule, unchanged when the index holds no key, without the valid times left empty otherwise. |
| CanonicalFence.FilterByPhysicalFence | packages/domain/src/domain/canonical.py:303-330 | The same from a raw key set. |
| CanonicalFence.FencesCompose | packages/domain/src/domain/canonical.py:303-405 | Fencing by one key set and then another is fencing by their union: both branches, empty sets and unrecognised kinds included. |
| CanonicalFence.NarrowTwice | packages/domain/src/domain/canonical.py:354-401 | The same for one candidate and two indexes, servability included. |
| CanonicalFence.FenceOrderIsIrrelevant | packages/domain/src/domain/canonical.py:303-405 | The order of two fences does not matter and a fence applied twice acts once. |
| CanonicalFence.LargerFenceServesLess | packages/domain/src/domain/canonical.py:303-405 | Every candidate served under a larger fence comes from one served under the smaller fence with at least its variables, product types and members, and is otherwise the same. |
| CanonicalFence.LargerFenceNeverRestores | packages/domain/src/domain/canonical.py:303-405 | Under a larger fence every valid time, candidate, variable, product type and member served was served under the smaller one, in the same order. |
| CanonicalSources.SelectionAfterFencing | packages/domain/src/domain/canonical.py:107-159 | After fencing, the selected source is the first candidate that still has what the variable needs if and only if no survivor stripped of its last variable comes before it (ascending leads, non-empty variable sets). |
| CanonicalSources.DeterministicSelection | packages/domain/src/domain/canonical.py:107-159 | For deterministic candidates it always is that candidate: unfenced, at a positive lead for interval variables and companions, with both components for `wind_10m`. |
| CanonicalSources.FencedSelection | packages/domain/src/domain/canonical.py:107-405 | The same over the whole schedule, for every key set and also for valid times fenced away. |
| CanonicalSources.HollowEnsembleLeadIsSelected | packages/domain/src/domain/canonical.py:379-388 | A concrete ensemble lead whose last variable is fenced is selected for a variable it never carried. |
| SourceNames.CompanionSource | packages/domain/src/domain/canonical.py:124-127 | For `crain`, `csnow`, `cfrzr` and `cicep`, in any spelling, the selection is the first candidate, at a positive lead if the anchor stands at lead 0, whose variables are unknown or hold `precipitation_amount_3h`. |
| SourceNames.IntervalSource | packages/domain/src/domain/canonical.py:131-144 | For `precipitation_amount_3h` and `cloud_cover_3h` it is the first such candidate whose variables are unknown or hold the variable itself. |
| SourceNames.WindSource | packages/domain/src/domain/canonical.py:146-153 | For `wind_10m` it is the first candidate, at any lead, whose variables are unknown or hold both `wind_u_10m` and `wind_v_10m`. |
| SourceNames.OrdinarySource | packages/domain/src/domain/canonical.py:155-159 | For every other name it is the first candidate, at any lead, whose variables are unknown or hold the name. |
| SourceNames.NamesAreNormal | packages/domain/src/domain/temporal.py:22-54 | The names compared with are their own lowered and stripped spelling, so the four laws cover them and every other string. |
| CanonicalSources.SelectVariableSource | packages/domain/src/domain/canonical.py:107-159 | The branches and search loops compute the selection. |
| CanonicalSources.FindFirst | packages/domain/src/domain/canonical.py:131-158 | The search loops return the first carrying candidate. |
| CanonicalBulk.ResolveBulk | packages/domain/src/domain/canonical.py:162-230 | The bulk pass enters exactly the considered valid times and the resolved variables, each with the source single resolution selects, and the interval fallbacks and companion dependencies among them. |
| CanonicalBulk.ResolvePrecipitation | packages/domain/src/domain/canonical.py:203-217 | The precipitation block enters the amount and the requested companions with one shared source. |
| CanonicalBulk.ResolveOrdinary | packages/domain/src/domain/canonical.py:219-230 | The loop enters every other variable and skips every spelling of a companion. |
| CanonicalBulk.AnchorEntries | packages/domain/src/domain/canonical.py:185-194 | The bulk answer has an anchor, the newest candidate, exactly for the valid times with candidates that are wanted and not before the start. |
| CanonicalBulk.SourceEntries | packages/domain/src/domain/canonical.py:196-218 | It has a source exactly for the amount when it or a flag in any spelling is asked for, for the flags asked for by name, and for every other variable asked for. |
| CanonicalBulk.FallbackEntries | packages/domain/src/domain/canonical.py:205-223 | It notes a fallback exactly for the two intervals with a source while the anchor stands at lead 0. |
| CanonicalBulk.DependencyEntries | packages/domain/src/domain/canonical.py:207-211 | It notes a dependency exactly for the four flags that have a source, and it is that source. |
| CanonicalBulk.RequestedIsResolved | packages/domain/src/domain/canonical.py:198-222 | A requested variable gets an entry unless it is a companion in another spelling. |
| CanonicalBulk.CompanionsFollowPrecipitation | packages/domain/src/domain/canonical.py:124-127 | A companion's source is the precipitation source. |
| CanonicalBulk.BulkNamesTheOwner | packages/domain/src/domain/canonical.py:162-230 | Over a fenced deterministic schedule the bulk answer names, for every requested variable and surviving valid time considered, the first candidate that still has what the variable needs. |
| ServingWindow.StartIsLastGridInstant | packages/domain/src/domain/temporal.py:101-151 | For every positive cadence the boundary is on the grid, not after now, and not before any other grid instant up to now. |
| ServingWindow.StartInMicroseconds | packages/domain/src/domain/temporal.py:101-151 | In microseconds: within its day the hour is floored to a multiple of the cadence and everything below it dropped. |
| ServingWindow.PlatformHorizon | packages/domain/src/domain/horizon.py:33-72 | The platform's horizon of every third hour up to 240 is a horizon with cadence three. |
| ServingWindow.StartIsMonotone | packages/domain/src/domain/temporal.py:253-256 | The boundary never moves back. |
| ServingWindow.ExitIsPermanent | packages/domain/src/domain/temporal.py:234-286 | A valid time outside the protected set stays outside at all later times, with or without a model. |
| ServingWindow.ListingIsExact | packages/domain/src/domain/temporal.py:234-324 | Under any cadence argument of the membership test, the listing is exactly the protected instants up to the model's boundary plus its last lead if and only if it fits on the model's own cadence and the argument's boundary lies behind the grid instant before the model's boundary but not behind that boundary. |
| ServingWindow.ListingOnOwnCadence | packages/domain/src/domain/temporal.py:289-324 | With the model's own cadence passed: if and only if the cadence divides a day or the window ends before the next midnight. |
| ServingWindow.CadenceArgument | packages/domain/src/domain/temporal.py:234-286 | Naming a model, the test agrees with the model's own boundary at all times if and only if the cadence passed is the model's or both are at least a day. |
| ServingWindow.DefaultCadenceDiffers | packages/domain/src/domain/temporal.py:239-286 | A six-hourly horizon, a time and a valid time for which the default cadence and the model's own give different answers. |
| ServingWindow.MissedMidnight | packages/domain/src/domain/temporal.py:319-324 | Otherwise a protected midnight is missing from it. |
| ServingWindow.ExpiredMeansUnprotected | packages/domain/src/domain/lifecycle.py:38-52 | A cycle is expired exactly when no lead up to its maximum is protected, and it stays expired. |
| ServingWindow.ExpiredModelCycle | packages/domain/src/domain/lifecycle.py:38-52 | For a model, expiry implies that no registered lead is protected at any time; the two mean the same at all times if and only if some registered lead is on the model's grid and not before the boundary taken at the cycle's end. |
| ServingWindow.LateGridLeadOnOwnCadence | packages/domain/src/domain/lifecycle.py:38-52 | On the model's own cadence that condition says that some registered lead is exactly the boundary of the cycle's end. |
| ServingWindow.OffGridCycle | packages/domain/src/domain/lifecycle.py:38-52 | A cycle one hour off the grid that is not expired although none of its leads is protected. |
| ServingWindow.HorizonShape | packages/domain/src/domain/horizon.py:82-112 | A registered horizon has a positive cadence and a non-negative last lead. |
| VectorField.DecodeEncode | packages/domain/src/domain/models/wind.py:601-742 | Decoding an encoded field gives back its metadata and its quantised cells in row-major order, for every grid. |
| VectorLayout.HeaderLayout | packages/domain/src/domain/models/wind.py:557-661 | The 36 header bytes: the text WNDQ, version 1, flag 1, a zero word, the scale, then start, step and little-endian count of the rows and of the columns. |
| VectorLayout.PayloadLayout | packages/domain/src/domain/models/wind.py:664-668 | Behind the header the quanta of the first component row by row and then those of the second, each two's complement, low byte first. |
| VectorLayout.EncodeAccepts | packages/domain/src/domain/models/wind.py:586-647 | A field is encoded if and only if both components are two-dimensional, of one shape and finite, with at least two rows and columns, steps that are not zero, a positive finite scale and a finite origin; the shape errors come in that order. |
| VectorLayout.DecodeAccepts | packages/domain/src/domain/models/wind.py:684-728 | A payload is decoded if and only if it starts with WNDQ, version 1 and flag 1, has acceptable metadata and exactly four bytes per grid point behind 36; the errors come in that order. |
| VectorField.DecodedCells | packages/domain/src/domain/models/wind.py:664-740 | Each decoded cell is within half a quantum of its input inside the representable range and the nearer end outside it; the payload is 36 bytes and two bytes a cell and component. |
| VectorField.QuantisationError | packages/domain/src/domain/models/wind.py:664-665 | A value comes back within half a quantum if and only if it lies in the representable range extended by half a quantum at both ends; beyond it the nearer end comes back. |
| VectorField.EncodeDecode | packages/domain/src/domain/models/wind.py:642-742 | Encoding what a payload decoded to reproduces it byte for byte if and only if its reserved word is zero. |
| VectorField.HeaderBytes | packages/domain/src/domain/models/wind.py:642-705 | Packing the parsed fields gives the header back exactly when its reserved word is zero. |
| VectorField.HeaderRoundTrip | packages/domain/src/domain/models/wind.py:642-705 | Parsing a packed header gives the fields back. |
| VectorField.Int16RoundTrip | packages/domain/src/domain/models/wind.py:664-668 | Two little-endian bytes and a 16-bit integer determine each other. |
| Wilson.IntervalHoldsProportion | packages/domain/src/domain/ensemble/interval.py:88-101 | Over the reals the clamps never bind: the interval lies in [0, 1], contains the proportion, and has positive width even at 0 and 1. |
| Wilson.ScaledBounds | packages/domain/src/domain/ensemble/interval.py:88-99 | The same scaled by the denominator, from the square the margin's root satisfies. |
| Wilson.EndsSolveScoreEquation | packages/domain/src/domain/ensemble/interval.py:88-101 | The ends of the interval are exactly the two solutions x of n (p - x)^2 = 1.959963984540054^2 x (1 - x), the equation that defines the score interval. |
| WindRose.ComputeWindRose | packages/domain/src/domain/models/wind.py:383-460 | The counting loops return, for every input, the error of the failed check or the rose of the members' classes. |
| WindRose.CountMembers | packages/domain/src/domain/models/wind.py:422-436 | The loop counts calm members, sectors and bins. |
| WindRose.FindBin | packages/domain/src/domain/models/wind.py:433-436 | The scan stops at the only bin that holds the speed, or at none. |
| WindRose.RoseIsConserved | packages/domain/src/domain/models/wind.py:439-460 | Calm and sector counts add up to the member count. |
| WindRose.ProbabilitiesAreShares | packages/domain/src/domain/models/wind.py:439-452 | Each probability is its count's share of the ensemble. |
| WindMeaning.RoseNames | packages/domain/src/domain/models/wind.py:40-50 | The sectors of a rose are named clockwise from north, 45 degrees apart. |
| WindMeaning.OneMemberBins | packages/domain/src/domain/models/wind.py:72-79 | A member with wind fills exactly the bin of its speed: from 0.5, 5.5, 11 and 17 metres per second, none below. |
| WindMeaning.NamedSector | packages/domain/src/domain/models/wind.py:526-531 | A bearing is counted in the sector of a name exactly when it is less than half a sector behind, or at most half a sector before, the direction the name means. |
| WindMeaning.DirectionalMeaning | packages/domain/src/domain/models/wind.py:463-553 | The probability is the number of members that are not calm, face the named direction and meet the comparison the operator's name stands for, over the number of members. |
| WindMeaning.DirectionalErrors | packages/domain/src/domain/models/wind.py:494-513 | The five errors of the checks, each exactly when its condition holds and no earlier one does. |
| WindMeaning.UnknownOperator | packages/domain/src/domain/models/wind.py:533-549 | An unknown operator is an error if and only if some member is left to compare; otherwise the probability is zero. |
| WindRose.BinsPartitionSector | packages/domain/src/domain/models/wind.py:433-436 | The bins add up to their sector if and only if no member of it has a speed from the calm threshold up to below 0.5; in particular when that threshold is at least 0.5. |
| WindRose.ComputeDirectionalProbability | packages/domain/src/domain/models/wind.py:463-553 | Errors in the order of the checks, an unsupported operator only when a member of the sector is compared; otherwise the matched share with its Wilson interval, which contains it and lies in [0, 1]. |
| WindRose.CountMatches | packages/domain/src/domain/models/wind.py:518-550 | The loop counts the members that match the sector and the comparison. |
| WindRose.DirectionAgreesWithRose | packages/domain/src/domain/models/wind.py:463-553 | Without a speed threshold the probability is the sector's in the rose. |
| WindRose.ThresholdMembers | packages/domain/src/domain/models/wind.py:533-544 | The members at the threshold itself count for at-or-above and at-or-below and for neither of the strict operators. |
| WindRose.SectorMeaning | packages/domain/src/domain/models/wind.py:428-430 | The sector of a bearing reaches half a sector to both sides of its direction, north across 0 degrees, so the eight split the circle. |
| WindRose.OperatorsSplitDirection | packages/domain/src/domain/models/wind.py:533-546 | At-or-above plus below, and above plus at-or-below, give the direction-only probability. |
| CloudReconstruction.GuardProjects | packages/domain/src/domain/models/cloud.py:165-174 | The guardrails void a value beyond the tolerance and bring any other between itself and every percentage, hence to the nearest one. |
| CloudReconstruction.GuardArray | packages/domain/src/domain/models/cloud.py:151-162 | The three masked writes compute the scalar guardrails cell by cell. |
| CloudReconstruction.ReconstructArray | packages/domain/src/domain/models/cloud.py:104-142 | The array form is the scalar form cell by cell, with the same errors. |
| CloudReconstruction.HoursRefused | packages/domain/src/domain/models/cloud.py:114-123 | Hours are refused exactly when one count is not positive or, else, when the width exceeds the period. |
| CloudReconstruction.EstimateIsExact | packages/domain/src/domain/models/cloud.py:126-142 | From exact running averages the formula gives the mean of the last W of R hours. |
| CloudReconstruction.RecoversTheMean | packages/domain/src/domain/models/cloud.py:74-174 | With averages known within e and (2R-W)e/W within the tolerance the result is never void, lies in [0, 100] and is within (2R-W)e/W of the true mean, for all 0 < W <= R. |
| CloudReconstruction.RecoversExactly | packages/domain/src/domain/models/cloud.py:74-142 | Exact averages give the exact mean, guardrails included. |
| CloudReconstruction.ToleranceIsTight | packages/domain/src/domain/models/cloud.py:126-174 | Past that tolerance, averages of a clear sky known within e can be void, at full width too. |
| Precipitation.CurrentInputsDecide | packages/domain/src/domain/models/precipitation.py:143-370 | The weights of a classified member depend on its current amount and flags only, for every predecessor, temperature and threshold; the transition is an enumerated one. |
| Precipitation.FlagsArePhases | packages/domain/src/domain/models/precipitation.py:113-140 | Rain, snow, freezing rain and ice pellets are active exactly with `crain`, `csnow`, `cfrzr` and `cicep`. |
| Precipitation.DryUpToATenth | packages/domain/src/domain/models/precipitation.py:185-350 | At the default threshold the whole weight of a member is dry exactly up to a tenth of a millimetre, inclusive. |
| Precipitation.DrySummary | packages/domain/src/domain/models/precipitation.py:172-218 | Dry exactly up to the threshold, wet-to-dry with inferred evidence exactly after a wet predecessor, unknown and ambiguous exactly without a flag; the amount is kept. |
| Precipitation.PlainSummary | packages/domain/src/domain/models/precipitation.py:221-271 | Without a comparable predecessor, or with the same single phase, one flag gives that phase, its transition and exact evidence, several give a mixed interval. |
| Precipitation.ChangeSummary | packages/domain/src/domain/models/precipitation.py:273-314 | Otherwise the interval is mixed, starts with the only earlier phase and ends with the only new one where they are unique; the change between these two is named for rain and snow, rain and freezing rain, snow and freezing rain, snow and ice pellets, and mixed for any other pair. |
| Precipitation.ComputePhaseWeights | packages/domain/src/domain/models/precipitation.py:317-370 | The loop assigns the equal split over the member's buckets. |
| Precipitation.WeightsSumToOne | packages/domain/src/domain/models/precipitation.py:335-337 | The weights of every member are in [0, 1] and add up to one. |
| Precipitation.AggregateSupport | packages/domain/src/domain/models/precipitation.py:373-404 | The nested loops add each member's shares; an empty ensemble is an error. |
| Precipitation.SupportSumsToOne | packages/domain/src/domain/models/precipitation.py:378-382 | The supports of a non-empty ensemble add up to one. |
| Precipitation.ComputeJointSupport | packages/domain/src/domain/models/precipitation.py:407-443 | The loop adds the weights of the members that reach the threshold; both errors in their order. |
| Precipitation.JointSupportIsAntitone | packages/domain/src/domain/models/precipitation.py:407-443 | Joint support is not negative, never exceeds the phase's support and can only fall as the threshold rises. |
| Precipitation.OneMemberJoint | packages/domain/src/domain/models/precipitation.py:407-443 | For one member it is its weight when its amount, zero if there is none, is at least the threshold, and zero otherwise. |
| Precipitation.JointAtZero | packages/domain/src/domain/models/precipitation.py:407-443 | At threshold zero it is the support of the phase, for amounts that are not negative. |
| Precipitation.JointSupportsAddUp | packages/domain/src/domain/models/precipitation.py:407-443 | Over all phases it adds up to the fraction of members that reach the threshold. |
| Precipitation.SizeIsLength | packages/domain/src/domain/models/precipitation.py:113-140 | The phase count the branches look at is the size of the set. |

## Left out

- ShardedReader.ShardedV1Reader.GetShardIndex: like every read built on it, for a reader no two of whose generations clash; clashing ones do share cache keys.
- ShardedReader.ShardedV1Reader.ReadChunk: a store is fixed per generation, so a transient failure that later succeeds is not modelled.
- StoreCache.StoreHandleCache.GetOrOpen: covers lookups one at a time; interleaved lookups are the subject of `CacheProtocol`, which does not follow the hit and miss counters.
- GateTheorems.ReadersExcludeWriters: assumes a held database connection stays alive, and that distinct stores have distinct lock keys.
- ShardWriter.EncodeRegion: one variable at a time; compression is an unknown function, lossless where a round trip is stated, cells stand for float32 values, and a squeeze of extra dimensions is not modelled.
- VectorField.DecodedCells: arithmetic is exact and header floats are opaque four-byte values, so float32 rounding and the float64 scale used while encoding are not modelled.
- ServingWindow.StartIsLastGridInstant: instants are microseconds from a midnight UTC; the ends of the calendar and time-zone conversion are not modelled.
- ShardKeys.KeyRoundTrip: kind names are lowered and stripped as ASCII text.
- CanonicalSources.SelectVariableSource: companion and interval names are lowered and stripped as ASCII text.
- Precipitation.CurrentInputsDecide: infinite amounts are not modelled; a missing and a NaN amount are.
- WindMeaning.DirectionalMeaning: bearings are any numbers from 0 up to 360 degrees, as the remainder in the code makes them.
- WindRose.ComputeDirectionalProbability: vector length and bearing are parameters; non-finite calm thresholds are not modelled.
- `gated_read` as one sequential procedure: its control flow is the positions of a thread in the protocol.
- The time limits of waits, the five-second lease lifetime and the lock timeout as clocks: each is a choice of the environment; progress is not stated.
- An interrupt between a database call and the flag that records it, and a failing connection close.
- `clear()` of the handle cache and the reset helpers of the gate: used only while nothing runs.
- The order of keys in the result dictionaries of the fence filter and the bulk resolver.
- `select_canonical_anchor`, `compute_transition_frequencies`, `reconstruct_cloud_cover_3h`: immediate from their bodies.
- Ensemble cloud and ceiling summaries, percentiles, consensus vectors, particle advection and sampling of vector fields.
- `interpolate_members`, the ensemble-mean window, the version 2 store reader and the manifest reader.
- Predecessor leads, expected region variables and marker deletion rules of `reclamation.py`; hashing and path normalisation of `locks.py`.
- The ingestion pipeline, routers, database schema, object storage and the front end; writers appear only as holders of EXCLUSIVE.
