# SQLConduit: a verified model

SQLConduit is a C++ database middleware: a connection pool, read/write groups with failover, a
query cache, a prepared-statement cache, lexers for SQL text, converters for Postgres and Oracle
text forms, slow-SQL statistics, a volatile write buffer and an asynchronous executor.  This
project models the engines among these in Dafny and proves what they keep, over every input and
over every run.  `dafny verify dfyconfig.toml` checks all of it.

How the model is laid out:

- Code that holds a mutex is modelled one critical section at a time: a pure function on the
  protected state says what the section does, a class with the same fields and loops is proved to
  do exactly that (`View() == F(old(View()))`), and lemmas about the functions carry the claims.
  A *run* is any sequence of enabled sections, so it covers every interleaving of any number of
  threads.  Network calls, clocks and drivers become parameters of the events.
- Lexers, printers and parsers are loops over an index or an array, proved equal to recursive
  functions on the rest of the text; round trips are proved about the functions.
- Where the code does not do what one would expect, a lemma shows the failing family and another
  says exactly when the code does meet the property.

| file | engine |
|---|---|
| `PoolModel.dfy`, `PoolLaws.dfy`, `PoolRuns.dfy`, `ConnectionPool.dfy` | the connection pool: its critical sections, when each answers what, all interleavings, the class |
| `CacheKey.dfy`, `QueryCache.dfy`, `QueryLaws.dfy` | keys of the query cache, the cache itself, and what it keeps |
| `SqlModes.dfy`, `DollarQuote.dfy` | how each character of a statement is read, as a reference for the lexers |
| `Placeholders.dfy`, `PreparedCache.dfy` | placeholder templates and the prepared-statement cache that relies on them |
| `LiteralMask.dfy` | blanking literals and comments in place |
| `PgText.dfy`, `OracleReturning.dfy`, `OracleRecovery.dfy`, `OracleSpellings.dfy` | Postgres array and composite text, Oracle `RETURNING ... INTO` |
| `Calendar.dfy`, `Timestamps.dfy` | day counts and the timestamp parser |
| `SlowSql.dfy` | slow-SQL statistics and the exported histogram |
| `WriteBuffer.dfy`, `Executor.dfy` | the write buffer's worker; the thread pool and the futures |
| `Failover.dfy`, `Topology.dfy` | write dispatch over candidates; the registry of sources and groups |
| `Lru.dfy`, `Text.dfy`, `Wrappers.dfy` | recency lists, characters and numerals, optional values |

## What the code does that its documentation or a reader might not expect

- A return that both purges expired waiters and hands its connection to a live one never delivers
  the purged ones' results (`PoolRuns.LostOnlyByHandOff` says exactly when, `PoolRuns.LostWaiterExample`
  gives a run).
- Shutdown sets the total to the borrowed connections; a connection still being made then gives back a
  slot that is no longer counted, so a closed pool can report a negative total
  (`PoolLaws.ClosedTotalNegative`).
- Nothing that parks a connection keeps the time of its validation, so the validation interval is
  counted from the clock's zero: an asynchronous borrow skips the ping only while the clock itself
  reads less than the interval (`PoolLaws.IntervalFromZero`).
- The two lexers differ on a slash, a star and a slash: for one the comment is over, for the other it
  has begun (`LiteralMask.StarDiffers`).
- Quotes inside a nested Postgres array are read and dropped, so different nested arrays read alike
  (`PgText.NestedQuotesDropped`).
- Cache keys of typed arrays and typed composites can collide if one type name is another and a
  number (`int` and `int4`), or if a field name starts with a digit or is made of two others and a
  value's key (`CacheKey.NumberedTypesCollide`, `FieldNamesCollide`, `DigitFieldCollides`); so can a
  statement text that contains byte 0x1e (`SeparatorCollides`).  `CacheKey.Apart` rules these names
  out, and under it keys are unique (`CacheKey.StatementKeyInjective`).
- Two data source names share query-cache entries exactly if one goes on with a NUL byte where the
  other ends (`QueryCache.KeysShared`, `QueryCache.InvalidateExactly`).
- Reconfiguring the query cache clears it first and publishes the flag later.  A put that read the
  flag before it went down can be accepted just before it comes up again; an invalidation in between
  is skipped, and the entry is served afterwards (`QueryCache.LatePutSurvives`).  It cannot happen if
  the cache is switched on only with no such call inside (`QueryCache.CarefulSkipsNothing`).
- The composite printer does not quote parentheses, and prints a lone null as nothing
  (`PgText.CompositeRoundTrip` is the exact condition for the round trip).
- The guide says that writes switch nodes on connection-class failures.  A failed connect is marked
  as a broken connection when it is borrowed, so it does not switch (`Failover.FailedConnectStays`;
  `Failover.UnavailableMovesOn` says exactly which failures of a pool do);
  with more than one attempt a write can reach two databases (`Failover.TwoDatabases`).
- Zoned timestamps from the year 2263 on do not fit the 64-bit nanosecond clock
  (`Timestamps.ExactYears`).
- Adding a group is three critical sections.  If some group's shadow cannot be resolved, undoing it
  erases whatever has the new group's name by then, even a data source that was registered in between
  (`Topology.OvertakenRollback` is an interleaving of four threads, `Topology.StepClosed` the exact
  condition).
- Posting to an executor that was stopped before it started still starts its workers
  (`Executor.LateStart`; `Executor.LateStartWhen` says that this is the only case).
- The generated Oracle suffix is recovered from a statement exactly if the text before it ends
  outside quotes (`OracleRecovery.RecoveredWhen`).
- Histogram bounds that are not ascending make the exporter count events over a bucket's bound
  (`SlowSql.DescendingMisreports`).  The configuration loader refuses such bounds
  (`src/config/config_loader.cpp:214-221`), so this takes a configuration made in code.

## Model

| member | source | states |
|---|---|---|
| `PoolModel.Normalize` | src/core/connection_pool.cpp:125-138 | the clamping gives each setting as it was asked for, or the nearest admissible value: at least one connection at most, a minimum between zero and that, no negative duration |
| `ConnectionPool.State.constructor` | src/core/connection_pool.cpp:113-168 | warm-up parks connections until the minimum is reached or one attempt fails; the new pool is exactly that many parked connections and matching counters, the failure included |
| `ConnectionPool.State.RecordSuccess` | src/core/connection_pool.cpp:210-215 | a success counts once and raises the high-water mark, only with metrics |
| `ConnectionPool.State.PurgeWaiters` | src/core/connection_pool.cpp:358-387 | exactly the waiters whose deadline passed leave, the others keep their order, each timeout counts once |
| `ConnectionPool.State.EraseLate` | src/core/connection_pool.cpp:67-83 | the erasing loop splits the queue into the live and the late waiters, both in order |
| `ConnectionPool.State.Turn` | src/core/connection_pool.cpp:247-340 | one turn of the borrow loop: closed, take an idle connection to check, reserve a slot, give up, or wait |
| `ConnectionPool.State.Borrow` | src/core/connection_pool.cpp:200-258 | entering a synchronous borrow, pooled or not |
| `ConnectionPool.State.WakeUp` | src/core/connection_pool.cpp:342-354 | leaving the wait, by timeout or for another turn |
| `ConnectionPool.State.Validated` | src/core/connection_pool.cpp:271-294 | after the ping: lend, refuse because closed, or drop the connection and its slot |
| `ConnectionPool.State.Connected` | src/core/connection_pool.cpp:302-327 | after connecting on a reserved slot: lend, or give the slot back |
| `ConnectionPool.State.ConnectedUnpooled` | src/core/connection_pool.cpp:225-244 | the same without pooling, where the slot is taken only on success |
| `ConnectionPool.State.TakeIdle` | src/core/connection_pool.cpp:423-453 | the asynchronous borrow's verdict on the oldest idle connection |
| `ConnectionPool.State.BorrowAsync` | src/core/connection_pool.cpp:403-525 | entering an asynchronous borrow, up to queueing at the back |
| `ConnectionPool.State.ValidatedAsync` | src/core/connection_pool.cpp:465-479 | the first section after an asynchronous ping |
| `ConnectionPool.State.DropAfterValidation` | src/core/connection_pool.cpp:493-499 | the second section, which gives up a dead connection's slot |
| `ConnectionPool.State.ConnectedAsync` | src/core/connection_pool.cpp:539-573 | the end of an asynchronous connect, with or without a reserved slot |
| `ConnectionPool.State.ReturnConn` | src/core/connection_pool.cpp:36-99 | a returned connection is closed, handed to the front live waiter, or parked |
| `ConnectionPool.State.Reuse` | src/core/connection_pool.cpp:66-98 | the part of a return that keeps the connection |
| `ConnectionPool.State.HealthPop` | src/core/connection_pool.cpp:589-597 | the health check takes the oldest idle connection with its idle-timeout verdict |
| `ConnectionPool.State.HealthPush` | src/core/connection_pool.cpp:604-617 | and parks it again or gives up its slot |
| `ConnectionPool.State.RefillReserve` | src/core/connection_pool.cpp:620-628 | the refill reserves what is missing to the minimum, within the maximum |
| `ConnectionPool.State.RefillAdopt` | src/core/connection_pool.cpp:648-658 | unused reservations are returned and the fresh connections parked unless closed |
| `ConnectionPool.State.CloseSection` | src/core/connection_pool.cpp:663-672 | closing empties the waiter queue, whose members are told later |
| `ConnectionPool.State.DrainSection` | src/core/connection_pool.cpp:674-677 | draining takes the oldest idle connection |
| `ConnectionPool.State.DrainedSection` | src/core/connection_pool.cpp:679-680 | and counts it closed |
| `ConnectionPool.State.FinishSection` | src/core/connection_pool.cpp:690-691 | the end of shutdown sets the total to the borrowed ones |
| `ConnectionPool.State.Shutdown` | src/core/connection_pool.cpp:661-697 | an undisturbed shutdown drains every idle connection in order, counts each, and hands back every waiter |
| `PoolModel.StartBorrowMeans` | src/core/connection_pool.cpp:200-258 | the outcome of entering a borrow determines which queue, counter and slot changed and that nothing else did |
| `PoolModel.TurnBorrowMeans` | src/core/connection_pool.cpp:247-340 | the same for a further turn |
| `PoolModel.StartAsyncMeans` | src/core/connection_pool.cpp:403-525 | the same for the asynchronous borrow |
| `PoolModel.HandOffWhen` | src/core/connection_pool.cpp:60-97 | a return hands off exactly if it keeps the connection and a live waiter exists, to the first such |
| `PoolModel.HandOffIsFair` | src/core/connection_pool.cpp:67-94 | the receiver is the longest-queued waiter whose deadline is ahead |
| `PoolLaws.BorrowAnswers` | src/core/connection_pool.cpp:247-342 | which answer a turn of the borrow loop gives, each if and only if: closed, an idle connection, a free slot, full without waiting, full |
| `PoolLaws.UnpooledAnswers` | src/core/connection_pool.cpp:217-231 | without pooling the answer depends on the closed flag alone |
| `PoolLaws.WaitAnswers` | src/core/connection_pool.cpp:342-354 | a wait is refused if and only if it timed out, and otherwise turns as a borrow that may wait |
| `PoolLaws.RefusedOnlyWhenFull` | src/core/connection_pool.cpp:247-342 | in every reachable open pool a borrow is refused or waits if and only if all maxConn slots are lent, under validation or reserved |
| `PoolLaws.AsyncAnswers` | src/core/connection_pool.cpp:403-525 | which answer an asynchronous borrow gives, each if and only if; a queued waiter has its request, ticket, time and deadline |
| `PoolLaws.ExpireAnswers` | src/core/connection_pool.cpp:358-387 | exactly the waiters whose deadline has come leave, each counted |
| `PoolLaws.CheckAnswers` | src/core/connection_pool.cpp:271-294 | lent if and only if alive in an open pool; a dead connection is counted by its cause |
| `PoolLaws.CreateAnswers` | src/core/connection_pool.cpp:225-327 | lent if and only if made in an open pool, pooled or not; the slot is used or given back |
| `PoolLaws.AsyncCheckAnswers` | src/core/connection_pool.cpp:465-479 | the same after an asynchronous ping |
| `PoolLaws.AsyncCreateAnswers` | src/core/connection_pool.cpp:539-573 | the same after an asynchronous connect, whose failure a closed pool does not count |
| `PoolLaws.ReturnAnswers` | src/core/connection_pool.cpp:36-99 | a returned connection is closed if and only if the pool is closed or unpooled or it is not reusable or too old; parked, it keeps its age and gets the time of return; counters by cause |
| `PoolLaws.ExpiredFrom` | src/core/connection_pool.cpp:50-53 | a connection is too old from its age on, and never without a limit |
| `PoolLaws.HealthAnswers` | src/core/connection_pool.cpp:589-597 | the oldest connection is taken, to retire if and only if it has been idle for the timeout and the pool is above its minimum |
| `PoolLaws.HealthEndAnswers` | src/core/connection_pool.cpp:604-617 | parked again, unchanged, if and only if alive in an open pool; else counted by its cause |
| `PoolLaws.RefillReaches` | src/core/connection_pool.cpp:620-628 | after reserving, an open pool has its minimum of slots and no more than it had or needs |
| `PoolLaws.RefillAdopts` | src/core/connection_pool.cpp:648-658 | the fresh connections stand behind the others, in order; reservations not used are returned |
| `PoolLaws.CloseAnswers` | src/core/connection_pool.cpp:661-691 | what each section of a shutdown does and what it leaves |
| `PoolLaws.ClosedTotalNegative` | src/core/connection_pool.cpp:302-317 | a reachable closed pool whose total is -1 |
| `PoolLaws.IntervalFromZero` | src/core/connection_pool.cpp:423-453 | after any run a parked connection is lent without a ping if and only if it is young enough and the clock reads less than the interval |
| `PoolRuns.StepKeepsInv` | src/core/connection_pool.cpp:36-697 | every critical section keeps the whole invariant, whatever else is in flight |
| `PoolRuns.ReachableInv` | src/core/connection_pool.cpp:36-697 | so it holds in every state reachable from the constructor |
| `PoolRuns.SlotsConserved` | src/core/connection_pool.cpp:247-356 | while open, total = idle + borrowed + in validation + reserved + refilling, at most the maximum; created - closed counts the open connections; no clamp at zero is ever met |
| `PoolRuns.LentExclusively` | src/core/connection_pool.cpp:281-286 | a lent connection is lent once and is not parked, in validation or closed |
| `PoolRuns.CompletedAtMostOnce` | src/core/connection_pool.cpp:389-525 | every asynchronous request is completed at most once, and is completed exactly if it is not queued, posted or lost; successes + timeouts + pending never exceed requests |
| `PoolRuns.LostOnlyByHandOff` | src/core/connection_pool.cpp:66-108 | a step loses a request if and only if it is a return that keeps its connection while both an expired and a live waiter are queued; it loses exactly the expired ones |
| `PoolRuns.LostWaiterExample` | src/core/connection_pool.cpp:100-104 | such a state is reachable |
| `PoolRuns.CloseIsFinalStep` | src/core/connection_pool.cpp:661-697 | in a closed pool no step mints a handle or parks a connection; only draining changes the idle queue |
| `PoolRuns.CloseIsFinal` | src/core/connection_pool.cpp:661-697 | the same over whole runs: the idle queue only loses its front |
| `PoolRuns.DrainedForGood` | src/core/connection_pool.cpp:674-691 | with any number of shutdowns under way, from the end of a drain loop onward nothing is parked and no handle is minted, at the end of that shutdown and ever after |
| `CacheKey.AppendValueKey` | src/core/database_manager.cpp:221-304 | appends the value's key, tag first |
| `CacheKey.AppendBody` | src/core/database_manager.cpp:222-303 | the branches behind the tag, recursively |
| `CacheKey.AppendItems` | src/core/database_manager.cpp:273-291 | the item loops, with and without separator |
| `CacheKey.AppendFields` | src/core/database_manager.cpp:280-299 | the field loops, with and without length |
| `CacheKey.MakeKey` | src/core/database_manager.cpp:210-219 | statement, separator, parameter count, parameters |
| `CacheKey.KeyUnique` | src/core/database_manager.cpp:221-304 | for type and field names that are apart, a value's key followed by a non-digit is decoded in one way only, at any nesting depth, typed arrays and typed composites included |
| `CacheKey.StatementKeyInjective` | src/core/database_manager.cpp:210-219 | two keys are equal if and only if statement and parameters are, for any parameters whose names are apart and statements of which neither extends the other with 0x1e and a digit |
| `CacheKey.PrefixFreeApart` | src/core/database_manager.cpp:287-299 | names of which none starts like another, with no digit at the start of a field name, are apart |
| `CacheKey.PlainSqlSeparates` | src/core/database_manager.cpp:210-219 | statements without 0x1e meet that condition |
| `CacheKey.TypedArrayCollides` | src/core/database_manager.cpp:287-291 | for every value whose key ends in a zero, two typed arrays with equal keys; the names differ by a digit and what follows it |
| `CacheKey.TypedCompositeCollides` | src/core/database_manager.cpp:292-299 | two typed composites of one type with equal keys |
| `CacheKey.NumberedTypesCollide` | src/core/database_manager.cpp:287-299 | any two type names of which one is the other and a positive number have lists of typed arrays, and of typed composites, that differ and share a key |
| `CacheKey.FieldNamesCollide` | src/core/database_manager.cpp:292-299 | a field name made of another, any value's key and a third lets two orders of the fields share a key |
| `CacheKey.DigitFieldCollides` | src/core/database_manager.cpp:292-299 | a field name that starts with a digit, whichever, makes one field look like ten or more |
| `CacheKey.SeparatorCollides` | src/core/database_manager.cpp:210-213 | a family of statements with 0x1e whose keys are equal |
| `DollarQuote.ScanDollar` | src/core/idatabase_connection.cpp:238-256 | finds where the dollar-quoted region at a position ends, or that none starts there |
| `DollarQuote.DollarEndAppend` | src/core/idatabase_connection.cpp:238-256 | appended letters neither open nor close a region |
| `DollarQuote.DollarEndIs` | src/core/idatabase_connection.cpp:238-256 | a region ends behind the first repetition of its delimiter, whose tag does not start with a digit; said without the scan |
| `DollarQuote.TagChars` | src/core/idatabase_connection.cpp:238-242 | a tag consists of letters, digits and underscores |
| `SqlModes.QuoteSpans` | src/core/idatabase_connection.cpp:258-280 | a quoted region ends at the first quote that is neither escaped nor doubled, as a machine reads it one character at a time |
| `Placeholders.CopyQuoted` | src/core/idatabase_connection.cpp:258-280 | copies a quoted region whole, with escapes and doubled quotes |
| `Placeholders.CopyLine` | src/core/idatabase_connection.cpp:282-289 | copies a line comment with its newline |
| `Placeholders.CopyBlock` | src/core/idatabase_connection.cpp:291-304 | copies a block comment, closed or not |
| `Placeholders.CopyToken` | src/core/idatabase_connection.cpp:235-311 | copies whatever starts here and is not a placeholder |
| `Placeholders.ReplacePlaceholders` | src/core/idatabase_connection.cpp:226-314 | the output is the statement's template with hole k filled by the visitor's k-th answer; the calls are 0, 1, ... in order, one per hole |
| `Placeholders.BuildSql` | src/core/idatabase_connection.cpp:316-333 | succeeds if and only if the number of holes is the number of parameters, and then is the filled template |
| `Placeholders.TemplateFlattens` | src/core/idatabase_connection.cpp:226-314 | the segmentation flattens back to the statement, from every position |
| `Placeholders.VisitingWithQuestionMarks` | src/core/idatabase_connection.cpp:226-314 | a visitor that answers "?" gives the statement back |
| `Placeholders.FillSplits` | src/core/idatabase_connection.cpp:226-314 | filling a template is filling its parts, with the hole numbers carried on |
| `Placeholders.HolesAppend` | src/core/idatabase_connection.cpp:226-314 | appending letters never changes the number of placeholders |
| `Placeholders.HolesAreOutside` | src/core/idatabase_connection.cpp:226-314 | there are as many placeholders as question marks that the character-by-character machine reads outside quoted regions, dollar-quoted regions and comments |
| `Placeholders.LineEndIs` | src/core/idatabase_connection.cpp:282-289 | a line comment ends just past the first newline |
| `Placeholders.BlockEndIs` | src/core/idatabase_connection.cpp:291-304 | a block comment ends just past the first star-slash |
| `Placeholders.StepSpans` | src/core/idatabase_connection.cpp:226-311 | a token reaches exactly to the next character that the machine reads outside |
| `Placeholders.MarkFilled` | src/core/idatabase_connection.cpp:226-314 | the visitor's k-th answer stands exactly where the k-th such question mark stood, with the text in front and behind filled the same way |
| `PreparedCache.ParamTypeSignature` | src/common/types.cpp:505-530 | one letter per parameter |
| `PreparedCache.KeyDeterminesStatement` | src/driver/postgres_driver.cpp:1020-1024 | for checked statements equal keys mean equal statement and equal signature, and conversely |
| `PreparedCache.UncheckedKeysCollide` | src/driver/postgres_driver.cpp:1023-1024 | without the placeholder check keys would collide |
| `PreparedCache.PrepareSound` | src/driver/postgres_driver.cpp:1014-1058 | prepare keeps cache, list and names in bijection, refuses exactly on a parameter mismatch, returns the handle prepared for exactly this statement, most recently used, and a miss meets a positive limit |
| `PreparedCache.EvictToSound` | src/driver/postgres_driver.cpp:1042-1056 | the eviction loop ends within the limit, only drops entries, and spares the newest |
| `PreparedCache.EvictToExact` | src/driver/postgres_driver.cpp:1042-1056 | exactly the oldest entries beyond the limit go |
| `PreparedCache.EvictedDropped` | src/driver/postgres_driver.cpp:1042-1056 | their handles are unknown and the server has let go exactly the names it released |
| `PreparedCache.HitMoves` | src/driver/postgres_driver.cpp:1025-1030 | a hit moves its key to the newest end and changes nothing else |
| `PreparedCache.MissKeeps` | src/driver/postgres_driver.cpp:1031-1058 | a miss adds one entry and keeps the newest that a positive limit allows, or all |
| `PreparedCache.ServerNumbers` | src/driver/postgres_driver.cpp:1018-1021 | the server is sent $1, $2, ... in the places of the question marks outside every region |
| `PreparedCache.HitSound` | src/driver/postgres_driver.cpp:1025-1030 | a hit serves the statement asked for and changes no entry |
| `PreparedCache.MissSound` | src/driver/postgres_driver.cpp:1031-1058 | a miss files the new statement under an unused id, or only uses the number up if the server refuses |
| `PreparedCache.HandlesDiffer` | src/driver/postgres_driver.cpp:1037-1041 | two cached keys never share a handle |
| `PreparedCache.UsableHandles` | src/driver/postgres_driver.cpp:1067-1076 | a handle is known exactly while some key maps to it, and then names its own statement on the server |
| `PreparedCache.Cache.Prepare` | src/driver/postgres_driver.cpp:1014-1058 | the driver's method does exactly that step |
| `PreparedCache.Cache.Create` | src/driver/postgres_driver.cpp:1031-1058 | its miss path |
| `PreparedCache.Cache.EvictDown` | src/driver/postgres_driver.cpp:1042-1056 | its eviction loop |
| `PreparedCache.Cache.PopOldest` | src/driver/postgres_driver.cpp:1044-1054 | one turn of that loop, also when the key or the name is missing |
| `PreparedCache.Cache.Lookup` | src/driver/postgres_driver.cpp:1072-1076 | the name of a handle, or a refusal |
| `PreparedCache.Cache.CloseAllPrepared` | src/driver/postgres_driver.cpp:1134-1144 | afterwards no statement, name or key is left and the store is sound |
| `PreparedCache.Cache.SetPreparedCacheLimit` | src/driver/postgres_driver.cpp:1146-1152 | changes the limit and nothing else |
| `LiteralMask.MaskLiteralRegions` | src/common/sql_analyze.cpp:177-239 | the buffer ends as the mask of its old contents |
| `LiteralMask.MaskLine` | src/common/sql_analyze.cpp:183-186 | blanks a line comment up to its newline |
| `LiteralMask.MaskBlock` | src/common/sql_analyze.cpp:187-195 | blanks a block comment, to the end if unclosed |
| `LiteralMask.MaskQuoted` | src/common/sql_analyze.cpp:196-216 | blanks a quoted region with escapes and doubled quotes |
| `LiteralMask.MaskBlanks` | src/common/sql_analyze.cpp:177-239 | masking keeps the length, only writes spaces, and leaves no quote character and no start of a region |
| `LiteralMask.MaskIdempotent` | src/common/sql_analyze.cpp:177-239 | masking twice is masking once, for every string |
| `LiteralMask.MaskUnchanged` | src/common/sql_analyze.cpp:177-239 | a statement is unchanged if and only if no region starts anywhere in it |
| `LiteralMask.MaskExact` | src/common/sql_analyze.cpp:177-239 | exactly the characters of literals and comments become spaces, as the character-by-character machine reads them |
| `LiteralMask.StarDiffers` | src/common/sql_analyze.cpp:187-195 | where the two lexers disagree |
| `PgText.CheckQuoting` | src/common/pg_types.cpp:128-139 | says exactly which strings need quotes |
| `PgText.QuoteElement` | src/common/pg_types.cpp:371-380 | quotes and escapes those, and leaves the others |
| `PgText.FormatElements` | src/common/pg_types.cpp:382-401 | both printers: brackets, separators, nulls |
| `PgText.SplitElements` | src/common/pg_types.cpp:141-213 | the scanner's loop is the scanning function, refusals included |
| `PgText.RoundTrip` | src/common/pg_types.cpp:128-213 | parsing what was printed gives the list back if and only if it is not a lone null that prints as nothing and every unquoted element has its brackets matched |
| `PgText.ArrayRoundTrip` | src/common/pg_types.cpp:363-391 | every list of optional strings survives the array form |
| `PgText.CompositeRoundTrip` | src/common/pg_types.cpp:367-401 | the exact condition for the composite form |
| `PgText.OpenParenthesisMerges` | src/common/pg_types.cpp:128-139 | an unquoted open parenthesis swallows the separator |
| `PgText.MatchedParenthesesSurvive` | src/common/pg_types.cpp:189-201 | matched ones do no harm |
| `PgText.LoneNullVanishes` | src/common/pg_types.cpp:141-147 | a lone null reads back as no element |
| `PgText.NestedQuotesDropped` | src/common/pg_types.cpp:141-213 | two different nested arrays read alike |
| `OracleReturning.QuoteIdentifier` | src/common/types.cpp:431-439 | doubles quotes inside an identifier |
| `OracleReturning.MakeReturningSuffix` | src/common/oracle_types.cpp:638-652 | the suffix: quoted names, then binds counted up in 64 bits |
| `OracleReturning.FindReturning` | src/common/oracle_types.cpp:526-569 | the last RETURNING outside quotes |
| `OracleReturning.ReadColumns` | src/common/oracle_types.cpp:571-604 | the column list, quoted or folded to upper case |
| `OracleReturning.ReadBinds` | src/common/oracle_types.cpp:612-628 | the bind list, with 64-bit wrap-around |
| `OracleReturning.ReadList` | src/common/oracle_types.cpp:571-636 | everything behind the keyword |
| `OracleReturning.ParseReturningInto` | src/common/oracle_types.cpp:524-636 | the whole parser |
| `OracleReturning.SuffixRoundTrip` | src/common/oracle_types.cpp:524-652 | for any nonempty columns, quotes included, any first bind and any statement that ends outside quotes, parsing statement + suffix recovers columns, first bind and count |
| `OracleReturning.OpenLiteralHides` | src/common/oracle_types.cpp:531-545 | behind a lone open quote nothing is found at all |
| `OracleRecovery.NamesAligned` | src/common/oracle_types.cpp:571-604 | if the column reader yields the printed names and stops where they stop, it started where they start |
| `OracleRecovery.OpenBaseHides` | src/common/oracle_types.cpp:526-569 | behind a text that ends inside quotes the scanner never settles on the suffix's own keyword |
| `OracleRecovery.RecoveredWhen` | src/common/oracle_types.cpp:524-652 | for every statement text, parsing text + suffix recovers columns, first bind and count if and only if the text ends outside quotes |
| `OracleSpellings.ClauseRead` | src/common/oracle_types.cpp:524-636 | a clause with keywords in any case, quoted or bare names and any spaces after commas yields the names as meant, bare ones in upper case, if and only if there are as many binds as names |
| `Calendar.CivilCountsDays` | src/common/types.cpp:238-248 | both closed forms are the number of days counted year by year and month by month from 1970-01-01, for every year |
| `Calendar.CopiesAgree` | src/common/oracle_types.cpp:31-38 | the copy with the wrapping shift gives the same number |
| `Calendar.NextDayCounts` | src/common/types.cpp:224-248 | the next day is one more |
| `Calendar.CountKeepsOrder` | src/common/types.cpp:224-248 | earlier dates have smaller counts and different dates different ones |
| `Timestamps.ReadInt` | src/common/types.cpp:153-163 | a number of fixed width, or a refusal |
| `Timestamps.ScanDate` | src/common/types.cpp:165-173 | the date at the start |
| `Timestamps.ScanClock` | src/common/types.cpp:175-184 | the optional clock |
| `Timestamps.ScanFraction` | src/common/types.cpp:186-203 | the optional fraction, cut to nanoseconds |
| `Timestamps.ScanZone` | src/common/types.cpp:205-222 | the optional zone, which must end the text |
| `Timestamps.TryParseTimestamp` | src/common/types.cpp:152-271 | the whole parser |
| `Timestamps.RenderRead` | src/common/types.cpp:152-235 | every well-formed spelling is accepted and read as what it says |
| `Timestamps.AcceptedSpelled` | src/common/types.cpp:152-235 | and nothing else is accepted |
| `Timestamps.ZonedInstant` | src/common/types.cpp:237-254 | a zoned text yields the instant counted on the calendar, modulo 64 bits |
| `Timestamps.LocalInstant` | src/common/types.cpp:256-270 | a text without a zone is what the host makes of its date and clock, with the fraction added, or a refusal |
| `Timestamps.NanosMeans` | src/common/types.cpp:186-203 | a fraction is its digits as a part of a second, cut to nine |
| `Timestamps.SecondsCount` | src/common/types.cpp:249 | the seconds of a day are counted one by one |
| `Timestamps.SecondsStart` | src/common/types.cpp:249 | from zero at midnight |
| `Timestamps.SameInstant` | src/common/types.cpp:237-254 | texts of the same instant give the same timestamp; within range only those do, and order is kept |
| `Timestamps.ExactYears` | src/common/types.cpp:249-253 | the timestamp is the instant if and only if that fits 64 bits; always up to 2261, never from 2263 on |
| `QueryCache.CompositeKeyInjective` | src/core/query_cache.cpp:9-16 | for names of which neither goes on with a NUL where the other ends, a composite key determines source and key, and the prefix test recognises exactly the source's keys |
| `QueryCache.NulFreeApart` | src/core/query_cache.cpp:9-16 | names without NUL meet that condition |
| `QueryCache.KeysShared` | src/core/query_cache.cpp:9-16 | two names share a composite key if and only if they are equal or one goes on with a NUL where the other ends |
| `QueryCache.OwnedWhen` | src/core/query_cache.cpp:9-16 | exactly which entries the prefix test of a source recognises, for any names and keys |
| `QueryCache.NulNamesCollide` | src/core/query_cache.cpp:9-16 | a NUL in a name makes two sources share entries |
| `QueryCache.AdmitSound` | src/core/query_cache.cpp:113-149 | an accepted put ends with its own entry in front, the limits met, and no entry that was not there |
| `QueryCache.FrontSurvives` | src/core/query_cache.cpp:47-69 | the eviction loop spares the entry just replaced and meets both limits |
| `QueryCache.EvictSound` | src/core/query_cache.cpp:47-69 | eviction drops a suffix of the recency list and keeps store, list and total in step |
| `QueryCache.GetSound` | src/core/query_cache.cpp:91-111 | a get hits exactly on a stored, unexpired entry, and drops at most an expired one |
| `QueryCache.InvalidateSound` | src/core/query_cache.cpp:151-173 | invalidation removes exactly the entries with the prefix |
| `QueryLaws.EvictKeepsLongest` | src/core/query_cache.cpp:47-69 | eviction keeps the longest run of most recent entries that fits, and counts the others |
| `QueryLaws.NewEntryKeepsLongest` | src/core/query_cache.cpp:140-148 | a put of a new key comes in front of the longest run of most recent entries that fits beside it |
| `QueryLaws.ReplaceKeepsLongest` | src/core/query_cache.cpp:127-138 | replacing an entry moves it to the front and keeps the longest run that fits |
| `QueryLaws.GetMoves` | src/core/query_cache.cpp:91-111 | a hit moves its entry to the front, the others keep their order; an expired entry leaves alone; each is counted |
| `QueryLaws.OthersInOrder` | src/core/query_cache.cpp:151-173 | invalidation keeps the other entries in their order |
| `QueryLaws.InvalidateCounts` | src/core/query_cache.cpp:151-173 | each removed entry is counted; a call that finds the cache off does nothing |
| `QueryLaws.HitsExactly` | src/core/query_cache.cpp:91-173 | without limits, after any run, a get hits if and only if the cache is on and the latest accepted put stands unexpired, and returns it |
| `QueryCache.HitIsLatest` | src/core/query_cache.cpp:91-149 | after any run, limits or not, a hit is the latest accepted put of that key, not expired, not invalidated and not cleared since |
| `QueryCache.AlwaysSound` | src/core/query_cache.cpp:41-173 | after any run store and list are in bijection, the total is exact and the limits hold |
| `QueryCache.PutThenGet` | src/core/query_cache.cpp:91-149 | right after an accepted put, a get before expiry returns it |
| `QueryCache.InvalidateExactly` | src/core/query_cache.cpp:151-173 | after any run, invalidating a source removes exactly the entries that its test recognises; its own and no others unless a name goes on with a NUL where the other ends |
| `QueryCache.GatedWindow` | src/core/query_cache.cpp:71-81 | entries under a lowered flag mean that it is about to be raised |
| `QueryCache.InsideCounts` | src/core/query_cache.cpp:71-114 | a call is inside from its read of the raised flag to its locked part |
| `QueryCache.QuietKept` | src/core/query_cache.cpp:71-157 | with clearing and publishing as two steps: entries appear under a lowered flag if and only if a put that read it as raised is accepted then |
| `QueryCache.CarefulSkipsNothing` | src/core/query_cache.cpp:71-157 | over any run that switches the cache on only with no call inside that saw it on before, no skipped invalidation misses an entry |
| `QueryCache.LatePutSurvives` | src/core/query_cache.cpp:71-157 | otherwise an entry can survive a skipped invalidation of its source and be hit: the steps of the interleaving |
| `QueryCache.LateCallReachable` | src/core/query_cache.cpp:71-114 | a state with such a call inside is reachable from a new cache |
| `QueryCache.State.EraseLocked` | src/core/query_cache.cpp:41-45 | erasing an entry, with the clamp written out |
| `QueryCache.State.EvictLocked` | src/core/query_cache.cpp:47-69 | the eviction loop |
| `QueryCache.State.ConfigureCache` | src/core/query_cache.cpp:71-81 | clears the store and sets the flag, when nothing comes in between |
| `QueryCache.State.GetEntry` | src/core/query_cache.cpp:91-111 | the get |
| `QueryCache.State.PutEntry` | src/core/query_cache.cpp:113-149 | the put |
| `QueryCache.State.InvalidateSource` | src/core/query_cache.cpp:151-173 | the invalidation scan, in whatever order the table has |
| `SlowSql.State.TouchLru` | src/common/observer.cpp:112-120 | a statement moves to the front, or enters there |
| `SlowSql.State.EvictOldest` | src/common/observer.cpp:122-128 | the last one leaves list, index and statistics |
| `SlowSql.State.RecordSlow` | src/common/observer.cpp:578-615 | the locked section that records an event |
| `SlowSql.CountEvent` | src/common/observer.cpp:603-615 | the counters, extremes and the bucket loop |
| `SlowSql.State.ConfigureTable` | src/common/observer.cpp:477-505 | clearing on changed bounds and the shrink loop, which terminates |
| `SlowSql.EmitPlaces` | src/common/observer.cpp:582-590 | recording puts the statement in front, drops at most the oldest other, and does not outgrow old size and capacity |
| `SlowSql.EmitExact` | src/common/observer.cpp:578-602 | recording moves a known statement to the front; a new one displaces exactly the least recently used, if and only if the table is full, and takes the bounds of the settings |
| `SlowSql.ShrinkExact` | src/common/observer.cpp:505 | shrinking keeps the most recently used statements that the capacity allows |
| `SlowSql.ConfigureExact` | src/common/observer.cpp:495-505 | the table is cleared if and only if some statement has other bounds |
| `SlowSql.ShrinkAligned` | src/common/observer.cpp:505 | the shrink loop reaches its capacity and only drops entries |
| `SlowSql.Run` | src/common/observer.cpp:495-615 | over any run, with settings of any age, the three key sets agree and every statistic summarises exactly the events logged for its statement |
| `SlowSql.SummaryAddsUp` | src/common/observer.cpp:603-615 | the histogram adds up to the count, count * min <= total <= count * max, and timeouts <= errors <= count |
| `SlowSql.ExportBuckets` | src/exporters/prometheus.cpp:314-329 | the exporter's loop yields the running sums |
| `SlowSql.ExportedCounts` | src/exporters/prometheus.cpp:314-338 | a bucket exports the events within the greatest bound so far; values never decrease or exceed the count |
| `SlowSql.ExportedExact` | src/exporters/prometheus.cpp:314-338 | with ascending bounds that is the number of events within the bucket's own bound |
| `SlowSql.DescendingMisreports` | src/exporters/prometheus.cpp:314-338 | bounds that descend anywhere have an event that is reported under a bound it exceeds |
| `SlowSql.RunAddsUp` | src/common/observer.cpp:495-615 | all of this after any run |
| `Failover.ResolveWriteAttempts` | src/core/database_manager.cpp:40-45 | at least one attempt, the maximum if more, and one exactly for a write that is not idempotent, a maximum of at most one, or unspecified without write retries |
| `Failover.DriverFailuresStay` | src/common/types.cpp:51-85 | no status of a connected driver's execute allows another target |
| `Failover.DatabaseErrorWhen` | src/common/types.cpp:51-85 | which states make an error retryable, which mark the connection broken, and which code each gets |
| `Failover.InClassMeans` | src/common/types.cpp:51-85 | a state belongs to the class it starts with |
| `Failover.BorrowFailureWhen` | src/core/database_manager.cpp:1170-1192 | only a failed connect is reported as retryable and broken |
| `Failover.AttemptsEnd` | src/core/database_manager.cpp:1392-1429 | attempts end at the first that succeeds, meets a closed gate or cannot be retried, or with the last allowed; its status stands and entries are counted |
| `Failover.AttemptsEndSomewhere` | src/core/database_manager.cpp:1392-1429 | there always is such an attempt |
| `Failover.UsableInOrder` | src/core/database_manager.cpp:1056-1064 | the usable candidates, in their order |
| `Failover.TargetsWhen` | src/core/database_manager.cpp:1047-1066 | the primary alone without candidates; with some, exactly the usable ones, and not the primary if none is |
| `Failover.DispatchEnds` | src/core/database_manager.cpp:1082-1116 | a dispatch ends at the first target that does not refuse, with its answer; if all refuse, in the buffer, with the last refusal, or that there is none; and which databases were reached |
| `Failover.SucceedsWhen` | src/core/database_manager.cpp:1082-1116 | success if and only if some target accepts and every earlier one refuses; buffered if and only if all refuse and the buffer takes it |
| `Failover.ExecuteUngated` | src/core/database_manager.cpp:1392-1429 | the attempt loop: its status and how often the driver was entered |
| `Failover.CollectTargets` | src/core/database_manager.cpp:1047-1066 | the usable candidates in order, or the primary |
| `Failover.DispatchWrite` | src/core/database_manager.cpp:1082-1116 | the loop over the targets and the buffer |
| `Failover.ReachesAtMostOne` | src/core/database_manager.cpp:1082-1116 | with one attempt per candidate at most one driver is entered, the caller gets its answer, and the write is buffered only if none was entered |
| `Failover.NonIdempotentOnce` | src/core/database_manager.cpp:1047-1116 | a write declared not idempotent meets this whatever the settings |
| `Failover.OnceExactly` | src/core/database_manager.cpp:1047-1116 | settings guarantee it for everything that can happen if and only if every candidate's attempts resolve to one |
| `Failover.TwoDatabases` | src/core/database_manager.cpp:1392-1429 | with more attempts a write can run on two databases |
| `Failover.FailedConnectStays` | src/core/database_manager.cpp:1170-1192 | a failed connect, on every attempt, ends the dispatch at its target, whatever targets and buffer follow |
| `Failover.WhereItGoes` | src/core/database_manager.cpp:1068-1116 | for every code that a pool can report and any number of attempts: on to the next target for those four, and the failure to the caller for any other |
| `Failover.UnavailableMovesOn` | src/core/database_manager.cpp:1068-1080 | with a next target that accepts, a write whose pool lends nothing succeeds if and only if the code is an exhausted or closed pool, an open circuit or a disabled driver |
| `WriteBuffer.State.EnqueueWrite` | src/core/write_buffer.cpp:10-18 | accepts exactly while running, not stopping and not full |
| `WriteBuffer.State.StartWorker` | src/core/write_buffer.cpp:25-32 | starts once |
| `WriteBuffer.State.SignalStop` | src/core/write_buffer.cpp:34-39 | raises the flag while running |
| `WriteBuffer.State.WorkerJoined` | src/core/write_buffer.cpp:40-44 | after the join the buffer is not running |
| `WriteBuffer.State.TakeBatch` | src/core/write_buffer.cpp:52-62 | swaps the queue out; a pass that sees the flag is the last |
| `WriteBuffer.State.HandleFront` | src/core/write_buffer.cpp:65-84 | one write: expired, flushed, kept for retry, or failed |
| `WriteBuffer.State.MergeRetry` | src/core/write_buffer.cpp:86-107 | the two merging loops |
| `WriteBuffer.State.CloseQueue` | src/core/write_buffer.cpp:109-121 | the end of the last pass |
| `WriteBuffer.StepInv` | src/core/write_buffer.cpp:10-123 | every step keeps the invariant |
| `WriteBuffer.EveryWriteAccounted` | src/core/write_buffer.cpp:10-123 | in every reachable state each accepted write is in exactly one of queue, batch, retry list or settled with one fate; the unsettled ones are in the order of acceptance; the queue keeps its bound; nothing is abandoned |
| `WriteBuffer.FateIsFinal` | src/core/write_buffer.cpp:65-107 | a settled write keeps its fate |
| `WriteBuffer.AcceptedWhen` | src/core/write_buffer.cpp:10-18 | a write is taken if and only if running, not stopping and not full |
| `WriteBuffer.ControlWhen` | src/core/write_buffer.cpp:25-62 | when starting and stopping take effect, and what a pass takes |
| `WriteBuffer.HandledWhen` | src/core/write_buffer.cpp:65-84 | a handled write is expired, flushed, failed or kept for retry, each if and only if: its age, then the answer, then whether the pass is the last |
| `WriteBuffer.MergeKeepsOldest` | src/core/write_buffer.cpp:86-102 | after a pass the queue is the oldest of retries and new writes up to the bound, and exactly the rest overflows |
| `WriteBuffer.ExecutedOnce` | src/core/write_buffer.cpp:65-107 | over any run a write is flushed if and only if the database executed it with success, which happens at most once and ends its executions |
| `WriteBuffer.StoppedIsSettled` | src/core/write_buffer.cpp:34-44 | once stopped, every accepted write is settled |
| `WriteBuffer.LastPassAbandonsNone` | src/core/write_buffer.cpp:109-121 | the last pass finds an empty queue |
| `WriteBuffer.MergeDropsNewest` | src/core/write_buffer.cpp:86-102 | a merge drops only beyond the bound, and only writes newer than all it keeps |
| `Executor.State.TryPost` | src/async/executor.cpp:32-45 | takes a task exactly if neither stopping nor full |
| `Executor.State.EnsureStartedLocked` | src/async/executor.cpp:104-111 | starts the workers once |
| `Executor.State.NextTask` | src/async/executor.cpp:113-128 | a worker takes the oldest task, or leaves when nothing is queued |
| `Executor.State.TaskDone` | src/async/executor.cpp:130-134 | the bookkeeping after a task |
| `Executor.State.BeginShutdown` | src/async/executor.cpp:60-70 | only the first call has workers to join |
| `Executor.State.SubmitAsync` | src/client.cpp:91-156 | a request is refused at once, answered as overloaded, or queued |
| `Executor.State.RunTask` | src/client.cpp:119-145 | a task answers its request whether its function returns, throws or overruns |
| `Executor.StepInv` | src/async/executor.cpp:32-136 | every step keeps the invariant |
| `Executor.CountersBalance` | src/async/executor.cpp:32-136 | in every interleaving submitted = completed + active + queued, the queue is bounded, and tasks begin once each in the order of acceptance |
| `Executor.AnsweredAtMostOnce` | src/client.cpp:91-156 | every request is answered, queued or being run, and only one of these |
| `Executor.AnswerIsFinal` | src/client.cpp:91-156 | no answer is ever replaced |
| `Executor.AnswerGiven` | src/client.cpp:91-156 | which answer each step gives: the refusal, overloaded, or what the task came to, to its own request |
| `Executor.NewCounts` | src/async/executor.cpp:18-24 | the thread count and the queue bound |
| `Executor.JoinedMeansAnswered` | src/async/executor.cpp:60-77 | when all workers have left after a shutdown, every accepted task has run and every request has its answer |
| `Executor.LateStart` | src/async/executor.cpp:32-37 | a post after the shutdown of an executor that never started starts workers that nothing joins |
| `Executor.GrowsWhenStopped` | src/async/executor.cpp:32-111 | the same for one step |
| `Executor.LateStartWhen` | src/async/executor.cpp:32-111 | over any run of a stopped executor, workers appear if and only if it never started and a request is posted, and then all of them |
| `Executor.StartsOnce` | src/async/executor.cpp:104-111 | a started executor never gets more workers |
| `Topology.InitClosed` | src/core/database_manager.cpp:2120-2259 | a successful initialisation is closed |
| `Topology.MakeGroupClosed` | src/core/database_manager.cpp:2383-2464 | a checked group refers to registered data sources only; its candidates are distinct and start with the primary |
| `Topology.WeightedInOrder` | src/core/database_manager.cpp:2409-2421 | every replica stands as often as its weight says, in order |
| `Topology.CandidatesInOrder` | src/core/database_manager.cpp:2422-2438 | every candidate not seen before occurs, where it is first named |
| `Topology.ResolvedWhen` | src/core/database_manager.cpp:2477-2517 | shadows resolve if and only if each group that asks for one asks for one that fits; each then has it and all else is as before |
| `Topology.AddWhen` | src/core/database_manager.cpp:2528-2580 | when a data source is added, and that it alone is new |
| `Topology.RemoveWhen` | src/core/database_manager.cpp:2582-2641 | when a data source is removed, and that it alone goes |
| `Topology.InsertWhen` | src/core/database_manager.cpp:2643-2688 | when a group is inserted, and what it is |
| `Topology.InitWhen` | src/core/database_manager.cpp:2120-2259 | when an initialisation succeeds |
| `Topology.StepClosed` | src/core/database_manager.cpp:2477-2767 | a critical section of adding and removing keeps the registry closed if and only if it is not an undoing whose name is a data source or the default by then |
| `Topology.StaysClosed` | src/core/database_manager.cpp:2297-2767 | a run is closed throughout if and only if no step is such an undoing; then every group's primary, replicas, candidates and shadow are registered data sources with a pool, listed replicas are flagged, group and pool names are apart, and the default is registered |
| `Topology.AddGroupClosed` | src/core/database_manager.cpp:2643-2719 | adding a group is all or nothing in names; a group taken back leaves the flags it raised |
| `Topology.RemoveGroupClosed` | src/core/database_manager.cpp:2721-2767 | removing a group makes the replica flags exact |
| `Topology.RollbackClosedWhen` | src/core/database_manager.cpp:2707-2717 | undoing an insertion keeps the registry closed if and only if the name is neither a data source nor the default by then |
| `Topology.UnfitStops` | src/core/database_manager.cpp:2477-2517 | whatever the order of the table, shadows cannot be resolved while a group asks for a shadow that is unknown or a group |
| `Topology.OvertakenRollback` | src/core/database_manager.cpp:2643-2719 | an interleaving of four threads: a group with an unknown shadow, another group that is removed and replaced by a data source of its name, and the failing resolution that undoes it and tears the data source out |
| `Topology.Manager.Add` | src/core/database_manager.cpp:2528-2580 | registers a data source under a new name |
| `Topology.Manager.FindUse` | src/core/database_manager.cpp:2596-2631 | the search for a group that still needs the name |
| `Topology.Manager.Remove` | src/core/database_manager.cpp:2582-2641 | removes a data source that is neither the default nor in use |
| `Topology.Manager.CheckRefs` | src/core/database_manager.cpp:2297-2331 | every name a group mentions owns a pool |
| `Topology.Manager.WeightReplicas` | src/core/database_manager.cpp:2409-2421 | replicas repeated by weight |
| `Topology.Manager.CollectCandidates` | src/core/database_manager.cpp:2422-2438 | candidates without repetition |
| `Topology.Manager.Insert` | src/core/database_manager.cpp:2651-2688 | the locked part of adding a group |
| `Topology.Manager.Resolve` | src/core/database_manager.cpp:2477-2517 | the shadow loop, which stops at the first misfit |
| `Topology.Manager.Undo` | src/core/database_manager.cpp:2707-2717 | erases the name |
| `Topology.Manager.DropGroup` | src/core/database_manager.cpp:2726-2757 | removes a group and recomputes the flags |

## Left out

- CacheKey.StatementKeyInjective: the conditions on names and on statement texts are sufficient and can be checked before the call; the families beside it show why each is there, not that every pair of names it shuts out collides.
- Network and driver calls: connecting, pinging, preparing and executing are outcomes that an event carries.
- Clocks and scheduling: every event names its own time, and nothing assumes that a thread ever runs.
- Timestamps.TryParseTimestamp: the host's local-time conversion is a parameter, and the clock is taken to count nanoseconds in 64 bits.
- PoolRuns.SlotsConserved: claims nothing about a closed pool, whose `total` the code adjusts inconsistently.
- QueryCache.State.PutEntry: the size of a result set is a parameter, because measuring it depends on the sizes of C++ objects; sizes are unbounded integers.
- Failover.ReachesAtMostOne: takes it that a connected driver's execute returns success, an error classified by `databaseError` or one of the refusals listed in `FromDriver`, and that a session refuses a statement with a status that is not about connections; a driver built without its client library lends no connection at all.
- Failover.DispatchWrite: the shadow branch, which tries its one target, and interceptors that change a status are not modelled; breaker timing is whatever the attempts meet.
- Executor.State.SubmitAsync: the client's Empty, Running and Closed states appear only as what its checks found; delayed tasks and the timer thread are not modelled.
- Topology.Manager.Insert: a write buffer that fails to start, rate limiters, heartbeats and data source objects that callers still hold after removal are not modelled.
- SlowSql.State.RecordSlow: the bounded list of recent records and the descriptive fields of a statistic are left out.
- WriteBuffer.State.SignalStop: two concurrent callers of stop are not modelled.
- PgText.SplitElements: bracket depth is an unbounded integer.
- Floating point: a double in a key is its 64-bit pattern; geometry, number formatting and sampling rates are left out.
- ConnectionPool.State.RecordSuccess: the borrow-wait totals are not tracked.
- ConnectionPool.State.Turn: neither are they here, nor is the greatest number of waiting threads.
- ConnectionPool.State.Borrow: the borrow-wait totals are not tracked.
- ConnectionPool.State.WakeUp: the borrow-wait totals are not tracked.
- ConnectionPool.State.ReturnConn: leak warnings and the time they need are left out.
- ConnectionPool.State.Shutdown: the method is the undisturbed one, without the grace wait; other threads during the drain are covered by the runs (`PoolRuns.DrainedForGood`).
- Executor.State.BeginShutdown: delayed tasks and the timer thread are not modelled.
- Failover.DriverFailuresStay: what a connected driver can return is the set `FromDriver`, of which the cited lines give the classified errors.
- QueryCache.QuietKept: one configuration at a time; two that overlap are not modelled.
- Counters of failed connects are not tracked in the pool.
- Rolling back a failed initialisation, configuration loading, logging, text rendering of statistics, the mapping templates and the other SQL lexers are left out: they add easy members or no state.
