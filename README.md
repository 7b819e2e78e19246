# borunovv/orm in Dafny

A model of a small Java database layer and object-relational mapper, with proofs about it:

- **`DBAccess`** has three parts:
  - a fixed-capacity connection pool (`ConnectionPool`);
  - the `exec` wrapper that takes a connection from the pool, runs a callback and puts the connection back;
  - the three public operations built on `exec`: `executeSelect`, `executeUpdate` and `executeInTransaction`.
- **`BeanUtils`** builds an entity object from one row's column values: it finds each annotated field's column (case-insensitive lookup), derives the setter name, finds the setter, converts the value and calls the setter.
- **`SimpleORM.findAll`** queries a whole table, then `toEntityList` turns every row of the result into an entity.

The JDBC objects are replaced by values:
- a connection is a `Session` (auto-commit flag, isolation level, updates pending in its open transaction);
- the database is the sequence of committed updates;
- a result set is a rectangular table of nullable strings;
- what the driver answers to each statement is a parameter: success or an `SQLException` code, and the rows of a query;
- the driver keeps a log (`issued`) of the SQL text of every statement it is handed, in order. The contracts use it to say which statements an operation sends.

Java exceptions are values (`Exceptions.Exc`). An operation returns `Result` (`Ok`/`Threw`), or `Call` (`Done`/`Failed`/`Blocked`) where it may wait.

Files, one module each:

| file | module | models |
|---|---|---|
| `exceptions.dfy` | `Exceptions` | exceptions, `Option`, `Result`, `Call` |
| `text.dfy` | `Text` | `equalsIgnoreCase`, `startsWith`, ASCII case conversion |
| `pool.dfy` | `Pool` | `DBAccess.ConnectionPool`: spec functions on a `PoolState` value, and the class `ConnectionPool` whose methods are proved equal to them |
| `jdbc.dfy` | `Jdbc` | what the executor relies on from `java.sql`: connection state, statements, `ResultSet.getString` |
| `executor.dfy` | `Executor` | `getFullUrl`, transaction bodies, one spec function per callback and for `exec`, and the class `DBAccess`, whose methods are imperative (the transaction's step loop, the loop that closes its result sets) and proved equal to the spec functions |
| `beans.dfy` | `Beans` | `BeanUtils`, `Long.parseLong` |
| `orm.dfy` | `Orm` | `SimpleORM` |

Behaviours of the code as written that the proofs make explicit:

- **`exec` replaces the pool's exception.** On a closed pool, `getConnection` throws `IllegalStateException("Pool is closed")`. The `finally` block then calls `putConnectionBack(null)`, which throws `IllegalArgumentException("Connection is null, url='…'")`. That second exception is what the caller sees (`Executor.ExecOn`, first postcondition).
- **A non-SQL failure in a transaction body can commit the body's earlier updates.**
  - `executeInTransaction` rolls back only on `SQLException`.
  - After any other exception, `finally` restores auto-commit. Per the JDBC API, switching auto-commit back on commits the open transaction.
  - So on a pooled connection, which has auto-commit on, the updates issued before the failure become durable (`Executor.TransactionKeepsWritesOnOtherFailure`, `Executor.UncheckedFailureCommitsEarlierUpdate`).
- **A full queue throws.** The pool's queue is an `ArrayBlockingQueue` of the pool's size. `putConnectionBack` uses `add`, so a put into a full queue throws `IllegalStateException("Queue full")`. A put of a handle the pool never lent can reach this case. The model keeps the queue's size (`bound`) apart from `capacity`, because `closeAll` sets `capacity` to 0.

Modelling choices:

- **The committed database is shared, not per connection.** It is one value seen by every connection. A `Session` holds only what JDBC keeps per connection: auto-commit, isolation and pending updates.
- **The model fixes the orders a `HashMap` leaves unspecified.**
  - `toEntityList`'s entry map iterates its keys in column order.
  - `getFieldMapping`'s map iterates the annotated fields in declaration order.
  - `newInstance` is stated for any order that visits each annotated field once (`Beans.Enumerates`). `findIgnoreCase` is stated for any key order (`keys`).

## Model

| member | source | states |
|---|---|---|
| Pool.Acquire | src/main/java/com/borunovv/db/DBAccess.java:238-254 | A closed pool (capacity 0) throws IllegalStateException("Pool is closed") and changes nothing. The call blocks exactly when the queue is empty and count >= capacity. Otherwise it returns the head of the queue and removes it. A new connection with a fresh id is created, and count rises by one, only when the queue is empty and count < capacity. The pool invariant is preserved. |
| Pool.Release | src/main/java/com/borunovv/db/DBAccess.java:256-261 | A null handle throws IllegalArgumentException with the URL and changes nothing. Any other handle is appended to the queue, with nothing else changed, when the queue has room. A full queue throws IllegalStateException("Queue full"). The invariant is preserved. |
| Pool.Drain | src/main/java/com/borunovv/db/DBAccess.java:263-272 | closeAll's take-and-close loop on the pool's state; what it does is stated by Pool.DrainClosedForm and Pool.DrainKeepsConsistent. |
| Pool.DrainClosedForm | src/main/java/com/borunovv/db/DBAccess.java:263-272 | With at least count connections queued, closeAll closes the first count of them, in queue order, each once. It then leaves count 0 and capacity 0. Otherwise it closes every queued connection and blocks with capacity unchanged. |
| Pool.DrainKeepsConsistent | src/main/java/com/borunovv/db/DBAccess.java:263-272 | closeAll preserves the pool invariant and the queue size. |
| Pool.AcquireLendsUnlent | src/main/java/com/borunovv/db/DBAccess.java:245-253 | getConnection never returns a connection that is checked out or still queued. The accounting (queued + lent = count, no duplicates) still holds afterwards, with the new connection lent. |
| Pool.InitialAccounted | src/main/java/com/borunovv/db/DBAccess.java:233-236 | A new pool satisfies the accounting with nothing checked out: no connection queued, lent or closed. |
| Pool.ReleaseTakesBackLent | src/main/java/com/borunovv/db/DBAccess.java:256-261 | Putting back a checked-out connection always succeeds. It appends the connection and keeps the accounting. |
| Pool.DrainKeepsAccounted | src/main/java/com/borunovv/db/DBAccess.java:263-272 | closeAll keeps the accounting whether it finishes or waits for a checked-out connection: it closes only queued connections, so none is closed twice, and a run after a blocked one still closes each connection once. |
| Pool.CloseAllWhenIdle | src/main/java/com/borunovv/db/DBAccess.java:263-272 | With nothing checked out, closeAll closes every live connection exactly once and ends with an empty queue, count 0 and capacity 0. Afterwards the closed connections are, without repetition, every connection the pool ever created. |
| Pool.CloseAllBlocksWhileLent | src/main/java/com/borunovv/db/DBAccess.java:265-266 | closeAll cannot finish while any connection is checked out. |
| Pool.RunKeepsConsistent | src/main/java/com/borunovv/db/DBAccess.java:228-273 | Over any sequence of pool calls: 0 <= count <= capacity <= the queue's bound, at most that bound queued, and the number of connections created equals count plus the number of close() calls made. A handle put back that the pool never lent is closed by closeAll in place of a lent one, as in the source, so this is a count and not a claim about which connections were closed. |
| Pool.CreatedAtMostCapacity | src/main/java/com/borunovv/db/DBAccess.java:245-251 | From construction, until a connection is closed, at most capacity connections are ever created. |
| Pool.ConnectionPool.constructor | src/main/java/com/borunovv/db/DBAccess.java:233-236 | A new pool: capacity and queue size equal to the argument, no connections, empty queue. |
| Pool.ConnectionPool.CreateNewConnection | src/main/java/com/borunovv/db/DBAccess.java:202-204 | Returns a connection id never handed out before. |
| Pool.ConnectionPool.GetConnection | src/main/java/com/borunovv/db/DBAccess.java:238-254 | The outcome and new state are those of Pool.Acquire, and the invariant is kept. |
| Pool.ConnectionPool.PutConnectionBack | src/main/java/com/borunovv/db/DBAccess.java:256-261 | The outcome and new state are those of Pool.Release. |
| Pool.ConnectionPool.CloseAll | src/main/java/com/borunovv/db/DBAccess.java:263-272 | The loop's outcome and new state are those of Pool.Drain, so Pool.DrainClosedForm describes it. |
| Jdbc.GetString | src/main/java/com/borunovv/orm/SimpleORM.java:54 | The value read is the row's value in the first column whose label equals the requested one ignoring case. |
| Jdbc.GetStringReadsFirstMatch | src/main/java/com/borunovv/orm/SimpleORM.java:54 | When column j is the first whose label matches ignoring case, getString reads column j, whatever later columns match. |
| Text.IndexIgnoreCase | src/main/java/com/borunovv/orm/BeanUtils.java:32-36 | The found key equals the target ignoring case, and no earlier key does. The result is none exactly when no key matches. |
| Executor.FullUrl | src/main/java/com/borunovv/db/DBAccess.java:190-200 | A URL starting with "jdbc:" is unchanged. Any other URL gets the prefix "jdbc:" + scheme + "://". The default query "?useUnicode=yes&characterEncoding=UTF-8" is appended exactly when the prefixed URL has no '?'. The result always starts with "jdbc:". |
| Executor.FullUrlIdempotent | src/main/java/com/borunovv/db/DBAccess.java:190-200 | Rewriting a rewritten URL changes nothing. |
| Executor.Body | src/main/java/com/borunovv/db/DBAccess.java:119-131 | The step loop of a transaction body as a value: its first failure, the updates and result sets of the steps before it, and the SQL sent. Stated by Executor.BodyWithoutFailure, Executor.BodyStopsAtFirstFailure, Executor.SentWithoutFailure and Executor.SentStopsAtFirstFailure. |
| Executor.BodyWithoutFailure | src/main/java/com/borunovv/db/DBAccess.java:119-131 | A body with no failing step issues every update, in order. It opens one result set per query. |
| Executor.BodyStopsAtFirstFailure | src/main/java/com/borunovv/db/DBAccess.java:119-131 | A body ends with the exception of its first failing step. It has issued the updates and opened the result sets of the steps before it, and no others. |
| Executor.SentWithoutFailure | src/main/java/com/borunovv/db/DBAccess.java:119-131 | A body with no failing step hands the driver the SQL of every step, in order: each update's statement and each query. |
| Executor.SentStopsAtFirstFailure | src/main/java/com/borunovv/db/DBAccess.java:119-131 | A body whose first failing step is i hands the driver the SQL of the steps before i and of step i itself, and nothing after. |
| Executor.Settle | src/main/java/com/borunovv/db/DBAccess.java:131-136 | commit after a successful body, rollback on an SQLException from the body or the commit, neither on any other exception. Stated by Executor.TransactionCommitsOnSuccess, Executor.TransactionRethrowsSqlStepFailure, Executor.TransactionRethrowsCommitFailure, Executor.TransactionRollsBackOnSqlFailure and Executor.TransactionKeepsWritesOnOtherFailure. |
| Executor.Update | src/main/java/com/borunovv/db/DBAccess.java:84-95 | The update callback succeeds exactly when the driver accepts the statement, and otherwise throws that SQLException. Auto-commit and isolation end as they began. Nothing is left pending. The database gains the connection's open transaction and then the statement if it succeeded. |
| Executor.Transaction | src/main/java/com/borunovv/db/DBAccess.java:107-148 | On every path the transaction callback restores auto-commit and isolation and keeps the connection coherent. It opens as many result sets as the body's queries. |
| Executor.TransactionCommitsOnSuccess | src/main/java/com/borunovv/db/DBAccess.java:131-133 | The transaction succeeds exactly when no step fails and the commit succeeds. The database then gains the pending updates followed by the body's updates, and nothing stays pending. |
| Executor.TransactionRollsBackOnSqlFailure | src/main/java/com/borunovv/db/DBAccess.java:134-136 | After an SQLException from the body or the commit, the database is unchanged and nothing is pending. When no step failed, the exception is the commit's. |
| Executor.TransactionRethrowsSqlStepFailure | src/main/java/com/borunovv/db/DBAccess.java:131-136 | When the first failing step throws an SQLException, the transaction rethrows that exception and rolls back: the database is as before and nothing is pending. |
| Executor.TransactionRethrowsCommitFailure | src/main/java/com/borunovv/db/DBAccess.java:131-136 | When no step fails and commit throws an SQLException, the transaction rethrows it and rolls back: the database is as before and nothing is pending. |
| Executor.TransactionKeepsWritesOnOtherFailure | src/main/java/com/borunovv/db/DBAccess.java:134-148 | A non-SQL exception from step i is rethrown without a rollback. With auto-commit on before the call, the updates before step i are committed. With it off, they stay pending. |
| Executor.UncheckedFailureCommitsEarlierUpdate | src/main/java/com/borunovv/db/DBAccess.java:134-148 | An example on a pooled connection: an update followed by an unchecked exception leaves the update committed. |
| Executor.UpdateOn | src/main/java/com/borunovv/db/DBAccess.java:79-100 | The update callback on the driver's state: Executor.Update on the lent connection, one statement opened and closed, the update logged. Stated by Executor.Update and Executor.WorkOn. |
| Executor.TransactionOn | src/main/java/com/borunovv/db/DBAccess.java:102-153 | The transaction callback on the driver's state: Executor.Transaction on the lent connection, the body's statements logged. Stated by Executor.Transaction, the Executor.Transaction* lemmas and Executor.WorkOn. |
| Executor.SelectOn | src/main/java/com/borunovv/db/DBAccess.java:57-75 | The select callback returns the processor's result on the rows, or the query's SQLException. The driver receives exactly the given query. It leaves connections and the database unchanged. |
| Executor.WorkOn | src/main/java/com/borunovv/db/DBAccess.java:54-153 | Every callback closes all it opened. The update and transaction callbacks leave every connection's auto-commit and isolation as they were. The select callback touches no connection state. The driver receives exactly the callback's SQL: the query, the update, or the body's statements. |
| Executor.ExecOn | src/main/java/com/borunovv/db/DBAccess.java:165-175 | On a closed pool, exec throws the IllegalArgumentException of putConnectionBack(null) and changes nothing. When it blocks, nothing changes. Otherwise the connection taken is put back exactly once, so queued minus created is as before. Pool and driver invariants are kept, every statement and result set is closed, and auto-commit and isolation are restored for updates and transactions. The driver receives exactly the callback's SQL when a connection is lent, and nothing otherwise. |
| Executor.ExecReturnsCallbackOutcome | src/main/java/com/borunovv/db/DBAccess.java:165-175 | On a pool with a connection to give, exec returns exactly the callback's outcome: the put back cannot fail. |
| Executor.DBAccess.constructor | src/main/java/com/borunovv/db/DBAccess.java:36-46 | The URL is stored rewritten by getFullUrl, and the pool is new with the given size. |
| Executor.DBAccess.WithDefaultPoolSize | src/main/java/com/borunovv/db/DBAccess.java:30-34 | The same, with a pool of size 1. |
| Executor.DBAccess.Close | src/main/java/com/borunovv/db/DBAccess.java:48-52 | close is closeAll on the pool: outcome and state as Pool.Drain. |
| Executor.DBAccess.EnsureInitialized | src/main/java/com/borunovv/db/DBAccess.java:177-181 | Succeeds exactly when there is a pool. Otherwise it throws IllegalStateException("Connection pool is null."). |
| Executor.DBAccess.RunSelect | src/main/java/com/borunovv/db/DBAccess.java:57-75 | The imperative select callback ends in the state and outcome of Executor.SelectOn. |
| Executor.DBAccess.RunUpdate | src/main/java/com/borunovv/db/DBAccess.java:82-97 | The imperative update callback ends as Executor.Update describes. |
| Executor.DBAccess.RunStep | src/main/java/com/borunovv/db/DBAccess.java:119-129 | One step of a body: it throws the step's exception, or adds its update to the open transaction, or leaves one new result set open. |
| Executor.DBAccess.RunNext | src/main/java/com/borunovv/db/DBAccess.java:119-131 | One turn of the step loop keeps its invariant: the updates, result sets and SQL sent so far are those of the body's first i steps, or the loop has stopped at the first failure. |
| Executor.DBAccess.RunBody | src/main/java/com/borunovv/db/DBAccess.java:119-131 | The step loop throws the body's first failure. It adds exactly the body's updates to the transaction, hands the driver exactly the body's statements, and records one open result set per query, with consecutive ids. |
| Executor.DBAccess.SettleOn | src/main/java/com/borunovv/db/DBAccess.java:133-136 | It commits when the body succeeded. It rolls back on an SQLException from the body or the commit. |
| Executor.DBAccess.CloseResultSets | src/main/java/com/borunovv/db/DBAccess.java:139-143 | The finally loop closes every result set the body opened, and only those. |
| Executor.DBAccess.BeginOn | src/main/java/com/borunovv/db/DBAccess.java:113-117 | Isolation becomes SERIALIZABLE (8), auto-commit goes off, and one statement opens. |
| Executor.DBAccess.FinishOn | src/main/java/com/borunovv/db/DBAccess.java:131-149 | After the body: commit or roll back as Executor.DBAccess.SettleOn, then close and restore as Executor.DBAccess.RestoreOn; the outcome is the transaction's. |
| Executor.DBAccess.RestoreOn | src/main/java/com/borunovv/db/DBAccess.java:137-149 | All result sets, then the statement, are closed. Auto-commit, then isolation, are restored. |
| Executor.DBAccess.RunTransaction | src/main/java/com/borunovv/db/DBAccess.java:105-151 | The imperative transaction callback ends as Executor.Transaction describes. Every statement and result set it opened is closed. |
| Executor.DBAccess.Exec | src/main/java/com/borunovv/db/DBAccess.java:165-175 | Without a pool it throws IllegalStateException. Otherwise the outcome and the pool and driver states are those of Executor.ExecOn. |
| Executor.DBAccess.ExecuteSelect | src/main/java/com/borunovv/db/DBAccess.java:54-77 | The processor's value through exec. Connections and the database are unchanged. The driver receives the query when a connection is lent. |
| Executor.DBAccess.ExecuteUpdate | src/main/java/com/borunovv/db/DBAccess.java:79-100 | The update through exec. Every connection's auto-commit is as before, and nothing stays open. The driver receives the update when a connection is lent. |
| Executor.DBAccess.ExecuteInTransaction | src/main/java/com/borunovv/db/DBAccess.java:102-153 | The transaction through exec. Every connection's auto-commit and isolation are as before, and nothing stays open. The driver receives the body's statements up to its first failure when a connection is lent. |
| Beans.ParseLong | src/main/java/com/borunovv/orm/BeanUtils.java:53 | Parsing succeeds exactly when the text is an optional sign followed by one or more digits denoting a value in the range of long, and then yields that value. Anything else, null included, throws NumberFormatException. |
| Beans.ParseLongExamples | src/main/java/com/borunovv/orm/BeanUtils.java:53 | "007" gives 7, "+5" gives 5, "-0" gives 0; the empty text, a lone sign and null throw NumberFormatException. |
| Beans.ParseLongToString | src/main/java/com/borunovv/orm/BeanUtils.java:53 | Every long reads back from its decimal form. |
| Beans.ConvertToType | src/main/java/com/borunovv/orm/BeanUtils.java:49-57 | String: the text unchanged, null included. long or Long: the parsed value, or NumberFormatException. Any other type: IllegalArgumentException naming the type. |
| Beans.SetterName | src/main/java/com/borunovv/orm/BeanUtils.java:60-63 | The result is "set", then the first letter in upper case, then the rest of the name. Its length is the name's length + 3, and its tail from index 4 is the name's tail. |
| Beans.SetterNameDeterminesField | src/main/java/com/borunovv/orm/BeanUtils.java:60-63 | Two names share a setter only if they differ at most in the case of their first letter. |
| Beans.FindMethod | src/main/java/com/borunovv/orm/BeanUtils.java:66-73 | It finds the first method whose name is exactly the one asked for. It throws IllegalArgumentException exactly when there is none. |
| Beans.FindIgnoreCase | src/main/java/com/borunovv/orm/BeanUtils.java:28-38 | With the exact key present, that key's value, even if other keys match ignoring case. Otherwise the value of the first key, in iteration order, equal ignoring case. It succeeds exactly when some key matches ignoring case, and otherwise throws IllegalArgumentException("Expected value for column '…'"). |
| Beans.GetFieldMapping | src/main/java/com/borunovv/orm/BeanUtils.java:76-88 | The loop's map holds exactly the fields annotated with @DBColumn, each mapped to its annotation value. |
| Beans.Annotated | src/main/java/com/borunovv/orm/BeanUtils.java:21 | The order in which newInstance visits the fields is exactly the annotated fields. |
| Beans.AnnotatedEnumerates | src/main/java/com/borunovv/orm/BeanUtils.java:21 | That order visits each annotated field exactly once. |
| Beans.NewInstance | src/main/java/com/borunovv/orm/BeanUtils.java:18-25 | The imperative loop over the fields gives the outcome of Beans.NewInstanceOf. |
| Beans.SetFields | src/main/java/com/borunovv/orm/BeanUtils.java:21-23 | The field loop of newInstance with setFieldValue (lines 41-45): find the column, find the setter, convert and assign, stopping at the first failure. Stated by Beans.SetFieldsSucceeds, Beans.SetFieldsStep, Beans.SetFieldsKeys, Beans.SetFieldsKeepsOthers and Beans.SetFieldsAssigns. |
| Beans.NewInstanceOf | src/main/java/com/borunovv/orm/BeanUtils.java:18-25 | newInstance for one enumeration order of the annotated fields. Stated by Beans.NewInstanceSetsEveryField and Beans.NewInstanceNeedsEveryColumn. |
| Beans.SetFieldsSucceeds | src/main/java/com/borunovv/orm/BeanUtils.java:41-45 | Setting the fields succeeds exactly when each one's column is found, its setter exists, and its value converts. |
| Beans.SetFieldsStep | src/main/java/com/borunovv/orm/BeanUtils.java:41-45 | A successful setFieldValue sets the field to its converted column value. |
| Beans.SetFieldsKeys | src/main/java/com/borunovv/orm/BeanUtils.java:21-23 | The object gains exactly the fields visited. |
| Beans.SetFieldsKeepsOthers | src/main/java/com/borunovv/orm/BeanUtils.java:21-23 | Fields not visited keep their values. |
| Beans.SetFieldsAssigns | src/main/java/com/borunovv/orm/BeanUtils.java:21-23 | Each visited field ends with its converted column value. |
| Beans.NewInstanceSetsEveryField | src/main/java/com/borunovv/orm/BeanUtils.java:18-25 | newInstance succeeds exactly when every annotated field can be set. Its object then holds every annotated field, and no other, set to the converted value of the field's column. |
| Beans.NewInstanceNeedsEveryColumn | src/main/java/com/borunovv/orm/BeanUtils.java:37 | If an annotated field's column matches no key, even ignoring case, newInstance fails. |
| Orm.GetTableName | src/main/java/com/borunovv/orm/SimpleORM.java:62-68 | The table of the @DBEntity annotation. Without the annotation it throws IllegalArgumentException("Expected annotation 'DBEntry' for calass '…'"). |
| Orm.FindAllQuery | src/main/java/com/borunovv/orm/SimpleORM.java:27 | The query starts with "SELECT * FROM `", ends with a backtick, and holds the table name between them. |
| Orm.QueriedTableOfFindAllQuery | src/main/java/com/borunovv/orm/SimpleORM.java:27 | The table read back between the prefix and the closing backtick is the one the query was built for. |
| Orm.FindAllQueryInjective | src/main/java/com/borunovv/orm/SimpleORM.java:27 | Distinct tables give distinct queries. |
| Orm.RowEntry | src/main/java/com/borunovv/orm/SimpleORM.java:53-55 | The loaded entry's keys are exactly the column labels. |
| Orm.CollectInOrder | src/main/java/com/borunovv/orm/SimpleORM.java:52-57 | Collecting per-row results succeeds exactly when every row succeeds, giving the values in order. Otherwise it fails as the first failing row does. |
| Orm.RowEntity | src/main/java/com/borunovv/orm/SimpleORM.java:52-57 | newInstance on one row's entry. Stated by Orm.EntityListOnePerRow. |
| Orm.EntityList | src/main/java/com/borunovv/orm/SimpleORM.java:40-60 | toEntityList as a value: every row's entity, or the first row's failure. Stated by Orm.EntityListOnePerRow and Orm.CollectInOrder. |
| Orm.EntityListOnePerRow | src/main/java/com/borunovv/orm/SimpleORM.java:52-57 | toEntityList gives exactly one entity per row, in row order, each built from that row's values. Otherwise it fails as the first row that cannot be mapped. |
| Orm.LoadColumns | src/main/java/com/borunovv/orm/SimpleORM.java:44-50 | The array holds the column labels in order. The entry map's keys are exactly those labels, each mapped to null. |
| Orm.LoadRow | src/main/java/com/borunovv/orm/SimpleORM.java:53-55 | After the inner loop, every column's entry holds that row's value. |
| Orm.ToEntityList | src/main/java/com/borunovv/orm/SimpleORM.java:40-60 | The imperative loops give the outcome of Orm.EntityList. |
| Orm.MapRows | src/main/java/com/borunovv/orm/SimpleORM.java:30-36 | The processor returns toEntityList's entities. Any mapping failure is rethrown as RuntimeException("Error ORM mapping") with that failure as its cause. |
| Orm.FindAllOn | src/main/java/com/borunovv/orm/SimpleORM.java:26-38 | findAll for an annotated class: exec of the select callback with the table's query and the mapping processor. Stated by Orm.FindAllReturnsEntities and Orm.FindAll. |
| Orm.FindAll | src/main/java/com/borunovv/orm/SimpleORM.java:26-38 | Without @DBEntity it throws before touching the pool or the driver. Otherwise it runs executeSelect of the table's query with the mapping processor, and the one statement the driver receives is SELECT * FROM `table` (when a connection is lent). |
| Orm.FindAllReturnsEntities | src/main/java/com/borunovv/orm/SimpleORM.java:26-38 | On a pool with a connection to give, findAll returns one of three outcomes: the entities of every row, the query's SQLException, or the wrapped mapping failure. The driver receives exactly the table's query. Connections and the database are unchanged. |

## Left out

- **Concurrency.** `synchronized`, `volatile` and the waiting in `ArrayBlockingQueue.take` are not modelled. A call that would wait is reported as `Blocked`, and the state it would wait in is shown. `InterruptedException` is therefore never thrown.
- **Driver bootstrap.** `init` (`Class.forName` guarded by an `AtomicBoolean`) and the driver class name, user and password are not modelled. `DriverManager.getConnection` becomes a fresh-id counter and never fails.
- **`getMetaData`.** Not modelled: it only passes the driver's metadata through `exec`.
- **Failures of cleanup calls.** `Statement.close`, `ResultSet.close`, `Connection.close`, `rollback`, `setAutoCommit`, `setTransactionIsolation` and `createStatement` always succeed in the model. Only the statements the caller issues, and `commit`, can fail. `ResultSet.next`, `getMetaData` and `getColumnName` never fail either, so `toEntityList` sees no driver failure while it iterates over the rows.
- **Transaction bodies are scripts.** In the source the body of `executeInTransaction` is arbitrary caller code. The model's body is a sequence of steps that ends at its first failing call. A body that catches an SQLException from `executeUpdate` or `executeSelect`, carries on and then commits cannot be expressed. `TransactionCommitsOnSuccess`'s "exactly when" is about such scripts only.
- **Several queries on one statement.** By JDBC, a statement closes its previous result set when it executes again. The model keeps each result set open until `finally` closes it, as the source's own bookkeeping does.
- **Names versus labels.** `ResultSetMetaData.getColumnName` and the labels `getString` matches are taken to be the same strings.
- **Case and digits.** `equalsIgnoreCase` and `toUpperCase` are modelled on ASCII letters only. `Long.parseLong` is modelled on ASCII digits only, where Java also accepts other Unicode digits.
- **Reflection.** Not modelled:
  - the failures of `Class.newInstance`: `InstantiationException` and `IllegalAccessException`;
  - the failures of `Method.invoke`: an argument type the setter does not accept, and `InvocationTargetException` from the setter itself;
  - the default values a fresh object has in fields it does not map.

  A setter is taken to assign the field it is named after. Two fields whose names differ only in the case of their first letter (`id` and `Id`) share the setter name `setId`; the source then calls that one method twice, and the model assumes each field still gets its own value, as though the setters were distinct. An `Instance` records only the fields set.
- **Pool.ConnectionPool.constructor** requires a capacity of at least 1. `ArrayBlockingQueue` throws `IllegalArgumentException` otherwise, and that failure is not modelled.
- **Executor.DBAccess.constructor** requires a pool size of at least 1, for the same reason: the pool's `ArrayBlockingQueue` would throw `IllegalArgumentException`, and that failure is not modelled.
- **Jdbc.GetString** is only asked for labels the result set has. The mapper never asks for another label, so the `SQLException` for an unknown label is not modelled.
- **Declarations and subclasses.** The annotation declarations `DBColumn`/`DBEntity` are not modelled, nor are the `H2Access`/`MySQLAccess` subclasses. The subclasses only fix the scheme passed to `getFullUrl`.
