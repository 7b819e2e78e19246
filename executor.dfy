/** The executor, DBAccess: every operation checks out one pooled connection, runs a callback on
    it and hands the connection back in a `finally`. The driver side (the connections' state, the
    committed database, the open statements and result sets) is the Backend value; the driver's
    answers to statements are inputs. */
module Executor {
  import opened Exceptions
  import opened Text
  import opened Pool
  import opened Jdbc

  const DefaultConnectionPoolSize := 1
  const NullPoolMessage := "Connection pool is null."
  const JdbcPrefix := "jdbc:"
  const DefaultUrlQuery := "?useUnicode=yes&characterEncoding=UTF-8"

  /** getFullUrl: a URL that is not already a JDBC URL gets "jdbc:<scheme>://" in front, and the
      UTF-8 query when it then has no '?'. */
  function FullUrl(scheme: string, url: string): (r: string)
    ensures StartsWith(url, JdbcPrefix) ==> r == url
    ensures !StartsWith(url, JdbcPrefix) ==>
      var prefixed := JdbcPrefix + scheme + "://" + url;
      && StartsWith(r, prefixed)
      && r[|prefixed|..] == (if '?' in prefixed then "" else DefaultUrlQuery)
    ensures StartsWith(r, JdbcPrefix)
  {
    var protocolPrefix := JdbcPrefix + scheme + "://";
    if !StartsWith(url, JdbcPrefix) then
      var fullUrl := protocolPrefix + url;
      assert fullUrl[..|JdbcPrefix|] == JdbcPrefix;
      if '?' !in fullUrl then
        assert (fullUrl + DefaultUrlQuery)[..|JdbcPrefix|] == JdbcPrefix;
        fullUrl + DefaultUrlQuery
      else fullUrl
    else url
  }

  /** The executor's URL is already full, so rewriting it again changes nothing. */
  lemma FullUrlIdempotent(scheme: string, url: string)
    ensures FullUrl(scheme, FullUrl(scheme, url)) == FullUrl(scheme, url)
  {
  }

  // ---------------------------------------------------------------- transaction bodies

  /** One thing a transaction body does with the query executor it is handed, or the body
      throwing on its own. */
  datatype Step =
    | UpdateStep(sql: string, reply: Reply)         // queryExecutor.executeUpdate(sql)
    | SelectStep(query: string, result: QueryReply) // queryExecutor.executeSelect(query)
    | Raise(exc: Exc)                               // the body throws exc

  /** The exception a step throws, if any. */
  function StepFailure(s: Step): Option<Exc> {
    match s
    case UpdateStep(_, Failure(code)) => Some(Sql(code))
    case SelectStep(_, QueryFailure(code)) => Some(Sql(code))
    case Raise(e) => Some(e)
    case _ => None
  }

  predicate NoFailure(steps: seq<Step>) {
    forall i :: 0 <= i < |steps| ==> StepFailure(steps[i]).None?
  }

  /** The update a step issues successfully, if any. */
  function StepWrites(s: Step): seq<string> {
    if s.UpdateStep? && s.reply.Success? then [s.sql] else []
  }

  /** The updates the steps issue successfully, in order. */
  function Writes(steps: seq<Step>): seq<string> {
    if steps == [] then [] else StepWrites(steps[0]) + Writes(steps[1..])
  }

  /** The SQL text a step hands to the driver; a body throwing on its own sends nothing. */
  function StepSent(s: Step): seq<string> {
    match s
    case UpdateStep(sql, _) => [sql]
    case SelectStep(query, _) => [query]
    case Raise(_) => []
  }

  /** The SQL text of every step, in order. */
  function Statements(steps: seq<Step>): seq<string> {
    if steps == [] then [] else StepSent(steps[0]) + Statements(steps[1..])
  }

  /** The result sets the steps open. */
  function Selects(steps: seq<Step>): nat {
    if steps == [] then 0
    else (if steps[0].SelectStep? && steps[0].result.Rows? then 1 else 0) + Selects(steps[1..])
  }

  /** How a body ends: the exception it throws (if any), the updates it issued before that, the
      number of result sets it opened, and the SQL text it handed to the driver, the failing
      statement included. */
  datatype BodyEnd = BodyEnd(failure: Option<Exc>, writes: seq<string>, cursors: nat, sent: seq<string>)

  function Body(steps: seq<Step>): BodyEnd {
    if steps == [] then BodyEnd(None, [], 0, [])
    else if StepFailure(steps[0]).Some? then BodyEnd(StepFailure(steps[0]), [], 0, StepSent(steps[0]))
    else
      var rest := Body(steps[1..]);
      match steps[0]
      case UpdateStep(sql, _) => rest.(writes := [sql] + rest.writes, sent := [sql] + rest.sent)
      case SelectStep(query, _) => rest.(cursors := rest.cursors + 1, sent := [query] + rest.sent)
  }

  /** The body's end so far, followed by the rest of it. */
  function Then(writes: seq<string>, cursors: nat, sent: seq<string>, rest: BodyEnd): BodyEnd {
    BodyEnd(rest.failure, writes + rest.writes, cursors + rest.cursors, sent + rest.sent)
  }

  /** One step that does not fail moves its update or its result set into the part already done. */
  lemma ThenStep(writes: seq<string>, cursors: nat, sent: seq<string>, steps: seq<Step>, i: nat)
    requires i < |steps| && StepFailure(steps[i]).None?
    ensures Then(writes, cursors, sent, Body(steps[i..])) ==
            Then(writes + StepWrites(steps[i]), cursors + (if steps[i].SelectStep? then 1 else 0),
                 sent + StepSent(steps[i]), Body(steps[i + 1..]))
  {
    assert steps[i..][0] == steps[i] && steps[i..][1..] == steps[i + 1..];
    var rest := Body(steps[i + 1..]);
    assert sent + (StepSent(steps[i]) + rest.sent) == sent + StepSent(steps[i]) + rest.sent;
    if steps[i].UpdateStep? {
      assert writes + ([steps[i].sql] + rest.writes) == writes + [steps[i].sql] + rest.writes;
    }
  }

  /** A failing step ends the body with its own statement the last sent. */
  lemma ThenFailure(writes: seq<string>, cursors: nat, sent: seq<string>, steps: seq<Step>, i: nat)
    requires i < |steps| && StepFailure(steps[i]).Some?
    ensures Then(writes, cursors, sent, Body(steps[i..])) ==
            BodyEnd(StepFailure(steps[i]), writes + StepWrites(steps[i]), cursors, sent + StepSent(steps[i]))
  {
    assert steps[i..][0] == steps[i];
    assert writes + [] == writes;
  }

  /** A body that meets no failure issues every update and opens every result set. */
  lemma {:induction false} BodyWithoutFailure(steps: seq<Step>)
    ensures Body(steps).failure.None? <==> NoFailure(steps)
    ensures NoFailure(steps) ==> Body(steps).writes == Writes(steps) && Body(steps).cursors == Selects(steps)
  {
    if steps != [] {
      BodyWithoutFailure(steps[1..]);
      if StepFailure(steps[0]).None? {
        assert NoFailure(steps) <==> NoFailure(steps[1..]) by {
          if NoFailure(steps[1..]) {
            forall i | 0 <= i < |steps| ensures StepFailure(steps[i]).None? {
              if i > 0 { assert steps[i] == steps[1..][i - 1]; }
            }
          }
          if NoFailure(steps) {
            forall i | 0 <= i < |steps[1..]| ensures StepFailure(steps[1..][i]).None? {
              assert steps[1..][i] == steps[i + 1];
            }
          }
        }
      }
    }
  }

  /** A body that meets no failure hands the driver every statement, in order. */
  lemma {:induction false} SentWithoutFailure(steps: seq<Step>)
    requires NoFailure(steps)
    ensures Body(steps).sent == Statements(steps)
  {
    if steps != [] {
      assert StepFailure(steps[0]).None?;
      forall i | 0 <= i < |steps[1..]| ensures StepFailure(steps[1..][i]).None? {
        assert steps[1..][i] == steps[i + 1];
      }
      SentWithoutFailure(steps[1..]);
    }
  }

  /** A body stops at its first failing step: it throws that step's exception, having issued the
      updates and opened the result sets of the steps before it. */
  lemma {:induction false} BodyStopsAtFirstFailure(steps: seq<Step>, i: nat)
    requires i < |steps| && StepFailure(steps[i]).Some?
    requires forall j :: 0 <= j < i ==> StepFailure(steps[j]).None?
    ensures Body(steps).failure == StepFailure(steps[i])
    ensures Body(steps).writes == Writes(steps[..i]) && Body(steps).cursors == Selects(steps[..i])
  {
    if i > 0 {
      forall j | 0 <= j < i - 1 ensures StepFailure(steps[1..][j]).None? {
        assert steps[1..][j] == steps[j + 1];
      }
      BodyStopsAtFirstFailure(steps[1..], i - 1);
      assert steps[..i][1..] == steps[1..][..i - 1];
    }
  }

  /** The driver receives the statements of the steps before the first failing one, and that
      step's own statement last. */
  lemma {:induction false} SentStopsAtFirstFailure(steps: seq<Step>, i: nat)
    requires i < |steps| && StepFailure(steps[i]).Some?
    requires forall j :: 0 <= j < i ==> StepFailure(steps[j]).None?
    ensures Body(steps).sent == Statements(steps[..i]) + StepSent(steps[i])
  {
    if i > 0 {
      forall j | 0 <= j < i - 1 ensures StepFailure(steps[1..][j]).None? {
        assert steps[1..][j] == steps[j + 1];
      }
      SentStopsAtFirstFailure(steps[1..], i - 1);
      assert steps[..i][1..] == steps[1..][..i - 1];
      assert steps[1..][i - 1] == steps[i];
      assert StepSent(steps[0]) + (Statements(steps[1..][..i - 1]) + StepSent(steps[i])) ==
             StepSent(steps[0]) + Statements(steps[1..][..i - 1]) + StepSent(steps[i]);
    } else {
      assert Statements(steps[..0]) == [];
      assert StepSent(steps[0]) + [] == StepSent(steps[0]);
    }
  }

  // ---------------------------------------------------------------- the callbacks, on one connection

  /** The callback of executeUpdate: force auto-commit on, run the update, restore auto-commit. */
  function Update(c: Session, db: Database, sql: string, reply: Reply): (r: (Result<()>, Session, Database))
    ensures r.1.autoCommit == c.autoCommit && r.1.isolation == c.isolation
    ensures r.0.Ok? <==> reply.Success?
    ensures r.0.Threw? ==> r.0.exc == Sql(reply.errorCode)
    // an open transaction left on the connection is committed first, by setAutoCommit(true)
    ensures Coherent(c) ==>
      r.1.pending == [] && r.2 == db + c.pending + (if reply.Success? then [sql] else [])
  {
    var autoCommitBefore := c.autoCommit;
    var (c1, db1) := SetAutoCommit(c, true, db);
    var (res, c2, db2) := ExecuteStatement(c1, db1, sql, reply);
    var (c3, db3) := SetAutoCommit(c2, autoCommitBefore, db2);
    (res, c3, db3)
  }

  /** How executeInTransaction's callback leaves the connection: its outcome, the connection, the
      database, and the number of result sets the body opened (all closed again). */
  datatype TxEnd = TxEnd(outcome: Result<()>, session: Session, db: Database, cursors: nat)

  /** The end of the try block and the catch clause: commit when the body succeeded, and roll back
      on an SQLException from the body or from the commit. */
  function Settle(bodyFailure: Option<Exc>, c: Session, db: Database, commitReply: Reply): (Option<Exc>, Session, Database) {
    var (failure, c1, db1) :=
      if bodyFailure.Some? then (bodyFailure, c, db)
      else match commitReply
        case Success => var (cc, dd) := Commit(c, db); (None, cc, dd)
        case Failure(code) => (Some(Sql(code)), c, db);
    (failure, if failure.Some? && failure.value.Sql? then Rollback(c1) else c1, db1)
  }

  /** The callback of executeInTransaction: isolation SERIALIZABLE and auto-commit off, run the
      body, commit; on an SQLException from the body or the commit roll back and rethrow; in all
      cases restore auto-commit, then isolation. */
  function Transaction(c: Session, db: Database, steps: seq<Step>, commitReply: Reply): (r: TxEnd)
    ensures r.session.autoCommit == c.autoCommit && r.session.isolation == c.isolation
    ensures Coherent(c) ==> Coherent(r.session)
    ensures r.cursors == Body(steps).cursors
  {
    var (c1, db1) := SetAutoCommit(c.(isolation := TransactionSerializable), false, db);
    var b := Body(steps);
    var (failure, c4, db3) := Settle(b.failure, c1.(pending := c1.pending + b.writes), db1, commitReply);
    var (c5, db5) := SetAutoCommit(c4, c.autoCommit, db3);
    TxEnd(if failure.Some? then Threw(failure.value) else Ok(()), c5.(isolation := c.isolation), db5, b.cursors)
  }

  /** Commit happens exactly when the body and the commit succeed; it makes the body's updates
      durable after whatever the connection had pending. */
  lemma TransactionCommitsOnSuccess(c: Session, db: Database, steps: seq<Step>, commitReply: Reply)
    ensures Transaction(c, db, steps, commitReply).outcome.Ok? <==> NoFailure(steps) && commitReply.Success?
    ensures Transaction(c, db, steps, commitReply).outcome.Ok? ==>
      && Transaction(c, db, steps, commitReply).db == db + c.pending + Writes(steps)
      && Transaction(c, db, steps, commitReply).session.pending == []
      && Transaction(c, db, steps, commitReply).cursors == Selects(steps)
  {
    BodyWithoutFailure(steps);
  }

  /** An SQLException from the body or from commit rolls back: the database is as before and
      nothing stays pending. */
  lemma TransactionRollsBackOnSqlFailure(c: Session, db: Database, steps: seq<Step>, commitReply: Reply)
    requires Transaction(c, db, steps, commitReply).outcome.Threw?
    requires Transaction(c, db, steps, commitReply).outcome.exc.Sql?
    ensures Transaction(c, db, steps, commitReply).db == db
    ensures Transaction(c, db, steps, commitReply).session.pending == []
    ensures NoFailure(steps) ==>
      commitReply.Failure? && Transaction(c, db, steps, commitReply).outcome.exc == Sql(commitReply.errorCode)
  {
    BodyWithoutFailure(steps);
  }

  /** A step that fails with an SQLException ends the body: the transaction rethrows that very
      exception and rolls back, so none of the body's updates reach the database and nothing
      stays pending. */
  lemma TransactionRethrowsSqlStepFailure(c: Session, db: Database, steps: seq<Step>, commitReply: Reply,
                                          i: nat, code: int)
    requires i < |steps| && StepFailure(steps[i]) == Some(Sql(code))
    requires forall j :: 0 <= j < i ==> StepFailure(steps[j]).None?
    ensures Transaction(c, db, steps, commitReply).outcome == Threw(Sql(code))
    ensures Transaction(c, db, steps, commitReply).db == db
    ensures Transaction(c, db, steps, commitReply).session.pending == []
  {
    BodyStopsAtFirstFailure(steps, i);
  }

  /** After a body that does not fail, a refused commit is rethrown and rolled back. */
  lemma TransactionRethrowsCommitFailure(c: Session, db: Database, steps: seq<Step>, code: int)
    requires NoFailure(steps)
    ensures Transaction(c, db, steps, Failure(code)).outcome == Threw(Sql(code))
    ensures Transaction(c, db, steps, Failure(code)).db == db
    ensures Transaction(c, db, steps, Failure(code)).session.pending == []
  {
    BodyWithoutFailure(steps);
  }

  /** Any other exception from the body skips the rollback, so the updates issued before it stay in
      the transaction, and restoring auto-commit on a connection that had it on commits them. */
  lemma TransactionKeepsWritesOnOtherFailure(c: Session, db: Database, steps: seq<Step>, commitReply: Reply, i: nat)
    requires i < |steps| && StepFailure(steps[i]).Some? && !StepFailure(steps[i]).value.Sql?
    requires forall j :: 0 <= j < i ==> StepFailure(steps[j]).None?
    ensures Transaction(c, db, steps, commitReply).outcome == Threw(StepFailure(steps[i]).value)
    ensures c.autoCommit ==>
      && Transaction(c, db, steps, commitReply).db == db + c.pending + Writes(steps[..i])
      && Transaction(c, db, steps, commitReply).session.pending == []
    ensures !c.autoCommit ==>
      && Transaction(c, db, steps, commitReply).db == db
      && Transaction(c, db, steps, commitReply).session.pending == c.pending + Writes(steps[..i])
  {
    BodyStopsAtFirstFailure(steps, i);
  }

  /** For instance: one update, then the body throws an unchecked exception; on a pooled
      connection (auto-commit on, nothing pending) the update ends up committed. */
  lemma UncheckedFailureCommitsEarlierUpdate(isolation: int, db: Database, sql: string, commitReply: Reply)
    ensures Transaction(Fresh(isolation), db, [UpdateStep(sql, Success), Raise(Unchecked("boom"))], commitReply)
            == TxEnd(Threw(Unchecked("boom")), Fresh(isolation), db + [sql], 0)
  {
    var steps := [UpdateStep(sql, Success), Raise(Unchecked("boom"))];
    BodyStopsAtFirstFailure(steps, 1);
    assert Writes(steps[..1]) == [sql];
  }

  // ---------------------------------------------------------------- the executor's world

  /** The driver side: every connection's state (those never touched are Fresh), the committed
      database, the statements and result sets open, the next id for one, and the SQL text of
      every statement handed to the driver, in order. */
  datatype Backend = Backend(defaultIsolation: int, sessions: map<ConnId, Session>, committed: Database,
                             open: set<nat>, nextResource: nat, issued: seq<string>)

  function SessionOf(b: Backend, id: ConnId): Session {
    if id in b.sessions then b.sessions[id] else Fresh(b.defaultIsolation)
  }

  ghost predicate Tidy(b: Backend) {
    && (forall x :: x in b.open ==> x < b.nextResource)
    && (forall id :: id in b.sessions ==> Coherent(b.sessions[id]))
  }

  /** What the callback of an operation does, with the captured arguments and the driver's answers. */
  datatype Work<T> =
    | SelectWork(query: string, result: QueryReply, processor: ResultSet -> Result<T>)
    | UpdateWork(sql: string, reply: Reply)
    | TransactionWork(steps: seq<Step>, commitReply: Reply)

  /** What a callback returns: the processor's value, or the 0 the update and transaction
      callbacks return. */
  datatype CallbackValue<T> = Value(value: T) | Zero

  /** The select callback: a statement, a result set handed to the processor, both closed. */
  function SelectOn<T>(b: Backend, query: string, reply: QueryReply, processor: ResultSet -> Result<T>): (r: (Result<T>, Backend))
    ensures r.1 == b.(nextResource := r.1.nextResource, issued := b.issued + [query])
    ensures r.1.nextResource > b.nextResource
    ensures reply.QueryFailure? ==> r.0 == Threw(Sql(reply.errorCode))
    ensures reply.Rows? ==> r.0 == processor(reply.rs)
  {
    match reply
    case QueryFailure(code) => (Threw(Sql(code)), b.(nextResource := b.nextResource + 1, issued := b.issued + [query]))
    case Rows(rs) => (processor(rs), b.(nextResource := b.nextResource + 2, issued := b.issued + [query]))
  }

  function UpdateOn(b: Backend, id: ConnId, sql: string, reply: Reply): (Result<()>, Backend) {
    var (res, c, db) := Update(SessionOf(b, id), b.committed, sql, reply);
    (res, b.(sessions := b.sessions[id := c], committed := db, nextResource := b.nextResource + 1,
             issued := b.issued + [sql]))
  }

  function TransactionOn(b: Backend, id: ConnId, steps: seq<Step>, commitReply: Reply): (Result<()>, Backend) {
    var t := Transaction(SessionOf(b, id), b.committed, steps, commitReply);
    (t.outcome, b.(sessions := b.sessions[id := t.session], committed := t.db,
                   nextResource := b.nextResource + 1 + t.cursors, issued := b.issued + Body(steps).sent))
  }

  /** The SQL text a callback hands to the driver. */
  function WorkSent<T>(work: Work<T>): seq<string> {
    match work
    case SelectWork(query, _, _) => [query]
    case UpdateWork(sql, _) => [sql]
    case TransactionWork(steps, _) => Body(steps).sent
  }

  function WorkOn<T>(b: Backend, id: ConnId, work: Work<T>): (r: (Result<CallbackValue<T>>, Backend))
    ensures r.1.open == b.open && r.1.defaultIsolation == b.defaultIsolation && r.1.nextResource >= b.nextResource
    ensures r.1.issued == b.issued + WorkSent(work)
    ensures Tidy(b) ==> Tidy(r.1)
    ensures work.SelectWork? ==> r.1.sessions == b.sessions && r.1.committed == b.committed
    ensures work.SelectWork? && r.0.Ok? ==> r.0.value.Value?
    ensures !work.SelectWork? ==> forall c :: SessionOf(r.1, c).autoCommit == SessionOf(b, c).autoCommit
                                          && SessionOf(r.1, c).isolation == SessionOf(b, c).isolation
  {
    match work
    case SelectWork(query, reply, processor) =>
      var (res, b1) := SelectOn(b, query, reply, processor);
      (match res case Ok(v) => Ok(Value(v)) case Threw(e) => Threw(e), b1)
    case UpdateWork(sql, reply) =>
      var (res, b1) := UpdateOn(b, id, sql, reply);
      (match res case Ok(_) => Ok(Zero) case Threw(e) => Threw(e), b1)
    case TransactionWork(steps, commitReply) =>
      var (res, b1) := TransactionOn(b, id, steps, commitReply);
      (match res case Ok(_) => Ok(Zero) case Threw(e) => Threw(e), b1)
  }

  /** Java's try/finally: an exception from the finally block replaces the try block's outcome. */
  function Finally<T>(body: Call<T>, cleanup: Result<()>): (r: Call<T>)
    ensures cleanup.Ok? ==> r == body
    ensures cleanup.Threw? ==> r == Failed(cleanup.exc)
  {
    if cleanup.Threw? then Failed(cleanup.exc) else body
  }

  /** exec: take a connection, run the callback, and put the connection back in `finally`. */
  function ExecOn<T>(p: PoolState, b: Backend, work: Work<T>): (r: (Call<CallbackValue<T>>, PoolState, Backend))
    // on a closed pool getConnection's IllegalStateException is replaced by the
    // IllegalArgumentException of putConnectionBack(null)
    ensures p.capacity == 0 ==> r == (Failed(IllegalArgument(NullConnectionMessage(p.url))), p, b)
    ensures Acquire(p).0.Blocked? ==> r == (Blocked, p, b)
    // the connection taken is put back exactly once, so as many connections are checked out as before
    ensures Consistent(p) && Acquire(p).0.Done? ==>
      && r.1 == Acquire(p).1.(free := Acquire(p).1.free + [Acquire(p).0.value])
      && r.1.count - |r.1.free| == p.count - |p.free|
    ensures Consistent(p) ==> Consistent(r.1)
    // the driver sees the callback's statements exactly when a connection was lent
    ensures Acquire(p).0.Done? ==> r.2.issued == b.issued + WorkSent(work)
    ensures !Acquire(p).0.Done? ==> r.2 == b
    ensures r.2.open == b.open
    ensures Tidy(b) ==> Tidy(r.2)
    ensures work.SelectWork? && r.0.Done? ==> r.0.value.Value?
    ensures !work.SelectWork? ==> forall c :: SessionOf(r.2, c).autoCommit == SessionOf(b, c).autoCommit
                                          && SessionOf(r.2, c).isolation == SessionOf(b, c).isolation
  {
    var (got, p1) := Acquire(p);
    match got
    case Blocked => (Blocked, p1, b)
    case Failed(e) =>
      var (released, p2) := Release(p1, Null);
      (Finally(Failed(e), released), p2, b)
    case Done(id) =>
      var (res, b1) := WorkOn(b, id, work);
      var (released, p2) := Release(p1, Conn(id));
      (Finally(match res case Ok(v) => Done(v) case Threw(e) => Failed(e), released), p2, b1)
  }

  /** On a pool with a connection to give, exec returns what the callback returns: putting the
      connection back always succeeds. */
  lemma ExecReturnsCallbackOutcome<T>(p: PoolState, b: Backend, work: Work<T>)
    requires Consistent(p) && p.capacity > 0 && !(p.free == [] && p.count >= p.capacity)
    ensures Acquire(p).0.Done?
    ensures var (res, b1) := WorkOn(b, Acquire(p).0.value, work);
            && ExecOn(p, b, work).0 == (match res case Ok(v) => Done(v) case Threw(e) => Failed(e))
            && ExecOn(p, b, work).2 == b1
  {
  }

  /** The select operations return the processor's value. */
  function Unwrap<T>(c: Call<CallbackValue<T>>): Call<T>
    requires c.Done? ==> c.value.Value?
  {
    match c
    case Done(v) => Done(v.value)
    case Failed(e) => Failed(e)
    case Blocked => Blocked
  }

  /** The update and transaction operations return nothing. */
  function Discard<T>(c: Call<T>): Call<()> {
    match c
    case Done(_) => Done(())
    case Failed(e) => Failed(e)
    case Blocked => Blocked
  }

  /** DBAccess, with the state of the driver beside it. */
  class DBAccess {
    const protocolScheme: string
    const dbUrl: string
    const pool: ConnectionPool?
    /** The isolation level the driver gives a new connection. */
    const defaultIsolation: int
    var sessions: map<ConnId, Session>
    var committed: Database
    var open: set<nat>
    var nextResource: nat
    var issued: seq<string>

    function BackendState(): Backend
      reads this
    {
      Backend(defaultIsolation, sessions, committed, open, nextResource, issued)
    }

    ghost predicate Valid()
      reads this, pool
    {
      && (pool != null ==> pool.Valid() && pool.url == dbUrl)
      && Tidy(BackendState())
    }

    /** The six-argument constructor, minus the driver class name and the credentials, which only
        the driver uses; `database` is what the database holds already. */
    constructor (protocolScheme: string, url: string, poolSize: int, defaultIsolation: int, database: Database)
      requires poolSize >= 1
      ensures Valid() && pool != null && fresh(pool)
      ensures this.protocolScheme == protocolScheme && dbUrl == FullUrl(protocolScheme, url)
      ensures pool.State() == Initial(poolSize, dbUrl)
      ensures BackendState() == Backend(defaultIsolation, map[], database, {}, 0, [])
    {
      var fullUrl := FullUrl(protocolScheme, url);
      this.protocolScheme := protocolScheme;
      dbUrl := fullUrl;
      this.defaultIsolation := defaultIsolation;
      pool := new ConnectionPool(poolSize, fullUrl);
      sessions := map[];
      committed := database;
      open := {};
      nextResource := 0;
      issued := [];
    }

    /** The five-argument constructor: a pool of DefaultConnectionPoolSize connections. */
    constructor WithDefaultPoolSize(protocolScheme: string, url: string, defaultIsolation: int, database: Database)
      ensures Valid() && pool != null && fresh(pool)
      ensures this.protocolScheme == protocolScheme && dbUrl == FullUrl(protocolScheme, url)
      ensures pool.State() == Initial(DefaultConnectionPoolSize, dbUrl)
      ensures BackendState() == Backend(defaultIsolation, map[], database, {}, 0, [])
    {
      var fullUrl := FullUrl(protocolScheme, url);
      this.protocolScheme := protocolScheme;
      dbUrl := fullUrl;
      this.defaultIsolation := defaultIsolation;
      pool := new ConnectionPool(DefaultConnectionPoolSize, fullUrl);
      sessions := map[];
      committed := database;
      open := {};
      nextResource := 0;
      issued := [];
    }

    /** close: drain and close the pool. */
    method Close() returns (r: Call<()>)
      requires Valid()
      modifies pool
      ensures Valid()
      ensures pool == null ==> r == Done(())
      ensures pool != null ==> (r, pool.State()) == Drain(old(pool.State()))
    {
      if pool != null {
        r := pool.CloseAll();
      } else {
        r := Done(());
      }
    }

    method EnsureInitialized() returns (r: Result<()>)
      ensures r.Ok? <==> pool != null
      ensures r.Threw? ==> r.exc == IllegalState(NullPoolMessage)
    {
      if pool == null {
        return Threw(IllegalState(NullPoolMessage));
      }
      r := Ok(());
    }

    // ------------------------------------------------------------ driver calls on one connection

    /** Connection.setAutoCommit. */
    method SetAutoCommitOn(id: ConnId, on: bool)
      modifies this
      ensures var (c, db) := SetAutoCommit(SessionOf(old(BackendState()), id), on, old(committed));
              BackendState() == old(BackendState()).(sessions := old(sessions)[id := c], committed := db)
    {
      var (c, db) := SetAutoCommit(SessionOf(BackendState(), id), on, committed);
      sessions := sessions[id := c];
      committed := db;
    }

    /** Connection.setTransactionIsolation. */
    method SetIsolationOn(id: ConnId, level: int)
      modifies this
      ensures BackendState() ==
              old(BackendState()).(sessions := old(sessions)[id := SessionOf(old(BackendState()), id).(isolation := level)])
    {
      sessions := sessions[id := SessionOf(BackendState(), id).(isolation := level)];
    }

    /** Statement.executeUpdate on a statement of connection `id`. */
    method ExecuteOn(id: ConnId, sql: string, reply: Reply) returns (r: Result<()>)
      modifies this
      ensures var (res, c, db) := ExecuteStatement(SessionOf(old(BackendState()), id), old(committed), sql, reply);
              && r == res
              && BackendState() == old(BackendState()).(sessions := old(sessions)[id := c], committed := db,
                                                        issued := old(issued) + [sql])
    {
      var (res, c, db) := ExecuteStatement(SessionOf(BackendState(), id), committed, sql, reply);
      r := res;
      sessions := sessions[id := c];
      committed := db;
      issued := issued + [sql];
    }

    /** Statement.executeQuery: the driver receives the query. */
    method ExecuteQueryOn(query: string)
      modifies this
      ensures BackendState() == old(BackendState()).(issued := old(issued) + [query])
    {
      issued := issued + [query];
    }

    /** Connection.commit. */
    method CommitOn(id: ConnId)
      modifies this
      ensures var (c, db) := Commit(SessionOf(old(BackendState()), id), old(committed));
              BackendState() == old(BackendState()).(sessions := old(sessions)[id := c], committed := db)
    {
      var (c, db) := Commit(SessionOf(BackendState(), id), committed);
      sessions := sessions[id := c];
      committed := db;
    }

    /** Connection.rollback. */
    method RollbackOn(id: ConnId)
      modifies this
      ensures BackendState() ==
              old(BackendState()).(sessions := old(sessions)[id := Rollback(SessionOf(old(BackendState()), id))])
    {
      sessions := sessions[id := Rollback(SessionOf(BackendState(), id))];
    }

    /** createStatement or executeQuery: a new statement or result set, open until closed. */
    method OpenResource() returns (x: nat)
      modifies this
      ensures x == old(nextResource) && (Tidy(old(BackendState())) ==> x !in old(open))
      ensures BackendState() == old(BackendState()).(open := old(open) + {x}, nextResource := x + 1)
      ensures Tidy(old(BackendState())) ==> Tidy(BackendState())
    {
      x := nextResource;
      open := open + {x};
      nextResource := nextResource + 1;
    }

    /** Statement.close or ResultSet.close. */
    method CloseResource(x: nat)
      modifies this
      ensures BackendState() == old(BackendState()).(open := old(open) - {x})
      ensures Tidy(old(BackendState())) ==> Tidy(BackendState())
    {
      open := open - {x};
    }

    // ------------------------------------------------------------ the three callbacks

    /** The callback of executeSelect. */
    method RunSelect<T>(query: string, result: QueryReply, processor: ResultSet -> Result<T>) returns (r: Result<T>)
      requires Tidy(BackendState())
      modifies this
      ensures Tidy(BackendState())
      ensures (r, BackendState()) == SelectOn(old(BackendState()), query, result, processor)
    {
      var statement := OpenResource();
      ExecuteQueryOn(query);
      match result {
        case QueryFailure(code) =>
          r := Threw(Sql(code));
        case Rows(rs) =>
          var resultSet := OpenResource();
          r := processor(rs);
          CloseResource(resultSet);
      }
      CloseResource(statement);
    }

    /** The callback of executeUpdate. */
    method RunUpdate(id: ConnId, sql: string, reply: Reply) returns (r: Result<()>)
      requires Tidy(BackendState())
      modifies this
      ensures Tidy(BackendState())
      ensures (r, BackendState()) == UpdateOn(old(BackendState()), id, sql, reply)
    {
      var autoCommitBefore := SessionOf(BackendState(), id).autoCommit;
      SetAutoCommitOn(id, true);
      var statement := OpenResource();
      r := ExecuteOn(id, sql, reply);
      CloseResource(statement);
      SetAutoCommitOn(id, autoCommitBefore);
      ghost var (res, c, db) := Update(SessionOf(old(BackendState()), id), old(committed), sql, reply);
      assert r == res;
      assert committed == db;
      assert sessions == old(sessions)[id := c];
      assert open == old(open);
    }

    /** One step of a transaction body: an update joins the open transaction, a query leaves its
        result set open. */
    method RunStep(id: ConnId, step: Step) returns (failure: Option<Exc>, resultSet: Option<nat>)
      requires id in sessions && !sessions[id].autoCommit
      modifies this
      ensures failure == StepFailure(step)
      ensures resultSet.Some? <==> step.SelectStep? && step.result.Rows?
      ensures resultSet.Some? ==> resultSet.value == old(nextResource)
      ensures var c := old(sessions)[id];
              sessions == old(sessions)[id := c.(pending := c.pending + StepWrites(step))]
      ensures committed == old(committed) && issued == old(issued) + StepSent(step)
      ensures nextResource == old(nextResource) + (if resultSet.Some? then 1 else 0)
      ensures forall x :: x in open <==> x in old(open) || (resultSet.Some? && x == old(nextResource))
    {
      resultSet := None;
      ghost var c := sessions[id];
      assert c.(pending := c.pending + []) == c && sessions[id := c] == sessions;
      match step {
        case UpdateStep(sql, reply) =>
          var res := ExecuteOn(id, sql, reply);
          failure := if res.Threw? then Some(res.exc) else None;
        case SelectStep(query, result) =>
          ExecuteQueryOn(query);
          if result.QueryFailure? {
            failure := Some(Sql(result.errorCode));
          } else {
            failure := None;
            var x := OpenResource();
            resultSet := Some(x);
          }
        case Raise(e) =>
          failure := Some(e);
      }
    }

    /** One turn of the body's loop: run step `i` and move its effects into the part done. The
        part done so far is `writes`, `resultSets` and `sent` after starting from `b0`. */
    method RunNext(id: ConnId, steps: seq<Step>, i: nat, ghost b0: Backend, ghost writes: seq<string>,
                   ghost sent: seq<string>, resultSets: seq<nat>)
      returns (failure: Option<Exc>, resultSets': seq<nat>, ghost writes': seq<string>, ghost sent': seq<string>)
      requires i < |steps| && id in b0.sessions && !b0.sessions[id].autoCommit
      requires Body(steps) == Then(writes, |resultSets|, sent, Body(steps[i..]))
      requires var c := b0.sessions[id]; sessions == b0.sessions[id := c.(pending := c.pending + writes)]
      requires committed == b0.committed && issued == b0.issued + sent
      requires nextResource == b0.nextResource + |resultSets|
      requires forall k :: 0 <= k < |resultSets| ==> resultSets[k] == b0.nextResource + k
      requires forall x :: x in open <==> x in b0.open || b0.nextResource <= x < nextResource
      modifies this
      ensures failure.None? ==> Body(steps) == Then(writes', |resultSets'|, sent', Body(steps[i + 1..]))
      ensures failure.Some? ==> Body(steps) == BodyEnd(failure, writes', |resultSets'|, sent')
      ensures var c := b0.sessions[id]; sessions == b0.sessions[id := c.(pending := c.pending + writes')]
      ensures committed == b0.committed && issued == b0.issued + sent'
      ensures nextResource == b0.nextResource + |resultSets'|
      ensures forall k :: 0 <= k < |resultSets'| ==> resultSets'[k] == b0.nextResource + k
      ensures forall x :: x in open <==> x in b0.open || b0.nextResource <= x < nextResource
    {
      ghost var c := b0.sessions[id];
      if StepFailure(steps[i]).None? {
        ThenStep(writes, |resultSets|, sent, steps, i);
      } else {
        ThenFailure(writes, |resultSets|, sent, steps, i);
      }
      var resultSet;
      failure, resultSet := RunStep(id, steps[i]);
      assert c.pending + writes + StepWrites(steps[i]) == c.pending + (writes + StepWrites(steps[i]));
      assert b0.issued + sent + StepSent(steps[i]) == b0.issued + (sent + StepSent(steps[i]));
      writes' := writes + StepWrites(steps[i]);
      sent' := sent + StepSent(steps[i]);
      resultSets' := if resultSet.Some? then resultSets + [resultSet.value] else resultSets;
    }

    /** The body of a transaction, on the statement opened for it: updates join the open
        transaction, every result set stays open, and the first failure ends it. */
    method RunBody(id: ConnId, steps: seq<Step>) returns (failure: Option<Exc>, resultSets: seq<nat>)
      requires id in sessions && !sessions[id].autoCommit
      modifies this
      ensures failure == Body(steps).failure && |resultSets| == Body(steps).cursors
      ensures var c := old(sessions)[id];
              sessions == old(sessions)[id := c.(pending := c.pending + Body(steps).writes)]
      ensures committed == old(committed) && nextResource == old(nextResource) + |resultSets|
      ensures issued == old(issued) + Body(steps).sent
      ensures forall k :: 0 <= k < |resultSets| ==> resultSets[k] == old(nextResource) + k
      ensures forall x :: x in open <==> x in old(open) || old(nextResource) <= x < nextResource
    {
      ghost var b0 := BackendState();
      ghost var c := sessions[id];
      ghost var writes: seq<string> := [];
      ghost var sent: seq<string> := [];
      assert c.(pending := c.pending + writes) == c;
      failure := None;
      resultSets := [];
      var i := 0;
      while i < |steps| && failure.None?
        invariant 0 <= i <= |steps|
        invariant failure.None? ==> Body(steps) == Then(writes, |resultSets|, sent, Body(steps[i..]))
        invariant failure.Some? ==> Body(steps) == BodyEnd(failure, writes, |resultSets|, sent)
        invariant sessions == b0.sessions[id := c.(pending := c.pending + writes)]
        invariant committed == b0.committed && issued == b0.issued + sent
        invariant nextResource == b0.nextResource + |resultSets|
        invariant forall k :: 0 <= k < |resultSets| ==> resultSets[k] == b0.nextResource + k
        invariant forall x :: x in open <==> x in b0.open || b0.nextResource <= x < nextResource
      {
        failure, resultSets, writes, sent := RunNext(id, steps, i, b0, writes, sent, resultSets);
        i := i + 1;
      }
      if failure.None? {
        assert steps[i..] == [];
        assert sent + [] == sent && writes + [] == writes;
      }
      assert Body(steps) == BodyEnd(failure, writes, |resultSets|, sent);
    }

    /** Commit or roll back at the end of a transaction. */
    method SettleOn(id: ConnId, bodyFailure: Option<Exc>, commitReply: Reply) returns (failure: Option<Exc>)
      requires id in sessions
      modifies this
      ensures var (f, c, db) := Settle(bodyFailure, old(sessions)[id], old(committed), commitReply);
              failure == f && sessions == old(sessions)[id := c] && committed == db
      ensures open == old(open) && nextResource == old(nextResource) && issued == old(issued)
    {
      failure := bodyFailure;
      if failure.None? {
        match commitReply {
          case Success => CommitOn(id);
          case Failure(code) => failure := Some(Sql(code));
        }
      }
      if failure.Some? && failure.value.Sql? {
        RollbackOn(id);
      }
    }

    /** The loop over the transaction's result sets in `finally`. */
    method CloseResultSets(resultSets: seq<nat>, lo: nat)
      requires forall k :: 0 <= k < |resultSets| ==> resultSets[k] == lo + k
      modifies this
      ensures sessions == old(sessions) && committed == old(committed) && nextResource == old(nextResource)
      ensures issued == old(issued)
      ensures forall x :: x in open <==> x in old(open) && !(lo <= x < lo + |resultSets|)
    {
      var k := 0;
      while k < |resultSets|
        invariant 0 <= k <= |resultSets|
        invariant sessions == old(sessions) && committed == old(committed) && nextResource == old(nextResource)
        invariant issued == old(issued)
        invariant forall x :: x in open <==> x in old(open) && !(lo <= x < lo + k)
      {
        CloseResource(resultSets[k]);
        k := k + 1;
      }
    }

    /** The start of the transaction callback's try block: isolation SERIALIZABLE, auto-commit
        off, one statement. */
    method BeginOn(id: ConnId) returns (statement: nat)
      modifies this
      ensures var c := SessionOf(old(BackendState()), id);
              sessions == old(sessions)[id := c.(isolation := TransactionSerializable, autoCommit := false)]
      ensures committed == old(committed) && issued == old(issued)
      ensures statement == old(nextResource) && nextResource == statement + 1
      ensures forall x :: x in open <==> x in old(open) || x == statement
    {
      SetIsolationOn(id, TransactionSerializable);
      SetAutoCommitOn(id, false);
      statement := OpenResource();
    }

    /** The transaction callback's finally block: close the result sets, then the statement, then
        restore auto-commit and the isolation level. */
    method RestoreOn(id: ConnId, before: Session, statement: nat, resultSets: seq<nat>)
      requires id in sessions
      requires forall k :: 0 <= k < |resultSets| ==> resultSets[k] == statement + 1 + k
      modifies this
      ensures var (c, db) := SetAutoCommit(old(sessions)[id], before.autoCommit, old(committed));
              sessions == old(sessions)[id := c.(isolation := before.isolation)] && committed == db
      ensures nextResource == old(nextResource) && issued == old(issued)
      ensures forall x :: x in open <==> x in old(open) && !(statement <= x < statement + 1 + |resultSets|)
    {
      CloseResultSets(resultSets, statement + 1);
      CloseResource(statement);
      SetAutoCommitOn(id, before.autoCommit);
      SetIsolationOn(id, before.isolation);
    }

    /** The end of the transaction callback: commit or roll back, then the finally block. */
    method FinishOn(id: ConnId, before: Session, statement: nat, resultSets: seq<nat>, bodyFailure: Option<Exc>,
                    commitReply: Reply) returns (r: Result<()>)
      requires id in sessions
      requires forall k :: 0 <= k < |resultSets| ==> resultSets[k] == statement + 1 + k
      modifies this
      ensures var (f, c4, db3) := Settle(bodyFailure, old(sessions)[id], old(committed), commitReply);
              var (c5, db5) := SetAutoCommit(c4, before.autoCommit, db3);
              && r == (if f.Some? then Threw(f.value) else Ok(()))
              && sessions == old(sessions)[id := c5.(isolation := before.isolation)] && committed == db5
      ensures nextResource == old(nextResource) && issued == old(issued)
      ensures forall x :: x in open <==> x in old(open) && !(statement <= x < statement + 1 + |resultSets|)
    {
      ghost var (f, c4, db3) := Settle(bodyFailure, sessions[id], committed, commitReply);
      var failure := SettleOn(id, bodyFailure, commitReply);
      assert failure == f && sessions == old(sessions)[id := c4] && committed == db3;
      RestoreOn(id, before, statement, resultSets);
      r := if failure.Some? then Threw(failure.value) else Ok(());
    }

    /** The callback of executeInTransaction. */
    method RunTransaction(id: ConnId, steps: seq<Step>, commitReply: Reply) returns (r: Result<()>)
      requires Tidy(BackendState())
      modifies this
      ensures Tidy(BackendState())
      ensures (r, BackendState()) == TransactionOn(old(BackendState()), id, steps, commitReply)
    {
      var before := SessionOf(BackendState(), id);
      ghost var (c1, db1) := SetAutoCommit(before.(isolation := TransactionSerializable), false, committed);
      var statement := BeginOn(id);
      assert sessions == old(sessions)[id := c1] && committed == db1;
      ghost var b := Body(steps);
      var bodyFailure, resultSets := RunBody(id, steps);
      assert sessions == old(sessions)[id := c1.(pending := c1.pending + b.writes)];
      assert issued == old(issued) + b.sent;
      ghost var (f, c4, db3) := Settle(b.failure, c1.(pending := c1.pending + b.writes), db1, commitReply);
      r := FinishOn(id, before, statement, resultSets, bodyFailure, commitReply);
      ghost var (c5, db5) := SetAutoCommit(c4, before.autoCommit, db3);
      assert sessions == old(sessions)[id := c5.(isolation := before.isolation)] && committed == db5;
      assert open == old(open);
      assert issued == old(issued) + b.sent;
      ghost var t := Transaction(before, old(committed), steps, commitReply);
      assert t == TxEnd(r, c5.(isolation := before.isolation), db5, b.cursors);
      assert nextResource == old(nextResource) + 1 + t.cursors;
    }

    method Run<T>(id: ConnId, work: Work<T>) returns (r: Result<CallbackValue<T>>)
      requires Tidy(BackendState())
      modifies this
      ensures Tidy(BackendState())
      ensures (r, BackendState()) == WorkOn(old(BackendState()), id, work)
    {
      match work {
        case SelectWork(query, result, processor) =>
          var res := RunSelect(query, result, processor);
          r := match res case Ok(v) => Ok(Value(v)) case Threw(e) => Threw(e);
        case UpdateWork(sql, reply) =>
          var res := RunUpdate(id, sql, reply);
          r := match res case Ok(_) => Ok(Zero) case Threw(e) => Threw(e);
        case TransactionWork(steps, commitReply) =>
          var res := RunTransaction(id, steps, commitReply);
          r := match res case Ok(_) => Ok(Zero) case Threw(e) => Threw(e);
      }
    }

    /** exec. */
    method Exec<T>(work: Work<T>) returns (r: Call<CallbackValue<T>>)
      requires Valid()
      modifies this, pool
      ensures Valid()
      ensures pool == null ==> r == Failed(IllegalState(NullPoolMessage)) && BackendState() == old(BackendState())
      ensures pool != null ==>
        (r, pool.State(), BackendState()) == ExecOn(old(pool.State()), old(BackendState()), work)
    {
      var initialized := EnsureInitialized();
      if initialized.Threw? {
        return Failed(initialized.exc);
      }
      var conn: Handle := Null;
      var outcome: Call<CallbackValue<T>>;
      var got := pool.GetConnection();
      match got {
        case Blocked =>
          return Blocked;
        case Failed(e) =>
          outcome := Failed(e);
        case Done(id) =>
          conn := Conn(id);
          var res := Run(id, work);
          outcome := match res case Ok(v) => Done(v) case Threw(e) => Failed(e);
      }
      var released := pool.PutConnectionBack(conn);
      r := Finally(outcome, released);
    }

    // ------------------------------------------------------------ the public operations

    method ExecuteSelect<T>(query: string, result: QueryReply, processor: ResultSet -> Result<T>) returns (r: Call<T>)
      requires Valid()
      modifies this, pool
      ensures Valid()
      ensures pool == null ==> r == Failed(IllegalState(NullPoolMessage)) && BackendState() == old(BackendState())
      ensures pool != null ==>
        var e := ExecOn(old(pool.State()), old(BackendState()), SelectWork(query, result, processor));
        r == Unwrap(e.0) && pool.State() == e.1 && BackendState() == e.2
      ensures sessions == old(sessions) && committed == old(committed) && open == old(open)
      // the driver receives the query exactly when exec could lend a connection
      ensures issued == old(issued) + (if pool != null && Acquire(old(pool.State())).0.Done? then [query] else [])
    {
      var initialized := EnsureInitialized();
      if initialized.Threw? {
        return Failed(initialized.exc);
      }
      var x := Exec(SelectWork(query, result, processor));
      r := Unwrap(x);
    }

    method ExecuteUpdate(sql: string, reply: Reply) returns (r: Call<()>)
      requires Valid()
      modifies this, pool
      ensures Valid()
      ensures pool == null ==> r == Failed(IllegalState(NullPoolMessage)) && BackendState() == old(BackendState())
      ensures pool != null ==>
        var e := ExecOn<()>(old(pool.State()), old(BackendState()), UpdateWork(sql, reply));
        r == Discard(e.0) && pool.State() == e.1 && BackendState() == e.2
      ensures open == old(open)
      ensures issued == old(issued) + (if pool != null && Acquire(old(pool.State())).0.Done? then [sql] else [])
      ensures forall c :: SessionOf(BackendState(), c).autoCommit == old(SessionOf(BackendState(), c).autoCommit)
    {
      var initialized := EnsureInitialized();
      if initialized.Threw? {
        return Failed(initialized.exc);
      }
      var x := Exec<()>(UpdateWork(sql, reply));
      r := Discard(x);
    }

    method ExecuteInTransaction(steps: seq<Step>, commitReply: Reply) returns (r: Call<()>)
      requires Valid()
      modifies this, pool
      ensures Valid()
      ensures pool == null ==> r == Failed(IllegalState(NullPoolMessage)) && BackendState() == old(BackendState())
      ensures pool != null ==>
        var e := ExecOn<()>(old(pool.State()), old(BackendState()), TransactionWork(steps, commitReply));
        r == Discard(e.0) && pool.State() == e.1 && BackendState() == e.2
      ensures open == old(open)
      ensures issued == old(issued) + (if pool != null && Acquire(old(pool.State())).0.Done? then Body(steps).sent else [])
      ensures forall c :: && SessionOf(BackendState(), c).autoCommit == old(SessionOf(BackendState(), c).autoCommit)
                          && SessionOf(BackendState(), c).isolation == old(SessionOf(BackendState(), c).isolation)
    {
      var initialized := EnsureInitialized();
      if initialized.Threw? {
        return Failed(initialized.exc);
      }
      var x := Exec<()>(TransactionWork(steps, commitReply));
      r := Discard(x);
    }
  }
}
