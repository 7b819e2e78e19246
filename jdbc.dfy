/** The parts of java.sql the executor and the mapper rely on, as the JDBC API documents them:
    a connection's auto-commit flag, isolation level and open transaction, a statement's effect,
    and a result set's rows read by column label. */
module Jdbc {
  import opened Exceptions
  import opened Text

  /** java.sql.Connection.TRANSACTION_SERIALIZABLE. */
  const TransactionSerializable := 8

  /** The database as the model sees it: the updates committed so far, in commit order. */
  type Database = seq<string>

  /** One connection's state: its auto-commit flag, its isolation level, and the updates of its
      open transaction that are not committed yet. */
  datatype Session = Session(autoCommit: bool, isolation: int, pending: seq<string>)

  /** A connection as DriverManager opens it: auto-commit on, the driver's default isolation. */
  function Fresh(isolation: int): Session {
    Session(true, isolation, [])
  }

  /** In auto-commit mode there is no open transaction. */
  predicate Coherent(c: Session) {
    c.autoCommit ==> c.pending == []
  }

  /** The driver's answer to an update or a commit. */
  datatype Reply = Success | Failure(errorCode: int)

  /** The driver's answer to a query. */
  datatype QueryReply = Rows(rs: ResultSet) | QueryFailure(errorCode: int)

  /** Connection.setAutoCommit: turning auto-commit on while a transaction is open commits it;
      otherwise only the flag changes. */
  function SetAutoCommit(c: Session, on: bool, db: Database): (Session, Database) {
    if !c.autoCommit && on then (Session(true, c.isolation, []), db + c.pending)
    else (c.(autoCommit := on), db)
  }

  /** Statement.executeUpdate: in auto-commit mode the update is committed at once, otherwise it
      joins the open transaction; a refused update throws SQLException and changes nothing. */
  function ExecuteStatement(c: Session, db: Database, sql: string, reply: Reply): (Result<()>, Session, Database) {
    match reply
    case Failure(code) => (Threw(Sql(code)), c, db)
    case Success =>
      if c.autoCommit then (Ok(()), c, db + [sql])
      else (Ok(()), c.(pending := c.pending + [sql]), db)
  }

  /** Connection.commit. */
  function Commit(c: Session, db: Database): (Session, Database) {
    (c.(pending := []), db + c.pending)
  }

  /** Connection.rollback. */
  function Rollback(c: Session): Session {
    c.(pending := [])
  }

  /** A query's result: column labels and one value per column in every row (null is None). */
  datatype Table = Table(columns: seq<string>, rows: seq<seq<Option<string>>>)

  predicate Rectangular(t: Table) {
    forall row :: row in t.rows ==> |row| == |t.columns|
  }

  type ResultSet = t: Table | Rectangular(t) witness Table([], [])

  /** ResultSet.getString(name) on row `row`, for a label the result set has: the first column
      whose label equals `name` ignoring case. */
  function GetString(rs: ResultSet, row: nat, name: string): (v: Option<string>)
    requires row < |rs.rows|
    requires name in rs.columns
    // the first column whose label equals `name` ignoring case, as IndexIgnoreCase promises
    ensures var j := IndexIgnoreCase(rs.columns, name);
            j.Some? && j.value < |rs.rows[row]| && v == rs.rows[row][j.value]
  {
    EqualsIgnoreCaseReflexive(name);
    assert rs.rows[row] in rs.rows;
    var j := IndexIgnoreCase(rs.columns, name).value;
    rs.rows[row][j]
  }

  /** The column getString reads is the first whose label equals `name` ignoring case, so a
      later column with a matching label is never read. */
  lemma GetStringReadsFirstMatch(rs: ResultSet, row: nat, name: string, j: nat)
    requires row < |rs.rows| && name in rs.columns
    requires j < |rs.columns| && EqualsIgnoreCase(rs.columns[j], name)
    requires forall k :: 0 <= k < j ==> !EqualsIgnoreCase(rs.columns[k], name)
    ensures GetString(rs, row, name) == rs.rows[row][j]
  {
  }
}
