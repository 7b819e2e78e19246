/** SimpleORM: the table an entity class maps to, the query findAll issues for it, and the rows of
    the result turned into entities. */
module Orm {
  import opened Exceptions
  import opened Text
  import opened Pool
  import opened Jdbc
  import opened Beans
  import opened Executor

  function NoEntityMessage(simpleName: string): string {
    "Expected annotation 'DBEntry' for calass '" + simpleName + "'"
  }

  /** getTableName: the table named by the class's @DBEntity annotation. */
  function GetTableName(cls: EntityClass): (r: Result<string>)
    ensures r.Ok? <==> cls.table.Some?
    ensures r.Ok? ==> r.value == cls.table.value
    ensures r.Threw? ==> r.exc == IllegalArgument(NoEntityMessage(cls.simpleName))
  {
    match cls.table
    case None => Threw(IllegalArgument(NoEntityMessage(cls.simpleName)))
    case Some(table) => Ok(table)
  }

  const SelectAllPrefix := "SELECT * FROM `"

  /** The query findAll issues: every row of the table, its name quoted in backticks. */
  function FindAllQuery(table: string): (q: string)
    ensures StartsWith(q, SelectAllPrefix)
    ensures |q| == |SelectAllPrefix| + |table| + 1 && q[|q| - 1] == '`'
  {
    SelectAllPrefix + table + "`"
  }

  /** The table named between the prefix and the closing backtick of a findAll query. */
  function QueriedTable(q: string): string
    requires |q| >= |SelectAllPrefix| + 1
  {
    q[|SelectAllPrefix|..|q| - 1]
  }

  /** The query names exactly the table it was built for, so distinct tables give distinct queries. */
  lemma QueriedTableOfFindAllQuery(table: string)
    ensures QueriedTable(FindAllQuery(table)) == table
  {
    assert (SelectAllPrefix + table + "`")[|SelectAllPrefix|..|SelectAllPrefix| + |table|] == table;
  }

  lemma FindAllQueryInjective(a: string, b: string)
    requires FindAllQuery(a) == FindAllQuery(b)
    ensures a == b
  {
    QueriedTableOfFindAllQuery(a);
    QueriedTableOfFindAllQuery(b);
  }

  // ---------------------------------------------------------------- toEntityList

  /** The entry map once row i is loaded: every column label, mapped to getString(label) on that row. */
  function RowEntry(rs: ResultSet, i: nat): (e: map<string, Option<string>>)
    requires i < |rs.rows|
    ensures forall c :: c in e <==> c in rs.columns
  {
    map c | c in rs.columns :: GetString(rs, i, c)
  }

  /** The values of `results` in order, or the first failure among them. */
  function Collect<T>(results: seq<Result<T>>): Result<seq<T>> {
    if results == [] then Ok([])
    else
      var x :- results[0];
      var rest :- Collect(results[1..]);
      Ok([x] + rest)
  }

  /** Collecting succeeds exactly when every result is a value, giving the values in order;
      otherwise it fails as the first failure does. */
  lemma {:induction false} CollectInOrder<T>(results: seq<Result<T>>)
    ensures Collect(results).Ok? <==> forall k :: 0 <= k < |results| ==> results[k].Ok?
    ensures Collect(results).Ok? ==>
      && |Collect(results).value| == |results|
      && forall k :: 0 <= k < |results| ==> Collect(results).value[k] == results[k].value
    ensures Collect(results).Threw? ==>
      exists k :: 0 <= k < |results| && results[k].Threw? && Collect(results).exc == results[k].exc
               && forall m :: 0 <= m < k ==> results[m].Ok?
  {
    if results != [] {
      var tail := results[1..];
      CollectInOrder(tail);
      if results[0].Ok? {
        if forall k :: 0 <= k < |tail| ==> tail[k].Ok? {
          forall k | 0 <= k < |results| ensures results[k].Ok? {
            if k > 0 { assert results[k] == tail[k - 1]; }
          }
        }
        if forall k :: 0 <= k < |results| ==> results[k].Ok? {
          forall k | 0 <= k < |tail| ensures tail[k].Ok? {
            assert tail[k] == results[k + 1];
          }
        }
        if Collect(tail).Ok? {
          forall k | 0 <= k < |results| ensures Collect(results).value[k] == results[k].value {
            if k > 0 { assert results[k] == tail[k - 1]; }
          }
        } else {
          var k :| 0 <= k < |tail| && tail[k].Threw? && Collect(tail).exc == tail[k].exc
                   && forall m :: 0 <= m < k ==> tail[m].Ok?;
          assert results[k + 1] == tail[k];
          forall m | 0 <= m < k + 1 ensures results[m].Ok? {
            if m > 0 { assert results[m] == tail[m - 1]; }
          }
        }
      }
    }
  }

  /** The entity newInstance builds from row i. */
  function RowEntity(rs: ResultSet, cls: EntityClass, i: nat): Result<Instance>
    requires i < |rs.rows| && WellFormed(cls)
  {
    AnnotatedEnumerates(cls);
    NewInstanceOf(RowEntry(rs, i), rs.columns, cls, Annotated(cls.fields))
  }

  /** newInstance's outcome on each row, in row order. */
  function RowEntities(rs: ResultSet, cls: EntityClass): (r: seq<Result<Instance>>)
    requires WellFormed(cls)
    ensures |r| == |rs.rows| && forall i :: 0 <= i < |rs.rows| ==> r[i] == RowEntity(rs, cls, i)
  {
    seq(|rs.rows|, i requires 0 <= i < |rs.rows| => RowEntity(rs, cls, i))
  }

  /** toEntityList's result. The entry map's keys iterate in column order, and the annotated
      fields in declaration order. */
  function EntityList(rs: ResultSet, cls: EntityClass): Result<seq<Instance>>
    requires WellFormed(cls)
  {
    Collect(RowEntities(rs, cls))
  }

  /** toEntityList makes exactly one entity per row, in row order, from that row's values; a row
      that cannot be mapped makes it fail as the first such row does. */
  lemma EntityListOnePerRow(rs: ResultSet, cls: EntityClass)
    requires WellFormed(cls)
    ensures EntityList(rs, cls).Ok? <==> forall k :: 0 <= k < |rs.rows| ==> RowEntity(rs, cls, k).Ok?
    ensures EntityList(rs, cls).Ok? ==>
      && |EntityList(rs, cls).value| == |rs.rows|
      && forall k :: 0 <= k < |rs.rows| ==> EntityList(rs, cls).value[k] == RowEntity(rs, cls, k).value
    ensures EntityList(rs, cls).Threw? ==>
      exists k :: 0 <= k < |rs.rows| && RowEntity(rs, cls, k).Threw?
               && EntityList(rs, cls).exc == RowEntity(rs, cls, k).exc
               && forall m :: 0 <= m < k ==> RowEntity(rs, cls, m).Ok?
  {
    CollectInOrder(RowEntities(rs, cls));
  }

  /** `acc` followed by the entities of `rest`, or the failure of `rest`. */
  function Prefixed(acc: seq<Instance>, rest: Result<seq<Instance>>): Result<seq<Instance>> {
    match rest
    case Ok(xs) => Ok(acc + xs)
    case Threw(e) => Threw(e)
  }

  /** The first loop of toEntityList: the column labels into an array, and each into the entry
      map with the value null. */
  method LoadColumns(rs: ResultSet) returns (columnNames: array<string>, entry: map<string, Option<string>>)
    ensures fresh(columnNames) && columnNames[..] == rs.columns
    ensures forall c :: c in entry <==> c in rs.columns
    ensures forall c :: c in entry ==> entry[c] == None
  {
    columnNames := new string[|rs.columns|];
    entry := map[];
    for i := 0 to columnNames.Length
      invariant columnNames[..i] == rs.columns[..i]
      invariant forall c :: c in entry <==> c in rs.columns[..i]
      invariant forall c :: c in entry ==> entry[c] == None
    {
      assert rs.columns[..i + 1] == rs.columns[..i] + [rs.columns[i]];
      columnNames[i] := rs.columns[i];
      entry := entry[columnNames[i] := None];
    }
    assert columnNames[..] == rs.columns;
  }

  /** The inner loop of toEntityList: overwrite each column's entry with the row's value. */
  method LoadRow(rs: ResultSet, columnNames: array<string>, row: nat, entry: map<string, Option<string>>)
    returns (loaded: map<string, Option<string>>)
    requires row < |rs.rows| && columnNames[..] == rs.columns
    requires forall c :: c in entry <==> c in rs.columns
    ensures loaded == RowEntry(rs, row)
  {
    loaded := entry;
    for j := 0 to columnNames.Length
      invariant forall c :: c in loaded <==> c in rs.columns
      invariant forall c :: c in rs.columns[..j] ==> loaded[c] == GetString(rs, row, c)
    {
      assert columnNames[j] == rs.columns[j];
      LoadStep(rs, row, loaded, j);
      loaded := loaded[columnNames[j] := GetString(rs, row, columnNames[j])];
    }
    LoadDone(rs, row, loaded);
  }

  /** Loaded up to the last column is the row's entry. */
  lemma LoadDone(rs: ResultSet, row: nat, loaded: map<string, Option<string>>)
    requires row < |rs.rows|
    requires forall c :: c in loaded <==> c in rs.columns
    requires forall c :: c in rs.columns[..|rs.columns|] ==> loaded[c] == GetString(rs, row, c)
    ensures loaded == RowEntry(rs, row)
  {
    assert rs.columns[..|rs.columns|] == rs.columns;
  }

  /** One turn of the inner loop keeps it loaded up to the next column. */
  lemma LoadStep(rs: ResultSet, row: nat, loaded: map<string, Option<string>>, j: nat)
    requires row < |rs.rows| && j < |rs.columns|
    requires forall c :: c in loaded <==> c in rs.columns
    requires forall c :: c in rs.columns[..j] ==> loaded[c] == GetString(rs, row, c)
    ensures var next := loaded[rs.columns[j] := GetString(rs, row, rs.columns[j])];
            && (forall c :: c in next <==> c in rs.columns)
            && (forall c :: c in rs.columns[..j + 1] ==> next[c] == GetString(rs, row, c))
  {
    assert rs.columns[..j + 1] == rs.columns[..j] + [rs.columns[j]];
  }

  /** toEntityList: the column labels into an array and into the entry map (each null), then for
      every row overwrite each column's entry with the row's value and build one entity. */
  method ToEntityList(rs: ResultSet, cls: EntityClass) returns (r: Result<seq<Instance>>)
    requires WellFormed(cls)
    ensures r == EntityList(rs, cls)
  {
    AnnotatedEnumerates(cls);
    var order := Annotated(cls.fields);
    var result: seq<Instance> := [];
    var columnNames, entry := LoadColumns(rs);
    ghost var rows := RowEntities(rs, cls);
    var row := 0;
    assert rows[row..] == rows;
    match Collect(rows) {
      case Ok(xs) => assert [] + xs == xs;
      case Threw(_) =>
    }
    while row < |rs.rows|
      invariant row <= |rs.rows|
      invariant columnNames[..] == rs.columns
      invariant forall c :: c in entry <==> c in rs.columns
      invariant EntityList(rs, cls) == Prefixed(result, Collect(rows[row..]))
    {
      assert rows[row..][0] == rows[row] && rows[row..][1..] == rows[row + 1..];
      entry := LoadRow(rs, columnNames, row, entry);
      var instance := NewInstance(entry, columnNames[..], cls, order);
      assert instance == rows[row];
      if instance.Threw? {
        assert Collect(rows[row..]) == Threw(instance.exc);
        return Threw(instance.exc);
      }
      match Collect(rows[row + 1..]) {
        case Ok(xs) => assert result + ([instance.value] + xs) == result + [instance.value] + xs;
        case Threw(_) =>
      }
      result := result + [instance.value];
      row := row + 1;
    }
    assert rows[row..] == [] && result + [] == result;
    r := Ok(result);
  }

  // ---------------------------------------------------------------- findAll

  const MappingErrorMessage := "Error ORM mapping"

  /** The processor findAll hands to executeSelect: toEntityList, with any failure rethrown as
      RuntimeException("Error ORM mapping", cause). */
  function MapRows(rs: ResultSet, cls: EntityClass): (r: Result<seq<Instance>>)
    requires WellFormed(cls)
    ensures r.Ok? <==> EntityList(rs, cls).Ok?
    ensures r.Ok? ==> r.value == EntityList(rs, cls).value
    ensures r.Threw? ==> r.exc == Runtime(MappingErrorMessage, EntityList(rs, cls).exc)
  {
    match EntityList(rs, cls)
    case Ok(entities) => Ok(entities)
    case Threw(e) => Threw(Runtime(MappingErrorMessage, e))
  }

  function Processor(cls: EntityClass): ResultSet -> Result<seq<Instance>>
    requires WellFormed(cls)
  {
    (rs: ResultSet) => MapRows(rs, cls)
  }

  /** What findAll does against a pool state and driver state: the query for the class's table,
      through exec, with the mapping processor. */
  function FindAllOn(p: PoolState, b: Backend, cls: EntityClass, result: QueryReply): (Call<seq<Instance>>, PoolState, Backend)
    requires WellFormed(cls) && cls.table.Some?
  {
    var e := ExecOn(p, b, SelectWork(FindAllQuery(cls.table.value), result, Processor(cls)));
    (Unwrap(e.0), e.1, e.2)
  }

  /** findAll: the class's table first, then executeSelect with the mapping processor. */
  method FindAll(db: DBAccess, cls: EntityClass, result: QueryReply) returns (r: Call<seq<Instance>>)
    requires db.Valid() && WellFormed(cls)
    modifies db, db.pool
    ensures db.Valid()
    ensures cls.table.None? ==>
      && r == Failed(IllegalArgument(NoEntityMessage(cls.simpleName)))
      && db.BackendState() == old(db.BackendState())
      && (db.pool != null ==> db.pool.State() == old(db.pool.State()))
    ensures cls.table.Some? && db.pool == null ==>
      r == Failed(IllegalState(NullPoolMessage)) && db.BackendState() == old(db.BackendState())
    ensures cls.table.Some? && db.pool != null ==>
      (r, db.pool.State(), db.BackendState()) == FindAllOn(old(db.pool.State()), old(db.BackendState()), cls, result)
    // the one statement findAll hands the driver is SELECT * FROM `table`
    ensures db.issued == old(db.issued) +
      (if cls.table.Some? && db.pool != null && Acquire(old(db.pool.State())).0.Done?
       then [FindAllQuery(cls.table.value)] else [])
  {
    var table := GetTableName(cls);
    if table.Threw? {
      return Failed(table.exc);
    }
    r := db.ExecuteSelect(FindAllQuery(table.value), result, Processor(cls));
  }

  /** On a pool with a connection to give, findAll returns the entities of every row, or fails
      with the query's SQLException, or with the wrapped mapping failure. */
  lemma FindAllReturnsEntities(p: PoolState, b: Backend, cls: EntityClass, result: QueryReply)
    requires WellFormed(cls) && cls.table.Some?
    requires Consistent(p) && p.capacity > 0 && !(p.free == [] && p.count >= p.capacity)
    ensures result.QueryFailure? ==> FindAllOn(p, b, cls, result).0 == Failed(Sql(result.errorCode))
    ensures result.Rows? && EntityList(result.rs, cls).Ok? ==>
      FindAllOn(p, b, cls, result).0 == Done(EntityList(result.rs, cls).value)
    ensures result.Rows? && EntityList(result.rs, cls).Threw? ==>
      FindAllOn(p, b, cls, result).0 == Failed(Runtime(MappingErrorMessage, EntityList(result.rs, cls).exc))
    ensures FindAllOn(p, b, cls, result).2.sessions == b.sessions
    ensures FindAllOn(p, b, cls, result).2.committed == b.committed
    ensures FindAllOn(p, b, cls, result).2.issued == b.issued + [FindAllQuery(cls.table.value)]
  {
    ExecReturnsCallbackOutcome(p, b, SelectWork(FindAllQuery(cls.table.value), result, Processor(cls)));
  }
}
