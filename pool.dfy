/** The executor's fixed-capacity connection pool (DBAccess.ConnectionPool), run sequentially:
    a call that would wait on the free queue is reported as Blocked. Connections are ids that a
    fresh-id counter hands out where the source asks DriverManager for a new connection. */
module Pool {
  import opened Exceptions

  type ConnId = nat

  /** A connection reference as putConnectionBack receives it: possibly null. */
  datatype Handle = Null | Conn(id: ConnId)

  const PoolClosedMessage := "Pool is closed"
  /** The message of AbstractQueue.add on a full ArrayBlockingQueue. */
  const QueueFullMessage := "Queue full"

  function NullConnectionMessage(url: string): string {
    "Connection is null, url='" + url + "'"
  }

  /** Everything the pool holds. `bound` is the fixed size of the ArrayBlockingQueue, `capacity`
      the limit on created connections (0 once the pool is closed), `count` the connections created
      and not yet closed, `free` the queue, `nextId` the id the next new connection gets, and
      `closed` every connection on which close() was called, in order. */
  datatype PoolState = PoolState(url: string, bound: nat, capacity: int, count: int,
                                 free: seq<ConnId>, nextId: ConnId, closed: seq<ConnId>)

  /** A new pool: the queue and the capacity have the same size. */
  function Initial(capacity: nat, url: string): PoolState {
    PoolState(url, capacity, capacity, 0, [], 0, [])
  }

  /** What holds of every pool reachable from construction, whatever its callers do:
      at most `capacity` live connections, and the connections created number the live ones
      plus the close() calls made (closeAll closes whatever it takes from the queue, so a handle
      put back that the pool never lent is counted among the closed). */
  ghost predicate Consistent(s: PoolState) {
    && 0 <= s.count <= s.capacity <= s.bound
    && |s.free| <= s.bound
    && s.nextId == s.count + |s.closed|
  }

  /** getConnection. */
  function Acquire(s: PoolState): (r: (Call<ConnId>, PoolState))
    ensures s.capacity == 0 ==> r == (Failed(IllegalState(PoolClosedMessage)), s)
    ensures r.0.Failed? ==> s.capacity == 0
    ensures r.0.Blocked? <==> s.capacity != 0 && |s.free| == 0 && s.count >= s.capacity
    ensures r.0.Blocked? ==> r.1 == s
    // a free connection is taken from the head of the queue ...
    ensures r.0.Done? && |s.free| > 0 ==> r.0.value == s.free[0] && r.1 == s.(free := s.free[1..])
    // ... and only with the queue empty and room left is a new one created, counted once
    ensures r.0.Done? && |s.free| == 0 ==>
      s.count < s.capacity && r.0.value == s.nextId && r.1 == s.(count := s.count + 1, nextId := s.nextId + 1)
    ensures Consistent(s) ==> Consistent(r.1)
  {
    if s.capacity == 0 then (Failed(IllegalState(PoolClosedMessage)), s)
    else
      var s1 := if |s.free| == 0 && s.count < s.capacity
                then s.(free := [s.nextId], count := s.count + 1, nextId := s.nextId + 1)
                else s;
      if |s1.free| == 0 then (Blocked, s1)
      else (Done(s1.free[0]), s1.(free := s1.free[1..]))
  }

  /** putConnectionBack: any non-null handle is appended; nothing else changes. */
  function Release(s: PoolState, h: Handle): (r: (Result<()>, PoolState))
    ensures h.Null? ==> r == (Threw(IllegalArgument(NullConnectionMessage(s.url))), s)
    ensures h.Conn? ==> (r.0.Ok? <==> |s.free| < s.bound)
    ensures h.Conn? && r.0.Ok? ==> r.1 == s.(free := s.free + [h.id])
    ensures r.0.Threw? ==> r.1 == s
    ensures h.Conn? && r.0.Threw? ==> r.0.exc == IllegalState(QueueFullMessage)
    ensures Consistent(s) ==> Consistent(r.1)
  {
    match h
    case Null => (Threw(IllegalArgument(NullConnectionMessage(s.url))), s)
    case Conn(id) =>
      if |s.free| >= s.bound then (Threw(IllegalState(QueueFullMessage)), s)
      else (Ok(()), s.(free := s.free + [id]))
  }

  /** closeAll: take and close `count` connections one at a time, then set capacity to 0.
      A take from the empty queue waits for ever. */
  function Drain(s: PoolState): (r: (Call<()>, PoolState))
    decreases if s.count > 0 then s.count else 0
  {
    if s.count <= 0 then (Done(()), s.(capacity := 0))
    else if |s.free| == 0 then (Blocked, s)
    else Drain(s.(free := s.free[1..], closed := s.closed + [s.free[0]], count := s.count - 1))
  }

  /** Drain in closed form: with at least `count` connections queued it closes the first `count`
      of them, leaves the rest queued and closes the pool; otherwise it closes every queued one
      and waits, with the pool still open. */
  lemma {:induction false} DrainClosedForm(s: PoolState)
    requires s.count >= 0
    ensures |s.free| >= s.count ==>
      Drain(s) == (Done(()), s.(capacity := 0, count := 0, free := s.free[s.count..],
                                closed := s.closed + s.free[..s.count]))
    ensures |s.free| < s.count ==>
      Drain(s) == (Blocked, s.(count := s.count - |s.free|, free := [], closed := s.closed + s.free))
    decreases s.count
  {
    if s.count == 0 {
      assert s.free[s.count..] == s.free && s.free[..s.count] == [];
      assert s.closed + s.free[..s.count] == s.closed;
    } else if |s.free| == 0 {
      assert s.closed + s.free == s.closed;
    } else {
      var t := s.(free := s.free[1..], closed := s.closed + [s.free[0]], count := s.count - 1);
      DrainClosedForm(t);
      assert s.free == [s.free[0]] + s.free[1..];
      if |s.free| >= s.count {
        assert t.free[t.count..] == s.free[s.count..];
        assert t.closed + t.free[..t.count] == s.closed + s.free[..s.count];
      } else {
        assert t.closed + t.free == s.closed + s.free;
      }
    }
  }

  lemma DrainKeepsConsistent(s: PoolState)
    requires Consistent(s)
    ensures Consistent(Drain(s).1) && Drain(s).1.bound == s.bound
  {
    DrainClosedForm(s);
  }

  /** No connection id occurs twice: nothing is queued twice or closed twice. */
  ghost predicate NoDup(xs: seq<ConnId>) {
    forall i, j :: 0 <= i < j < |xs| ==> xs[i] != xs[j]
  }

  /** The accounting that holds while callers release each acquired connection exactly once:
      `lent` are the connections checked out; every connection created is queued once, lent, or
      closed once, and never two of these. */
  ghost predicate Accounted(s: PoolState, lent: set<ConnId>) {
    && Consistent(s)
    && NoDup(s.free)
    && (forall i :: 0 <= i < |s.free| ==> s.free[i] !in lent && s.free[i] < s.nextId)
    && (forall id :: id in lent ==> id < s.nextId)
    && |s.free| + |lent| == s.count
    && NoDup(s.closed)
    && (forall i :: 0 <= i < |s.closed| ==> s.closed[i] !in lent && s.closed[i] !in s.free && s.closed[i] < s.nextId)
  }

  /** A new pool is accounted for with nothing checked out. */
  lemma InitialAccounted(capacity: nat, url: string)
    ensures Accounted(Initial(capacity, url), {})
  {
  }

  /** Exclusivity: getConnection never hands out a connection that is checked out or still queued. */
  lemma AcquireLendsUnlent(s: PoolState, lent: set<ConnId>)
    requires Accounted(s, lent)
    requires Acquire(s).0.Done?
    ensures Acquire(s).0.value !in lent
    ensures Acquire(s).0.value !in Acquire(s).1.free
    ensures Accounted(Acquire(s).1, lent + {Acquire(s).0.value})
  {
    var (r, t) := Acquire(s);
    var id := r.value;
    if |s.free| > 0 {
      assert id == s.free[0];
      assert id !in lent;
      forall i | 0 <= i < |t.free| ensures t.free[i] != id && t.free[i] == s.free[i + 1] {
        assert t.free[i] == s.free[i + 1];
      }
      forall i | 0 <= i < |t.closed| ensures t.closed[i] != id && t.closed[i] !in t.free {
        assert s.free[0] in s.free;
      }
    } else {
      assert id == s.nextId;
      assert id !in lent;
    }
    assert |lent + {id}| == |lent| + 1;
  }

  /** Releasing a checked-out connection always succeeds and puts it back at the tail. */
  lemma ReleaseTakesBackLent(s: PoolState, lent: set<ConnId>, id: ConnId)
    requires Accounted(s, lent)
    requires id in lent
    ensures Release(s, Conn(id)) == (Ok(()), s.(free := s.free + [id]))
    ensures Accounted(Release(s, Conn(id)).1, lent - {id})
  {
    assert |lent - {id}| == |lent| - 1;
    var t := s.(free := s.free + [id]);
    forall i, j | 0 <= i < j < |t.free| ensures t.free[i] != t.free[j] {
      if j == |s.free| {
        assert t.free[i] == s.free[i];
      } else {
        assert t.free[i] == s.free[i] && t.free[j] == s.free[j];
      }
    }
    forall i | 0 <= i < |t.closed| ensures t.closed[i] !in t.free {
      assert t.closed[i] != id;
    }
  }

  /** closeAll keeps the accounting, whether it finishes or waits for a checked-out connection:
      what it closes was queued, so nothing is closed twice. */
  lemma DrainKeepsAccounted(s: PoolState, lent: set<ConnId>)
    requires Accounted(s, lent)
    ensures Drain(s).0.Done? ==> Accounted(Drain(s).1, lent)
    ensures Drain(s).0.Blocked? ==> Accounted(Drain(s).1, lent)
  {
    DrainClosedForm(s);
    var t := Drain(s).1;
    if |s.free| >= s.count {
      assert |lent| == 0 && s.free[s.count..] == [] && s.free[..s.count] == s.free;
    }
    assert t.closed == s.closed + s.free;
    assert t.free == [];
    forall i, j | 0 <= i < j < |t.closed| ensures t.closed[i] != t.closed[j] {
      if j < |s.closed| {
      } else if i < |s.closed| {
        assert t.closed[j] == s.free[j - |s.closed|];
      } else {
        assert t.closed[i] == s.free[i - |s.closed|] && t.closed[j] == s.free[j - |s.closed|];
      }
    }
    forall i | 0 <= i < |t.closed| ensures t.closed[i] !in lent && t.closed[i] < t.nextId {
      if i >= |s.closed| {
        assert t.closed[i] == s.free[i - |s.closed|];
      }
    }
  }

  /** The distinct elements of a sequence without duplicates are as many as its length. */
  lemma {:induction false} DistinctCount(xs: seq<ConnId>)
    requires NoDup(xs)
    ensures |set i | 0 <= i < |xs| :: xs[i]| == |xs|
  {
    if xs != [] {
      var rest := xs[1..];
      assert NoDup(rest) by {
        forall i, j | 0 <= i < j < |rest| ensures rest[i] != rest[j] {
          assert rest[i] == xs[i + 1] && rest[j] == xs[j + 1];
        }
      }
      DistinctCount(rest);
      var a := set i | 0 <= i < |xs| :: xs[i];
      var b := set i | 0 <= i < |rest| :: rest[i];
      assert a == {xs[0]} + b by {
        forall x | x in a ensures x in {xs[0]} + b {
          var i :| 0 <= i < |xs| && xs[i] == x;
          if i > 0 { assert rest[i - 1] == x; }
        }
        forall x | x in b ensures x in a {
          var i :| 0 <= i < |rest| && rest[i] == x;
          assert xs[i + 1] == x;
        }
      }
      assert xs[0] !in b by {
        forall i | 0 <= i < |rest| ensures rest[i] != xs[0] {
          assert rest[i] == xs[i + 1];
        }
      }
    }
  }

  /** The ids below `n`. */
  function IdsBelow(n: nat): set<ConnId> {
    if n == 0 then {} else IdsBelow(n - 1) + {n - 1}
  }

  /** There are exactly `n` ids below `n`, and they are the ones smaller than `n`. */
  lemma {:induction false} IdsBelowCount(n: nat)
    ensures |IdsBelow(n)| == n
    ensures forall id: ConnId :: id in IdsBelow(n) <==> id < n
  {
    if n > 0 {
      IdsBelowCount(n - 1);
    }
  }

  /** Pigeonhole: `n` distinct ids, all below `n`, are every id below `n`. */
  lemma CoversIdsBelow(xs: seq<ConnId>, n: nat)
    requires NoDup(xs) && |xs| == n
    requires forall i :: 0 <= i < |xs| ==> xs[i] < n
    ensures forall id: ConnId :: id < n ==> id in xs
  {
    var a := set i | 0 <= i < |xs| :: xs[i];
    var b := IdsBelow(n);
    DistinctCount(xs);
    IdsBelowCount(n);
    assert a <= b;
    assert a * b == a;
    assert |b - a| == 0;
    forall id: ConnId | id < n ensures id in xs {
      assert id in b;
      assert id in a;
    }
  }

  /** closeAll on an idle pool closes every live connection exactly once and leaves a closed,
      empty pool: afterwards every connection the pool ever created has been closed, each once. */
  lemma CloseAllWhenIdle(s: PoolState)
    requires Accounted(s, {})
    ensures Drain(s) == (Done(()), s.(capacity := 0, count := 0, free := [], closed := s.closed + s.free))
    ensures NoDup(s.free) && |s.free| == s.count
    ensures NoDup(Drain(s).1.closed) && |Drain(s).1.closed| == s.nextId
    ensures forall id: ConnId :: id < s.nextId ==> id in Drain(s).1.closed
  {
    DrainClosedForm(s);
    assert s.free[s.count..] == [];
    assert s.free[..s.count] == s.free;
    DrainKeepsAccounted(s, {});
    var t := Drain(s).1;
    CoversIdsBelow(t.closed, t.nextId);
  }

  /** closeAll cannot finish while a connection is checked out. */
  lemma CloseAllBlocksWhileLent(s: PoolState, lent: set<ConnId>)
    requires Accounted(s, lent)
    requires lent != {}
    ensures Drain(s).0 == Blocked
  {
    DrainClosedForm(s);
  }

  /** One pool call, as any caller may issue it. */
  datatype PoolOp = GetOp | PutOp(h: Handle) | CloseOp

  function Apply(s: PoolState, op: PoolOp): PoolState {
    match op
    case GetOp => Acquire(s).1
    case PutOp(h) => Release(s, h).1
    case CloseOp => Drain(s).1
  }

  function Run(s: PoolState, ops: seq<PoolOp>): PoolState
    decreases |ops|
  {
    if ops == [] then s else Run(Apply(s, ops[0]), ops[1..])
  }

  /** Bounded growth: whatever the calls, at most `capacity` connections are live, and the
      connections created number the live ones plus the close() calls made. */
  lemma {:induction false} RunKeepsConsistent(s: PoolState, ops: seq<PoolOp>)
    requires Consistent(s)
    ensures Consistent(Run(s, ops)) && Run(s, ops).bound == s.bound
    decreases |ops|
  {
    if ops != [] {
      if ops[0].CloseOp? {
        DrainKeepsConsistent(s);
      }
      RunKeepsConsistent(Apply(s, ops[0]), ops[1..]);
    }
  }

  /** From construction, until a connection is closed no more than `capacity` are ever created. */
  lemma CreatedAtMostCapacity(capacity: nat, url: string, ops: seq<PoolOp>)
    ensures Run(Initial(capacity, url), ops).closed == [] ==> Run(Initial(capacity, url), ops).nextId <= capacity
  {
    RunKeepsConsistent(Initial(capacity, url), ops);
    var t := Run(Initial(capacity, url), ops);
    if t.closed == [] {
      assert t.nextId == t.count + |t.closed|;
    }
  }

  /** DBAccess.ConnectionPool. */
  class ConnectionPool {
    /** The enclosing executor's URL, quoted in the null-connection message. */
    const url: string
    /** The size of the ArrayBlockingQueue, fixed at construction. */
    const bound: nat
    var capacity: int
    var count: int
    var freeConnections: seq<ConnId>
    /** The id of the connection the driver would open next. */
    var nextId: ConnId
    /** The connections closed so far, in order. */
    var closed: seq<ConnId>

    function State(): PoolState
      reads this
    {
      PoolState(url, bound, capacity, count, freeConnections, nextId, closed)
    }

    ghost predicate Valid()
      reads this
    {
      Consistent(State())
    }

    constructor (capacity: int, url: string)
      requires capacity >= 1
      ensures Valid() && State() == Initial(capacity, url)
    {
      this.url := url;
      this.bound := capacity;
      this.capacity := capacity;
      count := 0;
      freeConnections := [];
      nextId := 0;
      closed := [];
    }

    /** createNewConnection: the driver opens a connection never seen before. */
    method CreateNewConnection() returns (id: ConnId)
      modifies this`nextId
      ensures id == old(nextId) && nextId == old(nextId) + 1
    {
      id := nextId;
      nextId := nextId + 1;
    }

    method GetConnection() returns (r: Call<ConnId>)
      requires Valid()
      modifies this
      ensures Valid()
      ensures (r, State()) == Acquire(old(State()))
    {
      if capacity == 0 {
        return Failed(IllegalState(PoolClosedMessage));
      }
      if |freeConnections| == 0 {
        if count < capacity {
          var conn := CreateNewConnection();
          freeConnections := freeConnections + [conn];
          count := count + 1;
        }
      }
      if |freeConnections| == 0 {
        return Blocked;
      }
      r := Done(freeConnections[0]);
      freeConnections := freeConnections[1..];
    }

    method PutConnectionBack(h: Handle) returns (r: Result<()>)
      requires Valid()
      modifies this
      ensures Valid()
      ensures (r, State()) == Release(old(State()), h)
    {
      if h.Null? {
        return Threw(IllegalArgument(NullConnectionMessage(url)));
      }
      if |freeConnections| >= bound {
        return Threw(IllegalState(QueueFullMessage));
      }
      freeConnections := freeConnections + [h.id];
      r := Ok(());
    }

    method CloseAll() returns (r: Call<()>)
      requires Valid()
      modifies this
      ensures Valid()
      ensures (r, State()) == Drain(old(State()))
    {
      DrainKeepsConsistent(State());
      while count > 0
        invariant Drain(State()) == Drain(old(State()))
        decreases count
      {
        if |freeConnections| == 0 {
          return Blocked;
        }
        var conn := freeConnections[0];
        freeConnections := freeConnections[1..];
        closed := closed + [conn];
        count := count - 1;
      }
      capacity := 0;
      r := Done(());
    }
  }
}
