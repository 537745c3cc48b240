/** The pool of connections to instances, with eviction of the least recently used one when it is full. */
module ClientPool {
  import opened Lists
  import opened Wrappers

  type Id(==, !new)
  type Conn(==, !new)

  // ---------------------------------------------------------------- the pool as a value

  /** Most recently used first; `loans` are the connections borrowed and not returned. */
  datatype Pool = Pool(lru: seq<Id>, conns: map<Id, Conn>, requestCnt: map<Id, nat>, loans: multiset<Id>) {
    /** List, connections and counts are about the same ids, and counts are numbers of loans. */
    ghost predicate Ok() {
      ListOk(lru, conns) && CountsOk(conns, requestCnt, loans)
    }
  }

  ghost predicate ListOk(lru: seq<Id>, conns: map<Id, Conn>) {
    Distinct(lru) && |lru| == |conns| && forall id :: id in lru <==> id in conns
  }

  ghost predicate CountsOk(conns: map<Id, Conn>, requestCnt: map<Id, nat>, loans: multiset<Id>) {
    && conns.Keys == requestCnt.Keys
    && (forall id :: id in requestCnt ==> requestCnt[id] == loans[id])
    && (forall id :: id in loans ==> id in conns)
  }

  lemma ListFront(lru: seq<Id>, conns: map<Id, Conn>, id: Id)
    requires ListOk(lru, conns) && id in conns
    ensures ListOk([id] + Without(lru, id), conns)
  {
    WithoutMembers(lru, id);
  }

  lemma ListDropLast(lru: seq<Id>, conns: map<Id, Conn>)
    requires ListOk(lru, conns) && lru != []
    ensures lru[|lru| - 1] in conns && |conns - {lru[|lru| - 1]}| == |conns| - 1
    ensures ListOk(lru[..|lru| - 1], conns - {lru[|lru| - 1]})
  {
    var last, init := lru[|lru| - 1], lru[..|lru| - 1];
    DistinctInit(lru);
    assert last in lru;
    assert (conns - {last}).Keys == conns.Keys - {last};
  }

  lemma ListAdd(lru: seq<Id>, conns: map<Id, Conn>, id: Id, conn: Conn)
    requires ListOk(lru, conns) && id !in conns
    ensures ListOk([id] + lru, conns[id := conn]) && |conns[id := conn]| == |conns| + 1
  {
    assert conns[id := conn].Keys == conns.Keys + {id};
  }

  /** Handing out a connection makes it the most recently used. */
  function Touched(p: Pool, id: Id): Pool {
    var count := if id in p.requestCnt then p.requestCnt[id] else 0;
    p.(lru := [id] + Without(p.lru, id), requestCnt := p.requestCnt[id := count + 1], loans := p.loans + multiset{id})
  }

  lemma TouchKeepsOk(p: Pool, id: Id)
    requires p.Ok() && id in p.conns
    ensures Touched(p, id).Ok()
  {
    ListFront(p.lru, p.conns, id);
  }

  /** Whether the least recently used connection is out on loan. */
  predicate LastIsBusy(p: Pool) {
    p.lru != [] && p.lru[|p.lru| - 1] in p.requestCnt && p.requestCnt[p.lru[|p.lru| - 1]] > 0
  }

  function Evicted(p: Pool): Pool
    requires p.lru != []
  {
    var last := p.lru[|p.lru| - 1];
    p.(lru := p.lru[..|p.lru| - 1], conns := p.conns - {last}, requestCnt := p.requestCnt - {last})
  }

  lemma EvictKeepsOk(p: Pool)
    requires p.Ok() && p.lru != [] && !LastIsBusy(p)
    ensures Evicted(p).Ok() && |Evicted(p).conns| == |p.conns| - 1
    ensures forall id :: id in p.loans ==> id in Evicted(p).conns && Evicted(p).conns[id] == p.conns[id]
  {
    ListDropLast(p.lru, p.conns);
  }

  function Added(p: Pool, id: Id, conn: Conn): Pool {
    Pool([id] + p.lru, p.conns[id := conn], p.requestCnt[id := 1], p.loans + multiset{id})
  }

  lemma AddKeepsOk(p: Pool, id: Id, conn: Conn)
    requires p.Ok() && id !in p.conns
    ensures Added(p, id, conn).Ok() && |Added(p, id, conn).conns| == |p.conns| + 1
  {
    ListAdd(p.lru, p.conns, id, conn);
    assert id !in p.loans;
  }

  // ---------------------------------------------------------------- operations on the value

  datatype Result = Client(conn: Conn) | PoolFull | DialFailed

  /** A full pool closes its least recently used connection. */
  function MadeRoom(p: Pool, maxSize: int): Pool {
    if maxSize > 0 && |p.conns| >= maxSize && p.lru != [] then Evicted(p) else p
  }

  /** The id has no connection, the pool is full and the only connection that may go is borrowed. */
  predicate Refuses(p: Pool, maxSize: int, id: Id) {
    id !in p.conns && maxSize > 0 && |p.conns| >= maxSize && LastIsBusy(p)
  }

  /** The pool and the answer after a connection was asked for; `dial` is what making a new one gives. */
  function Borrowed(p: Pool, maxSize: int, id: Id, dial: Result): (Pool, Result) {
    if id in p.conns then (Touched(p, id), Client(p.conns[id]))
    else if Refuses(p, maxSize, id) then (p, PoolFull)
    else if dial.Client? then (Added(MadeRoom(p, maxSize), id, dial.conn), dial)
    else (MadeRoom(p, maxSize), dial)
  }

  function Returned(p: Pool, id: Id): Pool {
    var count := if id in p.requestCnt then p.requestCnt[id] else 0;
    p.(requestCnt := if count > 0 then p.requestCnt[id := count - 1] else p.requestCnt, loans := p.loans - multiset{id})
  }

  datatype PoolOp = Borrow(id: Id, dial: Result) | Return(id: Id)

  function Step(p: Pool, maxSize: int, op: PoolOp): Pool {
    match op
    case Borrow(id, dial) => Borrowed(p, maxSize, id, dial).0
    case Return(id) => Returned(p, id)
  }

  function Steps(p: Pool, maxSize: int, ops: seq<PoolOp>): Pool {
    if ops == [] then p else Step(Steps(p, maxSize, ops[..|ops| - 1]), maxSize, ops[|ops| - 1])
  }

  ghost predicate PoolValid(p: Pool, maxSize: int) {
    p.Ok() && (maxSize > 0 ==> |p.conns| <= maxSize)
  }

  lemma RoomKeepsValid(p: Pool, maxSize: int)
    requires PoolValid(p, maxSize) && !(maxSize > 0 && |p.conns| >= maxSize && LastIsBusy(p))
    ensures PoolValid(MadeRoom(p, maxSize), maxSize) && (maxSize > 0 ==> |MadeRoom(p, maxSize).conns| < maxSize)
    ensures BorrowedKept(p, MadeRoom(p, maxSize)) && MadeRoom(p, maxSize).conns.Keys <= p.conns.Keys
    ensures MadeRoom(p, maxSize).loans == p.loans
  {
    if maxSize > 0 && |p.conns| >= maxSize {
      LastIsCounted(p);
      EvictKeepsOk(p);
    }
  }

  /** Asking for a connection keeps the pool in order and within its size and closes no borrowed connection. */
  lemma BorrowKeepsValid(p: Pool, maxSize: int, id: Id, dial: Result)
    requires PoolValid(p, maxSize)
    ensures var (q, result) := Borrowed(p, maxSize, id, dial);
            && PoolValid(q, maxSize) && BorrowedKept(p, q)
            && q.loans == if result.Client? then p.loans + multiset{id} else p.loans
  {
    if id in p.conns {
      TouchKeepsOk(p, id);
    } else if !Refuses(p, maxSize, id) {
      RoomKeepsValid(p, maxSize);
      if dial.Client? {
        AddKeepsOk(MadeRoom(p, maxSize), id, dial.conn);
      }
    }
  }

  lemma ReturnKeepsValid(p: Pool, maxSize: int, id: Id)
    requires PoolValid(p, maxSize)
    ensures PoolValid(Returned(p, id), maxSize)
  {
  }

  /** The connection is on loan in the later pool, and is the one of the earlier pool. */
  ghost predicate StillLent(p: Pool, q: Pool, id: Id) {
    id in q.loans && id in p.conns && id in q.conns && q.conns[id] == p.conns[id]
  }

  ghost predicate NeverReturned(ops: seq<PoolOp>, id: Id) {
    forall i :: 0 <= i < |ops| && ops[i].Return? ==> ops[i].id != id
  }

  /**
   Over every run of requests and returns the counts are the numbers of loans, the pool stays within its
   size, and a connection that is borrowed and not returned in the run is neither closed nor replaced.
   */
  lemma {:induction false} RunKeepsLoans(p: Pool, maxSize: int, ops: seq<PoolOp>, id: Id)
    requires PoolValid(p, maxSize)
    ensures PoolValid(Steps(p, maxSize, ops), maxSize)
    ensures id in p.loans && NeverReturned(ops, id) ==> StillLent(p, Steps(p, maxSize, ops), id)
    decreases |ops|
  {
    if ops == [] {
    } else {
      var init, op := ops[..|ops| - 1], ops[|ops| - 1];
      RunKeepsLoans(p, maxSize, init, id);
      StepKeepsLoans(Steps(p, maxSize, init), maxSize, op, id);
    }
  }

  lemma StepKeepsLoans(p: Pool, maxSize: int, op: PoolOp, id: Id)
    requires PoolValid(p, maxSize)
    ensures PoolValid(Step(p, maxSize, op), maxSize)
    ensures id in p.loans && op != Return(id) ==> StillLent(p, Step(p, maxSize, op), id)
  {
    match op {
      case Borrow(other, dial) => BorrowKeepsLoans(p, maxSize, other, dial, id);
      case Return(other) => ReturnKeepsLoans(p, maxSize, other, id);
    }
  }

  lemma BorrowKeepsLoans(p: Pool, maxSize: int, other: Id, dial: Result, id: Id)
    requires PoolValid(p, maxSize)
    ensures PoolValid(Borrowed(p, maxSize, other, dial).0, maxSize)
    ensures id in p.loans ==> StillLent(p, Borrowed(p, maxSize, other, dial).0, id)
  {
    BorrowKeepsValid(p, maxSize, other, dial);
  }

  lemma ReturnKeepsLoans(p: Pool, maxSize: int, other: Id, id: Id)
    requires PoolValid(p, maxSize)
    ensures PoolValid(Returned(p, other), maxSize)
    ensures id in p.loans && other != id ==> StillLent(p, Returned(p, other), id)
  {
    ReturnKeepsValid(p, maxSize, other);
  }

  // ---------------------------------------------------------------- the manager

  class ClientManager {
    var lru: seq<Id>
    var conns: map<Id, Conn>
    var requestCnt: map<Id, nat>
    const maxSize: int
    ghost var loans: multiset<Id>

    ghost function View(): Pool
      reads this
    {
      Pool(lru, conns, requestCnt, loans)
    }

    ghost predicate Valid()
      reads this
    {
      PoolValid(View(), maxSize)
    }

    constructor (size: int)
      ensures Valid() && View() == Pool([], map[], map[], multiset{}) && maxSize == if size <= 0 then -1 else size
    {
      lru, conns, requestCnt, loans := [], map[], map[], multiset{};
      maxSize := if size <= 0 then -1 else size;
    }

    /** A borrower gives its connection back; a return without a loan changes nothing. */
    method DecrClientConnectionRequestCnt(id: Id)
      requires Valid()
      modifies this
      ensures Valid() && View() == Returned(old(View()), id)
    {
      ReturnKeepsValid(View(), maxSize, id);
      Decrement(id);
    }

    method Decrement(id: Id)
      modifies this
      ensures View() == Returned(old(View()), id)
    {
      if id in requestCnt {
        if requestCnt[id] > 0 {
          requestCnt := requestCnt[id := requestCnt[id] - 1];
        }
      }
      loans := loans - multiset{id};
    }

    method Touch(id: Id)
      requires id in requestCnt
      modifies this
      ensures View() == Touched(old(View()), id)
    {
      lru := [id] + Without(lru, id);
      requestCnt := requestCnt[id := requestCnt[id] + 1];
      loans := loans + multiset{id};
    }

    /** Hands out an existing connection, if there is one, and makes it the most recently used. */
    method GetClient(id: Id) returns (conn: Option<Conn>)
      requires Valid()
      modifies this
      ensures Valid() && conn == if id in old(conns) then Some(old(conns)[id]) else None
      ensures View() == if id in old(conns) then Touched(old(View()), id) else old(View())
    {
      if id !in conns {
        return None;
      }
      TouchKeepsOk(View(), id);
      conn := Some(conns[id]);
      Touch(id);
    }

    /** Closes the least recently used connection. */
    method EvictLast()
      requires lru != []
      modifies this
      ensures View() == Evicted(old(View()))
    {
      var last := lru[|lru| - 1];
      conns := conns - {last};
      requestCnt := requestCnt - {last};
      lru := lru[..|lru| - 1];
    }

    /**
     Makes room if the pool is full: at most one connection goes, the least recently used, and never a
     borrowed one.
     */
    method MakeRoom() returns (rejected: bool)
      requires Valid()
      modifies this
      ensures Valid()
      ensures rejected <==> maxSize > 0 && |old(conns)| >= maxSize && LastIsBusy(old(View()))
      ensures View() == if rejected then old(View()) else MadeRoom(old(View()), maxSize)
    {
      rejected := false;
      while maxSize > 0 && |conns| >= maxSize
        invariant Valid() && !rejected
        invariant View() == old(View()) || (|conns| < maxSize && Room(old(View()), View(), maxSize))
        decreases |lru|
      {
        LastIsCounted(View());
        if requestCnt[lru[|lru| - 1]] > 0 {
          return true;
        }
        EvictKeepsOk(View());
        EvictLast();
      }
    }

    /** Looks again under the lock, makes room and adds the connection that `dial` gives. */
    method CreateClient(id: Id, dial: Result) returns (result: Result)
      requires Valid() && !dial.PoolFull?
      modifies this
      ensures Valid() && (View(), result) == Borrowed(old(View()), maxSize, id, dial)
    {
      BorrowKeepsValid(View(), maxSize, id, dial);
      var existing := GetClient(id);
      if existing.Some? {
        return Client(existing.value);
      }
      var rejected := MakeRoom();
      if rejected {
        return PoolFull;
      }
      if dial.DialFailed? {
        return dial;
      }
      AddFirst(id, dial.conn);
      return dial;
    }

    /** What other callers do to the pool while nobody holds its lock. */
    method Meanwhile(others: seq<PoolOp>)
      requires Valid() && forall i :: 0 <= i < |others| && others[i].Borrow? ==> !others[i].dial.PoolFull?
      modifies this
      ensures Valid() && View() == Steps(old(View()), maxSize, others)
    {
      for n := 0 to |others|
        invariant Valid() && View() == Steps(old(View()), maxSize, others[..n])
      {
        assert others[..n + 1][..n] == others[..n];
        match others[n] {
          case Borrow(id, dial) => var _ := CreateClient(id, dial);
          case Return(id) => DecrClientConnectionRequestCnt(id);
        }
      }
      assert others[..|others|] == others;
    }

    /** The lock is released between the look-up and the creation; `others` is what happens in between. */
    method GetOrCreateClient(id: Id, dial: Result, others: seq<PoolOp>) returns (result: Result)
      requires Valid() && !dial.PoolFull?
      requires forall i :: 0 <= i < |others| && others[i].Borrow? ==> !others[i].dial.PoolFull?
      modifies this
      ensures Valid()
      ensures (View(), result)
              == Borrowed(if id in old(conns) then old(View()) else Steps(old(View()), maxSize, others),
                                           maxSize, id, dial)
    {
      var existing := GetClient(id);
      if existing.Some? {
        return Client(existing.value);
      }
      Meanwhile(others);
      result := CreateClient(id, dial);
    }

    method AddFirst(id: Id, conn: Conn)
      modifies this
      ensures View() == Added(old(View()), id, conn)
    {
      lru := [id] + lru;
      conns := conns[id := conn];
      requestCnt := requestCnt[id := 1];
      loans := loans + multiset{id};
    }
  }

  /** The pool was full and its idle last connection went. */
  ghost predicate Room(p: Pool, q: Pool, maxSize: int) {
    |p.conns| == maxSize && p.lru != [] && !LastIsBusy(p) && q == Evicted(p)
  }

  lemma LastIsCounted(p: Pool)
    requires p.Ok() && |p.conns| > 0
    ensures p.lru != [] && p.lru[|p.lru| - 1] in p.requestCnt
  {
    assert p.lru[|p.lru| - 1] in p.lru;
  }

  /** Whatever was borrowed is still open. */
  ghost predicate BorrowedKept(p: Pool, q: Pool) {
    forall id :: id in p.loans ==> id in p.conns && id in q.conns && q.conns[id] == p.conns[id]
  }

  /** A full pool with the older connection borrowed and the newer one idle refuses a third. */
  lemma BusyLastRefuses(p: Pool, a: Id, b: Id, c: Id)
    requires a != b && b != c && a != c && p.Ok() && p.lru == [a, b] && p.loans == multiset{b}
    ensures Refuses(p, 2, c) && a in p.conns && a !in p.loans
  {
    assert b in p.lru && a in p.lru;
    assert |p.conns| == |p.lru| == 2;
  }

  lemma TwoOpened(p: Pool, a: Id, b: Id, x: Conn, y: Conn)
    requires a != b && p == Pool([], map[], map[], multiset{})
    ensures var q := Borrowed(p, 2, b, Client(y)).0;
            var r := Returned(Borrowed(q, 2, a, Client(x)).0, a);
            r.lru == [a, b] && r.loans == multiset{b}
  {
    var q := Borrowed(p, 2, b, Client(y)).0;
    assert q.conns == map[b := y] && |q.conns| == 1 && q.lru == [b] && a !in q.conns;
    assert Borrowed(q, 2, a, Client(x)).0.loans == multiset{b} + multiset{a};
  }

  /** By calls: two connections are opened, the newer one is returned, and a third is refused although it is idle. */
  method RejectsWithIdleConnection(a: Id, b: Id, c: Id, x: Conn, y: Conn, z: Conn)
    returns (pool: ClientManager, result: Result)
    requires a != b && b != c && a != c
    ensures result == PoolFull && a in pool.conns && a !in pool.loans && c !in pool.conns
  {
    pool := new ClientManager(2);
    TwoOpened(pool.View(), a, b, x, y);
    var first := pool.CreateClient(b, Client(y));
    var second := pool.CreateClient(a, Client(x));
    pool.DecrClientConnectionRequestCnt(a);
    BusyLastRefuses(pool.View(), a, b, c);
    result := pool.CreateClient(c, Client(z));
  }
}
