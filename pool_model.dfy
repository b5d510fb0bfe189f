/**
 * The sequential meaning of a queue-backed object pool.
 *
 * A pool holds a FIFO queue of instances, an optional capacity (the bound of
 * the container it was built over), a flag saying whether closing the pool
 * clears the queue, and the number of times its factory has been called so far.
 * Each pool operation is a function from the old state to the new one; the
 * class QueuePoolImpl.QueuePool is proved against these functions, and the
 * lemmas below state what follows from them over any sequence of operations.
 */
module PoolModel {

  datatype Option<T> = None | Some(value: T)

  /** Largest value of a Java `int`: what a container's `size()` saturates at. */
  const IntMax: int := 0x7fff_ffff

  /** The bound of the container behind a pool: none, or a fixed number of slots. */
  datatype Capacity = Unbounded | Bounded(limit: nat)

  /** `offer` succeeds exactly when the container has a free slot. */
  predicate HasRoom<T>(queue: seq<T>, capacity: Capacity)
  {
    capacity.Unbounded? || |queue| < capacity.limit
  }

  /** The container never holds more instances than its capacity. */
  predicate Fits<T>(queue: seq<T>, capacity: Capacity)
  {
    capacity.Unbounded? || |queue| <= capacity.limit
  }

  /** The abstract state of one pool: held instances (head first), bound, close policy, factory calls so far. */
  datatype State<T> = State(queue: seq<T>, capacity: Capacity, cleanOnClose: bool, made: nat)

  /** The operations a client can perform on a pool. */
  datatype Op<T> = Lease | Release(instance: T) | Close

  /** `poll`: the head of the queue, or nothing when the queue is empty. */
  function Poll<T>(queue: seq<T>): (r: Option<T>)
    ensures r.None? <==> queue == []
    ensures r.Some? ==> [r.value] + queue[1..] == queue
  {
    if queue == [] then None else Some(queue[0])
  }

  /** The instance `lease` returns: the polled head, or the factory's next product. */
  function Leased<T>(s: State<T>, make: nat -> T): T
  {
    match Poll(s.queue)
    case Some(x) => x
    case None => make(s.made)
  }

  /** The state after `lease`: the head is removed, or the factory has been called once more. */
  function AfterLease<T>(s: State<T>): State<T>
  {
    if s.queue != [] then s.(queue := s.queue[1..]) else s.(made := s.made + 1)
  }

  /** The state after `release(x)`: `x` is offered at the tail and dropped when there is no room. */
  function AfterRelease<T>(s: State<T>, x: T): State<T>
  {
    if HasRoom(s.queue, s.capacity) then s.(queue := s.queue + [x]) else s
  }

  /** The state after `close`: the queue is cleared only when the pool cleans on close. */
  function AfterClose<T>(s: State<T>): State<T>
  {
    if s.cleanOnClose then s.(queue := []) else s
  }

  /** What `size()` reports: the number of held instances, saturated at the largest `int`. */
  function SizeOf<T>(queue: seq<T>): int
  {
    if |queue| > IntMax then IntMax else |queue|
  }

  function Step<T>(s: State<T>, op: Op<T>): State<T>
  {
    match op
    case Lease => AfterLease(s)
    case Release(x) => AfterRelease(s, x)
    case Close => AfterClose(s)
  }

  /** The state after performing `ops` in order, starting from `s`. */
  function Run<T>(s: State<T>, ops: seq<Op<T>>): State<T>
    decreases |ops|
  {
    if ops == [] then s else Run(Step(s, ops[0]), ops[1..])
  }

  // ---------------------------------------------------------------------------
  // Ledger of instances: where every instance handed to the pool ends up.

  /** The instance one operation takes out of the queue and hands to a client, if any. */
  function TakenBy<T>(s: State<T>, op: Op<T>): multiset<T>
  {
    if op.Lease? && s.queue != [] then multiset{s.queue[0]} else multiset{}
  }

  /** The instances one operation discards: a release into a full queue, or a clearing close. */
  function DiscardedBy<T>(s: State<T>, op: Op<T>): multiset<T>
  {
    match op
    case Lease => multiset{}
    case Release(x) => if HasRoom(s.queue, s.capacity) then multiset{} else multiset{x}
    case Close => if s.cleanOnClose then multiset(s.queue) else multiset{}
  }

  /** Instances recycled to clients (leases served from the queue) over `ops`. */
  function Taken<T>(s: State<T>, ops: seq<Op<T>>): multiset<T>
    decreases |ops|
  {
    if ops == [] then multiset{} else TakenBy(s, ops[0]) + Taken(Step(s, ops[0]), ops[1..])
  }

  /** Instances the pool forgets over `ops`. */
  function Discarded<T>(s: State<T>, ops: seq<Op<T>>): multiset<T>
    decreases |ops|
  {
    if ops == [] then multiset{} else DiscardedBy(s, ops[0]) + Discarded(Step(s, ops[0]), ops[1..])
  }

  /** Instances passed to `release` in `ops`. */
  function Released<T>(ops: seq<Op<T>>): multiset<T>
    decreases |ops|
  {
    if ops == [] then multiset{}
    else (if ops[0].Release? then multiset{ops[0].instance} else multiset{}) + Released(ops[1..])
  }

  /** Number of `lease` calls in `ops`. */
  function Leases<T>(ops: seq<Op<T>>): nat
    decreases |ops|
  {
    if ops == [] then 0 else (if ops[0].Lease? then 1 else 0) + Leases(ops[1..])
  }

  /** Whether `ops` contains a `close`. */
  predicate Closes<T>(ops: seq<Op<T>>)
  {
    exists i :: 0 <= i < |ops| && ops[i].Close?
  }

  // ---------------------------------------------------------------------------
  // Properties of single operations.

  /** Releasing into an empty pool with room and leasing again gives the same instance back and restores the state; the factory is not called. */
  lemma ReleaseThenLease<T>(s: State<T>, x: T, make: nat -> T)
    requires s.queue == [] && HasRoom(s.queue, s.capacity)
    ensures Leased(AfterRelease(s, x), make) == x
    ensures AfterLease(AfterRelease(s, x)) == s
    ensures AfterLease(AfterRelease(s, x)).made == s.made
  {
  }

  /** The instance a lease takes out of a non-empty queue is the one it returns. */
  lemma TakenIsLeased<T>(s: State<T>, make: nat -> T)
    requires s.queue != []
    ensures TakenBy(s, Lease) == multiset{Leased(s, make)}
  {
  }

  /** Closing twice leaves the same state as closing once. */
  lemma CloseIdempotent<T>(s: State<T>)
    ensures AfterClose(AfterClose(s)) == AfterClose(s)
    ensures s.cleanOnClose ==> AfterClose(s).queue == []
    ensures !s.cleanOnClose ==> AfterClose(s) == s
  {
  }

  /** `size()` is the number of held instances whenever that fits in an `int`, and never exceeds the largest `int`. */
  lemma SizeIsLength<T>(queue: seq<T>)
    ensures 0 <= SizeOf(queue) <= IntMax
    ensures SizeOf(queue) == |queue| <==> |queue| <= IntMax
  {
  }

  /** Each operation accounts for every instance: what is held afterwards, plus what it hands out or discards, equals what was held plus what it received. */
  lemma StepConserves<T>(s: State<T>, op: Op<T>)
    ensures multiset(Step(s, op).queue) + TakenBy(s, op) + DiscardedBy(s, op)
         == multiset(s.queue) + Released([op])
  {
    assert [op][1..] == [];
    match op
    case Lease =>
      if s.queue != [] {
        assert s.queue == [s.queue[0]] + s.queue[1..];
      }
    case Release(x) =>
    case Close =>
  }

  // ---------------------------------------------------------------------------
  // Properties of any sequence of operations.

  /** No operation changes the capacity or the close policy, and the factory-call count never goes down. */
  lemma {:induction false} RunKeepsConfig<T>(s: State<T>, ops: seq<Op<T>>)
    ensures Run(s, ops).capacity == s.capacity
    ensures Run(s, ops).cleanOnClose == s.cleanOnClose
    ensures Run(s, ops).made >= s.made
    decreases |ops|
  {
    if ops != [] {
      RunKeepsConfig(Step(s, ops[0]), ops[1..]);
    }
  }

  /** A pool that starts within its capacity stays within it, whatever the clients do. */
  lemma {:induction false} RunKeepsFits<T>(s: State<T>, ops: seq<Op<T>>)
    requires Fits(s.queue, s.capacity)
    ensures Fits(Run(s, ops).queue, Run(s, ops).capacity)
    decreases |ops|
  {
    if ops != [] {
      var t := Step(s, ops[0]);
      assert Fits(t.queue, t.capacity) && t.capacity == s.capacity;
      RunKeepsFits(t, ops[1..]);
    }
  }

  /** No instance is lost: held at the end, plus recycled to clients, plus discarded, equals held at the start plus released. */
  lemma {:induction false} Conservation<T>(s: State<T>, ops: seq<Op<T>>)
    ensures multiset(Run(s, ops).queue) + Taken(s, ops) + Discarded(s, ops)
         == multiset(s.queue) + Released(ops)
    decreases |ops|
  {
    if ops != [] {
      var t := Step(s, ops[0]);
      StepConserves(s, ops[0]);
      Conservation(t, ops[1..]);
      assert Run(s, ops) == Run(t, ops[1..]);
      assert Taken(s, ops) == TakenBy(s, ops[0]) + Taken(t, ops[1..]);
      assert Discarded(s, ops) == DiscardedBy(s, ops[0]) + Discarded(t, ops[1..]);
      assert Released(ops) == Released([ops[0]]) + Released(ops[1..]);
      calc {
        multiset(Run(s, ops).queue) + Taken(s, ops) + Discarded(s, ops);
        (multiset(Run(t, ops[1..]).queue) + Taken(t, ops[1..]) + Discarded(t, ops[1..]))
          + TakenBy(s, ops[0]) + DiscardedBy(s, ops[0]);
        multiset(t.queue) + Released(ops[1..]) + TakenBy(s, ops[0]) + DiscardedBy(s, ops[0]);
        multiset(s.queue) + Released([ops[0]]) + Released(ops[1..]);
      }
    }
  }

  /** Every lease is served exactly one way: recycled from the queue or made by one factory call. */
  lemma {:induction false} LeasesHitOrMiss<T>(s: State<T>, ops: seq<Op<T>>)
    ensures Run(s, ops).made - s.made + |Taken(s, ops)| == Leases(ops)
    decreases |ops|
  {
    if ops != [] {
      LeasesHitOrMiss(Step(s, ops[0]), ops[1..]);
    }
  }

  /** The factory is called at most once per lease. */
  lemma FactoryCallsBounded<T>(s: State<T>, ops: seq<Op<T>>)
    ensures s.made <= Run(s, ops).made <= s.made + Leases(ops)
  {
    RunKeepsConfig(s, ops);
    LeasesHitOrMiss(s, ops);
  }

  /** The pool never holds more than it started with plus what it was given. */
  lemma HeldBound<T>(s: State<T>, ops: seq<Op<T>>)
    ensures |Run(s, ops).queue| <= |s.queue| + |Released(ops)|
  {
    Conservation(s, ops);
    var lhs := multiset(Run(s, ops).queue) + Taken(s, ops) + Discarded(s, ops);
    assert |lhs| == |Run(s, ops).queue| + |Taken(s, ops)| + |Discarded(s, ops)|;
  }

  /** An unbounded pool that is never closed discards nothing. */
  lemma {:induction false} UnboundedDiscardsNothing<T>(s: State<T>, ops: seq<Op<T>>)
    requires s.capacity.Unbounded?
    requires !Closes(ops)
    ensures Discarded(s, ops) == multiset{}
    decreases |ops|
  {
    if ops != [] {
      assert !ops[0].Close? by { assert !(0 <= 0 < |ops| && ops[0].Close?); }
      assert !Closes(ops[1..]) by {
        forall i | 0 <= i < |ops[1..]| ensures !ops[1..][i].Close? {
          assert ops[1..][i] == ops[i + 1];
        }
      }
      UnboundedDiscardsNothing(Step(s, ops[0]), ops[1..]);
    }
  }
}
