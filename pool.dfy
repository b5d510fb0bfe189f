/**
 * The two standard pools: an unbounded one (over a lock-free linked queue)
 * and a fixed-capacity one (over an array-backed queue of `limit` slots).
 * Both clear their held instances on close.
 */
module Pool {
  import opened PoolModel
  import opened QueuePoolImpl

  /** The state a fresh unbounded pool starts in, given its factory's call count. */
  function ConcurrentPoolState<T>(made: nat): (s: State<T>)
    ensures s.queue == [] && s.capacity == Unbounded && s.cleanOnClose && s.made == made
  {
    State([], Unbounded, true, made)
  }

  /** The state a fresh fixed-capacity pool starts in. */
  function FixedBlockingPoolState<T>(limit: nat, made: nat): (s: State<T>)
    ensures s.queue == [] && s.capacity == Bounded(limit) && s.cleanOnClose && s.made == made
  {
    State([], Bounded(limit), true, made)
  }

  /** An empty, unbounded pool that clears itself on close. */
  method ConcurrentPool<T>(factory: Supplier<T>) returns (p: QueuePool<T>)
    ensures fresh(p) && p.Valid()
    ensures p.State() == ConcurrentPoolState(factory.calls)
    ensures p.factory == factory
  {
    p := new QueuePool.WithCleanup([], Unbounded, factory, true);
  }

  /**
   * An empty pool of at most `limit` instances that clears itself on close.
   * The backing array queue rejects a capacity below one, and `limit` is an `int`.
   */
  method FixedBlockingPool<T>(limit: int, factory: Supplier<T>) returns (p: QueuePool<T>)
    requires 1 <= limit <= IntMax
    ensures fresh(p) && p.Valid()
    ensures p.State() == FixedBlockingPoolState(limit, factory.calls)
    ensures p.factory == factory
  {
    p := new QueuePool.WithCleanup([], Bounded(limit), factory, true);
  }

  /** A fixed-capacity pool never holds more than `limit` instances, so its `size()` is at most `limit`. */
  lemma FixedBlockingPoolBounded<T>(limit: nat, made: nat, ops: seq<Op<T>>)
    ensures |Run(FixedBlockingPoolState(limit, made), ops).queue| <= limit
    ensures SizeOf(Run(FixedBlockingPoolState(limit, made), ops).queue) <= limit
  {
    var s: State<T> := FixedBlockingPoolState(limit, made);
    RunKeepsConfig(s, ops);
    RunKeepsFits(s, ops);
  }

  /** In an unbounded pool, whatever happened before, `release(x)` appends `x`: size grows by exactly one. */
  lemma ConcurrentPoolReleaseGrows<T>(made: nat, ops: seq<Op<T>>, x: T)
    ensures AfterRelease(Run(ConcurrentPoolState(made), ops), x).queue
         == Run(ConcurrentPoolState(made), ops).queue + [x]
    ensures |AfterRelease(Run(ConcurrentPoolState(made), ops), x).queue|
         == |Run(ConcurrentPoolState(made), ops).queue| + 1
  {
    RunKeepsConfig(ConcurrentPoolState<T>(made), ops);
  }

  /** Both standard pools hold nothing after `close()`, whatever happened before. */
  lemma StandardPoolsEmptyOnClose<T>(limit: nat, made: nat, ops: seq<Op<T>>)
    ensures AfterClose(Run(ConcurrentPoolState(made), ops)).queue == []
    ensures AfterClose(Run(FixedBlockingPoolState(limit, made), ops)).queue == []
  {
    RunKeepsConfig(ConcurrentPoolState<T>(made), ops);
    RunKeepsConfig(FixedBlockingPoolState<T>(limit, made), ops);
  }

  /**
   * An unbounded pool that is not closed loses nothing: what it holds plus
   * what it recycled to clients is exactly what it was given.
   */
  lemma ConcurrentPoolKeepsEverything<T>(made: nat, ops: seq<Op<T>>)
    requires !Closes(ops)
    ensures multiset(Run(ConcurrentPoolState(made), ops).queue) + Taken(ConcurrentPoolState(made), ops)
         == Released(ops)
  {
    var s: State<T> := ConcurrentPoolState(made);
    Conservation(s, ops);
    UnboundedDiscardsNothing(s, ops);
    var kept := multiset(Run(s, ops).queue) + Taken(s, ops);
    assert multiset(s.queue) == multiset{};
    assert kept + multiset{} == kept;
    assert multiset{} + Released(ops) == Released(ops);
  }

  /** An unbounded pool whose factory counts from 0: the first lease is made, and after releasing it the next lease recycles it. */
  method RecycleScenario() returns (first: int, second: int)
    ensures first == 0 && second == 0
  {
    var factory := new Supplier<int>((n: nat) => n);
    var pool := ConcurrentPool(factory);
    first := pool.Lease();
    pool.Release(first);
    second := pool.Lease();
  }

  /**
   * A fixed pool of one slot: releasing into the full pool drops the
   * instance and returns; the held instance is the first one released.
   */
  method DropWhenFullScenario() returns (held: int, recycled: int)
    ensures held == 1 && recycled == 10
  {
    var factory := new Supplier<int>((n: nat) => n);
    var pool := FixedBlockingPool(1, factory);
    var x := pool.Lease();
    pool.Release(10);
    pool.Release(x);
    held := pool.Size();
    recycled := pool.Lease();
  }
}
