# Queue-backed object pool

A model of the object-reuse pool of `java-recycle-garbage`: a `Pool<T>` keeps a
FIFO queue of instances that clients have returned. `lease` hands out the oldest
held instance. When none is held it calls a factory instead. `release` offers an
instance back at the tail. `size` reports how many instances are held. `close`
clears the queue, but only when the pool was built by one of the two standard
constructors. Those are `concurrentPool` (unbounded) and `fixedBlockingPool(limit)`
(at most `limit` instances).

The project has three modules:

- `PoolModel` (`pool_model.dfy`): the abstract state of a pool. It holds the
  queue, the capacity (`Unbounded` or `Bounded(limit)`), the close policy and the
  number of factory calls so far. Each operation is a function from old state to
  new state, and `Run` applies a sequence of operations. A ledger (`Taken`,
  `Discarded`, `Released`) records where every instance goes. The lemmas state
  what holds after any sequence of operations.
- `QueuePoolImpl` (`queue_pool_impl.dfy`): the class `QueuePool`, whose methods
  change the `queue` field in place, and `Supplier`, the factory. Every method is
  proved against the matching `PoolModel` function.
- `Pool` (`pool.dfy`): the two standard constructors, the lemmas about the pools
  they build, and two client scenarios checked against the method contracts.

The factory is a token generator: its n-th call (from 0) yields `make(n)`, and
`Supplier.calls` counts the calls. `size()` returns a Java `int`, so `SizeOf`
saturates at 2^31-1, as `Collection.size` does. It equals the queue length
whenever that length fits in an `int`, and always does for a fixed pool.

The name `fixedBlockingPool` suggests that `release` waits for room, but the
code calls `offer` (`QueuePoolImpl.java:31`) and ignores its result. On a full `ArrayBlockingQueue`, `offer` returns `false` at once. The model
follows the code: releasing into a full bounded pool drops the instance and
returns. `DropWhenFullScenario` shows this.

## Model

| member | source | states |
|---|---|---|
| PoolModel.Poll | src/main/java/com/github/akurilov/reduce/garbage/QueuePoolImpl.java:25-26 | `poll` yields nothing exactly when the queue is empty; otherwise it yields the head, and head plus rest is the queue |
| PoolModel.ReleaseThenLease | src/main/java/com/github/akurilov/reduce/garbage/QueuePoolImpl.java:24-32 | on an empty pool with room, `release(x)` then `lease()` returns `x`, calls no factory and restores the state exactly |
| PoolModel.CloseIdempotent | src/main/java/com/github/akurilov/reduce/garbage/QueuePoolImpl.java:40-44 | closing twice equals closing once; a cleaning pool is empty after close, and a non-cleaning pool is unchanged |
| PoolModel.SizeIsLength | src/main/java/com/github/akurilov/reduce/garbage/QueuePoolImpl.java:35-37 | `size()` lies in 0..2^31-1, and it equals the number held if and only if that number fits in an `int` |
| PoolModel.TakenIsLeased | src/main/java/com/github/akurilov/reduce/garbage/QueuePoolImpl.java:25-26 | the instance the ledger counts as recycled by a lease on a non-empty queue is exactly the instance that lease returns |
| PoolModel.StepConserves | src/main/java/com/github/akurilov/reduce/garbage/QueuePoolImpl.java:24-44 | one operation loses no instance: held after, plus handed out, plus discarded, equals held before plus released |
| PoolModel.RunKeepsConfig | src/main/java/com/github/akurilov/reduce/garbage/QueuePoolImpl.java:9-21 | no sequence of operations changes the capacity or the close policy, and factory calls never decrease |
| PoolModel.RunKeepsFits | src/main/java/com/github/akurilov/reduce/garbage/QueuePoolImpl.java:30-32 | a pool within its capacity stays within it after any sequence of operations |
| PoolModel.Conservation | src/main/java/com/github/akurilov/reduce/garbage/QueuePoolImpl.java:23-44 | after any sequence of operations: held at the end, plus recycled to clients, plus discarded, equals held at the start plus released |
| PoolModel.LeasesHitOrMiss | src/main/java/com/github/akurilov/reduce/garbage/QueuePoolImpl.java:24-27 | every lease is served exactly one way: recycled from the queue or made by one factory call |
| PoolModel.FactoryCallsBounded | src/main/java/com/github/akurilov/reduce/garbage/QueuePoolImpl.java:24-27 | the factory is called at most once per lease |
| PoolModel.HeldBound | src/main/java/com/github/akurilov/reduce/garbage/QueuePoolImpl.java:30-32 | a pool never holds more than it started with plus what was released to it |
| PoolModel.UnboundedDiscardsNothing | src/main/java/com/github/akurilov/reduce/garbage/QueuePoolImpl.java:30-44 | an unbounded pool that is never closed discards no instance |
| QueuePoolImpl.Supplier.Get | src/main/java/com/github/akurilov/reduce/garbage/QueuePoolImpl.java:26 | the factory's n-th call yields `make(n)` and counts one more call |
| QueuePoolImpl.QueuePool.constructor | src/main/java/com/github/akurilov/reduce/garbage/QueuePoolImpl.java:13-15 | the public constructor wraps the given container and factory and does not clean on close |
| QueuePoolImpl.QueuePool.WithCleanup | src/main/java/com/github/akurilov/reduce/garbage/QueuePoolImpl.java:17-21 | the package constructor wraps the given container and factory with the given close policy |
| QueuePoolImpl.QueuePool.PollHead | src/main/java/com/github/akurilov/reduce/garbage/QueuePoolImpl.java:25 | `poll` removes and returns the head, or returns nothing and leaves an empty queue empty |
| QueuePoolImpl.QueuePool.Offer | src/main/java/com/github/akurilov/reduce/garbage/QueuePoolImpl.java:31 | `offer` appends at the tail exactly when there is room and reports whether it did |
| QueuePoolImpl.QueuePool.Lease | src/main/java/com/github/akurilov/reduce/garbage/QueuePoolImpl.java:24-27 | non-empty: returns the head, removes exactly it, no factory call; empty: returns the factory's next token, one call, queue stays empty; keeps the capacity invariant |
| QueuePoolImpl.QueuePool.Release | src/main/java/com/github/akurilov/reduce/garbage/QueuePoolImpl.java:30-32 | with room, appends the instance at the tail; a full bounded queue is left unchanged and the call returns; keeps the capacity invariant |
| QueuePoolImpl.QueuePool.Size | src/main/java/com/github/akurilov/reduce/garbage/QueuePoolImpl.java:35-37 | returns the number held (saturated at 2^31-1) and changes nothing |
| QueuePoolImpl.QueuePool.Close | src/main/java/com/github/akurilov/reduce/garbage/QueuePoolImpl.java:40-44 | empties the queue when the pool cleans on close, otherwise leaves it untouched |
| Pool.ConcurrentPoolState | src/main/java/com/github/akurilov/reduce/garbage/Pool.java:16-18 | an unbounded pool starts empty, with no bound, cleaning on close |
| Pool.FixedBlockingPoolState | src/main/java/com/github/akurilov/reduce/garbage/Pool.java:20-22 | a fixed pool starts empty, bounded by `limit`, cleaning on close |
| Pool.ConcurrentPool | src/main/java/com/github/akurilov/reduce/garbage/Pool.java:16-18 | builds a fresh pool in the unbounded pool's start state over the given factory |
| Pool.FixedBlockingPool | src/main/java/com/github/akurilov/reduce/garbage/Pool.java:20-22 | for `1 <= limit <= 2^31-1`, builds a fresh pool in the fixed pool's start state over the given factory |
| Pool.FixedBlockingPoolBounded | src/main/java/com/github/akurilov/reduce/garbage/Pool.java:20-22 | a fixed pool never holds more than `limit` instances after any sequence of lease, release and close |
| Pool.ConcurrentPoolReleaseGrows | src/main/java/com/github/akurilov/reduce/garbage/Pool.java:16-18 | in an unbounded pool, after any history, `release(x)` appends `x`, so size grows by exactly one |
| Pool.StandardPoolsEmptyOnClose | src/main/java/com/github/akurilov/reduce/garbage/Pool.java:16-22 | both standard pools hold nothing after `close()`, whatever happened before |
| Pool.ConcurrentPoolKeepsEverything | src/main/java/com/github/akurilov/reduce/garbage/Pool.java:16-18 | an unbounded pool that is not closed loses nothing: held plus recycled equals released |
| Pool.RecycleScenario | src/main/java/com/github/akurilov/reduce/garbage/QueuePoolImpl.java:24-32 | unbounded pool, factory counting from 0: the first lease yields 0, and after releasing it the next lease yields 0 again |
| Pool.DropWhenFullScenario | src/main/java/com/github/akurilov/reduce/garbage/QueuePoolImpl.java:30-32 | one-slot fixed pool: a release into the full pool is dropped, size stays 1, and the next lease yields the first instance released |

## Left out

- Thread safety and blocking: the containers are JDK classes (`ConcurrentLinkedQueue`, `ArrayBlockingQueue`). The queue is modelled as a sequential FIFO `seq<T>`, so interleavings of concurrent calls are not modelled. `release` never blocks in the code.
- Factory failures: the factory is an opaque `Supplier`. Exceptions it may throw, and their propagation out of `lease`, are not modelled.
- Null: `ConcurrentLinkedQueue` and `ArrayBlockingQueue` reject `null`, which is why `lease` reads a `null` from `poll` as "empty". Instances are modelled as values and `poll` returns an `Option`.
- The `Pool` interface: it has a single implementation, which is modelled as the class `QueuePool`. The interface's abstract signatures are not modelled separately.
- `AutoCloseable` and try-with-resources wiring: only the effect of `close()` on the queue is modelled.
- Pool.FixedBlockingPool: requires `1 <= limit`, because `ArrayBlockingQueue` throws `IllegalArgumentException` for a smaller capacity. That exception is not modelled. The upper bound is the range of Java's `int`.
- QueuePoolImpl.QueuePool.constructor: the Java public constructor keeps a reference to the caller's own `Queue`; the model copies its contents and capacity into the pool. Changes the caller makes to that container between pool calls, and two pools sharing one container, are not modelled.
- QueuePoolImpl.QueuePool.constructor: containers that accept `null` (a `LinkedList`, for one) are excluded. With one, `lease` would poll a stored `null`, discard it and call the factory; the model holds no `null` instances.
- QueuePoolImpl.QueuePool.constructor: other queue disciplines a caller could pass (priority queues, LIFO deques) are not modelled; the model assumes FIFO.
- The benchmarks in `PoolTest.java` are not modelled: endless loops, timing and console output.
