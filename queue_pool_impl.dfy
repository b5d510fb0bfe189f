/**
 * The queue-backed pool: an object whose methods poll, offer to and clear a
 * FIFO queue in place, falling back to a factory when the queue is empty.
 * Each method is proved against the matching function of PoolModel.
 */
module QueuePoolImpl {
  import opened PoolModel

  /**
   * The factory callback. It is opaque to the pool; here it is a token
   * generator whose n-th call (counting from 0) yields `make(n)`, and `calls`
   * counts how often it has been invoked.
   */
  class Supplier<T> {
    const make: nat -> T
    var calls: nat

    constructor (make: nat -> T)
      ensures this.make == make && calls == 0
    {
      this.make := make;
      calls := 0;
    }

    method Get() returns (x: T)
      modifies this
      ensures x == make(old(calls))
      ensures calls == old(calls) + 1
    {
      x := make(calls);
      calls := calls + 1;
    }
  }

  class QueuePool<T> {
    /** Held instances, head (oldest released) first. */
    var queue: seq<T>
    /** The bound of the container the pool was built over. */
    const capacity: Capacity
    const factory: Supplier<T>
    const cleanOnClose: bool

    /** The container never holds more than its capacity. */
    ghost predicate Valid()
      reads this
    {
      Fits(queue, capacity)
    }

    /** The abstract value of this pool and its factory. */
    ghost function State(): State<T>
      reads this, factory
    {
      PoolModel.State(queue, capacity, cleanOnClose, factory.calls)
    }

    /** The public constructor over a caller-supplied container: closing the pool leaves that container alone. */
    constructor (queue: seq<T>, capacity: Capacity, factory: Supplier<T>)
      requires Fits(queue, capacity)
      ensures Valid()
      ensures this.queue == queue && this.capacity == capacity && this.factory == factory
      ensures !cleanOnClose
    {
      this.queue := queue;
      this.capacity := capacity;
      this.factory := factory;
      this.cleanOnClose := false;
    }

    /** The constructor the standard pools use, with an explicit close policy. */
    constructor WithCleanup(queue: seq<T>, capacity: Capacity, factory: Supplier<T>, cleanOnClose: bool)
      requires Fits(queue, capacity)
      ensures Valid()
      ensures this.queue == queue && this.capacity == capacity && this.factory == factory
      ensures this.cleanOnClose == cleanOnClose
    {
      this.queue := queue;
      this.capacity := capacity;
      this.factory := factory;
      this.cleanOnClose := cleanOnClose;
    }

    /** `poll`: removes and returns the head, or returns nothing when the queue is empty. */
    method PollHead() returns (head: Option<T>)
      modifies this
      ensures head == Poll(old(queue))
      ensures queue == if old(queue) == [] then [] else old(queue)[1..]
    {
      if queue == [] {
        head := None;
      } else {
        head := Some(queue[0]);
        queue := queue[1..];
      }
    }

    /** `offer`: appends at the tail when there is room, otherwise leaves the queue as it is. */
    method Offer(o: T) returns (accepted: bool)
      modifies this
      ensures accepted == HasRoom(old(queue), capacity)
      ensures queue == if accepted then old(queue) + [o] else old(queue)
    {
      accepted := HasRoom(queue, capacity);
      if accepted {
        queue := queue + [o];
      }
    }

    /**
     * Takes the oldest held instance, or asks the factory for a new one when
     * none is held.
     */
    method Lease() returns (x: T)
      requires Valid()
      modifies this, factory
      ensures Valid()
      ensures x == Leased(old(State()), factory.make)
      ensures State() == AfterLease(old(State()))
      ensures old(queue) != [] ==>
        x == old(queue)[0] && queue == old(queue)[1..] && factory.calls == old(factory.calls)
      ensures old(queue) == [] ==>
        x == factory.make(old(factory.calls)) && queue == [] && factory.calls == old(factory.calls) + 1
    {
      var instance := PollHead();
      match instance
      case Some(v) =>
        x := v;
      case None =>
        x := factory.Get();
    }

    /**
     * Offers `o` back to the pool and ignores whether the offer succeeded: a
     * bounded pool that is full drops `o` without blocking.
     */
    method Release(o: T)
      requires Valid()
      modifies this
      ensures Valid()
      ensures State() == AfterRelease(old(State()), o)
      ensures HasRoom(old(queue), capacity) ==> queue == old(queue) + [o]
      ensures !HasRoom(old(queue), capacity) ==> queue == old(queue)
    {
      var _ := Offer(o);
    }

    /** The number of held instances, as a Java `int`. */
    method Size() returns (n: int)
      ensures n == SizeOf(queue)
      ensures 0 <= n <= IntMax
      ensures |queue| <= IntMax ==> n == |queue|
    {
      n := SizeOf(queue);
    }

    /** Clears the held instances when the pool cleans on close; otherwise does nothing. */
    method Close()
      requires Valid()
      modifies this
      ensures Valid()
      ensures State() == AfterClose(old(State()))
      ensures cleanOnClose ==> queue == []
      ensures !cleanOnClose ==> queue == old(queue)
    {
      if cleanOnClose {
        queue := [];
      }
    }
  }
}
