/** The bounded retry buffer of a listener: a circular array whose four locked regions are proved
    against a plain bounded queue. */
module RingBuffer {

  /** The queue after a failed publish: a full queue loses its oldest element. */
  function Enqueued<T>(capacity: nat, queue: seq<T>, x: T): seq<T>
    requires 0 < capacity
  {
    if |queue| == capacity then queue[1..] + [x] else queue + [x]
  }

  /** The queue after a failed retry gives its element back: a full queue loses that element. */
  function Requeued<T>(capacity: nat, queue: seq<T>, x: T): seq<T>
  {
    if |queue| == capacity then queue else [x] + queue
  }

  /** One if an insertion into `queue` costs a message, else zero. */
  function Lost<T>(capacity: nat, queue: seq<T>): nat
  {
    if |queue| == capacity then 1 else 0
  }

  /** Reduction modulo n of anything below 2n. */
  function Wrapped(x: int, n: nat): int {
    if x < n then x else x - n
  }

  lemma Wrap(x: nat, n: nat)
    requires x < 2 * n
    ensures x % n == Wrapped(x, n)
  {
  }

  /** The first `size` elements of `a` read circularly from `head`. */
  function Window<T>(a: seq<T>, head: nat, size: nat): seq<T>
    requires head < |a| && size <= |a|
  {
    (a[head..] + a[..head])[..size]
  }

  /** Writing behind the window and lengthening it appends. */
  lemma WindowAppend<T>(a: seq<T>, head: nat, size: nat, x: T)
    requires head < |a| && size < |a|
    ensures Window(a[Wrapped(head + size, |a|) := x], head, size + 1) == Window(a, head, size) + [x]
  {
  }

  /** Advancing the head and shortening the window drops its first element. */
  lemma WindowTail<T>(a: seq<T>, head: nat, size: nat)
    requires head < |a| && 0 < size <= |a|
    ensures Window(a, head, size)[0] == a[head]
    ensures Window(a, Wrapped(head + 1, |a|), size - 1) == Window(a, head, size)[1..]
  {
  }

  /** Moving the head back, writing there and lengthening the window prepends. */
  lemma WindowPrepend<T>(a: seq<T>, head: nat, size: nat, x: T)
    requires head < |a| && size < |a|
    ensures var before := Wrapped(head - 1 + |a|, |a|);
            Window(a[before := x], before, size + 1) == [x] + Window(a, head, size)
  {
  }

  /** Dropping the oldest of a full buffer leaves the tail where it is. */
  lemma TailStays(head: nat, n: nat)
    requires head < n
    ensures (head + 1) % n == Wrapped(head + 1, n)
    ensures (head + n) % n == (Wrapped(head + 1, n) + (n - 1)) % n
  {
    Wrap(head + 1, n);
    Wrap(head + n, n);
    Wrap(Wrapped(head + 1, n) + (n - 1), n);
  }

  lemma TailAdvances(head: nat, size: nat, n: nat)
    requires head < n && size < n
    ensures (head + size) % n == Wrapped(head + size, n)
    ensures ((head + size) % n + 1) % n == (head + size + 1) % n
  {
    Wrap(head + size, n);
    Wrap(Wrapped(head + size, n) + 1, n);
    Wrap(head + size + 1, n);
  }

  datatype Outcome = Accepted | Canceled

  class RingBufferPublisher<T(0)> {
    const capacity: nat
    var buf: array<T>
    var head: nat
    var tail: nat
    var size: nat
    var dropsCount: nat
    var stopped: bool

    /** The buffered messages, oldest first. */
    ghost var contents: seq<T>

    ghost predicate Valid()
      reads this, buf
    {
      && 0 < capacity == buf.Length
      && head < capacity
      && size <= capacity
      && tail == (head + size) % capacity
      && contents == Window(buf[..], head, size)
    }

    constructor (capacity: nat)
      requires 0 < capacity
      ensures Valid() && fresh(buf) && this.capacity == capacity
      ensures contents == [] && dropsCount == 0 && !stopped
    {
      this.capacity := capacity;
      buf := new T[capacity];
      head, tail, size, dropsCount, stopped := 0, 0, 0, 0, false;
      contents := [];
      new;
      Wrap(0, capacity);
    }

    method Enqueue(payload: T)
      requires Valid()
      modifies this`head, this`tail, this`size, this`dropsCount, this`contents, buf
      ensures Valid() && buf == old(buf)
      ensures contents == Enqueued(capacity, old(contents), payload)
      ensures dropsCount == old(dropsCount) + Lost(capacity, old(contents))
    {
      if size == capacity {
        DropOldest();
      }
      Append(payload);
    }

    /** The overflow branch of an enqueue. */
    method DropOldest()
      requires Valid() && size == capacity
      modifies this`head, this`size, this`dropsCount, this`contents
      ensures Valid() && size == capacity - 1
      ensures contents == old(contents)[1..] && dropsCount == old(dropsCount) + 1
    {
      TailStays(head, capacity);
      WindowTail(buf[..], head, size);
      head := (head + 1) % capacity;
      size := size - 1;
      dropsCount := dropsCount + 1;
      contents := contents[1..];
    }

    /** The write at the tail, when there is room. */
    method Append(payload: T)
      requires Valid() && size < capacity
      modifies this`tail, this`size, this`contents, buf
      ensures Valid() && buf == old(buf)
      ensures contents == old(contents) + [payload]
    {
      ghost var before := buf[..];
      TailAdvances(head, size, capacity);
      WindowAppend(before, head, size, payload);
      buf[tail] := payload;
      assert buf[..] == before[tail := payload];
      tail := (tail + 1) % capacity;
      size := size + 1;
      contents := contents + [payload];
    }

    method DequeueHead() returns (item: T, ok: bool)
      requires Valid()
      modifies this`head, this`size, this`contents
      ensures Valid()
      ensures ok <==> old(contents) != []
      ensures ok ==> item == old(contents)[0] && contents == old(contents)[1..]
      ensures !ok ==> contents == []
    {
      item := *;
      if size == 0 {
        return item, false;
      }
      item := buf[head];
      WindowTail(buf[..], head, size);
      Wrap(head + size, capacity);
      Wrap(head + 1, capacity);
      head := (head + 1) % capacity;
      size := size - 1;
      Wrap(head + size, capacity);
      contents := contents[1..];
      ok := true;
    }

    method Requeue(item: T)
      requires Valid()
      modifies this`head, this`size, this`dropsCount, this`contents, buf
      ensures Valid() && buf == old(buf)
      ensures contents == Requeued(capacity, old(contents), item)
      ensures dropsCount == old(dropsCount) + Lost(capacity, old(contents))
    {
      if size == capacity {
        dropsCount := dropsCount + 1;
        return;
      }
      WindowPrepend(buf[..], head, size, item);
      Wrap(head + size, capacity);
      Wrap(head - 1 + capacity, capacity);
      head := (head - 1 + capacity) % capacity;
      buf[head] := item;
      size := size + 1;
      Wrap(head + size, capacity);
      contents := [item] + contents;
    }

    /** One publish with no interference; `succeeds` is what the wrapped publish function answers. */
    method Publish(payload: T, succeeds: bool) returns (outcome: Outcome)
      requires Valid()
      modifies this`head, this`tail, this`size, this`dropsCount, this`contents, buf
      ensures Valid() && buf == old(buf)
      ensures outcome == if stopped then Canceled else Accepted
      ensures contents == if stopped || succeeds then old(contents)
                          else Enqueued(capacity, old(contents), payload)
      ensures dropsCount == old(dropsCount)
                            + if stopped || succeeds then 0 else Lost(capacity, old(contents))
    {
      if stopped {
        return Canceled;
      }
      if !succeeds {
        Enqueue(payload);
      }
      return Accepted;
    }

    method Stop()
      requires Valid()
      modifies this`stopped
      ensures Valid() && stopped
    {
      stopped := true;
    }

    /** One retry tick with no interference; `succeeds(k)` is the answer to its k-th publish call.
        The tick delivers the longest prefix of the queue whose publishes all succeed. */
    method DrainOneTick(succeeds: nat -> bool) returns (delivered: seq<T>)
      requires Valid()
      modifies this`head, this`size, this`dropsCount, this`contents, buf
      ensures Valid() && buf == old(buf)
      ensures |delivered| <= |old(contents)|
      ensures delivered == old(contents)[..|delivered|] && contents == old(contents)[|delivered|..]
      ensures forall k: nat :: k < |delivered| ==> succeeds(k)
      ensures contents == [] || !succeeds(|delivered|)
      ensures dropsCount == old(dropsCount)
    {
      ghost var all := contents;
      delivered := [];
      while true
        invariant Valid() && buf == old(buf)
        invariant |delivered| <= |all| <= capacity
        invariant delivered == all[..|delivered|] && contents == all[|delivered|..]
        invariant forall k: nat :: k < |delivered| ==> succeeds(k)
        invariant dropsCount == old(dropsCount)
        decreases |all| - |delivered|
      {
        var item, ok := DequeueHead();
        if !ok {
          return;
        }
        if !succeeds(|delivered|) {
          Requeue(item);
          return;
        }
        delivered := delivered + [item];
      }
    }
  }
}
