/** Many publishers and one retry worker over the bounded queue of RingBuffer.

    Every locked region of the publisher is one step. The wrapped publish function runs between
    steps, so a publisher may still be publishing, and the worker may still be holding a message it
    took out, while any other step happens. */
module RetryProtocol {
  import opened RingBuffer

  /** A message whose first publish failed; `serial` is its place in the order in which the failures
      took the lock. */
  datatype Msg<T> = Msg(serial: nat, payload: T)

  /** The retry goroutine: between ticks, inside a tick, publishing what it took out, or returned. */
  datatype Worker<T> = Waiting | Draining | Holding(item: Msg<T>) | Gone

  /** `failed`, `delivered` and `dropped` are the histories of failed first publishes, of successful
      retries and of messages lost to a full buffer. */
  datatype State<T> = State(
    capacity: nat, queue: seq<Msg<T>>, drops: nat, stopped: bool, worker: Worker<T>,
    publishing: multiset<T>, failed: seq<T>, delivered: seq<Msg<T>>, dropped: seq<Msg<T>>)

  datatype Step<T> =
    | Begin(payload: T)      // Publish has read `stopped`
    | Succeed(payload: T)    // its publish call answered nil
    | Fail(payload: T)       // its publish call failed: enqueue
    | Wake                   // the ticker fired
    | Take                   // the worker dequeues the head, or ends the tick on an empty buffer
    | RetryOk                // the held message was published
    | RetryFail              // the held message failed again: requeue and end the tick
    | Stop                   // Stop sets the flag and closes the channel
    | Exit                   // the worker sees the closed channel

  function Init<T>(capacity: nat): State<T> {
    State(capacity, [], 0, false, Waiting, multiset{}, [], [], [])
  }

  /** What a full queue gives up when a message is enqueued. */
  function Overflow<T>(capacity: nat, queue: seq<Msg<T>>): seq<Msg<T>>
    requires 0 < capacity
  {
    if |queue| == capacity then [queue[0]] else []
  }

  /** A step that is not enabled leaves the state alone. */
  function Next<T>(s: State<T>, step: Step<T>): State<T>
    requires 0 < s.capacity
  {
    match step
    case Begin(payload) =>
      if s.stopped then s else s.(publishing := s.publishing + multiset{payload})
    case Succeed(payload) =>
      s.(publishing := s.publishing - multiset{payload})
    case Fail(payload) =>
      if payload !in s.publishing then s else
      s.(publishing := s.publishing - multiset{payload},
         queue := Enqueued(s.capacity, s.queue, Msg(|s.failed|, payload)),
         drops := s.drops + Lost(s.capacity, s.queue),
         dropped := s.dropped + Overflow(s.capacity, s.queue),
         failed := s.failed + [payload])
    case Wake =>
      if s.worker == Waiting then s.(worker := Draining) else s
    case Take =>
      if s.worker != Draining then s
      else if s.queue == [] then s.(worker := Waiting)
      else s.(worker := Holding(s.queue[0]), queue := s.queue[1..])
    case RetryOk =>
      if !s.worker.Holding? then s
      else s.(worker := Draining, delivered := s.delivered + [s.worker.item])
    case RetryFail =>
      if !s.worker.Holding? then s
      else s.(worker := Waiting,
              queue := Requeued(s.capacity, s.queue, s.worker.item),
              drops := s.drops + Lost(s.capacity, s.queue),
              dropped := s.dropped + if |s.queue| == s.capacity then [s.worker.item] else [])
    case Stop =>
      s.(stopped := true)
    case Exit =>
      if s.stopped && s.worker == Waiting then s.(worker := Gone) else s
  }

  function Run<T>(s: State<T>, steps: seq<Step<T>>): (r: State<T>)
    requires 0 < s.capacity
    ensures r.capacity == s.capacity
    decreases |steps|
  {
    if steps == [] then s else Run(Next(s, steps[0]), steps[1..])
  }

  function One(b: bool): nat { if b then 1 else 0 }

  /** In how many places a message is: delivered, dropped, in flight or buffered. */
  function Places<T>(s: State<T>, m: Msg<T>): nat {
    One(m in s.delivered) + One(m in s.dropped) + One(s.worker == Holding(m)) + One(m in s.queue)
  }

  /** Serial number of the oldest buffered message. */
  function Base<T>(s: State<T>): int { |s.failed| - |s.queue| }

  /** The buffer is the newest stretch of the failure history. */
  ghost predicate BufferIsSuffix<T>(s: State<T>) {
    && |s.queue| <= s.capacity
    && 0 <= Base(s)
    && forall i :: 0 <= i < |s.queue| ==> s.queue[i] == Msg(Base(s) + i, s.failed[Base(s) + i])
  }

  /** A held message is just older than the buffer, unless newer ones have filled it. */
  ghost predicate HeldIsNext<T>(s: State<T>) {
    s.worker.Holding? ==>
      && s.worker.item.serial < Base(s)
      && s.worker.item.payload == s.failed[s.worker.item.serial]
      && (s.worker.item.serial + 1 == Base(s) || |s.queue| == s.capacity)
  }

  /** Retries deliver each message at most once and in the order of their first failure. */
  ghost predicate DeliveredInOrder<T>(s: State<T>) {
    && (forall i, j :: 0 <= i < j < |s.delivered| ==> s.delivered[i].serial < s.delivered[j].serial)
    && (forall m :: m in s.delivered ==>
          m.serial < if s.worker.Holding? then s.worker.item.serial else Base(s))
  }

  /** Whatever was dropped has at least `capacity` newer failures behind it. */
  ghost predicate DroppedOnlyOldest<T>(s: State<T>) {
    && s.drops == |s.dropped|
    && forall m :: m in s.dropped ==> m.serial + s.capacity < |s.failed|
  }

  /** Every failed message is in exactly one place and every message anywhere is one that failed;
      none is delivered or dropped twice. */
  ghost predicate NothingLost<T>(s: State<T>) {
    && (forall k :: 0 <= k < |s.failed| ==> Places(s, Msg(k, s.failed[k])) == 1)
    && (forall m :: m in s.delivered + s.dropped ==>
          m.serial < |s.failed| && m.payload == s.failed[m.serial])
    && (forall i, j :: 0 <= i < j < |s.dropped| ==> s.dropped[i] != s.dropped[j])
    && |s.failed| == |s.delivered| + s.drops + One(s.worker.Holding?) + |s.queue|
  }

  ghost predicate Inv<T>(s: State<T>) {
    && 0 < s.capacity
    && BufferIsSuffix(s)
    && HeldIsNext(s)
    && DeliveredInOrder(s)
    && DroppedOnlyOldest(s)
    && NothingLost(s)
  }

  lemma FailKeepsSuffix<T>(s: State<T>, payload: T)
    requires 0 < s.capacity && BufferIsSuffix(s) && payload in s.publishing
    ensures BufferIsSuffix(Next(s, Fail(payload)))
  {
  }

  lemma FailKeepsOrder<T>(s: State<T>, payload: T)
    requires Inv(s) && payload in s.publishing
    ensures var t := Next(s, Fail(payload));
            HeldIsNext(t) && DeliveredInOrder(t) && DroppedOnlyOldest(t)
  {
  }

  /** Where a message that had failed before is after a further failure. */
  lemma FailMovesOldest<T>(s: State<T>, payload: T, m: Msg<T>)
    requires Inv(s) && payload in s.publishing && m.serial < |s.failed|
    ensures Places(Next(s, Fail(payload)), m) == Places(s, m)
  {
    var t := Next(s, Fail(payload));
    if |s.queue| == s.capacity {
      var oldest := s.queue[0];
      assert oldest == Msg(Base(s), s.failed[Base(s)]);
      assert s.queue == [oldest] + s.queue[1..];
      assert Places(s, oldest) == 1;
    }
  }

  lemma FailLosesNothing<T>(s: State<T>, payload: T)
    requires Inv(s) && payload in s.publishing
    ensures NothingLost(Next(s, Fail(payload)))
  {
    var t := Next(s, Fail(payload));
    forall k | 0 <= k < |t.failed| ensures Places(t, Msg(k, t.failed[k])) == 1 {
      if k < |s.failed| {
        assert Places(s, Msg(k, s.failed[k])) == 1;
        FailMovesOldest(s, payload, Msg(k, s.failed[k]));
      }
    }
    if |s.queue| == s.capacity {
      assert s.queue[0] == Msg(Base(s), s.failed[Base(s)]);
      assert Places(s, s.queue[0]) == 1;
    }
  }

  lemma TakeKeepsOrder<T>(s: State<T>)
    requires Inv(s) && s.worker == Draining && s.queue != []
    ensures var t := Next(s, Take);
            BufferIsSuffix(t) && HeldIsNext(t) && DeliveredInOrder(t) && DroppedOnlyOldest(t)
  {
  }

  lemma TakeLosesNothing<T>(s: State<T>)
    requires BufferIsSuffix(s) && NothingLost(s) && 0 < s.capacity && s.worker == Draining && s.queue != []
    ensures NothingLost(Next(s, Take))
  {
  }

  lemma RequeueKeepsSuffix<T>(s: State<T>)
    requires 0 < s.capacity && BufferIsSuffix(s) && HeldIsNext(s) && s.worker.Holding?
    ensures BufferIsSuffix(Next(s, RetryFail))
  {
  }

  lemma RequeueKeepsOrder<T>(s: State<T>)
    requires Inv(s) && s.worker.Holding?
    ensures var t := Next(s, RetryFail);
            HeldIsNext(t) && DeliveredInOrder(t) && DroppedOnlyOldest(t)
  {
  }

  lemma DeliverKeepsOrder<T>(s: State<T>)
    requires Inv(s) && s.worker.Holding?
    ensures var t := Next(s, RetryOk);
            BufferIsSuffix(t) && HeldIsNext(t) && DeliveredInOrder(t) && DroppedOnlyOldest(t)
  {
  }

  /** A step that moves no message keeps the invariant. */
  lemma QuietStep<T>(s: State<T>, t: State<T>)
    requires Inv(s)
    requires s.worker == t.worker || (!s.worker.Holding? && !t.worker.Holding?)
    requires t == s.(worker := t.worker, publishing := t.publishing, stopped := t.stopped)
    ensures Inv(t)
  {
    forall k | 0 <= k < |t.failed| ensures Places(t, Msg(k, t.failed[k])) == 1 {
      assert Places(s, Msg(k, s.failed[k])) == 1;
    }
  }

  lemma RetryLosesNothing<T>(s: State<T>, step: Step<T>)
    requires Inv(s) && s.worker.Holding? && (step == RetryOk || step == RetryFail)
    ensures NothingLost(Next(s, step))
  {
    var t := Next(s, step);
    assert Places(s, s.worker.item) == 1;
    forall k | 0 <= k < |t.failed| ensures Places(t, Msg(k, t.failed[k])) == 1 {
      assert Places(s, Msg(k, s.failed[k])) == 1;
    }
  }

  lemma StepKeepsInv<T>(s: State<T>, step: Step<T>)
    requires Inv(s)
    ensures Inv(Next(s, step))
  {
    var t := Next(s, step);
    if step.Fail? && step.payload in s.publishing {
      FailKeepsSuffix(s, step.payload);
      FailKeepsOrder(s, step.payload);
      FailLosesNothing(s, step.payload);
    } else if step.Take? && s.worker == Draining && s.queue != [] {
      TakeKeepsOrder(s);
      TakeLosesNothing(s);
    } else if step.RetryOk? && s.worker.Holding? {
      DeliverKeepsOrder(s);
      RetryLosesNothing(s, step);
    } else if step.RetryFail? && s.worker.Holding? {
      RequeueKeepsSuffix(s);
      RequeueKeepsOrder(s);
      RetryLosesNothing(s, step);
    } else {
      QuietStep(s, t);
    }
  }

  lemma {:induction false} RunKeepsInv<T>(s: State<T>, steps: seq<Step<T>>)
    requires Inv(s)
    ensures Inv(Run(s, steps))
    decreases |steps|
  {
    if steps != [] {
      StepKeepsInv(s, steps[0]);
      RunKeepsInv(Next(s, steps[0]), steps[1..]);
    }
  }

  /** In every interleaving: the buffer is the newest stretch of the failure history, a held message
      is directly before it or the buffer is full, a dropped message has `capacity` newer failures,
      and retries deliver in failure order. */
  lemma {:induction false} EveryInterleaving<T>(capacity: nat, steps: seq<Step<T>>)
    requires 0 < capacity
    ensures var s := Run(Init(capacity), steps);
            && BufferIsSuffix(s) && HeldIsNext(s) && DroppedOnlyOldest(s) && DeliveredInOrder(s)
  {
    RunKeepsInv(Init<T>(capacity), steps);
  }

  /** In every interleaving, after Stop too, every failed message is in exactly one place, so the number
      of failures is that of retried deliveries, drops, the message in flight and buffered messages. */
  lemma {:induction false} Conservation<T>(capacity: nat, steps: seq<Step<T>>)
    requires 0 < capacity
    ensures NothingLost(Run(Init(capacity), steps))
  {
    RunKeepsInv(Init<T>(capacity), steps);
  }

  /** Once Stop has been called and the worker has returned, no run retries anything any more, and no
      publish that starts afterwards is accepted. */
  lemma {:induction false} NoRetryAfterStop<T>(s: State<T>, steps: seq<Step<T>>)
    requires 0 < s.capacity && s.stopped && s.worker == Gone
    ensures var t := Run(s, steps);
            t.worker == Gone && t.delivered == s.delivered && t.publishing <= s.publishing
    decreases |steps|
  {
    if steps != [] {
      NoRetryAfterStop(Next(s, steps[0]), steps[1..]);
    }
  }

  // ---------- retries make progress ----------

  lemma FirstStep<T>(s: State<T>, step: Step<T>, rest: seq<Step<T>>)
    requires 0 < s.capacity
    ensures Run(s, [step] + rest) == Run(Next(s, step), rest)
  {
    assert ([step] + rest)[1..] == rest;
  }

  lemma TwoSteps<T>(s: State<T>, a: Step<T>, b: Step<T>)
    requires 0 < s.capacity
    ensures Run(s, [a, b]) == Next(Next(s, a), b)
  {
    FirstStep(s, a, [b]);
    FirstStep(Next(s, a), b, []);
    assert [a, b] == [a] + [b] && [b] == [b] + [];
  }

  lemma {:induction false} RunAppend<T>(s: State<T>, a: seq<Step<T>>, b: seq<Step<T>>)
    requires 0 < s.capacity
    ensures Run(s, a + b) == Run(Run(s, a), b)
    decreases |a|
  {
    if a == [] {
      assert a + b == b;
    } else {
      assert (a + b)[1..] == a[1..] + b;
      RunAppend(Next(s, a[0]), a[1..], b);
    }
  }

  /** The worker takes k messages, and each is published. */
  function Deliveries<T>(k: nat): seq<Step<T>> {
    if k == 0 then [] else [Take, RetryOk] + Deliveries(k - 1)
  }

  /** The state after the first k buffered messages were delivered. */
  function Advanced<T>(s: State<T>, k: nat, worker: Worker<T>): State<T>
    requires k <= |s.queue|
  {
    s.(queue := s.queue[k..], delivered := s.delivered + s.queue[..k], worker := worker)
  }

  lemma OneDelivery<T>(s: State<T>)
    requires 0 < s.capacity && s.worker == Draining && s.queue != []
    ensures Run(s, [Take, RetryOk]) == Advanced(s, 1, Draining)
  {
    TwoSteps(s, Take, RetryOk);
  }

  lemma AdvancedTwice<T>(s: State<T>, k: nat)
    requires 0 < k <= |s.queue| && s.worker == Draining
    ensures Advanced(Advanced(s, 1, Draining), k - 1, Draining) == Advanced(s, k, Draining)
  {
    assert s.queue[..1] + s.queue[1..][..k - 1] == s.queue[..k];
    assert s.delivered + s.queue[..1] + s.queue[1..][..k - 1] == s.delivered + s.queue[..k];
  }

  lemma {:induction false} DeliveriesDrain<T>(s: State<T>, k: nat)
    requires 0 < s.capacity && s.worker == Draining && k <= |s.queue|
    ensures Run(s, Deliveries(k)) == Advanced(s, k, Draining)
    decreases k
  {
    if k != 0 {
      OneDelivery(s);
      RunAppend(s, [Take, RetryOk], Deliveries(k - 1));
      DeliveriesDrain(Advanced(s, 1, Draining), k - 1);
      AdvancedTwice(s, k);
    }
  }

  /** How a tick ends: with nothing to take, or with a failed retry. */
  function Last<T>(empty: bool): seq<Step<T>> {
    if empty then [Take] else [Take, RetryFail]
  }

  lemma TickEnds<T>(s: State<T>)
    requires 0 < s.capacity && s.worker == Draining && |s.queue| <= s.capacity
    ensures Run(s, Last(s.queue == [])) == s.(worker := Waiting)
  {
    if s.queue == [] {
      FirstStep(s, Take, []);
      assert [Take] + [] == Last<T>(true);
    } else {
      TwoSteps(s, Take, RetryFail);
    }
  }

  /** The rest of a tick in which k more publishes succeed and the next, if there is one, fails. */
  function RestOfTick<T>(k: nat, size: nat): seq<Step<T>> { Deliveries(k) + Last(k == size) }

  lemma RestDelivers<T>(s: State<T>, k: nat)
    requires 0 < s.capacity && s.worker == Draining && k <= |s.queue| <= s.capacity
    ensures Run(s, RestOfTick(k, |s.queue|)) == Advanced(s, k, Waiting)
  {
    RunAppend(s, Deliveries(k), Last(k == |s.queue|));
    DeliveriesDrain(s, k);
    TickEnds(Advanced(s, k, Draining));
  }

  /** An undisturbed tick in which k publishes succeed and the next fails delivers, in order, exactly the first k
      messages, leaves the rest as they were, and drops nothing. */
  lemma TickDelivers<T>(s: State<T>, k: nat)
    requires Inv(s) && s.worker == Waiting && k <= |s.queue|
    ensures Run(s, [Wake] + RestOfTick(k, |s.queue|))
         == s.(queue := s.queue[k..], delivered := s.delivered + s.queue[..k])
  {
    FirstStep(s, Wake, RestOfTick(k, |s.queue|));
    RestDelivers(s.(worker := Draining), k);
  }

  /** What the worker holds, then what is buffered. */
  function Pending<T>(s: State<T>): seq<Msg<T>> {
    (if s.worker.Holding? then [s.worker.item] else []) + s.queue
  }

  /** The worker wakes up, or publishes what it holds, and goes on to the end of the buffer. */
  function Drain<T>(s: State<T>): seq<Step<T>> {
    var rest := RestOfTick(|s.queue|, |s.queue|);
    match s.worker
    case Waiting => [Wake] + rest
    case Holding(_) => [RetryOk] + rest
    case _ => rest
  }

  /** From every state, stopped or not, whose worker has not returned, every failed message that was not dropped can
      still be delivered, in order and without a further drop. */
  lemma EverythingCanBeDelivered<T>(s: State<T>)
    requires Inv(s) && s.worker != Gone
    ensures Run(s, Drain(s)) == s.(queue := [], worker := Waiting, delivered := s.delivered + Pending(s))
  {
    PendingIsDelivered(s);
  }

  lemma RestDeliversAll<T>(s: State<T>)
    requires 0 < s.capacity && s.worker == Draining && |s.queue| <= s.capacity
    ensures Run(s, RestOfTick(|s.queue|, |s.queue|))
         == s.(queue := [], worker := Waiting, delivered := s.delivered + s.queue)
  {
    RestDelivers(s, |s.queue|);
    assert s.queue[..|s.queue|] == s.queue && s.queue[|s.queue|..] == [];
  }

  lemma WakeAndDeliver<T>(s: State<T>)
    requires 0 < s.capacity && |s.queue| <= s.capacity && s.worker == Waiting
    ensures Run(s, Drain(s)) == s.(queue := [], worker := Waiting, delivered := s.delivered + s.queue)
  {
    FirstStep(s, Wake, RestOfTick(|s.queue|, |s.queue|));
    RestDeliversAll(Next(s, Wake));
  }

  lemma PublishAndDeliver<T>(s: State<T>)
    requires 0 < s.capacity && |s.queue| <= s.capacity && s.worker.Holding?
    ensures Run(s, Drain(s))
         == s.(queue := [], worker := Waiting, delivered := s.delivered + [s.worker.item] + s.queue)
  {
    FirstStep(s, RetryOk, RestOfTick(|s.queue|, |s.queue|));
    RestDeliversAll(Next(s, RetryOk));
  }

  lemma PendingIsDelivered<T>(s: State<T>)
    requires 0 < s.capacity && |s.queue| <= s.capacity && s.worker != Gone
    ensures Run(s, Drain(s)) == s.(queue := [], worker := Waiting, delivered := s.delivered + Pending(s))
  {
    match s.worker {
      case Waiting =>
        WakeAndDeliver(s);
        assert Pending(s) == s.queue;
      case Holding(item) =>
        PublishAndDeliver(s);
        assert s.delivered + [item] + s.queue == s.delivered + Pending(s);
      case Draining =>
        RestDeliversAll(s);
        assert Pending(s) == s.queue;
      case Gone =>
    }
  }

  /** A publish that starts before Stop and fails is retried behind the messages that failed before it; with a full
      buffer exactly the oldest of those is lost. One that succeeds leaves no trace. */
  lemma FailedPublishIsRetried<T>(s: State<T>, payload: T)
    requires Inv(s) && !s.stopped && s.worker == Waiting
    ensures Run(s, [Begin(payload), Succeed(payload)]) == s
    ensures var t := Run(s, [Begin(payload), Fail(payload)]);
            var kept := if |s.queue| == s.capacity then s.queue[1..] else s.queue;
            && t.publishing == s.publishing
            && t.drops == s.drops + (if |s.queue| == s.capacity then 1 else 0)
            && Run(t, Drain(t)).delivered == s.delivered + (kept + [Msg(|s.failed|, payload)])
  {
    FailedPublishIsBuffered(s, payload);
    PendingIsDelivered(Run(s, [Begin(payload), Fail(payload)]));
  }

  lemma FailedPublishIsBuffered<T>(s: State<T>, payload: T)
    requires 0 < s.capacity && |s.queue| <= s.capacity && !s.stopped && s.worker == Waiting
    ensures Run(s, [Begin(payload), Succeed(payload)]) == s
    ensures var t := Run(s, [Begin(payload), Fail(payload)]);
            var kept := if |s.queue| == s.capacity then s.queue[1..] else s.queue;
            && t.publishing == s.publishing && t.worker == Waiting && t.delivered == s.delivered
            && t.capacity == s.capacity && Pending(t) == t.queue == kept + [Msg(|s.failed|, payload)]
            && t.drops == s.drops + (if |s.queue| == s.capacity then 1 else 0)
  {
    var begun := Next(s, Begin(payload));
    TwoSteps(s, Begin(payload), Succeed(payload));
    TwoSteps(s, Begin(payload), Fail(payload));
    assert begun.publishing - multiset{payload} == s.publishing;
  }

  /** The first publish that fails is retried and delivered as the first message. */
  lemma FirstFailureIsDelivered<T>(capacity: nat, payload: T)
    requires 0 < capacity
    ensures var t := Run(Init(capacity), [Begin(payload), Fail(payload)]);
            Run(t, Drain(t)).delivered == [Msg(0, payload)]
  {
    RunKeepsInv(Init<T>(capacity), []);
    FailedPublishIsRetried(Init(capacity), payload);
  }

  /** Stop lets a waiting worker return at once, and only Stop does; no publish is accepted from then on. */
  lemma StopEndsTheWorker<T>(s: State<T>, payload: T)
    requires Inv(s) && s.worker == Waiting
    ensures Run(s, [Stop, Exit]) == s.(stopped := true, worker := Gone)
    ensures !s.stopped ==> Next(s, Exit) == s
    ensures Run(s, [Stop, Begin(payload)]) == s.(stopped := true)
  {
    TwoSteps(s, Stop, Exit);
    TwoSteps(s, Stop, Begin(payload));
  }
}
