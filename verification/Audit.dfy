/**
 The audit trail: a bounded queue that drops its oldest event when it is full, and the broadcaster
 that takes events in batches and posts every batch with a bounded number of retries.
 */
module Audit {
  import opened Sequences

  /** Events are told apart by their producer and number; their content plays no role. */
  datatype AuditEvent = AuditEvent(producer: nat, number: nat)

  function Newest(s: seq<AuditEvent>, n: nat): seq<AuditEvent> {
    if |s| <= n then s else s[|s| - n..]
  }

  class AuditRingBuffer {
    var queue: seq<AuditEvent>
    const capacity: nat

    ghost predicate Valid()
      reads this
    {
      capacity > 0 && |queue| <= capacity
    }

    /** The queue refuses to be created without room. */
    constructor (capacity: nat)
      requires capacity > 0
      ensures Valid() && queue == [] && this.capacity == capacity
    {
      queue := [];
      this.capacity := capacity;
    }

    /** One attempt: an event that does not fit comes back. */
    method TryPush(e: AuditEvent) returns (refused: Option<AuditEvent>)
      requires Valid()
      modifies this`queue
      ensures Valid()
      ensures refused == if old(|queue|) < capacity then None else Some(e)
      ensures queue == if old(|queue|) < capacity then old(queue) + [e] else old(queue)
    {
      if |queue| == capacity {
        return Some(e);
      }
      queue := queue + [e];
      return None;
    }

    method Pop() returns (e: Option<AuditEvent>)
      requires Valid()
      modifies this`queue
      ensures Valid()
      ensures old(queue) == [] ==> e == None && queue == []
      ensures old(queue) != [] ==> e == Some(old(queue[0])) && queue == old(queue[1..])
    {
      if queue == [] {
        return None;
      }
      e := Some(queue[0]);
      queue := queue[1..];
    }

    /** Attempts until the event fits, dropping the oldest one before every new attempt. */
    method Push(event: AuditEvent)
      requires Valid()
      modifies this`queue
      ensures Valid()
      ensures queue == Newest(old(queue) + [event], capacity)
    {
      var refused := TryPush(event);
      while refused.Some?
        invariant Valid()
        invariant refused.None? ==> queue == Newest(old(queue) + [event], capacity)
        invariant refused.Some? ==> refused.value == event && queue == old(queue) && |queue| == capacity
        decreases if refused.Some? then 1 else 0
      {
        var oldest := Pop();
        refused := TryPush(refused.value);
      }
    }
  }

  function PushAll(queue: seq<AuditEvent>, es: seq<AuditEvent>, capacity: nat): seq<AuditEvent>
    decreases |es|
  {
    if es == [] then queue else PushAll(Newest(queue + [es[0]], capacity), es[1..], capacity)
  }

  lemma NewestTwice(a: seq<AuditEvent>, b: seq<AuditEvent>, n: nat)
    ensures Newest(Newest(a, n) + b, n) == Newest(a + b, n)
  {
  }

  lemma FirstThenRest(queue: seq<AuditEvent>, es: seq<AuditEvent>)
    requires es != []
    ensures queue + [es[0]] + es[1..] == queue + es
  {
  }

  /** Without a reader, the queue holds the newest events. */
  lemma {:induction false} QueueHoldsNewest(queue: seq<AuditEvent>, es: seq<AuditEvent>, capacity: nat)
    requires |queue| <= capacity
    ensures PushAll(queue, es, capacity) == Newest(queue + es, capacity)
    decreases |es|
  {
    if es == [] {
      assert queue + es == queue;
    } else {
      QueueHoldsNewest(Newest(queue + [es[0]], capacity), es[1..], capacity);
      NewestTwice(queue + [es[0]], es[1..], capacity);
      FirstThenRest(queue, es);
    }
  }

  // ---------------------------------------------------------------- the broadcaster

  /** A batch has at least one event, even with a batch size of zero. */
  function Limit(batchSize: nat): nat {
    if batchSize == 0 then 1 else batchSize
  }

  /** Takes events until the batch is full or the queue is empty. */
  method FillBatch(buffer: AuditRingBuffer, batchSize: nat) returns (batch: seq<AuditEvent>)
    requires buffer.Valid()
    modifies buffer`queue
    ensures buffer.Valid()
    ensures batch + buffer.queue == old(buffer.queue)
    ensures |batch| == if old(|buffer.queue|) <= Limit(batchSize) then old(|buffer.queue|) else Limit(batchSize)
  {
    batch := [];
    var event := buffer.Pop();
    while event.Some?
      invariant buffer.Valid()
      invariant batch + (if event.Some? then [event.value] else []) + buffer.queue == old(buffer.queue)
      invariant event.None? ==> buffer.queue == []
      invariant |batch| < Limit(batchSize) || (event.None? && |batch| == Limit(batchSize))
      decreases |buffer.queue| + (if event.Some? then 1 else 0)
    {
      batch := batch + [event.value];
      if |batch| >= batchSize {
        return;
      }
      event := buffer.Pop();
    }
  }

  function PowerOfTwo(n: nat): nat {
    if n == 0 then 1 else 2 * PowerOfTwo(n - 1)
  }

  /** The answer that ends the retries: the first success, or the one after the last retry. */
  predicate LastAttempt(answers: nat -> bool, maxRetries: nat, attempts: nat) {
    && 0 < attempts <= maxRetries + 1
    && (forall i :: 0 <= i < attempts - 1 ==> !answers(i))
    && (answers(attempts - 1) || attempts == maxRetries + 1)
  }

  /**
   The retry loop. It stops at the first success and never attempts more than one time more than
   there are retries; the pauses in between double.
   */
  method Post(answers: nat -> bool, maxRetries: nat) returns (sent: bool, attempts: nat, waited: nat)
    ensures LastAttempt(answers, maxRetries, attempts) && sent == answers(attempts - 1)
    ensures sent <==> exists i :: 0 <= i <= maxRetries && answers(i)
    ensures waited == 100 * (PowerOfTwo(attempts - 1) - 1)
  {
    var retries, backoff := 0, 100;
    waited := 0;
    while true
      invariant retries <= maxRetries && forall i :: 0 <= i < retries ==> !answers(i)
      invariant backoff == 100 * PowerOfTwo(retries) && waited == backoff - 100
      decreases maxRetries - retries
    {
      if answers(retries) {
        return true, retries + 1, waited;
      }
      retries := retries + 1;
      if retries > maxRetries {
        return false, retries, waited;
      }
      waited := waited + backoff;
      backoff := backoff * 2;
    }
  }
}
