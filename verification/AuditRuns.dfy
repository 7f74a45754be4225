/**
 Any number of producers run the push loop while the broadcaster empties the queue. Every event is
 in exactly one place, the queue never exceeds its capacity, what is left of each producer's events
 keeps its order, and no batch is attempted more than one time more than there are retries.
 */
module AuditRuns {
  import opened Audit

  /** `started` events have been handed to `push`; `holding` says that the last one is not in the queue yet. */
  datatype Producer = Producer(started: nat, holding: bool, refused: bool)

  datatype Sink = OneShot | Retrying(maxRetries: nat)

  datatype Outcome = Outcome(batch: seq<AuditEvent>, sent: bool, attempts: nat)

  datatype Phase = Filling | Posting(retries: nat)

  datatype Broadcaster = Broadcaster(phase: Phase, batch: seq<AuditEvent>, log: seq<Outcome>)

  datatype Config = Config(capacity: nat, batchSize: nat, sink: Sink)

  datatype State = State(producers: seq<Producer>, queue: seq<AuditEvent>, evicted: seq<AuditEvent>, broadcaster: Broadcaster)

  function Initial(n: nat): State {
    State(seq(n, i => Producer(0, false, false)), [], [], Broadcaster(Filling, [], []))
  }

  datatype Event =
    | Begin(p: nat) | TryPush(p: nat) | DropOldest(p: nat)
    | Fill | Seal | Unserializable | Succeed | Fail

  predicate MayAttempt(s: State, p: nat) {
    p < |s.producers| && s.producers[p].holding
  }

  predicate Enabled(c: Config, s: State, e: Event) {
    var b := s.broadcaster;
    match e
    case Begin(p) => p < |s.producers| && !s.producers[p].holding
    case TryPush(p) => MayAttempt(s, p) && !s.producers[p].refused
    case DropOldest(p) => MayAttempt(s, p) && s.producers[p].refused
    case Fill => b.phase.Filling? && |b.batch| < Limit(c.batchSize) && s.queue != []
    case Seal => b.phase.Filling? && b.batch != [] && (s.queue == [] || |b.batch| >= Limit(c.batchSize))
    case Unserializable => b.phase == Posting(0)
    case Succeed => b.phase.Posting?
    case Fail => b.phase.Posting?
  }

  function Held(s: State, p: nat): AuditEvent
    requires MayAttempt(s, p) && s.producers[p].started > 0
  {
    AuditEvent(p, s.producers[p].started - 1)
  }

  function StepProducer(c: Config, s: State, e: Event): seq<Producer> {
    match e
    case Begin(p) => if p >= |s.producers| then s.producers else s.producers[p := Producer(s.producers[p].started + 1, true, false)]
    case TryPush(p) =>
      if p >= |s.producers| then s.producers
      else if |s.queue| < c.capacity then s.producers[p := s.producers[p].(holding := false)]
      else s.producers[p := s.producers[p].(refused := true)]
    case DropOldest(p) => if p >= |s.producers| then s.producers else s.producers[p := s.producers[p].(refused := false)]
    case _ => s.producers
  }

  function StepQueue(c: Config, s: State, e: Event): seq<AuditEvent> {
    match e
    case TryPush(p) =>
      if MayAttempt(s, p) && s.producers[p].started > 0 && |s.queue| < c.capacity then s.queue + [Held(s, p)] else s.queue
    case DropOldest(_) => if s.queue == [] then [] else s.queue[1..]
    case Fill => if s.queue == [] then [] else s.queue[1..]
    case _ => s.queue
  }

  function StepEvicted(s: State, e: Event): seq<AuditEvent> {
    if e.DropOldest? && s.queue != [] then s.evicted + [s.queue[0]] else s.evicted
  }

  /** The end of a batch: it is logged, and the next one is filled. */
  function Close(b: Broadcaster, sent: bool, attempts: nat): Broadcaster {
    Broadcaster(Filling, [], b.log + [Outcome(b.batch, sent, attempts)])
  }

  function StepBroadcaster(c: Config, s: State, e: Event): Broadcaster {
    var b := s.broadcaster;
    match e
    case Fill => if s.queue == [] then b else b.(batch := b.batch + [s.queue[0]])
    case Seal => b.(phase := Posting(0))
    case Unserializable => Close(b, false, 0)
    case Succeed => if b.phase.Posting? then Close(b, true, b.phase.retries + 1) else b
    case Fail =>
      if b.phase.Filling? then b
      else if c.sink.OneShot? || b.phase.retries + 1 > c.sink.maxRetries then Close(b, false, b.phase.retries + 1)
      else b.(phase := Posting(b.phase.retries + 1))
    case _ => b
  }

  function Step(c: Config, s: State, e: Event): State {
    State(StepProducer(c, s, e), StepQueue(c, s, e), StepEvicted(s, e), StepBroadcaster(c, s, e))
  }

  // ---------------------------------------------------------------- the invariant

  function Flushed(log: seq<Outcome>): seq<AuditEvent> {
    if log == [] then [] else Flushed(log[..|log| - 1]) + log[|log| - 1].batch
  }

  /** Everything that went through the queue and was not evicted, oldest first. */
  function Stream(s: State): seq<AuditEvent> {
    Flushed(s.broadcaster.log) + s.broadcaster.batch + s.queue
  }

  function Accepted(p: Producer): int {
    if p.holding then p.started - 1 else p.started
  }

  predicate Produced(s: State, e: AuditEvent) {
    e.producer < |s.producers| && e.number < Accepted(s.producers[e.producer])
  }

  /** Conservation: an event that has left its producer is in exactly one place, once. */
  ghost predicate PlacesInv(s: State) {
    forall e: AuditEvent :: (multiset(Stream(s)) + multiset(s.evicted))[e] == if Produced(s, e) then 1 else 0
  }

  /** Surviving events of one producer are in the order in which it pushed them. */
  predicate OrderInv(stream: seq<AuditEvent>) {
    forall i, j :: 0 <= i < j < |stream| && stream[i].producer == stream[j].producer ==> stream[i].number < stream[j].number
  }

  predicate ProducersInv(s: State) {
    forall p :: 0 <= p < |s.producers| ==> s.producers[p].holding ==> s.producers[p].started > 0
  }

  function MostAttempts(sink: Sink): nat {
    match sink case OneShot => 1 case Retrying(max) => max + 1
  }

  /** A batch is given up unattempted because it cannot be serialized, or after the last attempt. */
  predicate OutcomeFits(c: Config, o: Outcome) {
    && 1 <= |o.batch| <= Limit(c.batchSize)
    && o.attempts <= MostAttempts(c.sink)
    && (if o.sent then o.attempts > 0 else o.attempts == 0 || o.attempts == MostAttempts(c.sink))
  }

  predicate BoundsInv(c: Config, s: State) {
    var b := s.broadcaster;
    && |s.queue| <= c.capacity
    && |b.batch| <= Limit(c.batchSize)
    && (b.phase.Posting? ==> b.batch != [] && b.phase.retries < MostAttempts(c.sink))
    && forall i :: 0 <= i < |b.log| ==> OutcomeFits(c, b.log[i])
  }

  ghost predicate Inv(c: Config, s: State) {
    ProducersInv(s) && BoundsInv(c, s) && PlacesInv(s) && OrderInv(Stream(s)) && OrderInv(s.evicted + s.queue)
  }

  lemma InitialInv(c: Config, n: nat)
    ensures Inv(c, Initial(n))
  {
  }

  lemma StepKeepsBounds(c: Config, s: State, e: Event)
    requires ProducersInv(s) && BoundsInv(c, s) && Enabled(c, s, e)
    ensures ProducersInv(Step(c, s, e)) && BoundsInv(c, Step(c, s, e))
  {
  }

  lemma FlushedSnoc(log: seq<Outcome>, o: Outcome)
    ensures Flushed(log + [o]) == Flushed(log) + o.batch
  {
    assert (log + [o])[..|log|] == log;
  }

  lemma ClosingKeepsStream(b: Broadcaster, sent: bool, attempts: nat, queue: seq<AuditEvent>)
    ensures Flushed(Close(b, sent, attempts).log) + [] + queue == Flushed(b.log) + b.batch + queue
  {
    FlushedSnoc(b.log, Outcome(b.batch, sent, attempts));
  }

  lemma FillingKeepsStream(before: seq<AuditEvent>, batch: seq<AuditEvent>, queue: seq<AuditEvent>)
    requires queue != []
    ensures before + (batch + [queue[0]]) + queue[1..] == before + batch + queue
  {
    assert queue == [queue[0]] + queue[1..];
  }

  /** Filling, sealing and posting only move the boundary inside the stream. */
  lemma BroadcasterKeepsStream(c: Config, s: State, e: Event)
    requires Enabled(c, s, e) && (e.Fill? || e.Seal? || e.Unserializable? || e.Succeed? || e.Fail?)
    ensures Stream(Step(c, s, e)) == Stream(s)
  {
    var b := s.broadcaster;
    match e
    case Fill => FillingKeepsStream(Flushed(b.log), b.batch, s.queue);
    case Seal =>
    case Unserializable => ClosingKeepsStream(b, false, 0, s.queue);
    case Succeed => ClosingKeepsStream(b, true, b.phase.retries + 1, s.queue);
    case Fail => ClosingKeepsStream(b, false, b.phase.retries + 1, s.queue);
  }

  lemma InStream(s: State, i: nat)
    requires PlacesInv(s) && i < |Stream(s)|
    ensures Produced(s, Stream(s)[i])
  {
    assert Stream(s)[i] in multiset(Stream(s));
    assert (multiset(Stream(s)) + multiset(s.evicted))[Stream(s)[i]] > 0;
  }

  /** A push that succeeds appends the producer's next event. */
  lemma PushKeepsInv(c: Config, s: State, p: nat)
    requires Inv(c, s) && Enabled(c, s, TryPush(p)) && |s.queue| < c.capacity
    ensures PlacesInv(Step(c, s, TryPush(p))) && OrderInv(Stream(Step(c, s, TryPush(p))))
  {
    var s' := Step(c, s, TryPush(p));
    var e := Held(s, p);
    assert Stream(s') == Stream(s) + [e];
    assert multiset(Stream(s')) == multiset(Stream(s)) + multiset{e};
    forall x: AuditEvent
      ensures (multiset(Stream(s')) + multiset(s'.evicted))[x] == if Produced(s', x) then 1 else 0
    {
      assert (multiset(Stream(s)) + multiset(s.evicted))[x] == if Produced(s, x) then 1 else 0;
    }
    forall i | 0 <= i < |Stream(s)| && Stream(s)[i].producer == p ensures Stream(s)[i].number < e.number {
      InStream(s, i);
    }
  }

  lemma MovedOne(a: seq<AuditEvent>, x: AuditEvent, b: seq<AuditEvent>, evicted: seq<AuditEvent>)
    ensures multiset(a + [x] + b) + multiset(evicted) == multiset(a + b) + multiset(evicted + [x])
  {
    assert multiset(a + [x] + b) == multiset(a) + multiset{x} + multiset(b);
    assert multiset(evicted + [x]) == multiset(evicted) + multiset{x};
  }

  /** An eviction takes an event out of the middle of the stream, where the queue begins. */
  lemma EvictionKeepsInv(c: Config, s: State, p: nat)
    requires Inv(c, s) && Enabled(c, s, DropOldest(p)) && s.queue != []
    ensures PlacesInv(Step(c, s, DropOldest(p))) && OrderInv(Stream(Step(c, s, DropOldest(p))))
  {
    var s' := Step(c, s, DropOldest(p));
    var before := Flushed(s.broadcaster.log) + s.broadcaster.batch;
    assert s.queue == [s.queue[0]] + s.queue[1..];
    assert Stream(s) == before + [s.queue[0]] + s.queue[1..];
    assert Stream(s') == before + s.queue[1..];
    MovedOne(before, s.queue[0], s.queue[1..], s.evicted);
    OrderWithout(before, s.queue[0], s.queue[1..]);
    forall x: AuditEvent
      ensures (multiset(Stream(s')) + multiset(s'.evicted))[x] == if Produced(s', x) then 1 else 0
    {
      assert Produced(s', x) <==> Produced(s, x);
    }
  }

  lemma OrderWithout(a: seq<AuditEvent>, x: AuditEvent, b: seq<AuditEvent>)
    requires OrderInv(a + [x] + b)
    ensures OrderInv(a + b)
  {
    var all, rest := a + [x] + b, a + b;
    forall i, j | 0 <= i < j < |rest| && rest[i].producer == rest[j].producer ensures rest[i].number < rest[j].number {
      assert rest[i] == all[if i < |a| then i else i + 1] && rest[j] == all[if j < |a| then j else j + 1];
    }
  }

  /** The other steps change neither the stream nor who has been accepted. */
  lemma QuietStep(c: Config, s: State, e: Event)
    requires Inv(c, s) && Enabled(c, s, e)
    requires Stream(Step(c, s, e)) == Stream(s) && Step(c, s, e).evicted == s.evicted
    requires forall x :: Produced(Step(c, s, e), x) <==> Produced(s, x)
    ensures PlacesInv(Step(c, s, e)) && OrderInv(Stream(Step(c, s, e)))
  {
    forall x: AuditEvent
      ensures (multiset(Stream(Step(c, s, e))) + multiset(Step(c, s, e).evicted))[x] == if Produced(Step(c, s, e), x) then 1 else 0
    {
      assert (multiset(Stream(s)) + multiset(s.evicted))[x] == if Produced(s, x) then 1 else 0;
    }
  }

  lemma WasProduced(s: State, i: nat)
    requires PlacesInv(s) && i < |s.evicted + s.queue|
    ensures Produced(s, (s.evicted + s.queue)[i])
  {
    var x := (s.evicted + s.queue)[i];
    assert x in multiset(s.evicted) || x in multiset(s.queue);
    assert multiset(Stream(s)) == multiset(Flushed(s.broadcaster.log) + s.broadcaster.batch) + multiset(s.queue);
    assert (multiset(Stream(s)) + multiset(s.evicted))[x] > 0;
  }

  /** What is evicted is older than what is queued, producer by producer. */
  lemma StepKeepsEvicted(c: Config, s: State, e: Event)
    requires Inv(c, s) && Enabled(c, s, e)
    ensures OrderInv(Step(c, s, e).evicted + Step(c, s, e).queue)
  {
    var s' := Step(c, s, e);
    var before := s.evicted + s.queue;
    if e.TryPush? && |s.queue| < c.capacity {
      assert s'.evicted + s'.queue == before + [Held(s, e.p)];
      forall i | 0 <= i < |before| && before[i].producer == e.p ensures before[i].number < Held(s, e.p).number {
        WasProduced(s, i);
      }
    } else if e.DropOldest? && s.queue != [] {
      assert s'.evicted + s'.queue == before;
    } else if e.Fill? {
      assert before == s.evicted + [s.queue[0]] + s.queue[1..];
      OrderWithout(s.evicted, s.queue[0], s.queue[1..]);
    }
  }

  lemma StepKeepsStream(c: Config, s: State, e: Event)
    requires Inv(c, s) && Enabled(c, s, e)
    ensures PlacesInv(Step(c, s, e)) && OrderInv(Stream(Step(c, s, e)))
  {
    if e.TryPush? && |s.queue| < c.capacity {
      PushKeepsInv(c, s, e.p);
    } else if e.DropOldest? && s.queue != [] {
      EvictionKeepsInv(c, s, e.p);
    } else {
      if !(e.Begin? || e.TryPush? || e.DropOldest?) {
        BroadcasterKeepsStream(c, s, e);
      }
      QuietStep(c, s, e);
    }
  }

  lemma StepKeepsInv(c: Config, s: State, e: Event)
    requires Inv(c, s) && Enabled(c, s, e)
    ensures Inv(c, Step(c, s, e))
  {
    StepKeepsBounds(c, s, e);
    StepKeepsEvicted(c, s, e);
    StepKeepsStream(c, s, e);
  }

  // ---------------------------------------------------------------- runs

  predicate Run(c: Config, s: State, events: seq<Event>)
    decreases |events|
  {
    events == [] || (Enabled(c, s, events[0]) && Run(c, Step(c, s, events[0]), events[1..]))
  }

  function After(c: Config, s: State, events: seq<Event>): State
    decreases |events|
  {
    if events == [] then s else After(c, Step(c, s, events[0]), events[1..])
  }

  lemma {:induction false} RunKeepsInv(c: Config, s: State, events: seq<Event>)
    requires Inv(c, s) && Run(c, s, events)
    ensures Inv(c, After(c, s, events))
    decreases |events|
  {
    if events != [] {
      StepKeepsInv(c, s, events[0]);
      RunKeepsInv(c, Step(c, s, events[0]), events[1..]);
    }
  }

  /**
   Conservation, for any number of producers and every interleaving with the broadcaster: an event
   that has left its producer is either evicted, or queued, or in the current batch, or in exactly
   one logged batch, and never twice.
   */
  lemma EveryEventIsSomewhereOnce(c: Config, n: nat, events: seq<Event>, e: AuditEvent)
    requires Run(c, Initial(n), events)
    ensures var s := After(c, Initial(n), events);
            multiset(Flushed(s.broadcaster.log))[e] + multiset(s.broadcaster.batch)[e] + multiset(s.queue)[e] + multiset(s.evicted)[e]
            == if Produced(s, e) then 1 else 0
  {
    InitialInv(c, n);
    RunKeepsInv(c, Initial(n), events);
    var s := After(c, Initial(n), events);
    assert multiset(Stream(s)) == multiset(Flushed(s.broadcaster.log)) + multiset(s.broadcaster.batch) + multiset(s.queue);
    assert (multiset(Stream(s)) + multiset(s.evicted))[e] == if Produced(s, e) then 1 else 0;
  }

  /** The queue is bounded; each producer's events are sent in its order, and its oldest ones are evicted. */
  lemma BoundedAndOrdered(c: Config, n: nat, events: seq<Event>)
    requires Run(c, Initial(n), events)
    ensures var s := After(c, Initial(n), events);
            && |s.queue| <= c.capacity
            && OrderInv(Flushed(s.broadcaster.log) + s.broadcaster.batch + s.queue)
            && OrderInv(s.evicted + s.queue)
            && |s.producers| == n
  {
    InitialInv(c, n);
    RunKeepsInv(c, Initial(n), events);
    ProducersStay(c, Initial(n), events);
  }

  lemma {:induction false} ProducersStay(c: Config, s: State, events: seq<Event>)
    ensures |After(c, s, events).producers| == |s.producers|
    decreases |events|
  {
    if events != [] {
      ProducersStay(c, Step(c, s, events[0]), events[1..]);
    }
  }

  /** Every logged batch has a bounded size and was attempted at most one time more than the retries. */
  lemma AttemptsAreBounded(c: Config, n: nat, events: seq<Event>, i: nat)
    requires Run(c, Initial(n), events) && i < |After(c, Initial(n), events).broadcaster.log|
    ensures var o := After(c, Initial(n), events).broadcaster.log[i];
            && 1 <= |o.batch| <= Limit(c.batchSize)
            && o.attempts <= MostAttempts(c.sink)
            && (!o.sent && o.attempts > 0 ==> o.attempts == MostAttempts(c.sink))
  {
    InitialInv(c, n);
    RunKeepsInv(c, Initial(n), events);
    assert OutcomeFits(c, After(c, Initial(n), events).broadcaster.log[i]);
  }

  // ---------------------------------------------------------------- what the log says

  function Tally(events: seq<Event>, counts: Event -> bool): nat
    decreases |events|
  {
    if events == [] then 0 else (if counts(events[0]) then 1 else 0) + Tally(events[1..], counts)
  }

  function Logged(log: seq<Outcome>, counts: Outcome -> bool): nat {
    if log == [] then 0 else Logged(log[..|log| - 1], counts) + (if counts(log[|log| - 1]) then 1 else 0)
  }

  function AttemptsIn(log: seq<Outcome>): nat {
    if log == [] then 0 else AttemptsIn(log[..|log| - 1]) + log[|log| - 1].attempts
  }

  function FailedSoFar(b: Broadcaster): nat {
    if b.phase.Posting? then b.phase.retries else 0
  }

  lemma LoggedSnoc(log: seq<Outcome>, o: Outcome, counts: Outcome -> bool)
    ensures Logged(log + [o], counts) == Logged(log, counts) + (if counts(o) then 1 else 0)
    ensures AttemptsIn(log + [o]) == AttemptsIn(log) + o.attempts
  {
    assert (log + [o])[..|log|] == log;
  }

  predicate Sent(o: Outcome) {
    o.sent
  }

  predicate Unattempted(o: Outcome) {
    o.attempts == 0
  }

  predicate AcceptedPost(e: Event) {
    e.Succeed?
  }

  predicate Post(e: Event) {
    e.Succeed? || e.Fail?
  }

  predicate SerializationFailure(e: Event) {
    e.Unserializable?
  }

  lemma StepIsLogged(c: Config, s: State, e: Event)
    requires Enabled(c, s, e)
    ensures var before, after := s.broadcaster, Step(c, s, e).broadcaster;
            && Logged(after.log, Sent) == Logged(before.log, Sent) + (if e.Succeed? then 1 else 0)
            && Logged(after.log, Unattempted) == Logged(before.log, Unattempted) + (if e.Unserializable? then 1 else 0)
            && AttemptsIn(after.log) + FailedSoFar(after) ==
                 AttemptsIn(before.log) + FailedSoFar(before) + (if e.Succeed? || e.Fail? then 1 else 0)
  {
    var before, after := s.broadcaster, Step(c, s, e).broadcaster;
    if after.log != before.log {
      var o := after.log[|before.log|];
      LoggedSnoc(before.log, o, Sent);
      LoggedSnoc(before.log, o, Unattempted);
    }
  }

  lemma {:induction false} RunIsLogged(c: Config, s: State, events: seq<Event>)
    requires Run(c, s, events)
    ensures var before, after := s.broadcaster, After(c, s, events).broadcaster;
            && Logged(after.log, Sent) == Logged(before.log, Sent) + Tally(events, AcceptedPost)
            && Logged(after.log, Unattempted) == Logged(before.log, Unattempted) + Tally(events, SerializationFailure)
            && AttemptsIn(after.log) + FailedSoFar(after) ==
                 AttemptsIn(before.log) + FailedSoFar(before) + Tally(events, Post)
    decreases |events|
  {
    if events != [] {
      StepIsLogged(c, s, events[0]);
      RunIsLogged(c, Step(c, s, events[0]), events[1..]);
    }
  }

  /**
   The log tells what happened: as many batches are logged as sent as there were accepted posts, as
   many as unattempted as could not be serialized, and every post is an attempt of one batch.
   */
  lemma LogTellsWhatHappened(c: Config, n: nat, events: seq<Event>)
    requires Run(c, Initial(n), events)
    ensures var b := After(c, Initial(n), events).broadcaster;
            && Logged(b.log, Sent) == Tally(events, AcceptedPost)
            && Logged(b.log, Unattempted) == Tally(events, SerializationFailure)
            && AttemptsIn(b.log) + FailedSoFar(b) == Tally(events, Post)
  {
    RunIsLogged(c, Initial(n), events);
  }

  // ---------------------------------------------------------------- the loops are runs

  lemma FirstStep(c: Config, s: State, e: Event, rest: seq<Event>)
    ensures Run(c, s, [e] + rest) <==> Enabled(c, s, e) && Run(c, Step(c, s, e), rest)
    ensures After(c, s, [e] + rest) == After(c, Step(c, s, e), rest)
  {
    assert ([e] + rest)[1..] == rest;
  }

  /** An attempt with room for the event. */
  lemma PushFits(c: Config, s: State, p: nat)
    requires ProducersInv(s) && MayAttempt(s, p) && !s.producers[p].refused && |s.queue| < c.capacity
    ensures Run(c, s, [TryPush(p)])
    ensures After(c, s, [TryPush(p)]) ==
            s.(producers := s.producers[p := s.producers[p].(holding := false)], queue := s.queue + [Held(s, p)])
  {
    assert [TryPush(p)] + [] == [TryPush(p)];
    FirstStep(c, s, TryPush(p), []);
  }

  /** An attempt that is refused, the removal of the oldest event, and another attempt. */
  lemma PushEvicts(c: Config, s: State, p: nat)
    requires ProducersInv(s) && MayAttempt(s, p) && !s.producers[p].refused && |s.queue| == c.capacity > 0
    ensures Run(c, s, [TryPush(p), DropOldest(p), TryPush(p)])
    ensures After(c, s, [TryPush(p), DropOldest(p), TryPush(p)]) ==
            s.(producers := s.producers[p := s.producers[p].(holding := false)],
               queue := s.queue[1..] + [Held(s, p)], evicted := s.evicted + [s.queue[0]])
  {
    var s1 := s.(producers := s.producers[p := s.producers[p].(refused := true)]);
    var s2 := s.(queue := s.queue[1..], evicted := s.evicted + [s.queue[0]]);
    assert Step(c, s, TryPush(p)) == s1;
    assert Step(c, s1, DropOldest(p)) == s2 by {
      assert s1.producers[p := s1.producers[p].(refused := false)] == s.producers;
    }
    PushFits(c, s2, p);
    assert [TryPush(p), DropOldest(p), TryPush(p)] == [TryPush(p)] + ([DropOldest(p)] + [TryPush(p)]);
    FirstStep(c, s1, DropOldest(p), [TryPush(p)]);
    FirstStep(c, s, TryPush(p), [DropOldest(p)] + [TryPush(p)]);
  }

  /** An undisturbed push is a run, and leaves the queue that the push loop leaves. */
  lemma PushIsRun(c: Config, s: State, p: nat) returns (events: seq<Event>)
    requires Inv(c, s) && c.capacity > 0 && p < |s.producers| && !s.producers[p].holding
    ensures Run(c, s, events)
    ensures var e, n := AuditEvent(p, s.producers[p].started), s.producers[p].started + 1;
            var queue := Newest(s.queue + [e], c.capacity);
            After(c, s, events) ==
              State(s.producers[p := Producer(n, false, false)], queue,
                    s.evicted + (s.queue + [e])[..|s.queue| + 1 - |queue|], s.broadcaster)
  {
    var s1 := s.(producers := s.producers[p := Producer(s.producers[p].started + 1, true, false)]);
    assert Step(c, s, Begin(p)) == s1;
    if |s.queue| < c.capacity {
      events := [Begin(p)] + [TryPush(p)];
      PushFits(c, s1, p);
      FirstStep(c, s, Begin(p), [TryPush(p)]);
      assert s.evicted + [] == s.evicted;
    } else {
      events := [Begin(p)] + [TryPush(p), DropOldest(p), TryPush(p)];
      PushEvicts(c, s1, p);
      FirstStep(c, s, Begin(p), [TryPush(p), DropOldest(p), TryPush(p)]);
      assert (s.queue + [Held(s1, p)])[..1] == [s.queue[0]];
    }
  }

  /** The number of events that a batch takes from a queue of n. */
  function Taken(c: Config, n: nat): nat {
    if n <= Limit(c.batchSize) then n else Limit(c.batchSize)
  }

  /** Filling an empty batch and sealing it is a run, and takes what the filling loop takes. */
  lemma {:induction false} FillIsRun(c: Config, s: State) returns (events: seq<Event>)
    requires s.broadcaster.phase.Filling? && |s.broadcaster.batch| <= Limit(c.batchSize)
    requires s.broadcaster.batch + s.queue != []
    ensures Run(c, s, events)
    ensures var b, t := s.broadcaster, After(c, s, events);
            && t.broadcaster.batch + t.queue == b.batch + s.queue
            && |t.broadcaster.batch| == Taken(c, |b.batch + s.queue|)
            && t.broadcaster.phase == Posting(0) && t.broadcaster.log == b.log
            && t.producers == s.producers && t.evicted == s.evicted
    decreases |s.queue|
  {
    if s.queue == [] || |s.broadcaster.batch| == Limit(c.batchSize) {
      events := [Seal];
      assert events[1..] == [];
    } else {
      var s1 := Step(c, s, Fill);
      var rest := FillIsRun(c, s1);
      events := [Fill] + rest;
      assert events[1..] == rest;
    }
  }

  /** And left alone, filling cannot seal a batch that is neither full nor all there is. */
  lemma {:induction false} FillingTakesAll(c: Config, s: State, events: seq<Event>)
    requires s.broadcaster.phase.Filling? && |s.broadcaster.batch| <= Limit(c.batchSize)
    requires Run(c, s, events) && (forall e :: e in events ==> e == Fill || e == Seal)
    requires After(c, s, events).broadcaster.phase.Posting?
    ensures var b, t := s.broadcaster, After(c, s, events);
            && t.broadcaster.batch + t.queue == b.batch + s.queue
            && |t.broadcaster.batch| == Taken(c, |b.batch + s.queue|)
    decreases |events|
  {
    assert events[0] in events;
    assert forall e :: e in events[1..] ==> e in events;
    if events[0] == Fill {
      FillingTakesAll(c, Step(c, s, Fill), events[1..]);
    } else {
      SealedIsNotFilled(c, Step(c, s, Seal), events[1..]);
    }
  }

  lemma FirstIsIn(events: seq<Event>)
    ensures events != [] ==> events[0] in events
  {
  }

  lemma SealedIsNotFilled(c: Config, s: State, events: seq<Event>)
    requires s.broadcaster.phase.Posting? && Run(c, s, events) && forall e :: e in events ==> e == Fill || e == Seal
    ensures events == []
  {
    FirstIsIn(events);
  }

  /** Posting with given answers is a run, and ends after the attempts of the retry loop. */
  lemma {:induction false} PostIsRun(c: Config, s: State, answers: nat -> bool, attempts: nat, k: nat) returns (events: seq<Event>)
    requires c.sink.Retrying? && LastAttempt(answers, c.sink.maxRetries, attempts)
    requires k < attempts && s.broadcaster.phase == Posting(k)
    ensures Run(c, s, events)
    ensures After(c, s, events) == s.(broadcaster := Close(s.broadcaster, answers(attempts - 1), attempts))
    decreases attempts - k
  {
    if k == attempts - 1 {
      events := if answers(k) then [Succeed] else [Fail];
      assert events[1..] == [];
    } else {
      var s1 := Step(c, s, Fail);
      assert s1 == s.(broadcaster := s.broadcaster.(phase := Posting(k + 1)));
      var rest := PostIsRun(c, s1, answers, attempts, k + 1);
      events := [Fail] + rest;
      assert events[1..] == rest;
    }
  }
}
