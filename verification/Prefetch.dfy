/**
 The prefetch pipeline of a scan: a forwarder keeps up to two file openings in flight and hands
 their results, in order, to a bounded channel; the main task takes one file after the other and
 sends its batches to a second bounded channel; the consumer takes them, and may go away.
 */
module Prefetch {
  import opened Sequences
  import opened RowFilters
  import opened ReadPath

  datatype Failure = OpenFailed(message: string) | FileFailed(error: ScanError)

  /** What the consumer gets: a batch or an error. */
  type Item = Result<Batch, Failure>

  /** A target file: what processing its batches one after the other would give, if it opens. */
  datatype Target = Opens(results: seq<Item>) | CannotOpen(error: Failure)

  // ---------------------------------------------------------------- the sequential scan

  function UpToError(results: seq<Item>): seq<Item> {
    if results == [] then [] else if results[0].Err? then [results[0]] else [results[0]] + UpToError(results[1..])
  }

  /**
   The specification: for each target in order, its batches up to and including its first error,
   stopping after the first target that cannot be opened.
   */
  function Sequential(targets: seq<Target>): seq<Item> {
    if targets == [] then []
    else
      match targets[0]
      case CannotOpen(error) => [Err(error)]
      case Opens(results) => UpToError(results) + Sequential(targets[1..])
  }

  // ---------------------------------------------------------------- states

  const IN_FLIGHT: nat := 2
  const READY: nat := 2
  const BUFFERED: nat := 10

  datatype Fetch = Fetch(target: Target, done: bool)

  /** The task that pulls the ordered buffer of openings and feeds the channel of opened files. */
  datatype Forwarder = Forwarder(running: bool, pending: seq<Target>, inFlight: seq<Fetch>, hand: Option<Target>)

  datatype Worker = Waiting | Working(rest: seq<Item>) | Refusing(error: Failure) | Finished

  datatype Consumer = Consumer(present: bool, queue: seq<Item>, delivered: seq<Item>)

  datatype State = State(forwarder: Forwarder, ready: seq<Target>, worker: Worker, consumer: Consumer)

  function Initial(targets: seq<Target>): State {
    State(Forwarder(true, targets, [], None), [], Waiting, Consumer(true, [], []))
  }

  datatype Event =
    | Start | Complete(n: nat) | Yield | Forward | StopForwarding
    | Receive | Emit | EndFile | Finish
    | Take | HangUp

  predicate StreamEnded(f: Forwarder) {
    f.pending == [] && f.inFlight == [] && f.hand.None?
  }

  predicate Enabled(s: State, e: Event) {
    var f := s.forwarder;
    match e
    case Start => f.running && f.hand.None? && |f.inFlight| < IN_FLIGHT && f.pending != []
    case Complete(n) => f.running && f.hand.None? && n < |f.inFlight| && !f.inFlight[n].done
    case Yield => f.running && f.hand.None? && f.inFlight != [] && f.inFlight[0].done
    case Forward => f.running && f.hand.Some? && !s.worker.Finished? && |s.ready| < READY
    case StopForwarding => f.running && (StreamEnded(f) || (f.hand.Some? && s.worker.Finished?))
    case Receive => s.worker.Waiting? && s.ready != []
    case Emit =>
      && ((s.worker.Working? && s.worker.rest != []) || s.worker.Refusing?)
      && (s.consumer.present ==> |s.consumer.queue| < BUFFERED)
    case EndFile => s.worker.Working? && s.worker.rest == []
    case Finish => s.worker.Waiting? && s.ready == [] && !f.running
    case Take => s.consumer.present && s.consumer.queue != []
    case HangUp => s.consumer.present
  }

  function StepForwarder(f: Forwarder, e: Event): Forwarder {
    match e
    case Start => if f.pending == [] then f else f.(pending := f.pending[1..], inFlight := f.inFlight + [Fetch(f.pending[0], false)])
    case Complete(n) => if n >= |f.inFlight| then f else f.(inFlight := f.inFlight[n := f.inFlight[n].(done := true)])
    case Yield => if f.inFlight == [] then f else f.(inFlight := f.inFlight[1..], hand := Some(f.inFlight[0].target))
    case Forward => f.(hand := None)
    case StopForwarding => Forwarder(false, [], [], None)
    case _ => f
  }

  /** The channel of opened files is gone when the main task is. */
  function StepReady(s: State, e: Event): seq<Target> {
    match e
    case Forward => if s.forwarder.hand.Some? then s.ready + [s.forwarder.hand.value] else s.ready
    case Receive => if s.ready == [] then s.ready else s.ready[1..]
    case Emit => if s.worker.Refusing? then [] else s.ready
    case _ => s.ready
  }

  /** A consumer that is gone makes the send fail, which ends the file but not the scan. */
  function StepWorker(s: State, e: Event): Worker {
    match e
    case Receive =>
      if s.ready == [] then s.worker
      else (match s.ready[0] case Opens(results) => Working(results) case CannotOpen(error) => Refusing(error))
    case Emit =>
      (match s.worker
       case Working(rest) =>
         if rest == [] then s.worker else if rest[0].Err? || !s.consumer.present then Waiting else Working(rest[1..])
       case Refusing(_) => Finished
       case _ => s.worker)
    case EndFile => Waiting
    case Finish => Finished
    case _ => s.worker
  }

  function Emitted(w: Worker): Option<Item> {
    match w
    case Working(rest) => if rest == [] then None else Some(rest[0])
    case Refusing(error) => Some(Err(error))
    case _ => None
  }

  function StepConsumer(s: State, e: Event): Consumer {
    var c := s.consumer;
    match e
    case Emit => if c.present && Emitted(s.worker).Some? then c.(queue := c.queue + [Emitted(s.worker).value]) else c
    case Take => if c.queue == [] then c else c.(queue := c.queue[1..], delivered := c.delivered + [c.queue[0]])
    case HangUp => c.(present := false, queue := [])
    case _ => c
  }

  function Step(s: State, e: Event): State {
    State(StepForwarder(s.forwarder, e), StepReady(s, e), StepWorker(s, e), StepConsumer(s, e))
  }

  // ---------------------------------------------------------------- the invariant

  function Hand(f: Forwarder): seq<Target> {
    if f.hand.Some? then [f.hand.value] else []
  }

  function Fetching(fs: seq<Fetch>): (r: seq<Target>)
    ensures |r| == |fs|
  {
    seq(|fs|, i requires 0 <= i < |fs| => fs[i].target)
  }

  /** The targets that the main task has not taken yet, in order. */
  function Upcoming(s: State): seq<Target> {
    s.ready + Hand(s.forwarder) + Fetching(s.forwarder.inFlight) + s.forwarder.pending
  }

  /** What the main task will still emit if the consumer stays. */
  function Future(w: Worker, upcoming: seq<Target>): seq<Item> {
    match w
    case Waiting => Sequential(upcoming)
    case Working(rest) => UpToError(rest) + Sequential(upcoming)
    case Refusing(error) => [Err(error)]
    case Finished => []
  }

  predicate BoundsInv(s: State) {
    && |s.forwarder.inFlight| <= IN_FLIGHT
    && |s.ready| <= READY
    && |s.consumer.queue| <= BUFFERED
  }

  /** The forwarder stops early only because the main task has ended. */
  predicate StopInv(s: State) {
    && (!s.forwarder.running ==> StreamEnded(s.forwarder))
    && (s.worker.Finished? ==> s.ready == [])
    && (!s.consumer.present ==> s.consumer.queue == [])
  }

  /** Nothing is lost, nothing is reordered: the refinement relation. */
  predicate OrderInv(s: State, targets: seq<Target>) {
    && s.consumer.delivered <= Sequential(targets)
    && (s.consumer.present ==>
          s.consumer.delivered + s.consumer.queue + Future(s.worker, Upcoming(s)) == Sequential(targets))
  }

  predicate Inv(s: State, targets: seq<Target>) {
    BoundsInv(s) && StopInv(s) && OrderInv(s, targets)
  }

  lemma InitialInv(targets: seq<Target>)
    ensures Inv(Initial(targets), targets)
  {
    assert Upcoming(Initial(targets)) == targets;
  }

  lemma StepKeepsBounds(s: State, e: Event)
    requires BoundsInv(s) && Enabled(s, e)
    ensures BoundsInv(Step(s, e))
  {
  }

  lemma StepKeepsStop(s: State, e: Event)
    requires StopInv(s) && Enabled(s, e)
    ensures StopInv(Step(s, e))
  {
  }

  lemma BoundaryMoves(a: seq<Target>, b: seq<Target>, x: Target, c: seq<Target>, d: seq<Target>)
    ensures a + (b + [x]) + c + d == a + b + ([x] + c) + d
    ensures a + b + (c + [x]) + d == a + b + c + ([x] + d)
    ensures (a + [x]) + b + c + d == a + ([x] + b) + c + d
    ensures ([x] + a) + b + c + d == [x] + (a + b + c + d)
  {
  }

  lemma NoHand(x: Target)
    ensures [] + [x] == [x] == [x] + []
  {
  }

  lemma StartKeepsOrder(s: State)
    requires Enabled(s, Start)
    ensures Upcoming(Step(s, Start)) == Upcoming(s)
  {
    var f, f' := s.forwarder, StepForwarder(s.forwarder, Start);
    assert Fetching(f'.inFlight) == Fetching(f.inFlight) + [f.pending[0]];
    assert f.pending == [f.pending[0]] + f.pending[1..];
    BoundaryMoves(s.ready, [], f.pending[0], Fetching(f.inFlight), f.pending[1..]);
  }

  lemma YieldKeepsOrder(s: State)
    requires Enabled(s, Yield)
    ensures Upcoming(Step(s, Yield)) == Upcoming(s)
  {
    var f, f' := s.forwarder, StepForwarder(s.forwarder, Yield);
    assert Fetching(f.inFlight) == [f.inFlight[0].target] + Fetching(f'.inFlight);
    BoundaryMoves(s.ready, [], f.inFlight[0].target, Fetching(f'.inFlight), f.pending);
    NoHand(f.inFlight[0].target);
  }

  lemma ForwardKeepsOrder(s: State)
    requires Enabled(s, Forward)
    ensures Upcoming(Step(s, Forward)) == Upcoming(s)
  {
    var f := s.forwarder;
    BoundaryMoves(s.ready, [], f.hand.value, Fetching(f.inFlight), f.pending);
    NoHand(f.hand.value);
  }

  /** The forwarder only moves targets along. */
  lemma ForwarderKeepsOrder(s: State, e: Event)
    requires Enabled(s, e) && (e.Start? || e.Complete? || e.Yield? || e.Forward?)
    ensures Upcoming(Step(s, e)) == Upcoming(s)
  {
    match e
    case Start => StartKeepsOrder(s);
    case Complete(n) => assert Fetching(StepForwarder(s.forwarder, e).inFlight) == Fetching(s.forwarder.inFlight);
    case Yield => YieldKeepsOrder(s);
    case Forward => ForwardKeepsOrder(s);
  }

  lemma ReceiveTakesFirst(s: State)
    requires Enabled(s, Receive)
    ensures Upcoming(s) == [s.ready[0]] + Upcoming(Step(s, Receive))
  {
    assert s.ready == [s.ready[0]] + s.ready[1..];
    BoundaryMoves(s.ready[1..], Hand(s.forwarder), s.ready[0], Fetching(s.forwarder.inFlight), s.forwarder.pending);
  }

  lemma FirstOfSequence(t: Target, ts: seq<Target>)
    ensures Sequential([t] + ts) == if t.CannotOpen? then [Err(t.error)] else UpToError(t.results) + Sequential(ts)
  {
    assert ([t] + ts)[1..] == ts;
  }

  lemma ReceiveKeepsOrder(s: State)
    requires Enabled(s, Receive)
    ensures Future(StepWorker(s, Receive), Upcoming(Step(s, Receive))) == Future(s.worker, Upcoming(s))
  {
    ReceiveTakesFirst(s);
    FirstOfSequence(s.ready[0], Upcoming(Step(s, Receive)));
  }

  lemma EmitKeepsOrder(s: State)
    requires Enabled(s, Emit) && s.consumer.present
    ensures StepConsumer(s, Emit).queue == s.consumer.queue + [Emitted(s.worker).value]
    ensures Future(s.worker, Upcoming(s)) == [Emitted(s.worker).value] + Future(StepWorker(s, Emit), Upcoming(Step(s, Emit)))
  {
    if s.worker.Working? {
      var rest := s.worker.rest;
      assert Upcoming(Step(s, Emit)) == Upcoming(s);
      if rest[0].Ok? {
        assert UpToError(rest) + Sequential(Upcoming(s)) == [rest[0]] + (UpToError(rest[1..]) + Sequential(Upcoming(s)));
      }
    }
  }

  /** Receiving, emitting and ending a file keep what is emitted and what is still to come. */
  lemma WorkerKeepsOrder(s: State, e: Event)
    requires Enabled(s, e) && (e.Receive? || e.Emit? || e.EndFile?) && s.consumer.present
    ensures StepConsumer(s, e).queue + Future(StepWorker(s, e), Upcoming(Step(s, e))) ==
            s.consumer.queue + Future(s.worker, Upcoming(s))
  {
    match e
    case Receive => ReceiveKeepsOrder(s);
    case Emit =>
      EmitKeepsOrder(s);
      Associates(s.consumer.queue, [Emitted(s.worker).value], Future(StepWorker(s, Emit), Upcoming(Step(s, Emit))));
    case EndFile =>
      assert Upcoming(Step(s, e)) == Upcoming(s);
      assert UpToError([]) + Sequential(Upcoming(s)) == Sequential(Upcoming(s));
  }

  lemma Associates(a: seq<Item>, b: seq<Item>, c: seq<Item>)
    ensures (a + b) + c == a + (b + c)
  {
  }

  lemma EndKeepsOrder(s: State, e: Event)
    requires StopInv(s) && Enabled(s, e) && (e.StopForwarding? || e.Finish?)
    ensures Future(StepWorker(s, e), Upcoming(Step(s, e))) == Future(s.worker, Upcoming(s))
  {
    if e.StopForwarding? && StreamEnded(s.forwarder) {
      assert Upcoming(Step(s, e)) == Upcoming(s);
    }
    if e.Finish? {
      assert Upcoming(s) == [];
    }
  }

  /** Every step of every party keeps the invariant. */
  lemma StepKeepsInv(s: State, targets: seq<Target>, e: Event)
    requires Inv(s, targets) && Enabled(s, e)
    ensures Inv(Step(s, e), targets)
  {
    StepKeepsBounds(s, e);
    StepKeepsStop(s, e);
    if e.Start? || e.Complete? || e.Yield? || e.Forward? {
      ForwarderKeepsOrder(s, e);
    } else if e.StopForwarding? || e.Finish? {
      EndKeepsOrder(s, e);
    } else if e.Take? {
      var c := s.consumer;
      assert c.queue == [c.queue[0]] + c.queue[1..];
      assert c.delivered + [c.queue[0]] + c.queue[1..] == c.delivered + c.queue;
      assert Upcoming(Step(s, e)) == Upcoming(s);
    } else if !e.HangUp? && s.consumer.present {
      WorkerKeepsOrder(s, e);
      PrefixStays(s.consumer.delivered, s.consumer.queue, Future(s.worker, Upcoming(s)),
                  StepConsumer(s, e).queue, Future(StepWorker(s, e), Upcoming(Step(s, e))));
    }
  }

  lemma PrefixStays(d: seq<Item>, q: seq<Item>, f: seq<Item>, q': seq<Item>, f': seq<Item>)
    requires q + f == q' + f'
    ensures d + q + f == d + q' + f'
  {
    assert d + q + f == d + (q + f) && d + q' + f' == d + (q' + f');
  }

  // ---------------------------------------------------------------- whole runs

  predicate Run(s: State, events: seq<Event>)
    decreases |events|
  {
    events == [] || (Enabled(s, events[0]) && Run(Step(s, events[0]), events[1..]))
  }

  function After(s: State, events: seq<Event>): State
    decreases |events|
  {
    if events == [] then s else After(Step(s, events[0]), events[1..])
  }

  lemma {:induction false} RunKeepsInv(s: State, targets: seq<Target>, events: seq<Event>)
    requires Inv(s, targets) && Run(s, events)
    ensures Inv(After(s, events), targets)
    decreases |events|
  {
    if events != [] {
      StepKeepsInv(s, targets, events[0]);
      RunKeepsInv(Step(s, events[0]), targets, events[1..]);
    }
  }

  /** Both tasks have ended and the consumer has taken everything, or is gone. */
  predicate Done(s: State) {
    s.worker.Finished? && !s.forwarder.running && s.consumer.queue == []
  }

  /**
   The pipeline refines the sequential scan: under every interleaving of openings, tasks and
   consumer, what has been delivered is a prefix of the sequential scan, and all of it when a run is
   over and the consumer stayed.
   */
  lemma PipelineRefinesSequentialScan(targets: seq<Target>, events: seq<Event>)
    requires Run(Initial(targets), events)
    ensures var s := After(Initial(targets), events);
            && s.consumer.delivered <= Sequential(targets)
            && (Done(s) && s.consumer.present ==> s.consumer.delivered == Sequential(targets))
  {
    InitialInv(targets);
    RunKeepsInv(Initial(targets), targets, events);
    var d := After(Initial(targets), events).consumer.delivered;
    assert d + [] + [] == d;
  }

  /** The openings never run further ahead of the main task than five targets. */
  lemma BoundedLookahead(targets: seq<Target>, events: seq<Event>)
    requires Run(Initial(targets), events)
    ensures var s := After(Initial(targets), events);
            |s.ready| + |Hand(s.forwarder)| + |s.forwarder.inFlight| <= 5 && |s.consumer.queue| <= 10
  {
    InitialInv(targets);
    RunKeepsInv(Initial(targets), targets, events);
  }

  /** The steps of the pipeline itself. */
  predicate Own(e: Event) {
    !e.Take? && !e.HangUp?
  }

  lemma ForwarderMoves(s: State) returns (e: Event)
    requires s.forwarder.running && (s.worker.Finished? || |s.ready| < READY)
    ensures Own(e) && Enabled(s, e)
  {
    var f := s.forwarder;
    if f.hand.Some? {
      e := if s.worker.Finished? then StopForwarding else Forward;
    } else if f.inFlight != [] {
      e := if f.inFlight[0].done then Yield else Complete(0);
    } else {
      e := if f.pending != [] then Start else StopForwarding;
    }
  }

  /**
   No deadlock: unless both tasks have ended, the pipeline itself can do a step, or it waits for a
   consumer that is there and has a full queue to take from.
   */
  lemma NeverStuck(s: State, targets: seq<Target>)
    requires Inv(s, targets) && !Done(s)
    ensures (exists e :: e != Take && e != HangUp && Enabled(s, e)) || Enabled(s, Take)
    ensures !(s.worker.Finished? && !s.forwarder.running) && (s.consumer.present ==> |s.consumer.queue| < BUFFERED) ==>
              exists e :: Own(e) && Enabled(s, e)
  {
    var w := s.worker;
    if s.forwarder.running && (w.Finished? || |s.ready| < READY) {
      var e := ForwarderMoves(s);
    } else if w.Waiting? {
      assert Enabled(s, Receive) || Enabled(s, Finish);
      assert Own(Receive) && Own(Finish);
    } else if w.Working? && w.rest == [] {
      assert Own(EndFile) && Enabled(s, EndFile);
    } else if !w.Finished? && (s.consumer.present ==> |s.consumer.queue| < BUFFERED) {
      assert Own(Emit) && Enabled(s, Emit);
    }
  }

  lemma {:induction false} ConsumerStays(s: State, events: seq<Event>)
    requires Run(s, events) && HangUp !in events
    ensures After(s, events).consumer.present == s.consumer.present
    decreases |events|
  {
    if events != [] {
      ConsumerStays(Step(s, events[0]), events[1..]);
    }
  }

  /** If the consumer never goes away, a run in which nothing more can happen has delivered the whole sequential scan. */
  lemma UninterruptedScanDeliversAll(targets: seq<Target>, events: seq<Event>)
    requires Run(Initial(targets), events) && HangUp !in events
    requires forall e :: e != HangUp ==> !Enabled(After(Initial(targets), events), e)
    ensures After(Initial(targets), events).consumer.delivered == Sequential(targets)
  {
    InitialInv(targets);
    RunKeepsInv(Initial(targets), targets, events);
    ConsumerStays(Initial(targets), events);
    var s := After(Initial(targets), events);
    if !Done(s) {
      NeverStuck(s, targets);
    }
    PipelineRefinesSequentialScan(targets, events);
  }

  // ---------------------------------------------------------------- termination

  function Size(t: Target): nat {
    match t case Opens(results) => |results| case CannotOpen(_) => 1
  }

  /** The steps that n more moves of each target and its items can take. */
  function Weight(ts: seq<Target>, n: nat): nat {
    if ts == [] then 0 else n + 2 * Size(ts[0]) + Weight(ts[1..], n)
  }

  function FetchWeight(fs: seq<Fetch>): nat {
    if fs == [] then 0 else (if fs[0].done then 4 else 5) + 2 * Size(fs[0].target) + FetchWeight(fs[1..])
  }

  function ForwarderMeasure(f: Forwarder): nat {
    Weight(f.pending, 6) + FetchWeight(f.inFlight) + (if f.hand.Some? then 3 + 2 * Size(f.hand.value) else 0) +
    (if f.running then 1 else 0)
  }

  function WorkerMeasure(w: Worker): nat {
    match w
    case Waiting => 1
    case Working(rest) => 2 + 2 * |rest|
    case Refusing(_) => 4
    case Finished => 0
  }

  function Measure(s: State): nat {
    ForwarderMeasure(s.forwarder) + Weight(s.ready, 2) + WorkerMeasure(s.worker) +
    |s.consumer.queue| + (if s.consumer.present then 1 else 0)
  }

  lemma {:induction false} WeightSnoc(ts: seq<Target>, t: Target, n: nat)
    ensures Weight(ts + [t], n) == Weight(ts, n) + n + 2 * Size(t)
  {
    if ts == [] {
      assert ts + [t] == [t];
    } else {
      assert (ts + [t])[1..] == ts[1..] + [t];
      WeightSnoc(ts[1..], t, n);
    }
  }

  lemma {:induction false} FetchSnoc(fs: seq<Fetch>, t: Target)
    ensures FetchWeight(fs + [Fetch(t, false)]) == FetchWeight(fs) + 5 + 2 * Size(t)
  {
    if fs == [] {
      assert fs + [Fetch(t, false)] == [Fetch(t, false)];
    } else {
      assert (fs + [Fetch(t, false)])[1..] == fs[1..] + [Fetch(t, false)];
      FetchSnoc(fs[1..], t);
    }
  }

  lemma {:induction false} FetchCompletes(fs: seq<Fetch>, n: nat)
    requires n < |fs| && !fs[n].done
    ensures FetchWeight(fs[n := fs[n].(done := true)]) == FetchWeight(fs) - 1
  {
    var fs' := fs[n := fs[n].(done := true)];
    if n == 0 {
      assert fs'[1..] == fs[1..];
    } else {
      assert fs'[1..] == fs[1..][n - 1 := fs[n].(done := true)];
      FetchCompletes(fs[1..], n - 1);
    }
  }

  lemma ForwarderDecreases(s: State, e: Event)
    requires Enabled(s, e) && (e.Start? || e.Complete? || e.Yield? || e.Forward? || e.StopForwarding?)
    ensures Measure(Step(s, e)) < Measure(s)
  {
    var f := s.forwarder;
    match e
    case Start => FetchSnoc(f.inFlight, f.pending[0]);
    case Complete(n) => FetchCompletes(f.inFlight, n);
    case Yield =>
    case Forward => WeightSnoc(s.ready, f.hand.value, 2);
    case StopForwarding =>
  }

  /** Every step of every party brings the run closer to its end. */
  lemma StepDecreases(s: State, e: Event)
    requires Enabled(s, e)
    ensures Measure(Step(s, e)) < Measure(s)
  {
    if e.Start? || e.Complete? || e.Yield? || e.Forward? || e.StopForwarding? {
      ForwarderDecreases(s, e);
    }
  }

  lemma {:induction false} RunsAreBounded(s: State, events: seq<Event>)
    requires Run(s, events)
    ensures |events| + Measure(After(s, events)) <= Measure(s)
    decreases |events|
  {
    if events != [] {
      StepDecreases(s, events[0]);
      RunsAreBounded(Step(s, events[0]), events[1..]);
    }
  }

  /** A scan of n targets with m items in all ends after at most 6n + 2m + 3 steps. */
  lemma ScanTerminates(targets: seq<Target>, events: seq<Event>)
    requires Run(Initial(targets), events)
    ensures |events| <= Weight(targets, 6) + 3
  {
    RunsAreBounded(Initial(targets), events);
  }
}
