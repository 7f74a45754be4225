/**
 What holds of whole runs of the multipart upload, for every script of the producer and every
 schedule of the races: safety of the stored object, one outcome, progress and termination.
 */
module UploadRuns {
  import opened Sequences
  import opened MultipartUpload

  /** The producer's first n items are data and the next one signals success. */
  predicate SuccessAt(script: seq<StreamItem>, n: nat) {
    AllData(script, n) && n < |script| && script[n] == Success
  }

  /** The state that a schedule leads to from the start of an upload. */
  function Run(script: seq<StreamItem>, schedule: seq<Event>): State {
    Drive(Initial(script), schedule)
  }

  lemma RunKeepsInv(script: seq<StreamItem>, schedule: seq<Event>)
    ensures Inv(Run(script, schedule))
    ensures Run(script, schedule).channel.script == script
  {
    InitialInv(script);
    DriveKeepsInv(Initial(script), schedule);
  }

  /**
   The safety theorem: whenever the upload is completed, the producer did signal success, no part
   failed, the requested parts are numbered 1, 2, ..., n, and the object is the concatenation of
   the n chunks that came before the success signal.
   */
  lemma CompletionIsFaithful(script: seq<StreamItem>, schedule: seq<Event>)
    ensures var t := Run(script, schedule);
            t.outcome.request.Some? ==>
              exists n: nat :: SuccessAt(script, n) && n < t.channel.sent && !t.failed &&
                t.outcome.request.value == seq(n, i => i + 1) &&
                (t.outcome.storedObject.Some? ==> t.outcome.storedObject.value == Flatten(Chunks(script, n)))
  {
    RunKeepsInv(script, schedule);
    var t := Run(script, schedule);
    if t.outcome.request.Some? {
      assert SuccessAt(script, Started(t));
    }
  }

  /** A producer that never signals success never gets an object stored. */
  lemma NoSuccessNoObject(script: seq<StreamItem>, schedule: seq<Event>)
    requires Success !in script
    ensures Run(script, schedule).outcome.storedObject == None
    ensures Run(script, schedule).phase == Returned ==> Run(script, schedule).outcome.abortRequested
  {
    RunKeepsInv(script, schedule);
    CompletionIsFaithful(script, schedule);
  }

  /** In every run eight permits are free, held by the loop or with a running part, and ten items fit the channel. */
  lemma EightPartsAtATime(script: seq<StreamItem>, schedule: seq<Event>)
    ensures var t := Run(script, schedule);
            && t.permits + (if t.permitHeld then 1 else 0) + |t.parts.running| == 8
            && t.channel.sent - t.channel.received <= 10
  {
    RunKeepsInv(script, schedule);
  }

  /** The producer's next item, a permit and a new part, n times. */
  function Rounds(n: nat): seq<Event> {
    if n == 0 then [] else Rounds(n - 1) + [Produce, AcquirePermit, Receive]
  }

  lemma {:induction false} DriveThen(s: State, a: seq<Event>, b: seq<Event>)
    ensures Drive(s, a + b) == Drive(Drive(s, a), b)
    decreases |a|
  {
    if a == [] {
      assert a + b == b;
    } else {
      assert (a + b)[1..] == a[1..] + b;
      DriveThen(if Enabled(s, a[0]) then Step(s, a[0]) else s, a[1..], b);
    }
  }

  lemma OneRound(s: State)
    requires Inv(s) && s.phase == Selecting && !s.permitHeld && s.channel.senderOpen
    requires s.channel.sent == s.channel.received < |s.channel.script| && s.channel.script[s.channel.received].Data?
    requires s.permits > 0
    ensures var t := Drive(s, [Produce, AcquirePermit, Receive]);
            && Inv(t) && t.phase == Selecting && !t.permitHeld && t.channel.senderOpen && t.permits == s.permits - 1
            && t.channel == s.channel.(sent := s.channel.sent + 1, received := s.channel.received + 1)
  {
    var events := [Produce, AcquirePermit, Receive];
    assert events[1..] == [AcquirePermit, Receive] && events[1..][1..] == [Receive] && [Receive][1..] == [];
    var s1 := Step(s, Produce);
    var s2 := Step(s1, AcquirePermit);
    assert Drive(s, events) == Drive(s1, [AcquirePermit, Receive]) == Drive(s2, [Receive]) == Step(s2, Receive);
    DriveKeepsInv(s, events);
  }

  lemma {:induction false} RoundsRun(script: seq<StreamItem>, n: nat)
    requires n <= 8 && AllData(script, n)
    ensures var t := Run(script, Rounds(n));
            && Inv(t) && t.phase == Selecting && !t.permitHeld && t.channel.senderOpen && t.permits == 8 - n
            && t.channel.script == script && t.channel.sent == t.channel.received == n
  {
    if n == 0 {
      InitialInv(script);
    } else {
      RoundsRun(script, n - 1);
      DriveThen(Initial(script), Rounds(n - 1), [Produce, AcquirePermit, Receive]);
      OneRound(Run(script, Rounds(n - 1)));
    }
  }

  /** The bound is reached: eight parts can be running at once. */
  lemma EightPartsCanRun(script: seq<StreamItem>)
    requires AllData(script, 8)
    ensures |Run(script, Rounds(8)).parts.running| == 8
  {
    RoundsRun(script, 8);
    EightPartsAtATime(script, Rounds(8));
  }

  function Productions(n: nat): (r: seq<Event>)
    ensures |r| == n && forall i :: 0 <= i < n ==> r[i] == Produce
  {
    seq(n, i => Produce)
  }

  lemma {:induction false} ProducedAlone(s: State, n: nat)
    requires s.phase == Selecting && s.channel.senderOpen && s.channel.received == 0
    requires s.channel.sent <= |s.channel.script| && s.channel.sent <= 10
    ensures var most := if |s.channel.script| < 10 then |s.channel.script| else 10;
            Drive(s, Productions(n)).channel.sent == if s.channel.sent + n < most then s.channel.sent + n else most
    decreases n
  {
    if n > 0 {
      assert Productions(n)[1..] == Productions(n - 1);
      ProducedAlone(if Enabled(s, Produce) then Step(s, Produce) else s, n - 1);
    }
  }

  /** Back-pressure: a producer whose items nobody takes sends ten of them and then waits. */
  lemma ProducerWaits(script: seq<StreamItem>, n: nat)
    requires n >= 10 && |script| >= 10
    ensures Run(script, Productions(n)).channel.sent == 10
  {
    ProducedAlone(Initial(script), n);
  }

  // ---------------------------------------------------------------- one outcome

  /** In the run of a schedule, the reply to a complete request gets lost after the success signal. */
  predicate LosesReply(s: State, schedule: seq<Event>)
    decreases |schedule|
  {
    schedule != [] &&
    var e := schedule[0];
    if Enabled(s, e) then (e == Conclude(ReplyLost) && s.successSeen) || LosesReply(Step(s, e), schedule[1..])
    else LosesReply(s, schedule[1..])
  }

  predicate BothOutcomes(s: State) {
    s.outcome.storedObject.Some? && s.outcome.abortRequested
  }

  lemma StepToBothOutcomes(s: State, e: Event)
    requires Inv(s) && Enabled(s, e)
    ensures BothOutcomes(Step(s, e)) <==> e == Conclude(ReplyLost) && s.successSeen
  {
  }

  lemma {:induction false} DriveToBothOutcomes(s: State, schedule: seq<Event>)
    requires Inv(s)
    ensures BothOutcomes(Drive(s, schedule)) <==> BothOutcomes(s) || LosesReply(s, schedule)
    decreases |schedule|
  {
    if schedule != [] {
      var e := schedule[0];
      if Enabled(s, e) {
        StepKeepsInv(s, e);
        StepToBothOutcomes(s, e);
        DriveToBothOutcomes(Step(s, e), schedule[1..]);
      } else {
        DriveToBothOutcomes(s, schedule[1..]);
      }
    }
  }

  lemma {:induction false} NoLostReply(s: State, schedule: seq<Event>)
    requires Conclude(ReplyLost) !in schedule
    ensures !LosesReply(s, schedule)
    decreases |schedule|
  {
    if schedule != [] {
      NoLostReply(if Enabled(s, schedule[0]) then Step(s, schedule[0]) else s, schedule[1..]);
    }
  }

  /** An object is stored and its abort is requested exactly when the reply to the complete request gets lost. */
  lemma BothOutcomesIff(script: seq<StreamItem>, schedule: seq<Event>)
    ensures BothOutcomes(Run(script, schedule)) <==> LosesReply(Initial(script), schedule)
  {
    InitialInv(script);
    DriveToBothOutcomes(Initial(script), schedule);
  }

  /**
   Exactly one outcome: a returned upload either is completed and not aborted, or is aborted and
   not completed; an object is there exactly when no abort is requested, unless the reply gets lost.
   */
  lemma ExactlyOneOutcome(script: seq<StreamItem>, schedule: seq<Event>)
    requires Run(script, schedule).phase == Returned
    ensures var o := Run(script, schedule).outcome;
            && (o.guardCompleted ==> o.storedObject.Some? && !o.abortRequested)
            && (!o.guardCompleted ==> o.abortRequested)
            && ((o.storedObject.Some? <==> !o.abortRequested) <==> !LosesReply(Initial(script), schedule))
            && (Conclude(ReplyLost) !in schedule ==> (o.storedObject.Some? <==> !o.abortRequested))
  {
    RunKeepsInv(script, schedule);
    BothOutcomesIff(script, schedule);
    if Conclude(ReplyLost) !in schedule {
      NoLostReply(Initial(script), schedule);
    }
  }

  /** The exception is real: with a lost reply the object is stored and an abort is requested. */
  lemma LostReplyHasBothOutcomes()
    ensures var o := Run([Success], [Produce, AcquirePermit, Receive, Conclude(ReplyLost)]).outcome;
            o.storedObject == Some([]) && o.abortRequested
  {
    var s0 := Initial([Success]);
    var s1 := Step(s0, Produce);
    var s2 := Step(s1, AcquirePermit);
    var s3 := Step(s2, Receive);
    var s4 := Step(s3, Conclude(ReplyLost));
    assert Drive(s4, []) == s4;
    assert Drive(s3, [Conclude(ReplyLost)]) == s4;
    assert Drive(s2, [Receive, Conclude(ReplyLost)]) == s4 by {
      assert [Receive, Conclude(ReplyLost)][1..] == [Conclude(ReplyLost)];
    }
    assert Drive(s1, [AcquirePermit, Receive, Conclude(ReplyLost)]) == s4 by {
      assert [AcquirePermit, Receive, Conclude(ReplyLost)][1..] == [Receive, Conclude(ReplyLost)];
    }
    assert [Produce, AcquirePermit, Receive, Conclude(ReplyLost)][1..] == [AcquirePermit, Receive, Conclude(ReplyLost)];
  }

  // ---------------------------------------------------------------- progress and termination

  /** The loop holds a permit, no task is left, and the open channel is empty. */
  predicate WaitingForProducer(s: State) {
    && s.phase == Selecting && s.permitHeld
    && s.channel.received == s.channel.sent && s.channel.senderOpen
    && s.parts.running == map[] && s.parts.finished == map[]
  }

  predicate ProducerStep(e: Event) {
    e.Produce? || e.CloseSender?
  }

  /** Deadlock freedom: unless it waits for the producer, the upload itself can make a step. */
  lemma NeverStuck(s: State)
    requires Inv(s) && s.phase != Returned && !WaitingForProducer(s)
    ensures exists e :: Enabled(s, e) && !ProducerStep(e)
  {
    if s.parts.finished != map[] {
      var k := SomeKey(s.parts.finished);
      assert Enabled(s, JoinNext(k));
    } else if s.parts.running != map[] {
      var k := SomeKey(s.parts.running);
      assert Enabled(s, PartEnds(k, Uploaded));
    } else if s.phase == Draining {
      assert Enabled(s, Conclude(Accepted));
    } else if s.permitHeld {
      assert Enabled(s, Receive);
    } else {
      assert Enabled(s, AcquirePermit);
    }
  }

  /** Running parts have two steps to go, ended ones are still to be joined. */
  function TasksLeft(p: Parts): nat {
    2 * |p.running| + |p.finished|
  }

  /** Unread items, tasks left, and the flags still to be set. */
  function Measure(s: State): int {
    5 * (|s.channel.script| - s.channel.sent) + 4 * (s.channel.sent - s.channel.received) + TasksLeft(s.parts)
    + (if s.permitHeld then 0 else 1) + (if s.channel.senderOpen then 1 else 0)
    + (match s.phase case Selecting => 2 case Draining => 1 case Returned => 0)
  }

  lemma TasksLeftMoves(p: Parts, n: nat, k: int, chunk: Bytes, end: TaskEnd)
    requires PlacesInv(p, n)
    ensures k == n + 1 ==> TasksLeft(StartPart(p, k, chunk)) == TasksLeft(p) + 2
    ensures k in p.running ==> TasksLeft(EndPart(p, k, end)) == TasksLeft(p) - 1
    ensures k in p.finished ==> TasksLeft(JoinPart(p, k)) == TasksLeft(p) - 1
  {
    if k == n + 1 {
      AddedKeyCounts(p.running, k, chunk);
    } else if k in p.running {
      RemovedKeyCounts(p.running, k);
      AddedKeyCounts(p.finished, k, end);
    } else if k in p.finished {
      RemovedKeyCounts(p.finished, k);
    }
  }

  lemma ReceiveDecreasesMeasure(s: State)
    requires StreamInv(s) && PlacesInv(s.parts, Started(s)) && Enabled(s, Receive)
    ensures Measure(ReceiveItem(s)) < Measure(s)
  {
    if s.channel.received < s.channel.sent && s.channel.script[s.channel.received].Data? {
      TasksLeftMoves(s.parts, Started(s), s.partNumber, s.channel.script[s.channel.received].chunk, Uploaded);
    }
  }

  lemma JoinDecreasesMeasure(s: State, k: int)
    requires PlacesInv(s.parts, Started(s)) && Enabled(s, JoinNext(k))
    ensures Measure(JoinTask(s, k)) < Measure(s)
  {
    TasksLeftMoves(s.parts, Started(s), k, [], Uploaded);
    assert k !in s.parts.running;
  }

  lemma PartEndDecreasesMeasure(s: State, k: int, end: TaskEnd)
    requires PlacesInv(s.parts, Started(s)) && Enabled(s, PartEnds(k, end))
    ensures Measure(Step(s, PartEnds(k, end))) < Measure(s)
  {
    TasksLeftMoves(s.parts, Started(s), k, [], end);
  }

  lemma StepDecreasesMeasure(s: State, e: Event)
    requires StreamInv(s) && PlacesInv(s.parts, Started(s)) && Enabled(s, e)
    ensures Measure(Step(s, e)) < Measure(s)
  {
    if e.Receive? {
      ReceiveDecreasesMeasure(s);
    } else if e.JoinNext? {
      JoinDecreasesMeasure(s, e.part);
    } else if e.PartEnds? {
      PartEndDecreasesMeasure(s, e.ended, e.end);
    }
  }

  /** Every event of the schedule happens. */
  predicate AllHappen(s: State, schedule: seq<Event>)
    decreases |schedule|
  {
    schedule == [] || (Enabled(s, schedule[0]) && AllHappen(Step(s, schedule[0]), schedule[1..]))
  }

  lemma {:induction false} HappeningIsBounded(s: State, schedule: seq<Event>)
    requires Inv(s) && AllHappen(s, schedule)
    ensures |schedule| <= Measure(s)
    decreases |schedule|
  {
    if schedule == [] {
      assert Inv(s);
    } else {
      StepKeepsInv(s, schedule[0]);
      StepDecreasesMeasure(s, schedule[0]);
      HappeningIsBounded(Step(s, schedule[0]), schedule[1..]);
    }
  }

  /** Termination: no upload of m items makes more than 5m + 4 steps. */
  lemma UploadTerminates(script: seq<StreamItem>, schedule: seq<Event>)
    requires AllHappen(Initial(script), schedule)
    ensures |schedule| <= 5 * |script| + 4
  {
    InitialInv(script);
    HappeningIsBounded(Initial(script), schedule);
  }

  // ---------------------------------------------------------------- a run without faults

  /** No part fails, the service accepts, and the producer does not leave. */
  predicate Faultless(e: Event) {
    match e
    case CloseSender => false
    case PartEnds(_, end) => end == Uploaded
    case Conclude(reply) => reply == Accepted
    case _ => true
  }

  /** What every faultless step keeps: the loop ends only because of a success signal. */
  ghost predicate Healthy(s: State) {
    && Inv(s) && !s.failed && s.channel.senderOpen
    && (forall k :: k in s.parts.finished ==> s.parts.finished[k] == Uploaded)
    && (s.phase != Selecting ==> s.successSeen)
    && (s.phase == Returned ==> s.outcome.guardCompleted)
  }

  lemma {:induction false} FaultlessRunIsHealthy(s: State, schedule: seq<Event>)
    requires Healthy(s) && forall e :: e in schedule ==> Faultless(e)
    ensures Healthy(Drive(s, schedule))
    ensures Drive(s, schedule).channel.script == s.channel.script
    decreases |schedule|
  {
    if schedule != [] {
      var e := schedule[0];
      assert Faultless(e);
      if Enabled(s, e) {
        StepKeepsInv(s, e);
        FaultlessRunIsHealthy(Step(s, e), schedule[1..]);
      } else {
        FaultlessRunIsHealthy(s, schedule[1..]);
      }
    }
  }

  /**
   Liveness: when the producer sends n chunks and a success signal, every run without faults that
   can go no further has stored the concatenation of the chunks.
   */
  lemma FaultlessRunStores(script: seq<StreamItem>, n: nat, schedule: seq<Event>)
    requires SuccessAt(script, n)
    requires forall e :: e in schedule ==> Faultless(e)
    requires forall e :: Faultless(e) ==> !Enabled(Run(script, schedule), e)
    ensures var o := Run(script, schedule).outcome;
            o.storedObject == Some(Flatten(Chunks(script, n))) && !o.abortRequested
  {
    InitialInv(script);
    FaultlessRunIsHealthy(Initial(script), schedule);
    var t := Run(script, schedule);
    if t.phase != Returned {
      assert Faultless(Produce) && Faultless(AcquirePermit) && Faultless(Receive) && Faultless(Conclude(Accepted));
      FaultlessStepExists(t, n);
    }
    assert Started(t) == n;
  }

  lemma FaultlessStepExists(t: State, n: nat)
    requires Healthy(t) && t.phase != Returned && SuccessAt(t.channel.script, n)
    ensures exists e :: Faultless(e) && Enabled(t, e)
  {
    if WaitingForProducer(t) {
      assert t.channel.received <= n;
      assert Faultless(Produce) && Enabled(t, Produce);
    } else {
      NeverStuck(t);
      var e :| Enabled(t, e) && !ProducerStep(e);
      if e.PartEnds? {
        assert Faultless(PartEnds(e.ended, Uploaded)) && Enabled(t, PartEnds(e.ended, Uploaded));
      } else if e.Conclude? {
        assert Faultless(Conclude(Accepted)) && Enabled(t, Conclude(Accepted));
      }
    }
  }
}
