/**
 The upload loop as it runs: the local variables of `upload_stream` are the fields of a session,
 each arm of the select and of the drain loop is a method, and a schedule says which race is won.
 */
module UploadSession {
  import opened Sequences
  import opened StableSort
  import opened MultipartUpload
  import opened UploadRuns

  class Session {
    var rx: Channel
    var phase: Phase
    var permits: nat
    var permitHeld: bool
    var partNumber: int
    var joinSet: Parts
    var successSignalReceived: bool
    var uploadError: bool
    var reply: Outcome

    constructor (script: seq<StreamItem>)
      ensures View() == Initial(script)
    {
      rx, phase := Channel(script, 0, 0, true), Selecting;
      permits, permitHeld, partNumber := MAX_RUNNING_PARTS, false, 1;
      joinSet := Parts(map[], map[], [], map[]);
      successSignalReceived, uploadError := false, false;
      reply := Outcome(None, None, false, false);
    }

    ghost function View(): State
      reads this
    {
      State(rx, phase, permits, permitHeld, partNumber, joinSet, successSignalReceived, uploadError, reply)
    }

    predicate CanHappen(e: Event)
      reads this
      ensures CanHappen(e) == Enabled(View(), e)
    {
      Enabled(State(rx, phase, permits, permitHeld, partNumber, joinSet, successSignalReceived, uploadError, reply), e)
    }

    /** The select arm of the channel: data takes the permit along, anything else ends the loop. */
    method ReceiveOne()
      requires Enabled(View(), Receive)
      modifies this
      ensures View() == Step(old(View()), Receive)
    {
      if rx.received >= rx.sent || rx.received >= |rx.script| {
        phase := Draining;
        return;
      }
      var item := rx.script[rx.received];
      rx := rx.(received := rx.received + 1);
      match item
      case Data(chunk) =>
        permitHeld := false;
        joinSet := joinSet.(running := joinSet.running[partNumber := chunk]);
        partNumber := partNumber + 1;
      case Success =>
        successSignalReceived := true;
        phase := Draining;
    }

    /** The join arm: a completed part is recorded, a failed or panicked one ends the upload. */
    method JoinOne(k: int)
      requires Enabled(View(), JoinNext(k))
      modifies this
      ensures View() == Step(old(View()), JoinNext(k))
    {
      var end := joinSet.finished[k];
      joinSet := joinSet.(finished := joinSet.finished - {k});
      if end == Uploaded {
        joinSet := joinSet.(collected := joinSet.collected + [Keyed(k, CompletedPart(k))]);
      } else {
        uploadError := true;
        DropGuard();
      }
    }

    /** The end of a task: its permit is released and an uploaded body is in the store. */
    method EndOne(k: int, end: TaskEnd)
      requires Enabled(View(), PartEnds(k, end))
      modifies this
      ensures View() == Step(old(View()), PartEnds(k, end))
    {
      if end == Uploaded {
        joinSet := joinSet.(bodies := joinSet.bodies[k := joinSet.running[k]]);
      }
      joinSet := joinSet.(finished := joinSet.finished[k := end], running := joinSet.running - {k});
      permits := permits + 1;
    }

    /** After the drain loop: without a success signal the upload fails, otherwise it is completed. */
    method Complete(r: Reply)
      requires Enabled(View(), Conclude(r))
      modifies this
      ensures View() == Step(old(View()), Conclude(r))
    {
      if !successSignalReceived {
        DropGuard();
        return;
      }
      var sorted := Sort(joinSet.collected);
      var request: seq<int> := [];
      for i := 0 to |sorted|
        invariant request == PartNumbers(sorted)[..i]
        invariant View() == old(View())
      {
        request := request + [sorted[i].value.partNumber];
      }
      assert request == PartNumbers(sorted);
      reply := reply.(request := Some(request));
      if r != Rejected {
        reply := reply.(storedObject := Some(Flatten(Requested(joinSet.bodies, request))));
      } else {
        reply := reply.(storedObject := None);
      }
      reply := reply.(guardCompleted := r == Accepted);
      DropGuard();
    }

    /** Leaving the function drops the guard. */
    method DropGuard()
      modifies this
      ensures View() == Return(old(View()), old(reply))
    {
      phase := Returned;
      reply := reply.(abortRequested := !reply.guardCompleted);
    }

    method Happen(e: Event)
      requires Enabled(View(), e)
      modifies this
      ensures View() == Step(old(View()), e)
    {
      match e
      case Produce => rx := rx.(sent := rx.sent + 1);
      case CloseSender => rx := rx.(senderOpen := false);
      case AcquirePermit => permits, permitHeld := permits - 1, true;
      case Receive => ReceiveOne();
      case JoinNext(k) => JoinOne(k);
      case PartEnds(k, end) => EndOne(k, end);
      case Conclude(r) => Complete(r);
    }
  }

  lemma {:induction false} DriveOn(s: State, schedule: seq<Event>, i: nat)
    requires i < |schedule|
    ensures var t := Drive(s, schedule[..i]);
            Drive(s, schedule[..i + 1]) == if Enabled(t, schedule[i]) then Step(t, schedule[i]) else t
    decreases i
  {
    if i == 0 {
      assert schedule[..1] == [schedule[0]];
    } else {
      assert schedule[..i][1..] == schedule[1..][..i - 1];
      assert schedule[..i + 1][1..] == schedule[1..][..i];
      DriveOn(if Enabled(s, schedule[0]) then Step(s, schedule[0]) else s, schedule[1..], i - 1);
    }
  }

  /**
   Runs an upload of what the producer would send under a schedule. A successful result means
   that the object is exactly what the producer sent before its success signal.
   */
  method UploadStream(script: seq<StreamItem>, schedule: seq<Event>)
    returns (ok: bool, storedObject: Option<Bytes>, aborted: bool)
    ensures var t := Run(script, schedule);
            ok == t.outcome.guardCompleted && storedObject == t.outcome.storedObject && aborted == t.outcome.abortRequested
    ensures ok ==> exists n: nat :: SuccessAt(script, n) && storedObject == Some(Flatten(Chunks(script, n)))
    ensures !(ok && aborted)
  {
    var session := new Session(script);
    for i := 0 to |schedule|
      invariant session.View() == Run(script, schedule[..i])
    {
      DriveOn(Initial(script), schedule, i);
      if session.CanHappen(schedule[i]) {
        session.Happen(schedule[i]);
      }
    }
    assert schedule[..|schedule|] == schedule;
    RunKeepsInv(script, schedule);
    CompletionIsFaithful(script, schedule);
    return session.reply.guardCompleted, session.reply.storedObject, session.reply.abortRequested;
  }
}
