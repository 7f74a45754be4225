/**
 The streaming multipart upload: a select loop that acquires one of eight permits, receives a
 chunk from a bounded channel, starts a task that uploads the chunk as the next part, and joins
 tasks in whatever order they end. The protocol is a transition system over the loop, the tasks,
 the producer at the other end of the channel and the storage service.
 */
module MultipartUpload {
  import opened Sequences
  import opened StableSort

  newtype byte = x: int | 0 <= x < 256
  type Bytes = seq<byte>

  const MAX_RUNNING_PARTS: nat := 8
  const CHANNEL_CAPACITY: nat := 10

  datatype StreamItem = Data(chunk: Bytes) | Success

  /** How a part task ends: uploaded, refused by the service, or panicked. */
  datatype TaskEnd = Uploaded | UploadFailed | Panicked

  /** What a completed part tells the service: its number selects the uploaded body. */
  datatype CompletedPart = CompletedPart(partNumber: int)

  /** The reply to the final complete request; a lost reply means that the service did complete. */
  datatype Reply = Accepted | Rejected | ReplyLost

  datatype Phase = Selecting | Draining | Returned

  /**
   The producer's side: `script` is what it would like to send, `sent` and `received` say how far
   the producer and the loop have come, so the channel holds script[received..sent].
   */
  datatype Channel = Channel(script: seq<StreamItem>, sent: nat, received: nat, senderOpen: bool)

  /** The started parts: running tasks, ended tasks not yet joined, completed parts, stored bodies. */
  datatype Parts = Parts(
    running: map<int, Bytes>,
    finished: map<int, TaskEnd>,
    collected: seq<Keyed<CompletedPart>>,
    bodies: map<int, Bytes>)

  datatype Outcome = Outcome(
    request: Option<seq<int>>,
    storedObject: Option<Bytes>,
    guardCompleted: bool,
    abortRequested: bool)

  datatype State = State(
    channel: Channel,
    phase: Phase,
    permits: nat,
    permitHeld: bool,
    partNumber: int,
    parts: Parts,
    successSeen: bool,
    failed: bool,
    outcome: Outcome)

  datatype Event =
    | Produce                             // the producer sends its next item
    | CloseSender                         // the producer goes away, finished or not
    | AcquirePermit                       // select arm: a permit
    | Receive                             // select arm: the channel
    | JoinNext(part: int)                 // select arm or drain loop: an ended task
    | PartEnds(ended: int, end: TaskEnd)  // a running task ends and gives its permit back
    | Conclude(reply: Reply)              // the drain loop found no task left

  function Initial(script: seq<StreamItem>): State {
    State(Channel(script, 0, 0, true), Selecting, MAX_RUNNING_PARTS, false, 1,
          Parts(map[], map[], [], map[]), false, false, Outcome(None, None, false, false))
  }

  predicate Enabled(s: State, e: Event) {
    s.phase != Returned &&
    match e
    case Produce =>
      s.channel.senderOpen && s.channel.sent < |s.channel.script| &&
      s.channel.sent - s.channel.received < CHANNEL_CAPACITY
    case CloseSender => s.channel.senderOpen
    case AcquirePermit => s.phase == Selecting && !s.permitHeld && s.permits > 0
    case Receive =>
      s.phase == Selecting && s.permitHeld && (s.channel.received < s.channel.sent || !s.channel.senderOpen)
    case JoinNext(k) => k in s.parts.finished
    case PartEnds(k, _) => k in s.parts.running
    case Conclude(_) => s.phase == Draining && s.parts.running == map[] && s.parts.finished == map[]
  }

  // ---------------------------------------------------------------- the life of a part

  function StartPart(p: Parts, k: int, chunk: Bytes): Parts {
    p.(running := p.running[k := chunk])
  }

  function EndPart(p: Parts, k: int, end: TaskEnd): Parts
    requires k in p.running
  {
    Parts(p.running - {k}, p.finished[k := end], p.collected,
          if end == Uploaded then p.bodies[k := p.running[k]] else p.bodies)
  }

  function JoinPart(p: Parts, k: int): Parts
    requires k in p.finished
  {
    Parts(p.running, p.finished - {k},
          if p.finished[k] == Uploaded then p.collected + [Keyed(k, CompletedPart(k))] else p.collected, p.bodies)
  }

  function PartNumbers(collected: seq<Keyed<CompletedPart>>): seq<int> {
    seq(|collected|, i requires 0 <= i < |collected| => collected[i].value.partNumber)
  }

  /** The bodies of the requested parts, in the order of the request. */
  function Requested(bodies: map<int, Bytes>, request: seq<int>): seq<Bytes> {
    seq(|request|, i requires 0 <= i < |request| => if request[i] in bodies then bodies[request[i]] else [])
  }

  // ---------------------------------------------------------------- the steps

  /** Returning drops the guard, which asks for an abort unless the upload was completed. */
  function Return(s: State, outcome: Outcome): State {
    s.(phase := Returned, outcome := outcome.(abortRequested := !outcome.guardCompleted))
  }

  function ReceiveItem(s: State): State
    requires Enabled(s, Receive)
  {
    if s.channel.received < s.channel.sent && s.channel.received < |s.channel.script| then
      var taken := s.channel.(received := s.channel.received + 1);
      match s.channel.script[s.channel.received]
      case Data(chunk) =>
        s.(channel := taken, permitHeld := false, partNumber := s.partNumber + 1,
           parts := StartPart(s.parts, s.partNumber, chunk))
      case Success =>
        s.(channel := taken, successSeen := true, phase := Draining)
    else
      s.(phase := Draining)
  }

  function JoinTask(s: State, k: int): State
    requires Enabled(s, JoinNext(k))
  {
    var joined := s.(parts := JoinPart(s.parts, k));
    if s.parts.finished[k] == Uploaded then joined else Return(joined.(failed := true), s.outcome)
  }

  function ConcludeUpload(s: State, reply: Reply): State
    requires Enabled(s, Conclude(reply))
  {
    if !s.successSeen then
      Return(s, s.outcome)
    else
      var request := PartNumbers(Sort(s.parts.collected));
      var made := if reply == Rejected then None else Some(Flatten(Requested(s.parts.bodies, request)));
      Return(s, Outcome(Some(request), made, reply == Accepted, false))
  }

  function Step(s: State, e: Event): State
    requires Enabled(s, e)
  {
    match e
    case Produce => s.(channel := s.channel.(sent := s.channel.sent + 1))
    case CloseSender => s.(channel := s.channel.(senderOpen := false))
    case AcquirePermit => s.(permits := s.permits - 1, permitHeld := true)
    case Receive => ReceiveItem(s)
    case JoinNext(k) => JoinTask(s, k)
    case PartEnds(k, end) => s.(parts := EndPart(s.parts, k, end), permits := s.permits + 1)
    case Conclude(reply) => ConcludeUpload(s, reply)
  }

  /** The run that a schedule drives: an event that cannot happen is passed over. */
  function Drive(s: State, schedule: seq<Event>): State
    decreases |schedule|
  {
    if schedule == [] then s
    else Drive(if Enabled(s, schedule[0]) then Step(s, schedule[0]) else s, schedule[1..])
  }

  // ---------------------------------------------------------------- what every step keeps

  predicate AllData(script: seq<StreamItem>, n: int) {
    n <= |script| && forall i :: 0 <= i < n ==> script[i].Data?
  }

  /** The first n chunks of a script. */
  function Chunks(script: seq<StreamItem>, n: nat): seq<Bytes>
    requires AllData(script, n)
  {
    seq(n, i requires 0 <= i < n => script[i].chunk)
  }

  /** How many parts were started. */
  function Started(s: State): int {
    s.partNumber - 1
  }

  ghost predicate StreamInv(s: State) {
    && s.channel.received <= s.channel.sent <= |s.channel.script|
    && s.channel.sent - s.channel.received <= CHANNEL_CAPACITY
    && 0 <= Started(s) == (if s.successSeen then s.channel.received - 1 else s.channel.received)
    && AllData(s.channel.script, Started(s))
    && (s.successSeen ==> s.channel.script[Started(s)] == Success && s.phase != Selecting)
  }

  /** Permits are conserved: free, held by the loop, or with a running part. */
  ghost predicate PermitInv(s: State) {
    s.permits + (if s.permitHeld then 1 else 0) + |s.parts.running| == MAX_RUNNING_PARTS
  }

  predicate Collected(p: Parts, k: int) {
    Group(p.collected, k) != []
  }

  /** Every started part is in at most one place, and is completed under its own number once. */
  ghost predicate PlacesInv(p: Parts, n: int) {
    && (forall k :: k in p.running ==> 1 <= k <= n && k !in p.finished && !Collected(p, k))
    && (forall k :: k in p.finished ==> 1 <= k <= n && !Collected(p, k))
    && (forall k :: Collected(p, k) ==> 1 <= k <= n && Group(p.collected, k) == [Keyed(k, CompletedPart(k))])
  }

  /** No started part is lost. */
  ghost predicate NothingLost(p: Parts, n: int) {
    forall k :: 1 <= k <= n ==> k in p.running || k in p.finished || Collected(p, k)
  }

  /** A part's body is the chunk that it stands for. */
  ghost predicate BodyInv(p: Parts, script: seq<StreamItem>, n: int)
    requires AllData(script, n)
  {
    && (forall k :: k in p.running ==> 1 <= k <= n && p.running[k] == script[k - 1].chunk)
    && (forall k :: k in p.bodies ==> 1 <= k <= n && p.bodies[k] == script[k - 1].chunk)
    && (forall k :: k in p.finished && p.finished[k] == Uploaded ==> k in p.bodies)
    && (forall k :: Collected(p, k) ==> k in p.bodies)
  }

  /** The bytes the producer handed over before it signalled success. */
  ghost function Payload(s: State): Bytes
    requires StreamInv(s)
  {
    Flatten(Chunks(s.channel.script, Started(s)))
  }

  ghost predicate OutcomeInv(s: State)
    requires StreamInv(s)
  {
    var o := s.outcome;
    && (s.phase != Returned ==> o == Outcome(None, None, false, false) && !s.failed)
    && (s.phase == Returned ==> o.abortRequested == !o.guardCompleted)
    && (o.guardCompleted ==> o.storedObject.Some?)
    && (o.storedObject.Some? ==> o.request.Some? && o.storedObject.value == Payload(s))
    && (o.request.Some? ==>
          s.successSeen && !s.failed && s.parts.running == map[] && s.parts.finished == map[] &&
          o.request.value == seq(Started(s), i => i + 1))
  }

  ghost predicate Inv(s: State) {
    && StreamInv(s) && PermitInv(s) && OutcomeInv(s)
    && PlacesInv(s.parts, Started(s))
    && (!s.failed ==> NothingLost(s.parts, Started(s)))
    && BodyInv(s.parts, s.channel.script, Started(s))
  }

  lemma InitialInv(script: seq<StreamItem>)
    ensures Inv(Initial(script))
  {
  }

  lemma StartKeepsPlaces(p: Parts, n: nat, k: int, chunk: Bytes)
    requires PlacesInv(p, n) && k == n + 1
    ensures PlacesInv(StartPart(p, k, chunk), k)
    ensures NothingLost(p, n) ==> NothingLost(StartPart(p, k, chunk), k)
  {
    assert k !in p.running && k !in p.finished && !Collected(p, k);
  }

  lemma EndKeepsPlaces(p: Parts, n: int, k: int, end: TaskEnd)
    requires PlacesInv(p, n) && k in p.running
    ensures PlacesInv(EndPart(p, k, end), n)
    ensures NothingLost(p, n) ==> NothingLost(EndPart(p, k, end), n)
  {
  }

  lemma JoinedGroups(p: Parts, k: int, j: int)
    requires k in p.finished
    ensures Group(JoinPart(p, k).collected, j) ==
            Group(p.collected, j) + (if j == k && p.finished[k] == Uploaded then [Keyed(k, CompletedPart(k))] else [])
  {
    GroupAppend(p.collected, [Keyed(k, CompletedPart(k))], j);
    assert Group([Keyed(k, CompletedPart(k))], j) == if j == k then [Keyed(k, CompletedPart(k))] else [];
  }

  lemma JoinKeepsPlaces(p: Parts, n: int, k: int)
    requires PlacesInv(p, n) && k in p.finished
    ensures PlacesInv(JoinPart(p, k), n)
    ensures NothingLost(p, n) && p.finished[k] == Uploaded ==> NothingLost(JoinPart(p, k), n)
    ensures forall j :: Collected(JoinPart(p, k), j) <==> Collected(p, j) || (j == k && p.finished[k] == Uploaded)
  {
    forall j
      ensures Group(JoinPart(p, k).collected, j) ==
              if j == k && p.finished[k] == Uploaded then [Keyed(k, CompletedPart(k))] else Group(p.collected, j)
    {
      JoinedGroups(p, k, j);
      assert !Collected(p, k);
    }
  }

  /** What was collected is a completed part under its own number. */
  lemma CollectedPart(p: Parts, n: nat, y: Keyed<CompletedPart>)
    requires PlacesInv(p, n) && y in p.collected
    ensures y == Keyed(y.key, CompletedPart(y.key)) && 1 <= y.key <= n
  {
    GroupMembers(p.collected, y.key);
    assert y in Group(p.collected, y.key);
    assert Collected(p, y.key);
  }

  lemma PartIsCollected(p: Parts, n: nat, k: int)
    requires PlacesInv(p, n) && NothingLost(p, n) && p.running == map[] && p.finished == map[] && 1 <= k <= n
    ensures Keyed(k, CompletedPart(k)) in p.collected
  {
    assert Collected(p, k);
    GroupMembers(p.collected, k);
    assert Group(p.collected, k)[0] in p.collected;
  }

  lemma AtMostOnce(p: Parts, n: nat, k: int)
    requires PlacesInv(p, n)
    ensures |Group(p.collected, k)| <= 1
  {
    assert Collected(p, k) || Group(p.collected, k) == [];
  }

  /** When no task is left, the sorted completed parts are numbered exactly 1, 2, ..., n. */
  lemma SortedPartsAreAll(p: Parts, n: nat)
    requires PlacesInv(p, n) && NothingLost(p, n) && p.running == map[] && p.finished == map[]
    ensures PartNumbers(Sort(p.collected)) == seq(n, i => i + 1)
  {
    var sorted, numbers := Sort(p.collected), PartNumbers(Sort(p.collected));
    forall k ensures |Group(p.collected, k)| <= 1 {
      AtMostOnce(p, n, k);
    }
    SortOfUniqueKeys(p.collected);
    forall i | 0 <= i < |sorted| ensures numbers[i] == sorted[i].key && 1 <= numbers[i] <= n {
      CollectedPart(p, n, sorted[i]);
    }
    forall k | 1 <= k <= n ensures k in numbers {
      PartIsCollected(p, n, k);
      var j :| 0 <= j < |sorted| && sorted[j] == Keyed(k, CompletedPart(k));
      assert numbers[j] == k;
    }
    IncreasingIsInterval(numbers, n);
  }

  /** What the drain loop hands to the service is the whole payload, in order. */
  lemma DrainedRequest(p: Parts, script: seq<StreamItem>, n: nat)
    requires AllData(script, n) && BodyInv(p, script, n)
    requires PlacesInv(p, n) && NothingLost(p, n) && p.running == map[] && p.finished == map[]
    ensures PartNumbers(Sort(p.collected)) == seq(n, i => i + 1)
    ensures Requested(p.bodies, PartNumbers(Sort(p.collected))) == Chunks(script, n)
  {
    SortedPartsAreAll(p, n);
    var request := seq(n, i => i + 1);
    forall i | 0 <= i < n ensures Requested(p.bodies, request)[i] == Chunks(script, n)[i] {
      assert request[i] == i + 1;
      assert Collected(p, i + 1);
    }
  }

  lemma StepKeepsStream(s: State, e: Event)
    requires StreamInv(s) && Enabled(s, e)
    ensures StreamInv(Step(s, e))
  {
  }

  lemma StepKeepsPermits(s: State, e: Event)
    requires PermitInv(s) && PlacesInv(s.parts, Started(s)) && Enabled(s, e)
    ensures PermitInv(Step(s, e))
  {
    match e
    case Receive =>
      assert s.partNumber !in s.parts.running;
      if s.channel.received < s.channel.sent && s.channel.received < |s.channel.script| {
        var item := s.channel.script[s.channel.received];
        if item.Data? {
          AddedKeyCounts(s.parts.running, s.partNumber, item.chunk);
        }
      }
    case PartEnds(k, _) => RemovedKeyCounts(s.parts.running, k);
    case _ =>
  }

  /** How each event moves the parts, apart from the rest of the state. */
  ghost predicate PartsMove(p: Parts, n: int, q: Parts, m: int, script: seq<StreamItem>) {
    || (q == p && m == n)
    || (m == n + 1 && AllData(script, m) && m >= 1 && q == StartPart(p, m, script[n].chunk))
    || (m == n && exists k :: k in p.finished && q == JoinPart(p, k))
    || (m == n && exists k, end :: k in p.running && q == EndPart(p, k, end))
  }

  lemma StepMovesParts(s: State, e: Event)
    requires StreamInv(s) && Enabled(s, e)
    ensures PartsMove(s.parts, Started(s), Step(s, e).parts, Started(Step(s, e)), s.channel.script)
    ensures Step(s, e).failed <==> s.failed || (e.JoinNext? && s.parts.finished[e.part] != Uploaded)
  {
    match e
    case JoinNext(k) => assert Step(s, e).parts == JoinPart(s.parts, k);
    case PartEnds(k, end) => assert Step(s, e).parts == EndPart(s.parts, k, end);
    case _ =>
  }

  lemma MoveKeepsPlaces(p: Parts, n: nat, q: Parts, m: nat, script: seq<StreamItem>)
    requires PartsMove(p, n, q, m, script) && PlacesInv(p, n)
    ensures PlacesInv(q, m)
  {
    if m == n + 1 {
      StartKeepsPlaces(p, n, m, script[n].chunk);
    } else if k :| k in p.finished && q == JoinPart(p, k) {
      JoinKeepsPlaces(p, n, k);
    } else if k, end :| k in p.running && q == EndPart(p, k, end) {
      EndKeepsPlaces(p, n, k, end);
    }
  }

  lemma StartKeepsBodies(p: Parts, n: nat, k: int, script: seq<StreamItem>)
    requires k == n + 1 && AllData(script, n) && AllData(script, k) && BodyInv(p, script, n)
    ensures BodyInv(StartPart(p, k, script[n].chunk), script, k)
  {
  }

  lemma EndKeepsBodies(p: Parts, n: nat, k: int, end: TaskEnd, script: seq<StreamItem>)
    requires k in p.running && AllData(script, n) && BodyInv(p, script, n)
    ensures BodyInv(EndPart(p, k, end), script, n)
  {
  }

  lemma JoinKeepsBodies(p: Parts, n: nat, k: int, script: seq<StreamItem>)
    requires k in p.finished && PlacesInv(p, n) && AllData(script, n) && BodyInv(p, script, n)
    ensures BodyInv(JoinPart(p, k), script, n)
  {
    JoinKeepsPlaces(p, n, k);
  }

  lemma MoveKeepsBodies(p: Parts, n: nat, q: Parts, m: nat, script: seq<StreamItem>)
    requires PartsMove(p, n, q, m, script) && PlacesInv(p, n)
    requires AllData(script, n) && AllData(script, m) && BodyInv(p, script, n)
    ensures BodyInv(q, script, m)
  {
    if m == n + 1 {
      StartKeepsBodies(p, n, m, script);
    } else if k :| k in p.finished && q == JoinPart(p, k) {
      JoinKeepsBodies(p, n, k, script);
    } else if k, end :| k in p.running && q == EndPart(p, k, end) {
      EndKeepsBodies(p, n, k, end, script);
    }
  }

  lemma StepLosesNothing(s: State, e: Event)
    requires StreamInv(s) && PlacesInv(s.parts, Started(s)) && NothingLost(s.parts, Started(s)) && Enabled(s, e)
    requires !Step(s, e).failed
    ensures NothingLost(Step(s, e).parts, Started(Step(s, e)))
  {
    match e
    case Receive =>
      if s.channel.received < s.channel.sent && s.channel.script[s.channel.received].Data? {
        StartKeepsPlaces(s.parts, Started(s), s.partNumber, s.channel.script[s.channel.received].chunk);
      }
    case JoinNext(k) => JoinKeepsPlaces(s.parts, Started(s), k);
    case PartEnds(k, end) => EndKeepsPlaces(s.parts, Started(s), k, end);
    case _ =>
  }

  lemma StepKeepsOutcome(s: State, e: Event)
    requires Inv(s) && Enabled(s, e)
    ensures StreamInv(Step(s, e)) && OutcomeInv(Step(s, e))
  {
    StepKeepsStream(s, e);
    if e.Conclude? && s.successSeen {
      DrainedRequest(s.parts, s.channel.script, Started(s));
    }
  }

  /** Every step of the protocol, in whatever order the races resolve, keeps the invariant. */
  lemma StepKeepsInv(s: State, e: Event)
    requires Inv(s) && Enabled(s, e)
    ensures Inv(Step(s, e))
    ensures Step(s, e).channel.script == s.channel.script
  {
    var t := Step(s, e);
    StepKeepsOutcome(s, e);
    StepKeepsPermits(s, e);
    StepMovesParts(s, e);
    MoveKeepsPlaces(s.parts, Started(s), t.parts, Started(t), s.channel.script);
    MoveKeepsBodies(s.parts, Started(s), t.parts, Started(t), s.channel.script);
    if !t.failed {
      StepLosesNothing(s, e);
    }
  }

  lemma {:induction false} DriveKeepsInv(s: State, schedule: seq<Event>)
    requires Inv(s)
    ensures Inv(Drive(s, schedule))
    ensures Drive(s, schedule).channel.script == s.channel.script
    decreases |schedule|
  {
    if schedule != [] {
      if Enabled(s, schedule[0]) {
        StepKeepsInv(s, schedule[0]);
        DriveKeepsInv(Step(s, schedule[0]), schedule[1..]);
      } else {
        DriveKeepsInv(s, schedule[1..]);
      }
    }
  }
}
