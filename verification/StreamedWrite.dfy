/**
 The sink of the Parquet serializer: bytes are buffered and handed to the upload in chunks of a
 fixed size, a flush hands over what is left, and dropping the sink flushes. The receiver may go
 away after any number of items.
 */
module StreamedWrite {
  import opened Sequences
  import opened MultipartUpload
  import UploadRuns

  /** What the serializer asks of its sink. */
  datatype SinkCall = Write(buf: Bytes) | Flush

  /** The items that a sink hands over when nobody refuses them, and what it still buffers. */
  datatype Plan = Plan(items: seq<StreamItem>, buffer: Bytes)

  /** Cuts full chunks off the front of the buffer. */
  function CutFull(p: Plan, size: nat): Plan
    requires size > 0
    decreases |p.buffer|
  {
    if |p.buffer| < size then p
    else CutFull(Plan(p.items + [Data(p.buffer[..size])], p.buffer[size..]), size)
  }

  function CutRest(p: Plan): Plan {
    if p.buffer == [] then p else Plan(p.items + [Data(p.buffer)], [])
  }

  function Answer(p: Plan, call: SinkCall, size: nat): Plan
    requires size > 0
  {
    match call
    case Write(buf) => CutFull(p.(buffer := p.buffer + buf), size)
    case Flush => CutRest(p)
  }

  function Answers(p: Plan, calls: seq<SinkCall>, size: nat): Plan
    requires size > 0
  {
    if calls == [] then p
    else Answer(Answers(p, calls[..|calls| - 1], size), calls[|calls| - 1], size)
  }

  /** The chunks, and what dropping the sink flushes. */
  function HandedChunks(calls: seq<SinkCall>, size: nat): seq<StreamItem>
    requires size > 0
  {
    CutRest(Answers(Plan([], []), calls, size)).items
  }

  /** Everything that a write hands over: the chunks and the success signal. */
  function Handed(calls: seq<SinkCall>, size: nat): seq<StreamItem>
    requires size > 0
  {
    HandedChunks(calls, size) + [Success]
  }

  /** The bytes that the serializer wrote. */
  function Written(calls: seq<SinkCall>): Bytes {
    if calls == [] then []
    else Written(calls[..|calls| - 1]) + (match calls[|calls| - 1] case Write(buf) => buf case Flush => [])
  }

  function Take<T>(s: seq<T>, n: nat): seq<T> {
    if n <= |s| then s[..n] else s
  }

  // ---------------------------------------------------------------- what the plan means

  /** The items are data, and together with the buffer they spell out the bytes. */
  ghost predicate Spells(p: Plan, bytes: Bytes) {
    AllData(p.items, |p.items|) && Flatten(Chunks(p.items, |p.items|)) + p.buffer == bytes
  }

  lemma SnocSpells(items: seq<StreamItem>, chunk: Bytes)
    requires AllData(items, |items|)
    ensures AllData(items + [Data(chunk)], |items| + 1)
    ensures Flatten(Chunks(items + [Data(chunk)], |items| + 1)) == Flatten(Chunks(items, |items|)) + chunk
  {
    assert Chunks(items + [Data(chunk)], |items| + 1) == Chunks(items, |items|) + [chunk];
    FlattenSnoc(Chunks(items, |items|), chunk);
  }

  lemma {:induction false} CutFullSpells(p: Plan, size: nat, bytes: Bytes)
    requires size > 0 && Spells(p, bytes)
    ensures Spells(CutFull(p, size), bytes)
    ensures |CutFull(p, size).buffer| < size
    ensures p.items <= CutFull(p, size).items
    ensures forall i :: |p.items| <= i < |CutFull(p, size).items| ==>
              CutFull(p, size).items[i].Data? && |CutFull(p, size).items[i].chunk| == size
    decreases |p.buffer|
  {
    if |p.buffer| >= size {
      var q := Plan(p.items + [Data(p.buffer[..size])], p.buffer[size..]);
      SnocSpells(p.items, p.buffer[..size]);
      assert p.buffer == p.buffer[..size] + p.buffer[size..];
      CutFullSpells(q, size, bytes);
    }
  }

  lemma CutRestSpells(p: Plan, bytes: Bytes)
    requires Spells(p, bytes)
    ensures Spells(CutRest(p), bytes) && CutRest(p).buffer == []
  {
    if p.buffer != [] {
      SnocSpells(p.items, p.buffer);
    }
  }

  lemma {:induction false} AnswersSpell(calls: seq<SinkCall>, size: nat)
    requires size > 0
    ensures Spells(Answers(Plan([], []), calls, size), Written(calls))
    ensures |Answers(Plan([], []), calls, size).buffer| < size
  {
    if calls == [] {
      assert Chunks([], 0) == [];
    } else {
      var init, call := calls[..|calls| - 1], calls[|calls| - 1];
      AnswersSpell(init, size);
      var p := Answers(Plan([], []), init, size);
      match call
      case Write(buf) => CutFullSpells(p.(buffer := p.buffer + buf), size, Written(calls));
      case Flush => CutRestSpells(p, Written(calls));
    }
  }

  /** Byte fidelity: the chunks handed over before the success signal concatenate to the bytes written. */
  lemma HandedIsWritten(calls: seq<SinkCall>, size: nat)
    requires size > 0
    ensures var h := Handed(calls, size);
            UploadRuns.SuccessAt(h, |h| - 1) && Flatten(Chunks(h, |h| - 1)) == Written(calls)
  {
    AnswersSpell(calls, size);
    var p := Answers(Plan([], []), calls, size);
    CutRestSpells(p, Written(calls));
    var items := CutRest(p).items;
    assert Chunks(items + [Success], |items|) == Chunks(items, |items|);
  }

  lemma {:induction false} PartSizes(calls: seq<SinkCall>, size: nat)
    requires size > 0 && forall c :: c in calls ==> c.Write?
    ensures var p := Answers(Plan([], []), calls, size);
            forall i :: 0 <= i < |p.items| ==> p.items[i].Data? && |p.items[i].chunk| == size
  {
    if calls != [] {
      var init, call := calls[..|calls| - 1], calls[|calls| - 1];
      assert call in calls;
      PartSizes(init, size);
      AnswersSpell(init, size);
      var p := Answers(Plan([], []), init, size);
      CutFullSpells(p.(buffer := p.buffer + call.buf), size, Written(init) + call.buf);
    }
  }

  /**
   Multipart storage wants every part but the last to reach a minimum size: without an explicit
   flush every part has exactly the chunk size, except that the last one may be shorter.
   */
  lemma OnlyLastPartIsShort(calls: seq<SinkCall>, size: nat, i: nat)
    requires size > 0 && forall c :: c in calls ==> c.Write?
    requires i < |Handed(calls, size)| - 1
    ensures var h := Handed(calls, size);
            h[i].Data? && 0 < |h[i].chunk| <= size && (i < |h| - 2 ==> |h[i].chunk| == size)
  {
    PartSizes(calls, size);
    AnswersSpell(calls, size);
  }

  // ---------------------------------------------------------------- the sink itself

  /** The sending half of the channel: the receiver is gone once it has taken `limit` items. */
  class Sender {
    const limit: nat
    var delivered: seq<StreamItem>

    constructor (limit: nat)
      ensures this.limit == limit && delivered == []
    {
      this.limit := limit;
      delivered := [];
    }

    method BlockingSend(item: StreamItem) returns (ok: bool)
      modifies this
      ensures ok == (|old(delivered)| < limit)
      ensures delivered == if ok then old(delivered) + [item] else old(delivered)
    {
      ok := |delivered| < limit;
      if ok {
        delivered := delivered + [item];
      }
    }
  }

  class ChannelWriter {
    var buffer: Bytes
    const chunkSize: nat
    const tx: Sender
    var hasFailed: bool
    ghost var plan: Plan  // what would have happened with a receiver that takes everything

    ghost predicate Valid()
      reads this, tx
    {
      && chunkSize > 0
      && tx.delivered == Take(plan.items, tx.limit)
      && (hasFailed <==> |plan.items| > tx.limit)
      && (!hasFailed ==> buffer == plan.buffer)
    }

    constructor (chunkSize: nat, tx: Sender)
      requires chunkSize > 0 && tx.delivered == []
      ensures Valid() && this.chunkSize == chunkSize && this.tx == tx && plan == Plan([], [])
    {
      this.chunkSize := chunkSize;
      this.tx := tx;
      buffer, hasFailed, plan := [], false, Plan([], []);
    }

    /** Buffers the bytes and sends every full chunk; a refused chunk is an error. */
    method Write(buf: Bytes) returns (ok: bool)
      requires Valid()
      modifies this, tx
      ensures Valid()
      ensures plan == Answer(old(plan), SinkCall.Write(buf), chunkSize)
      ensures !hasFailed ==> ok
      ensures !old(hasFailed) ==> (ok <==> !hasFailed)
    {
      ghost var goal := Answer(plan, SinkCall.Write(buf), chunkSize);
      ghost var failedBefore := hasFailed;
      buffer := buffer + buf;
      plan := plan.(buffer := plan.buffer + buf);
      GrowsTo(plan, chunkSize);
      while |buffer| >= chunkSize
        invariant Valid() && chunkSize > 0
        invariant hasFailed == failedBefore
        invariant CutFull(plan, chunkSize) == goal && plan.items <= goal.items
        decreases |buffer|
      {
        GrowsTo(plan, chunkSize);
        var chunk, remaining := buffer[..chunkSize], buffer[chunkSize..];
        buffer := remaining;
        var sent := tx.BlockingSend(Data(chunk));
        if !sent {
          hasFailed := true;
          plan := goal;
          return false;
        }
        plan := Plan(plan.items + [Data(chunk)], remaining);
        GrowsTo(plan, chunkSize);
      }
      GrowsTo(plan, chunkSize);
      plan := goal;
      ok := true;
    }

    /** Sends what is buffered, unless a send has failed before. */
    method Flush() returns (ok: bool)
      requires Valid()
      modifies this, tx
      ensures Valid()
      ensures plan == CutRest(old(plan))
      ensures ok <==> old(hasFailed) || !hasFailed
    {
      ok := true;
      if buffer != [] && !hasFailed {
        var chunk := buffer;
        buffer := [];
        ok := tx.BlockingSend(Data(chunk));
        hasFailed := !ok;
      }
      plan := CutRest(plan);
    }

    method Serve(call: SinkCall) returns (ok: bool)
      requires Valid()
      modifies this, tx
      ensures Valid()
      ensures plan == Answer(old(plan), call, chunkSize)
      ensures !hasFailed ==> ok
      ensures !old(hasFailed) ==> (ok <==> !hasFailed)
    {
      match call
      case Write(buf) => ok := Write(buf);
      case Flush => ok := Flush();
    }
  }

  lemma {:induction false} GrowsTo(p: Plan, size: nat)
    requires size > 0
    ensures p.items <= CutFull(p, size).items
    ensures |p.buffer| >= size ==> |CutFull(p, size).items| > |p.items|
    decreases |p.buffer|
  {
    if |p.buffer| >= size {
      GrowsTo(Plan(p.items + [Data(p.buffer[..size])], p.buffer[size..]), size);
    }
  }

  lemma {:induction false} AnswersGrow(calls: seq<SinkCall>, i: nat, size: nat)
    requires size > 0 && i <= |calls|
    ensures Answers(Plan([], []), calls[..i], size).items <= Answers(Plan([], []), calls, size).items
    decreases |calls|
  {
    if i < |calls| {
      var init := calls[..|calls| - 1];
      AnswersGrow(init, i, size);
      assert init[..i] == calls[..i];
      var p := Answers(Plan([], []), init, size);
      match calls[|calls| - 1]
      case Write(buf) => GrowsTo(p.(buffer := p.buffer + buf), size);
      case Flush =>
    } else {
      assert calls[..i] == calls;
    }
  }

  /** What the write task hands over: a serializer that fails of its own accord does not signal success. */
  function HandedOver(calls: seq<SinkCall>, size: nat, serializerFails: bool): seq<StreamItem>
    requires size > 0
  {
    if serializerFails then HandedChunks(calls, size) else Handed(calls, size)
  }

  /** The serializer's calls, up to the first error of the sink. */
  method Serialize(sink: ChannelWriter, calls: seq<SinkCall>) returns (ok: bool)
    requires sink.Valid() && sink.plan == Plan([], []) && sink.tx.delivered == []
    modifies sink, sink.tx
    ensures sink.Valid()
    ensures ok ==> sink.plan == Answers(Plan([], []), calls, sink.chunkSize)
    ensures !ok ==> sink.hasFailed && sink.plan.items <= Answers(Plan([], []), calls, sink.chunkSize).items
  {
    for i := 0 to |calls|
      invariant sink.Valid()
      invariant sink.plan == Answers(Plan([], []), calls[..i], sink.chunkSize)
    {
      assert calls[..i + 1][..i] == calls[..i];
      ok := sink.Serve(calls[i]);
      if !ok {
        AnswersGrow(calls, i + 1, sink.chunkSize);
        return;
      }
    }
    assert calls[..|calls|] == calls;
    ok := true;
  }

  /** A sink that has failed has delivered all that its receiver took of what was to come. */
  lemma FailedSinkDelivered(sent: seq<StreamItem>, planned: seq<StreamItem>, all: seq<StreamItem>, limit: nat)
    requires planned <= all && |planned| > limit && sent == Take(planned, limit)
    ensures sent == Take(all, limit) && |sent| == limit
    ensures sent == Take(all + [Success], limit)
  {
  }

  /**
   The write task: it serializes into the sink, stops at the first error of the sink or of the
   serializer, drops the sink and, without an error, signals success. Whenever the receiver leaves,
   what it got is a prefix of `HandedOver`; the task fails because of the serializer or because the
   receiver has left.
   */
  method WriteTask(calls: seq<SinkCall>, serializerFails: bool, chunkSize: nat, limit: nat) returns (ok: bool, tx: Sender)
    requires chunkSize > 0
    ensures tx.limit == limit
    ensures tx.delivered == Take(HandedOver(calls, chunkSize, serializerFails), limit)
    ensures serializerFails ==> !ok
    ensures !ok && !serializerFails ==> |tx.delivered| == limit
  {
    tx := new Sender(limit);
    var sink := new ChannelWriter(chunkSize, tx);
    var serialized := Serialize(sink, calls);
    ghost var planned := sink.plan.items;
    var _ := sink.Flush();
    if !serialized {
      FailedSinkDelivered(tx.delivered, planned, HandedChunks(calls, chunkSize), limit);
      return false, tx;
    }
    ok := !serializerFails;
    if ok {
      var _ := tx.BlockingSend(Success);
    }
  }

  lemma ChunksAreData(calls: seq<SinkCall>, size: nat)
    requires size > 0
    ensures Success !in HandedChunks(calls, size)
  {
    AnswersSpell(calls, size);
    CutRestSpells(Answers(Plan([], []), calls, size), Written(calls));
  }

  /** When the serializer fails, nothing is ever stored, however the upload's races resolve. */
  lemma FailedSerializerStoresNothing(calls: seq<SinkCall>, size: nat, schedule: seq<Event>)
    requires size > 0
    ensures var t := UploadRuns.Run(HandedOver(calls, size, true), schedule);
            t.outcome.storedObject == None && (t.phase == Returned ==> t.outcome.abortRequested)
  {
    ChunksAreData(calls, size);
    UploadRuns.NoSuccessNoObject(HandedOver(calls, size, true), schedule);
  }

  /** A receiver that got the success signal got every byte that was written. */
  lemma SuccessMeansEverything(calls: seq<SinkCall>, size: nat, limit: nat)
    requires size > 0
    ensures var got := Take(Handed(calls, size), limit);
            && (Success in got <==> limit >= |Handed(calls, size)|)
            && (Success in got ==> UploadRuns.SuccessAt(got, |got| - 1) && Flatten(Chunks(got, |got| - 1)) == Written(calls))
  {
    HandedIsWritten(calls, size);
    var h := Handed(calls, size);
    assert h[|h| - 1] == Success;
    if limit >= |h| {
      assert Take(h, limit) == h;
    }
  }

  /**
   End to end: whatever the serializer writes and flushes, and however the upload's races
   resolve, an upload that succeeds has stored exactly the bytes written.
   */
  lemma StoredIsWritten(calls: seq<SinkCall>, size: nat, schedule: seq<Event>)
    requires size > 0
    ensures var o := UploadRuns.Run(Handed(calls, size), schedule).outcome;
            o.storedObject.Some? ==> o.storedObject.value == Written(calls)
  {
    var h := Handed(calls, size);
    HandedIsWritten(calls, size);
    UploadRuns.RunKeepsInv(h, schedule);
    UploadRuns.CompletionIsFaithful(h, schedule);
    if UploadRuns.Run(h, schedule).outcome.storedObject.Some? {
      var n: nat :| UploadRuns.SuccessAt(h, n) &&
        UploadRuns.Run(h, schedule).outcome.storedObject.value == Flatten(Chunks(h, n));
      assert n == |h| - 1;
    }
  }
}
