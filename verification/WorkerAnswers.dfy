/**
 What a worker answers and when it ends (`handle_command`, `send_media`, `send_heartbeat`
 and the loop of crates/zephyrvox-voice/src/worker.rs).
 */
module WorkerAnswers {
  import opened Common
  import opened Codec
  import opened Worker
  import Replay

  /** Media the session was negotiated for. */
  predicate InContract(c: Codec, streamType: u8, payload: seq<u8>) {
    c.allowed[streamType] && |payload| <= c.maxPayload
  }

  /** The packets handed to the socket between two states. */
  function NewPackets(w: State, w': State): Option<seq<Emission>> {
    if w.emitted <= w'.emitted then Some(w'.emitted[|w.emitted|..]) else None
  }

  /** Exactly one packet was handed over, and the socket took it. */
  predicate WroteOne(w: State, w': State) {
    var packets := NewPackets(w, w');
    packets.Some? && |packets.value| == 1 && packets.value[0].written
  }

  /** The caller is told that all went well exactly when one packet was written. */
  lemma OkMeansWritten(c: Codec, w: State, streamType: u8, payload: seq<u8>, writing: Writing)
    ensures var (w', answer) := SendMedia(c, w, streamType, payload, writing);
            answer == Some(Ok(())) <==> WroteOne(w, w')
    ensures var (w', answer) := SendHeartbeat(c, w, writing);
            answer == Some(Ok(())) <==> WroteOne(w, w')
  {
    hide EncodeMedia, EncodeHeartbeat, ValidateMedia;
  }

  /** What the caller of a send is told, in terms of the contract, the number left and the write. */
  lemma SendAnswersExactly(c: Codec, w: State, streamType: u8, payload: seq<u8>, writing: Writing)
    requires Negotiated(c) && 1 <= w.sequence
    ensures var answer := SendMedia(c, w, streamType, payload, writing).1;
      if !InContract(c, streamType, payload) then
        answer == Some(Err(Refused(if streamType == HEARTBEAT_STREAM_TYPE then HeartbeatStream
                                   else if !c.allowed[streamType] then UnknownStreamType(streamType)
                                   else PayloadTooLarge(|payload|, c.maxPayload))))
      else if w.sequence == U64_MAX then answer == Some(Err(SequenceExhausted))
      else if writing.Written? then answer == Some(Ok(()))
      else if writing.Failed? then answer == Some(Err(Transport))
      else answer == None
  {
    if InContract(c, streamType, payload) && w.sequence < U64_MAX {
      hide EncodeMedia;
      MediaRoundTrip(c, w.sequence, CounterIn(w.counters, streamType), streamType, payload);
    }
  }

  lemma HeartbeatAnswersExactly(c: Codec, w: State, writing: Writing)
    requires Negotiated(c) && 1 <= w.sequence
    ensures var answer := SendHeartbeat(c, w, writing).1;
      if w.sequence == U64_MAX then answer == Some(Err(SequenceExhausted))
      else if writing.Written? then answer == Some(Ok(()))
      else if writing.Failed? then answer == Some(Err(Transport))
      else answer == None
  {
    if w.sequence < U64_MAX {
      hide EncodeHeartbeat;
      HeartbeatRoundTrip(c, w.sequence);
    }
  }

  /** How the worker's status reads once the stop channel has cut it short. */
  function AfterStop(stop: Stop): Status {
    match stop
    case Changed(Some(Revoke(reason))) => RevokedFor(reason)
    case _ => Disconnected
  }

  /** What becomes of a worker that has to hand one packet over. */
  function AfterWrite(w: State, writing: Writing): Status {
    match writing
    case StopBefore(stop) => AfterStop(stop)
    case Written => if w.sequence < U64_MAX then Active else Disconnected
    case Failed => Disconnected
    case StopDuring(stop) => if w.sequence < U64_MAX then AfterStop(stop) else Disconnected
  }

  /** The packet a send is meant to make. */
  predicate MediaPacket(c: Codec, w: State, e: Emission, streamType: u8, payload: seq<u8>) {
    && e.sequence == w.sequence && e.streamType == streamType && e.payload == payload
    && e.channelSeq == |WrittenOn(w.emitted, streamType)| % U16_SIZE
    && Decode(c, e.datagram, true)
    == Ok(Packet(c.sessionId, e.sequence, streamType, e.channelSeq, 0, None, payload, None))
  }

  /**
   A send within the contract hands over exactly one packet, carrying the stream's count of
   packets written so far; the worker goes on exactly when it is written.
   */
  lemma SendInContract(c: Codec, inputs: seq<Input>, streamType: u8, payload: seq<u8>, writing: Writing)
    requires Negotiated(c) && InContract(c, streamType, payload) && !writing.StopBefore?
    requires Run(c, inputs).status.Active? && Run(c, inputs).sequence < U64_MAX
    ensures var w, w' := Run(c, inputs), Run(c, inputs + [Send(streamType, payload, writing)]);
      && var packets := NewPackets(w, w');
      && packets.Some? && |packets.value| == 1
      && MediaPacket(c, w, packets.value[0], streamType, payload)
      && packets.value[0].written == writing.Written?
      && w'.sequence == w.sequence + 1
      && w'.status == AfterWrite(w, writing)
  {
    hide EncodeMedia, Decode;
    var w := Run(c, inputs);
    ReachableOutbound(c, inputs);
    assert StreamCounts(w.emitted, w.counters, streamType) by { assert !c.allowed[HEARTBEAT_STREAM_TYPE]; }
    SequenceIsPositive(c, w);
    MediaRoundTrip(c, w.sequence, CounterIn(w.counters, streamType), streamType, payload);
    RunAppend(c, inputs, Send(streamType, payload, writing));
  }

  lemma SequenceIsPositive(c: Codec, w: State)
    requires OutboundSound(c, w)
    ensures w.sequence >= 1
  {
  }

  lemma RunAppend(c: Codec, inputs: seq<Input>, input: Input)
    ensures Run(c, inputs + [input]) == Step(c, Run(c, inputs), input)
  {
    hide Step;
    assert (inputs + [input])[..|inputs|] == inputs;
  }

  /** A send outside the contract is only an answer: the worker is as it was. */
  lemma RefusedSendChangesNothing(c: Codec, w: State, streamType: u8, payload: seq<u8>, writing: Writing)
    requires Negotiated(c) && w.status.Active? && !InContract(c, streamType, payload)
    requires !writing.StopBefore?
    ensures Step(c, w, Send(streamType, payload, writing)) == w
  {
  }

  /** A heartbeat that is due is one control packet; any failure to write it ends the worker. */
  lemma HeartbeatGoesOut(c: Codec, inputs: seq<Input>, writing: Writing)
    requires Negotiated(c) && !writing.StopBefore?
    requires Run(c, inputs).status.Active? && Run(c, inputs).sequence < U64_MAX
    ensures var w, w' := Run(c, inputs), Run(c, inputs + [Tick(true, writing)]);
      && var packets := NewPackets(w, w');
      && packets.Some? && |packets.value| == 1
      && var e := packets.value[0];
      && e.sequence == w.sequence && e.written == writing.Written?
      && Decode(c, e.datagram, true)
      == Ok(Packet(c.sessionId, e.sequence, HEARTBEAT_STREAM_TYPE, 0, 0, None, [], Some(Heartbeat)))
      && w'.counters == w.counters && w'.sequence == w.sequence + 1
      && w'.status == AfterWrite(w, writing)
  {
    hide EncodeHeartbeat, Decode;
    var w := Run(c, inputs);
    ReachableOutbound(c, inputs);
    SequenceIsPositive(c, w);
    HeartbeatRoundTrip(c, w.sequence);
    RunAppend(c, inputs, Tick(true, writing));
  }

  /** An accepted revocation among the arrivals. */
  predicate Revokes(c: Codec, w: State, bytes: seq<u8>) {
    var p := Decode(c, bytes, false);
    && p.Ok? && p.value.control.Some? && p.value.control.value.Revocation?
    && Fresh(w.arrivals, p.value.sequence)
  }

  /** What becomes of an active worker. */
  function NextStatus(c: Codec, w: State, input: Input): Status {
    match input
    case Start(_) => Active
    case Send(streamType, payload, writing) =>
      if InContract(c, streamType, payload) || writing.StopBefore? then AfterWrite(w, writing) else Active
    case Tick(due, writing) => if due then AfterWrite(w, writing) else Active
    case Datagram(bytes) =>
      if Revokes(c, w, bytes) then RevokedFor(Decode(c, bytes, false).value.control.value.reason) else Active
    case ReceiveFails => Disconnected
    case CommandsClosed => Disconnected
    case Stopped(stop) => if stop == Changed(None) then Active else AfterStop(stop)
  }

  lemma SendingKeepsStatus(c: Codec, w: State, streamType: u8, payload: seq<u8>, writing: Writing)
    ensures SendMedia(c, w, streamType, payload, writing).0.status == w.status
    ensures SendHeartbeat(c, w, writing).0.status == w.status
  {
    hide EncodeMedia, EncodeHeartbeat, ValidateMedia;
  }

  lemma SenderEnds(c: Codec, w: State, streamType: u8, payload: seq<u8>, writing: Writing)
    requires Negotiated(c) && w.status.Active? && 1 <= w.sequence
    ensures HandleSend(c, w, streamType, payload, writing).status
         == NextStatus(c, w, Send(streamType, payload, writing))
  {
    hide SendMedia, InContract;
    SendAnswersExactly(c, w, streamType, payload, writing);
    SendingKeepsStatus(c, w, streamType, payload, writing);
  }

  lemma TickerEnds(c: Codec, w: State, due: bool, writing: Writing)
    requires Negotiated(c) && w.status.Active? && 1 <= w.sequence
    ensures HandleTick(c, w, due, writing).status == NextStatus(c, w, Tick(due, writing))
  {
    hide SendHeartbeat;
    HeartbeatAnswersExactly(c, w, writing);
    SendingKeepsStatus(c, w, 0, [], writing);
  }

  lemma ReaderEnds(c: Codec, w: State, bytes: seq<u8>)
    requires w.status.Active? && w.window == Replay.AdmitAll(w.arrivals)
    ensures Step(c, w, Datagram(bytes)).status == NextStatus(c, w, Datagram(bytes))
  {
    hide Decode;
    var p := Decode(c, bytes, false);
    if p.Ok? {
      AcceptedFields(c, bytes);
      Replay.DecisionByHistory(w.arrivals, p.value.sequence);
    }
  }

  /**
   Over every run, whatever comes next: whether the worker goes on, and as what it ends.
   */
  lemma StatusExactly(c: Codec, inputs: seq<Input>, input: Input)
    requires Negotiated(c) && Run(c, inputs).status.Active?
    ensures Run(c, inputs + [input]).status == NextStatus(c, Run(c, inputs), input)
  {
    hide Run, HandleSend, HandleTick, HandleInbound, Decode;
    var w := Run(c, inputs);
    RunAppend(c, inputs, input);
    ReachableOutbound(c, inputs);
    ReachableInbound(c, inputs);
    SequenceIsPositive(c, w);
    match input {
      case Send(streamType, payload, writing) => SenderEnds(c, w, streamType, payload, writing);
      case Tick(due, writing) => TickerEnds(c, w, due, writing);
      case Datagram(bytes) => ReaderEnds(c, w, bytes);
      case _ =>
    }
  }

  /** The worker becomes active exactly when its first heartbeat is taken by the socket. */
  lemma StartsExactly(c: Codec, taken: bool)
    requires Negotiated(c)
    ensures var w := Run(c, [Start(taken)]);
      && w.status == (if taken then Active else Disconnected)
      && |w.emitted| == 1 && w.emitted[0].written == taken && w.emitted[0].sequence == 1
  {
    hide EncodeHeartbeat;
    assert [] + [Start(taken)] == [Start(taken)];
    RunAppend(c, [], Start(taken));
    HeartbeatRoundTrip(c, 1);
  }
}
