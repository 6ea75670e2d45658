/**
 The worker of one voice session (crates/zephyrvox-voice/src/worker.rs), as a step on
 its state for each thing the select loop can receive. What the socket and the stop
 channel do at an await is part of the input. `WorkerTask.dfy` is the loop itself.
 */
module Worker {
  import opened Common
  import opened Codec
  import Replay

  datatype Status = Joining | Active | Disconnected | RevokedFor(reason: RevocationReason)

  datatype Termination = Close | Disconnect | Revoke(reason: RevocationReason)

  /** What `stop_rx.changed()` came back with: closed, or the request then current. */
  datatype Stop = ChannelClosed | Changed(request: Option<Termination>)

  /** How an attempt to write ends: the stop channel is polled first, and again while pending. */
  datatype Writing = Written | Failed | StopBefore(stop: Stop) | StopDuring(stop: Stop)

  /** One datagram handed to the socket; `written` when the socket took it. */
  datatype Emission = Emission(
    sequence: u64, streamType: u8, channelSeq: u16, payload: seq<u8>, datagram: seq<u8>,
    written: bool)

  datatype Media = Media(
    speaker: u64, streamType: u8, channelSeq: u16, sequence: u64, payload: seq<u8>)

  datatype State = State(
    status: Status,
    /** The next transport sequence. */
    sequence: u64,
    counters: map<u8, u16>,
    window: Replay.Window,
    /** Every datagram handed to the socket, in order. */
    emitted: seq<Emission>,
    /** Every media frame handed to receivers, in order. */
    published: seq<Media>,
    /** The transport sequences of the datagrams that decoded, in order of arrival. */
    arrivals: seq<u64>)

  const INITIAL := State(Joining, 1, map[], Replay.EMPTY, [], [], [])

  datatype SendError = Refused(error: PacketError) | Transport | SequenceExhausted

  datatype Input =
    /** The first heartbeat, before the loop; no stop is looked at. */
    | Start(taken: bool)
    | Send(streamType: u8, payload: seq<u8>, writing: Writing)
    | Tick(due: bool, writing: Writing)
    | Datagram(bytes: seq<u8>)
    | ReceiveFails
    | CommandsClosed
    | Stopped(stop: Stop)

  predicate IsTerminal(s: Status) {
    s.Disconnected? || s.RevokedFor?
  }

  function Finish(w: State, status: Status): State {
    w.(status := status)
  }

  /** `status_after_stop` */
  function StatusAfterStop(stop: Stop): (status: Status)
    ensures IsTerminal(status)
    ensures status.RevokedFor? <==> stop.Changed? && stop.request.Some? && stop.request.value.Revoke?
    ensures status.RevokedFor? ==> status.reason == stop.request.value.reason
  {
    if stop.Changed? && stop.request.Some? && stop.request.value.Revoke?
    then RevokedFor(stop.request.value.reason)
    else Disconnected
  }

  /** The next channel sequence of a stream; a stream not yet used starts at zero. */
  function CounterIn(counters: map<u8, u16>, t: u8): u16 {
    if t in counters then counters[t] else 0
  }

  /** `send_media`; `None` when a stop cut the write short. */
  function SendMedia(c: Codec, w: State, streamType: u8, payload: seq<u8>, writing: Writing)
    : (State, Option<Result<(), SendError>>)
  {
    var refused := ValidateMedia(c, streamType, |payload|);
    if refused.Some? then (w, Some(Err(Refused(refused.value))))
    else
      var channelSeq := CounterIn(w.counters, streamType);
      var w1 := w.(counters := w.counters[streamType := channelSeq]);
      if w.sequence == U64_MAX then (w1, Some(Err(SequenceExhausted)))
      else
        var w2 := w1.(sequence := w.sequence + 1);
        var packet := EncodeMedia(c, w.sequence, channelSeq, streamType, payload);
        if packet.Err? then (w2, Some(Err(Refused(packet.error))))
        else
          var e := Emission(w.sequence, streamType, channelSeq, payload, packet.value,
                            writing.Written?);
          var w3 := w2.(emitted := w.emitted + [e]);
          match writing
          case Written =>
            (w3.(counters := w1.counters[streamType := (channelSeq + 1) % U16_SIZE]), Some(Ok(())))
          case Failed => (w3, Some(Err(Transport)))
          case _ => (w3, None)
  }

  /** `send_heartbeat` */
  function SendHeartbeat(c: Codec, w: State, writing: Writing)
    : (State, Option<Result<(), SendError>>)
  {
    if w.sequence == U64_MAX then (w, Some(Err(SequenceExhausted)))
    else
      var w1 := w.(sequence := w.sequence + 1);
      var packet := EncodeHeartbeat(c, w.sequence);
      if packet.Err? then (w1, Some(Err(Refused(packet.error))))
      else
        var e := Emission(w.sequence, HEARTBEAT_STREAM_TYPE, 0, [], packet.value, writing.Written?);
        var w2 := w1.(emitted := w.emitted + [e]);
        match writing
        case Written => (w2, Some(Ok(())))
        case Failed => (w2, Some(Err(Transport)))
        case _ => (w2, None)
  }

  /** `handle_command`: a refused packet is only an answer, a failed write ends the worker. */
  function HandleSend(c: Codec, w: State, streamType: u8, payload: seq<u8>, writing: Writing)
    : State
  {
    if writing.StopBefore? then Finish(w, StatusAfterStop(writing.stop))
    else
      var (w', answer) := SendMedia(c, w, streamType, payload, writing);
      match answer
      case None => if writing.StopDuring? then Finish(w', StatusAfterStop(writing.stop)) else w'
      case Some(Err(Transport)) => Finish(w', Disconnected)
      case Some(Err(SequenceExhausted)) => Finish(w', Disconnected)
      case Some(_) => w'
  }

  /** The heartbeat arm of the loop: any error ends the worker. */
  function HandleTick(c: Codec, w: State, due: bool, writing: Writing): State {
    if !due then w
    else if writing.StopBefore? then Finish(w, StatusAfterStop(writing.stop))
    else
      var (w', answer) := SendHeartbeat(c, w, writing);
      match answer
      case None => if writing.StopDuring? then Finish(w', StatusAfterStop(writing.stop)) else w'
      case Some(Err(_)) => Finish(w', Disconnected)
      case Some(Ok(_)) => w'
  }

  /** `handle_inbound` */
  function HandleInbound(c: Codec, w: State, bytes: seq<u8>): State {
    var decoded := Decode(c, bytes, false);
    if decoded.Err? then w
    else
      var p := decoded.value;
      var w1 := w.(window := Replay.Admit(w.window, p.sequence), arrivals := w.arrivals + [p.sequence]);
      if !Replay.Admissible(w.window, p.sequence) then w1
      else
        match p.control
        case Some(Heartbeat) => w1
        case Some(Revocation(reason)) => Finish(w1, RevokedFor(reason))
        case None =>
          if p.speaker.None? then w1
          else
            var media := Media(p.speaker.value, p.streamType, p.channelSeq, p.sequence, p.payload);
            w1.(published := w.published + [media])
  }

  /** The start, then one turn of the loop per input; a finished worker reads nothing. */
  function Step(c: Codec, w: State, input: Input): State {
    if w.status.Joining? then
      if !input.Start? then w
      else
        var (w', answer) := SendHeartbeat(c, w, if input.taken then Written else Failed);
        if answer == Some(Ok(())) then w'.(status := Active) else Finish(w', Disconnected)
    else if !w.status.Active? then w
    else
      match input
      case Start(_) => w
      case Send(streamType, payload, writing) => HandleSend(c, w, streamType, payload, writing)
      case Tick(due, writing) => HandleTick(c, w, due, writing)
      case Datagram(bytes) => HandleInbound(c, w, bytes)
      case ReceiveFails => Finish(w, Disconnected)
      case CommandsClosed => Finish(w, Disconnected)
      case Stopped(stop) =>
        if stop == Changed(None) then w else Finish(w, StatusAfterStop(stop))
  }

  function Run(c: Codec, inputs: seq<Input>): State {
    if |inputs| == 0 then INITIAL
    else Step(c, Run(c, inputs[..|inputs| - 1]), inputs[|inputs| - 1])
  }

  // ----- what goes out ---------------------------------------------------------------------

  /** Strictly increasing from 1, all below `bound`. */
  predicate Rising(emitted: seq<Emission>, bound: u64) {
    if |emitted| == 0 then bound >= 1
    else
      var last := emitted[|emitted| - 1].sequence;
      1 <= last < bound && Rising(emitted[..|emitted| - 1], last)
  }

  /** The channel sequences of the packets written on one stream, in order. */
  function WrittenOn(emitted: seq<Emission>, streamType: u8): seq<u16> {
    if |emitted| == 0 then []
    else
      var rest, last := WrittenOn(emitted[..|emitted| - 1], streamType), emitted[|emitted| - 1];
      if last.written && last.streamType == streamType then rest + [last.channelSeq] else rest
  }

  /** 0, 1, 2, … modulo 2^16 */
  ghost predicate CountsUp(channel: seq<u16>) {
    forall k :: 0 <= k < |channel| ==> channel[k] == k % U16_SIZE
  }

  /** The datagram is the encoding of the fields. */
  predicate Faithful(c: Codec, e: Emission) {
    if e.streamType == HEARTBEAT_STREAM_TYPE
    then e.channelSeq == 0 && e.payload == [] && EncodeHeartbeat(c, e.sequence) == Ok(e.datagram)
    else EncodeMedia(c, e.sequence, e.channelSeq, e.streamType, e.payload) == Ok(e.datagram)
  }

  ghost predicate StreamCounts(emitted: seq<Emission>, counters: map<u8, u16>, t: u8) {
    && CountsUp(WrittenOn(emitted, t))
    && CounterIn(counters, t) == |WrittenOn(emitted, t)| % U16_SIZE
  }

  ghost predicate StreamsCount(emitted: seq<Emission>, counters: map<u8, u16>) {
    forall t: u8 :: t != HEARTBEAT_STREAM_TYPE ==> StreamCounts(emitted, counters, t)
  }

  ghost predicate OutboundSound(c: Codec, w: State) {
    && Rising(w.emitted, w.sequence)
    && StreamsCount(w.emitted, w.counters)
    && AllFaithful(c, w.emitted)
  }

  ghost predicate AllFaithful(c: Codec, emitted: seq<Emission>) {
    forall e :: e in emitted ==> Faithful(c, e)
  }

  lemma FaithfulAppend(c: Codec, emitted: seq<Emission>, e: Emission)
    requires AllFaithful(c, emitted) && Faithful(c, e)
    ensures AllFaithful(c, emitted + [e])
  {
  }

  lemma {:induction false} RisingWiden(emitted: seq<Emission>, low: u64, high: u64)
    requires Rising(emitted, low) && low <= high
    ensures Rising(emitted, high)
  {
  }

  lemma RisingAppend(emitted: seq<Emission>, e: Emission)
    requires Rising(emitted, e.sequence) && e.sequence < U64_MAX
    ensures Rising(emitted + [e], e.sequence + 1)
  {
    assert (emitted + [e])[..|emitted|] == emitted;
    if |emitted| == 0 {
    }
  }

  lemma {:induction false} RisingPairs(emitted: seq<Emission>, bound: u64, i: nat, j: nat)
    requires Rising(emitted, bound) && i < j < |emitted|
    ensures 1 <= emitted[i].sequence < emitted[j].sequence < bound
    decreases |emitted|
  {
    var n := |emitted| - 1;
    if j < n {
      RisingPairs(emitted[..n], emitted[n].sequence, i, j);
    } else if i < n - 1 {
      RisingPairs(emitted[..n], emitted[n].sequence, i, n - 1);
    }
  }

  lemma WrittenAppend(emitted: seq<Emission>, e: Emission, t: u8)
    ensures WrittenOn(emitted + [e], t)
         == if e.written && e.streamType == t then WrittenOn(emitted, t) + [e.channelSeq]
            else WrittenOn(emitted, t)
  {
    assert (emitted + [e])[..|emitted|] == emitted;
  }

  /** The counter after one more packet has been handed to the socket. */
  function Advanced(e: Emission): u16 {
    if e.written then (e.channelSeq + 1) % U16_SIZE else e.channelSeq
  }

  lemma EmitKeepsStream(emitted: seq<Emission>, counters: map<u8, u16>, e: Emission, t: u8)
    requires StreamCounts(emitted, counters, t)
    requires e.streamType == t ==> e.channelSeq == CounterIn(counters, t)
    ensures e.streamType == t ==> StreamCounts(emitted + [e], counters[t := Advanced(e)], t)
    ensures e.streamType != t ==> StreamCounts(emitted + [e], counters, t)
  {
    WrittenAppend(emitted, e, t);
  }

  /** Handing one more packet to the socket keeps every stream counting. */
  lemma EmitKeepsStreams(emitted: seq<Emission>, counters: map<u8, u16>, e: Emission,
                         counters': map<u8, u16>)
    requires StreamsCount(emitted, counters)
    requires e.streamType != HEARTBEAT_STREAM_TYPE ==>
               && e.channelSeq == CounterIn(counters, e.streamType)
               && counters' == counters[e.streamType := Advanced(e)]
    requires e.streamType == HEARTBEAT_STREAM_TYPE ==> counters' == counters
    ensures StreamsCount(emitted + [e], counters')
  {
    hide CountsUp, WrittenOn;
    forall t: u8 | t != HEARTBEAT_STREAM_TYPE ensures StreamCounts(emitted + [e], counters', t) {
      EmitKeepsStream(emitted, counters, e, t);
    }
  }

  /** Looking a counter up inserts a zero, which changes no count. */
  lemma LookupKeepsStreams(emitted: seq<Emission>, counters: map<u8, u16>, t: u8)
    requires StreamsCount(emitted, counters)
    ensures StreamsCount(emitted, counters[t := CounterIn(counters, t)])
  {
    hide CountsUp, WrittenOn;
    var looked := counters[t := CounterIn(counters, t)];
    forall u: u8 | u != HEARTBEAT_STREAM_TYPE ensures StreamCounts(emitted, looked, u) {
      assert StreamCounts(emitted, counters, u);
    }
  }

  lemma SendMediaIsSound(c: Codec, w: State, streamType: u8, payload: seq<u8>, writing: Writing)
    requires OutboundSound(c, w)
    ensures OutboundSound(c, SendMedia(c, w, streamType, payload, writing).0)
  {
    hide EncodeMedia, EncodeHeartbeat, Rising, StreamsCount, AllFaithful;
    LookupKeepsStreams(w.emitted, w.counters, streamType);
    var w' := SendMedia(c, w, streamType, payload, writing).0;
    if w'.emitted != w.emitted {
      var e := w'.emitted[|w.emitted|];
      RisingAppend(w.emitted, e);
      FaithfulAppend(c, w.emitted, e);
      var looked := w.counters[streamType := CounterIn(w.counters, streamType)];
      assert streamType != HEARTBEAT_STREAM_TYPE;
      assert looked[streamType := w'.counters[streamType]] == w'.counters;
      EmitKeepsStreams(w.emitted, looked, e, w'.counters);
    } else if w'.sequence != w.sequence {
      RisingWiden(w.emitted, w.sequence, w'.sequence);
    }
  }

  lemma SendHeartbeatIsSound(c: Codec, w: State, writing: Writing)
    requires OutboundSound(c, w)
    ensures OutboundSound(c, SendHeartbeat(c, w, writing).0)
  {
    hide EncodeHeartbeat, EncodeMedia, Rising, StreamsCount, AllFaithful;
    var w' := SendHeartbeat(c, w, writing).0;
    if w'.emitted != w.emitted {
      var e := w'.emitted[|w.emitted|];
      RisingAppend(w.emitted, e);
      FaithfulAppend(c, w.emitted, e);
      EmitKeepsStreams(w.emitted, w.counters, e, w'.counters);
    } else if w'.sequence != w.sequence {
      RisingWiden(w.emitted, w.sequence, w'.sequence);
    }
  }

  lemma StepKeepsOutbound(c: Codec, w: State, input: Input)
    requires OutboundSound(c, w)
    ensures OutboundSound(c, Step(c, w, input))
  {
    hide SendMedia, SendHeartbeat, Rising, StreamsCount, AllFaithful, Decode;
    match input
    case Start(taken) => SendHeartbeatIsSound(c, w, if taken then Written else Failed);
    case Send(streamType, payload, writing) => SendMediaIsSound(c, w, streamType, payload, writing);
    case Tick(_, writing) => SendHeartbeatIsSound(c, w, writing);
    case _ =>
  }

  lemma {:induction false} ReachableOutbound(c: Codec, inputs: seq<Input>)
    ensures OutboundSound(c, Run(c, inputs))
  {
    if |inputs| == 0 {
      assert forall t: u8 :: StreamCounts([], map[], t);
    } else {
      ReachableOutbound(c, inputs[..|inputs| - 1]);
      StepKeepsOutbound(c, Run(c, inputs[..|inputs| - 1]), inputs[|inputs| - 1]);
    }
  }

  /**
   Over any run, whatever fails or is cut short: transport sequences strictly increase
   within [1, 2^64 - 2], so no nonce is used twice.
   */
  lemma NoncesNeverRepeat(c: Codec, inputs: seq<Input>, i: nat, j: nat)
    requires i < j < |Run(c, inputs).emitted|
    ensures var e := Run(c, inputs).emitted;
            && 1 <= e[i].sequence < e[j].sequence <= U64_MAX - 1
            && Nonce(e[i].sequence) != Nonce(e[j].sequence)
  {
    ReachableOutbound(c, inputs);
    var w := Run(c, inputs);
    RisingPairs(w.emitted, w.sequence, i, j);
    if Nonce(w.emitted[i].sequence) == Nonce(w.emitted[j].sequence) {
      NonceInjective(w.emitted[i].sequence, w.emitted[j].sequence);
    }
  }

  /** The packets written on a media stream carry 0, 1, 2, … modulo 2^16: failures skip nothing. */
  lemma StreamsCountFromZero(c: Codec, inputs: seq<Input>, streamType: u8)
    requires streamType != HEARTBEAT_STREAM_TYPE
    ensures CountsUp(WrittenOn(Run(c, inputs).emitted, streamType))
  {
    ReachableOutbound(c, inputs);
    var w := Run(c, inputs);
    assert StreamCounts(w.emitted, w.counters, streamType);
  }

  /** What the relay decodes from each emission is what the worker meant to send. */
  lemma EmissionsDecode(c: Codec, inputs: seq<Input>, e: Emission)
    requires Negotiated(c) && e in Run(c, inputs).emitted
    ensures var p := Decode(c, e.datagram, true);
            && p.Ok? && p.value.sequence == e.sequence && p.value.streamType == e.streamType
            && p.value.channelSeq == e.channelSeq && p.value.payload == e.payload
            && (p.value.control == Some(Heartbeat) <==> e.streamType == HEARTBEAT_STREAM_TYPE)
  {
    hide Decode;
    ReachableOutbound(c, inputs);
    assert Faithful(c, e);
    HeartbeatRoundTrip(c, e.sequence);
    MediaRoundTrip(c, e.sequence, e.channelSeq, e.streamType, e.payload);
  }

  // ----- what comes in ---------------------------------------------------------------------

  /** Each published frame is of an accepted sequence, and no two are of the same. */
  ghost predicate InboundSound(w: State) {
    && w.window == Replay.AdmitAll(w.arrivals)
    && (forall k :: 0 <= k < |w.published| ==> w.published[k].sequence in w.window.accepted)
    && (forall k, l :: 0 <= k < l < |w.published| ==>
          w.published[k].sequence != w.published[l].sequence)
  }

  lemma InboundKeeps(c: Codec, w: State, bytes: seq<u8>)
    requires InboundSound(w)
    ensures InboundSound(HandleInbound(c, w, bytes))
  {
    hide Decode;
    var w' := HandleInbound(c, w, bytes);
    if w'.arrivals != w.arrivals {
      assert w'.arrivals[..|w.arrivals|] == w.arrivals;
      var s := w'.arrivals[|w.arrivals|];
      if Replay.Admissible(w.window, s) && s in w.window.accepted {
        Replay.WindowTracksArrivals(w.arrivals);
        assert false;
      }
    }
  }

  /** Sending does not touch the inbound half. */
  lemma SendsLeaveInbound(c: Codec, w: State, input: Input)
    requires !input.Datagram?
    ensures var w' := Step(c, w, input);
            w'.window == w.window && w'.arrivals == w.arrivals && w'.published == w.published
  {
    hide EncodeMedia, EncodeHeartbeat, ValidateMedia;
  }

  lemma {:induction false} ReachableInbound(c: Codec, inputs: seq<Input>)
    ensures InboundSound(Run(c, inputs))
  {
    if |inputs| > 0 {
      var n := |inputs| - 1;
      ReachableInbound(c, inputs[..n]);
      if inputs[n].Datagram? {
        InboundKeeps(c, Run(c, inputs[..n]), inputs[n].bytes);
      } else {
        SendsLeaveInbound(c, Run(c, inputs[..n]), inputs[n]);
      }
    }
  }

  /** Not seen before, and less than 128 behind the highest sequence to arrive. */
  predicate Fresh(arrivals: seq<u64>, sequence: u64) {
    sequence !in arrivals && Replay.Highest(arrivals) - sequence < Replay.WINDOW
  }

  /** The frame of a media packet that a receiver is to get. */
  function Published(p: Result<Packet, PacketError>, arrivals: seq<u64>): seq<Media> {
    if p.Ok? && p.value.control == None && p.value.speaker.Some? && Fresh(arrivals, p.value.sequence)
    then [Media(p.value.speaker.value, p.value.streamType, p.value.channelSeq, p.value.sequence,
                p.value.payload)]
    else []
  }

  /**
   Which datagrams are published: media that decodes and whose sequence is fresh among
   the arrivals, with its own fields. A datagram that does not decode changes nothing,
   the window included.
   */
  lemma PublishedExactly(c: Codec, inputs: seq<Input>, bytes: seq<u8>)
    requires Run(c, inputs).status.Active?
    ensures var w := Run(c, inputs);
            var w', p := Step(c, w, Datagram(bytes)), Decode(c, bytes, false);
            && (p.Err? ==> w' == w)
            && (p.Ok? && p.value.control == None ==> p.value.speaker.Some?)
            && w'.published == w.published + Published(p, w.arrivals)
  {
    hide Decode;
    ReachableInbound(c, inputs);
    var w, p := Run(c, inputs), Decode(c, bytes, false);
    if p.Ok? {
      AcceptedFields(c, bytes);
      Replay.DecisionByHistory(w.arrivals, p.value.sequence);
    }
  }

  lemma AcceptedFields(c: Codec, bytes: seq<u8>)
    requires Decode(c, bytes, false).Ok?
    ensures Decode(c, bytes, false).value.sequence != 0
    ensures Decode(c, bytes, false).value.control == None ==>
              Decode(c, bytes, false).value.speaker.Some?
  {
  }

  /** No transport sequence is published twice. */
  lemma PublishedOnce(c: Codec, inputs: seq<Input>, k: nat, l: nat)
    requires k < l < |Run(c, inputs).published|
    ensures Run(c, inputs).published[k].sequence != Run(c, inputs).published[l].sequence
  {
    ReachableInbound(c, inputs);
  }

  // ----- the end ---------------------------------------------------------------------------

  /** A finished worker stays as it is: nothing more is sent, published or recorded. */
  lemma {:induction false} FinishedStaysFinished(c: Codec, inputs: seq<Input>, more: seq<Input>)
    requires IsTerminal(Run(c, inputs).status)
    ensures Run(c, inputs + more) == Run(c, inputs)
    decreases |more|
  {
    hide HandleSend, HandleTick, HandleInbound, SendHeartbeat;
    if |more| == 0 {
      assert inputs + more == inputs;
    } else {
      var n := |more| - 1;
      FinishedStaysFinished(c, inputs, more[..n]);
      assert (inputs + more)[..|inputs| + n] == inputs + more[..n];
    }
  }

  /** An accepted revocation ends the worker with its reason: nothing is published after it. */
  lemma RevocationIsFinal(c: Codec, inputs: seq<Input>, bytes: seq<u8>, more: seq<Input>)
    requires Run(c, inputs).status.Active?
    requires Decode(c, bytes, false).Ok?
    requires Decode(c, bytes, false).value.control.Some?
          && Decode(c, bytes, false).value.control.value.Revocation?
    requires Fresh(Run(c, inputs).arrivals, Decode(c, bytes, false).value.sequence)
    ensures var w := Run(c, inputs + [Datagram(bytes)] + more);
            && w.status == RevokedFor(Decode(c, bytes, false).value.control.value.reason)
            && w.published == Run(c, inputs).published && w.emitted == Run(c, inputs).emitted
  {
    hide Decode;
    ReachableInbound(c, inputs);
    AcceptedFields(c, bytes);
    Replay.DecisionByHistory(Run(c, inputs).arrivals, Decode(c, bytes, false).value.sequence);
    var ended := inputs + [Datagram(bytes)];
    assert ended[..|inputs|] == inputs;
    FinishedStaysFinished(c, ended, more);
  }
}
