/**
 The worker task as the object it is: counters, a two-word replay window and a status
 changed in place, one input at a time. Every method is proved equal to the step of
 `Worker.dfy` it implements, and `RunLoop` to the whole run.
 */
module WorkerTasks {
  import opened Common
  import opened Codec
  import opened Worker
  import Replay

  class VoiceWorker {
    const codec: Codec
    const replay: Replay.ReplayWindow
    var status: Status
    var transportSequence: u64
    var channelSequences: map<u8, u16>
    var socketLog: seq<Emission>
    var mediaLog: seq<Media>
    ghost var arrivals: seq<u64>

    ghost predicate Valid()
      reads this, replay, replay.bits
    {
      replay.Valid()
    }

    ghost function View(): State
      reads this, replay
    {
      State(status, transportSequence, channelSequences, replay.View(), socketLog, mediaLog, arrivals)
    }

    constructor (c: Codec)
      ensures Valid() && fresh(replay) && fresh(replay.bits)
      ensures codec == c && View() == INITIAL
    {
      codec := c;
      replay := new Replay.ReplayWindow();
      status := Joining;
      transportSequence := 1;
      channelSequences := map[];
      socketLog := [];
      mediaLog := [];
      arrivals := [];
    }

    /** `reserve_transport_sequence`: hands out the last number but one, then refuses. */
    method ReserveTransportSequence() returns (sequence: Option<u64>)
      requires Valid()
      modifies this`transportSequence
      ensures Valid()
      ensures sequence == if old(transportSequence) == U64_MAX then None else Some(old(transportSequence))
      ensures transportSequence == Min(old(transportSequence) + 1, U64_MAX)
    {
      if transportSequence == U64_MAX {
        return None;
      }
      sequence := Some(transportSequence);
      transportSequence := transportSequence + 1;
    }

    method WriteSocket(e: Emission)
      requires Valid()
      modifies this`socketLog
      ensures Valid() && socketLog == old(socketLog) + [e]
    {
      socketLog := socketLog + [e];
    }

    method SendMedia(streamType: u8, payload: seq<u8>, writing: Writing)
      returns (answer: Option<Result<(), SendError>>)
      requires Valid()
      modifies this`transportSequence, this`channelSequences, this`socketLog
      ensures Valid()
      ensures (View(), answer) == Worker.SendMedia(codec, old(View()), streamType, payload, writing)
    {
      hide EncodeMedia, ValidateMedia, EncodeHeartbeat;
      var refused := ValidateMedia(codec, streamType, |payload|);
      if refused.Some? {
        return Some(Err(Refused(refused.value)));
      }
      if streamType !in channelSequences {
        channelSequences := channelSequences[streamType := 0];
      }
      var channelSequence := channelSequences[streamType];
      ghost var looked := channelSequences;
      assert looked == old(channelSequences)[streamType := CounterIn(old(channelSequences), streamType)];
      var sequence := ReserveTransportSequence();
      if sequence.None? {
        return Some(Err(SequenceExhausted));
      }
      var packet := EncodeMedia(codec, sequence.value, channelSequence, streamType, payload);
      if packet.Err? {
        return Some(Err(Refused(packet.error)));
      }
      WriteSocket(Emission(sequence.value, streamType, channelSequence, payload, packet.value,
                           writing.Written?));
      match writing {
        case Written =>
          channelSequences := channelSequences[streamType := (channelSequence + 1) % U16_SIZE];
          answer := Some(Ok(()));
        case Failed => answer := Some(Err(Transport));
        case _ => answer := None;
      }
    }

    method SendHeartbeat(writing: Writing) returns (answer: Option<Result<(), SendError>>)
      requires Valid()
      modifies this`transportSequence, this`socketLog
      ensures Valid()
      ensures (View(), answer) == Worker.SendHeartbeat(codec, old(View()), writing)
    {
      var sequence := ReserveTransportSequence();
      if sequence.None? {
        return Some(Err(SequenceExhausted));
      }
      var packet := EncodeHeartbeat(codec, sequence.value);
      if packet.Err? {
        return Some(Err(Refused(packet.error)));
      }
      WriteSocket(Emission(sequence.value, HEARTBEAT_STREAM_TYPE, 0, [], packet.value,
                           writing.Written?));
      match writing {
        case Written => answer := Some(Ok(()));
        case Failed => answer := Some(Err(Transport));
        case _ => answer := None;
      }
    }

    method HandleCommand(streamType: u8, payload: seq<u8>, writing: Writing)
      requires Valid()
      modifies this
      ensures Valid()
      ensures View() == HandleSend(codec, old(View()), streamType, payload, writing)
    {
      if writing.StopBefore? {
        status := StatusAfterStop(writing.stop);
        return;
      }
      var answer := SendMedia(streamType, payload, writing);
      if answer.None? {
        if writing.StopDuring? {
          status := StatusAfterStop(writing.stop);
        }
      } else if answer.value == Err(Transport) || answer.value == Err(SequenceExhausted) {
        status := Disconnected;
      }
    }

    method HandleHeartbeat(due: bool, writing: Writing)
      requires Valid()
      modifies this
      ensures Valid()
      ensures View() == HandleTick(codec, old(View()), due, writing)
    {
      if due {
        if writing.StopBefore? {
          status := StatusAfterStop(writing.stop);
          return;
        }
        var answer := SendHeartbeat(writing);
        if answer.None? {
          if writing.StopDuring? {
            status := StatusAfterStop(writing.stop);
          }
        } else if answer.value.Err? {
          status := Disconnected;
        }
      }
    }

    /** Authenticates first, then consults and moves the replay window. */
    method HandleInbound(bytes: seq<u8>)
      requires Valid()
      modifies this, replay`high, replay`accepted, replay.bits
      ensures Valid()
      ensures View() == Worker.HandleInbound(codec, old(View()), bytes)
    {
      hide Decode;
      var decoded := Decode(codec, bytes, false);
      if decoded.Err? {
        return;
      }
      var p := decoded.value;
      arrivals := arrivals + [p.sequence];
      var isNew := replay.Accept(p.sequence);
      if !isNew {
        return;
      }
      match p.control {
        case Some(Heartbeat) =>
        case Some(Revocation(reason)) => status := RevokedFor(reason);
        case None =>
          if p.speaker.Some? {
            mediaLog := mediaLog
              + [Media(p.speaker.value, p.streamType, p.channelSeq, p.sequence, p.payload)];
          }
      }
    }

    method Turn(input: Input)
      requires Valid()
      modifies this, replay`high, replay`accepted, replay.bits
      ensures Valid()
      ensures View() == Step(codec, old(View()), input)
    {
      hide Worker.SendMedia, Worker.SendHeartbeat, HandleSend, HandleTick, Worker.HandleInbound;
      if status.Joining? {
        if input.Start? {
          var answer := SendHeartbeat(if input.taken then Written else Failed);
          status := if answer == Some(Ok(())) then Active else Disconnected;
        }
      } else if status.Active? {
        match input {
          case Start(_) =>
          case Send(streamType, payload, writing) => HandleCommand(streamType, payload, writing);
          case Tick(due, writing) => HandleHeartbeat(due, writing);
          case Datagram(bytes) => HandleInbound(bytes);
          case ReceiveFails => status := Disconnected;
          case CommandsClosed => status := Disconnected;
          case Stopped(stop) =>
            if stop != Changed(None) {
              status := StatusAfterStop(stop);
            }
        }
      }
    }

    /** `run`: the loop leaves at the first terminal status, and that loses no step. */
    method RunLoop(inputs: seq<Input>)
      requires Valid() && View() == INITIAL
      modifies this, replay`high, replay`accepted, replay.bits
      ensures Valid()
      ensures View() == Run(codec, inputs)
    {
      hide Step;
      var n := 0;
      assert inputs[..0] == [];
      while n < |inputs| && !IsTerminal(status)
        invariant 0 <= n <= |inputs|
        invariant Valid() && View() == Run(codec, inputs[..n])
      {
        Turn(inputs[n]);
        assert inputs[..n + 1][..n] == inputs[..n];
        n := n + 1;
      }
      assert inputs == inputs[..n] + inputs[n..];
      if IsTerminal(status) {
        FinishedStaysFinished(codec, inputs[..n], inputs[n..]);
      } else {
        assert inputs[..n] == inputs;
      }
    }
  }
}
