/**
 The packet codec of one negotiated voice session (crates/zephyrvox-voice/src/codec.rs,
 decode.rs and crypto.rs).

 AES-GCM is a pair of functions with two laws: `open` undoes `seal` and adds sixteen
 bytes, and `open` accepts nothing that `seal` did not produce for the same nonce and
 header. Key derivation is a parameter.
 */
module Codec {
  import opened Common
  import opened BigEndian

  const MAGIC: seq<u8> := [0x5A, 0x56, 0x58, 0x31]
  const PROTOCOL_VERSION: u8 := 1
  const OUTER_HEADER_SIZE := 30
  const CHANNEL_HEADER_SIZE := 12
  const TAG_SIZE := 16
  const MAX_PACKET_SIZE := 1200
  const HEARTBEAT_STREAM_TYPE: u8 := 0
  const MAX_SNOWFLAKE := 0x7FFF_FFFF_FFFF_FFFF

  /** A session identifier is sixteen bytes, not all zero. */
  type SessionId = id: seq<u8> | |id| == 16 && id != ZERO_ID
    witness [1, 1, 1, 1, 1, 1, 1, 1, 1, 1, 1, 1, 1, 1, 1, 1]

  const ZERO_ID: seq<u8> := [0, 0, 0, 0, 0, 0, 0, 0, 0, 0, 0, 0, 0, 0, 0, 0]

  type AllowTable = t: seq<bool> | |t| == 256 ghost witness seq(256, _ => false)

  /** The AES-GCM payload limit: 16 bytes go to the tag of an encrypted packet. */
  function MaxPayload(encrypted: bool): nat {
    MAX_PACKET_SIZE - OUTER_HEADER_SIZE - CHANNEL_HEADER_SIZE - (if encrypted then TAG_SIZE else 0)
  }

  // ----- the cipher ------------------------------------------------------------------------

  datatype Cipher = Cipher(
    seal: (seq<u8>, seq<u8>, seq<u8>) -> seq<u8>,
    open: (seq<u8>, seq<u8>, seq<u8>) -> Option<seq<u8>>)

  datatype DirectionKeys = DirectionKeys(c2s: Cipher, s2c: Cipher)

  ghost predicate Authentic(cipher: Cipher) {
    && (forall nonce, aad, m :: cipher.open(nonce, aad, cipher.seal(nonce, aad, m)) == Some(m))
    && (forall nonce, aad, m :: |cipher.seal(nonce, aad, m)| == |m| + TAG_SIZE)
    && (forall nonce, aad, x :: cipher.open(nonce, aad, x).Some? ==>
          cipher.seal(nonce, aad, cipher.open(nonce, aad, x).value) == x)
  }

  /** The deterministic nonce of section 8.2.1 of NIST SP 800-38D: a zero field, then a counter. */
  function Nonce(sequence: u64): seq<u8> {
    [0, 0, 0, 0] + ToBytes(sequence, 8)
  }

  /** One key never sees a nonce twice while sequences do not repeat. */
  lemma NonceInjective(a: u64, b: u64)
    requires Nonce(a) == Nonce(b)
    ensures a == b
  {
    Pow256Eight();
    assert Nonce(a)[4..] == ToBytes(a, 8) && Nonce(b)[4..] == ToBytes(b, 8);
    ToBytesInjective(a, b, 8);
  }

  /** `nonce_for`: a zeroed array whose last eight bytes are overwritten. */
  method NonceFor(sequence: u64) returns (nonce: array<u8>)
    ensures fresh(nonce) && nonce[..] == Nonce(sequence)
  {
    nonce := new u8[12](_ => 0);
    CopyFromSlice(nonce, 4, ToBytes(sequence, 8));
    assert nonce[..] == nonce[..4] + nonce[4..12];
  }

  /** Overwrites part of a buffer and leaves the rest of it alone. */
  method CopyFromSlice(a: array<u8>, at: nat, source: seq<u8>)
    requires at + |source| <= a.Length
    modifies a
    ensures a[at..at + |source|] == source
    ensures forall k :: 0 <= k < at || at + |source| <= k < a.Length ==> a[k] == old(a[k])
  {
    forall k | 0 <= k < |source| {
      a[at + k] := source[k];
    }
  }

  // ----- the session -----------------------------------------------------------------------

  datatype Codec = Codec(
    sessionId: SessionId,
    encrypted: bool,
    maxPayload: nat,
    keys: Option<DirectionKeys>,
    allowed: AllowTable)

  type SessionKey = key: seq<u8> | |key| == 32 witness seq(32, _ => 0)

  datatype SessionConfig = SessionConfig(
    sessionId: SessionId,
    encrypted: bool,
    maxPayload: nat,
    sessionKey: Option<SessionKey>,
    streamTypes: Option<seq<u8>>)

  /** What `VoiceSessionConfig::new` and `with_stream_types` let through. */
  predicate ValidConfig(config: SessionConfig) {
    && 1 <= config.maxPayload <= MaxPayload(config.encrypted)
    && (!config.encrypted ==> config.sessionKey == None)
    && (config.streamTypes.Some? ==>
          |config.streamTypes.value| > 0 && HEARTBEAT_STREAM_TYPE !in config.streamTypes.value)
  }

  /** A codec as a valid configuration makes it. */
  ghost predicate Negotiated(c: Codec) {
    && 1 <= c.maxPayload <= MaxPayload(c.encrypted)
    && !c.allowed[HEARTBEAT_STREAM_TYPE]
    && (c.encrypted <==> c.keys.Some?)
    && (c.keys.Some? ==> Authentic(c.keys.value.c2s) && Authentic(c.keys.value.s2c))
  }

  /** An inline key comes first, then the cached one; plaintext sessions have none. */
  function ResolveKey(config: SessionConfig, cached: Option<SessionKey>): Option<SessionKey> {
    if !config.encrypted then None
    else if config.sessionKey.Some? then config.sessionKey
    else cached
  }

  datatype VoiceError = KeyUnavailable

  /**
   `from_config`. A valid configuration makes a negotiated codec, and fails exactly when
   it is encrypted and no key is at hand. The stream types let through are the advertised
   ones, or all but the heartbeat type when none are advertised.
   */
  method FromConfig(config: SessionConfig, cached: Option<SessionKey>,
                    derive: (SessionId, SessionKey) -> DirectionKeys)
    returns (r: Result<Codec, VoiceError>)
    requires ValidConfig(config)
    requires forall id, key :: Authentic(derive(id, key).c2s) && Authentic(derive(id, key).s2c)
    ensures r.Err? <==> config.encrypted && config.sessionKey == None && cached == None
    ensures r.Ok? ==>
        && Negotiated(r.value)
        && r.value.sessionId == config.sessionId && r.value.encrypted == config.encrypted
        && r.value.maxPayload == config.maxPayload
        && (forall t: u8 :: r.value.allowed[t] <==>
              if config.streamTypes.Some? then t in config.streamTypes.value
              else t != HEARTBEAT_STREAM_TYPE)
        && (config.encrypted ==>
              r.value.keys == Some(derive(config.sessionId,
                match config.sessionKey case Some(inline) => inline case None => cached.value)))
  {
    var key := ResolveKey(config, cached);
    if config.encrypted && key == None {
      return Err(KeyUnavailable);
    }
    var allowed := new bool[256](_ => true);
    allowed[HEARTBEAT_STREAM_TYPE] := false;
    if config.streamTypes.Some? {
      var types := config.streamTypes.value;
      forall k | 0 <= k < 256 {
        allowed[k] := false;
      }
      for i := 0 to |types|
        invariant forall t: u8 :: allowed[t] <==> t in types[..i]
      {
        allowed[types[i]] := true;
      }
      assert types[..|types|] == types;
    }
    var keys := if key == None then None else Some(derive(config.sessionId, key.value));
    r := Ok(Codec(config.sessionId, config.encrypted, config.maxPayload, keys, allowed[..]));
  }

  // ----- encoding --------------------------------------------------------------------------

  datatype PacketError =
    | SequenceZero | Truncated | Oversized | InvalidMagic | UnsupportedVersion(version: u8)
    | InvalidFlags | WrongSession | AuthenticationFailed | InvalidControlPacket
    | HeartbeatStream | UnknownStreamType(streamType: u8) | InvalidSpeaker
    | PayloadTooLarge(actual: nat, maximum: nat)

  function Header(c: Codec, sequence: u64): (h: seq<u8>)
    ensures |h| == OUTER_HEADER_SIZE
  {
    MAGIC + [PROTOCOL_VERSION, 0] + c.sessionId + ToBytes(sequence, 8)
  }

  function Body(streamType: u8, channelSeq: u16, speaker: u64, payload: seq<u8>): (b: seq<u8>)
    ensures |b| == CHANNEL_HEADER_SIZE + |payload|
  {
    [streamType] + ToBytes(channelSeq, 2) + [0] + ToBytes(speaker, 8) + payload
  }

  function CipherFor(keys: DirectionKeys, clientToServer: bool): Cipher {
    if clientToServer then keys.c2s else keys.s2c
  }

  /** The datagram of one packet: header, then the body, sealed under the header or bare. */
  function Datagram(c: Codec, sequence: u64, streamType: u8, channelSeq: u16, speaker: u64,
                    payload: seq<u8>, clientToServer: bool): Result<seq<u8>, PacketError> {
    if sequence == 0 then Err(SequenceZero)
    else
      var header := Header(c, sequence);
      var body := Body(streamType, channelSeq, speaker, payload);
      if c.encrypted && c.keys.None? then Err(AuthenticationFailed)
      else
        var wire := if c.encrypted
                    then CipherFor(c.keys.value, clientToServer).seal(Nonce(sequence), header, body)
                    else body;
        if OUTER_HEADER_SIZE + |wire| > MAX_PACKET_SIZE then Err(Oversized) else Ok(header + wire)
  }

  /** `encode_body`: two zeroed buffers filled field by field. */
  method EncodeBody(c: Codec, sequence: u64, streamType: u8, channelSeq: u16, speaker: u64,
                    payload: seq<u8>, clientToServer: bool)
    returns (r: Result<seq<u8>, PacketError>)
    ensures r == Datagram(c, sequence, streamType, channelSeq, speaker, payload, clientToServer)
  {
    if sequence == 0 {
      return Err(SequenceZero);
    }
    var header := FillHeader(c, sequence);
    var body := FillBody(streamType, channelSeq, speaker, payload);
    var wire := body[..];
    if c.encrypted {
      if c.keys.None? {
        return Err(AuthenticationFailed);
      }
      var nonce := NonceFor(sequence);
      wire := CipherFor(c.keys.value, clientToServer).seal(nonce[..], header[..], body[..]);
    }
    if OUTER_HEADER_SIZE + |wire| > MAX_PACKET_SIZE {
      return Err(Oversized);
    }
    r := Ok(header[..] + wire);
  }

  method FillHeader(c: Codec, sequence: u64) returns (header: array<u8>)
    ensures fresh(header) && header[..] == Header(c, sequence)
  {
    hide ToBytes;
    header := new u8[30](_ => 0);
    CopyFromSlice(header, 0, MAGIC);
    header[4] := PROTOCOL_VERSION;
    CopyFromSlice(header, 6, c.sessionId);
    assert header[..4] == MAGIC;
    CopyFromSlice(header, 22, ToBytes(sequence, 8));
    assert header[..4] == MAGIC && header[6..22] == c.sessionId;
    assert header[..] == header[..4] + [header[4], header[5]] + header[6..22] + header[22..30];
  }

  method FillBody(streamType: u8, channelSeq: u16, speaker: u64, payload: seq<u8>)
    returns (body: array<u8>)
    ensures fresh(body) && body[..] == Body(streamType, channelSeq, speaker, payload)
  {
    hide ToBytes;
    body := new u8[CHANNEL_HEADER_SIZE + |payload|](_ => 0);
    body[0] := streamType;
    CopyFromSlice(body, 1, ToBytes(channelSeq, 2));
    ghost var low, high := body[1], body[2];
    assert body[1..3] == [low, high] == ToBytes(channelSeq, 2);
    CopyFromSlice(body, 4, ToBytes(speaker, 8));
    ghost var speakerBytes := body[4..12];
    CopyFromSlice(body, 12, payload);
    assert body[1..3] == [low, high];
    assert body[4..12] == speakerBytes;
    assert body[..] == [body[0]] + body[1..3] + [body[3]] + body[4..12] + body[12..12 + |payload|];
  }

  /** `validate_media_values`: the error of a media packet outside the negotiated contract. */
  function ValidateMedia(c: Codec, streamType: u8, length: nat): Option<PacketError> {
    if streamType == HEARTBEAT_STREAM_TYPE then Some(HeartbeatStream)
    else if !c.allowed[streamType] then Some(UnknownStreamType(streamType))
    else if length > c.maxPayload then Some(PayloadTooLarge(length, c.maxPayload))
    else None
  }

  function EncodeMedia(c: Codec, sequence: u64, channelSeq: u16, streamType: u8,
                       payload: seq<u8>): Result<seq<u8>, PacketError> {
    var refused := ValidateMedia(c, streamType, |payload|);
    if refused.Some? then Err(refused.value)
    else Datagram(c, sequence, streamType, channelSeq, 0, payload, true)
  }

  function EncodeServerMedia(c: Codec, sequence: u64, channelSeq: u16, streamType: u8,
                             speaker: u64, payload: seq<u8>): Result<seq<u8>, PacketError> {
    var refused := ValidateMedia(c, streamType, |payload|);
    if refused.Some? then Err(refused.value)
    else Datagram(c, sequence, streamType, channelSeq, speaker, payload, false)
  }

  function EncodeHeartbeat(c: Codec, sequence: u64): Result<seq<u8>, PacketError> {
    Datagram(c, sequence, HEARTBEAT_STREAM_TYPE, 0, 0, [], true)
  }

  function EncodeRevocation(c: Codec, sequence: u64, reason: RevocationReason)
    : Result<seq<u8>, PacketError>
  {
    Datagram(c, sequence, HEARTBEAT_STREAM_TYPE, 0, 0, [AsWire(reason)], false)
  }

  // ----- decoding --------------------------------------------------------------------------

  datatype RevocationReason = Replaced | Revoked | Unknown(code: u8)

  function FromWire(value: u8): RevocationReason {
    if value == 1 then Replaced else if value == 2 then Revoked else Unknown(value)
  }

  function AsWire(reason: RevocationReason): u8 {
    match reason
    case Replaced => 1
    case Revoked => 2
    case Unknown(code) => code
  }

  /** The wire byte survives; the reason survives unless it aliases a named one: 1 or 2. */
  lemma ReasonRoundTrip(value: u8, reason: RevocationReason)
    ensures (FromWire(value) == Replaced <==> value == 1) && (FromWire(value) == Revoked <==> value == 2)
    ensures AsWire(FromWire(value)) == value
    ensures FromWire(AsWire(reason)) == reason <==> reason !in {Unknown(1), Unknown(2)}
  {
  }

  datatype Control = Heartbeat | Revocation(reason: RevocationReason)

  datatype Packet = Packet(
    sessionId: SessionId,
    sequence: u64,
    streamType: u8,
    channelSeq: u16,
    flags: u8,
    speaker: Option<u64>,
    payload: seq<u8>,
    control: Option<Control>)

  /** The checks on the outer header, in order; the sequence when all pass. */
  function DecodeHeader(c: Codec, d: seq<u8>): Result<u64, PacketError> {
    if |d| < OUTER_HEADER_SIZE + CHANNEL_HEADER_SIZE then Err(Truncated)
    else if |d| > MAX_PACKET_SIZE then Err(Oversized)
    else if d[..4] != MAGIC then Err(InvalidMagic)
    else if d[4] != PROTOCOL_VERSION then Err(UnsupportedVersion(d[4]))
    else if d[5] != 0 then Err(InvalidFlags)
    else if d[6..22] != c.sessionId then Err(WrongSession)
    else
      var sequence := Read64(d[22..30]);
      if sequence == 0 then Err(SequenceZero) else Ok(sequence)
  }

  function Read64(bytes: seq<u8>): (n: u64)
    requires |bytes| == 8
  {
    FromBytesBound(bytes);
    Pow256Eight();
    FromBytes(bytes)
  }

  function Read16(bytes: seq<u8>): (n: u16)
    requires |bytes| == 2
  {
    FromBytesBound(bytes);
    Pow256Two();
    FromBytes(bytes)
  }

  /** Authenticates and decrypts, or takes the bytes as they are. */
  function Unprotect(c: Codec, d: seq<u8>, sequence: u64, clientToServer: bool)
    : Result<seq<u8>, PacketError>
    requires |d| >= OUTER_HEADER_SIZE
  {
    if !c.encrypted then Ok(d[OUTER_HEADER_SIZE..])
    else if |d| < OUTER_HEADER_SIZE + CHANNEL_HEADER_SIZE + TAG_SIZE then Err(Truncated)
    else if c.keys.None? then Err(AuthenticationFailed)
    else
      var plain := CipherFor(c.keys.value, clientToServer)
                   .open(Nonce(sequence), d[..OUTER_HEADER_SIZE], d[OUTER_HEADER_SIZE..]);
      if plain.None? then Err(AuthenticationFailed) else Ok(plain.value)
  }

  /** The checks on the channel header and payload, in order. */
  function DecodeBody(c: Codec, sequence: u64, body: seq<u8>, clientToServer: bool)
    : Result<Packet, PacketError>
  {
    if |body| < CHANNEL_HEADER_SIZE then Err(Truncated)
    else
      var streamType, channelSeq, flags := body[0], Read16(body[1..3]), body[3];
      var speaker, payload := Read64(body[4..12]), body[CHANNEL_HEADER_SIZE..];
      if flags != 0 then Err(InvalidFlags)
      else if streamType == HEARTBEAT_STREAM_TYPE then
        if channelSeq != 0 || speaker != 0 || |payload| > 1 || (clientToServer && |payload| != 0)
        then Err(InvalidControlPacket)
        else
          var control := if |payload| == 0 then Heartbeat else Revocation(FromWire(payload[0]));
          Ok(Packet(c.sessionId, sequence, streamType, channelSeq, flags, None, payload,
                    Some(control)))
      else if !c.allowed[streamType] then Err(UnknownStreamType(streamType))
      else if clientToServer && speaker != 0 then Err(InvalidSpeaker)
      else if !clientToServer && !(1 <= speaker <= MAX_SNOWFLAKE) then Err(InvalidSpeaker)
      else if |payload| > c.maxPayload then Err(PayloadTooLarge(|payload|, c.maxPayload))
      else
        Ok(Packet(c.sessionId, sequence, streamType, channelSeq, flags,
                  if clientToServer then None else Some(speaker), payload, None))
  }

  /** `decode_direction`. */
  function Decode(c: Codec, d: seq<u8>, clientToServer: bool): Result<Packet, PacketError> {
    var header := DecodeHeader(c, d);
    if header.Err? then Err(header.error)
    else
      var body := Unprotect(c, d, header.value, clientToServer);
      if body.Err? then Err(body.error)
      else DecodeBody(c, header.value, body.value, clientToServer)
  }

  // ----- round trips -----------------------------------------------------------------------

  /** Every header field is where the decoder looks for it. */
  lemma HeaderLayout(c: Codec, sequence: u64, wire: seq<u8>)
    requires sequence != 0
    requires CHANNEL_HEADER_SIZE <= |wire| <= MAX_PACKET_SIZE - OUTER_HEADER_SIZE
    ensures DecodeHeader(c, Header(c, sequence) + wire) == Ok(sequence)
    ensures (Header(c, sequence) + wire)[..OUTER_HEADER_SIZE] == Header(c, sequence)
    ensures (Header(c, sequence) + wire)[OUTER_HEADER_SIZE..] == wire
  {
    var d := Header(c, sequence) + wire;
    assert d[..4] == MAGIC;
    assert d[6..22] == c.sessionId;
    assert d[22..30] == ToBytes(sequence, 8);
    Pow256Eight();
    FromToBytes(sequence, 8);
  }

  lemma BodyLayout(streamType: u8, channelSeq: u16, speaker: u64, payload: seq<u8>)
    ensures var b := Body(streamType, channelSeq, speaker, payload);
            && b[0] == streamType && Read16(b[1..3]) == channelSeq && b[3] == 0
            && Read64(b[4..12]) == speaker && b[CHANNEL_HEADER_SIZE..] == payload
  {
    var b := Body(streamType, channelSeq, speaker, payload);
    assert b[1..3] == ToBytes(channelSeq, 2);
    assert b[4..12] == ToBytes(speaker, 8);
    assert b[CHANNEL_HEADER_SIZE..] == payload;
    Pow256Two();
    Pow256Eight();
    FromToBytes(channelSeq, 2);
    FromToBytes(speaker, 8);
  }

  /** Whatever was protected in a direction is recovered in that direction. */
  lemma DatagramDecodes(c: Codec, sequence: u64, streamType: u8, channelSeq: u16, speaker: u64,
                        payload: seq<u8>, clientToServer: bool)
    requires Negotiated(c) && sequence != 0 && |payload| <= MaxPayload(c.encrypted)
    ensures var d := Datagram(c, sequence, streamType, channelSeq, speaker, payload, clientToServer);
            && d.Ok? && |d.value| <= MAX_PACKET_SIZE
            && Decode(c, d.value, clientToServer)
            == DecodeBody(c, sequence, Body(streamType, channelSeq, speaker, payload), clientToServer)
  {
    hide DecodeBody, Body, Header;
    var header, body := Header(c, sequence), Body(streamType, channelSeq, speaker, payload);
    var wire := if c.encrypted
                then CipherFor(c.keys.value, clientToServer).seal(Nonce(sequence), header, body)
                else body;
    HeaderLayout(c, sequence, wire);
  }

  /** The payload limit is what a datagram has room for: no more and no less. */
  lemma FitsExactly(c: Codec, sequence: u64, streamType: u8, channelSeq: u16, speaker: u64,
                    payload: seq<u8>, clientToServer: bool)
    requires Negotiated(c) && sequence != 0
    ensures var d := Datagram(c, sequence, streamType, channelSeq, speaker, payload, clientToServer);
      && (d.Ok? <==> |payload| <= (if c.encrypted then 1142 else 1158))
      && d == (if d.Ok? then Ok(d.value) else Err(Oversized))
      && (d.Ok? ==> |d.value| == 42 + |payload| + (if c.encrypted then 16 else 0))
  {
    hide Header, Body, Nonce;
  }

  /**
   Client media: encoding succeeds exactly on the contract, fits a datagram, and decoding
   returns the same fields.
   */
  lemma MediaRoundTrip(c: Codec, sequence: u64, channelSeq: u16, streamType: u8, payload: seq<u8>)
    requires Negotiated(c)
    ensures var d := EncodeMedia(c, sequence, channelSeq, streamType, payload);
            && (d.Ok? <==> sequence != 0 && c.allowed[streamType] && |payload| <= c.maxPayload)
            && (d.Ok? ==>
                  && |d.value| <= MAX_PACKET_SIZE
                  && Decode(c, d.value, true) == Ok(Packet(c.sessionId, sequence, streamType,
                                                           channelSeq, 0, None, payload, None)))
  {
    if sequence != 0 && c.allowed[streamType] && |payload| <= c.maxPayload {
      DatagramDecodes(c, sequence, streamType, channelSeq, 0, payload, true);
      BodyLayout(streamType, channelSeq, 0, payload);
    }
  }

  /** Server media, for every speaker in the positive 63-bit range. */
  lemma ServerMediaRoundTrip(c: Codec, sequence: u64, channelSeq: u16, streamType: u8,
                             speaker: u64, payload: seq<u8>)
    requires Negotiated(c) && 1 <= speaker <= MAX_SNOWFLAKE
    ensures var d := EncodeServerMedia(c, sequence, channelSeq, streamType, speaker, payload);
            && (d.Ok? <==> sequence != 0 && c.allowed[streamType] && |payload| <= c.maxPayload)
            && (d.Ok? ==>
                  && |d.value| <= MAX_PACKET_SIZE
                  && Decode(c, d.value, false)
                  == Ok(Packet(c.sessionId, sequence, streamType, channelSeq, 0, Some(speaker),
                               payload, None)))
  {
    if sequence != 0 && c.allowed[streamType] && |payload| <= c.maxPayload {
      DatagramDecodes(c, sequence, streamType, channelSeq, speaker, payload, false);
      BodyLayout(streamType, channelSeq, speaker, payload);
    }
  }

  lemma HeartbeatRoundTrip(c: Codec, sequence: u64)
    requires Negotiated(c)
    ensures var d := EncodeHeartbeat(c, sequence);
            && (d.Ok? <==> sequence != 0)
            && (d.Ok? ==>
                  && |d.value| <= MAX_PACKET_SIZE
                  && Decode(c, d.value, true)
                  == Ok(Packet(c.sessionId, sequence, HEARTBEAT_STREAM_TYPE, 0, 0, None, [],
                               Some(Heartbeat))))
  {
    if sequence != 0 {
      DatagramDecodes(c, sequence, HEARTBEAT_STREAM_TYPE, 0, 0, [], true);
      BodyLayout(HEARTBEAT_STREAM_TYPE, 0, 0, []);
    }
  }

  /** A revocation comes back with its reason, or with the named reason it aliases. */
  lemma RevocationRoundTrip(c: Codec, sequence: u64, reason: RevocationReason)
    requires Negotiated(c)
    ensures var d := EncodeRevocation(c, sequence, reason);
            && (d.Ok? <==> sequence != 0)
            && (d.Ok? ==>
                  var p := Decode(c, d.value, false);
                  && |d.value| <= MAX_PACKET_SIZE
                  && p.Ok? && p.value.sequence == sequence && p.value.control.Some?
                  && p.value.control.value.Revocation?
                  && (p.value.control.value.reason == reason <==> reason !in {Unknown(1), Unknown(2)}))
  {
    if sequence != 0 {
      DatagramDecodes(c, sequence, HEARTBEAT_STREAM_TYPE, 0, 0, [AsWire(reason)], false);
      BodyLayout(HEARTBEAT_STREAM_TYPE, 0, 0, [AsWire(reason)]);
      ReasonRoundTrip(AsWire(reason), reason);
    }
  }

  // ----- the wire form is canonical --------------------------------------------------------

  /** The encoder that makes a decoded packet. The SDK has none for server heartbeats. */
  function Reencode(c: Codec, p: Packet, clientToServer: bool): Result<seq<u8>, PacketError> {
    match p.control
    case Some(Revocation(reason)) => EncodeRevocation(c, p.sequence, reason)
    case Some(Heartbeat) =>
      if clientToServer then EncodeHeartbeat(c, p.sequence)
      else Datagram(c, p.sequence, HEARTBEAT_STREAM_TYPE, 0, 0, [], false)
    case None =>
      if p.speaker.None? then EncodeMedia(c, p.sequence, p.channelSeq, p.streamType, p.payload)
      else EncodeServerMedia(c, p.sequence, p.channelSeq, p.streamType, p.speaker.value, p.payload)
  }

  /** The accepted header is the one the encoder writes for its sequence. */
  lemma HeaderIsCanonical(c: Codec, d: seq<u8>)
    requires DecodeHeader(c, d).Ok?
    ensures d[..OUTER_HEADER_SIZE] == Header(c, DecodeHeader(c, d).value)
  {
    ToFromBytes(d[22..30]);
    assert d[..OUTER_HEADER_SIZE] == d[..4] + [d[4], d[5]] + d[6..22] + d[22..30];
  }

  lemma BodyIsCanonical(b: seq<u8>)
    requires |b| >= CHANNEL_HEADER_SIZE && b[3] == 0
    ensures b == Body(b[0], Read16(b[1..3]), Read64(b[4..12]), b[CHANNEL_HEADER_SIZE..])
  {
    ToFromBytes(b[1..3]);
    ToFromBytes(b[4..12]);
    assert b == [b[0]] + b[1..3] + [b[3]] + b[4..12] + b[CHANNEL_HEADER_SIZE..];
  }

  lemma AcceptedBodyShape(c: Codec, sequence: u64, b: seq<u8>, clientToServer: bool)
    requires DecodeBody(c, sequence, b, clientToServer).Ok?
    ensures |b| >= CHANNEL_HEADER_SIZE && b[3] == 0
  {
  }

  /** Re-encoding an accepted body's packet is making the datagram of that body. */
  lemma ReencodesBody(c: Codec, sequence: u64, b: seq<u8>, clientToServer: bool)
    requires Negotiated(c) && DecodeBody(c, sequence, b, clientToServer).Ok?
    ensures Reencode(c, DecodeBody(c, sequence, b, clientToServer).value, clientToServer)
         == Datagram(c, sequence, b[0], Read16(b[1..3]), Read64(b[4..12]),
                     b[CHANNEL_HEADER_SIZE..], clientToServer)
  {
    hide Datagram, Read16, Read64;
    var payload := b[CHANNEL_HEADER_SIZE..];
    if b[0] == HEARTBEAT_STREAM_TYPE {
      if |payload| == 1 {
        ReasonRoundTrip(payload[0], Replaced);
        assert payload == [AsWire(FromWire(payload[0]))];
      } else {
        assert payload == [];
      }
    }
  }

  /** Decoding loses nothing: re-encoding an accepted datagram's packet gives its bytes back. */
  lemma WireFormIsCanonical(c: Codec, d: seq<u8>, clientToServer: bool)
    requires Negotiated(c) && Decode(c, d, clientToServer).Ok?
    ensures Reencode(c, Decode(c, d, clientToServer).value, clientToServer) == Ok(d)
  {
    hide DecodeBody, Reencode, Body, Header;
    var sequence := DecodeHeader(c, d).value;
    var b := Unprotect(c, d, sequence, clientToServer).value;
    HeaderIsCanonical(c, d);
    AcceptedBodyShape(c, sequence, b, clientToServer);
    BodyIsCanonical(b);
    ReencodesBody(c, sequence, b, clientToServer);
    assert d == d[..OUTER_HEADER_SIZE] + d[OUTER_HEADER_SIZE..];
  }

  /** Distinct accepted datagrams carry distinct packets. */
  lemma DecodeInjective(c: Codec, d: seq<u8>, e: seq<u8>, clientToServer: bool)
    requires Negotiated(c)
    requires Decode(c, d, clientToServer).Ok?
    requires Decode(c, d, clientToServer) == Decode(c, e, clientToServer)
    ensures d == e
  {
    WireFormIsCanonical(c, d, clientToServer);
    WireFormIsCanonical(c, e, clientToServer);
  }

  // ----- what is refused, and as what ------------------------------------------------------

  /** The error of each way a client media packet can fall outside the contract. */
  lemma RefusedMedia(c: Codec, sequence: u64, channelSeq: u16, streamType: u8, payload: seq<u8>)
    requires Negotiated(c) && EncodeMedia(c, sequence, channelSeq, streamType, payload).Err?
    ensures EncodeMedia(c, sequence, channelSeq, streamType, payload).error
         == if streamType == HEARTBEAT_STREAM_TYPE then HeartbeatStream
            else if !c.allowed[streamType] then UnknownStreamType(streamType)
            else if |payload| > c.maxPayload then PayloadTooLarge(|payload|, c.maxPayload)
            else SequenceZero
  {
    MediaRoundTrip(c, sequence, channelSeq, streamType, payload);
  }

  /** The error of an accepted datagram in which header byte `k` was changed to `b`. */
  function HeaderFault(k: nat, b: u8): PacketError {
    if k < 4 then InvalidMagic
    else if k == 4 then UnsupportedVersion(b)
    else if k == 5 then InvalidFlags
    else WrongSession
  }

  /** One wrong byte before the sequence is always found, and named, before any decryption. */
  lemma HeaderFaultIsNamed(c: Codec, d: seq<u8>, k: nat, b: u8, clientToServer: bool)
    requires Decode(c, d, clientToServer).Ok? && k < 22 && b != d[k]
    ensures Decode(c, d[k := b], clientToServer) == Err(HeaderFault(k, b))
  {
    hide Unprotect, DecodeBody, Read64;
    var e := d[k := b];
    if k < 4 {
      assert e[..4][k] != d[..4][k];
    } else if k >= 6 {
      assert e[..4] == d[..4];
      assert e[6..22][k - 6] != d[6..22][k - 6];
    } else {
      assert e[..4] == d[..4];
    }
  }

  /** Neither a datagram cut inside its headers nor one over the limit is read any further. */
  lemma WrongLengthIsNamed(c: Codec, d: seq<u8>, clientToServer: bool)
    ensures |d| < OUTER_HEADER_SIZE + CHANNEL_HEADER_SIZE ==>
              Decode(c, d, clientToServer) == Err(Truncated)
    ensures |d| > MAX_PACKET_SIZE ==> Decode(c, d, clientToServer) == Err(Oversized)
    ensures Decode(c, d, clientToServer).Ok? && c.encrypted ==>
              |d| >= OUTER_HEADER_SIZE + CHANNEL_HEADER_SIZE + TAG_SIZE
  {
  }

  /** Without encryption, a client packet sent back to a client is refused unless it is control. */
  lemma ReflectedMediaIsRefused(c: Codec, d: seq<u8>)
    requires Negotiated(c) && !c.encrypted && Decode(c, d, true).Ok?
    ensures Decode(c, d, false).Ok? <==> Decode(c, d, true).value.control.Some?
    ensures Decode(c, d, false).Err? ==> Decode(c, d, false).error == InvalidSpeaker
  {
  }

  function Big32(a: nat, b: nat, c: nat, d: nat): nat {
    0x100_0000 * a + 0x1_0000 * b + 0x100 * c + d
  }

  /** An unsigned 64-bit number, most significant byte first. */
  function Big64(b: seq<u8>): nat
    requires |b| == 8
  {
    var (high, low) := (Big32(b[0], b[1], b[2], b[3]), Big32(b[4], b[5], b[6], b[7]));
    0x1_0000_0000 * high + low
  }

  /** Where each field of an accepted plaintext datagram stands, in both directions. */
  lemma PlainLayout(c: Codec, d: seq<u8>, clientToServer: bool)
    requires !c.encrypted && Decode(c, d, clientToServer).Ok?
    ensures var p := Decode(c, d, clientToServer).value;
      && 42 <= |d| <= 1200
      && d[0..4] == [0x5A, 0x56, 0x58, 0x31] && d[4] == 1 && d[5] == 0
      && d[6..22] == c.sessionId == p.sessionId
      && Big64(d[22..30]) == p.sequence != 0
      && d[30] == p.streamType && Big32(0, 0, d[31], d[32]) == p.channelSeq && d[33] == p.flags == 0
      && Big64(d[34..42]) == (if p.speaker.Some? then p.speaker.value else 0)
      && d[42..] == p.payload
  {
    hide Big64, Read64, Read16;
    BigIsRead(d[22..30]);
    BigIsRead(d[34..42]);
    SmallIsRead(d[31..33]);
    var body := d[OUTER_HEADER_SIZE..];
    assert body[1..3] == d[31..33] && body[4..12] == d[34..42];
    assert body[CHANNEL_HEADER_SIZE..] == d[42..];
  }

  lemma SmallIsRead(b: seq<u8>)
    requires |b| == 2
    ensures Read16(b) == Big32(0, 0, b[0], b[1])
  {
    assert FromBytes(b[..1]) == FromBytes(b[..1][..0]) * 256 + b[0];
  }

  lemma BigIsRead(b: seq<u8>)
    requires |b| == 8
    ensures Read64(b) == Big64(b)
  {
    assert b[..8] == b && FromBytes(b[..0]) == 0;
    forall k | 0 < k <= 8 ensures FromBytes(b[..k]) == FromBytes(b[..k - 1]) * 256 + b[k - 1] {
      assert b[..k][..k - 1] == b[..k - 1];
    }
  }

  // ----- one key for each direction --------------------------------------------------------

  /** The same session with another cipher for server packets. */
  function WithServerCipher(c: Codec, other: Cipher): Codec {
    if c.keys.None? then c else c.(keys := Some(c.keys.value.(s2c := other)))
  }

  /** The same session with another cipher for client packets. */
  function WithClientCipher(c: Codec, other: Cipher): Codec {
    if c.keys.None? then c else c.(keys := Some(c.keys.value.(c2s := other)))
  }

  /** The server's cipher plays no part in making or reading client packets. */
  lemma ClientPacketsIgnoreServerCipher(c: Codec, other: Cipher, sequence: u64, channelSeq: u16,
                                        streamType: u8, payload: seq<u8>, d: seq<u8>)
    ensures EncodeMedia(WithServerCipher(c, other), sequence, channelSeq, streamType, payload)
         == EncodeMedia(c, sequence, channelSeq, streamType, payload)
    ensures EncodeHeartbeat(WithServerCipher(c, other), sequence) == EncodeHeartbeat(c, sequence)
    ensures Decode(WithServerCipher(c, other), d, true) == Decode(c, d, true)
  {
    hide Header, Body, Decode;
    SameHeader(c, WithServerCipher(c, other), sequence);
    SameReading(c, WithServerCipher(c, other), d, true);
  }

  /** Nor the client's in making or reading server packets. */
  lemma ServerPacketsIgnoreClientCipher(c: Codec, other: Cipher, sequence: u64, channelSeq: u16,
                                        streamType: u8, speaker: u64, payload: seq<u8>,
                                        reason: RevocationReason, d: seq<u8>)
    ensures EncodeServerMedia(WithClientCipher(c, other), sequence, channelSeq, streamType, speaker, payload)
         == EncodeServerMedia(c, sequence, channelSeq, streamType, speaker, payload)
    ensures EncodeRevocation(WithClientCipher(c, other), sequence, reason)
         == EncodeRevocation(c, sequence, reason)
    ensures Decode(WithClientCipher(c, other), d, false) == Decode(c, d, false)
  {
    hide Header, Body, Decode;
    SameHeader(c, WithClientCipher(c, other), sequence);
    SameReading(c, WithClientCipher(c, other), d, false);
  }

  /** A direction is read with nothing but the session's own fields and that direction's cipher. */
  lemma SameReading(c: Codec, other: Codec, d: seq<u8>, clientToServer: bool)
    requires other == c.(keys := other.keys) && (c.keys.Some? <==> other.keys.Some?)
    requires c.keys.Some? ==>
               if clientToServer then c.keys.value.c2s == other.keys.value.c2s
               else c.keys.value.s2c == other.keys.value.s2c
    ensures Decode(other, d, clientToServer) == Decode(c, d, clientToServer)
  {
    hide DecodeBody, Read64;
    var header := DecodeHeader(c, d);
    if header.Ok? {
      var body := Unprotect(c, d, header.value, clientToServer);
      if body.Ok? {
        SameBody(c, other, header.value, body.value, clientToServer);
      }
    }
  }

  lemma SameBody(c: Codec, other: Codec, sequence: u64, body: seq<u8>, clientToServer: bool)
    requires other == c.(keys := other.keys)
    ensures DecodeBody(other, sequence, body, clientToServer)
         == DecodeBody(c, sequence, body, clientToServer)
  {
    hide Read16, Read64;
  }

  lemma SameHeader(c: Codec, other: Codec, sequence: u64)
    requires c.sessionId == other.sessionId
    ensures Header(c, sequence) == Header(other, sequence)
  {
  }

  /** The datagram's protected part opens under `cipher`, at its own nonce and header, to `body`. */
  predicate OpensTo(cipher: Cipher, sequence: u64, d: seq<u8>, body: seq<u8>) {
    && |d| >= OUTER_HEADER_SIZE
    && cipher.open(Nonce(sequence), d[..OUTER_HEADER_SIZE], d[OUTER_HEADER_SIZE..]) == Some(body)
  }

  /** Encrypted, client packets open under the client-to-server key. */
  lemma ClientPacketsOpen(c: Codec, sequence: u64, channelSeq: u16, streamType: u8, payload: seq<u8>)
    requires Negotiated(c) && c.encrypted
    ensures var d := EncodeMedia(c, sequence, channelSeq, streamType, payload);
      d.Ok? ==> OpensTo(c.keys.value.c2s, sequence, d.value, Body(streamType, channelSeq, 0, payload))
    ensures var d := EncodeHeartbeat(c, sequence);
      d.Ok? ==> OpensTo(c.keys.value.c2s, sequence, d.value, Body(HEARTBEAT_STREAM_TYPE, 0, 0, []))
  {
    hide Header, Body, Nonce;
    SealedParts(c.keys.value.c2s, c, sequence, Body(streamType, channelSeq, 0, payload));
    SealedParts(c.keys.value.c2s, c, sequence, Body(HEARTBEAT_STREAM_TYPE, 0, 0, []));
  }

  /** Server packets open under the server-to-client key. */
  lemma ServerPacketsOpen(c: Codec, sequence: u64, channelSeq: u16, streamType: u8, speaker: u64,
                          payload: seq<u8>, reason: RevocationReason)
    requires Negotiated(c) && c.encrypted
    ensures var d := EncodeServerMedia(c, sequence, channelSeq, streamType, speaker, payload);
      d.Ok? ==> OpensTo(c.keys.value.s2c, sequence, d.value,
                        Body(streamType, channelSeq, speaker, payload))
    ensures var d := EncodeRevocation(c, sequence, reason);
      d.Ok? ==> OpensTo(c.keys.value.s2c, sequence, d.value,
                        Body(HEARTBEAT_STREAM_TYPE, 0, 0, [AsWire(reason)]))
  {
    hide Header, Body, Nonce, AsWire;
    SealedParts(c.keys.value.s2c, c, sequence, Body(streamType, channelSeq, speaker, payload));
    SealedParts(c.keys.value.s2c, c, sequence, Body(HEARTBEAT_STREAM_TYPE, 0, 0, [AsWire(reason)]));
  }

  lemma SealedParts(cipher: Cipher, c: Codec, sequence: u64, body: seq<u8>)
    requires Authentic(cipher)
    ensures var header := Header(c, sequence);
            OpensTo(cipher, sequence, header + cipher.seal(Nonce(sequence), header, body), body)
  {
    var header := Header(c, sequence);
    var wire := cipher.seal(Nonce(sequence), header, body);
    assert (header + wire)[..OUTER_HEADER_SIZE] == header;
    assert (header + wire)[OUTER_HEADER_SIZE..] == wire;
  }

  /** Sent back to a client, a sealed client packet fails authentication unless the other key opens it. */
  lemma ReflectedSealedIsRefused(c: Codec, d: seq<u8>)
    requires Negotiated(c) && c.encrypted && Decode(c, d, true).Ok?
    ensures Decode(c, d, false) == Err(AuthenticationFailed)
       <==> c.keys.value.s2c.open(Nonce(Decode(c, d, true).value.sequence), d[..OUTER_HEADER_SIZE],
                                  d[OUTER_HEADER_SIZE..]) == None
  {
    hide Nonce, Read16, Read64;
  }
}
