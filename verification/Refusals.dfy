/**
 Which datagrams the decoder refuses, and with which error (`decode_direction`,
 crates/zephyrvox-voice/src/decode.rs): the rules of the wire format as a list, read off
 the bytes by position.
 */
module Refusals {
  import opened Common
  import opened BigEndian
  import opened Codec

  /** What a rule demands, and the error when it is broken. */
  datatype Rule = Rule(broken: bool, error: PacketError)

  /** The error is that of the first broken rule. */
  predicate FirstBroken(rules: seq<Rule>, error: PacketError) {
    exists i :: 0 <= i < |rules| && IsFirst(rules, i) && rules[i].error == error
  }

  predicate IsFirst(rules: seq<Rule>, i: nat)
    requires i < |rules|
  {
    rules[i].broken && forall j :: 0 <= j < i ==> !rules[j].broken
  }

  predicate AllKept(rules: seq<Rule>) {
    forall i :: 0 <= i < |rules| ==> !rules[i].broken
  }

  function At(b: seq<u8>, i: nat): u8 {
    if i < |b| then b[i] else 0
  }

  function Cut(b: seq<u8>, i: nat, j: nat): seq<u8>
    requires i <= j
  {
    if j <= |b| then b[i..j] else []
  }

  const ZEROS: seq<u8> := [0, 0, 0, 0, 0, 0, 0, 0]

  /** The outer header: lengths, then its fields in the order they stand. */
  function HeaderRules(c: Codec, d: seq<u8>): seq<Rule> {
    [Rule(|d| < 42, Truncated),
     Rule(|d| > 1200, Oversized),
     Rule(Cut(d, 0, 4) != [0x5A, 0x56, 0x58, 0x31], InvalidMagic),
     Rule(At(d, 4) != 1, UnsupportedVersion(At(d, 4))),
     Rule(At(d, 5) != 0, InvalidFlags),
     Rule(Cut(d, 6, 22) != c.sessionId, WrongSession),
     Rule(Cut(d, 22, 30) == ZEROS, SequenceZero)]
  }

  /** A speaker is a positive 63-bit number: its first bit is clear and some other is set. */
  predicate IsSpeaker(b: seq<u8>) {
    b != ZEROS && At(b, 0) < 0x80
  }

  /** The channel header and payload. */
  function BodyRules(c: Codec, b: seq<u8>, clientToServer: bool): seq<Rule> {
    var control, speaker := At(b, 0) == 0, Cut(b, 4, 12);
    [Rule(|b| < 12, Truncated),
     Rule(At(b, 3) != 0, InvalidFlags),
     Rule(control && (At(b, 1) != 0 || At(b, 2) != 0 || speaker != ZEROS
                      || |b| > (if clientToServer then 12 else 13)), InvalidControlPacket),
     Rule(!control && !c.allowed[At(b, 0)], UnknownStreamType(At(b, 0))),
     Rule(!control && (if clientToServer then speaker != ZEROS else !IsSpeaker(speaker)), InvalidSpeaker),
     Rule(!control && |b| > 12 + c.maxPayload, PayloadTooLarge(if |b| > 12 then |b| - 12 else 0, c.maxPayload))]
  }

  lemma Big32Zero(a: u8, b: u8, c: u8, d: u8)
    ensures Big32(a, b, c, d) == 0 <==> a == b == c == d == 0
    ensures Big32(a, b, c, d) < 0x8000_0000 <==> a < 0x80
    ensures Big32(a, b, c, d) < 0x1_0000_0000
  {
  }

  lemma ZerosExactly(b: seq<u8>)
    requires |b| == 8
    ensures b == ZEROS <==> b[0] == b[1] == b[2] == b[3] == 0 && b[4] == b[5] == b[6] == b[7] == 0
  {
  }

  lemma Read64Zero(b: seq<u8>)
    requires |b| == 8
    ensures Read64(b) == 0 <==> b == ZEROS
    ensures Read64(b) <= MAX_SNOWFLAKE <==> b[0] < 0x80
  {
    hide Read64, Big32;
    BigIsRead(b);
    ZerosExactly(b);
    Big32Zero(b[0], b[1], b[2], b[3]);
    Big32Zero(b[4], b[5], b[6], b[7]);
  }

  lemma Read16Zero(b: seq<u8>)
    requires |b| == 2
    ensures Read16(b) == 0 <==> b[0] == 0 && b[1] == 0
  {
    SmallIsRead(b);
  }

  /** The outer header is refused exactly for its first broken rule. */
  lemma HeaderRefusedExactly(c: Codec, d: seq<u8>)
    ensures DecodeHeader(c, d).Ok? <==> AllKept(HeaderRules(c, d))
    ensures DecodeHeader(c, d).Err? ==> FirstBroken(HeaderRules(c, d), DecodeHeader(c, d).error)
  {
    hide Read64;
    var rules := HeaderRules(c, d);
    if |d| >= 42 {
      Read64Zero(d[22..30]);
    }
    if DecodeHeader(c, d).Err? {
      var i := if |d| < 42 then 0 else if |d| > 1200 then 1 else if d[..4] != MAGIC then 2
               else if d[4] != 1 then 3 else if d[5] != 0 then 4 else if d[6..22] != c.sessionId then 5 else 6;
      assert IsFirst(rules, i);
    }
  }

  /** So is the body. */
  lemma BodyRefusedExactly(c: Codec, sequence: u64, b: seq<u8>, clientToServer: bool)
    requires Negotiated(c)
    ensures DecodeBody(c, sequence, b, clientToServer).Ok? <==> AllKept(BodyRules(c, b, clientToServer))
    ensures var r := DecodeBody(c, sequence, b, clientToServer);
            r.Err? ==> FirstBroken(BodyRules(c, b, clientToServer), r.error)
  {
    hide Read64, Read16;
    var rules, r := BodyRules(c, b, clientToServer), DecodeBody(c, sequence, b, clientToServer);
    if |b| >= 12 {
      Read16Zero(b[1..3]);
      Read64Zero(b[4..12]);
    }
    if r.Err? {
      var i := if r.error.Truncated? then 0 else if r.error.InvalidFlags? then 1
               else if r.error.InvalidControlPacket? then 2 else if r.error.UnknownStreamType? then 3
               else if r.error.InvalidSpeaker? then 4 else 5;
      assert IsFirst(rules, i);
    }
  }

  /** What encryption demands of a datagram with a good header. */
  function SealRules(c: Codec, d: seq<u8>, sequence: u64, clientToServer: bool): seq<Rule>
    requires Negotiated(c) && c.encrypted && |d| >= 30
  {
    var cipher := if clientToServer then c.keys.value.c2s else c.keys.value.s2c;
    [Rule(|d| < 58, Truncated),
     Rule(cipher.open(Nonce(sequence), d[..30], d[30..]) == None, AuthenticationFailed)]
  }

  lemma SealRefusedExactly(c: Codec, d: seq<u8>, sequence: u64, clientToServer: bool)
    requires Negotiated(c) && c.encrypted && |d| >= 30
    ensures var r, rules := Unprotect(c, d, sequence, clientToServer), SealRules(c, d, sequence, clientToServer);
      && (r.Ok? <==> AllKept(rules))
      && (r.Err? ==> FirstBroken(rules, r.error))
      && (r.Ok? ==> OpensTo(if clientToServer then c.keys.value.c2s else c.keys.value.s2c,
                            sequence, d, r.value))
  {
    hide Nonce;
    var rules := SealRules(c, d, sequence, clientToServer);
    if |d| < 58 {
      assert IsFirst(rules, 0);
    } else if rules[1].broken {
      assert IsFirst(rules, 1);
    }
  }

  /**
   A datagram is refused for the first broken rule of its header; with those kept, of its
   seal, if the session is encrypted; with those kept, of its body.
   */
  lemma RefusedExactly(c: Codec, d: seq<u8>, clientToServer: bool)
    requires Negotiated(c)
    ensures DecodeHeader(c, d).Ok? <==> AllKept(HeaderRules(c, d))
    ensures var r := Decode(c, d, clientToServer);
      if DecodeHeader(c, d).Err? then r.Err? && FirstBroken(HeaderRules(c, d), r.error)
      else
        var sequence := DecodeHeader(c, d).value;
        if c.encrypted && !AllKept(SealRules(c, d, sequence, clientToServer)) then
          r.Err? && FirstBroken(SealRules(c, d, sequence, clientToServer), r.error)
        else
          var body := Unprotect(c, d, sequence, clientToServer);
          && body.Ok? && (!c.encrypted ==> body.value == d[30..])
          && (r.Ok? <==> AllKept(BodyRules(c, body.value, clientToServer)))
          && (r.Err? ==> FirstBroken(BodyRules(c, body.value, clientToServer), r.error))
  {
    HeaderRefusedExactly(c, d);
    hide HeaderRules, SealRules, BodyRules, DecodeHeader, DecodeBody, AllKept, FirstBroken;
    if DecodeHeader(c, d).Ok? {
      KeptIsLong(c, d);
      var sequence := DecodeHeader(c, d).value;
      if c.encrypted {
        SealRefusedExactly(c, d, sequence, clientToServer);
      }
      var body := Unprotect(c, d, sequence, clientToServer);
      if body.Ok? {
        BodyRefusedExactly(c, sequence, body.value, clientToServer);
      }
    }
  }

  lemma KeptIsLong(c: Codec, d: seq<u8>)
    requires DecodeHeader(c, d).Ok?
    ensures |d| >= 42
  {
  }
}
