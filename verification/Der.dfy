/**
 The DER walker behind public-key pinning (`read_tlv` and `spki_sha256`,
 crates/zephyrvox-http/src/tls_pin.rs; crates/zephyrvox-realtime/src/tls.rs has the same
 code). It finds the bytes of a certificate's SubjectPublicKeyInfo; hashing them is not
 part of this model.

 `TlvAt` and `SpkiOf` say what the methods return; a reference encoder, in the length
 forms of section 8.1.3 of X.690, says what that means.
 */
module Der {
  import opened Common
  import opened BigEndian

  /** A tag, and where its contents start and end; the next element starts at the end. */
  datatype Tlv = Tlv(tag: u8, start: nat, end: nat)

  /** The element at `offset`: short or long definite length, contents within the input. */
  function TlvAt(input: seq<u8>, offset: nat): (t: Option<Tlv>)
    ensures t.Some? ==> offset + 2 <= t.value.start <= t.value.end <= |input|
  {
    if offset + 1 >= |input| then None
    else
      var first := input[offset + 1];
      var octets := if first < 0x80 then 0 else first - 0x80;
      var start := offset + 2 + octets;
      if first >= 0x80 && (octets == 0 || octets > 8 || start > |input|) then None
      else
        var length := if first < 0x80 then first else FromBytes(input[offset + 2..start]);
        if start + length > U64_MAX || start + length > |input| then None
        else Some(Tlv(input[offset], start, start + length))
  }

  /** `read_tlv`: the length is shifted in an octet at a time, in a 64-bit word. */
  method ReadTlv(input: seq<u8>, offset: nat) returns (t: Option<Tlv>)
    ensures t == TlvAt(input, offset)
  {
    if offset >= |input| || offset + 1 >= |input| {
      return None;
    }
    var tag, lengthByte := input[offset], input[offset + 1];
    var length, contentStart := lengthByte, offset + 2;
    if lengthByte >= 0x80 {
      var lengthBytes := lengthByte - 0x80;
      if lengthBytes == 0 || lengthBytes > 8 {
        return None;
      }
      if offset + 2 + lengthBytes > |input| {
        return None;
      }
      length := 0;
      ghost var octets := input[offset + 2..offset + 2 + lengthBytes];
      for i := 0 to lengthBytes
        invariant length == FromBytes(octets[..i])
      {
        ShiftDoesNotTruncate(octets, i);
        length := (length * 0x100) % U64_SIZE + input[offset + 2 + i];
        assert octets[..i + 1][..i] == octets[..i];
      }
      assert octets[..lengthBytes] == octets;
      contentStart := offset + 2 + lengthBytes;
    }
    if contentStart + length > U64_MAX {
      return None;
    }
    if contentStart + length > |input| {
      return None;
    }
    t := Some(Tlv(tag, contentStart, contentStart + length));
  }

  /**
   `checked_shl` drops the bits shifted out and `checked_add` would refuse a carry; with
   at most eight octets there is neither.
   */
  lemma ShiftDoesNotTruncate(octets: seq<u8>, i: nat)
    requires i < |octets| <= 8
    ensures (FromBytes(octets[..i]) * 0x100) % U64_SIZE == FromBytes(octets[..i]) * 0x100
    ensures FromBytes(octets[..i]) * 0x100 + octets[i] <= U64_MAX
  {
    var n := FromBytes(octets[..i]);
    FromBytesBound(octets[..i]);
    Pow256Monotonic(i, 7);
    assert Pow256(8) == 0x100 * Pow256(7);
    Pow256Eight();
  }

  // ----- the walk --------------------------------------------------------------------------

  /** The offset after `count` more elements. */
  function Skip(input: seq<u8>, offset: nat, count: nat): (end: Option<nat>)
    requires offset <= |input|
    ensures end.Some? ==> offset + 2 * count <= end.value <= |input|
    decreases count
  {
    if count == 0 then Some(offset)
    else
      var t := TlvAt(input, offset);
      if t.None? then None else Skip(input, t.value.end, count - 1)
  }

  /** The subject public key of a TBSCertificate: past the version, if any, and five fields. */
  function SpkiIn(tbs: seq<u8>): Option<seq<u8>> {
    var first := TlvAt(tbs, 0);
    if first.None? then None
    else
      var offset := Skip(tbs, if first.value.tag == 0xa0 then first.value.end else 0, 5);
      if offset.None? then None
      else
        var spki := TlvAt(tbs, offset.value);
        if spki.None? then None else Some(tbs[offset.value..spki.value.end])
  }

  function SpkiOf(certificate: seq<u8>): Option<seq<u8>> {
    var outer := TlvAt(certificate, 0);
    if outer.None? || outer.value.tag != 0x30 || outer.value.end != |certificate| then None
    else
      var body := certificate[outer.value.start..outer.value.end];
      var tbs := TlvAt(body, 0);
      if tbs.None? || tbs.value.tag != 0x30 then None
      else SpkiIn(body[tbs.value.start..tbs.value.end])
  }

  lemma SubSlice(s: seq<u8>, a: nat, b: nat, i: nat, j: nat)
    requires a <= b <= |s| && i <= j <= b - a
    ensures s[a..b][i..j] == s[a + i..a + j]
  {
    var part := s[a..b][i..j];
    forall k | 0 <= k < j - i ensures part[k] == s[a + i..a + j][k] {
      assert part[k] == s[a..b][i + k];
    }
  }

  lemma JoinSlices(input: seq<u8>, a: nat, b: nat, c: nat)
    requires a <= b <= c <= |input|
    ensures input[a..b] + input[b..c] == input[a..c]
  {
  }

  /** The slice that `spki_sha256` hashes. Every index it takes is in bounds. */
  method SpkiSlice(certificate: seq<u8>) returns (spki: Option<seq<u8>>)
    ensures spki == SpkiOf(certificate)
  {
    hide TlvAt;
    var outer := ReadTlv(certificate, 0);
    if outer.None? {
      return None;
    }
    if outer.value.tag != 0x30 || outer.value.end != |certificate| {
      return None;
    }
    var inner := ReadTlv(certificate[outer.value.start..outer.value.end], 0);
    if inner.None? || inner.value.tag != 0x30 {
      return None;
    }
    var tbs := certificate[outer.value.start + inner.value.start..outer.value.start + inner.value.end];
    SubSlice(certificate, outer.value.start, outer.value.end, inner.value.start, inner.value.end);
    var offset: nat := 0;
    var t := ReadTlv(tbs, offset);
    if t.None? {
      return None;
    }
    if t.value.tag == 0xa0 {
      offset := t.value.end;
    }
    ghost var begin := offset;
    for i := 0 to 5
      invariant offset <= |tbs|
      invariant Skip(tbs, begin, 5) == Skip(tbs, offset, 5 - i)
    {
      t := ReadTlv(tbs, offset);
      if t.None? {
        return None;
      }
      offset := t.value.end;
    }
    t := ReadTlv(tbs, offset);
    if t.None? {
      return None;
    }
    spki := Some(tbs[offset..t.value.end]);
  }

  // ----- the reference encoder -------------------------------------------------------------

  /** The short form holds lengths below 128; the long form says how many octets follow. */
  datatype LengthForm = Short | Long(octets: nat)

  datatype Element = Element(tag: u8, form: LengthForm, content: seq<u8>)

  predicate Fits(e: Element) {
    match e.form
    case Short => |e.content| < 0x80
    case Long(k) => 1 <= k <= 8 && |e.content| < Pow256(k)
  }

  function EncodeLength(form: LengthForm, length: nat): seq<u8> {
    match form
    case Short => [length % 0x80]
    case Long(k) => [0x80 + k % 0x80] + ToBytes(length, k)
  }

  function Encode(e: Element): seq<u8> {
    [e.tag] + EncodeLength(e.form, |e.content|) + e.content
  }

  function EncodeAll(elements: seq<Element>): seq<u8> {
    if |elements| == 0 then [] else Encode(elements[0]) + EncodeAll(elements[1..])
  }

  /** A TBSCertificate as section 4.1 of RFC 5280 lays it out, as far as the walk looks. */
  datatype TbsCertificate = TbsCertificate(
    version: Option<Element>,
    fields: seq<Element>,
    spki: Element,
    /** What follows the key is not looked at. */
    rest: seq<u8>)

  /** A certificate: the TBSCertificate, then a signature that is not looked at. */
  datatype Certificate = Certificate(
    outerForm: LengthForm, tbsForm: LengthForm, tbs: TbsCertificate, rest: seq<u8>)

  function Contents(t: TbsCertificate): seq<u8> {
    (if t.version.Some? then Encode(t.version.value) else [])
    + EncodeAll(t.fields) + (Encode(t.spki) + t.rest)
  }

  function Tbs(c: Certificate): Element {
    Element(0x30, c.tbsForm, Contents(c.tbs))
  }

  function Outer(c: Certificate): Element {
    Element(0x30, c.outerForm, Encode(Tbs(c)) + c.rest)
  }

  /** A version has tag [0]; without one the first field must not look like it. */
  predicate WellFormedTbs(t: TbsCertificate) {
    && Fits(t.spki)
    && |t.fields| == 5 && (forall f :: f in t.fields ==> Fits(f))
    && (if t.version.Some? then Fits(t.version.value) && t.version.value.tag == 0xa0
        else t.fields[0].tag != 0xa0)
  }

  predicate WellFormed(c: Certificate) {
    Fits(Outer(c)) && Fits(Tbs(c)) && WellFormedTbs(c.tbs)
  }

  // ----- reading what was encoded ----------------------------------------------------------

  /** The bytes of `part` stand at `offset`. */
  predicate Holds(input: seq<u8>, offset: nat, part: seq<u8>) {
    offset + |part| <= |input| && input[offset..offset + |part|] == part
  }

  lemma HoldsParts(input: seq<u8>, offset: nat, a: seq<u8>, b: seq<u8>)
    requires Holds(input, offset, a + b)
    ensures Holds(input, offset, a) && Holds(input, offset + |a|, b)
  {
    assert input[offset..offset + |a|] == (a + b)[..|a|];
    assert input[offset + |a|..offset + |a + b|] == (a + b)[|a|..];
  }

  lemma HeldAt(input: seq<u8>, offset: nat, part: seq<u8>, k: nat)
    requires Holds(input, offset, part) && k < |part|
    ensures input[offset + k] == part[k]
  {
    assert input[offset..offset + |part|][k] == part[k];
  }

  lemma ReadsShort(input: seq<u8>, offset: nat, length: nat)
    requires length < 0x80 && offset + 2 + length <= |input| <= U64_MAX
    requires input[offset + 1] == length
    ensures TlvAt(input, offset) == Some(Tlv(input[offset], offset + 2, offset + 2 + length))
  {
  }

  lemma ReadsLong(input: seq<u8>, offset: nat, k: nat, length: nat)
    requires 1 <= k <= 8 && offset + 2 + k + length <= |input| <= U64_MAX
    requires input[offset + 1] == 0x80 + k
    requires FromBytes(input[offset + 2..offset + 2 + k]) == length
    ensures TlvAt(input, offset)
         == Some(Tlv(input[offset], offset + 2 + k, offset + 2 + k + length))
  {
    hide FromBytes;
  }

  /** An encoded element is read back wherever it stands. */
  lemma ReadsEncoded(input: seq<u8>, offset: nat, e: Element)
    requires Fits(e) && Holds(input, offset, Encode(e)) && |input| <= U64_MAX
    ensures TlvAt(input, offset).Some?
    ensures TlvAt(input, offset).value.tag == e.tag
    ensures TlvAt(input, offset).value.end == offset + |Encode(e)|
    ensures input[TlvAt(input, offset).value.start..TlvAt(input, offset).value.end] == e.content
  {
    hide TlvAt, FromBytes, ToBytes, Pow256;
    var length := |e.content|;
    var header := [e.tag] + EncodeLength(e.form, length);
    HoldsParts(input, offset, header, e.content);
    HeldAt(input, offset, header, 0);
    HeldAt(input, offset, header, 1);
    match e.form
    case Short => ReadsShort(input, offset, length);
    case Long(k) =>
      var octets := ToBytes(length, k);
      assert header == [e.tag, 0x80 + k] + octets;
      HoldsParts(input, offset, [e.tag, 0x80 + k], octets);
      FromToBytes(length, k);
      ReadsLong(input, offset, k, length);
  }

  lemma {:induction false} SkipsEncoded(input: seq<u8>, offset: nat, elements: seq<Element>)
    requires forall f :: f in elements ==> Fits(f)
    requires Holds(input, offset, EncodeAll(elements)) && |input| <= U64_MAX
    ensures Skip(input, offset, |elements|) == Some(offset + |EncodeAll(elements)|)
    decreases |elements|
  {
    hide TlvAt, Fits, Encode, Holds;
    assert offset <= |input| by { HoldsBound(input, offset, EncodeAll(elements)); }
    if |elements| > 0 {
      HoldsParts(input, offset, Encode(elements[0]), EncodeAll(elements[1..]));
      ReadsEncoded(input, offset, elements[0]);
      SkipsEncoded(input, offset + |Encode(elements[0])|, elements[1..]);
    }
  }

  lemma HoldsBound(input: seq<u8>, offset: nat, part: seq<u8>)
    requires Holds(input, offset, part)
    ensures offset + |part| <= |input|
  {
  }

  lemma HoldsAll(input: seq<u8>)
    ensures Holds(input, 0, input)
  {
  }

  /** The walk finds the key of every encoded TBSCertificate. */
  lemma FindsSpkiInTbs(t: TbsCertificate)
    requires WellFormedTbs(t) && |Contents(t)| <= U64_MAX
    ensures SpkiIn(Contents(t)) == Some(Encode(t.spki))
  {
    hide TlvAt, Skip, Fits, Encode, EncodeAll, Holds;
    var version := if t.version.Some? then Encode(t.version.value) else [];
    var tbs := Contents(t);
    HoldsAll(tbs);
    HoldsParts(tbs, 0, version + EncodeAll(t.fields), Encode(t.spki) + t.rest);
    HoldsParts(tbs, 0, version, EncodeAll(t.fields));
    var offset := |version| + |EncodeAll(t.fields)|;
    HoldsParts(tbs, offset, Encode(t.spki), t.rest);
    if t.version.Some? {
      ReadsEncoded(tbs, 0, t.version.value);
    } else {
      FirstOfAll(t.fields);
      HoldsParts(tbs, 0, Encode(t.fields[0]), EncodeAll(t.fields[1..]));
      ReadsEncoded(tbs, 0, t.fields[0]);
    }
    SkipsEncoded(tbs, |version|, t.fields);
    ReadsEncoded(tbs, offset, t.spki);
    HeldSlice(tbs, offset, Encode(t.spki));
  }

  lemma FirstOfAll(elements: seq<Element>)
    requires |elements| > 0
    ensures EncodeAll(elements) == Encode(elements[0]) + EncodeAll(elements[1..])
  {
  }

  lemma HeldSlice(input: seq<u8>, offset: nat, part: seq<u8>)
    requires Holds(input, offset, part)
    ensures offset + |part| <= |input| && input[offset..offset + |part|] == part
  {
  }

  /** The hashed slice of every encoded certificate is its encoded SubjectPublicKeyInfo. */
  lemma FindsSpki(c: Certificate)
    requires WellFormed(c) && |Encode(Outer(c))| <= U64_MAX
    ensures SpkiOf(Encode(Outer(c))) == Some(Encode(c.tbs.spki))
  {
    hide SpkiIn, WellFormedTbs, Contents, TlvAt, Encode, Holds, Fits;
    OuterShape(c);
    HoldsAll(Encode(Outer(c)));
    ReadsEncoded(Encode(Outer(c)), 0, Outer(c));
    HoldsAll(Outer(c).content);
    HoldsParts(Outer(c).content, 0, Encode(Tbs(c)), c.rest);
    ReadsEncoded(Outer(c).content, 0, Tbs(c));
    FindsSpkiInTbs(c.tbs);
  }

  lemma OuterShape(c: Certificate)
    requires WellFormed(c)
    ensures Fits(Outer(c)) && Fits(Tbs(c))
    ensures |Tbs(c).content| <= |Encode(Tbs(c))| <= |Outer(c).content| <= |Encode(Outer(c))|
  {
  }

  // ----- only what was encoded is read -----------------------------------------------------

  /** The element that was read. */
  function ElementAt(input: seq<u8>, offset: nat): Element
    requires TlvAt(input, offset).Some?
  {
    var t := TlvAt(input, offset).value;
    var first := input[offset + 1];
    Element(t.tag, if first < 0x80 then Short else Long(first - 0x80), input[t.start..t.end])
  }

  lemma ReadIsEncoded(input: seq<u8>, offset: nat)
    requires TlvAt(input, offset).Some?
    ensures Fits(ElementAt(input, offset))
    ensures Encode(ElementAt(input, offset)) == input[offset..TlvAt(input, offset).value.end]
    ensures ElementAt(input, offset).tag == TlvAt(input, offset).value.tag
  {
    hide FromBytes, ToBytes, Pow256;
    var t, first := TlvAt(input, offset).value, input[offset + 1];
    if first >= 0x80 {
      LongIsEncoded(input, offset, first - 0x80);
    } else {
      assert input[offset..offset + 2] == [t.tag, first];
    }
    JoinSlices(input, offset, t.start, t.end);
  }

  lemma LongIsEncoded(input: seq<u8>, offset: nat, k: nat)
    requires offset + 2 + k <= |input| && 1 <= k <= 8 && input[offset + 1] == 0x80 + k
    ensures FromBytes(input[offset + 2..offset + 2 + k]) < Pow256(k)
    ensures [input[offset]] + EncodeLength(Long(k), FromBytes(input[offset + 2..offset + 2 + k]))
         == input[offset..offset + 2 + k]
  {
    hide FromBytes, ToBytes, Pow256;
    var octets := input[offset + 2..offset + 2 + k];
    FromBytesBound(octets);
    ToFromBytes(octets);
    assert input[offset..offset + 2] == [input[offset], 0x80 + k];
    JoinSlices(input, offset, offset + 2, offset + 2 + k);
    assert [input[offset]] + ([0x80 + k] + octets) == [input[offset], 0x80 + k] + octets;
  }

  function ElementsAt(input: seq<u8>, offset: nat, count: nat): (elements: seq<Element>)
    requires offset <= |input| && Skip(input, offset, count).Some?
    ensures |elements| == count
    decreases count
  {
    if count == 0 then []
    else [ElementAt(input, offset)] + ElementsAt(input, TlvAt(input, offset).value.end, count - 1)
  }

  lemma {:induction false} SkippedIsEncoded(input: seq<u8>, offset: nat, count: nat)
    requires offset <= |input| && Skip(input, offset, count).Some?
    ensures EncodeAll(ElementsAt(input, offset, count)) == input[offset..Skip(input, offset, count).value]
    ensures forall f :: f in ElementsAt(input, offset, count) ==> Fits(f)
    decreases count
  {
    hide Encode, Fits, TlvAt, ElementAt;
    if count > 0 {
      var next := TlvAt(input, offset).value.end;
      var first, others := ElementAt(input, offset), ElementsAt(input, next, count - 1);
      ReadIsEncoded(input, offset);
      SkippedIsEncoded(input, next, count - 1);
      AllOfCons(first, others);
      JoinSlices(input, offset, next, Skip(input, offset, count).value);
    }
  }

  lemma AllOfCons(first: Element, others: seq<Element>)
    ensures EncodeAll([first] + others) == Encode(first) + EncodeAll(others)
  {
    assert ([first] + others)[1..] == others;
  }

  /** The TBSCertificate that was walked. */
  function TbsOf(tbs: seq<u8>): TbsCertificate
    requires SpkiIn(tbs).Some?
  {
    var first := TlvAt(tbs, 0).value;
    var versioned := first.tag == 0xa0;
    var begin := if versioned then first.end else 0;
    var offset := Skip(tbs, begin, 5).value;
    TbsCertificate(
      if versioned then Some(ElementAt(tbs, 0)) else None,
      ElementsAt(tbs, begin, 5), ElementAt(tbs, offset), tbs[TlvAt(tbs, offset).value.end..])
  }

  lemma WalkedTbsIsEncoded(tbs: seq<u8>)
    requires SpkiIn(tbs).Some?
    ensures WellFormedTbs(TbsOf(tbs)) && Contents(TbsOf(tbs)) == tbs
    ensures SpkiIn(tbs) == Some(Encode(TbsOf(tbs).spki))
  {
    hide Encode, Fits, TlvAt, Skip, EncodeAll, ElementAt;
    var first := TlvAt(tbs, 0).value;
    var begin := if first.tag == 0xa0 then first.end else 0;
    var offset := Skip(tbs, begin, 5).value;
    var next := TlvAt(tbs, offset).value.end;
    ReadIsEncoded(tbs, 0);
    SkippedIsEncoded(tbs, begin, 5);
    ReadIsEncoded(tbs, offset);
    JoinSlices(tbs, 0, begin, offset);
    JoinSlices(tbs, offset, next, |tbs|);
    JoinSlices(tbs, 0, offset, |tbs|);
    assert tbs[0..|tbs|] == tbs && tbs[0..0] == [];
    assert begin == 0 ==> ElementsAt(tbs, 0, 5)[0] == ElementAt(tbs, 0);
  }

  /** The certificate that was walked. */
  function CertificateOf(certificate: seq<u8>): Certificate
    requires SpkiOf(certificate).Some?
  {
    var outer := TlvAt(certificate, 0).value;
    var body := certificate[outer.start..outer.end];
    var inner := TlvAt(body, 0).value;
    Certificate(ElementAt(certificate, 0).form, ElementAt(body, 0).form,
                TbsOf(body[inner.start..inner.end]), body[inner.end..])
  }

  /** Only encoded certificates are accepted, and only their key is hashed. */
  lemma AcceptedIsEncoded(certificate: seq<u8>)
    requires SpkiOf(certificate).Some?
    ensures WellFormed(CertificateOf(certificate))
    ensures Encode(Outer(CertificateOf(certificate))) == certificate
    ensures SpkiOf(certificate) == Some(Encode(CertificateOf(certificate).tbs.spki))
  {
    hide Encode, Fits, TlvAt, SpkiIn, TbsOf, WellFormedTbs, Contents;
    var c := CertificateOf(certificate);
    var outer := TlvAt(certificate, 0).value;
    var body := certificate[outer.start..outer.end];
    var inner := TlvAt(body, 0).value;
    ReadIsEncoded(certificate, 0);
    ReadIsEncoded(body, 0);
    WalkedTbsIsEncoded(body[inner.start..inner.end]);
    assert Tbs(c) == ElementAt(body, 0);
    JoinSlices(body, 0, inner.end, |body|);
    assert body[0..|body|] == body;
    assert Outer(c) == ElementAt(certificate, 0);
    assert certificate[0..outer.end] == certificate;
  }

  /**
   The walk accepts exactly the certificates of the reference encoder, in any length form
   of up to eight octets, and what it hashes is exactly the encoded key.
   */
  lemma SpkiExactly(certificate: seq<u8>, spki: seq<u8>)
    requires |certificate| <= U64_MAX
    ensures SpkiOf(certificate) == Some(spki)
       <==> exists c :: WellFormed(c) && Encode(Outer(c)) == certificate && Encode(c.tbs.spki) == spki
  {
    if SpkiOf(certificate) == Some(spki) {
      AcceptedIsEncoded(certificate);
    }
    forall c | WellFormed(c) && Encode(Outer(c)) == certificate && Encode(c.tbs.spki) == spki
      ensures SpkiOf(certificate) == Some(spki)
    {
      FindsSpki(c);
    }
  }
}
