/** X.509 certificates around a to-be-signed part (section 4.1 of RFC 5280): assembling one
    from the part and a signature, and taking both out again. */
module Certificates {
  import opened WireBytes
  import opened Scalars
  import opened DerSignatures

  const BIT_STRING: Byte := 0x03
  const OID: Byte := 0x06

  // ----- nodes in a buffer

  /** How many octets tag and length take. */
  function HeaderSize(n: nat): nat {
    if n < 128 then 2 else if n < 256 then 3 else 4
  }

  function Word(high: nat, low: nat): nat {
    high * 256 + low
  }

  datatype Node = Node(body: nat, next: nat)

  /** The node at pos: where its body starts and where it ends. The length must take as
      few octets as it can, and at most two of its own. */
  function ReadNode(b: Bytes, pos: nat, tag: Byte): (r: Option<Node>)
    ensures r.Some? ==> pos + 2 <= r.value.body <= r.value.next <= |b|
  {
    if pos + 2 > |b| || b[pos] != tag then None
    else
      var l := b[pos + 1];
      if l < 128 then
        if l <= |b| - pos - 2 then Some(Node(pos + 2, pos + 2 + l)) else None
      else if l == 0x81 then
        if pos + 3 <= |b| && 128 <= b[pos + 2] && b[pos + 2] <= |b| - pos - 3
            then Some(Node(pos + 3, pos + 3 + b[pos + 2])) else None
      else if l == 0x82 then
        if pos + 4 > |b| then None
        else
          var n := Word(b[pos + 2], b[pos + 3]);
          if 256 <= n && n <= |b| - pos - 4 then Some(Node(pos + 4, pos + 4 + n)) else None
      else None
  }

  /** A wrapped body reads back wherever it stands, if its length was not cut. */
  lemma ReadWrapped(b: Bytes, pos: nat, tag: Byte, body: Bytes)
    requires |body| <= 65535
    requires pos + |DerWrap(tag, body)| <= |b| && b[pos..pos + |DerWrap(tag, body)|] == DerWrap(tag, body)
    ensures ReadNode(b, pos, tag) == Some(Node(pos + HeaderSize(|body|), pos + |DerWrap(tag, body)|))
    ensures b[pos + HeaderSize(|body|)..pos + |DerWrap(tag, body)|] == body
  {
    var node := DerWrap(tag, body);
    var n := |body|;
    assert forall i | 0 <= i < |node| :: b[pos + i] == b[pos..pos + |node|][i] == node[i];
    assert b[pos] == node[0] && b[pos + 1] == node[1];
    if n >= 256 {
      assert b[pos + 2] == node[2] == n / 256 && b[pos + 3] == node[3] == n % 256;
    } else if n >= 128 {
      assert b[pos + 2] == node[2] == n;
    }
    assert b[pos + HeaderSize(n)..pos + |node|] == b[pos..pos + |node|][HeaderSize(n)..];
  }

  /** What reads as a node is a wrapped body of at most 65535 bytes. */
  lemma ReadIsWrapped(b: Bytes, pos: nat, tag: Byte)
    requires ReadNode(b, pos, tag).Some?
    ensures var r := ReadNode(b, pos, tag).value;
        r.next - r.body <= 65535
        && b[pos..r.next] == DerWrap(tag, b[r.body..r.next])
  {
    var r := ReadNode(b, pos, tag).value;
    var body := b[r.body..r.next];
    assert b[pos..r.next] == b[pos..r.body] + body;
    assert b[pos..r.body] == [tag] + LengthOctets(|body|);
  }

  /** One node and nothing else. */
  predicate WellFormed(b: Bytes, tag: Byte) {
    ReadNode(b, 0, tag).Some? && ReadNode(b, 0, tag).value.next == |b|
  }

  lemma WellFormedIffWrapped(b: Bytes, tag: Byte)
    ensures WellFormed(b, tag) <==> exists body: Bytes :: |body| <= 65535 && b == DerWrap(tag, body)
  {
    hide DerWrap, ReadNode;
    if WellFormed(b, tag) {
      ReadIsWrapped(b, 0, tag);
      var r := ReadNode(b, 0, tag).value;
      assert b[0..r.next] == b;
    }
    forall body: Bytes | |body| <= 65535 && b == DerWrap(tag, body) ensures WellFormed(b, tag) {
      assert b[0..|b|] == b;
      ReadWrapped(b, 0, tag, body);
    }
  }

  // ----- certificates

  /** ecdsa-with-SHA256. */
  const ALGORITHM: Bytes := DerWrap(SEQUENCE, DerWrap(OID, [0x2a, 0x86, 0x48, 0xce, 0x3d, 0x04, 0x03, 0x02]))

  function SignatureBits(raw: Raw): Bytes {
    DerWrap(BIT_STRING, [0] + DerSignatures.Encode(raw[..32], raw[32..]))
  }

  /** Everything inside the outer sequence. */
  function CertificateBody(tbs: Bytes, raw: Raw): Bytes {
    tbs + ALGORITHM + SignatureBits(raw)
  }

  function Certificate(tbs: Bytes, raw: Raw): Bytes {
    DerWrap(SEQUENCE, CertificateBody(tbs, raw))
  }

  method AssembleCertificate(tbs: Bytes, raw: Raw) returns (ok: bool, cert: Bytes)
    ensures ok <==> tbs != [] && Valid(raw[..32]) && Valid(raw[32..])
    ensures cert == if ok then Certificate(tbs, raw) else []
  {
    cert := [];
    if tbs == [] { return false, cert; }
    var der;
    ok, der := RawSignatureToDer(raw);
    if !ok { return; }
    var oid := DerWrapped(OID, [0x2a, 0x86, 0x48, 0xce, 0x3d, 0x04, 0x03, 0x02]);
    var algorithm := DerWrapped(SEQUENCE, oid);
    var bits: Bytes := [0];
    bits := bits + der;
    var bitString := DerWrapped(BIT_STRING, bits);
    var body := tbs;
    body := body + algorithm;
    body := body + bitString;
    cert := DerWrapped(SEQUENCE, body);
  }

  datatype Parts = Parts(tbs: Bytes, r: Scalar, s: Scalar)

  /** The three nodes inside, if they are there and nothing else is. */
  function Inner(body: Bytes): (r: Option<(Node, Node, Node)>)
    ensures r.Some? ==> r.value.2.body <= |body| && ReadNode(body, 0, SEQUENCE) == Some(r.value.0)
  {
    var tbs := ReadNode(body, 0, SEQUENCE);
    if tbs.None? then None
    else
      var algorithm := ReadNode(body, tbs.value.next, SEQUENCE);
      if algorithm.None? then None
      else
        var bits := ReadNode(body, algorithm.value.next, BIT_STRING);
        if bits.None? || bits.value.next != |body| then None else Some((tbs.value, algorithm.value, bits.value))
  }

  ghost function Extract(cert: Bytes): Option<Parts> {
    if !WellFormed(cert, SEQUENCE) then None
    else
      var body := cert[ReadNode(cert, 0, SEQUENCE).value.body..];
      var inner := Inner(body);
      if inner.None? then None
      else
        var bits := body[inner.value.2.body..];
        if |bits| < 2 || bits[0] != 0 then None
        else
          var signature := DerSignatures.Decode(bits[1..]);
          if signature.None? then None else Some(Parts(body[..inner.value.0.next], signature.value.0,
              signature.value.1))
  }

  /** A body of more than 65535 bytes has its length cut: the certificate is not even one
      node. */
  lemma CutIsBroken(body: Bytes)
    requires |body| > 65535
    ensures !WellFormed(DerWrap(SEQUENCE, body), SEQUENCE)
  {
    var cert, n := DerWrap(SEQUENCE, body), |body|;
    assert cert[..4] == [SEQUENCE] + LengthOctets(n);
    assert cert[1] == 0x82 && cert[2] == n / 256 % 256 && cert[3] == n % 256;
    assert n / 256 % 256 * 256 + n % 256 < 65536;
  }

  /** The outer node gives back its body, unless that was cut. */
  lemma OuterBody(tbs: Bytes, raw: Raw)
    ensures WellFormed(Certificate(tbs, raw), SEQUENCE) <==> |CertificateBody(tbs, raw)| <= 65535
    ensures |CertificateBody(tbs, raw)| <= 65535 ==>
              Certificate(tbs, raw)[ReadNode(Certificate(tbs, raw), 0, SEQUENCE).value.body..]
                == CertificateBody(tbs, raw)
  {
    hide CertificateBody;
    var body, cert := CertificateBody(tbs, raw), Certificate(tbs, raw);
    if |body| > 65535 {
      CutIsBroken(body);
    } else {
      assert cert[0..|cert|] == cert;
      ReadWrapped(cert, 0, SEQUENCE, body);
    }
  }

  lemma ThreeNodes(a: Bytes, b: Bytes, c: Bytes)
    requires |a| <= 65535 && |b| <= 65535 && |c| <= 65535
    ensures var body := DerWrap(SEQUENCE, a) + DerWrap(SEQUENCE, b) + DerWrap(BIT_STRING, c);
            && Inner(body).Some? && Inner(body).value.0.next == |DerWrap(SEQUENCE, a)|
            && body[Inner(body).value.2.body..] == c
  {
    var first, second, third := DerWrap(SEQUENCE, a), DerWrap(SEQUENCE, b), DerWrap(BIT_STRING, c);
    var body := first + second + third;
    var at := |first| + |second|;
    hide ReadNode, DerWrap, HeaderSize, LengthOctets;
    assert body[0..|first|] == first && body[|first|..at] == second && body[at..|body|] == third;
    ReadWrapped(body, 0, SEQUENCE, a);
    ReadWrapped(body, |first|, SEQUENCE, b);
    ReadWrapped(body, at, BIT_STRING, c);
  }

  /** The nodes inside a certificate's body. */
  lemma InnerNodes(tbs: Bytes, raw: Raw)
    requires WellFormed(tbs, SEQUENCE)
    ensures var body := CertificateBody(tbs, raw);
            Inner(body).Some? && Inner(body).value.0.next == |tbs|
            && body[Inner(body).value.2.body..] == [0] + DerSignatures.Encode(raw[..32], raw[32..])
  {
    hide DerSignatures.Encode, ReadNode, WellFormed, Inner;
    WellFormedIffWrapped(tbs, SEQUENCE);
    var inside: Bytes :| |inside| <= 65535 && tbs == DerWrap(SEQUENCE, inside);
    ThreeNodes(inside, DerWrap(OID, [0x2a, 0x86, 0x48, 0xce, 0x3d, 0x04, 0x03, 0x02]),
        [0] + DerSignatures.Encode(raw[..32], raw[32..]));
  }

  lemma Recovered(tbs: Bytes, raw: Raw)
    requires Valid(raw[..32]) && Valid(raw[32..])
    requires WellFormed(tbs, SEQUENCE) && |CertificateBody(tbs, raw)| <= 65535
    ensures Extract(Certificate(tbs, raw)) == Some(Parts(tbs, raw[..32], raw[32..]))
  {
    hide DerSignatures.Encode, DerSignatures.Decode, ReadNode, Certificate, Inner, WellFormed;
    OuterBody(tbs, raw);
    InnerNodes(tbs, raw);
    DecodeEncode(raw[..32], raw[32..]);
    var body := CertificateBody(tbs, raw);
    var bits := body[Inner(body).value.2.body..];
    assert bits[1..] == DerSignatures.Encode(raw[..32], raw[32..]);
    assert body[..|tbs|] == tbs;
  }

  lemma PrefixIsNode(b: Bytes, tag: Byte)
    requires ReadNode(b, 0, tag).Some?
    ensures WellFormed(b[..ReadNode(b, 0, tag).value.next], tag)
  {
    hide ReadNode, WellFormed, DerWrap;
    ReadIsWrapped(b, 0, tag);
    var r := ReadNode(b, 0, tag).value;
    assert b[0..r.next] == b[..r.next];
    WellFormedIffWrapped(b[..r.next], tag);
  }

  /** Whatever Extract returns as the part is one well-formed sequence. */
  lemma ExtractedIsNode(cert: Bytes)
    requires Extract(cert).Some?
    ensures WellFormed(Extract(cert).value.tbs, SEQUENCE)
  {
    hide DerSignatures.Decode, ReadNode, Inner;
    PrefixIsNode(cert[ReadNode(cert, 0, SEQUENCE).value.body..], SEQUENCE);
  }

  /** Taking a certificate apart gives back exactly the part and the signature it was
      assembled from, if and only if the part is one well-formed sequence and everything
      fits the two-byte length. */
  lemma RoundTrip(tbs: Bytes, raw: Raw)
    requires Valid(raw[..32]) && Valid(raw[32..])
    ensures Extract(Certificate(tbs, raw)) == Some(Parts(tbs, raw[..32], raw[32..]))
            <==> WellFormed(tbs, SEQUENCE) && |CertificateBody(tbs, raw)| <= 65535
  {
    hide CertificateBody, Certificate, ReadNode, Inner, WellFormed;
    OuterBody(tbs, raw);
    if WellFormed(tbs, SEQUENCE) && |CertificateBody(tbs, raw)| <= 65535 {
      Recovered(tbs, raw);
    } else if Extract(Certificate(tbs, raw)).Some? {
      ExtractedIsNode(Certificate(tbs, raw));
    }
  }

  /** The node reader of the code, on a position it moves. */
  method ReadNodeAt(b: Bytes, pos: nat, tag: Byte) returns (ok: bool, body: nat, next: nat)
    requires pos <= |b|
    ensures ok <==> ReadNode(b, pos, tag).Some?
    ensures ok ==> Node(body, next) == ReadNode(b, pos, tag).value
  {
    ok, body, next := false, pos, pos;
    if pos + 2 > |b| || b[pos] != tag { return; }
    var l: nat := b[pos + 1];
    var header, n := 2, 0;
    if l < 128 {
      n := l;
    } else if l == 0x81 {
      if pos + 3 > |b| || b[pos + 2] < 128 { return; }
      header, n := 3, b[pos + 2];
    } else if l == 0x82 {
      if pos + 4 > |b| { return; }
      header, n := 4, Word(b[pos + 2], b[pos + 3]);
      if n < 256 { return; }
    } else {
      return;
    }
    if n > |b| - pos - header { return; }
    ok, body, next := true, pos + header, pos + header + n;
  }

  /** Takes a certificate apart; refuses what Extract refuses. */
  method ExtractCertificate(cert: Bytes, raw: array<Byte>) returns (ok: bool, tbs: Bytes)
    requires raw.Length == 64
    modifies raw
    ensures ok <==> Extract(cert).Some?
    ensures ok ==> tbs == Extract(cert).value.tbs && raw[..] == Extract(cert).value.r + Extract(cert).value.s
  {
    hide ReadNode, DerSignatures.Decode;
    tbs := [];
    Clear(raw);
    var outer, end;
    ok, outer, end := ReadNodeAt(cert, 0, SEQUENCE);
    if !ok || end != |cert| { return false, tbs; }
    var inside := cert[outer..];
    var first, algorithm, bits, next, last;
    ok, first, next := ReadNodeAt(inside, 0, SEQUENCE);
    if !ok { return; }
    var afterTbs := next;
    ok, algorithm, next := ReadNodeAt(inside, next, SEQUENCE);
    if !ok { return; }
    ok, bits, last := ReadNodeAt(inside, next, BIT_STRING);
    if !ok || last != |inside| || last - bits < 2 || inside[bits] != 0 { return false, tbs; }
    tbs := inside[..afterTbs];
    assert inside[bits..][1..] == inside[bits + 1..];
    ok := DerSignatureToRaw(inside[bits + 1..], raw);
  }
}
