/** The to-be-signed part the crypto run builds for its three certificates. */
module TbsBuilder {
  import opened WireBytes
  import opened Scalars
  import opened DerSignatures
  import opened Certificates
  import Reader = TbsReader

  datatype Role = Issuer | Server | Client

  /** The characters of an ASCII literal as bytes. */
  function Ascii(s: string): (b: Bytes)
    ensures |b| == |s|
  {
    seq(|s|, i requires 0 <= i < |s| => s[i] as int % 256)
  }

  const ISSUER_NAME := "Shiroha External Installation Issuer"
  const SERVER_NAME := "Shiroha External Host"
  const CLIENT_NAME := "Shiroha External Bridge"

  function SubjectName(role: Role): (s: string)
    ensures |s| <= 36
  {
    match role
    case Issuer => ISSUER_NAME
    case Server => SERVER_NAME
    case Client => CLIENT_NAME
  }

  function Version(): Bytes {
    DerWrap(0xa0, DerWrap(INTEGER, [0x02]))
  }

  /** A relative distinguished name with one common name in UTF-8. */
  function CommonName(name: string): Bytes {
    DerWrap(SEQUENCE, NameContent(name))
  }

  function NameContent(name: string): Bytes {
    DerWrap(0x31, DerWrap(SEQUENCE, NameParts(name)))
  }

  function NameParts(name: string): Bytes {
    DerWrap(OID, [0x55, 0x04, 0x03]) + DerWrap(0x0c, Ascii(name))
  }

  function Validity(role: Role): Bytes {
    DerWrap(SEQUENCE, Dates(role))
  }

  function Dates(role: Role): Bytes {
    DerWrap(0x17, Ascii("250101000000Z"))
    + DerWrap(0x17, Ascii(if role == Issuer then "350101000000Z" else "270101000000Z"))
  }

  type Serial = s: Bytes | |s| == 16 witness seq(16, i => 0)

  function PublicKeyInfo(point: Point): Bytes {
    DerWrap(SEQUENCE, KeyContent(point))
  }

  function KeyContent(point: Point): Bytes {
    DerWrap(SEQUENCE, KeyKind()) + DerWrap(BIT_STRING, [0] + point)
  }

  function KeyKind(): Bytes {
    DerWrap(OID, [0x2a, 0x86, 0x48, 0xce, 0x3d, 0x02, 0x01])
    + DerWrap(OID, [0x2a, 0x86, 0x48, 0xce, 0x3d, 0x03, 0x01, 0x07])
  }

  function Extension(oid: Bytes, critical: bool, value: Bytes): Bytes {
    DerWrap(SEQUENCE, ExtensionParts(oid, critical, value))
  }

  function ExtensionParts(oid: Bytes, critical: bool, value: Bytes): Bytes {
    DerWrap(OID, oid) + (if critical then [0x01, 0x01, 0xff] else []) + DerWrap(0x04, value)
  }

  function BasicConstraints(role: Role): Bytes {
    Extension([0x55, 0x1d, 0x13], true, DerWrap(SEQUENCE, if role == Issuer then [0x01, 0x01, 0xff, 0x02, 0x01, 0x00]
        else []))
  }

  function KeyUsage(role: Role): Bytes {
    Extension([0x55, 0x1d, 0x0f], true, DerWrap(BIT_STRING, if role == Issuer then [0x02, 0x04] else [0x07, 0x80]))
  }

  function ExtendedKeyUsage(role: Role): Bytes {
    if role == Issuer then []
    else Extension([0x55, 0x1d, 0x25], false, DerWrap(SEQUENCE,
        DerWrap(OID, [0x2b, 0x06, 0x01, 0x05, 0x05, 0x07, 0x03, if role == Server then 0x01 else 0x02])))
  }

  function AlternativeName(role: Role): Bytes {
    if role == Server then Extension([0x55, 0x1d, 0x11], true, DerWrap(SEQUENCE, [0x87, 0x04, 127, 0, 0, 1])) else []
  }

  function ExtensionNodes(role: Role): Bytes {
    BasicConstraints(role) + KeyUsage(role) + ExtendedKeyUsage(role) + AlternativeName(role)
  }

  function Extensions(role: Role): Bytes {
    DerWrap(0xa3, DerWrap(SEQUENCE, ExtensionNodes(role)))
  }

  function TbsBody(role: Role, serial: Serial, point: Point): Bytes {
    Version() + DerWrap(INTEGER, IntegerBody(serial)) + ALGORITHM + CommonName(ISSUER_NAME) + Validity(role)
    + CommonName(SubjectName(role)) + PublicKeyInfo(point) + Extensions(role)
  }

  /** Nothing in it is long. */
  lemma TbsIsShort(role: Role, serial: Serial, point: Point)
    ensures |TbsBody(role, serial, point)| <= 900
  {
    hide LengthOctets, IntegerBody, Ascii, Extensions;
    Shorts();
    assert |Version()| <= 11 && |ALGORITHM| <= 16;
    assert |CommonName(ISSUER_NAME)| <= 63 && |CommonName(SubjectName(role))| <= 63;
    assert |Validity(role)| <= 38 && |PublicKeyInfo(point)| <= 101;
    ExtensionsAreShort(role);
  }

  lemma ExtensionsAreShort(role: Role)
    ensures |Extensions(role)| <= 150
  {
    hide LengthOctets;
    Shorts();
    assert |BasicConstraints(role)| <= 28 && |KeyUsage(role)| <= 28;
    assert |ExtendedKeyUsage(role)| <= 32 && |AlternativeName(role)| <= 32;
  }

  lemma Shorts()
    ensures forall n: nat :: |LengthOctets(n)| <= 3
  {
  }

  /** Every part that is built meets what the round trip asks of it, whatever it is signed
      with. */
  lemma TbsRoundTrips(role: Role, serial: Serial, point: Point, raw: Raw)
    requires Valid(raw[..32]) && Valid(raw[32..])
    ensures var tbs := DerWrap(SEQUENCE, TbsBody(role, serial, point));
            Extract(Certificate(tbs, raw)) == Some(Parts(tbs, raw[..32], raw[32..]))
  {
    hide TbsBody, Extract, Certificate, DerSignatures.Encode, WellFormed;
    TbsIsShort(role, serial, point);
    var body := TbsBody(role, serial, point);
    var tbs := DerWrap(SEQUENCE, body);
    WellFormedIffWrapped(tbs, SEQUENCE);
    Shorts();
    assert |SignatureBits(raw)| <= 80 && |ALGORITHM| <= 16;
    RoundTrip(tbs, raw);
  }

  /** The serial number is the minimal positive integer the sixteen bytes stand for. */
  lemma SerialIsMinimal(serial: Serial)
    ensures Minimal(IntegerBody(serial)) && BE(IntegerBody(serial)) == BE(serial)
  {
    IntegerBodyMinimal(serial);
  }

  // ----- what a reader finds

  lemma TextOfAscii(s: string)
    requires forall c <- s :: c < 128 as char
    ensures Reader.Text(Ascii(s)) == s
  {
    forall i | 0 <= i < |s|
      ensures Reader.Text(Ascii(s))[i] == s[i]
    {
      assert s[i] in s;
    }
  }

  lemma Longer(tag: Byte, content: Bytes)
    ensures |content| < |DerWrap(tag, content)| <= |content| + 4
  {
  }

  lemma VersionRead()
    ensures Reader.Version(DerWrap(INTEGER, [0x02])) == Some(3)
  {
    hide DerWrap;
    Reader.Alone(INTEGER, [0x02]);
    assert BE([0x02]) == 2 * Power(0) + BE([0x02][1..]);
    assert [0x02][1..] == [];
  }

  lemma NameRead(name: string)
    requires |name| <= 100 && forall c <- name :: c < 128 as char
    ensures Reader.Name(NameContent(name)) == Some(name) && |NameContent(name)| <= 200
  {
    hide DerWrap, Ascii, Reader.Elements;
    Longer(OID, [0x55, 0x04, 0x03]);
    Longer(0x0c, Ascii(name));
    Longer(SEQUENCE, NameParts(name));
    Longer(0x31, DerWrap(SEQUENCE, NameParts(name)));
    Reader.Pair(OID, [0x55, 0x04, 0x03], 0x0c, Ascii(name));
    Reader.Alone(SEQUENCE, NameParts(name));
    Reader.Alone(0x31, DerWrap(SEQUENCE, NameParts(name)));
    TextOfAscii(name);
  }

  lemma DatesRead(role: Role)
    ensures Reader.Dates(Dates(role))
         == Some(("250101000000Z", if role == Issuer then "350101000000Z" else "270101000000Z"))
    ensures |Dates(role)| <= 40
  {
    hide DerWrap, Ascii, Reader.Elements;
    var end := if role == Issuer then "350101000000Z" else "270101000000Z";
    Longer(0x17, Ascii("250101000000Z"));
    Longer(0x17, Ascii(end));
    Reader.Pair(0x17, Ascii("250101000000Z"), 0x17, Ascii(end));
    TextOfAscii("250101000000Z");
    TextOfAscii(end);
  }

  lemma KeyRead(point: Point)
    ensures Reader.Key(KeyContent(point))
         == Some(([0x2a, 0x86, 0x48, 0xce, 0x3d, 0x02, 0x01], [0x2a, 0x86, 0x48, 0xce, 0x3d, 0x03, 0x01, 0x07],
             point[..]))
    ensures |KeyContent(point)| <= 200
  {
    hide DerWrap, Reader.Elements;
    var key, curve := [0x2a, 0x86, 0x48, 0xce, 0x3d, 0x02, 0x01], [0x2a, 0x86, 0x48, 0xce, 0x3d, 0x03, 0x01, 0x07];
    var bits: Bytes := [0] + point;
    Longer(OID, key);
    Longer(OID, curve);
    Longer(SEQUENCE, KeyKind());
    Longer(BIT_STRING, bits);
    Reader.Pair(OID, key, OID, curve);
    Reader.Pair(SEQUENCE, KeyKind(), BIT_STRING, bits);
    assert bits[1..] == point[..];
  }

  lemma ExtensionRead(oid: Bytes, critical: bool, value: Bytes)
    requires |oid| <= 20 && |value| <= 100 && Reader.Meaning(oid, value).Some?
    ensures |ExtensionParts(oid, critical, value)| <= 200
    ensures Reader.OneExtension(Reader.Element(SEQUENCE, ExtensionParts(oid, critical, value)))
         == Some(Reader.Extension(critical, Reader.Meaning(oid, value).value))
  {
    hide DerWrap, Reader.Elements, Reader.Meaning;
    var body := ExtensionParts(oid, critical, value);
    Longer(OID, oid);
    Longer(0x04, value);
    if critical {
      FlagIsWrapped();
      Reader.Pair(OID, oid, 0x01, [0xff]);
      var two := [Reader.Element(OID, oid), Reader.Element(0x01, [0xff])];
      Reader.Appended(DerWrap(OID, oid) + [0x01, 0x01, 0xff], two, 0x04, value);
    } else {
      assert body == DerWrap(OID, oid) + DerWrap(0x04, value);
      Reader.Pair(OID, oid, 0x04, value);
    }
  }

  lemma FlagIsWrapped()
    ensures DerWrap(0x01, [0xff]) == [0x01, 0x01, 0xff]
  {
  }

  lemma ConstraintsRead()
    ensures Reader.Meaning([0x55, 0x1d, 0x13], DerWrap(SEQUENCE, [])) == Some(Reader.Constraints(false, None))
    ensures Reader.Meaning([0x55, 0x1d, 0x13], DerWrap(SEQUENCE, [0x01, 0x01, 0xff, 0x02, 0x01, 0x00]))
         == Some(Reader.Constraints(true, Some(0)))
  {
    Reader.Alone(SEQUENCE, []);
    Reader.Alone(SEQUENCE, [0x01, 0x01, 0xff, 0x02, 0x01, 0x00]);
    Reader.Pair(0x01, [0xff], INTEGER, [0x00]);
    assert DerWrap(0x01, [0xff]) + DerWrap(INTEGER, [0x00]) == [0x01, 0x01, 0xff, 0x02, 0x01, 0x00];
    assert BE([0x00]) == 0 * Power(0) + BE([0x00][1..]);
  }

  lemma UsageRead()
    ensures Reader.Meaning([0x55, 0x1d, 0x0f], DerWrap(BIT_STRING, [0x02, 0x04])) == Some(Reader.Usage({5}))
    ensures Reader.Meaning([0x55, 0x1d, 0x0f], DerWrap(BIT_STRING, [0x07, 0x80])) == Some(Reader.Usage({0}))
  {
    hide DerWrap, Reader.Elements;
    Reader.Alone(BIT_STRING, [0x02, 0x04]);
    Reader.Alone(BIT_STRING, [0x07, 0x80]);
    assert Reader.Bits(0x04) == {5} && Reader.Bits(0x80) == {0};
  }

  lemma PurposeRead(purpose: Bytes)
    requires |purpose| == 8
    ensures Reader.Meaning([0x55, 0x1d, 0x25], DerWrap(SEQUENCE,
        DerWrap(OID, purpose))) == Some(Reader.Purposes([purpose]))
  {
    hide DerWrap, Reader.Elements;
    Longer(OID, purpose);
    Reader.Alone(SEQUENCE, DerWrap(OID, purpose));
    Reader.Alone(OID, purpose);
    assert Reader.Contents([Reader.Element(OID, purpose)]) == [purpose];
  }

  lemma AddressRead()
    ensures Reader.Meaning([0x55, 0x1d, 0x11], DerWrap(SEQUENCE, [0x87, 0x04, 127, 0, 0, 1]))
         == Some(Reader.Names([Reader.Element(0x87, [127, 0, 0, 1])]))
  {
    Reader.Alone(SEQUENCE, [0x87, 0x04, 127, 0, 0, 1]);
    Reader.Alone(0x87, [127, 0, 0, 1]);
    assert DerWrap(0x87, [127, 0, 0, 1]) == [0x87, 0x04, 127, 0, 0, 1];
  }

  /** The nodes in list are read as these extensions. */
  ghost predicate Lists(list: Bytes, found: seq<Reader.Extension>) {
    Reader.Elements(list).Some? && Reader.AllExtensions(Reader.Elements(list).value) == Some(found)
  }

  lemma ListsMore(list: Bytes, found: seq<Reader.Extension>, oid: Bytes, critical: bool, value: Bytes,
      content: Reader.Content)
    requires Lists(list, found) && |oid| <= 20 && |value| <= 50 && Reader.Meaning(oid, value) == Some(content)
    ensures Lists(list + Extension(oid, critical, value), found + [Reader.Extension(critical, content)])
    ensures |Extension(oid, critical, value)| <= 204
  {
    hide Reader.Meaning, Reader.OneExtension, ExtensionParts, DerWrap, LengthOctets;
    var parts := ExtensionParts(oid, critical, value);
    ExtensionRead(oid, critical, value);
    Longer(SEQUENCE, parts);
    Reader.Appended(list, Reader.Elements(list).value, SEQUENCE, parts);
    Reader.OneMore(Reader.Elements(list).value, Reader.Element(SEQUENCE, parts));
  }

  lemma NothingListed()
    ensures Lists([], [])
  {
  }

  /** The two extensions every role has. */
  lemma TwoListed(role: Role)
    ensures Lists(BasicConstraints(role) + KeyUsage(role),
                  [Reader.Extension(true, Reader.Constraints(role == Issuer, if role == Issuer then Some(0) else None)),
                   Reader.Extension(true, Reader.Usage({if role == Issuer then 5 else 0}))])
    ensures |BasicConstraints(role) + KeyUsage(role)| <= 408
  {
    hide Reader.Meaning, Extension, DerWrap, Lists;
    ConstraintsRead();
    UsageRead();
    NothingListed();
    var constraints := Reader.Constraints(role == Issuer, if role == Issuer then Some(0) else None);
    var usage := Reader.Usage({if role == Issuer then 5 else 0});
    ListsMore([], [], [0x55, 0x1d, 0x13], true,
              DerWrap(SEQUENCE, if role == Issuer then [0x01, 0x01, 0xff, 0x02, 0x01, 0x00] else []), constraints);
    assert [] + BasicConstraints(role) == BasicConstraints(role);
    assert [] + [Reader.Extension(true, constraints)] == [Reader.Extension(true, constraints)];
    ListsMore(BasicConstraints(role), [Reader.Extension(true, constraints)], [0x55, 0x1d, 0x0f], true,
              DerWrap(BIT_STRING, if role == Issuer then [0x02, 0x04] else [0x07, 0x80]), usage);
    assert [Reader.Extension(true, constraints)] + [Reader.Extension(true, usage)]
        == [Reader.Extension(true, constraints), Reader.Extension(true, usage)];
  }

  /** The extensions a reader finds, and which of them are critical. */
  lemma ExtensionsListed(role: Role)
    ensures |ExtensionNodes(role)| <= 816
    ensures Lists(ExtensionNodes(role), SaidExtensions(role))
  {
    hide Reader.Meaning, Extension, DerWrap, Lists;
    var two := BasicConstraints(role) + KeyUsage(role);
    TwoListed(role);
    if role == Issuer {
      assert ExtensionNodes(role) == two;
    } else {
      var purpose: Bytes := [0x2b, 0x06, 0x01, 0x05, 0x05, 0x07, 0x03, if role == Server then 0x01 else 0x02];
      var found := [Reader.Extension(true, Reader.Constraints(false, None)), Reader.Extension(true, Reader.Usage({0}))];
      PurposeRead(purpose);
      Longer(OID, purpose);
      Longer(SEQUENCE, DerWrap(OID, purpose));
      ListsMore(two, found, [0x55, 0x1d, 0x25], false, DerWrap(SEQUENCE, DerWrap(OID, purpose)),
          Reader.Purposes([purpose]));
      var three := found + [Reader.Extension(false, Reader.Purposes([purpose]))];
      if role == Server {
        AddressRead();
        Longer(SEQUENCE, [0x87, 0x04, 127, 0, 0, 1]);
        ListsMore(two + ExtendedKeyUsage(role), three, [0x55, 0x1d, 0x11], true,
                  DerWrap(SEQUENCE, [0x87, 0x04, 127, 0, 0, 1]), Reader.Names([Reader.Element(0x87, [127, 0, 0, 1])]));
        assert three + [Reader.Extension(true, Reader.Names([Reader.Element(0x87, [127, 0, 0, 1])]))]
            == SaidExtensions(Server);
      } else {
        assert ExtensionNodes(role) == two + ExtendedKeyUsage(role);
        assert three == SaidExtensions(Client);
      }
    }
  }

  function Parts8(role: Role, serial: Serial, point: Point): seq<Reader.Element> {
    [Reader.Element(0xa0, DerWrap(INTEGER, [0x02])), Reader.Element(0x02, IntegerBody(serial)),
     Reader.Element(0x30, DerWrap(OID, [0x2a, 0x86, 0x48, 0xce, 0x3d, 0x04, 0x03, 0x02])),
     Reader.Element(0x30, NameContent(ISSUER_NAME)), Reader.Element(0x30, Dates(role)),
     Reader.Element(0x30, NameContent(SubjectName(role))), Reader.Element(0x30, KeyContent(point)),
     Reader.Element(0xa3, DerWrap(SEQUENCE, ExtensionNodes(role)))]
  }

  /** One more node of at most 900 bytes. */
  lemma Next(b: Bytes, es: seq<Reader.Element>, all: seq<Reader.Element>, tag: Byte, content: Bytes)
    requires Reader.Elements(b) == Some(es) && |content| <= 900
    requires |es| < |all| && es == all[..|es|] && all[|es|] == Reader.Element(tag, content)
    ensures Reader.Elements(b + DerWrap(tag, content)) == Some(all[..|es| + 1])
  {
    hide Reader.Elements, DerWrap;
    Reader.Appended(b, es, tag, content);
    assert es + [all[|es|]] == all[..|es| + 1];
  }

  lemma PartsFit(role: Role, point: Point)
    ensures |DerWrap(INTEGER, [0x02])| <= 900 && |DerWrap(OID, [0x2a, 0x86, 0x48, 0xce, 0x3d, 0x04, 0x03, 0x02])| <= 900
    ensures |NameContent(ISSUER_NAME)| <= 900 && |NameContent(SubjectName(role))| <= 900
    ensures |Dates(role)| <= 900 && |KeyContent(point)| <= 900 && |DerWrap(SEQUENCE, ExtensionNodes(role))| <= 900
  {
    hide DerWrap, Ascii, Lists, IntegerBody, Reader.Elements, Reader.Name, Reader.Dates, Reader.Key, Dates, NameParts,
        ExtensionNodes,
      KeyKind;
    Longer(INTEGER, [0x02]);
    Longer(OID, [0x2a, 0x86, 0x48, 0xce, 0x3d, 0x04, 0x03, 0x02]);
    NameRead(ISSUER_NAME);
    NameRead(SubjectName(role));
    DatesRead(role);
    KeyRead(point);
    ExtensionsListed(role);
    Longer(SEQUENCE, ExtensionNodes(role));
  }

  lemma PartsListed(role: Role, serial: Serial, point: Point)
    ensures Reader.Elements(TbsBody(role, serial, point)) == Some(Parts8(role, serial, point))
  {
    hide DerWrap, Dates, KeyKind, NameParts, ExtensionNodes, Reader.Elements, IntegerBody, SubjectName;
    var all := Parts8(role, serial, point);
    PartsFit(role, point);
    var b1, b2 := Version(), Version() + DerWrap(INTEGER, IntegerBody(serial));
    var b3 := b2 + ALGORITHM;
    var b4 := b3 + CommonName(ISSUER_NAME);
    var b5 := b4 + Validity(role);
    var b6 := b5 + CommonName(SubjectName(role));
    var b7 := b6 + PublicKeyInfo(point);
    Reader.Alone(0xa0, all[0].content);
    assert [all[0]] == all[..1];
    Next(b1, all[..1], all, INTEGER, all[1].content);
    Next(b2, all[..2], all, SEQUENCE, all[2].content);
    Next(b3, all[..3], all, SEQUENCE, all[3].content);
    Next(b4, all[..4], all, SEQUENCE, all[4].content);
    Next(b5, all[..5], all, SEQUENCE, all[5].content);
    Next(b6, all[..6], all, SEQUENCE, all[6].content);
    Next(b7, all[..7], all, 0xa3, all[7].content);
    assert all[..8] == all;
  }

  lemma AlgorithmRead()
    ensures Reader.Algorithm(DerWrap(OID, [0x2a, 0x86, 0x48, 0xce, 0x3d, 0x04, 0x03, 0x02]))
         == Some([0x2a, 0x86, 0x48, 0xce, 0x3d, 0x04, 0x03, 0x02])
  {
    hide DerWrap, Reader.Elements;
    Reader.Alone(OID, [0x2a, 0x86, 0x48, 0xce, 0x3d, 0x04, 0x03, 0x02]);
  }

  lemma ExtensionsRead(role: Role)
    requires |ExtensionNodes(role)| <= 816
    ensures forall found :: Lists(ExtensionNodes(role), found) ==>
        Reader.ExtensionList(DerWrap(SEQUENCE, ExtensionNodes(role))) == Some(found)
  {
    hide DerWrap, Reader.Elements, ExtensionNodes;
    Reader.Alone(SEQUENCE, ExtensionNodes(role));
  }

  // ----- what every part says

  /** The extensions of a role: the issuer alone may issue, and no further issuers; it signs
      certificates (bit 5), and the others sign data (bit 0), for the server's or for the
      client's purpose (id-kp 1 and 2). The server alone names the loopback address. */
  function SaidExtensions(role: Role): seq<Reader.Extension> {
    match role
    case Issuer =>
      [Reader.Extension(true, Reader.Constraints(true, Some(0))), Reader.Extension(true, Reader.Usage({5}))]
    case Server =>
      [Reader.Extension(true, Reader.Constraints(false, None)), Reader.Extension(true, Reader.Usage({0})),
       Reader.Extension(false, Reader.Purposes([[0x2b, 0x06, 0x01, 0x05, 0x05, 0x07, 0x03, 0x01]])),
       Reader.Extension(true, Reader.Names([Reader.Element(0x87, [127, 0, 0, 1])]))]
    case Client =>
      [Reader.Extension(true, Reader.Constraints(false, None)), Reader.Extension(true, Reader.Usage({0})),
       Reader.Extension(false, Reader.Purposes([[0x2b, 0x06, 0x01, 0x05, 0x05, 0x07, 0x03, 0x02]]))]
  }

  /** Version 3, the number of the serial, ecdsa-with-SHA256, the names, the dates, and the
      given point on P-256. */
  function Said(role: Role, serial: Serial, point: Point): Reader.Fields {
    Reader.Fields(
      3, BE(serial), [0x2a, 0x86, 0x48, 0xce, 0x3d, 0x04, 0x03, 0x02], "Shiroha External Installation Issuer",
      "250101000000Z", if role == Issuer then "350101000000Z" else "270101000000Z",
      match role
      case Issuer => "Shiroha External Installation Issuer"
      case Server => "Shiroha External Host"
      case Client => "Shiroha External Bridge",
      [0x2a, 0x86, 0x48, 0xce, 0x3d, 0x02, 0x01], [0x2a, 0x86, 0x48, 0xce, 0x3d, 0x03, 0x01, 0x07], point,
      SaidExtensions(role))
  }

  /** A reader that knows nothing of the builder finds exactly that. */
  lemma TbsRead(role: Role, serial: Serial, point: Point)
    ensures Reader.Read(DerWrap(SEQUENCE, TbsBody(role, serial, point))) == Some(Said(role, serial, point))
  {
    hide Reader.ReadBody, Reader.Elements, TbsBody, Said, DerWrap;
    TbsIsShort(role, serial, point);
    Reader.Alone(SEQUENCE, TbsBody(role, serial, point));
    BodyRead(role, serial, point);
  }

  lemma BodyRead(role: Role, serial: Serial, point: Point)
    ensures Reader.ReadBody(TbsBody(role, serial, point)) == Some(Said(role, serial, point))
  {
    hide Lists, Reader.Version, Reader.Name, Reader.Dates, Reader.Key, DerWrap, IntegerBody, Dates, NameContent,
        KeyContent,
         ExtensionNodes, SaidExtensions, Reader.ExtensionList, Reader.Elements, TbsBody, Reader.ReadBody,
             Reader.Algorithm,
         SubjectName;
    PartsListed(role, serial, point);
    VersionRead();
    AlgorithmRead();
    NamesRead(role);
    DatesRead(role);
    KeyRead(point);
    ExtensionsListed(role);
    ExtensionsRead(role);
    SerialIsMinimal(serial);
    Reader.ReadTogether(TbsBody(role, serial, point), Parts8(role, serial, point), Said(role, serial, point));
  }

  lemma NamesRead(role: Role)
    ensures Reader.Name(NameContent(ISSUER_NAME)) == Some("Shiroha External Installation Issuer")
    ensures Reader.Name(NameContent(SubjectName(role)))
         == Some(match role
                 case Issuer => "Shiroha External Installation Issuer"
                 case Server => "Shiroha External Host"
                 case Client => "Shiroha External Bridge")
  {
    hide Reader.Name, DerWrap, NameParts;
    NameRead(ISSUER_NAME);
    NameRead(SubjectName(role));
  }

  /** The name every certificate gives as its issuer is the subject of the issuer's own. */
  lemma IssuedByIssuer(role: Role, serial: Serial, point: Point, serial': Serial, point': Point)
    ensures var own := Reader.Read(DerWrap(SEQUENCE, TbsBody(Issuer, serial', point')));
            var other := Reader.Read(DerWrap(SEQUENCE, TbsBody(role, serial, point)));
            own.Some? && other.Some? && other.value.issuer == own.value.subject
  {
    hide Reader.Read, TbsBody, DerWrap;
    TbsRead(Issuer, serial', point');
    TbsRead(role, serial, point);
  }

  method BuildName(name: string) returns (out: Bytes)
    ensures out == CommonName(name)
  {
    var attribute := DerWrapped(OID, [0x55, 0x04, 0x03]);
    var value := DerWrapped(0x0c, Ascii(name));
    attribute := attribute + value;
    out := DerWrapped(SEQUENCE, attribute);
    out := DerWrapped(0x31, out);
    out := DerWrapped(SEQUENCE, out);
  }

  method BuildExtension(oid: Bytes, critical: bool, value: Bytes) returns (out: Bytes)
    ensures out == Extension(oid, critical, value)
  {
    var body := DerWrapped(OID, oid);
    if critical { body := body + [0x01, 0x01, 0xff]; }
    assert !critical ==> body == body + [];
    var octets := DerWrapped(0x04, value);
    body := body + octets;
    out := DerWrapped(SEQUENCE, body);
  }

  method BuildExtensions(role: Role) returns (out: Bytes)
    ensures out == Extensions(role)
  {
    hide Extension, DerWrap;
    var inner := DerWrapped(SEQUENCE, if role == Issuer then [0x01, 0x01, 0xff, 0x02, 0x01, 0x00] else []);
    var all := BuildExtension([0x55, 0x1d, 0x13], true, inner);
    inner := DerWrapped(BIT_STRING, if role == Issuer then [0x02, 0x04] else [0x07, 0x80]);
    var next := BuildExtension([0x55, 0x1d, 0x0f], true, inner);
    all := all + next;
    if role != Issuer {
      inner := DerWrapped(OID, [0x2b, 0x06, 0x01, 0x05, 0x05, 0x07, 0x03, if role == Server then 0x01 else 0x02]);
      inner := DerWrapped(SEQUENCE, inner);
      next := BuildExtension([0x55, 0x1d, 0x25], false, inner);
      all := all + next;
    }
    if role == Server {
      inner := DerWrapped(SEQUENCE, [0x87, 0x04, 127, 0, 0, 1]);
      next := BuildExtension([0x55, 0x1d, 0x11], true, inner);
      all := all + next;
    }
    assert all == BasicConstraints(role) + KeyUsage(role) + ExtendedKeyUsage(role) + AlternativeName(role);
    out := DerWrapped(SEQUENCE, all);
    out := DerWrapped(0xa3, out);
  }

  /** Refuses a point that is not uncompressed and a serial number of zero. */
  method BuildTbs(role: Role, serial: Serial, point: Point) returns (ok: bool, tbs: Bytes)
    ensures ok <==> point[0] == 4 && BE(serial) != 0
    ensures tbs == if ok then DerWrap(SEQUENCE, TbsBody(role, serial, point)) else []
    ensures ok ==> Reader.Read(tbs) == Some(Said(role, serial, point))
  {
    hide TbsBody, DerWrap, Magnitude, Reader.Read, Said;
    tbs := [];
    if point[0] != 4 { return false, tbs; }
    ok := NonZero(serial);
    if !ok { return; }
    var start := 0;
    while start < 15 && serial[start] == 0
      invariant start <= 15 && Magnitude(serial) == Magnitude(serial[start..])
    {
      MagnitudeStep(serial, start);
      start := start + 1;
    }
    MagnitudeDone(serial[start..]);
    var body: Bytes := [];
    if serial[start] >= 128 { body := body + [0]; }
    body := body + serial[start..];
    assert body == IntegerBody(serial);
    tbs := BuildParts(role, serial, point, body);
    tbs := DerWrapped(SEQUENCE, tbs);
    TbsRead(role, serial, point);
  }

  method BuildParts(role: Role, serial: Serial, point: Point, body: Bytes) returns (all: Bytes)
    requires body == IntegerBody(serial)
    ensures all == TbsBody(role, serial, point)
  {
    hide IntegerBody, DerWrap;
    var version := DerWrapped(INTEGER, [0x02]);
    version := DerWrapped(0xa0, version);
    var number := DerWrapped(INTEGER, body);
    var algorithm := DerWrapped(OID, [0x2a, 0x86, 0x48, 0xce, 0x3d, 0x04, 0x03, 0x02]);
    algorithm := DerWrapped(SEQUENCE, algorithm);
    var issuer := BuildName(ISSUER_NAME);
    var subject := BuildName(SubjectName(role));
    var before := DerWrapped(0x17, Ascii("250101000000Z"));
    var after := DerWrapped(0x17, Ascii(if role == Issuer then "350101000000Z" else "270101000000Z"));
    var validity := DerWrapped(SEQUENCE, before + after);
    var key := DerWrapped(OID, [0x2a, 0x86, 0x48, 0xce, 0x3d, 0x02, 0x01]);
    var curve := DerWrapped(OID, [0x2a, 0x86, 0x48, 0xce, 0x3d, 0x03, 0x01, 0x07]);
    key := DerWrapped(SEQUENCE, key + curve);
    var bits := DerWrapped(BIT_STRING, [0] + point);
    key := DerWrapped(SEQUENCE, key + bits);
    var extensions := BuildExtensions(role);
    all := version + number + algorithm + issuer + validity + subject + key + extensions;
  }
}
