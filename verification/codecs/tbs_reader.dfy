/** What a to-be-signed part says (sections 4.1 and 4.2 of RFC 5280), read from its bytes alone. */
module TbsReader {
  import opened WireBytes
  import opened Scalars
  import opened DerSignatures
  import opened Certificates

  // ----- the elements of a content

  datatype Element = Element(tag: Byte, content: Bytes)

  /** The nodes a string of bytes consists of, one after the other. */
  function Elements(b: Bytes): Option<seq<Element>>
    decreases |b|
  {
    if b == [] then Some([])
    else
      match ReadNode(b, 0, b[0])
      case None => None
      case Some(node) =>
        match Elements(b[node.next..])
        case None => None
        case Some(others) => Some([Element(b[0], b[node.body..node.next])] + others)
  }

  /** One node more is one element more. */
  lemma {:induction false} Appended(b: Bytes, es: seq<Element>, tag: Byte, content: Bytes)
    requires Elements(b) == Some(es) && |content| <= 65535
    ensures Elements(b + DerWrap(tag, content)) == Some(es + [Element(tag, content)])
    decreases |b|
  {
    hide DerWrap, ReadNode;
    var node := DerWrap(tag, content);
    var all := b + node;
    if b == [] {
      assert all == node && all[0..|node|] == node;
      ReadWrapped(all, 0, tag, content);
      TagComesFirst(tag, content);
      assert all[|node|..] == [] && all[0] == tag && es == [];
      assert Elements(all[|node|..]) == Some([]);
      assert Elements(all) == Some([Element(tag, content)] + []);
      assert es + [Element(tag, content)] == [Element(tag, content)] + [];
    } else {
      var first := ReadNode(b, 0, b[0]).value;
      ReadExtended(b, node);
      Appended(b[first.next..], Elements(b[first.next..]).value, tag, content);
      assert all[first.next..] == b[first.next..] + node;
      assert all[first.body..first.next] == b[first.body..first.next];
      var head, others := Element(b[0], b[first.body..first.next]), Elements(b[first.next..]).value;
      assert es == [head] + others;
      assert all[0] == b[0] && Elements(all) == Some([head] + (others + [Element(tag, content)]));
      assert [head] + (others + [Element(tag, content)]) == es + [Element(tag, content)];
    }
  }

  lemma TagComesFirst(tag: Byte, content: Bytes)
    ensures DerWrap(tag, content) != [] && DerWrap(tag, content)[0] == tag
  {
  }

  lemma ReadExtended(b: Bytes, more: Bytes)
    requires b != [] && ReadNode(b, 0, b[0]).Some?
    ensures ReadNode(b + more, 0, (b + more)[0]) == ReadNode(b, 0, b[0])
  {
  }

  lemma Alone(tag: Byte, content: Bytes)
    requires |content| <= 65535
    ensures Elements(DerWrap(tag, content)) == Some([Element(tag, content)])
  {
    hide DerWrap;
    Appended([], [], tag, content);
    assert [] + DerWrap(tag, content) == DerWrap(tag, content);
    assert [] + [Element(tag, content)] == [Element(tag, content)];
  }

  lemma Pair(tag: Byte, content: Bytes, tag': Byte, content': Bytes)
    requires |content| <= 65535 && |content'| <= 65535
    ensures Elements(DerWrap(tag, content) + DerWrap(tag', content'))
         == Some([Element(tag, content), Element(tag', content')])
  {
    hide DerWrap;
    Alone(tag, content);
    Appended(DerWrap(tag, content), [Element(tag, content)], tag', content');
    assert [Element(tag, content)] + [Element(tag', content')] == [Element(tag, content), Element(tag', content')];
  }

  // ----- the fields

  datatype Content =
    | Constraints(authority: bool, path: Option<nat>)
    | Usage(bits: set<nat>)
    | Purposes(purposes: seq<Bytes>)
    | Names(names: seq<Element>)

  datatype Extension = Extension(critical: bool, content: Content)

  datatype Fields = Fields(version: nat, serial: nat, algorithm: Bytes, issuer: string,
      notBefore: string, notAfter: string, subject: string,
      keyAlgorithm: Bytes, curve: Bytes, point: Bytes, extensions: seq<Extension>)

  /** The content of the single node of this tag. */
  function Only(b: Bytes, tag: Byte): Option<Bytes> {
    var es := Elements(b);
    if es.Some? && |es.value| == 1 && es.value[0].tag == tag then Some(es.value[0].content) else None
  }

  /** The contents of the two nodes of these tags. */
  function Both(b: Bytes, tag: Byte, tag': Byte): Option<(Bytes, Bytes)> {
    var es := Elements(b);
    if es.Some? && |es.value| == 2 && es.value[0].tag == tag && es.value[1].tag == tag' then
      Some((es.value[0].content, es.value[1].content))
    else None
  }

  function Text(b: Bytes): (s: string) {
    seq(|b|, i requires 0 <= i < |b| => b[i] as char)
  }

  /** The version field counts from zero. */
  function Version(b: Bytes): Option<nat> {
    var number := Only(b, 0x02);
    if number.Some? && Minimal(number.value) then Some(BE(number.value) + 1) else None
  }

  function Algorithm(b: Bytes): Option<Bytes> {
    Only(b, 0x06)
  }

  /** A name that is one common name in UTF-8. */
  function Name(b: Bytes): Option<string> {
    var names := Only(b, 0x31);
    if names.None? then None
    else
      var attribute := Only(names.value, 0x30);
      if attribute.None? then None
      else
        var parts := Both(attribute.value, 0x06, 0x0c);
        if parts.Some? && parts.value.0 == [0x55, 0x04, 0x03] then Some(Text(parts.value.1)) else None
  }

  function Dates(b: Bytes): Option<(string, string)> {
    var dates := Both(b, 0x17, 0x17);
    if dates.Some? then Some((Text(dates.value.0), Text(dates.value.1))) else None
  }

  /** Kind of key, curve and point. */
  function Key(b: Bytes): Option<(Bytes, Bytes, Bytes)> {
    var parts := Both(b, 0x30, 0x03);
    if parts.None? || parts.value.1 == [] || parts.value.1[0] != 0 then None
    else
      var kind := Both(parts.value.0, 0x06, 0x06);
      if kind.Some? then Some((kind.value.0, kind.value.1, parts.value.1[1..])) else None
  }

  /** The bits of a byte, the highest being bit 0. */
  function Bits(b: Byte): (s: set<nat>) {
    set k: nat | k < 8 && b / [128, 64, 32, 16, 8, 4, 2, 1][k] % 2 == 1
  }

  /** One byte of named bits, cut behind the last that is set. */
  function NamedBits(b: Bytes): Option<set<nat>> {
    if |b| == 2 && b[0] < 8 && b[1] % [1, 2, 4, 8, 16, 32, 64, 128][b[0]] == 0
       && b[1] / [1, 2, 4, 8, 16, 32, 64, 128][b[0]] % 2 == 1 then Some(Bits(b[1]))
    else None
  }

  function Constraint(b: Bytes): Option<Content> {
    var es := Elements(b);
    if es.None? then None
    else if es.value == [] then Some(Constraints(false, None))
    else if es.value[0] != Element(0x01, [0xff]) then None
    else if |es.value| == 1 then Some(Constraints(true, None))
    else if |es.value| == 2 && es.value[1].tag == 0x02 && Minimal(es.value[1].content) then
      Some(Constraints(true, Some(BE(es.value[1].content))))
    else None
  }

  function Contents(es: seq<Element>): seq<Bytes> {
    seq(|es|, i requires 0 <= i < |es| => es[i].content)
  }

  /** What the value of an extension says, by its identifier (id-ce 19, 15, 37 and 17). */
  function Meaning(oid: Bytes, value: Bytes): Option<Content> {
    if oid == [0x55, 0x1d, 0x13] then
      var inner := Only(value, 0x30);
      if inner.Some? then Constraint(inner.value) else None
    else if oid == [0x55, 0x1d, 0x0f] then
      var inner := Only(value, 0x03);
      if inner.Some? && NamedBits(inner.value).Some? then Some(Usage(NamedBits(inner.value).value)) else None
    else if oid == [0x55, 0x1d, 0x25] then
      var inner := Only(value, 0x30);
      var es := if inner.Some? then Elements(inner.value) else None;
      if es.Some? && (forall e <- es.value :: e.tag == 0x06) then
        Some(Purposes(Contents(es.value)))
      else None
    else if oid == [0x55, 0x1d, 0x11] then
      var inner := Only(value, 0x30);
      if inner.Some? && Elements(inner.value).Some? then Some(Names(Elements(inner.value).value)) else None
    else None
  }

  function OneExtension(e: Element): Option<Extension> {
    if e.tag != 0x30 then None
    else
      var es := Elements(e.content);
      if es.None? || |es.value| < 2 || es.value[0].tag != 0x06 then None
      else
        var last := es.value[|es.value| - 1];
        var critical := |es.value| == 3 && es.value[1] == Element(0x01, [0xff]);
        if last.tag != 0x04 || (|es.value| != 2 && !critical) then None
        else
          match Meaning(es.value[0].content, last.content)
          case None => None
          case Some(content) => Some(Extension(critical, content))
  }

  function AllExtensions(es: seq<Element>): Option<seq<Extension>> {
    if es == [] then Some([])
    else
      match OneExtension(es[0])
      case None => None
      case Some(first) =>
        match AllExtensions(es[1..])
        case None => None
        case Some(others) => Some([first] + others)
  }

  lemma {:induction false} OneMore(es: seq<Element>, e: Element)
    requires AllExtensions(es).Some? && OneExtension(e).Some?
    ensures AllExtensions(es + [e]) == Some(AllExtensions(es).value + [OneExtension(e).value])
  {
    hide OneExtension;
    if es == [] {
      assert es + [e] == [e] && [e][1..] == [] && AllExtensions(es).value == [];
      assert AllExtensions([e]) == Some([OneExtension(e).value] + []);
      assert [] + [OneExtension(e).value] == [OneExtension(e).value] + [];
    } else {
      OneMore(es[1..], e);
      assert (es + [e])[1..] == es[1..] + [e] && (es + [e])[0] == es[0];
      var first, others := OneExtension(es[0]).value, AllExtensions(es[1..]).value;
      assert [first] + (others + [OneExtension(e).value]) == [first] + others + [OneExtension(e).value];
    }
  }

  function ExtensionList(b: Bytes): Option<seq<Extension>> {
    var inner := Only(b, 0x30);
    if inner.Some? && Elements(inner.value).Some? then AllExtensions(Elements(inner.value).value) else None
  }

  /** Eight nodes inside one sequence, in the order of section 4.1 of RFC 5280. */
  function Read(tbs: Bytes): Option<Fields> {
    var body := Only(tbs, 0x30);
    if body.None? then None else ReadBody(body.value)
  }

  function ReadBody(body: Bytes): Option<Fields> {
    var es := Elements(body);
    if es.None? || |es.value| != 8
       || seq(8, i requires 0 <= i < 8 => es.value[i].tag) != [0xa0, 0x02, 0x30, 0x30, 0x30, 0x30, 0x30, 0xa3] then None
    else
      var serial := es.value[1].content;
      var version, algorithm := Version(es.value[0].content), Algorithm(es.value[2].content);
      var issuer, dates := Name(es.value[3].content), Dates(es.value[4].content);
      var subject, key := Name(es.value[5].content), Key(es.value[6].content);
      var extensions := ExtensionList(es.value[7].content);
      if !Minimal(serial) || version.None? || algorithm.None? || issuer.None? || dates.None? || subject.None?
          || key.None?
         || extensions.None? then None
      else
        Some(Fields(version.value, BE(serial), algorithm.value, issuer.value, dates.value.0, dates.value.1,
            subject.value,
            key.value.0, key.value.1, key.value.2, extensions.value))
  }

  /** Fields that are read one by one are read together. */
  lemma ReadTogether(body: Bytes, es: seq<Element>, f: Fields)
    requires Elements(body) == Some(es) && |es| == 8
    requires es[0].tag == 0xa0 && es[1].tag == 0x02 && es[7].tag == 0xa3 && forall i | 2 <= i < 7 :: es[i].tag == 0x30
    requires Version(es[0].content) == Some(f.version) && Algorithm(es[2].content) == Some(f.algorithm)
    requires Minimal(es[1].content) && BE(es[1].content) == f.serial
    requires Name(es[3].content) == Some(f.issuer) && Name(es[5].content) == Some(f.subject)
    requires Dates(es[4].content) == Some((f.notBefore, f.notAfter))
    requires Key(es[6].content) == Some((f.keyAlgorithm, f.curve, f.point))
    requires ExtensionList(es[7].content) == Some(f.extensions)
    ensures ReadBody(body) == Some(f)
  {
    hide Version, Algorithm, Name, Dates, Key, ExtensionList, Elements, Minimal;
  }
}
