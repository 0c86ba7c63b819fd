/** P-256 private keys as PKCS#8 (section 5 of RFC 5208) around an ECPrivateKey (section 3 of
    RFC 5915): the one form that is written, and the four that are read. */
module P256Keys {
  import opened WireBytes
  import opened Scalars
  import opened DerSignatures

  const OCTETS: Byte := 0x04
  const ALGORITHM: Bytes := [0x30, 0x13, 0x06, 0x07, 0x2a, 0x86, 0x48, 0xce, 0x3d, 0x02, 0x01,
                             0x06, 0x08, 0x2a, 0x86, 0x48, 0xce, 0x3d, 0x03, 0x01, 0x07]
  const CURVE: Bytes := [0x06, 0x08, 0x2a, 0x86, 0x48, 0xce, 0x3d, 0x03, 0x01, 0x07]
  const VERSION0: Bytes := [0x02, 0x01, 0x00]
  const VERSION1: Bytes := [0x02, 0x01, 0x01]

  // ----- the forms

  function Parameters(): Bytes { DerWrap(0xa0, CURVE) }

  function PublicKey(p: Point): Bytes { DerWrap(0xa1, DerWrap(0x03, [0] + p)) }

  function Tail(p: Point, parameters: bool, public: bool): Bytes {
    (if parameters then Parameters() else []) + (if public then PublicKey(p) else [])
  }

  /** The key proper, with and without each optional field. */
  function KeyBody(s: Scalar, p: Point, parameters: bool, public: bool): Bytes {
    VERSION1 + DerWrap(OCTETS, s) + Tail(p, parameters, public)
  }

  function Form(s: Scalar, p: Point, parameters: bool, public: bool): Bytes {
    DerWrap(SEQUENCE, VERSION0 + ALGORITHM + DerWrap(OCTETS, DerWrap(SEQUENCE, KeyBody(s, p, parameters, public))))
  }

  // ----- reading a field from the front

  /** A node at the front of b with a length of at most one extra octet. */
  function Field(b: Bytes, tag: Byte): (r: Option<(Bytes, Bytes)>)
    ensures r.Some? ==> |r.value.0| + |r.value.1| <= |b| - 2
  {
    if |b| < 2 || b[0] != tag then None
    else if b[1] < 128 then if b[1] > |b| - 2 then None else Some((b[2..2 + b[1]], b[2 + b[1]..]))
    else if b[1] != 0x81 || |b| < 3 || b[2] < 128 || b[2] > |b| - 3 then None
    else Some((b[3..3 + b[2]], b[3 + b[2]..]))
  }

  /** Fields read back, and only wrapped bodies are fields. */
  lemma FieldIffWrapped(b: Bytes, tag: Byte, body: Bytes, rest: Bytes)
    ensures Field(b, tag) == Some((body, rest)) <==> |body| < 256 && b == DerWrap(tag, body) + rest
  {
    if Field(b, tag) == Some((body, rest)) {
      assert b == b[..|b| - |body| - |rest|] + body + rest;
      assert b[..|b| - |body| - |rest|] == [tag] + LengthOctets(|body|);
    }
    if |body| < 256 && b == DerWrap(tag, body) + rest {
      var node := DerWrap(tag, body);
      assert forall i | 0 <= i < |node| :: b[i] == node[i];
      assert b[|node|..] == rest && b[|node| - |body|..|node|] == body;
    }
  }

  function Literal(b: Bytes, literal: Bytes): Option<Bytes> {
    if literal <= b then Some(b[|literal|..]) else None
  }

  lemma LiteralIff(b: Bytes, literal: Bytes, rest: Bytes)
    ensures Literal(b, literal) == Some(rest) <==> b == literal + rest
  {
    if literal <= b { assert b == literal + b[|literal|..]; }
  }

  /** The scalar of an ECPrivateKey body for this point. */
  ghost function KeyScalar(key: Bytes, p: Point): Option<Scalar> {
    var body := Literal(key, VERSION1);
    if body.None? then None
    else
      var value := Field(body.value, OCTETS);
      if value.None? || |value.value.0| != 32 || !Valid(value.value.0) then None
      else
        var scalar: Scalar := value.value.0;
        if Optional(value.value.1, p) then Some(scalar) else None
  }

  /** Parameters, then the public key, each if it is there; nothing after them. */
  predicate Optional(b: Bytes, p: Point) {
    if b != [] && b[0] == 0xa0 then
      var f := Field(b, 0xa0);
      f.Some? && f.value.0 == CURVE && OptionalPublic(f.value.1, p)
    else OptionalPublic(b, p)
  }

  predicate OptionalPublic(b: Bytes, p: Point) {
    if b != [] && b[0] == 0xa1 then
      var f := Field(b, 0xa1);
      f.Some? && f.value.1 == [] && Field(f.value.0, 0x03) == Some(([0] + p, []))
    else b == []
  }

  ghost function Decode(b: Bytes, p: Point): Option<Scalar> {
    if |b| > 256 || p[0] != 4 then None
    else
      var outer := Field(b, SEQUENCE);
      if outer.None? || outer.value.1 != [] then None
      else
        var inside := Literal(outer.value.0, VERSION0 + ALGORITHM);
        if inside.None? then None
        else
          var octets := Field(inside.value, OCTETS);
          if octets.None? || octets.value.1 != [] then None
          else
            var key := Field(octets.value.0, SEQUENCE);
            if key.None? || key.value.1 != [] then None else KeyScalar(key.value.0, p)
  }

  /** Two literals in a row are their concatenation. */
  lemma LiteralTwice(b: Bytes, first: Bytes, second: Bytes)
    ensures Literal(b, first + second)
            == if Literal(b, first).Some? then Literal(Literal(b, first).value, second) else None
  {
    if Literal(b, first).Some? {
      var rest := b[|first|..];
      if |rest| >= |second| {
        assert b[..|first| + |second|] == b[..|first|] + rest[..|second|];
        assert b[|first| + |second|..] == rest[|second|..];
      }
      if Literal(b, first + second).Some? {
        assert rest[..|second|] == b[..|first + second|][|first|..] == second;
      }
    }
  }

  // ----- exactly four encodings

  lemma WrapFacts(tag: Byte, body: Bytes)
    requires |body| < 256
    ensures |body| + 2 <= |DerWrap(tag, body)| <= |body| + 3 && DerWrap(tag, body)[0] == tag
    ensures DerWrap(tag, body) + [] == DerWrap(tag, body)
  {
  }

  /** A field with nothing behind it. */
  lemma WholeField(b: Bytes, tag: Byte, body: Bytes)
    ensures Field(b, tag) == Some((body, [])) <==> |body| < 256 && b == DerWrap(tag, body)
  {
    hide DerWrap, Field;
    FieldIffWrapped(b, tag, body, []);
    assert DerWrap(tag, body) + [] == DerWrap(tag, body);
  }

  lemma OptionalPublicIff(b: Bytes, p: Point)
    ensures OptionalPublic(b, p) <==> b == [] || b == PublicKey(p)
  {
    hide DerWrap, Field;
    var bits := DerWrap(0x03, [0] + p);
    WrapFacts(0x03, [0] + p);
    WrapFacts(0xa1, bits);
    WholeField(b, 0xa1, bits);
    WholeField(bits, 0x03, [0] + p);
    if b != [] && OptionalPublic(b, p) {
      WholeField(Field(b, 0xa1).value.0, 0x03, [0] + p);
    }
  }

  lemma OptionalIff(b: Bytes, p: Point)
    ensures Optional(b, p) <==> exists parameters, public :: b == Tail(p, parameters, public)
  {
    hide DerWrap, Field, OptionalPublic, PublicKey, CURVE;
    if Optional(b, p) {
      CurveIsShort();
      WrapFacts(0xa0, CURVE);
      if b != [] && b[0] == 0xa0 {
        var rest := Field(b, 0xa0).value.1;
        FieldIffWrapped(b, 0xa0, CURVE, rest);
        OptionalPublicIff(rest, p);
        assert b == Tail(p, true, rest != []);
      } else {
        OptionalPublicIff(b, p);
        assert b == Tail(p, false, b != []);
      }
    }
    forall parameters, public | b == Tail(p, parameters, public) ensures Optional(b, p) {
      TailIsOptional(p, parameters, public);
    }
  }

  lemma TailIsOptional(p: Point, parameters: bool, public: bool)
    ensures Optional(Tail(p, parameters, public), p)
  {
    hide DerWrap, Field, OptionalPublic, PublicKey, CURVE;
    CurveIsShort();
    WrapFacts(0xa0, CURVE);
    PublicIsTagged(p);
    var rest := if public then PublicKey(p) else [];
    OptionalPublicIff(rest, p);
    var b := Tail(p, parameters, public);
    if parameters {
      FieldIffWrapped(b, 0xa0, CURVE, rest);
      assert b[0] == Parameters()[0];
    } else {
      assert b == rest;
    }
  }

  lemma CurveIsShort()
    ensures |CURVE| < 256
  {
  }

  lemma PublicIsTagged(p: Point)
    ensures PublicKey(p) != [] && PublicKey(p)[0] == 0xa1 && |PublicKey(p)| == 70
  {
  }

  lemma KeyScalarIff(key: Bytes, p: Point, s: Scalar)
    requires Valid(s)
    ensures KeyScalar(key, p) == Some(s) <==> exists parameters, public :: key == KeyBody(s, p, parameters, public)
  {
    hide DerWrap, Field, Optional, Tail, Valid, VERSION1;
    WrapFacts(OCTETS, s);
    if KeyScalar(key, p) == Some(s) {
      var body := Literal(key, VERSION1).value;
      LiteralIff(key, VERSION1, body);
      var rest := Field(body, OCTETS).value.1;
      FieldIffWrapped(body, OCTETS, s, rest);
      OptionalIff(rest, p);
      var parameters, public :| rest == Tail(p, parameters, public);
      Associative(VERSION1, DerWrap(OCTETS, s), rest);
      assert key == KeyBody(s, p, parameters, public);
    }
    forall parameters, public | key == KeyBody(s, p, parameters, public) ensures KeyScalar(key, p) == Some(s) {
      var rest := Tail(p, parameters, public);
      var body := DerWrap(OCTETS, s) + rest;
      Associative(VERSION1, DerWrap(OCTETS, s), rest);
      LiteralIff(key, VERSION1, body);
      FieldIffWrapped(body, OCTETS, s, rest);
      OptionalIff(rest, p);
    }
  }

  lemma KeyBodySize(s: Scalar, p: Point, parameters: bool, public: bool)
    ensures |KeyBody(s, p, parameters, public)| == 37 + (if parameters then 12 else 0) + (if public then 70 else 0)
  {
  }

  /** For a valid scalar and its point exactly four strings of bytes are read as it:
      parameters present or not, public key present or not. */
  lemma FourEncodings(b: Bytes, p: Point, s: Scalar)
    requires Valid(s) && p[0] == 4
    ensures Decode(b, p) == Some(s) <==> exists parameters, public :: b == Form(s, p, parameters, public)
  {
    hide DerWrap, Field, KeyScalar, KeyBody, Valid;
    if Decode(b, p) == Some(s) {
      var outer := Field(b, SEQUENCE).value.0;
      WholeField(b, SEQUENCE, outer);
      var inside := Literal(outer, VERSION0 + ALGORITHM).value;
      LiteralIff(outer, VERSION0 + ALGORITHM, inside);
      var octets := Field(inside, OCTETS).value.0;
      WholeField(inside, OCTETS, octets);
      var key := Field(octets, SEQUENCE).value.0;
      WholeField(octets, SEQUENCE, key);
      KeyScalarIff(key, p, s);
      var parameters, public :| key == KeyBody(s, p, parameters, public);
      assert b == Form(s, p, parameters, public);
    }
    forall parameters, public | b == Form(s, p, parameters, public) ensures Decode(b, p) == Some(s) {
      FormDecodes(s, p, parameters, public);
    }
  }

  lemma FormDecodes(s: Scalar, p: Point, parameters: bool, public: bool)
    requires Valid(s) && p[0] == 4
    ensures Decode(Form(s, p, parameters, public), p) == Some(s)
  {
    var key := KeyBody(s, p, parameters, public);
    KeyBodySize(s, p, parameters, public);
    var octets := DerWrap(SEQUENCE, key);
    var inside := DerWrap(OCTETS, octets);
    var outer := VERSION0 + ALGORITHM + inside;
    assert |octets| == |key| + 2 && |inside| == |key| + 4 && |outer| == |key| + 28;
    var b := DerWrap(SEQUENCE, outer);
    assert |b| <= 256;
    hide DerWrap, Field, KeyScalar, KeyBody, Valid, VERSION0, ALGORITHM;
    WholeField(b, SEQUENCE, outer);
    LiteralIff(outer, VERSION0 + ALGORITHM, inside);
    WholeField(inside, OCTETS, octets);
    WholeField(octets, SEQUENCE, key);
    KeyScalarIff(key, p, s);
  }

  /** The four are different: the lengths of their keys are 0x25, 0x31, 0x6b and 0x77. */
  lemma FourAreDistinct(s: Scalar, p: Point, parameters: bool, public: bool, otherParameters: bool, otherPublic: bool)
    requires Form(s, p, parameters, public) == Form(s, p, otherParameters, otherPublic)
    ensures parameters == otherParameters && public == otherPublic
  {
    KeyBodySize(s, p, parameters, public);
    KeyBodySize(s, p, otherParameters, otherPublic);
    hide KeyBody;
    FormSize(s, p, parameters, public);
    FormSize(s, p, otherParameters, otherPublic);
  }

  lemma FormSize(s: Scalar, p: Point, parameters: bool, public: bool)
    ensures var n := |KeyBody(s, p, parameters, public)|; |Form(s, p, parameters, public)| == n + 28 + if n + 28 < 128
        then 2 else 3
  {
    KeyBodySize(s, p, parameters, public);
    hide KeyBody;
  }

  // ----- writing

  /** What is written: no parameters, with the public key. */
  lemma WrittenForm(s: Scalar, p: Point)
    ensures |Form(s, p, false, true)| == 138
    ensures Form(s, p, false, true) == [0x30, 0x81, 0x87, 0x02, 0x01, 0x00] + ALGORITHM + [0x04, 0x6d, 0x30, 0x6b,
                                       0x02, 0x01, 0x01, 0x04, 0x20]
                                       + s + [0xa1, 0x44, 0x03, 0x42, 0x00] + p
  {
    hide KeyBody;
    FormSize(s, p, false, true);
    WrittenBody(s, p);
    var key := KeyBody(s, p, false, true);
    var octets := DerWrap(OCTETS, DerWrap(SEQUENCE, key));
    assert octets == [0x04, 0x6d, 0x30, 0x6b] + key;
  }

  lemma WrittenBody(s: Scalar, p: Point)
    ensures KeyBody(s, p, false, true) == [0x02, 0x01, 0x01, 0x04, 0x20] + s + [0xa1, 0x44, 0x03, 0x42, 0x00] + p
  {
    var public := PublicKey(p);
    assert public == [0xa1, 0x44, 0x03, 0x42, 0x00] + p;
    assert KeyBody(s, p, false, true) == [0x02, 0x01, 0x01, 0x04, 0x20] + s + public;
  }

  method EncodeKey(scalar: Scalar, point: Point, output: array<Byte>) returns (ok: bool, written: nat)
    modifies output
    ensures ok <==> output.Length >= 138 && point[0] == 4 && Valid(scalar)
    ensures ok ==>
        written == 138 && output[..138] == Form(scalar, point, false, true)
        && output[138..] == old(output[138..])
    ensures !ok ==> written == 0 && output[..] == old(output[..])
  {
    hide Form, Valid, ALGORITHM, Patched;
    ok, written := false, 0;
    if output.Length < 138 || point[0] != 4 { return; }
    ok := ScalarInRange(scalar);
    if !ok { return; }
    WrittenForm(scalar, point);
    var offset := Add(output, 0, [0x30, 0x81, 0x87, 0x02, 0x01, 0x00]);
    offset := Add(output, offset, ALGORITHM);
    offset := Add(output, offset, [0x04, 0x6d, 0x30, 0x6b, 0x02, 0x01, 0x01, 0x04, 0x20]);
    offset := Add(output, offset, scalar);
    offset := Add(output, offset, [0xa1, 0x44, 0x03, 0x42, 0x00]);
    offset := Add(output, offset, point);
    written := offset;
  }

  // ----- reading

  lemma Subslice(b: Bytes, lo: nat, hi: nat, i: nat, j: nat)
    requires lo <= hi <= |b| && i <= j <= hi - lo
    ensures b[lo..hi][i..j] == b[lo + i..lo + j]
  {
    assert forall k | 0 <= k < j - i :: b[lo..hi][i..j][k] == b[lo + i..lo + j][k];
  }

  /** A window on the input that is consumed from the front. Every index it reads is
      inside the input. */
  class Reader {
    const input: Bytes
    var at: nat
    var remaining: nat

    constructor (input: Bytes, at: nat, remaining: nat)
      requires at + remaining <= |input|
      ensures Valid() && this.input == input && View() == input[at..at + remaining]
    {
      this.input, this.at, this.remaining := input, at, remaining;
    }

    predicate Valid()
      reads this
    {
      at + remaining <= |input|
    }

    function View(): (v: Bytes)
      requires Valid()
      reads this
      ensures |v| == remaining
    {
      input[at..at + remaining]
    }

    method TakeLiteral(bytes: Bytes) returns (ok: bool)
      requires Valid()
      modifies this
      ensures Valid() && ok == Literal(old(View()), bytes).Some?
      ensures View() == if ok then Literal(old(View()), bytes).value else old(View())
    {
      if remaining < |bytes| || input[at..at + |bytes|] != bytes { return false; }
      at, remaining := at + |bytes|, remaining - |bytes|;
      ok := true;
    }

    /** Cuts a node off the front. */
    method TakeField(tag: Byte) returns (ok: bool, child: Reader)
      requires Valid()
      modifies this
      ensures Valid() && fresh(child) && child.Valid() && ok == Field(old(View()), tag).Some?
      ensures ok ==> child.View() == Field(old(View()), tag).value.0 && View() == Field(old(View()), tag).value.1
      ensures !ok ==> View() == old(View())
    {
      hide Field;
      ghost var view := View();
      var header, length;
      ok, header, length := TakeHeader(tag);
      if !ok {
        child := new Reader(input, 0, 0);
        return;
      }
      Subslice(input, at, at + remaining, header, header + length);
      Subslice(input, at, at + remaining, header + length, remaining);
      child := new Reader(input, at + header, length);
      at, remaining := at + header + length, remaining - header - length;
      assert view[header + length..] == view[header + length..|view|];
    }

    method TakeHeader(tag: Byte) returns (ok: bool, header: nat, length: nat)
      requires Valid()
      ensures ok == Field(View(), tag).Some?
      ensures ok ==> header + length <= remaining
                     && Field(View(), tag) == Some((View()[header..header + length], View()[header + length..]))
    {
      ok, header, length := false, 2, 0;
      if remaining < 2 || input[at] != tag { return; }
      length := input[at + 1];
      if length >= 128 {
        // Every supported key is at most 256 bytes, so at most one length octet.
        if length != 0x81 || remaining < 3 || input[at + 2] < 128 { return; }
        header, length := 3, input[at + 2];
      }
      ok := length <= remaining - header;
    }
  }

  /** The optional fields; nothing may follow them. */
  method TakeOptional(key: Reader, point: Point) returns (ok: bool)
    requires key.Valid()
    modifies key
    ensures ok == Optional(old(key.View()), point)
  {
    hide Field, CURVE, OptionalPublic;
    if key.remaining > 0 && key.input[key.at] == 0xa0 {
      var parameters;
      ok, parameters := key.TakeField(0xa0);
      if !ok { return; }
      ok := parameters.TakeLiteral(CURVE);
      if !ok || parameters.remaining > 0 { return false; }
    }
    ok := TakePublic(key, point);
  }

  /** The public key, if there is one. */
  method TakePublic(key: Reader, point: Point) returns (ok: bool)
    requires key.Valid()
    modifies key
    ensures ok == OptionalPublic(old(key.View()), point)
  {
    hide Field;
    if key.remaining == 0 || key.input[key.at] != 0xa1 { return key.remaining == 0; }
    var public, bits;
    ok, public := key.TakeField(0xa1);
    if !ok { return; }
    ok, bits := public.TakeField(0x03);
    if !ok || public.remaining > 0 { return false; }
    ok := HoldsPoint(bits, point);
    ok := ok && key.remaining == 0;
  }

  /** A bit string without unused bits that is exactly the point. */
  method HoldsPoint(bits: Reader, point: Point) returns (ok: bool)
    requires bits.Valid()
    ensures ok == (bits.View() == [0] + point)
  {
    if bits.remaining != 66 { return false; }
    PointBehindZero(bits.View(), point);
    Subslice(bits.input, bits.at, bits.at + bits.remaining, 1, 66);
    ok := bits.input[bits.at] == 0 && bits.input[bits.at + 1..bits.at + 66] == point;
  }

  lemma PointBehindZero(b: Bytes, point: Point)
    requires |b| == 66
    ensures b == [0] + point <==> b[0] == 0 && b[1..66] == point
  {
    assert b == [b[0]] + b[1..66];
  }

  method DecodeKey(input: Bytes, point: Point) returns (ok: bool, scalar: Scalar)
    ensures ok == Decode(input, point).Some?
    ensures ok ==> Some(scalar) == Decode(input, point)
  {
    hide Field, Literal, KeyScalar, VERSION0, VERSION1, ALGORITHM, Valid, Optional;
    ok, scalar := false, seq(32, i => 0);
    if |input| > 256 || point[0] != 4 { return; }
    var top := new Reader(input, 0, |input|);
    assert input[0..|input|] == input;
    var outer, octets, key;
    ok, outer := top.TakeField(SEQUENCE);
    if !ok || top.remaining > 0 { return false, scalar; }
    LiteralTwice(outer.View(), VERSION0, ALGORITHM);
    ok := outer.TakeLiteral(VERSION0);
    if ok { ok := outer.TakeLiteral(ALGORITHM); }
    if !ok { return; }
    ok, octets := outer.TakeField(OCTETS);
    if !ok || outer.remaining > 0 { return false, scalar; }
    ok, key := octets.TakeField(SEQUENCE);
    if !ok || octets.remaining > 0 { return false, scalar; }
    ok, scalar := TakeScalar(key, point);
  }

  method TakeScalar(key: Reader, point: Point) returns (ok: bool, scalar: Scalar)
    requires key.Valid()
    modifies key
    ensures ok == KeyScalar(old(key.View()), point).Some?
    ensures ok ==> Some(scalar) == KeyScalar(old(key.View()), point)
  {
    hide Field, VERSION1, Valid, Optional;
    scalar := seq(32, i => 0);
    ok := key.TakeLiteral(VERSION1);
    if !ok { return; }
    var value;
    ok, value := key.TakeField(OCTETS);
    if !ok || value.remaining != 32 { return false, scalar; }
    var private: Scalar := value.View();
    ok := ScalarInRange(private);
    if !ok { return; }
    ok := TakeOptional(key, point);
    if ok { scalar := private; }
  }

  /** Decoding what was encoded returns the scalar. */
  lemma EncodedDecodes(s: Scalar, p: Point)
    requires Valid(s) && p[0] == 4
    ensures Decode(Form(s, p, false, true), p) == Some(s) && |Form(s, p, false, true)| == 138
  {
    FourEncodings(Form(s, p, false, true), p, s);
    WrittenForm(s, p);
  }
}
