/**
 Validation of the extensions of a certificate signing request
 (pkg/server/internal/extensions/extensions.go).
 */
module Extensions {
  import opened Common
  import opened Der

  const TAG_URI := 6
  const TAG_SEQUENCE := 16

  type Oid = seq<nat>

  const OID_KEY_USAGE: Oid := [2, 5, 29, 15]
  const OID_EXTENDED_KEY_USAGE: Oid := [2, 5, 29, 37]
  const OID_SUBJECT_ALT_NAME: Oid := [2, 5, 29, 17]
  const OID_SERVER_AUTH: Oid := [1, 3, 6, 1, 5, 5, 7, 3, 1]
  const OID_CLIENT_AUTH: Oid := [1, 3, 6, 1, 5, 5, 7, 3, 2]

  datatype Extension = Extension(id: Oid, value: seq<byte>)

  // ----- Subject alternative names (section 4.2.1.6 of RFC 5280)

  /** A universal SEQUENCE of the given elements. */
  predicate IsSequenceOf(value: seq<byte>, es: seq<Element>) {
    AllValid(es) && |EncodeAll(es)| < MAX && value == Encode(Element(0, true, TAG_SEQUENCE, EncodeAll(es)))
  }

  predicate AllUri(es: seq<Element>) {
    forall i :: 0 <= i < |es| ==> es[i].tag == TAG_URI
  }

  /** Accepted SANs: the encodings of the sequences whose elements all have tag number 6. */
  ghost predicate UriSan(value: seq<byte>) {
    exists es :: IsSequenceOf(value, es) && AllUri(es)
  }

  method ValidateSubjectAltName(ext: Extension) returns (ok: bool)
    ensures ok <==> ext.id == OID_SUBJECT_ALT_NAME && UriSan(ext.value)
  {
    if ext.id != OID_SUBJECT_ALT_NAME {
      return false;
    }
    var parsed := Read(ext.value);
    if parsed.Malformed? {
      NotASequence(ext.value);
      return false;
    }
    if |parsed.rest| != 0 {
      NotASequence(ext.value);
      return false;
    }
    var sequence := parsed.value;
    if !sequence.compound || sequence.tag != TAG_SEQUENCE || sequence.cls != 0 {
      NotASequence(ext.value);
      return false;
    }
    OnlyItsElements(ext.value);
    AllRead(sequence.content);

    var bytes := sequence.content;
    while |bytes| > 0
      invariant UriElements(bytes) <==> UriElements(sequence.content)
      decreases |bytes|
    {
      var element := Read(bytes);
      if element.Malformed? {
        return false;
      }
      EncodeRead(bytes);
      bytes := element.rest;
      if element.value.tag != TAG_URI {
        return false;
      }
    }
    return true;
  }

  /** Every element up to the end is well formed and of tag 6. */
  predicate UriElements(bytes: seq<byte>)
    decreases |bytes|
  {
    bytes == [] ||
    (Read(bytes).Parsed? && Read(bytes).value.tag == TAG_URI && (EncodeRead(bytes); UriElements(Read(bytes).rest)))
  }

  lemma {:induction false} AllRead(bytes: seq<byte>)
    ensures UriElements(bytes) <==> ReadAll(bytes).Some? && AllUri(ReadAll(bytes).value)
    decreases |bytes|
  {
    if bytes != [] && Read(bytes).Parsed? {
      EncodeRead(bytes);
      var rest := Read(bytes).rest;
      AllRead(rest);
      if ReadAll(rest).Some? {
        var es := [Read(bytes).value] + ReadAll(rest).value;
        assert es[0] == Read(bytes).value && es[1..] == ReadAll(rest).value;
        assert AllUri(es) ==> AllUri(es[1..]);
      }
    }
  }

  /** A value that is not read as one universal compound SEQUENCE without trailing bytes is no SAN. */
  lemma NotASequence(value: seq<byte>)
    requires Read(value).Malformed? || Read(value).rest != [] ||
      !Read(value).value.compound || Read(value).value.tag != TAG_SEQUENCE || Read(value).value.cls != 0
    ensures !UriSan(value)
  {
    assert value + [] == value;
    if es :| IsSequenceOf(value, es) && AllUri(es) {
      ReadEncoded(Element(0, true, TAG_SEQUENCE, EncodeAll(es)), []);
    }
  }

  /** One that is, is a SAN exactly if its content is read as elements of tag 6. */
  lemma OnlyItsElements(value: seq<byte>)
    requires Read(value).Parsed? && Read(value).rest == []
    requires Read(value).value.compound && Read(value).value.tag == TAG_SEQUENCE && Read(value).value.cls == 0
    ensures UriSan(value) <==> ReadAll(Read(value).value.content).Some? && AllUri(ReadAll(Read(value).value.content).value)
  {
    var content := Read(value).value.content;
    EncodeRead(value);
    assert value == Encode(Read(value).value);
    if UriSan(value) {
      var es :| IsSequenceOf(value, es) && AllUri(es);
      ReadEncoded(Element(0, true, TAG_SEQUENCE, EncodeAll(es)), []);
      assert value + [] == value;
      ReadAllIffEncoded(content, es);
    }
    if ReadAll(content).Some? && AllUri(ReadAll(content).value) {
      ReadAllIffEncoded(content, ReadAll(content).value);
      assert IsSequenceOf(value, ReadAll(content).value);
    }
  }

  /** Encoding any list of elements and validating it succeeds exactly if all are tag 6. */
  lemma EncodedSanAccepted(es: seq<Element>)
    requires AllValid(es) && |EncodeAll(es)| < MAX
    ensures UriSan(Encode(Element(0, true, 16, EncodeAll(es)))) <==> forall i :: 0 <= i < |es| ==> es[i].tag == 6
  {
    var value := Encode(Element(0, true, TAG_SEQUENCE, EncodeAll(es)));
    ReadEncoded(Element(0, true, TAG_SEQUENCE, EncodeAll(es)), []);
    assert value + [] == value;
    OnlyItsElements(value);
    ReadAllEncoded(es);
  }

  /** An accepted value starts with the octet of a universal SEQUENCE, and no further byte may follow it. */
  lemma SanIsOneSequence(value: seq<byte>, rest: seq<byte>)
    requires UriSan(value)
    ensures value != [] && value[0] == 0x30
    ensures rest != [] ==> !UriSan(value + rest)
  {
    var es :| IsSequenceOf(value, es) && AllUri(es);
    var sequence := Element(0, true, TAG_SEQUENCE, EncodeAll(es));
    ReadEncoded(sequence, rest);
    if rest != [] {
      NotASequence(value + rest);
    }
  }

  // ----- What RFC 5280 asks of such a value

  predicate Ia5(content: seq<byte>) {
    forall i :: 0 <= i < |content| ==> content[i] < 128
  }

  /** uniformResourceIdentifier by its ASN.1 type: the context-specific, primitive tag 6 with an IA5String. */
  predicate UriGeneralName(e: Element) {
    e.cls == 2 && !e.compound && e.tag == TAG_URI && Ia5(e.content)
  }

  /** GeneralNames of the URI form; the list must not be empty. */
  predicate UriNames(es: seq<Element>) {
    es != [] && forall i :: 0 <= i < |es| ==> UriGeneralName(es[i])
  }

  const URI_OCTET := 0x86

  lemma IdentifierOctet(e: Element)
    requires Valid(e)
    ensures Encode(e)[0] == URI_OCTET <==> e.cls == 2 && !e.compound && e.tag == TAG_URI
  {
    var low := if e.tag < 31 then e.tag else 31;
    assert Encode(e)[0] == LeadByte(e.cls, e.compound, low);
  }

  lemma SequenceUnique(value: seq<byte>, es: seq<Element>, fs: seq<Element>)
    requires IsSequenceOf(value, es) && IsSequenceOf(value, fs)
    ensures es == fs
  {
    ReadEncoded(Element(0, true, TAG_SEQUENCE, EncodeAll(es)), []);
    ReadEncoded(Element(0, true, TAG_SEQUENCE, EncodeAll(fs)), []);
    assert value + [] == value;
    ReadAllEncoded(es);
    ReadAllEncoded(fs);
  }

  /**
   The code examines the tag number of an element and nothing else. An accepted value is a list of URI
   names by the ASN.1 type of section 4.2.1.6 of RFC 5280 if and only if it has an element, every element
   starts with the octet 0x86, and every content is IA5. The syntax of a URI is no part of that type.
   */
  lemma AcceptedAreUriNames(value: seq<byte>, es: seq<Element>)
    requires UriSan(value) && IsSequenceOf(value, es)
    ensures UriNames(es) <==>
      es != [] && forall i :: 0 <= i < |es| ==> Encode(es[i])[0] == URI_OCTET && Ia5(es[i].content)
  {
    forall i | 0 <= i < |es|
      ensures UriGeneralName(es[i]) <==> Encode(es[i])[0] == URI_OCTET && Ia5(es[i].content)
    {
      IdentifierOctet(es[i]);
    }
  }

  /** A value that encodes one list of tag 6 elements is accepted, whatever else they are. */
  lemma AcceptedAs(value: seq<byte>, es: seq<Element>)
    requires IsSequenceOf(value, es) && AllUri(es) && !UriNames(es)
    ensures UriSan(value) && forall fs :: IsSequenceOf(value, fs) ==> !UriNames(fs)
  {
    forall fs | IsSequenceOf(value, fs)
      ensures fs == es
    {
      SequenceUnique(value, fs, es);
    }
  }

  /** A universal OBJECT IDENTIFIER, whose tag number is also 6, is accepted. */
  lemma UniversalTagSixAccepted()
    ensures UriSan([0x30, 0x02, 0x06, 0x00])
    ensures forall es :: IsSequenceOf([0x30, 0x02, 0x06, 0x00], es) ==> !UriNames(es)
  {
    var oid := Element(0, false, 6, []);
    assert Encode(oid) == [0x06, 0x00];
    assert [oid][1..] == [] && EncodeAll([oid]) == [0x06, 0x00];
    AcceptedAs([0x30, 0x02, 0x06, 0x00], [oid]);
  }

  /** So is a list without any name. */
  lemma EmptySanAccepted()
    ensures UriSan([0x30, 0x00])
    ensures forall es :: IsSequenceOf([0x30, 0x00], es) ==> !UriNames(es)
  {
    AcceptedAs([0x30, 0x00], []);
  }

  /** And a name with a byte outside IA5. */
  lemma NonIa5SanAccepted()
    ensures UriSan([0x30, 0x03, 0x86, 0x01, 0xFF])
    ensures forall es :: IsSequenceOf([0x30, 0x03, 0x86, 0x01, 0xFF], es) ==> !UriNames(es)
  {
    var name := Element(2, false, 6, [0xFF]);
    assert Encode(name) == [0x86, 0x01, 0xFF];
    assert [name][1..] == [] && EncodeAll([name]) == [0x86, 0x01, 0xFF];
    assert !Ia5(name.content) by {
      assert name.content[0] == 0xFF;
    }
    AcceptedAs([0x30, 0x03, 0x86, 0x01, 0xFF], [name]);
  }

  /** A name of the right type is accepted even if it is no URI at all. */
  lemma EmptyUriAccepted()
    ensures UriSan([0x30, 0x02, 0x86, 0x00])
    ensures var name := Element(2, false, 6, []); IsSequenceOf([0x30, 0x02, 0x86, 0x00], [name]) && UriNames([name])
  {
    var name := Element(2, false, 6, []);
    assert Encode(name) == [0x86, 0x00];
    assert [name][1..] == [] && EncodeAll([name]) == [0x86, 0x00];
    assert IsSequenceOf([0x30, 0x02, 0x86, 0x00], [name]);
  }

  // ----- Key usage (section 4.2.1.3 of RFC 5280)

  type Mask = seq<bv8>

  const ALLOWED_KEY_USAGES: seq<Mask> := [[3, 2, 7, 128], [3, 2, 5, 32]]

  predicate FourBytes(table: seq<Mask>) {
    forall r :: 0 <= r < |table| ==> |table[r]| == 4
  }

  /** Every bit of column `i` that some row of the table has. */
  function Union(table: seq<Mask>, i: nat): bv8
    requires FourBytes(table) && i < 4
  {
    if table == [] then 0 else Union(table[..|table| - 1], i) | table[|table| - 1][i]
  }

  predicate WithinMasks(table: seq<Mask>, value: seq<bv8>)
    requires FourBytes(table)
  {
    |value| == 4 && forall i :: 0 <= i < 4 ==> value[i] & !Union(table, i) == 0
  }

  method ValidateKeyUsage(table: seq<Mask>, value: seq<bv8>) returns (ok: bool)
    requires FourBytes(table)
    ensures ok <==> WithinMasks(table, value)
  {
    if |value| != 4 {
      return false;
    }
    var extValue := new bv8[4](i requires 0 <= i < 4 => value[i]);
    for r := 0 to |table|
      invariant forall i :: 0 <= i < 4 ==> extValue[i] == value[i] & !Union(table[..r], i)
    {
      ClearUsage(extValue, table[r]);
      forall i | 0 <= i < 4
        ensures extValue[i] == value[i] & !Union(table[..r + 1], i)
      {
        assert table[..r + 1][..r] == table[..r];
        ClearMore(value[i], Union(table[..r], i), table[r][i]);
      }
    }
    assert table[..|table|] == table;
    return extValue[0] == 0 && extValue[1] == 0 && extValue[2] == 0 && extValue[3] == 0;
  }

  /** Clears the bits of one row. */
  method ClearUsage(extValue: array<bv8>, usage: Mask)
    requires extValue.Length == |usage| == 4
    modifies extValue
    ensures forall i :: 0 <= i < 4 ==> extValue[i] == old(extValue[i]) & !usage[i]
  {
    for i := 0 to 4
      invariant forall j :: 0 <= j < i ==> extValue[j] == old(extValue[j]) & !usage[j]
      invariant forall j :: i <= j < 4 ==> extValue[j] == old(extValue[j])
    {
      extValue[i] := extValue[i] & !usage[i];
    }
  }

  lemma ClearMore(v: bv8, u: bv8, b: bv8)
    ensures (v & !u) & !b == v & !(u | b)
  {
  }

  /** A single bit. */
  predicate Bit(b: bv8) {
    b in {1, 2, 4, 8, 16, 32, 64, 128}
  }

  lemma {:induction false} UnionBit(table: seq<Mask>, i: nat, b: bv8)
    requires FourBytes(table) && i < 4 && Bit(b)
    ensures Union(table, i) & b != 0 <==> exists r :: 0 <= r < |table| && table[r][i] & b != 0
  {
    if table == [] {
    } else {
      var m := |table| - 1;
      UnionBit(table[..m], i, b);
      BitOfOr(Union(table[..m], i), table[m][i], b);
      if r :| 0 <= r < |table| && table[r][i] & b != 0 {
        assert r < m ==> table[..m][r][i] & b != 0;
      }
    }
  }

  lemma BitOfOr(x: bv8, y: bv8, b: bv8)
    requires Bit(b)
    ensures (x | y) & b != 0 <==> x & b != 0 || y & b != 0
  {
  }

  lemma WithinIffBits(v: bv8, u: bv8)
    ensures v & !u == 0 <==> forall b :: Bit(b) && v & b != 0 ==> u & b != 0
  {
    if forall b :: Bit(b) && v & b != 0 ==> u & b != 0 {
      assert Bit(1) && Bit(2) && Bit(4) && Bit(8) && Bit(16) && Bit(32) && Bit(64) && Bit(128);
    }
  }

  /**
   The masking is exact: a value is accepted if and only if it has four bytes and every bit set in a byte
   is set in that byte of some row. In particular the order of the rows does not matter.
   */
  lemma MaskingIsExact(table: seq<Mask>, value: seq<bv8>)
    requires FourBytes(table)
    ensures WithinMasks(table, value) <==>
      |value| == 4 &&
      forall i, b :: 0 <= i < 4 && Bit(b) && value[i] & b != 0 ==> exists r :: 0 <= r < |table| && table[r][i] & b != 0
  {
    if |value| == 4 {
      forall i, b | 0 <= i < 4 && Bit(b)
        ensures Union(table, i) & b != 0 <==> exists r :: 0 <= r < |table| && table[r][i] & b != 0
      {
        UnionBit(table, i, b);
      }
      forall i | 0 <= i < 4
        ensures value[i] & !Union(table, i) == 0 <==> forall b :: Bit(b) && value[i] & b != 0 ==> Union(table, i) & b != 0
      {
        WithinIffBits(value[i], Union(table, i));
      }
    }
  }

  function Bits(value: seq<byte>): seq<bv8> {
    seq(|value|, i requires 0 <= i < |value| => value[i] as bv8)
  }

  predicate KeyUsageAllowed(value: seq<byte>) {
    WithinMasks(ALLOWED_KEY_USAGES, Bits(value))
  }

  /** The low bits of the last octet that a BIT STRING does not use. */
  function Padding(unused: bv8): bv8
    requires unused <= 7
  {
    ((1 as bv8) << unused) - 1
  }

  /** A DER BIT STRING of one octet: tag 3, length 2, and zero padding (section 11.2.1 of ITU-T X.690). */
  predicate IsBitString(value: seq<bv8>) {
    && |value| == 4 && value[0] == 3 && value[1] == 2
    && value[2] <= 7 && value[3] & Padding(value[2]) == 0
  }

  /** One for a list of named bits ends in a one bit (section 11.2.2). */
  predicate IsNamedBitList(value: seq<bv8>) {
    IsBitString(value) && (value[3] >> value[2]) & 1 == 1
  }

  const DIGITAL_SIGNATURE: bv8 := 0x80
  const KEY_ENCIPHERMENT: bv8 := 0x20

  lemma AllowedBytes(value: seq<bv8>)
    requires |value| == 4
    ensures WithinMasks(ALLOWED_KEY_USAGES, value) <==>
      value[0] & !3 == 0 && value[1] & !2 == 0 && value[2] & !7 == 0 && value[3] & !(DIGITAL_SIGNATURE | KEY_ENCIPHERMENT) == 0
  {
    AllowedUnion();
  }

  /**
   An accepted value is a BIT STRING if and only if its first two bytes are 3 and 2 and its padding is zero:
   the mask checks neither. Whenever it is, it names no usage but digitalSignature and keyEncipherment.
   */
  lemma AcceptedBitString(value: seq<bv8>)
    requires WithinMasks(ALLOWED_KEY_USAGES, value)
    ensures value[2] <= 7
    ensures IsBitString(value) <==> value[0] == 3 && value[1] == 2 && value[3] & Padding(value[2]) == 0
    ensures value[3] & !(DIGITAL_SIGNATURE | KEY_ENCIPHERMENT) == 0
  {
    AllowedBytes(value);
    SmallUnused(value[2]);
  }

  lemma SmallUnused(u: bv8)
    ensures u & !7 == 0 <==> u <= 7
  {
  }

  /** Exactly three key usages in DER are accepted: one of the two usages, or both. */
  lemma AcceptedKeyUsages(value: seq<bv8>)
    ensures WithinMasks(ALLOWED_KEY_USAGES, value) && IsNamedBitList(value) <==>
      || value == [3, 2, 7, DIGITAL_SIGNATURE]
      || value == [3, 2, 5, KEY_ENCIPHERMENT]
      || value == [3, 2, 5, DIGITAL_SIGNATURE | KEY_ENCIPHERMENT]
  {
    if |value| == 4 {
      AllowedBytes(value);
      if value[2] <= 7 {
        NamedUsages(value[2], value[3]);
      }
      assert value == [value[0], value[1], value[2], value[3]];
    }
  }

  lemma NamedUsages(unused: bv8, usage: bv8)
    requires unused <= 7
    ensures usage & !(DIGITAL_SIGNATURE | KEY_ENCIPHERMENT) == 0 && usage & Padding(unused) == 0 && (usage >> unused) & 1 == 1 <==>
      || (unused == 7 && usage == DIGITAL_SIGNATURE)
      || (unused == 5 && usage == KEY_ENCIPHERMENT)
      || (unused == 5 && usage == DIGITAL_SIGNATURE | KEY_ENCIPHERMENT)
  {
  }

  /** Accepted although no BIT STRING: wrong tag and length, and bits set in the padding. */
  lemma NotBitStringAccepted()
    ensures WithinMasks(ALLOWED_KEY_USAGES, [0, 0, 0, 0]) && !IsBitString([0, 0, 0, 0])
    ensures WithinMasks(ALLOWED_KEY_USAGES, [3, 2, 7, 160]) && !IsBitString([3, 2, 7, 160])
  {
    AllowedBytes([0, 0, 0, 0]);
    AllowedBytes([3, 2, 7, 160]);
  }

  function Bytes(b: seq<bv8>): seq<byte> {
    seq(|b|, i requires 0 <= i < |b| => b[i] as int)
  }

  lemma BitsOfBytes(b: seq<bv8>)
    ensures Bits(Bytes(b)) == b
  {
    forall i | 0 <= i < |b|
      ensures Bits(Bytes(b))[i] == b[i]
    {
      assert (b[i] as int) as bv8 == b[i];
    }
  }

  /** Byte by byte: what may stand in a key usage extension. */
  lemma KeyUsageBytes(b: seq<bv8>)
    ensures KeyUsageAllowed(Bytes(b)) <==>
      |b| == 4 && b[0] <= 3 && b[1] in {0, 2} && b[2] <= 7 && b[3] in {0, 32, 128, 160}
  {
    BitsOfBytes(b);
    FourBits(b);
  }

  lemma FourBits(b: seq<bv8>)
    ensures WithinMasks(ALLOWED_KEY_USAGES, b) <==>
      |b| == 4 && b[0] <= 3 && b[1] in {0, 2} && b[2] <= 7 && b[3] in {0, 32, 128, 160}
  {
    if |b| == 4 {
      AllowedBytes(b);
      Subsets(b[0]);
      Subsets(b[1]);
      Subsets(b[2]);
      Subsets(b[3]);
    }
  }

  lemma Subsets(b: bv8)
    ensures b & !3 == 0 <==> b <= 3
    ensures b & !2 == 0 <==> b == 0 || b == 2
    ensures b & !7 == 0 <==> b <= 7
    ensures b & !(DIGITAL_SIGNATURE | KEY_ENCIPHERMENT) == 0 <==> b == 0 || b == 32 || b == 128 || b == 160
  {
  }

  lemma AllowedUnion()
    ensures Union(ALLOWED_KEY_USAGES, 0) == 3 && Union(ALLOWED_KEY_USAGES, 1) == 2
    ensures Union(ALLOWED_KEY_USAGES, 2) == 7 && Union(ALLOWED_KEY_USAGES, 3) == 160
  {
    var one: seq<Mask> := [[3, 2, 7, 128]];
    assert one[..0] == [] && ALLOWED_KEY_USAGES[..1] == one;
    forall i | 0 <= i < 4
      ensures Union(ALLOWED_KEY_USAGES, i) == (0 | ALLOWED_KEY_USAGES[0][i]) | ALLOWED_KEY_USAGES[1][i]
    {
      assert Union(one[..0], i) == 0;
      assert Union(one, i) == 0 | one[0][i];
    }
  }

  // ----- Extended key usage (section 4.2.1.12 of RFC 5280) and the whole request

  /** asn1.Unmarshal into a list of object identifiers; bytes after the list are ignored. */
  type OidListReader = seq<byte> -> Option<seq<Oid>>

  predicate ExtendedKeyUsageAllowed(readOids: OidListReader, value: seq<byte>) {
    var usages := readOids(value);
    && usages.Some?
    && forall i :: 0 <= i < |usages.value| ==> usages.value[i] == OID_CLIENT_AUTH || usages.value[i] == OID_SERVER_AUTH
  }

  method ValidateExtendedKeyUsage(readOids: OidListReader, ext: Extension) returns (ok: bool)
    ensures ok <==> ext.id == OID_EXTENDED_KEY_USAGE && ExtendedKeyUsageAllowed(readOids, ext.value)
    ensures ok <==>
      && ext.id == [2, 5, 29, 37] && readOids(ext.value).Some?
      && forall i :: 0 <= i < |readOids(ext.value).value| ==>
           readOids(ext.value).value[i] in {[1, 3, 6, 1, 5, 5, 7, 3, 1], [1, 3, 6, 1, 5, 5, 7, 3, 2]}
  {
    if ext.id != OID_EXTENDED_KEY_USAGE {
      return false;
    }
    var usages := readOids(ext.value);
    if usages.None? {
      return false;
    }
    var errors := 0;
    for i := 0 to |usages.value|
      invariant errors >= 0
      invariant errors == 0 <==> forall j :: 0 <= j < i ==> usages.value[j] == OID_CLIENT_AUTH || usages.value[j] == OID_SERVER_AUTH
    {
      if usages.value[i] != OID_CLIENT_AUTH && usages.value[i] != OID_SERVER_AUTH {
        errors := errors + 1;
      }
    }
    return errors == 0;
  }

  ghost predicate Accepted(readOids: OidListReader, ext: Extension) {
    || (ext.id == OID_SUBJECT_ALT_NAME && UriSan(ext.value))
    || (ext.id == OID_KEY_USAGE && KeyUsageAllowed(ext.value))
    || (ext.id == OID_EXTENDED_KEY_USAGE && ExtendedKeyUsageAllowed(readOids, ext.value))
  }

  /** Succeeds if and only if there is no extra extension and every extension is an accepted one. */
  method ValidateCSRExtensions(readOids: OidListReader, extra: nat, exts: seq<Extension>) returns (ok: bool)
    ensures ok <==> extra == 0 && forall i :: 0 <= i < |exts| ==> Accepted(readOids, exts[i])
  {
    var errors := if extra > 0 then 1 else 0;
    for i := 0 to |exts|
      invariant errors >= 0
      invariant errors == 0 <==> extra == 0 && forall j :: 0 <= j < i ==> Accepted(readOids, exts[j])
    {
      var ext := exts[i];
      var good := false;
      if ext.id == OID_SUBJECT_ALT_NAME {
        good := ValidateSubjectAltName(ext);
      } else if ext.id == OID_KEY_USAGE {
        good := ValidateKeyUsage(ALLOWED_KEY_USAGES, Bits(ext.value));
      } else if ext.id == OID_EXTENDED_KEY_USAGE {
        good := ValidateExtendedKeyUsage(readOids, ext);
      }
      if !good {
        errors := errors + 1;
      }
    }
    return errors == 0;
  }
}
