/**
 The DER element reader that SAN validation relies on: identifier and length octets as in section 8.1 of
 ITU-T X.690, restricted to the definite, minimal forms of section 10.1, with the limits of Go's
 encoding/asn1 (tag numbers up to 2^31 - 1, contents below 2^31 bytes). `Encode` is the inverse.
 */
module Der {
  import opened Common

  type byte = x: int | 0 <= x < 256

  const MAX := 0x8000_0000

  datatype Element = Element(cls: nat, compound: bool, tag: nat, content: seq<byte>)

  predicate Valid(e: Element) {
    e.cls < 4 && e.tag < MAX && |e.content| < MAX
  }

  /** A parsed value and the bytes after it. */
  datatype Parsed<+T> = Malformed | Parsed(value: T, rest: seq<byte>)

  // ----- Reading

  function ReadBase128(b: seq<byte>, shifted: nat, acc: nat): Parsed<nat>
    decreases |b|
  {
    if b == [] || shifted == 5 || (shifted == 0 && b[0] == 0x80) then Malformed
    else
      var value := acc * 128 + b[0] % 128;
      if b[0] >= 128 then ReadBase128(b[1..], shifted + 1, value)
      else if value >= MAX then Malformed
      else Parsed(value, b[1..])
  }

  function ReadLong(b: seq<byte>, n: nat, acc: nat): Parsed<nat>
    decreases n
  {
    if n == 0 then (if acc < 0x80 then Malformed else Parsed(acc, b))
    else if b == [] || acc >= 0x80_0000 || acc * 256 + b[0] == 0 then Malformed
    else ReadLong(b[1..], n - 1, acc * 256 + b[0])
  }

  function ReadLength(b: seq<byte>): Parsed<nat> {
    if b == [] then Malformed
    else if b[0] < 128 then Parsed(b[0], b[1..])
    else if b[0] == 128 then Malformed
    else ReadLong(b[1..], b[0] - 128, 0)
  }

  function ReadTag(b: seq<byte>): Parsed<nat>
    requires b != []
  {
    if b[0] % 32 != 31 then Parsed(b[0] % 32, b[1..]) else LongTag(b[1..])
  }

  function LongTag(b: seq<byte>): Parsed<nat> {
    match ReadBase128(b, 0, 0)
    case Malformed => Malformed
    case Parsed(tag, rest) => if tag < 31 then Malformed else Parsed(tag, rest)
  }

  /** One element from the front of `b`. */
  function Read(b: seq<byte>): Parsed<Element> {
    if b == [] then Malformed
    else
      match ReadTag(b)
      case Malformed => Malformed
      case Parsed(tag, afterTag) =>
        match ReadLength(afterTag)
        case Malformed => Malformed
        case Parsed(n, rest) =>
          if n > |rest| then Malformed
          else Parsed(Element(b[0] / 64, b[0] / 32 % 2 == 1, tag, rest[..n]), rest[n..])
  }

  // ----- Writing

  predicate Base(b: nat) {
    b == 128 || b == 256
  }

  // Arithmetic in one of the two bases, each with its own constant.

  function High(base: nat, n: nat): nat
    requires Base(base)
  {
    if base == 128 then n / 128 else n / 256
  }

  function Low(base: nat, n: nat): (d: nat)
    requires Base(base)
    ensures d < base
  {
    if base == 128 then n % 128 else n % 256
  }

  function Join(base: nat, high: nat, low: nat): nat
    requires Base(base)
  {
    if base == 128 then high * 128 + low else high * 256 + low
  }

  predicate Below(base: nat, ds: seq<byte>) {
    forall i :: 0 <= i < |ds| ==> ds[i] < base
  }

  function Digits(base: nat, n: nat): (ds: seq<byte>)
    requires Base(base)
    ensures Below(base, ds)
    ensures n > 0 ==> ds != [] && ds[0] != 0
  {
    if n == 0 then [] else Digits(base, High(base, n)) + [Low(base, n)]
  }

  /** The number with the given digits after those of `acc`. */
  function Fold(base: nat, acc: nat, ds: seq<byte>): nat
    requires Base(base)
    decreases |ds|
  {
    if ds == [] then acc else Fold(base, Join(base, acc, ds[0]), ds[1..])
  }

  /** Base-128 digits with the continuation bit on all but the last. */
  function Continued(ds: seq<byte>): (r: seq<byte>)
    requires ds != [] && Below(128, ds)
    ensures |r| == |ds|
  {
    if |ds| == 1 then ds else [128 + ds[0]] + Continued(ds[1..])
  }

  /** The first identifier octet: class, form and the low tag number, or 31 for the long form. */
  function LeadByte(cls: nat, compound: bool, low: nat): (b: byte)
    requires cls < 4 && low < 32
    ensures b / 64 == cls && (b / 32 % 2 == 1 <==> compound) && b % 32 == low
  {
    cls * 64 + (if compound then 32 else 0) + low
  }

  function TagBytes(e: Element): seq<byte>
    requires e.cls < 4
  {
    if e.tag < 31 then [LeadByte(e.cls, e.compound, e.tag)]
    else [LeadByte(e.cls, e.compound, 31)] + Continued(Digits(128, e.tag))
  }

  function LengthBytes(n: nat): seq<byte>
    requires n < MAX
  {
    if n < 128 then [n] else FewDigits(n); [128 + |Digits(256, n)|] + Digits(256, n)
  }

  function Encode(e: Element): (r: seq<byte>)
    requires Valid(e)
    ensures |r| > |e.content|
  {
    TagBytes(e) + LengthBytes(|e.content|) + e.content
  }

  // ----- Digits

  lemma FewDigits(n: nat)
    requires n < MAX
    ensures |Digits(256, n)| <= 4 && |Digits(128, n)| <= 5
  {
    assert n / 256 < 0x80_0000 && n / 256 / 256 < 0x8000 && n / 256 / 256 / 256 < 0x80;
    assert Digits(256, n / 256 / 256 / 256 / 256) == [];
    assert |Digits(256, n / 256 / 256 / 256)| <= 1;
    assert |Digits(256, n / 256 / 256)| <= 2;
    assert |Digits(256, n / 256)| <= 3;
    assert Digits(128, n / 128 / 128 / 128 / 128 / 128) == [];
    assert |Digits(128, n / 128 / 128 / 128 / 128)| <= 1;
    assert |Digits(128, n / 128 / 128 / 128)| <= 2;
    assert |Digits(128, n / 128 / 128)| <= 3;
    assert |Digits(128, n / 128)| <= 4;
  }

  lemma {:induction false} FoldAppend(base: nat, acc: nat, ds: seq<byte>, d: byte)
    requires Base(base)
    ensures Fold(base, acc, ds + [d]) == Join(base, Fold(base, acc, ds), d)
    decreases |ds|
  {
    if ds == [] {
      assert [] + [d] == [d] && [d][1..] == [];
    } else {
      assert (ds + [d])[1..] == ds[1..] + [d];
      FoldAppend(base, Join(base, acc, ds[0]), ds[1..], d);
    }
  }

  lemma {:induction false} FoldDigits(base: nat, n: nat)
    requires Base(base)
    ensures Fold(base, 0, Digits(base, n)) == n
  {
    if n == 0 {
    } else {
      FoldDigits(base, High(base, n));
      FoldAppend(base, 0, Digits(base, High(base, n)), Low(base, n));
    }
  }

  /** Digits without a leading zero are the digits of their value. */
  lemma {:induction false} DigitsFold(base: nat, ds: seq<byte>)
    requires Base(base) && Below(base, ds) && (ds != [] ==> ds[0] != 0)
    ensures Digits(base, Fold(base, 0, ds)) == ds
    ensures ds != [] ==> Fold(base, 0, ds) > 0
    decreases |ds|
  {
    if ds == [] {
    } else {
      var m := |ds| - 1;
      var init, d := ds[..m], ds[m];
      assert ds == init + [d];
      DigitsFold(base, init);
      FoldAppend(base, 0, init, d);
      SplitDigit(base, Fold(base, 0, init), d);
    }
  }

  lemma SplitDigit(base: nat, high: nat, d: nat)
    requires Base(base) && d < base
    ensures High(base, Join(base, high, d)) == high && Low(base, Join(base, high, d)) == d
  {
  }

  /** One more digit multiplies by the base. */
  lemma {:induction false} FoldGrows(base: nat, acc: nat, ds: seq<byte>)
    requires Base(base)
    ensures ds != [] ==> Fold(base, acc, ds) >= Join(base, acc, ds[0])
    ensures Fold(base, acc, ds) >= acc
    decreases |ds|
  {
    if ds == [] {
    } else {
      FoldGrows(base, Join(base, acc, ds[0]), ds[1..]);
    }
  }

  // ----- Reading inverts writing

  lemma {:induction false} ReadLongWritten(ds: seq<byte>, acc: nat, rest: seq<byte>)
    requires 0x80 <= Fold(256, acc, ds) < MAX && (acc == 0 && ds != [] ==> ds[0] != 0)
    ensures ReadLong(ds + rest, |ds|, acc) == Parsed(Fold(256, acc, ds), rest)
    decreases |ds|
  {
    if ds == [] {
      assert ds + rest == rest;
    } else {
      FoldGrows(256, acc, ds);
      assert (ds + rest)[1..] == ds[1..] + rest;
      ReadLongWritten(ds[1..], acc * 256 + ds[0], rest);
    }
  }

  lemma ReadLengthWritten(n: nat, rest: seq<byte>)
    requires n < MAX
    ensures ReadLength(LengthBytes(n) + rest) == Parsed(n, rest)
  {
    if n < 128 {
      assert ([n] + rest)[1..] == rest;
    } else {
      FewDigits(n);
      LongLengthWritten(Digits(256, n), n, rest);
      assert LengthBytes(n) + rest == [128 + |Digits(256, n)|] + (Digits(256, n) + rest);
    }
  }

  lemma LongLengthWritten(ds: seq<byte>, n: nat, rest: seq<byte>)
    requires 128 <= n < MAX && ds == Digits(256, n) && |ds| <= 4
    ensures ReadLength([128 + |ds|] + (ds + rest)) == Parsed(n, rest)
  {
    var b: seq<byte> := [128 + |ds|] + (ds + rest);
    assert b[0] == 128 + |ds| && b[1..] == ds + rest;
    FoldDigits(256, n);
    ReadLongWritten(ds, 0, rest);
  }

  lemma {:induction false} ReadBase128Written(ds: seq<byte>, shifted: nat, acc: nat, rest: seq<byte>)
    requires ds != [] && Below(128, ds) && shifted + |ds| <= 5
    requires Fold(128, acc, ds) < MAX && (shifted == 0 ==> ds[0] != 0)
    ensures ReadBase128(Continued(ds) + rest, shifted, acc) == Parsed(Fold(128, acc, ds), rest)
    decreases |ds|
  {
    var b := Continued(ds) + rest;
    if |ds| == 1 {
      assert b[1..] == rest;
      assert Fold(128, acc, ds) == acc * 128 + ds[0] by {
        assert ds[1..] == [];
      }
    } else {
      assert b[1..] == Continued(ds[1..]) + rest;
      assert b[0] == 128 + ds[0];
      ReadBase128Written(ds[1..], shifted + 1, acc * 128 + ds[0], rest);
    }
  }

  lemma ReadTagWritten(e: Element, rest: seq<byte>)
    requires Valid(e)
    ensures var b := TagBytes(e) + rest;
      ReadTag(b) == Parsed(e.tag, rest) && b[0] / 64 == e.cls && (b[0] / 32 % 2 == 1 <==> e.compound)
  {
    if e.tag < 31 {
      ReadLead(LeadByte(e.cls, e.compound, e.tag), rest);
    } else {
      var more := Continued(Digits(128, e.tag));
      ReadLead(LeadByte(e.cls, e.compound, 31), more + rest);
      assert TagBytes(e) + rest == [LeadByte(e.cls, e.compound, 31)] + (more + rest);
      LongTagWritten(e.tag, rest);
    }
  }

  /** What the first octet says about the tag. */
  lemma ReadLead(lead: byte, rest: seq<byte>)
    ensures ([lead] + rest)[0] == lead
    ensures lead % 32 != 31 ==> ReadTag([lead] + rest) == Parsed(lead % 32, rest)
    ensures lead % 32 == 31 ==> ReadTag([lead] + rest) == LongTag(rest)
  {
    assert ([lead] + rest)[1..] == rest;
  }

  lemma LongTagWritten(tag: nat, rest: seq<byte>)
    requires 31 <= tag < MAX
    ensures ReadBase128(Continued(Digits(128, tag)) + rest, 0, 0) == Parsed(tag, rest)
  {
    FewDigits(tag);
    FoldDigits(128, tag);
    ReadBase128Written(Digits(128, tag), 0, 0, rest);
  }

  /** An encoded element is read back, and exactly its own bytes are consumed. */
  lemma ReadEncoded(e: Element, rest: seq<byte>)
    requires Valid(e)
    ensures Read(Encode(e) + rest) == Parsed(e, rest)
  {
    var body := e.content + rest;
    var tail := LengthBytes(|e.content|) + body;
    assert Encode(e) + rest == TagBytes(e) + tail;
    ReadTagWritten(e, tail);
    ReadLengthWritten(|e.content|, body);
    assert body[..|e.content|] == e.content && body[|e.content|..] == rest;
  }

  // ----- Writing inverts reading: there is only one encoding.

  lemma {:induction false} ReadLongBytes(b: seq<byte>, n: nat, acc: nat)
    requires ReadLong(b, n, acc).Parsed? && (n > 0 ==> acc < 0x80_0000) && acc < MAX
    ensures var p := ReadLong(b, n, acc);
      && n <= |b| && p.rest == b[n..]
      && p.value == Fold(256, acc, b[..n]) && 0x80 <= p.value < MAX
      && (acc == 0 && n > 0 ==> b[0] != 0)
    decreases n
  {
    if n == 0 {
    } else {
      var next := Join(256, acc, b[0]);
      ReadLongBytes(b[1..], n - 1, next);
      assert b[..n][0] == b[0] && b[..n][1..] == b[1..][..n - 1];
      assert Fold(256, acc, b[..n]) == Fold(256, next, b[1..][..n - 1]);
      assert b[1..][n - 1..] == b[n..];
    }
  }

  lemma ReadLengthBytes(b: seq<byte>)
    requires ReadLength(b).Parsed?
    ensures ReadLength(b).value < MAX && b == LengthBytes(ReadLength(b).value) + ReadLength(b).rest
  {
    var p := ReadLength(b);
    if b[0] >= 128 {
      var n := b[0] - 128;
      ReadLongBytes(b[1..], n, 0);
      var ds := b[1..][..n];
      DigitsFold(256, ds);
      assert LengthBytes(p.value) == [128 + |ds|] + ds;
      assert b == [b[0]] + ds + b[1..][n..];
    }
  }

  lemma {:induction false} ReadBase128Bytes(b: seq<byte>, shifted: nat, acc: nat) returns (ds: seq<byte>)
    requires ReadBase128(b, shifted, acc).Parsed? && shifted <= 5
    ensures var p := ReadBase128(b, shifted, acc);
      && ds != [] && Below(128, ds) && b == Continued(ds) + p.rest
      && p.value == Fold(128, acc, ds) && p.value < MAX
      && (shifted == 0 && |ds| > 1 ==> ds[0] != 0)
    decreases |b|
  {
    var d := b[0] % 128;
    if b[0] >= 128 {
      var more := ReadBase128Bytes(b[1..], shifted + 1, acc * 128 + d);
      ds := [d] + more;
      assert ds[1..] == more;
      assert b == [b[0]] + b[1..];
    } else {
      ds := [d];
      assert ds[1..] == [];
      assert b == [b[0]] + b[1..];
    }
  }

  lemma ReadTagBytes(b: seq<byte>)
    requires b != [] && ReadTag(b).Parsed?
    ensures var p := ReadTag(b);
      var e := Element(b[0] / 64, b[0] / 32 % 2 == 1, p.value, []);
      e.cls < 4 && e.tag < MAX && b == TagBytes(e) + p.rest
  {
    var p := ReadTag(b);
    var cls, compound := b[0] / 64, b[0] / 32 % 2 == 1;
    assert b == [b[0]] + b[1..];
    LeadOf(b[0]);
    if b[0] % 32 == 31 {
      LongTagBytes(b[1..]);
      assert b == [b[0]] + Continued(Digits(128, p.value)) + p.rest;
    }
  }

  /** An octet is the lead byte of its own parts. */
  lemma LeadOf(b: byte)
    ensures b / 64 < 4 && LeadByte(b / 64, b / 32 % 2 == 1, b % 32) == b
  {
  }

  lemma LongTagBytes(b: seq<byte>)
    requires LongTag(b).Parsed?
    ensures 31 <= LongTag(b).value < MAX && b == Continued(Digits(128, LongTag(b).value)) + LongTag(b).rest
  {
    var ds := ReadBase128Bytes(b, 0, 0);
    if |ds| == 1 {
      assert ds[1..] == [];
    }
    DigitsFold(128, ds);
  }

  /** Whatever is read is the encoding of what was read, followed by the rest. */
  lemma EncodeRead(b: seq<byte>)
    requires Read(b).Parsed?
    ensures Valid(Read(b).value) && b == Encode(Read(b).value) + Read(b).rest
  {
    ReadTagBytes(b);
    var afterTag := ReadTag(b).rest;
    ReadLengthBytes(afterTag);
    var e := Read(b).value;
    assert TagBytes(e) == TagBytes(e.(content := []));
    Assemble(b, TagBytes(e), LengthBytes(|e.content|), ReadLength(afterTag).rest, |e.content|);
  }

  lemma Assemble(b: seq<byte>, tag: seq<byte>, length: seq<byte>, body: seq<byte>, n: nat)
    requires b == tag + (length + body) && n <= |body|
    ensures b == tag + length + body[..n] + body[n..]
  {
    assert body == body[..n] + body[n..];
  }

  // ----- The long forms, byte by byte

  /** Lengths are written with the most significant octet first, in as few octets as possible. */
  lemma LongLengths(n: nat)
    requires n < MAX
    ensures n < 128 ==> LengthBytes(n) == [n]
    ensures 128 <= n < 256 ==> LengthBytes(n) == [0x81, n]
    ensures 256 <= n < 65536 ==> LengthBytes(n) == [0x82, n / 256, n % 256]
  {
    if 128 <= n < 256 {
      assert Digits(256, n / 256) == [];
      assert Digits(256, n) == [] + [n];
    } else if 256 <= n < 65536 {
      assert Digits(256, n / 256 / 256) == [];
      assert Digits(256, n / 256) == [] + [n / 256];
      assert Digits(256, n) == [n / 256] + [n % 256];
    }
  }

  /** So are tag numbers from 31, in groups of seven bits with the continuation bit on all but the last. */
  lemma LongTags(e: Element)
    requires Valid(e)
    ensures e.tag < 31 ==> TagBytes(e) == [e.cls * 64 + (if e.compound then 32 else 0) + e.tag]
    ensures 31 <= e.tag < 128 ==> TagBytes(e) == [e.cls * 64 + (if e.compound then 32 else 0) + 31, e.tag]
    ensures 128 <= e.tag < 16384 ==>
      TagBytes(e) == [e.cls * 64 + (if e.compound then 32 else 0) + 31, 128 + e.tag / 128, e.tag % 128]
  {
    var n := e.tag;
    if 31 <= n < 128 {
      assert Digits(128, n / 128) == [];
      assert Digits(128, n) == [] + [n];
    } else if 128 <= n < 16384 {
      assert Digits(128, n / 128 / 128) == [];
      assert Digits(128, n / 128) == [] + [n / 128];
      assert Digits(128, n) == [n / 128] + [n % 128];
      var ds := Digits(128, n);
      assert ds[1..] == [n % 128] && ds[0] == n / 128;
      assert Continued(ds) == [128 + n / 128] + [n % 128];
    }
  }

  // ----- Lists of elements

  /** All of `b` as a list of elements. */
  function ReadAll(b: seq<byte>): Option<seq<Element>>
    decreases |b|
  {
    if b == [] then Some([])
    else
      match Read(b)
      case Malformed => None
      case Parsed(e, rest) =>
        EncodeRead(b);
        match ReadAll(rest)
        case None => None
        case Some(es) => Some([e] + es)
  }

  predicate AllValid(es: seq<Element>) {
    forall i :: 0 <= i < |es| ==> Valid(es[i])
  }

  function EncodeAll(es: seq<Element>): seq<byte>
    requires AllValid(es)
  {
    if es == [] then [] else Encode(es[0]) + EncodeAll(es[1..])
  }

  /** A byte string is read as `es` if and only if it is the encoding of `es`. */
  lemma ReadAllIffEncoded(b: seq<byte>, es: seq<Element>)
    ensures ReadAll(b) == Some(es) <==> AllValid(es) && b == EncodeAll(es)
  {
    if ReadAll(b) == Some(es) {
      EncodeAllRead(b);
    }
    if AllValid(es) && b == EncodeAll(es) {
      ReadAllEncoded(es);
    }
  }

  lemma {:induction false} EncodeAllRead(b: seq<byte>)
    requires ReadAll(b).Some?
    ensures AllValid(ReadAll(b).value) && b == EncodeAll(ReadAll(b).value)
    decreases |b|
  {
    if b == [] {
    } else {
      EncodeRead(b);
      var rest := Read(b).rest;
      EncodeAllRead(rest);
      assert ([Read(b).value] + ReadAll(rest).value)[1..] == ReadAll(rest).value;
    }
  }

  lemma {:induction false} ReadAllEncoded(es: seq<Element>)
    requires AllValid(es)
    ensures ReadAll(EncodeAll(es)) == Some(es)
    decreases |es|
  {
    if es == [] {
    } else {
      ReadFirst(es);
      ReadAllEncoded(es[1..]);
      Prepend(EncodeAll(es), EncodeAll(es[1..]), es);
    }
  }

  lemma ReadFirst(es: seq<Element>)
    requires AllValid(es) && es != []
    ensures EncodeAll(es) != [] && Read(EncodeAll(es)) == Parsed(es[0], EncodeAll(es[1..]))
  {
    ReadEncoded(es[0], EncodeAll(es[1..]));
  }

  lemma Prepend(b: seq<byte>, rest: seq<byte>, es: seq<Element>)
    requires es != [] && b != [] && Read(b) == Parsed(es[0], rest) && ReadAll(rest) == Some(es[1..])
    ensures ReadAll(b) == Some(es)
  {
    assert es == [es[0]] + es[1..];
  }
}
