/**
 Parsing of TLS curve preferences (pkg/tls/curves.go). Group identifiers are those of section 4.2.7 of
 RFC 8446. Which characters beyond ASCII Go regards as digits is the parameter `isDigit`.
 */
module Curves {
  import opened Common

  /** unicode.IsDigit, on ASCII. */
  ghost predicate IsDigitClass(isDigit: char -> bool) {
    forall c: char :: c < 128 as char ==> (isDigit(c) <==> '0' <= c <= '9')
  }

  predicate Ascii09(c: char) {
    '0' <= c <= '9'
  }

  /** unicode.IsSpace. */
  predicate IsSpace(c: char) {
    var u := c as int;
    || 0x09 <= u <= 0x0D || u == 0x20 || u == 0x85 || u == 0xA0 || u == 0x1680
    || 0x2000 <= u <= 0x200A || u == 0x2028 || u == 0x2029 || u == 0x202F || u == 0x205F || u == 0x3000
  }

  function TrimLeft(s: string): string {
    if s != [] && IsSpace(s[0]) then TrimLeft(s[1..]) else s
  }

  function TrimRight(s: string): string {
    if s != [] && IsSpace(s[|s| - 1]) then TrimRight(s[..|s| - 1]) else s
  }

  function TrimSpace(s: string): string {
    TrimRight(TrimLeft(s))
  }

  lemma {:induction false} TrimLeftMeans(s: string) returns (i: nat)
    ensures i <= |s| && TrimLeft(s) == s[i..] && (forall k :: 0 <= k < i ==> IsSpace(s[k])) && (i < |s| ==> !IsSpace(s[i]))
  {
    i := 0;
    if s != [] && IsSpace(s[0]) {
      var j := TrimLeftMeans(s[1..]);
      i := j + 1;
    }
  }

  lemma {:induction false} TrimRightMeans(s: string) returns (j: nat)
    ensures j <= |s| && TrimRight(s) == s[..j] && (forall k :: j <= k < |s| ==> IsSpace(s[k])) && (j > 0 ==> !IsSpace(s[j - 1]))
  {
    j := |s|;
    if s != [] && IsSpace(s[|s| - 1]) {
      j := TrimRightMeans(s[..|s| - 1]);
    }
  }

  /** Trimming removes exactly the white space around what is left. */
  lemma TrimMeans(s: string) returns (i: nat, j: nat)
    ensures i <= j <= |s| && TrimSpace(s) == s[i..j]
    ensures forall k :: 0 <= k < i || j <= k < |s| ==> IsSpace(s[k])
    ensures i < j ==> !IsSpace(s[i]) && !IsSpace(s[j - 1])
  {
    i := TrimLeftMeans(s);
    var n := TrimRightMeans(s[i..]);
    j := i + n;
    assert s[i..][..n] == s[i..j];
    if n > 0 {
      assert s[i..][n - 1] == s[j - 1];
    }
    forall k | j <= k < |s|
      ensures IsSpace(s[k])
    {
      assert s[i..][k - i] == s[k];
    }
  }

  function Digit(c: char): nat
    requires Ascii09(c)
  {
    c as int - '0' as int
  }

  /** The value of a string of ASCII digits. */
  function Decimal(s: string): nat
    requires forall i :: 0 <= i < |s| ==> Ascii09(s[i])
  {
    if s == [] then 0 else 10 * Decimal(s[..|s| - 1]) + Digit(s[|s| - 1])
  }

  /** A number in decimal notation without leading zeros. */
  function Printed(n: nat): (s: string)
    ensures forall i :: 0 <= i < |s| ==> Ascii09(s[i])
    ensures s != []
  {
    (if n < 10 then "" else Printed(n / 10)) + ["0123456789"[n % 10]]
  }

  /** Every number is read back from its decimal notation, whatever number of zeros stands before it. */
  lemma {:induction false} PrintedIsRead(n: nat, zeros: nat)
    ensures var s := seq(zeros, i => '0') + Printed(n); IsDecimal(s) && Decimal(s) == n
    decreases n, zeros
  {
    var s := seq(zeros, i => '0') + Printed(n);
    assert s[|s| - 1] == "0123456789"[n % 10];
    if n < 10 {
      var before := s[..|s| - 1];
      assert before == seq(zeros, i => '0');
      Zeros(zeros);
    } else {
      PrintedIsRead(n / 10, zeros);
      assert s[..|s| - 1] == seq(zeros, i => '0') + Printed(n / 10);
    }
  }

  lemma {:induction false} Zeros(n: nat)
    ensures Decimal(seq(n, i => '0')) == 0
  {
    if n == 0 {
    } else {
      Zeros(n - 1);
      assert seq(n, i => '0')[..n - 1] == seq(n - 1, i => '0');
    }
  }

  predicate IsDecimal(s: string) {
    s != [] && forall i :: 0 <= i < |s| ==> Ascii09(s[i])
  }

  /** Well-known names and the groups they stand for. */
  const ALIASES: map<string, nat> := map[
    "X25519" := 29,
    "CurveP256" := 23, "P-256" := 23, "P256" := 23,
    "CurveP384" := 24, "P-384" := 24, "P384" := 24,
    "CurveP521" := 25, "P-521" := 25, "P521" := 25]

  /** No alias could be taken for a number. */
  lemma AliasesAreNames(name: string)
    requires name in ALIASES
    ensures name != "" && name[0] < 128 as char && !Ascii09(name[0])
  {
  }

  /** The group a trimmed entry denotes: a known alias, or a 16-bit decimal with any number of leading zeros. */
  function GroupOf(name: string): Option<nat> {
    if IsDecimal(name) then (if Decimal(name) <= 65535 then Some(Decimal(name)) else None) else Lookup(ALIASES, name)
  }

  lemma {:induction false} PrefixSmaller(s: string, k: nat)
    requires k <= |s| && forall i :: 0 <= i < |s| ==> Ascii09(s[i])
    ensures Decimal(s[..k]) <= Decimal(s)
    decreases |s|
  {
    if k < |s| {
      PrefixSmaller(s[..|s| - 1], k);
      assert s[..|s| - 1][..k] == s[..k];
    } else {
      assert s[..k] == s;
    }
  }

  /** strconv.ParseUint in base 10 with 16 bits. */
  method ParseUint16(s: string) returns (r: Option<nat>)
    ensures r.Some? <==> IsDecimal(s) && Decimal(s) <= 65535
    ensures r.Some? ==> r.value == Decimal(s)
  {
    if s == "" {
      return None;
    }
    var n := 0;
    for i := 0 to |s|
      invariant forall j :: 0 <= j < i ==> Ascii09(s[j])
      invariant n == Decimal(s[..i]) <= 65535
    {
      if !Ascii09(s[i]) {
        return None;
      }
      assert s[..i + 1][..i] == s[..i];
      n := n * 10 + Digit(s[i]);
      if n > 65535 {
        if IsDecimal(s) {
          PrefixSmaller(s, i + 1);
        }
        return None;
      }
    }
    assert s[..|s|] == s;
    return Some(n);
  }

  method IsAllDecimal(isDigit: char -> bool, s: string) returns (all: bool)
    ensures all <==> s != "" && forall i :: 0 <= i < |s| ==> isDigit(s[i])
  {
    if s == "" {
      return false;
    }
    for i := 0 to |s|
      invariant forall j :: 0 <= j < i ==> isDigit(s[j])
    {
      if !isDigit(s[i]) {
        return false;
      }
    }
    return true;
  }

  method ParseCurveID(isDigit: char -> bool, name: string) returns (id: Option<nat>)
    requires IsDigitClass(isDigit)
    ensures id == GroupOf(name)
    ensures IsDecimal(name) ==> (id.Some? <==> Decimal(name) <= 65535) && (id.Some? ==> id.value == Decimal(name))
    ensures !IsDecimal(name) ==> (id.Some? <==> name in ALIASES) && (id.Some? ==> id.value == ALIASES[name])
  {
    var decimal := IsAllDecimal(isDigit, name);
    if decimal {
      id := ParseUint16(name);
      if name in ALIASES {
        AliasesAreNames(name);
      }
      return;
    }
    return Lookup(ALIASES, name);
  }

  /**
   An empty list means Go's defaults. Otherwise parsing succeeds if and only if every entry, trimmed,
   denotes a group, and the result has the groups in the order of the entries.
   */
  method ParseCurvePreferences(isDigit: char -> bool, names: seq<string>) returns (out: Option<seq<nat>>)
    requires IsDigitClass(isDigit)
    ensures out.Some? <==> forall i :: 0 <= i < |names| ==> GroupOf(TrimSpace(names[i])).Some?
    ensures out.Some? ==> |out.value| == |names| && forall i :: 0 <= i < |names| ==> GroupOf(TrimSpace(names[i])) == Some(out.value[i])
  {
    if |names| == 0 {
      return Some([]);
    }
    var ids: seq<nat> := [];
    for i := 0 to |names|
      invariant |ids| == i
      invariant forall j :: 0 <= j < i ==> GroupOf(TrimSpace(names[j])) == Some(ids[j])
    {
      var name := TrimSpace(names[i]);
      if name == "" {
        return None;
      }
      var id := ParseCurveID(isDigit, name);
      if id.None? {
        return None;
      }
      ids := ids + [id.value];
    }
    return Some(ids);
  }
}
