/** UTF-8, RFC 3629 section 3. A text is a sequence of Unicode scalar values. */
module Utf8 {
  import opened Common

  type Byte = b: int | 0 <= b < 256

  function EncodeChar(c: char): (bytes: seq<Byte>)
    ensures 1 <= |bytes| <= 4
  {
    var n := c as int;
    if n < 0x80 then [n]
    else if n < 0x800 then [0xC0 + n / 64, 0x80 + n % 64]
    else if n < 0x10000 then [0xE0 + n / 4096, 0x80 + n / 64 % 64, 0x80 + n % 64]
    else [0xF0 + n / 262144, 0x80 + n / 4096 % 64, 0x80 + n / 64 % 64, 0x80 + n % 64]
  }

  function Encode(text: string): seq<Byte> {
    if |text| == 0 then [] else EncodeChar(text[0]) + Encode(text[1..])
  }

  predicate IsScalar(n: int) {
    0 <= n < 0xD800 || 0xE000 <= n < 0x110000
  }

  /** How many bytes a first byte announces. */
  function Announced(first: Byte): nat {
    if first < 0x80 then 1 else if first < 0xE0 then 2 else if first < 0xF0 then 3 else 4
  }

  /** The bits of a byte above its marker. */
  function At(bytes: seq<Byte>, i: nat, marker: int): int
    requires i < |bytes|
  {
    bytes[i] as int - marker
  }

  function DecodeFirst(bytes: seq<Byte>): int
    requires |bytes| > 0 && |bytes| >= Announced(bytes[0])
  {
    var n := Announced(bytes[0]);
    if n == 1 then bytes[0]
    else if n == 2 then At(bytes, 0, 0xC0) * 64 + At(bytes, 1, 0x80)
    else if n == 3 then At(bytes, 0, 0xE0) * 4096 + At(bytes, 1, 0x80) * 64 + At(bytes, 2, 0x80)
    else At(bytes, 0, 0xF0) * 262144 + At(bytes, 1, 0x80) * 4096 + At(bytes, 2, 0x80) * 64 + At(bytes, 3, 0x80)
  }

  /** The text of well-formed bytes. */
  function Decode(bytes: seq<Byte>): Option<string>
    decreases |bytes|
  {
    if |bytes| == 0 then Some("")
    else if |bytes| < Announced(bytes[0]) then None
    else
      var n := DecodeFirst(bytes);
      var rest := Decode(bytes[Announced(bytes[0])..]);
      if IsScalar(n) && rest.Some? then Some([n as char] + rest.value) else None
  }

  lemma DecodeChar(c: char, more: seq<Byte>)
    ensures var bytes := EncodeChar(c) + more;
            && Announced(bytes[0]) == |EncodeChar(c)|
            && DecodeFirst(bytes) == c as int
            && bytes[Announced(bytes[0])..] == more
  {
    var n := c as int;
    var bytes := EncodeChar(c) + more;
    assert n == n / 64 * 64 + n % 64;
    assert n / 64 == n / 4096 * 64 + n / 64 % 64;
    assert n / 4096 == n / 262144 * 64 + n / 4096 % 64;
    assert bytes[|EncodeChar(c)|..] == more;
  }

  predicate IsContinuation(b: Byte) {
    0x80 <= b <= 0xBF
  }

  /** The table of section 3 of RFC 3629: ranges, first bytes and the bits each byte carries. */
  predicate IsEncodingOf(bytes: seq<Byte>, n: int) {
    var at := (i: int, marker: int) => if 0 <= i < |bytes| then bytes[i] as int - marker else 0;
    && (forall i | 0 < i < |bytes| :: IsContinuation(bytes[i]))
    && match |bytes|
       case 1 => 0 <= n <= 0x7F && at(0, 0) == n
       case 2 => 0x80 <= n <= 0x7FF && n == at(0, 0xC0) * 64 + at(1, 0x80)
       case 3 => 0x800 <= n <= 0xFFFF && n == at(0, 0xE0) * 4096 + at(1, 0x80) * 64 + at(2, 0x80)
       case 4 => 0x10000 <= n <= 0x10FFFF
                 && n == at(0, 0xF0) * 262144 + at(1, 0x80) * 4096 + at(2, 0x80) * 64 + at(3, 0x80)
       case _ => false
  }

  lemma EncodesByTable(c: char)
    ensures IsEncodingOf(EncodeChar(c), c as int)
  {
    var n := c as int;
    assert n == n / 64 * 64 + n % 64;
    assert n / 64 == n / 4096 * 64 + n / 64 % 64;
    assert n / 4096 == n / 262144 * 64 + n / 4096 % 64;
  }

  lemma {:induction false} DecodeInvertsEncode(text: string)
    ensures Decode(Encode(text)) == Some(text)
    decreases |text|
  {
    if |text| > 0 {
      DecodeChar(text[0], Encode(text[1..]));
      DecodeInvertsEncode(text[1..]);
      assert text == [text[0]] + text[1..];
    }
  }

  lemma {:induction false} EncodeJoins(a: string, b: string)
    ensures Encode(a + b) == Encode(a) + Encode(b)
    decreases |a|
  {
    if |a| == 0 {
      assert a + b == b;
    } else {
      assert (a + b)[1..] == a[1..] + b;
      EncodeJoins(a[1..], b);
    }
  }

  /** A longer text needs no fewer bytes. */
  lemma PrefixIsShorter(a: string, b: string)
    requires a <= b
    ensures |Encode(a)| <= |Encode(b)|
  {
    assert b == a + b[|a|..];
    EncodeJoins(a, b[|a|..]);
  }
}
