/**
 Byte strings as the program keeps them in std::string: hexadecimal text and the 12-byte nonce
 of the channel (SecureChannel.cpp, ToHex, FromHex and Nonce).
 */
module Bytes {

  datatype Option<+T> = None | Some(value: T)

  lemma Associative<T>(a: seq<T>, b: seq<T>, c: seq<T>)
    ensures a + (b + c) == (a + b) + c
  {
  }

  /** Every character is one byte. */
  ghost predicate IsBytes(s: string) {
    forall i :: 0 <= i < |s| ==> s[i] as int < 256
  }

  lemma BytesOfAppend(a: string, b: string)
    ensures IsBytes(a + b) <==> IsBytes(a) && IsBytes(b)
  {
    assert forall i :: 0 <= i < |a| ==> a[i] == (a + b)[i];
    assert forall i :: 0 <= i < |b| ==> b[i] == (a + b)[|a| + i];
  }

  // ------------------------------------------------------------ hexadecimal

  function HexDigit(d: nat): char
    requires d < 16
  {
    "0123456789abcdef"[d]
  }

  /** Lower and upper case digits; -1 for anything else. */
  function HexValue(c: char): int {
    if '0' <= c <= '9' then c as int - '0' as int
    else if 'a' <= c <= 'f' then c as int - 'a' as int + 10
    else if 'A' <= c <= 'F' then c as int - 'A' as int + 10
    else -1
  }

  ghost function ToHex(bytes: string): (hex: string)
    requires IsBytes(bytes)
    ensures |hex| == 2 * |bytes|
  {
    if bytes == "" then ""
    else
      var c := bytes[0] as int;
      [HexDigit(c / 16), HexDigit(c % 16)] + ToHex(bytes[1..])
  }

  function DecodePair(high: char, low: char): Option<char> {
    var hi, lo := HexValue(high), HexValue(low);
    if hi < 0 || lo < 0 then None else Some((hi * 16 + lo) as char)
  }

  ghost function Decode(hex: string): Option<string>
    requires |hex| % 2 == 0
    decreases |hex|
  {
    if hex == "" then Some("")
    else
      var pair, rest := DecodePair(hex[0], hex[1]), Decode(hex[2..]);
      if pair.Some? && rest.Some? then Some([pair.value] + rest.value) else None
  }

  /** Text that is not hexadecimal decodes to the empty string. */
  ghost function FromHex(hex: string): string {
    if |hex| % 2 != 0 then ""
    else match Decode(hex) case Some(s) => s case None => ""
  }

  lemma DigitValue(d: nat)
    requires d < 16
    ensures HexValue(HexDigit(d)) == d
  {
    if d < 10 {
      assert "0123456789abcdef"[d] as int == '0' as int + d;
    } else {
      assert "0123456789abcdef"[d] as int == 'a' as int + (d - 10);
    }
  }

  lemma PairValue(c: char)
    requires c as int < 256
    ensures DecodePair(HexDigit(c as int / 16), HexDigit(c as int % 16)) == Some(c)
  {
    hide HexValue, HexDigit;
    DigitValue(c as int / 16);
    DigitValue(c as int % 16);
  }

  lemma {:induction false} DecodeOfToHex(bytes: string)
    requires IsBytes(bytes)
    ensures Decode(ToHex(bytes)) == Some(bytes)
  {
    hide DecodePair, HexDigit;
    if bytes != "" {
      var hex, rest := ToHex(bytes), bytes[1..];
      DecodeOfToHex(rest);
      PairValue(bytes[0]);
      assert hex[2..] == ToHex(rest);
      assert [bytes[0]] + rest == bytes;
    }
  }

  lemma HexRoundTrip(bytes: string)
    requires IsBytes(bytes)
    ensures FromHex(ToHex(bytes)) == bytes
  {
    var hex := ToHex(bytes);
    DecodeOfToHex(bytes);
    assert Decode(hex) == Some(bytes);
  }

  /** The digits, either case, in the order of their values. */
  ghost predicate IsDigit(c: char, value: nat) {
    value < 16 && (c == "0123456789abcdef"[value] || c == "0123456789ABCDEF"[value])
  }

  lemma ValueExactly(c: char, value: nat)
    ensures HexValue(c) == value <==> IsDigit(c, value)
  {
    if value < 10 {
      assert "0123456789abcdef"[value] == "0123456789ABCDEF"[value];
      assert "0123456789abcdef"[value] as int == '0' as int + value;
    } else if value < 16 {
      assert "0123456789abcdef"[value] as int == 'a' as int + (value - 10);
      assert "0123456789ABCDEF"[value] as int == 'A' as int + (value - 10);
    }
  }

  /** The text spells these bytes, two digits of either case for each. */
  ghost predicate Spells(hex: string, bytes: string) {
    |hex| == 2 * |bytes| && IsBytes(bytes) &&
    forall i :: 0 <= i < |bytes| ==>
      IsDigit(hex[2 * i], bytes[i] as nat / 16) && IsDigit(hex[2 * i + 1], bytes[i] as nat % 16)
  }

  lemma SpellsMore(hex: string, bytes: string)
    requires |hex| >= 2 && bytes != ""
    ensures Spells(hex, bytes) <==>
      bytes[0] as int < 256 && IsDigit(hex[0], bytes[0] as nat / 16) && IsDigit(hex[1], bytes[0] as nat % 16) &&
      Spells(hex[2..], bytes[1..])
  {
    hide IsDigit;
    var h, b := hex[2..], bytes[1..];
    assert |b| == |bytes| - 1;
    assert |hex| == 2 * |bytes| ==>
      forall i :: 0 <= i < |b| ==>
        b[i] == bytes[i + 1] && h[2 * i] == hex[2 * (i + 1)] && h[2 * i + 1] == hex[2 * (i + 1) + 1];
  }

  lemma {:induction false} DecodeExactly(hex: string, bytes: string)
    requires |hex| % 2 == 0
    ensures Decode(hex) == Some(bytes) <==> Spells(hex, bytes)
    decreases |hex|
  {
    if hex != "" && bytes != "" {
      var c, rest := bytes[0] as nat, bytes[1..];
      DecodeExactly(hex[2..], rest);
      assert bytes == [bytes[0]] + rest;
      ValueExactly(hex[0], c / 16);
      ValueExactly(hex[1], c % 16);
      SpellsMore(hex, bytes);
    }
  }

  /** What a text decodes to: the bytes it spells, or nothing if it spells none. */
  lemma FromHexExactly(hex: string, bytes: string)
    ensures FromHex(hex) == bytes <==> Spells(hex, bytes) || (bytes == "" && forall b :: !Spells(hex, b))
  {
    hide Decode, IsDigit;
    if |hex| % 2 == 0 {
      forall b ensures Decode(hex) == Some(b) <==> Spells(hex, b) { DecodeExactly(hex, b); }
      DecodeExactly(hex, bytes);
    }
  }

  /** Whatever text arrives, what is decoded from it is bytes. */
  lemma {:induction false} DecodeIsBytes(hex: string)
    requires |hex| % 2 == 0
    ensures Decode(hex).Some? ==> IsBytes(Decode(hex).value) && 2 * |Decode(hex).value| == |hex|
    decreases |hex|
  {
    if hex != "" { DecodeIsBytes(hex[2..]); }
  }

  lemma {:induction false} ToHexAppend(a: string, b: string)
    requires IsBytes(a) && IsBytes(b)
    ensures IsBytes(a + b) && ToHex(a + b) == ToHex(a) + ToHex(b)
  {
    BytesOfAppend(a, b);
    if a == "" {
      assert a + b == b;
    } else {
      ToHexAppend(a[1..], b);
      assert (a + b)[1..] == a[1..] + b;
    }
  }

  method EncodeHex(bytes: string) returns (out: string)
    requires IsBytes(bytes)
    ensures out == ToHex(bytes)
  {
    out := "";
    for i := 0 to |bytes|
      invariant out == ToHex(bytes[..i])
    {
      var c := bytes[i] as int;
      assert bytes[..i + 1] == bytes[..i] + [bytes[i]];
      ToHexAppend(bytes[..i], [bytes[i]]);
      assert ToHex([bytes[i]]) == [HexDigit(c / 16), HexDigit(c % 16)] + ToHex("");
      out := out + [HexDigit(c / 16)];
      out := out + [HexDigit(c % 16)];
    }
    assert bytes[..|bytes|] == bytes;
  }

  lemma {:induction false} DecodeAppend(a: string, b: string)
    requires |a| % 2 == 0 && |b| % 2 == 0
    ensures Decode(a + b) ==
      if Decode(a).Some? && Decode(b).Some? then Some(Decode(a).value + Decode(b).value) else None
    decreases |a|
  {
    if a == "" {
      assert a + b == b;
      assert Decode(b).Some? ==> "" + Decode(b).value == Decode(b).value;
    } else {
      DecodeAppend(a[2..], b);
      assert (a + b)[2..] == a[2..] + b;
      var pair := DecodePair(a[0], a[1]);
      if pair.Some? && Decode(a[2..]).Some? && Decode(b).Some? {
        assert [pair.value] + (Decode(a[2..]).value + Decode(b).value)
            == [pair.value] + Decode(a[2..]).value + Decode(b).value;
      }
    }
  }

  lemma DecodeOneMore(hex: string, i: nat)
    requires |hex| % 2 == 0 && i % 2 == 0 && i + 2 <= |hex| && Decode(hex[..i]).Some?
    ensures var pair := DecodePair(hex[i], hex[i + 1]);
      if pair.Some? then Decode(hex[..i + 2]) == Some(Decode(hex[..i]).value + [pair.value]) else Decode(hex) == None
  {
    var pair := hex[i..i + 2];
    DecodeOne(hex[i], hex[i + 1]);
    hide Decode, DecodePair;
    assert pair == [hex[i], hex[i + 1]] && hex[..i + 2] == hex[..i] + pair;
    DecodeAppend(hex[..i], pair);
    DecodeAppend(hex[..i + 2], hex[i + 2..]);
    assert hex == hex[..i + 2] + hex[i + 2..];
  }

  lemma DecodeOne(high: char, low: char)
    ensures var pair := DecodePair(high, low);
      Decode([high, low]) == if pair.Some? then Some([pair.value]) else None
  {
    hide DecodePair;
    var pair, text := DecodePair(high, low), [high, low];
    assert text[0] == high && text[1] == low && text[2..] == "";
    assert Decode(text[2..]) == Some("");
    if pair.Some? { assert [pair.value] + "" == [pair.value]; }
  }

  method DecodeHex(hex: string) returns (out: string)
    ensures out == FromHex(hex)
  {
    if |hex| % 2 != 0 { return ""; }
    out := "";
    var i := 0;
    while i < |hex|
      invariant 0 <= i <= |hex| && i % 2 == 0
      invariant Decode(hex[..i]) == Some(out)
    {
      var hi, lo := HexValue(hex[i]), HexValue(hex[i + 1]);
      DecodeOneMore(hex, i);
      if hi < 0 || lo < 0 { return ""; }
      out := out + [(hi * 16 + lo) as char];
      i := i + 2;
    }
    assert hex[..|hex|] == hex;
  }

  // ------------------------------------------------------------------ nonce

  const U64: nat := 0x1_0000_0000_0000_0000

  ghost function Pow256(k: nat): (p: nat)
    ensures p > 0
  {
    if k == 0 then 1 else 256 * Pow256(k - 1)
  }

  /** The low k bytes of n, most significant first. */
  ghost function BigEndian(n: nat, k: nat): (s: string)
    ensures |s| == k && IsBytes(s)
  {
    if k == 0 then "" else BigEndian(n / 256, k - 1) + [(n % 256) as char]
  }

  ghost function BigEndianValue(s: string): nat {
    if s == "" then 0 else 256 * BigEndianValue(s[..|s| - 1]) + s[|s| - 1] as int
  }

  lemma {:induction false} BigEndianRoundTrip(n: nat, k: nat)
    requires n < Pow256(k)
    ensures BigEndianValue(BigEndian(n, k)) == n
  {
    if k > 0 {
      BigEndianRoundTrip(n / 256, k - 1);
      assert BigEndian(n, k)[..k - 1] == BigEndian(n / 256, k - 1);
    }
  }

  /** Fixed field (direction) followed by the invocation counter, as in NIST SP 800-38D 8.2.1. */
  ghost function Nonce(counter: nat, clientToServer: bool): (n: string)
    requires counter < U64
    ensures |n| == 12
  {
    [if clientToServer then 'C' else 'S', '\0', '\0', '\0'] + BigEndian(counter, 8)
  }

  lemma Pow256Values()
    ensures Pow256(0) == 1 && Pow256(1) == 0x100 && Pow256(2) == 0x1_0000 && Pow256(3) == 0x100_0000
    ensures Pow256(4) == 0x1_0000_0000 && Pow256(5) == 0x100_0000_0000 && Pow256(6) == 0x1_0000_0000_0000
    ensures Pow256(7) == 0x100_0000_0000_0000 && Pow256(8) == U64
  {
    assert Pow256(2) == 256 * Pow256(1);
    assert Pow256(4) == 256 * Pow256(3);
    assert Pow256(6) == 256 * Pow256(5);
    assert Pow256(8) == 256 * Pow256(7);
  }

  lemma NonceInjective(a: nat, b: nat, d: bool, e: bool)
    requires a < U64 && b < U64 && Nonce(a, d) == Nonce(b, e)
    ensures a == b && d == e
  {
    Pow256Values();
    assert Nonce(a, d)[0] == Nonce(b, e)[0];
    assert Nonce(a, d)[4..] == BigEndian(a, 8) && Nonce(b, e)[4..] == BigEndian(b, 8);
    BigEndianRoundTrip(a, 8);
    BigEndianRoundTrip(b, 8);
  }

  lemma DropByte(n: nat, k: nat)
    requires k < 8
    ensures n / Pow256(k) / 256 == n / Pow256(k + 1)
  {
    Pow256Values();
    if k == 0 {} else if k == 1 {} else if k == 2 {} else if k == 3 {}
    else if k == 4 {} else if k == 5 {} else if k == 6 {} else {}
  }

  /** The byte-by-byte construction: byte i is the counter shifted right by 56 - 8i bits. */
  method BuildNonce(counter: nat, clientToServer: bool) returns (n: string)
    requires counter < U64
    ensures n == Nonce(counter, clientToServer)
  {
    n := [if clientToServer then 'C' else 'S', '\0', '\0', '\0'];
    ghost var prefix := n;
    var shift := 0x100_0000_0000_0000;
    Pow256Values();
    assert counter / Pow256(8) == 0;
    for i := 0 to 8
      invariant shift == if i < 8 then Pow256(7 - i) else 0
      invariant n == prefix + BigEndian(counter / Pow256(8 - i), i)
    {
      ghost var high := counter / Pow256(7 - i);
      DropByte(counter, 7 - i);
      assert high / 256 == counter / Pow256(8 - i);
      assert BigEndian(high, i + 1) == BigEndian(high / 256, i) + [(high % 256) as char];
      n := n + [(counter / shift % 256) as char];
      assert n == prefix + BigEndian(high, i + 1);
      shift := shift / 256;
    }
    assert counter / Pow256(0) == counter;
  }
}
