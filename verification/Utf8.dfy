/**
 UTF-8 (RFC 3629): how `Buffer.byteLength(value, "utf8")` counts, and how the bytes that are
 stored and hashed read back. Strings are sequences of Unicode scalar values.
 */
module Utf8 {
  import opened Wrappers

  type Byte = n: nat | n < 256

  function EncodeChar(c: char): (bytes: seq<Byte>)
    ensures 1 <= |bytes| <= 4
  {
    var n := c as int;
    if n < 0x80 then [n]
    else if n < 0x800 then [0xC0 + n / 0x40, 0x80 + n % 0x40]
    else if n < 0x10000 then [0xE0 + n / 0x1000, 0x80 + n / 0x40 % 0x40, 0x80 + n % 0x40]
    else [0xF0 + n / 0x40000, 0x80 + n / 0x1000 % 0x40, 0x80 + n / 0x40 % 0x40, 0x80 + n % 0x40]
  }

  function Encode(s: string): (bytes: seq<Byte>)
    ensures |bytes| >= |s|
  {
    if s == "" then [] else EncodeChar(s[0]) + Encode(s[1..])
  }

  /** The size of a text without encoding it. */
  function ByteLength(s: string): nat {
    if s == "" then 0 else Utf8Len(s[0]) + ByteLength(s[1..])
  }

  function Utf8Len(c: char): nat {
    if c as int < 0x80 then 1 else if c as int < 0x800 then 2 else if c as int < 0x10000 then 3 else 4
  }

  // ----- reading bytes back -----

  predicate Continues(bytes: seq<Byte>, i: nat) {
    i < |bytes| && 0x80 <= bytes[i] <= 0xBF
  }

  /** The six bits a continuation byte carries. */
  function Bits(bytes: seq<Byte>, i: nat): int
    requires Continues(bytes, i)
  {
    bytes[i] - 0x80
  }

  /** Unicode scalar values: code points that are not surrogates. */
  predicate Scalar(n: int) {
    0 <= n < 0xD800 || 0xE000 <= n < 0x110000
  }

  function Read(n: int, least: int, size: nat): Option<(char, nat)> {
    if least <= n && Scalar(n) then Some((n as char, size)) else None
  }

  /** The first character and its number of bytes; longer forms than needed are refused. */
  function DecodeFirst(bytes: seq<Byte>): (r: Option<(char, nat)>)
    ensures r.Some? ==> 0 < r.value.1 <= |bytes|
  {
    if bytes == [] then None
    else
      var b: int := bytes[0];
      if b < 0x80 then Some((b as char, 1))
      else if 0xC0 <= b < 0xE0 && Continues(bytes, 1) then
        Read((b - 0xC0) * 0x40 + Bits(bytes, 1), 0x80, 2)
      else if 0xE0 <= b < 0xF0 && Continues(bytes, 1) && Continues(bytes, 2) then
        Read((b - 0xE0) * 0x1000 + Bits(bytes, 1) * 0x40 + Bits(bytes, 2), 0x800, 3)
      else if 0xF0 <= b < 0xF8 && Continues(bytes, 1) && Continues(bytes, 2) && Continues(bytes, 3) then
        Read((b - 0xF0) * 0x40000 + Bits(bytes, 1) * 0x1000 + Bits(bytes, 2) * 0x40 + Bits(bytes, 3), 0x10000, 4)
      else None
  }

  function Decode(bytes: seq<Byte>): Option<string>
    decreases |bytes|
  {
    if bytes == [] then Some("")
    else
      var first := DecodeFirst(bytes);
      if first.None? then None
      else
        var rest := Decode(bytes[first.value.1..]);
        if rest.None? then None else Some([first.value.0] + rest.value)
  }

  // ----- the two are inverse -----

  lemma CharIsScalar(c: char)
    ensures Scalar(c as int)
  {
  }

  /** The digits of a number in base 64 give it back. */
  lemma Base64(n: nat)
    ensures n == n / 0x40 * 0x40 + n % 0x40
    ensures n / 0x1000 == n / 0x40 / 0x40 && n / 0x40000 == n / 0x1000 / 0x40
  {
  }

  lemma EncodedDigits(n: nat)
    requires n < 0x110000
    ensures n / 0x40 * 0x40 + n % 0x40 == n
    ensures n / 0x1000 * 0x1000 + n / 0x40 % 0x40 * 0x40 + n % 0x40 == n
    ensures n / 0x40000 * 0x40000 + n / 0x1000 % 0x40 * 0x1000 + n / 0x40 % 0x40 * 0x40 + n % 0x40 == n
  {
    Base64(n);
    Base64(n / 0x40);
    Base64(n / 0x1000);
  }

  lemma DecodeFirstOfEncoded(c: char, rest: seq<Byte>)
    ensures DecodeFirst(EncodeChar(c) + rest) == Some((c, |EncodeChar(c)|))
  {
    var bytes, code := EncodeChar(c) + rest, EncodeChar(c);
    assert forall i :: 0 <= i < |code| ==> bytes[i] == code[i];
    CharIsScalar(c);
    EncodedDigits(c as int);
  }

  lemma {:induction false} DecodeEncoded(s: string)
    ensures Decode(Encode(s)) == Some(s)
  {
    if s != "" {
      var rest := Encode(s[1..]);
      DecodeFirstOfEncoded(s[0], rest);
      assert Encode(s)[|EncodeChar(s[0])|..] == rest;
      DecodeEncoded(s[1..]);
      assert [s[0]] + s[1..] == s;
    }
  }

  /** No character's bytes begin another's. */
  lemma PrefixFree(c: char, d: char)
    requires EncodeChar(c) <= EncodeChar(d)
    ensures c == d
  {
    var rest := EncodeChar(d)[|EncodeChar(c)|..];
    assert EncodeChar(c) + rest == EncodeChar(d) == EncodeChar(d) + [];
    DecodeFirstOfEncoded(c, rest);
    DecodeFirstOfEncoded(d, []);
  }

  /** Taking a number in base 64 apart again. */
  lemma Digits(a: nat, b: int)
    requires 0 <= b < 0x40
    ensures (a * 0x40 + b) / 0x40 == a && (a * 0x40 + b) % 0x40 == b
  {
  }

  lemma DigitsOfTwo(x: nat, y: int, z: int)
    requires 0 <= y < 0x40 && 0 <= z < 0x40
    ensures var n := x * 0x1000 + y * 0x40 + z;
            n / 0x1000 == x && n / 0x40 % 0x40 == y && n % 0x40 == z
  {
    var n := x * 0x1000 + y * 0x40 + z;
    Digits(x * 0x40 + y, z);
    Digits(x, y);
    Base64(n);
  }

  lemma DigitsOfThree(w: nat, x: int, y: int, z: int)
    requires 0 <= x < 0x40 && 0 <= y < 0x40 && 0 <= z < 0x40
    ensures var n := w * 0x40000 + x * 0x1000 + y * 0x40 + z;
            n / 0x40000 == w && n / 0x1000 % 0x40 == x && n / 0x40 % 0x40 == y && n % 0x40 == z
  {
    var n := w * 0x40000 + x * 0x1000 + y * 0x40 + z;
    DigitsOfTwo(w * 0x40 + x, y, z);
    Digits(w, x);
    Base64(n);
  }

  lemma EncodedFirst(bytes: seq<Byte>)
    requires DecodeFirst(bytes).Some?
    ensures EncodeChar(DecodeFirst(bytes).value.0) == bytes[..DecodeFirst(bytes).value.1]
  {
    var (c, size) := DecodeFirst(bytes).value;
    if size == 2 {
      Digits(bytes[0] - 0xC0, Bits(bytes, 1));
    } else if size == 3 {
      DigitsOfTwo(bytes[0] - 0xE0, Bits(bytes, 1), Bits(bytes, 2));
    } else if size == 4 {
      DigitsOfThree(bytes[0] - 0xF0, Bits(bytes, 1), Bits(bytes, 2), Bits(bytes, 3));
    }
  }

  /** Only what encoding produces is read at all. */
  lemma {:induction false} EncodeDecoded(bytes: seq<Byte>)
    requires Decode(bytes).Some?
    ensures Encode(Decode(bytes).value) == bytes
    decreases |bytes|
  {
    hide DecodeFirst, EncodeChar;
    if bytes != [] {
      var first := DecodeFirst(bytes).value;
      EncodedFirst(bytes);
      EncodeDecoded(bytes[first.1..]);
      var rest := Decode(bytes[first.1..]).value;
      assert ([first.0] + rest)[1..] == rest;
      assert bytes == bytes[..first.1] + bytes[first.1..];
    }
  }

  lemma {:induction false} ByteLengthIs(s: string)
    ensures ByteLength(s) == |Encode(s)|
  {
    if s != "" {
      ByteLengthIs(s[1..]);
    }
  }

  lemma {:induction false} EncodeConcat(s: string, t: string)
    ensures Encode(s + t) == Encode(s) + Encode(t)
  {
    hide *;
    if s == "" {
      assert s + t == t;
      EncodeNothing();
      assert [] + Encode(t) == Encode(t);
    } else {
      EncodeConcat(s[1..], t);
      assert (s + t)[1..] == s[1..] + t && (s + t)[0] == s[0];
      EncodeStep(s);
      EncodeStep(s + t);
      Assoc(EncodeChar(s[0]), Encode(s[1..]), Encode(t));
    }
  }

  lemma EncodeNothing()
    ensures Encode("") == []
  {
  }

  lemma EncodeStep(s: string)
    requires s != ""
    ensures Encode(s) == EncodeChar(s[0]) + Encode(s[1..])
  {
    hide EncodeChar;
  }

  lemma Assoc(a: seq<Byte>, b: seq<Byte>, c: seq<Byte>)
    ensures a + (b + c) == (a + b) + c
  {
  }
}
