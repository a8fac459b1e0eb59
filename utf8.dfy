/** UTF-8 as Python's `str.encode()` and strict `bytes.decode()` use it
    (RFC 3629): every Unicode scalar value becomes one to four bytes, and the
    decoder accepts exactly the well-formed byte sequences. */
module Utf8 {

  import opened Wrappers

  type byte = b: int | 0 <= b < 256

  /** The one to four bytes of c. */
  function EncodeChar(c: char): (bs: seq<byte>)
    ensures 1 <= |bs| <= 4
    ensures (|bs| == 1) == (c as int < 0x80)
  {
    var n := c as int;
    if n < 0x80 then [n]
    else if n < 0x800 then [0xC0 + n / 64, 0x80 + n % 64]
    else if n < 0x10000 then [0xE0 + n / 4096, 0x80 + (n / 64) % 64, 0x80 + n % 64]
    else [0xF0 + n / 262144, 0x80 + (n / 4096) % 64, 0x80 + (n / 64) % 64, 0x80 + n % 64]
  }

  /** `s.encode()` */
  function Encode(s: string): (bs: seq<byte>)
    ensures |s| <= |bs| <= 4 * |s|
  {
    if s == [] then [] else EncodeChar(s[0]) + Encode(s[1..])
  }

  predicate IsContinuation(b: byte) { 0x80 <= b < 0xC0 }

  /** The character at the start of bs and the number of bytes it takes, or
      None when bs does not start with a well-formed sequence: a stray
      continuation byte, a truncated sequence, an overlong form, a surrogate
      or a value above U+10FFFF. */
  function DecodeFirst(bs: seq<byte>): (r: Option<(char, nat)>)
    requires |bs| > 0
    ensures r.Some? ==> 1 <= r.value.1 <= |bs| && r.value.1 <= 4
  {
    var b0: int := bs[0];
    if b0 < 0x80 then Some((b0 as char, 1))
    else if 0xC2 <= b0 < 0xE0 then
      if |bs| >= 2 && IsContinuation(bs[1])
      then Some((((b0 - 0xC0) * 64 + (bs[1] as int - 0x80)) as char, 2))
      else None
    else if 0xE0 <= b0 < 0xF0 then
      if |bs| >= 3 && IsContinuation(bs[1]) && IsContinuation(bs[2]) then
        var n := (b0 - 0xE0) * 4096 + (bs[1] as int - 0x80) * 64 + (bs[2] as int - 0x80);
        if 0x800 <= n && !(0xD800 <= n < 0xE000) then Some((n as char, 3)) else None
      else None
    else if 0xF0 <= b0 < 0xF5 then
      if |bs| >= 4 && IsContinuation(bs[1]) && IsContinuation(bs[2]) && IsContinuation(bs[3]) then
        var n := (b0 - 0xF0) * 262144 + (bs[1] as int - 0x80) * 4096 + (bs[2] as int - 0x80) * 64 + (bs[3] as int - 0x80);
        if 0x10000 <= n < 0x110000 then Some((n as char, 4)) else None
      else None
    else None
  }

  /** `bs.decode()`: the characters, or None when Python raises
      UnicodeDecodeError. */
  function Decode(bs: seq<byte>): (r: Option<string>)
    ensures r.Some? ==> |r.value| <= |bs|
    decreases |bs|
  {
    if bs == [] then Some([])
    else match DecodeFirst(bs)
      case None => None
      case Some((c, k)) =>
        match Decode(bs[k..])
        case None => None
        case Some(rest) => Some([c] + rest)
  }

  /** Each character's bytes decode back to it, whatever follows them. */
  lemma DecodeFirstEncodeChar(c: char, rest: seq<byte>)
    ensures DecodeFirst(EncodeChar(c) + rest) == Some((c, |EncodeChar(c)|))
  {
    var n := c as int;
    if n < 0x80 {
    } else if n < 0x800 {
      DecodeTwoBytes(c, rest);
    } else if n < 0x10000 {
      DecodeThreeBytes(c, rest);
    } else {
      DecodeFourBytes(c, rest);
    }
  }

  lemma DecodeTwoBytes(c: char, rest: seq<byte>)
    requires 0x80 <= c as int < 0x800
    ensures DecodeFirst(EncodeChar(c) + rest) == Some((c, 2))
  {
    var n := c as int;
    var bs := EncodeChar(c) + rest;
    assert bs[0] == 0xC0 + n / 64 && bs[1] == 0x80 + n % 64;
    assert (n / 64) * 64 + n % 64 == n;
  }

  lemma DecodeThreeBytes(c: char, rest: seq<byte>)
    requires 0x800 <= c as int < 0x10000
    ensures DecodeFirst(EncodeChar(c) + rest) == Some((c, 3))
  {
    var n := c as int;
    var bs := EncodeChar(c) + rest;
    assert bs[0] == 0xE0 + n / 4096 && bs[1] == 0x80 + (n / 64) % 64 && bs[2] == 0x80 + n % 64;
    assert (n / 4096) * 64 + (n / 64) % 64 == n / 64;
    assert (n / 64) * 64 + n % 64 == n;
  }

  lemma DecodeFourBytes(c: char, rest: seq<byte>)
    requires 0x10000 <= c as int
    ensures DecodeFirst(EncodeChar(c) + rest) == Some((c, 4))
  {
    var n := c as int;
    var bs := EncodeChar(c) + rest;
    assert bs[0] == 0xF0 + n / 262144 && bs[1] == 0x80 + (n / 4096) % 64;
    assert bs[2] == 0x80 + (n / 64) % 64 && bs[3] == 0x80 + n % 64;
    assert (n / 262144) * 64 + (n / 4096) % 64 == n / 4096;
    assert (n / 4096) * 64 + (n / 64) % 64 == n / 64;
    assert (n / 64) * 64 + n % 64 == n;
  }

  /** Decoding what `str.encode()` produced gives the string back. */
  lemma {:induction false} DecodeEncode(s: string)
    ensures Decode(Encode(s)) == Some(s)
  {
    if s != [] {
      var head := EncodeChar(s[0]);
      var bs := Encode(s);
      assert bs == head + Encode(s[1..]);
      DecodeFirstEncodeChar(s[0], Encode(s[1..]));
      assert bs[|head|..] == Encode(s[1..]);
      DecodeEncode(s[1..]);
      assert [s[0]] + s[1..] == s;
    }
  }

  /** Whatever decodes successfully is the encoding of what it decodes to:
      the decoder accepts only byte sequences that `str.encode()` writes. */
  lemma {:induction false} EncodeDecode(bs: seq<byte>)
    requires Decode(bs).Some?
    ensures Encode(Decode(bs).value) == bs
    decreases |bs|
  {
    if bs != [] {
      var (c, k) := DecodeFirst(bs).value;
      var rest := Decode(bs[k..]).value;
      assert Decode(bs).value == [c] + rest;
      assert ([c] + rest)[1..] == rest;
      EncodeCharOfDecodeFirst(bs);
      EncodeDecode(bs[k..]);
      assert bs[..k] + bs[k..] == bs;
    }
  }

  /** `bs.decode()` succeeds with s exactly when bs is `s.encode()`. */
  lemma DecodeIsInverse(bs: seq<byte>, s: string)
    ensures Decode(bs) == Some(s) <==> Encode(s) == bs
  {
    if Decode(bs) == Some(s) {
      EncodeDecode(bs);
    }
    if Encode(s) == bs {
      DecodeEncode(s);
    }
  }

  /** The bytes of one decoded character are its encoding. */
  lemma EncodeCharOfDecodeFirst(bs: seq<byte>)
    requires |bs| > 0 && DecodeFirst(bs).Some?
    ensures EncodeChar(DecodeFirst(bs).value.0) == bs[..DecodeFirst(bs).value.1]
  {
    var b0: int := bs[0];
    if 0xC2 <= b0 < 0xE0 {
      EncodeTwoBytes(bs);
    } else if 0xE0 <= b0 < 0xF0 {
      EncodeThreeBytes(bs);
    } else if 0xF0 <= b0 < 0xF5 {
      EncodeFourBytes(bs);
    }
  }

  lemma EncodeTwoBytes(bs: seq<byte>)
    requires |bs| >= 2 && 0xC2 <= bs[0] < 0xE0 && IsContinuation(bs[1])
    ensures DecodeFirst(bs).Some? && EncodeChar(DecodeFirst(bs).value.0) == bs[..2]
  {
    Digits64(bs[0] as int - 0xC0, bs[1] as int - 0x80);
  }

  lemma EncodeThreeBytes(bs: seq<byte>)
    requires |bs| >= 3 && 0xE0 <= bs[0] < 0xF0 && IsContinuation(bs[1]) && IsContinuation(bs[2])
    requires DecodeFirst(bs).Some?
    ensures EncodeChar(DecodeFirst(bs).value.0) == bs[..3]
  {
    var m := (bs[0] as int - 0xE0) * 64 + (bs[1] as int - 0x80);
    Digits64(bs[0] as int - 0xE0, bs[1] as int - 0x80);
    Digits64(m, bs[2] as int - 0x80);
  }

  lemma EncodeFourBytes(bs: seq<byte>)
    requires |bs| >= 4 && 0xF0 <= bs[0] < 0xF5
    requires IsContinuation(bs[1]) && IsContinuation(bs[2]) && IsContinuation(bs[3])
    requires DecodeFirst(bs).Some?
    ensures EncodeChar(DecodeFirst(bs).value.0) == bs[..4]
  {
    var m := (bs[0] as int - 0xF0) * 64 + (bs[1] as int - 0x80);
    var l := m * 64 + (bs[2] as int - 0x80);
    Digits64(bs[0] as int - 0xF0, bs[1] as int - 0x80);
    Digits64(m, bs[2] as int - 0x80);
    Digits64(l, bs[3] as int - 0x80);
  }

  /** A base-64 digit appended to q. */
  lemma Digits64(q: int, r: int)
    requires 0 <= q && 0 <= r < 64
    ensures (q * 64 + r) / 64 == q && (q * 64 + r) % 64 == r
  {
  }
}
