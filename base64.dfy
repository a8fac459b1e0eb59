/** Base64 as `base64.b64encode` and `base64.b64decode` compute it: the
    encoding of section 4 of RFC 4648 with padding, and the decoder of
    CPython's binascii in its default, non-strict mode, which skips every
    character outside the alphabet and stops reading at the pad character
    that completes a group of four. */
module Base64 {

  import opened Wrappers
  import opened Utf8

  /** Table 1 of RFC 4648, section 4: the character that encodes each 6-bit
      value. */
  function SextetChar(v: nat): (c: char)
    requires v < 64
    ensures c != '=' && c as int < 128
  {
    if v < 26 then ('A' as int + v) as char
    else if v < 52 then ('a' as int + v - 26) as char
    else if v < 62 then ('0' as int + v - 52) as char
    else if v == 62 then '+'
    else '/'
  }

  /** The 6-bit value an alphabet character stands for; None for every other
      character, the pad character '=' among them. */
  function SextetValue(c: char): (r: Option<nat>)
    ensures r.Some? ==> r.value < 64 && SextetChar(r.value) == c
    ensures r.None? ==> forall v :: 0 <= v < 64 ==> SextetChar(v) != c
  {
    if 'A' <= c <= 'Z' then Some(c as int - 'A' as int)
    else if 'a' <= c <= 'z' then Some(c as int - 'a' as int + 26)
    else if '0' <= c <= '9' then Some(c as int - '0' as int + 52)
    else if c == '+' then Some(62)
    else if c == '/' then Some(63)
    else None
  }

  /** The four characters of one group of three bytes. */
  function EncodeGroup(b0: byte, b1: byte, b2: byte): string
  {
    [SextetChar(b0 / 4), SextetChar((b0 % 4) * 16 + b1 / 16),
     SextetChar((b1 % 16) * 4 + b2 / 64), SextetChar(b2 % 64)]
  }

  predicate IsEncodingChar(c: char) { c == '=' || SextetValue(c).Some? }

  /** `base64.b64encode`: four characters for every three bytes, the last
      group padded with '='. */
  function Encode(bs: seq<byte>): (s: string)
    ensures |s| == 4 * ((|bs| + 2) / 3)
    ensures forall i :: 0 <= i < |s| ==> IsEncodingChar(s[i]) && s[i] as int < 128
  {
    if |bs| == 0 then []
    else if |bs| == 1 then
      [SextetChar(bs[0] / 4), SextetChar((bs[0] % 4) * 16), '=', '=']
    else if |bs| == 2 then
      [SextetChar(bs[0] / 4), SextetChar((bs[0] % 4) * 16 + bs[1] / 16), SextetChar((bs[1] % 16) * 4), '=']
    else
      EncodeGroup(bs[0], bs[1], bs[2]) + Encode(bs[3..])
  }

  /** The largest number of undecoded bits binascii can hold after `quad`
      characters of a group. */
  function LeftBound(quad: nat): nat
  {
    if quad == 0 then 1 else if quad == 1 then 64 else if quad == 2 then 16 else 4
  }

  function Emit(b: byte, r: Option<seq<byte>>): Option<seq<byte>>
  {
    match r
    case None => None
    case Some(t) => Some([b] + t)
  }

  /** binascii.a2b_base64 in non-strict mode, from the state it keeps between
      characters: `quad` characters of the current group read, `left` the
      bits of them not written out yet, `pads` the pad characters seen since
      the last data character. None is binascii.Error: the input ends inside
      a group. */
  function Lenient(s: string, quad: nat, left: nat, pads: nat): (r: Option<seq<byte>>)
    requires quad < 4 && left < LeftBound(quad)
    decreases |s|
  {
    if s == [] then (if quad == 0 then Some([]) else None)
    else if s[0] == '=' then
      if quad >= 2 && quad + pads + 1 >= 4 then Some([])
      else Lenient(s[1..], quad, left, if quad >= 2 then pads + 1 else pads)
    else match SextetValue(s[0])
      case None => Lenient(s[1..], quad, left, pads)
      case Some(v) =>
        if quad == 0 then Lenient(s[1..], 1, v, 0)
        else if quad == 1 then Emit(left * 4 + v / 16, Lenient(s[1..], 2, v % 16, 0))
        else if quad == 2 then Emit(left * 16 + v / 4, Lenient(s[1..], 3, v % 4, 0))
        else Emit(left * 64 + v, Lenient(s[1..], 0, 0, 0))
  }

  /** `base64.b64decode(s)`: None when it raises, because s holds a
      character outside ASCII or ends inside a group. */
  function Decode(s: string): Option<seq<byte>>
  {
    if exists i :: 0 <= i < |s| && s[i] as int >= 128 then None
    else Lenient(s, 0, 0, 0)
  }

  function Prepend(bs: seq<byte>, r: Option<seq<byte>>): Option<seq<byte>>
  {
    match r
    case None => None
    case Some(t) => Some(bs + t)
  }

  lemma SextetRoundTrip(v: nat)
    requires v < 64
    ensures SextetValue(SextetChar(v)) == Some(v)
  {
  }

  /** A last group of one byte, "xy==", decodes to that byte and ends
      decoding. */
  lemma LenientOneByte(b0: byte, rest: string)
    ensures Lenient([SextetChar(b0 / 4), SextetChar((b0 % 4) * 16), '=', '='] + rest, 0, 0, 0) == Some([b0])
  {
    var v0, v1 := b0 / 4, (b0 % 4) * 16;
    var s := [SextetChar(v0), SextetChar(v1), '=', '='] + rest;
    SextetRoundTrip(v0);
    SextetRoundTrip(v1);
    assert s[1..][1..] == s[2..] && s[2..][1..] == s[3..];
    assert s[2..][0] == '=' && s[3..][0] == '=';
    assert Lenient(s[3..], 2, 0, 1) == Some([]);
    assert Lenient(s[2..], 2, 0, 0) == Some([]);
    assert v1 % 16 == 0;
    assert v0 * 4 + v1 / 16 == b0;
    assert Lenient(s[1..], 1, v0, 0) == Emit(b0, Some([]));
    assert Lenient(s, 0, 0, 0) == Lenient(s[1..], 1, v0, 0);
    assert [b0] + [] == [b0];
  }

  /** A last group of two bytes, "xyz=", decodes to those bytes and ends
      decoding. */
  lemma LenientTwoBytes(b0: byte, b1: byte, rest: string)
    ensures Lenient([SextetChar(b0 / 4), SextetChar((b0 % 4) * 16 + b1 / 16), SextetChar((b1 % 16) * 4), '='] + rest, 0, 0, 0)
         == Some([b0, b1])
  {
    var v0, v1, v2 := b0 / 4, (b0 % 4) * 16 + b1 / 16, (b1 % 16) * 4;
    var s := [SextetChar(v0), SextetChar(v1), SextetChar(v2), '='] + rest;
    SextetRoundTrip(v0);
    SextetRoundTrip(v1);
    SextetRoundTrip(v2);
    TwoBytesBits(b0, b1);
    assert s[1..][1..] == s[2..] && s[2..][1..] == s[3..];
    assert s[3..][0] == '=';
    assert Lenient(s[3..], 3, 0, 0) == Some([]);
    assert [b1] + [] == [b1];
    assert Lenient(s[2..], 2, v1 % 16, 0) == Some([b1]);
    assert [b0] + [b1] == [b0, b1];
    assert Lenient(s[1..], 1, v0, 0) == Some([b0, b1]);
    assert Lenient(s, 0, 0, 0) == Lenient(s[1..], 1, v0, 0);
  }

  /** The sextets of a last group of two bytes put back together give its
      bytes, with no bits left over. */
  lemma TwoBytesBits(b0: byte, b1: byte)
    ensures ((b1 % 16) * 4) % 4 == 0
    ensures (b0 / 4) * 4 + ((b0 % 4) * 16 + b1 / 16) / 16 == b0
    ensures (((b0 % 4) * 16 + b1 / 16) % 16) * 16 + ((b1 % 16) * 4) / 4 == b1
  {
  }

  /** The sextets of a group put back together give its bytes. */
  lemma GroupBits(b0: byte, b1: byte, b2: byte)
    ensures (b0 / 4) * 4 + ((b0 % 4) * 16 + b1 / 16) / 16 == b0
    ensures (((b0 % 4) * 16 + b1 / 16) % 16) * 16 + ((b1 % 16) * 4 + b2 / 64) / 4 == b1
    ensures (((b1 % 16) * 4 + b2 / 64) % 4) * 64 + b2 % 64 == b2
  {
  }

  /** A full group of four characters decodes to its three bytes, and
      decoding goes on from a fresh group. */
  lemma LenientGroup(b0: byte, b1: byte, b2: byte, tail: string)
    ensures Lenient(EncodeGroup(b0, b1, b2) + tail, 0, 0, 0) == Prepend([b0, b1, b2], Lenient(tail, 0, 0, 0))
  {
    var v0, v1, v2, v3 := b0 / 4, (b0 % 4) * 16 + b1 / 16, (b1 % 16) * 4 + b2 / 64, b2 % 64;
    var s := EncodeGroup(b0, b1, b2) + tail;
    SextetRoundTrip(v0);
    SextetRoundTrip(v1);
    SextetRoundTrip(v2);
    SextetRoundTrip(v3);
    GroupBits(b0, b1, b2);
    assert s[1..][1..] == s[2..] && s[2..][1..] == s[3..] && s[3..][1..] == tail;
    assert Lenient(s[3..], 3, v2 % 4, 0) == Emit(b2, Lenient(tail, 0, 0, 0));
    assert Lenient(s[2..], 2, v1 % 16, 0) == Emit(b1, Emit(b2, Lenient(tail, 0, 0, 0)));
    assert Lenient(s[1..], 1, v0, 0) == Emit(b0, Emit(b1, Emit(b2, Lenient(tail, 0, 0, 0))));
    match Lenient(tail, 0, 0, 0) {
      case None =>
      case Some(t) => assert [b0] + ([b1] + ([b2] + t)) == [b0, b1, b2] + t;
    }
  }

  /** A padded last group decodes to its one or two bytes and ends decoding. */
  lemma LenientEncodeLast(bs: seq<byte>, rest: string)
    requires 1 <= |bs| <= 2
    ensures Lenient(Encode(bs) + rest, 0, 0, 0) == Some(bs)
  {
    if |bs| == 1 {
      var b0 := bs[0];
      assert Encode(bs) == [SextetChar(b0 / 4), SextetChar((b0 % 4) * 16), '=', '='];
      LenientOneByte(b0, rest);
      assert [b0] == bs;
    } else {
      var b0, b1 := bs[0], bs[1];
      assert Encode(bs) == [SextetChar(b0 / 4), SextetChar((b0 % 4) * 16 + b1 / 16), SextetChar((b1 % 16) * 4), '='];
      LenientTwoBytes(b0, b1, rest);
      assert [b0, b1] == bs;
    }
  }

  lemma PrependPrepend(a: seq<byte>, b: seq<byte>, r: Option<seq<byte>>)
    ensures Prepend(a, Prepend(b, r)) == Prepend(a + b, r)
  {
    match r {
      case None =>
      case Some(t) => assert a + (b + t) == (a + b) + t;
    }
  }

  /** Decoding an encoding that starts with a full group. */
  lemma LenientFront(bs: seq<byte>, rest: string)
    requires |bs| >= 3
    ensures Lenient(Encode(bs) + rest, 0, 0, 0) == Prepend(bs[..3], Lenient(Encode(bs[3..]) + rest, 0, 0, 0))
  {
    var tail := Encode(bs[3..]) + rest;
    assert Encode(bs) + rest == EncodeGroup(bs[0], bs[1], bs[2]) + tail;
    LenientGroup(bs[0], bs[1], bs[2], tail);
    assert bs[..3] == [bs[0], bs[1], bs[2]];
  }

  /** One full group in front of an encoding adds its three bytes in front of
      what the rest decodes to. */
  lemma LenientEncodeStep(bs: seq<byte>, rest: string)
    requires |bs| >= 3
    requires Lenient(Encode(bs[3..]) + rest, 0, 0, 0) ==
      if |bs[3..]| % 3 == 0 then Prepend(bs[3..], Lenient(rest, 0, 0, 0)) else Some(bs[3..])
    ensures Lenient(Encode(bs) + rest, 0, 0, 0) ==
      if |bs| % 3 == 0 then Prepend(bs, Lenient(rest, 0, 0, 0)) else Some(bs)
  {
    LenientFront(bs, rest);
    assert bs[..3] + bs[3..] == bs;
    PrependGroup(bs[..3], bs[3..], Lenient(Encode(bs[3..]) + rest, 0, 0, 0), Lenient(rest, 0, 0, 0));
  }

  /** Putting a group in front of a decoding keeps the shape LenientEncode
      states. */
  lemma PrependGroup(g: seq<byte>, t: seq<byte>, decoded: Option<seq<byte>>, after: Option<seq<byte>>)
    requires |g| == 3
    requires decoded == if |t| % 3 == 0 then Prepend(t, after) else Some(t)
    ensures Prepend(g, decoded) == if |g + t| % 3 == 0 then Prepend(g + t, after) else Some(g + t)
  {
    assert |g + t| % 3 == |t| % 3;
    if |t| % 3 == 0 {
      PrependPrepend(g, t, after);
    }
  }

  /** Decoding an encoding followed by anything: a whole number of groups
      decodes to the bytes and decoding carries on; a padded last group
      decodes to the bytes and what follows the padding is ignored. */
  lemma {:induction false} LenientEncode(bs: seq<byte>, rest: string)
    ensures Lenient(Encode(bs) + rest, 0, 0, 0) ==
      if |bs| % 3 == 0 then Prepend(bs, Lenient(rest, 0, 0, 0)) else Some(bs)
    decreases |bs|
  {
    if |bs| == 0 {
      assert Encode(bs) + rest == rest;
      match Lenient(rest, 0, 0, 0) {
        case None =>
        case Some(t) => assert bs + t == t;
      }
    } else if |bs| < 3 {
      LenientEncodeLast(bs, rest);
    } else {
      LenientEncode(bs[3..], rest);
      LenientEncodeStep(bs, rest);
    }
  }

  /** `b64decode(b64encode(bs)) == bs` */
  lemma DecodeEncode(bs: seq<byte>)
    ensures Decode(Encode(bs)) == Some(bs)
  {
    LenientEncode(bs, []);
    assert Encode(bs) + [] == Encode(bs);
    assert bs + [] == bs;
  }

  /** In non-strict mode a character outside the alphabet, wherever it
      stands, changes nothing: line breaks and other noise are skipped. */
  lemma {:induction false} LenientSkipsForeign(a: string, c: char, b: string, quad: nat, left: nat, pads: nat)
    requires quad < 4 && left < LeftBound(quad)
    requires c != '=' && SextetValue(c).None?
    ensures Lenient(a + [c] + b, quad, left, pads) == Lenient(a + b, quad, left, pads)
    decreases |a|
  {
    if a == [] {
      assert (a + [c] + b)[1..] == b && a + b == b;
    } else {
      assert (a + [c] + b)[0] == (a + b)[0] == a[0];
      assert (a + [c] + b)[1..] == a[1..] + [c] + b;
      assert (a + b)[1..] == a[1..] + b;
      if a[0] == '=' {
        if !(quad >= 2 && quad + pads + 1 >= 4) {
          LenientSkipsForeign(a[1..], c, b, quad, left, if quad >= 2 then pads + 1 else pads);
        }
      } else {
        match SextetValue(a[0]) {
          case None =>
            LenientSkipsForeign(a[1..], c, b, quad, left, pads);
          case Some(v) =>
            if quad == 0 {
              LenientSkipsForeign(a[1..], c, b, 1, v, 0);
            } else if quad == 1 {
              LenientSkipsForeign(a[1..], c, b, 2, v % 16, 0);
            } else if quad == 2 {
              LenientSkipsForeign(a[1..], c, b, 3, v % 4, 0);
            } else {
              LenientSkipsForeign(a[1..], c, b, 0, 0, 0);
            }
        }
      }
    }
  }

  /** Input made only of alphabet characters is rejected exactly when it
      does not fill its last group of four. */
  lemma {:induction false} LenientAlphabetOnly(s: string, quad: nat, left: nat, pads: nat)
    requires quad < 4 && left < LeftBound(quad)
    requires forall i :: 0 <= i < |s| ==> SextetValue(s[i]).Some?
    ensures Lenient(s, quad, left, pads).None? <==> (quad + |s|) % 4 != 0
    decreases |s|
  {
    if s != [] {
      var v := SextetValue(s[0]).value;
      assert s[0] != '=';
      assert forall i :: 0 <= i < |s[1..]| ==> s[1..][i] == s[i + 1];
      if quad == 0 {
        LenientAlphabetOnly(s[1..], 1, v, 0);
      } else if quad == 1 {
        LenientAlphabetOnly(s[1..], 2, v % 16, 0);
      } else if quad == 2 {
        LenientAlphabetOnly(s[1..], 3, v % 4, 0);
      } else {
        LenientAlphabetOnly(s[1..], 0, 0, 0);
      }
    }
  }

  /** `base64.b64decode` raises on alphabet characters that do not fill
      their last group of four, whatever they are. */
  lemma DecodeRejectsTruncated(s: string)
    requires forall i :: 0 <= i < |s| ==> SextetValue(s[i]).Some?
    requires |s| % 4 != 0
    ensures Decode(s) == None
  {
    LenientAlphabetOnly(s, 0, 0, 0);
  }
}
