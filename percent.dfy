/**
 * Reading a query back: the `application/x-www-form-urlencoded` parser behind
 * `URLSearchParams.get` turns `+` into a space and percent escapes back into the
 * characters whose UTF-8 bytes they spell. It is the inverse of both encoders in
 * `Text`: `encodeURIComponent` and the form serialiser.
 */
module Percent {
  import opened Wrappers
  import opened Text

  /** The value of a hexadecimal digit, in either case. */
  function HexValue(c: char): (v: Option<nat>)
    ensures v.Some? ==> v.value < 16
    ensures '0' <= c <= '9' ==> v == Some(c as int - '0' as int)
    ensures 'A' <= c <= 'F' ==> v == Some(c as int - 'A' as int + 10)
    ensures !('0' <= c <= '9' || 'A' <= c <= 'F' || 'a' <= c <= 'f') ==> v.None?
  {
    if '0' <= c <= '9' then Some(c as int - '0' as int)
    else if 'A' <= c <= 'F' then Some(c as int - 'A' as int + 10)
    else if 'a' <= c <= 'f' then Some(c as int - 'a' as int + 10)
    else None
  }

  /** The byte spelled by `%XX` at index `k` of `s`, if there is one. */
  function EscapedByte(s: string, k: nat): (b: Option<nat>)
    ensures b.Some? ==> b.value < 256 && k + 3 <= |s| && s[k] == '%'
  {
    if k + 3 <= |s| && s[k] == '%' && HexValue(s[k + 1]).Some? && HexValue(s[k + 2]).Some? then
      Some(16 * HexValue(s[k + 1]).value + HexValue(s[k + 2]).value)
    else None
  }

  /** A UTF-8 continuation byte, `10xxxxxx`. */
  predicate Continuation(b: Option<nat>) { b.Some? && 0x80 <= b.value < 0xC0 }

  /**
   * The character spelled by the percent escapes at the start of `s`, and how many
   * characters of `s` they take: one escape for ASCII, two to four for the longer UTF-8
   * forms. Overlong forms, surrogates and code points past U+10FFFF spell nothing.
   */
  function DecodeEscape(s: string): (r: Option<(char, nat)>)
    ensures r.Some? ==> 3 <= r.value.1 <= |s| && s[0] == '%'
  {
    var b0 := EscapedByte(s, 0);
    if b0.None? then None
    else if b0.value < 0x80 then Some((b0.value as char, 3))
    else if 0xC2 <= b0.value < 0xE0 then
      var b1 := EscapedByte(s, 3);
      if !Continuation(b1) then None
      else Some((((b0.value - 0xC0) * 64 + (b1.value - 0x80)) as char, 6))
    else if 0xE0 <= b0.value < 0xF0 then
      var b1 := EscapedByte(s, 3);
      var b2 := EscapedByte(s, 6);
      if !Continuation(b1) || !Continuation(b2) then None
      else
        var cp := (b0.value - 0xE0) * 4096 + (b1.value - 0x80) * 64 + (b2.value - 0x80);
        if cp < 0x800 || (0xD800 <= cp < 0xE000) then None else Some((cp as char, 9))
    else if 0xF0 <= b0.value < 0xF5 then
      var b1 := EscapedByte(s, 3);
      var b2 := EscapedByte(s, 6);
      var b3 := EscapedByte(s, 9);
      if !Continuation(b1) || !Continuation(b2) || !Continuation(b3) then None
      else
        var cp := (b0.value - 0xF0) * 0x4_0000 + (b1.value - 0x80) * 4096 + (b2.value - 0x80) * 64
                  + (b3.value - 0x80);
        if cp < 0x1_0000 || cp >= 0x11_0000 then None else Some((cp as char, 12))
    else None
  }

  /**
   * The value of a query pair as `URLSearchParams` reads it: `+` is a space, a run of
   * percent escapes spelling one character is that character, and anything else stays
   * as it is.
   */
  function FormDecode(s: string): (r: string)
    ensures |r| <= |s|
    decreases |s|
  {
    if s == [] then []
    else if s[0] == '+' then " " + FormDecode(s[1..])
    else if s[0] == '%' && DecodeEscape(s).Some? then
      var d := DecodeEscape(s).value;
      [d.0] + FormDecode(s[d.1..])
    else [s[0]] + FormDecode(s[1..])
  }

  // ------------------------------------------------------------- round trips

  /** Text with neither `+` nor `%` reads back as itself. */
  lemma {:induction false} FormDecodeOfPlain(s: string)
    requires forall i :: 0 <= i < |s| ==> s[i] != '+' && s[i] != '%'
    ensures FormDecode(s) == s
  {
    if s != [] {
      FormDecodeOfPlain(s[1..]);
    }
  }

  /** `encodeURIComponent` is undone by the query parser. */
  lemma {:induction false} FormDecodeOfEncodeURIComponent(s: string)
    ensures FormDecode(EncodeURIComponent(s)) == s
  {
    if s != [] {
      var rest := EncodeURIComponent(s[1..]);
      FormDecodeOfEncodeURIComponent(s[1..]);
      if Unreserved(s[0]) {
        DecodeLiteral(s[0], rest);
      } else {
        DecodeEscapedChar(s[0], rest);
      }
      assert s == [s[0]] + s[1..];
    }
  }

  /** The form serialiser is undone by the query parser. */
  lemma {:induction false} FormDecodeOfFormEncode(s: string)
    ensures FormDecode(FormEncode(s)) == s
  {
    if s != [] {
      var rest := FormEncode(s[1..]);
      FormDecodeOfFormEncode(s[1..]);
      if s[0] == ' ' {
        assert FormEncode(s) == "+" + rest;
        DecodePlus(rest);
      } else if FormSafe(s[0]) {
        DecodeLiteral(s[0], rest);
      } else {
        DecodeEscapedChar(s[0], rest);
      }
      assert s == [s[0]] + s[1..];
    }
  }

  lemma DecodePlus(rest: string)
    ensures FormDecode("+" + rest) == " " + FormDecode(rest)
  {
    assert ("+" + rest)[1..] == rest;
  }

  lemma DecodeLiteral(c: char, rest: string)
    requires c != '+' && c != '%'
    ensures FormDecode([c] + rest) == [c] + FormDecode(rest)
  {
    assert ([c] + rest)[1..] == rest;
  }

  /** The escapes of one character's UTF-8 bytes read back as that character. */
  lemma DecodeEscapedChar(c: char, rest: string)
    ensures FormDecode(PercentBytes(Utf8(c as int)) + rest) == [c] + FormDecode(rest)
  {
    var e := PercentBytes(Utf8(c as int));
    var s := e + rest;
    DecodeEscapeOfChar(c, rest);
    assert s[0] == '%';
    assert s[|e|..] == rest;
  }

  lemma DecodeEscapeOfChar(c: char, rest: string)
    ensures DecodeEscape(PercentBytes(Utf8(c as int)) + rest) == Some((c, |PercentBytes(Utf8(c as int))|))
  {
    var cp := c as int;
    if cp < 0x80 {
      DecodeEscapeOne(c, rest);
    } else if cp < 0x800 {
      DecodeEscapeTwo(c, rest);
    } else if cp < 0x1_0000 {
      DecodeEscapeThree(c, rest);
    } else {
      DecodeEscapeFour(c, rest);
    }
  }

  lemma DecodeEscapeOne(c: char, rest: string)
    requires c as int < 0x80
    ensures DecodeEscape(PercentBytes(Utf8(c as int)) + rest) == Some((c, |PercentBytes(Utf8(c as int))|))
  {
    var bs := Utf8(c as int);
    EscapedByteOfPercent(bs, rest, 0);
  }

  lemma DecodeEscapeTwo(c: char, rest: string)
    requires 0x80 <= c as int < 0x800
    ensures DecodeEscape(PercentBytes(Utf8(c as int)) + rest) == Some((c, |PercentBytes(Utf8(c as int))|))
  {
    var bs := Utf8(c as int);
    Utf8Two(c as int);
    EscapedByteOfPercent(bs, rest, 0);
    EscapedByteOfPercent(bs, rest, 1);
  }

  lemma DecodeEscapeThree(c: char, rest: string)
    requires 0x800 <= c as int < 0x1_0000
    ensures DecodeEscape(PercentBytes(Utf8(c as int)) + rest) == Some((c, |PercentBytes(Utf8(c as int))|))
  {
    var bs := Utf8(c as int);
    var s := PercentBytes(bs) + rest;
    Utf8Three(c as int);
    EscapedByteOfPercent(bs, rest, 0);
    EscapedByteOfPercent(bs, rest, 1);
    EscapedByteOfPercent(bs, rest, 2);
    ThreeEscapes(s, bs[0], bs[1], bs[2], c);
  }

  lemma ThreeEscapes(s: string, b0: nat, b1: nat, b2: nat, c: char)
    requires EscapedByte(s, 0) == Some(b0) && EscapedByte(s, 3) == Some(b1) && EscapedByte(s, 6) == Some(b2)
    requires 0xE0 <= b0 < 0xF0 && 0x80 <= b1 < 0xC0 && 0x80 <= b2 < 0xC0
    requires 0x800 <= c as int < 0x1_0000
    requires (b0 - 0xE0) * 4096 + (b1 - 0x80) * 64 + (b2 - 0x80) == c as int
    ensures DecodeEscape(s) == Some((c, 9))
  {
  }

  lemma DecodeEscapeFour(c: char, rest: string)
    requires 0x1_0000 <= c as int
    ensures DecodeEscape(PercentBytes(Utf8(c as int)) + rest) == Some((c, |PercentBytes(Utf8(c as int))|))
  {
    var bs := Utf8(c as int);
    var s := PercentBytes(bs) + rest;
    Utf8Four(c as int);
    EscapedByteOfPercent(bs, rest, 0);
    EscapedByteOfPercent(bs, rest, 1);
    EscapedByteOfPercent(bs, rest, 2);
    EscapedByteOfPercent(bs, rest, 3);
    FourEscapes(s, bs[0], bs[1], bs[2], bs[3], c);
  }

  lemma FourEscapes(s: string, b0: nat, b1: nat, b2: nat, b3: nat, c: char)
    requires EscapedByte(s, 0) == Some(b0) && EscapedByte(s, 3) == Some(b1)
    requires EscapedByte(s, 6) == Some(b2) && EscapedByte(s, 9) == Some(b3)
    requires 0xF0 <= b0 < 0xF5 && 0x80 <= b1 < 0xC0 && 0x80 <= b2 < 0xC0 && 0x80 <= b3 < 0xC0
    requires 0x1_0000 <= c as int
    requires (b0 - 0xF0) * 0x4_0000 + (b1 - 0x80) * 4096 + (b2 - 0x80) * 64 + (b3 - 0x80) == c as int
    ensures DecodeEscape(s) == Some((c, 12))
  {
  }

  /** The `k`-th escape of `PercentBytes(bs)` spells the `k`-th byte. */
  lemma {:induction false} EscapedByteOfPercent(bs: seq<int>, rest: string, k: nat)
    requires forall i :: 0 <= i < |bs| ==> 0 <= bs[i] < 256
    requires k < |bs|
    ensures EscapedByte(PercentBytes(bs) + rest, 3 * k) == Some(bs[k])
  {
    var head := ['%', HexDigit(Quot(bs[0], 16)), HexDigit(Rem(bs[0], 16))];
    var tail := PercentBytes(bs[1..]) + rest;
    assert PercentBytes(bs) + rest == head + tail by {
      assert PercentBytes(bs) == head + PercentBytes(bs[1..]);
    }
    if k == 0 {
      EscapedByteOfHead(bs[0], tail);
    } else {
      var j := 3 * (k - 1);
      EscapedByteOfPercent(bs[1..], rest, k - 1);
      EscapedByteShift(head, tail, j);
      assert |head| + j == 3 * k;
    }
  }

  lemma EscapedByteOfHead(b: nat, tail: string)
    requires b < 256
    ensures EscapedByte(['%', HexDigit(Quot(b, 16)), HexDigit(Rem(b, 16))] + tail, 0) == Some(b)
  {
    var h, l := Quot(b, 16), Rem(b, 16);
    QuotRem(b, 16);
    EscapedByteOfDigits(h, l, tail);
  }

  lemma EscapedByteOfDigits(h: nat, l: nat, tail: string)
    requires h < 16 && l < 16
    ensures EscapedByte(['%', HexDigit(h), HexDigit(l)] + tail, 0) == Some(16 * h + l)
  {
    var s := ['%', HexDigit(h), HexDigit(l)] + tail;
    assert s[0] == '%' && s[1] == HexDigit(h) && s[2] == HexDigit(l);
    HexValueOfDigit(h);
    HexValueOfDigit(l);
  }

  lemma EscapedByteShift(p: string, t: string, j: nat)
    ensures EscapedByte(p + t, |p| + j) == EscapedByte(t, j)
  {
    var s := p + t;
    if |p| + j + 3 <= |s| {
      assert s[|p| + j] == t[j] && s[|p| + j + 1] == t[j + 1] && s[|p| + j + 2] == t[j + 2];
    }
  }

  lemma HexValueOfDigit(n: int)
    requires 0 <= n < 16
    ensures HexValue(HexDigit(n)) == Some(n)
  {
  }

  // ------------------------------------------------------- UTF-8 arithmetic

  /** `Quot` and `Rem` are the only quotient and remainder. */
  lemma {:induction false} QuotUnique(x: nat, d: nat, q: nat, r: nat)
    requires d > 0 && r < d && x == d * q + r
    ensures Quot(x, d) == q && Rem(x, d) == r
    decreases q
  {
    if q > 0 {
      assert d * q == d * (q - 1) + d;
      QuotUnique(x - d, d, q - 1, r);
    }
  }

  lemma Utf8Two(cp: int)
    requires 0x80 <= cp < 0x800
    ensures var bs := Utf8(cp);
      && 0xC2 <= bs[0] < 0xE0 && 0x80 <= bs[1] < 0xC0
      && (bs[0] - 0xC0) * 64 + (bs[1] - 0x80) == cp
  {
    QuotRem(cp, 64);
  }

  lemma Utf8Three(cp: int)
    requires 0x800 <= cp < 0x1_0000
    ensures var bs := Utf8(cp);
      && 0xE0 <= bs[0] < 0xF0 && 0x80 <= bs[1] < 0xC0 && 0x80 <= bs[2] < 0xC0
      && (bs[0] - 0xE0) * 4096 + (bs[1] - 0x80) * 64 + (bs[2] - 0x80) == cp
  {
    var q1 := Quot(cp, 64);
    QuotRem(cp, 64);
    QuotRem(q1, 64);
    QuotUnique(cp, 4096, Quot(q1, 64), 64 * Rem(q1, 64) + Rem(cp, 64));
  }

  lemma Utf8Four(cp: int)
    requires 0x1_0000 <= cp < 0x11_0000
    ensures var bs := Utf8(cp);
      && 0xF0 <= bs[0] < 0xF5 && 0x80 <= bs[1] < 0xC0 && 0x80 <= bs[2] < 0xC0 && 0x80 <= bs[3] < 0xC0
      && (bs[0] - 0xF0) * 0x4_0000 + (bs[1] - 0x80) * 4096 + (bs[2] - 0x80) * 64 + (bs[3] - 0x80) == cp
  {
    var q1 := Quot(cp, 64);
    var q2 := Quot(q1, 64);
    QuotRem(cp, 64);
    QuotRem(q1, 64);
    QuotRem(q2, 64);
    QuotUnique(cp, 4096, q2, 64 * Rem(q1, 64) + Rem(cp, 64));
    QuotUnique(cp, 0x4_0000, Quot(q2, 64), 4096 * Rem(q2, 64) + 64 * Rem(q1, 64) + Rem(cp, 64));
  }
}
