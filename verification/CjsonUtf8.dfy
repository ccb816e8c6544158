/** The UTF-8 that parse_string emits for \u escapes, against a decoder written from the table in
    section 3 of RFC 3629 and the surrogate pairs of section 7 of RFC 8259. */
module CjsonUtf8 {
  import opened CjsonText
  import opened CjsonProofs

  datatype Decoded = Scalar(code: nat, rest: string) | Invalid

  /** Surrogates have no encoding of their own. */
  predicate IsScalar(code: nat) {
    code < 0x110000 && !(0xD800 <= code < 0xE000)
  }

  predicate IsTail(c: char) {
    0x80 <= c as int < 0xC0
  }

  function Low(c: char): nat {
    c as int % 64
  }

  /** The first character of a UTF-8 text, overlong forms and surrogates refused. */
  function Decode(s: string): Decoded {
    if s == "" then Invalid
    else
      var b := s[0] as int;
      if b < 0x80 then Scalar(b, s[1..])
      else if 0xC0 <= b < 0xE0 && |s| >= 2 && IsTail(s[1]) then
        Accept(b % 32 * 64 + Low(s[1]), 0x80, s[2..])
      else if 0xE0 <= b < 0xF0 && |s| >= 3 && IsTail(s[1]) && IsTail(s[2]) then
        Accept((b % 16 * 64 + Low(s[1])) * 64 + Low(s[2]), 0x800, s[3..])
      else if 0xF0 <= b < 0xF8 && |s| >= 4 && IsTail(s[1]) && IsTail(s[2]) && IsTail(s[3]) then
        Accept(((b % 8 * 64 + Low(s[1])) * 64 + Low(s[2])) * 64 + Low(s[3]), 0x10000, s[4..])
      else Invalid
  }

  function Accept(code: nat, least: nat, rest: string): Decoded {
    if least <= code && IsScalar(code) then Scalar(code, rest) else Invalid
  }

  lemma Split(high: nat, low: nat)
    requires low < 64
    ensures (high * 64 + low) / 64 == high && (high * 64 + low) % 64 == low
  {
  }

  lemma Join(n: nat)
    ensures n == n / 64 * 64 + n % 64 && n / 64 / 64 == n / 4096 && n / 4096 / 64 == n / 262144
  {
  }

  // The decoder on each length of encoding, by its payload.

  predicate Lead(c: char, mark: nat, payload: nat) {
    c as int == mark + payload
  }

  predicate Tail(c: char, payload: nat) {
    payload < 64 && c as int == 0x80 + payload
  }

  lemma TwoBytes(s: string, p1: nat, p0: nat)
    requires |s| >= 2 && p1 < 32 && Lead(s[0], 0xC0, p1) && Tail(s[1], p0)
    ensures Decode(s) == Accept(p1 * 64 + p0, 0x80, s[2..])
  {
    hide Accept;
  }

  lemma ThreeBytes(s: string, p2: nat, p1: nat, p0: nat)
    requires |s| >= 3 && p2 < 16 && Lead(s[0], 0xE0, p2) && Tail(s[1], p1) && Tail(s[2], p0)
    ensures Decode(s) == Accept((p2 * 64 + p1) * 64 + p0, 0x800, s[3..])
  {
    hide Accept;
  }

  lemma FourBytes(s: string, p3: nat, p2: nat, p1: nat, p0: nat)
    requires |s| >= 4 && p3 < 8 && Lead(s[0], 0xF0, p3) && Tail(s[1], p2) && Tail(s[2], p1) && Tail(s[3], p0)
    ensures Decode(s) == Accept(((p3 * 64 + p2) * 64 + p1) * 64 + p0, 0x10000, s[4..])
  {
    hide Accept;
  }

  /** Every scalar value is decoded from the bytes emitted for it, wherever they stand. */
  lemma Utf8Decodes(code: nat, rest: string)
    requires IsScalar(code)
    ensures Decode(Utf8(code) + rest) == Scalar(code, rest)
  {
    hide Decode;
    var s := Utf8(code) + rest;
    Join(code);
    Join(code / 64);
    if code < 0x80 {
      assert s[1..] == rest;
      OneByte(s);
    } else if code < 0x800 {
      assert s[2..] == rest;
      TwoBytes(s, code / 64, code % 64);
    } else if code < 0x10000 {
      assert s[3..] == rest;
      ThreeBytes(s, code / 4096, code / 64 % 64, code % 64);
    } else {
      Join(code / 4096);
      assert s[4..] == rest;
      FourBytes(s, code / 262144, code / 4096 % 64, code / 64 % 64, code % 64);
    }
  }

  lemma OneByte(s: string)
    requires s != "" && s[0] as int < 0x80
    ensures Decode(s) == Scalar(s[0] as int, s[1..])
  {
  }

  /** The only text that decodes to a scalar value is the one emitted for it. */
  lemma Utf8Unique(s: string)
    requires Decode(s).Scalar? && (forall i :: 0 <= i < |s| ==> s[i] as int < 256)
    ensures s == Utf8(Decode(s).code) + Decode(s).rest
  {
    hide Utf8, Decode;
    Shapes(s);
    var b := s[0] as int;
    if b < 0x80 {
      Emits1(b);
      OneByte(s);
      assert s == [s[0]] + s[1..];
    } else if b < 0xE0 {
      var p1, p0 := b - 0xC0, s[1] as int - 0x80;
      TwoBytes(s, p1, p0);
      Emits2(p1, p0);
      assert s == [s[0], s[1]] + s[2..];
    } else if b < 0xF0 {
      var p2, p1, p0 := b - 0xE0, s[1] as int - 0x80, s[2] as int - 0x80;
      ThreeBytes(s, p2, p1, p0);
      Emits3(p2, p1, p0);
      assert s == [s[0], s[1], s[2]] + s[3..];
    } else {
      var p3, p2, p1, p0 := b - 0xF0, s[1] as int - 0x80, s[2] as int - 0x80, s[3] as int - 0x80;
      FourBytes(s, p3, p2, p1, p0);
      Emits4(p3, p2, p1, p0);
      assert s == [s[0], s[1], s[2], s[3]] + s[4..];
    }
  }

  lemma Shapes(s: string)
    requires Decode(s).Scalar? && (forall i :: 0 <= i < |s| ==> s[i] as int < 256)
    ensures s != "" && var b := s[0] as int;
            && (b < 0x80 || 0xC0 <= b < 0xF8)
            && (0xC0 <= b ==> |s| >= 2 && IsTail(s[1]))
            && (0xE0 <= b ==> |s| >= 3 && IsTail(s[2]))
            && (0xF0 <= b ==> |s| >= 4 && IsTail(s[3]))
  {
    hide Accept, Low;
  }

  lemma Emits1(p0: nat)
    requires p0 < 0x80
    ensures Utf8(p0) == [p0 as char]
  {
  }

  lemma Emits2(p1: nat, p0: nat)
    requires p1 < 32 && p0 < 64 && 0x80 <= p1 * 64 + p0
    ensures Utf8(p1 * 64 + p0) == [(0xC0 + p1) as char, (0x80 + p0) as char]
  {
    Split(p1, p0);
  }

  lemma Emits3(p2: nat, p1: nat, p0: nat)
    requires p2 < 16 && p1 < 64 && p0 < 64 && 0x800 <= (p2 * 64 + p1) * 64 + p0
    ensures Utf8((p2 * 64 + p1) * 64 + p0) == [(0xE0 + p2) as char, (0x80 + p1) as char, (0x80 + p0) as char]
  {
    var n := (p2 * 64 + p1) * 64 + p0;
    Split(p2 * 64 + p1, p0);
    Split(p2, p1);
    Join(n);
  }

  lemma Emits4(p3: nat, p2: nat, p1: nat, p0: nat)
    requires p3 < 8 && p2 < 64 && p1 < 64 && p0 < 64 && 0x10000 <= ((p3 * 64 + p2) * 64 + p1) * 64 + p0 < 0x110000
    ensures Utf8(((p3 * 64 + p2) * 64 + p1) * 64 + p0)
      == [(0xF0 + p3) as char, (0x80 + p2) as char, (0x80 + p1) as char, (0x80 + p0) as char]
  {
    var n := ((p3 * 64 + p2) * 64 + p1) * 64 + p0;
    Split((p3 * 64 + p2) * 64 + p1, p0);
    Split(p3 * 64 + p2, p1);
    Split(p3, p2);
    Join(n);
  }

  /** The twelve characters that escape a code point beyond the basic plane. */
  function PairEscape(code: nat): string
    requires 0x10000 <= code < 0x110000
  {
    "\\u" + Hex4(0xD800 + (code - 0x10000) / 0x400) + "\\u" + Hex4(0xDC00 + (code - 0x10000) % 0x400)
  }

  /** A surrogate pair is read as its code point, and emitted as the UTF-8 of that code point. */
  lemma PairReads(code: nat, rest: string)
    requires 0x10000 <= code < 0x110000
    ensures ParseEscape((PairEscape(code) + rest)[1..]) == Ok(Utf8(code), rest)
  {
    hide Hex4, Utf8, ParseHex4, FourHexDigits;
    var high, low := 0xD800 + (code - 0x10000) / 0x400, 0xDC00 + (code - 0x10000) % 0x400;
    var second := "\\u" + (Hex4(low) + rest);
    var s := (PairEscape(code) + rest)[1..];
    assert s == "u" + (Hex4(high) + second);
    assert s[1..] == Hex4(high) + second && s[5..] == second;
    HexRoundTrip(high, second);
    assert second[2..] == Hex4(low) + rest && second[6..] == rest;
    HexRoundTrip(low, rest);
    assert high % 0x400 == (code - 0x10000) / 0x400 && low % 0x400 == (code - 0x10000) % 0x400;
    assert Combine(high, low) == code;
  }

  /** A \u escape of a code point in the basic plane, NUL and the surrogates apart. */
  lemma UnitReads(code: nat, rest: string)
    requires 0 < code < 0x10000 && IsScalar(code)
    ensures ParseEscape("u" + Hex4(code) + rest) == Ok(Utf8(code), rest)
  {
    hide Hex4, Utf8, ParseHex4, FourHexDigits;
    var s := "u" + Hex4(code) + rest;
    assert s[1..] == Hex4(code) + rest && s[5..] == rest;
    HexRoundTrip(code, rest);
  }
}
