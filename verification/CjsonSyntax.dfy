/** The grammar of RFC 8259 as trees: what their texts are, what they mean, and that cJSON.c reads, prints and minifies
    them so. Numbers are the integers. */
module CjsonSyntax {
  import opened CjsonText
  import opened CjsonProofs
  import opened CjsonMinify

  // ----- hexadecimal digits, in either case ---------------------------------------------------------------

  datatype Hex = Hex(digit: nat, upper: bool) {
    predicate Valid() {
      digit < 16
    }

    function Text(): char
      requires Valid()
    {
      if upper then "0123456789ABCDEF"[digit] else "0123456789abcdef"[digit]
    }
  }

  datatype FourHex = FourHex(a: Hex, b: Hex, c: Hex, d: Hex) {
    predicate Valid() {
      a.Valid() && b.Valid() && c.Valid() && d.Valid()
    }

    function Text(): (s: string)
      requires Valid()
      ensures |s| == 4
    {
      [a.Text(), b.Text(), c.Text(), d.Text()]
    }

    function Code(): (n: nat)
      requires Valid()
      ensures n < 0x10000
    {
      0x1000 * a.digit + 0x100 * b.digit + 0x10 * c.digit + d.digit
    }
  }

  lemma HexReads(h: Hex)
    requires h.Valid()
    ensures HexValue(h.Text()) == h.digit && h.Text() != QUOTE && h.Text() != BACKSLASH
  {
    var n := h.digit;
    if n < 10 {
      TenDigits(n);
    } else {
      SixLetters(n);
    }
  }

  lemma TenDigits(n: nat)
    requires n < 10
    ensures "0123456789ABCDEF"[n] == "0123456789abcdef"[n] == ('0' as int + n) as char
  {
  }

  lemma SixLetters(n: nat)
    requires 10 <= n < 16
    ensures "0123456789ABCDEF"[n] == ('A' as int + (n - 10)) as char
    ensures "0123456789abcdef"[n] == ('a' as int + (n - 10)) as char
  {
  }

  /** parse_hex4 reads four digits in any mixture of cases. */
  lemma FourHexReads(q: FourHex, rest: string)
    requires q.Valid()
    ensures FourHexDigits(q.Text() + rest) && ParseHex4(q.Text() + rest) == q.Code()
  {
    hide HexValue;
    var s := q.Text() + rest;
    HexReads(q.a);
    HexReads(q.b);
    HexReads(q.c);
    HexReads(q.d);
    assert s[0] == q.a.Text() && s[1] == q.b.Text() && s[2] == q.c.Text() && s[3] == q.d.Text();
  }

  // ----- strings ----------------------------------------------------------------------------------------------

  /** A character as it stands, one of the eight short escapes, a \u escape, or two that make a pair. */
  datatype Piece = Plain(c: char) | Short(c: char) | Unit(code: FourHex) | Pair(high: FourHex, low: FourHex) {
    predicate Valid() {
      match this
      case Plain(c) => 0x20 <= c as int < 0x100 && c != '\"' && c != '\\'
      case Short(c) => c in "\"\\/bfnrt"
      case Unit(code) => code.Valid() && 0 < code.Code() && !(0xD800 <= code.Code() < 0xE000)
      case Pair(high, low) => high.Valid() && low.Valid() && 0xD800 <= high.Code() < 0xDC00 <= low.Code() < 0xE000
    }

    function Text(): (s: string)
      requires Valid()
      ensures s != ""
    {
      match this
      case Plain(c) => [c]
      case Short(c) => "\\" + [c]
      case Unit(code) => "\\u" + code.Text()
      case Pair(high, low) => "\\u" + high.Text() + "\\u" + low.Text()
    }

    /** The bytes it stands for. */
    function Meaning(): string
      requires Valid()
    {
      match this
      case Plain(c) => [c]
      case Short(c) =>
        if c == 'b' then [8 as char] else if c == 't' then [9 as char] else if c == 'n' then [10 as char]
        else if c == 'f' then [12 as char] else if c == 'r' then [13 as char] else [c]
      case Unit(code) => Utf8(code.Code())
      case Pair(high, low) => Utf8(0x10000 + 0x400 * (high.Code() - 0xD800) + (low.Code() - 0xDC00))
    }
  }

  predicate ValidPieces(pieces: seq<Piece>) {
    forall i :: 0 <= i < |pieces| ==> pieces[i].Valid()
  }

  function PiecesText(pieces: seq<Piece>): string
    requires ValidPieces(pieces)
  {
    if pieces == [] then "" else pieces[0].Text() + PiecesText(pieces[1..])
  }

  function PiecesMeaning(pieces: seq<Piece>): string
    requires ValidPieces(pieces)
  {
    if pieces == [] then "" else pieces[0].Meaning() + PiecesMeaning(pieces[1..])
  }

  lemma EscapeMeans(p: Piece, rest: string)
    requires p.Valid() && !p.Plain?
    ensures p.Text()[0] == BACKSLASH && ParseEscape((p.Text() + rest)[1..]) == Ok(p.Meaning(), rest)
  {
    hide ParseEscape, Piece.Meaning, Piece.Text;
    match p
    case Plain(_) =>
    case Short(c) =>
      ShortText(p, rest);
      ShortMeans(p, rest);
    case Unit(code) =>
      UnitText(p, rest);
      UnitMeans(code, rest);
    case Pair(high, low) =>
      PairText(p, rest);
      PairMeans(high, low, rest);
  }

  lemma ShortText(p: Piece, rest: string)
    requires p.Short? && p.Valid()
    ensures p.Text()[0] == BACKSLASH && (p.Text() + rest)[1..] == [p.c] + rest
  {
  }

  lemma UnitText(p: Piece, rest: string)
    requires p.Unit? && p.Valid()
    ensures p.Text()[0] == BACKSLASH && (p.Text() + rest)[1..] == "u" + (p.code.Text() + rest)
  {
    hide FourHex.Text;
  }

  lemma PairText(p: Piece, rest: string)
    requires p.Pair? && p.Valid()
    ensures p.Text()[0] == BACKSLASH
    ensures (p.Text() + rest)[1..] == "u" + (p.high.Text() + ("\\u" + (p.low.Text() + rest)))
  {
    hide FourHex.Text;
    assert "\\u" + p.high.Text() + "\\u" + p.low.Text() + rest == "\\u" + (p.high.Text() + ("\\u" + (p.low.Text() + rest)));
  }

  lemma ShortMeans(p: Piece, rest: string)
    requires p.Short? && p.Valid()
    ensures ParseEscape([p.c] + rest) == Ok(p.Meaning(), rest)
  {
    assert ([p.c] + rest)[1..] == rest;
  }

  lemma UnitMeans(code: FourHex, rest: string)
    requires Unit(code).Valid()
    ensures ParseEscape("u" + (code.Text() + rest)) == Ok(Unit(code).Meaning(), rest)
  {
    hide Utf8, ParseHex4, FourHexDigits, FourHex.Text, FourHex.Code;
    var s := "u" + (code.Text() + rest);
    assert s[1..] == code.Text() + rest && s[5..] == rest;
    FourHexReads(code, rest);
  }

  lemma PairMeans(high: FourHex, low: FourHex, rest: string)
    requires Pair(high, low).Valid()
    ensures ParseEscape("u" + (high.Text() + ("\\u" + (low.Text() + rest)))) == Ok(Pair(high, low).Meaning(), rest)
  {
    hide Utf8, ParseHex4, FourHexDigits, FourHex.Text, FourHex.Code;
    var second := "\\u" + (low.Text() + rest);
    var s := "u" + (high.Text() + second);
    assert s[1..] == high.Text() + second && s[5..] == second;
    FourHexReads(high, second);
    assert second[2..] == low.Text() + rest && second[6..] == rest;
    FourHexReads(low, rest);
    assert high.Code() % 0x400 == high.Code() - 0xD800 && low.Code() % 0x400 == low.Code() - 0xDC00;
  }

  /** parse_string gives the bytes that the pieces stand for. */
  lemma {:induction false} PiecesRead(pieces: seq<Piece>, rest: string)
    requires ValidPieces(pieces)
    ensures ParseChars(PiecesText(pieces) + "\"" + rest) == Ok(PiecesMeaning(pieces), rest)
  {
    hide Piece.Text, Piece.Meaning, ParseEscape;
    if pieces == [] {
      assert PiecesText(pieces) + "\"" + rest == "\"" + rest;
    } else {
      var p, tail := pieces[0], PiecesText(pieces[1..]) + "\"" + rest;
      assert PiecesText(pieces) + "\"" + rest == p.Text() + tail;
      PiecesRead(pieces[1..], rest);
      if p.Plain? {
        PlainIs(p);
        assert ([p.c] + tail)[1..] == tail;
      } else {
        EscapeMeans(p, tail);
      }
    }
  }

  lemma PlainIs(p: Piece)
    requires p.Valid() && p.Plain?
    ensures p.Text() == p.Meaning() == [p.c] && p.c != QUOTE && p.c != BACKSLASH
  {
  }

  // ----- what is no escape of the grammar -----------------------------------------------------------------------

  /** One escape in front of the rest of a literal. */
  lemma EscapeInFront(e: string, bytes: string, rest: string)
    requires e != "" && e[0] == BACKSLASH && ParseEscape((e + rest)[1..]) == Ok(bytes, rest)
    ensures ParseChars(e + rest) == match ParseChars(rest) case Ok(out, tail) => Ok(bytes + out, tail) case other => other
  {
    hide ParseEscape;
  }

  /** NUL and a second half without a first are left out. */
  lemma HalfIsDropped(q: FourHex, rest: string)
    requires q.Valid() && (q.Code() == 0 || 0xDC00 <= q.Code() < 0xE000)
    ensures ParseChars("\\u" + q.Text() + rest) == ParseChars(rest)
  {
    hide ParseChars, ParseHex4, FourHexDigits, FourHex.Text, FourHex.Code, Utf8;
    var e := "\\u" + q.Text();
    assert (e + rest)[1..] == "u" + (q.Text() + rest);
    UnitBytes(q, rest);
    EscapeInFront(e, "", rest);
    NothingInFront(ParseChars(rest));
  }

  lemma UnitBytes(q: FourHex, rest: string)
    requires q.Valid() && (q.Code() == 0 || 0xDC00 <= q.Code() < 0xE000)
    ensures ParseEscape("u" + (q.Text() + rest)) == Ok("", rest)
  {
    hide Utf8, ParseHex4, FourHexDigits, FourHex.Text, FourHex.Code;
    var s := "u" + (q.Text() + rest);
    assert s[1..] == q.Text() + rest && s[5..] == rest;
    FourHexReads(q, rest);
  }

  lemma NothingInFront(p: Parse<string>)
    ensures p == match p case Ok(out, tail) => Ok("" + out, tail) case other => other
  {
    if p.Ok? {
      assert "" + p.value == p.value;
    }
  }

  /** A first half is left out when no second one follows, and so is the escape that follows instead. */
  lemma FirstHalfIsDropped(q: FourHex, rest: string)
    requires q.Valid() && 0xD800 <= q.Code() < 0xDC00 && !("\\u" <= rest)
    ensures ParseChars("\\u" + q.Text() + rest) == ParseChars(rest)
  {
    hide ParseChars, ParseHex4, FourHexDigits, FourHex.Text, FourHex.Code, Utf8;
    var e := "\\u" + q.Text();
    var s := "u" + (q.Text() + rest);
    assert (e + rest)[1..] == s;
    assert s[1..] == q.Text() + rest && s[5..] == rest;
    FourHexReads(q, rest);
    EscapeInFront(e, "", rest);
    NothingInFront(ParseChars(rest));
  }

  lemma WrongPairIsDropped(q: FourHex, r: FourHex, rest: string)
    requires q.Valid() && r.Valid() && 0xD800 <= q.Code() < 0xDC00 && !(0xDC00 <= r.Code() < 0xE000)
    ensures ParseChars("\\u" + q.Text() + "\\u" + r.Text() + rest) == ParseChars(rest)
  {
    hide ParseChars, ParseHex4, FourHexDigits, FourHex.Text, FourHex.Code, Utf8;
    var e := "\\u" + q.Text() + "\\u" + r.Text();
    var second := "\\u" + (r.Text() + rest);
    var s := "u" + (q.Text() + second);
    assert (e + rest)[1..] == s;
    assert s[1..] == q.Text() + second && s[5..] == second;
    FourHexReads(q, second);
    assert second[2..] == r.Text() + rest && second[6..] == rest;
    FourHexReads(r, rest);
    EscapeInFront(e, "", rest);
    NothingInFront(ParseChars(rest));
  }

  /** Any other character behind a backslash stands for itself. */
  lemma OtherEscape(c: char, rest: string)
    requires c !in "bfnrtu"
    ensures ParseChars("\\" + [c] + rest) == match ParseChars(rest) case Ok(out, tail) => Ok([c] + out, tail) case other => other
  {
    hide ParseChars, FourHexDigits;
    var e := "\\" + [c];
    assert (e + rest)[1..] == [c] + rest && ([c] + rest)[1..] == rest;
    EscapeInFront(e, [c], rest);
  }

  function StringText(pieces: seq<Piece>): string
    requires ValidPieces(pieces)
  {
    "\"" + PiecesText(pieces) + "\""
  }

  lemma StringReads(pieces: seq<Piece>, rest: string)
    requires ValidPieces(pieces)
    ensures ParseString(StringText(pieces) + rest) == Ok(PiecesMeaning(pieces), rest)
    ensures ParseValue(StringText(pieces) + rest) == Ok(String(PiecesMeaning(pieces)), rest)
  {
    hide ParseChars, ParseValue;
    var text := StringText(pieces) + rest;
    assert text[1..] == PiecesText(pieces) + "\"" + rest;
    PiecesRead(pieces, rest);
    StringIs(text, PiecesMeaning(pieces), rest);
  }

  // ----- numbers ------------------------------------------------------------------------------------------------

  predicate ValidDigits(digits: seq<nat>) {
    digits != [] && (forall i :: 0 <= i < |digits| ==> digits[i] < 10) && (digits[0] == 0 ==> |digits| == 1)
  }

  function DigitsText(digits: seq<nat>): (s: string)
    requires forall i :: 0 <= i < |digits| ==> digits[i] < 10
    ensures |s| == |digits|
  {
    seq(|digits|, i requires 0 <= i < |digits| => "0123456789"[digits[i]])
  }

  function DigitsValue(digits: seq<nat>): nat {
    if digits == [] then 0 else 10 * DigitsValue(digits[..|digits| - 1]) + digits[|digits| - 1]
  }

  lemma {:induction false} DigitsParse(digits: seq<nat>, rest: string)
    requires forall i :: 0 <= i < |digits| ==> digits[i] < 10
    ensures ParseDigits(DigitsText(digits) + rest, 0) == ParseDigits(rest, DigitsValue(digits))
    decreases |digits|
  {
    if digits == [] {
      assert DigitsText(digits) + rest == rest;
    } else {
      var n := |digits| - 1;
      var last := "0123456789"[digits[n]];
      OneDigit(digits[n]);
      assert DigitsText(digits) + rest == DigitsText(digits[..n]) + ([last] + rest);
      DigitsParse(digits[..n], [last] + rest);
      assert ([last] + rest)[1..] == rest;
    }
  }

  lemma OneDigit(d: nat)
    requires d < 10
    ensures "0123456789"[d] == ('0' as int + d) as char
  {
  }

  function NumberText(negative: bool, digits: seq<nat>): string
    requires ValidDigits(digits)
  {
    (if negative then "-" else "") + DigitsText(digits)
  }

  function NumberMeaning(negative: bool, digits: seq<nat>): int {
    if negative then -(DigitsValue(digits) as int) else DigitsValue(digits) as int
  }

  lemma LeadingUpTo(digits: seq<nat>, rest: string)
    requires ValidDigits(digits) && (rest == "" || !IsDigit(rest[0]))
    ensures var s1 := DigitsText(digits) + rest;
            var s2 := if StartsWith(s1, '0') then s1[1..] else s1;
            s1 != "" && IsDigit(s1[0]) && LeadingDigits(s2) == (DigitsValue(digits), rest)
  {
    hide DigitsValue;
    var s1 := DigitsText(digits) + rest;
    OneDigit(digits[0]);
    assert s1[0] == DigitsText(digits)[0];
    DigitsParse(digits, rest);
    if digits[0] == 0 {
      assert digits == [0] && s1[1..] == rest;
      ZeroValue();
    }
  }

  /** parse_number gives the decimal value. */
  lemma NumberReads(negative: bool, digits: seq<nat>, rest: string)
    requires ValidDigits(digits) && INT_MIN <= NumberMeaning(negative, digits) <= INT_MAX && Follow(rest)
    ensures ParseNumber(NumberText(negative, digits) + rest) == Ok(Number(NumberMeaning(negative, digits)), rest)
    ensures ParseValue(NumberText(negative, digits) + rest) == Ok(Number(NumberMeaning(negative, digits)), rest)
  {
    hide ParseValue, LeadingDigits, DigitsValue, DigitsText;
    var s := NumberText(negative, digits) + rest;
    var s1 := DigitsText(digits) + rest;
    LeadingUpTo(digits, rest);
    if negative {
      assert s == "-" + s1 && s[1..] == s1;
    } else {
      assert s == "" + s1 == s1;
    }
    NumberIs(s, NumberMeaning(negative, digits), rest);
  }

  /** What has a fraction or an exponent, or is beyond 32 bits, is not taken for an integer. */
  lemma NotAnInteger(negative: bool, digits: seq<nat>, rest: string)
    requires ValidDigits(digits)
    requires if rest != "" && rest[0] in ".eE" then rest[0] == '.' ==> |rest| >= 2 && IsDigit(rest[1])
             else Follow(rest) && !(INT_MIN <= NumberMeaning(negative, digits) <= INT_MAX)
    ensures ParseNumber(NumberText(negative, digits) + rest) == Unmodelled
  {
    hide LeadingDigits, DigitsValue, DigitsText;
    var s := NumberText(negative, digits) + rest;
    var s1 := DigitsText(digits) + rest;
    LeadingUpTo(digits, rest);
    if negative {
      assert s == "-" + s1 && s[1..] == s1;
    } else {
      assert s == "" + s1 == s1;
    }
  }

  lemma ZeroValue()
    ensures DigitsValue([0]) == 0
  {
    assert [0][..0] == [];
  }
}
