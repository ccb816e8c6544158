/** cJSON_Minify on every text that cJSON_Parse accepts in full. */
module CjsonMeaning {
  // The minified text is read as the same value, and the minifier runs off the end exactly when the text
  // is one open string literal.
  import opened CjsonText
  import opened CjsonProofs
  import opened CjsonMinify

  // ----- what parsing skips but minifying may keep ----------------------------------------------

  /** Everything the parser skips: blanks and control characters. */
  predicate Soft(w: string) {
    forall i :: 0 <= i < |w| ==> w[i] as int <= 32
  }

  lemma {:induction false} SkipSoft(w: string, s: string)
    requires Soft(w)
    ensures Skip(w + s) == Skip(s)
  {
    if w == "" {
      assert w + s == s;
    } else {
      assert (w + s)[1..] == w[1..] + s;
      SkipSoft(w[1..], s);
    }
  }

  lemma {:induction false} SoftKept(s: string) returns (w: string)
    ensures Soft(w) && Minify(s) == Prepend(w, Minify(Skip(s)))
  {
    if s != "" && s[0] as int <= 32 {
      var w1 := SoftKept(s[1..]);
      w := if IsBlank(s[0]) then w1 else s[..1] + w1;
      PrependTwice(s[..1], w1, Minify(Skip(s)));
    } else {
      w := "";
      PrependNothing(Minify(s));
    }
  }

  // ----- literals -----------------------------------------------------------------------------

  /** Seen from inside a literal, its closing quote is missing. */
  predicate Unclosed(s: string) {
    if s == "" then true
    else if s[0] == QUOTE then false
    else if s[0] != BACKSLASH then Unclosed(s[1..])
    else if |s| == 1 then true
    else Unclosed(s[2..])
  }

  predicate Inside(t: string) {
    forall i :: 0 <= i < |t| ==> t[i] != QUOTE && t[i] != BACKSLASH
  }

  lemma {:induction false} InsideUnclosed(t: string, rest: string)
    requires Inside(t)
    ensures Unclosed(t + rest) == Unclosed(rest)
  {
    if t == "" {
      assert t + rest == rest;
    } else {
      assert (t + rest)[1..] == t[1..] + rest;
      InsideUnclosed(t[1..], rest);
    }
  }

  /** An escape written out keeps both readings of what follows it. */
  lemma WholeEscape(t: string, rest: string)
    requires |t| >= 2 && t[0] == BACKSLASH && Inside(t[2..])
    ensures MinifyLiteral(t + rest) == Prepend(t, MinifyLiteral(rest))
    ensures Unclosed(t + rest) == Unclosed(rest)
  {
    hide MinifyLiteral;
    assert forall i :: 2 <= i < |t| ==> t[i] == t[2..][i - 2];
    EscapeStays(t, rest);
    assert (t + rest)[2..] == t[2..] + rest;
    InsideUnclosed(t[2..], rest);
  }

  lemma HexIsHarmless(s: string)
    requires FourHexDigits(s)
    ensures Inside(s[..4])
  {
  }

  /** The characters parse_string takes for one escape, backslash included. */
  lemma EscapeTaken(s: string) returns (e: string)
    requires ParseEscape(s).Ok?
    ensures e != "" && s == e + ParseEscape(s).rest
    ensures MinifyLiteral([BACKSLASH] + s) == Prepend([BACKSLASH] + e, MinifyLiteral(ParseEscape(s).rest))
    ensures Unclosed([BACKSLASH] + s) == Unclosed(ParseEscape(s).rest)
  {
    hide MinifyLiteral, Unclosed, ParseHex4, Utf8;
    var tail := ParseEscape(s).rest;
    if s[0] != 'u' {
      e := s[..1];
      assert s == e + tail;
      assert [BACKSLASH] + s == ([BACKSLASH] + e) + tail;
      WholeEscape([BACKSLASH] + e, tail);
    } else {
      var one, rest := s[..5], s[5..];
      HexIsHarmless(s[1..]);
      assert one[1..] == s[1..][..4];
      assert ([BACKSLASH] + one)[2..] == one[1..];
      assert [BACKSLASH] + s == ([BACKSLASH] + one) + rest;
      WholeEscape([BACKSLASH] + one, rest);
      if tail == rest {
        e := one;
      } else {
        assert rest[0] == BACKSLASH && FourHexDigits(rest[2..]) && tail == rest[6..];
        var two := rest[..6];
        HexIsHarmless(rest[2..]);
        assert two[2..] == rest[2..][..4];
        assert rest == two + tail;
        WholeEscape(two, tail);
        e := one + two;
        PrependTwice([BACKSLASH] + one, two, MinifyLiteral(tail));
        assert [BACKSLASH] + e == ([BACKSLASH] + one) + two;
      }
    }
  }

  /** One escape is read the same before any text that goes on like the one it was read before. */
  lemma EscapeLocal(e: string, t: string, u: string)
    requires e != "" && ParseEscape(e + t).Ok? && ParseEscape(e + t).rest == t
    requires t != "" && u != "" && t[0] == u[0]
    requires t[0] == BACKSLASH ==> |t| >= 2 && |u| >= 2 && t[1] == u[1]
    ensures ParseEscape(e + u) == Ok(ParseEscape(e + t).value, u)
  {
    hide ParseHex4, Utf8;
    var s, r := e + t, e + u;
    assert s[|e|..] == t && r[|e|..] == u;
    if s[0] == 'u' {
      if |e| == 5 {
        assert s[1..][..4] == r[1..][..4];
        SameHex(s[1..], r[1..]);
      } else {
        assert |e| == 11;
        assert s[1..][..4] == r[1..][..4] && s[5..][2..][..4] == r[5..][2..][..4];
        SameHex(s[1..], r[1..]);
        SameHex(s[5..][2..], r[5..][2..]);
        assert r[5..][6..] == u;
      }
    }
  }

  lemma SameHex(s: string, r: string)
    requires FourHexDigits(s) && |r| >= 4 && s[..4] == r[..4]
    ensures FourHexDigits(r) && ParseHex4(s) == ParseHex4(r)
  {
    assert forall i :: 0 <= i < 4 ==> s[i] == s[..4][i] && r[i] == r[..4][i];
  }

  ghost predicate ReadsChars(m: string, out: string, rest: string) {
    ParseChars(m + rest) == Ok(out, rest)
  }

  /** A closed literal stays as it is and is read as before; an open one is what both run out of. */
  lemma {:induction false} CharsKept(s: string) returns (m: string)
    requires ParseChars(s).Ok?
    ensures Unclosed(s) ==> ParseChars(s).rest == "" && MinifyLiteral(s) == Overrun
    ensures !Unclosed(s) ==> s == m + ParseChars(s).rest && m != "" && (m[0] == BACKSLASH ==> |m| >= 2)
    ensures !Unclosed(s) ==> MinifyLiteral(s) == Prepend(m, Minify(ParseChars(s).rest))
    ensures !Unclosed(s) ==> forall rest :: ReadsChars(m, ParseChars(s).value, rest)
    decreases |s|
  {
    hide Minify, ParseEscape;
    if s == "" {
      m := "";
    } else if s[0] == QUOTE {
      m := s[..1];
      forall rest ensures ReadsChars(m, "", rest) {
        assert (m + rest)[1..] == rest;
      }
    } else if s[0] != BACKSLASH {
      var m1 := CharsKept(s[1..]);
      m := s[..1] + m1;
      if !Unclosed(s[1..]) {
        var r := ParseChars(s[1..]);
        PrependTwice(s[..1], m1, Minify(r.rest));
        forall rest ensures ReadsChars(m, ParseChars(s).value, rest) {
          assert ReadsChars(m1, r.value, rest);
          assert (m + rest)[1..] == m1 + rest;
        }
      }
    } else {
      m := EscapedKept(s);
    }
  }

  lemma {:induction false} EscapedKept(s: string) returns (m: string)
    requires s != "" && s[0] == BACKSLASH && ParseChars(s).Ok?
    ensures Unclosed(s) ==> ParseChars(s).rest == "" && MinifyLiteral(s) == Overrun
    ensures !Unclosed(s) ==> s == m + ParseChars(s).rest && m != "" && (m[0] == BACKSLASH ==> |m| >= 2)
    ensures !Unclosed(s) ==> MinifyLiteral(s) == Prepend(m, Minify(ParseChars(s).rest))
    ensures !Unclosed(s) ==> forall rest :: ReadsChars(m, ParseChars(s).value, rest)
    decreases |s|, 0
  {
    hide Minify, ParseEscape, MinifyLiteral, Unclosed;
    var escape := ParseEscape(s[1..]);
    assert s == [BACKSLASH] + s[1..];
    var e := EscapeTaken(s[1..]);
    var t := escape.rest;
    var m1 := CharsKept(t);
    m := [BACKSLASH] + e + m1;
    if !Unclosed(s) {
      var r := ParseChars(t);
      PrependTwice([BACKSLASH] + e, m1, Minify(r.rest));
      forall rest ensures ReadsChars(m, ParseChars(s).value, rest) {
        assert ReadsChars(m1, r.value, rest);
        EscapeLocal(e, t, m1 + rest);
        assert (m + rest)[1..] == e + (m1 + rest);
      }
    }
  }

  // ----- numbers ------------------------------------------------------------------------------

  ghost predicate ReadsDigits(d: string, from: nat, n: nat, rest: string) {
    ParseDigits(d + rest, from) == (n, rest)
  }

  lemma {:induction false} DigitsTaken(s: string, from: nat) returns (d: string)
    ensures s == d + ParseDigits(s, from).1 && (forall i :: 0 <= i < |d| ==> IsDigit(d[i]))
    ensures s != "" && IsDigit(s[0]) ==> d != "" && d[0] == s[0]
    ensures forall rest | Follow(rest) :: ReadsDigits(d, from, ParseDigits(s, from).0, rest)
    decreases |s|
  {
    if s != "" && IsDigit(s[0]) {
      var next := from * 10 + (s[0] as int - '0' as int);
      var d1 := DigitsTaken(s[1..], next);
      d := s[..1] + d1;
      forall rest | Follow(rest) ensures ReadsDigits(d, from, ParseDigits(s, from).0, rest) {
        assert ReadsDigits(d1, next, ParseDigits(s, from).0, rest);
        assert (d + rest)[1..] == d1 + rest;
      }
    } else {
      d := "";
      forall rest | Follow(rest) ensures ReadsDigits(d, from, from, rest) {
        assert d + rest == rest;
      }
    }
  }

  ghost predicate ReadsNumber(m: string, v: Json, rest: string) {
    ParseNumber(m + rest) == Ok(v, rest)
  }

  /** parse_number over the parts of a number. */
  lemma NumberParts(sign: string, zero: string, s2: string)
    requires sign == "" || sign == "-"
    requires zero == "" || zero == "0"
    requires sign == "" ==> !StartsWith(zero + s2, '-')
    requires zero == "" ==> !StartsWith(s2, '0')
    ensures ParseNumber(sign + (zero + s2)) == Numeral(sign == "-", LeadingDigits(s2).0, LeadingDigits(s2).1)
  {
    hide Numeral, LeadingDigits;
    var s1 := zero + s2;
    assert (sign + s1)[|sign|..] == s1 && s1[|zero|..] == s2;
    assert StartsWith(sign + s1, '-') == (sign == "-");
    assert StartsWith(s1, '0') == (zero == "0");
  }

  lemma LeadingTaken(s: string) returns (d: string)
    ensures s == d + LeadingDigits(s).1 && (forall i :: 0 <= i < |d| ==> IsDigit(d[i]))
    ensures s != "" && '1' <= s[0] <= '9' ==> d != "" && d[0] == s[0]
    ensures s == "" || !('1' <= s[0] <= '9') ==> d == ""
    ensures forall rest | Follow(rest) :: ReadsLeading(d, LeadingDigits(s).0, rest)
  {
    hide ParseDigits;
    if s != "" && '1' <= s[0] <= '9' {
      d := DigitsTaken(s, 0);
      forall rest | Follow(rest) ensures ReadsLeading(d, LeadingDigits(s).0, rest) {
        assert ReadsDigits(d, 0, ParseDigits(s, 0).0, rest);
        assert (d + rest)[0] == d[0];
      }
    } else {
      d := "";
      forall rest | Follow(rest) ensures ReadsLeading(d, 0, rest) {
        assert d + rest == rest;
      }
    }
  }

  ghost predicate ReadsLeading(d: string, n: nat, rest: string) {
    LeadingDigits(d + rest) == (n, rest)
  }

  lemma NumeralBefore(negative: bool, n: nat, tail: string, rest: string)
    requires Numeral(negative, n, tail).Ok? && Follow(rest)
    ensures Numeral(negative, n, rest) == Ok(Numeral(negative, n, tail).value, rest)
  {
  }

  /** Sign and leading zero of a number. */
  lemma NumberSplit(s: string) returns (sign: string, zero: string, s2: string)
    requires s != "" && (s[0] == '-' || IsDigit(s[0]))
    ensures s == sign + (zero + s2)
    ensures sign == "" || sign == "-"
    ensures zero == "" || zero == "0"
    ensures sign == "" ==> !StartsWith(zero + s2, '-') && (zero == "" ==> s2 != "" && '1' <= s2[0] <= '9')
    ensures zero == "" ==> !StartsWith(s2, '0')
  {
    sign := if StartsWith(s, '-') then "-" else "";
    var s1 := s[|sign|..];
    zero := if StartsWith(s1, '0') then "0" else "";
    s2 := s1[|zero|..];
  }

  lemma NumberAgain(sign: string, zero: string, s2: string, d: string, rest: string)
    requires sign == "" || sign == "-"
    requires zero == "" || zero == "0"
    requires sign == "" ==> !StartsWith(zero + s2, '-') && (zero == "" ==> s2 != "" && '1' <= s2[0] <= '9')
    requires zero == "" ==> !StartsWith(s2, '0')
    requires if s2 != "" && '1' <= s2[0] <= '9' then d != "" && d[0] == s2[0] else d == ""
    requires ParseNumber(sign + (zero + s2)).Ok? && Follow(rest) && ReadsLeading(d, LeadingDigits(s2).0, rest)
    ensures ReadsNumber(sign + zero + d, ParseNumber(sign + (zero + s2)).value, rest)
  {
    hide ParseNumber, LeadingDigits, Numeral;
    var r2 := d + rest;
    NumberParts(sign, zero, s2);
    assert sign + zero + d + rest == sign + (zero + r2);
    assert d != "" ==> r2[0] == d[0];
    NumberParts(sign, zero, r2);
    NumeralBefore(sign == "-", LeadingDigits(s2).0, LeadingDigits(s2).1, rest);
  }

  lemma NumberTaken(s: string) returns (m: string)
    requires ParseNumber(s).Ok? && s != "" && (s[0] == '-' || IsDigit(s[0]))
    ensures s == m + ParseNumber(s).rest && Plain(m) && m != "" && m[0] == s[0]
    ensures forall rest | Follow(rest) :: ReadsNumber(m, ParseNumber(s).value, rest)
  {
    hide ParseNumber, LeadingDigits, Numeral, Follow, ReadsNumber, ReadsLeading;
    var sign, zero, s2 := NumberSplit(s);
    var d := LeadingTaken(s2);
    NumberParts(sign, zero, s2);
    m := sign + zero + d;
    assert s == m + ParseNumber(s).rest;
    forall rest | Follow(rest) ensures ReadsNumber(m, ParseNumber(s).value, rest) {
      assert ReadsLeading(d, LeadingDigits(s2).0, rest);
      NumberAgain(sign, zero, s2, d, rest);
    }
  }

  // ----- values -------------------------------------------------------------------------------

  /** The text is one string literal without its closing quote. */
  predicate OpenLiteral(s: string) {
    StartsWith(s, QUOTE) && Unclosed(s[1..])
  }

  ghost predicate ReadsValue(m: string, v: Json, rest: string) {
    ParseValue(m + rest) == Ok(v, rest)
  }

  ghost predicate Reads(m: string, v: Json) {
    m != "" && m[0] as int > 32 && forall rest | Follow(rest) :: ReadsValue(m, v, rest)
  }

  ghost predicate ReadsItems(m: string, items: seq<Json>, rest: string) {
    ParseItems(m + rest) == Ok(items, rest)
  }

  ghost predicate ReadsMember(m: string, member: Member, rest: string) {
    ParseMember(m + rest) == Ok(member, rest)
  }

  ghost predicate ReadsMembers(m: string, members: seq<Member>, rest: string) {
    ParseMembers(m + rest) == Ok(members, rest)
  }

  lemma LiteralKept(s: string, word: string, v: Json) returns (m: string)
    requires (word == "null" && v == Null) || (word == "false" && v == False) || (word == "true" && v == True)
    requires word <= s
    ensures ParseValue(s) == Ok(v, s[|word|..]) && Minify(s) == Prepend(m, Minify(s[|word|..])) && Reads(m, v)
  {
    hide Minify, ParseValue;
    m := word;
    assert s == word + s[|word|..];
    LiteralIs(s, s[|word|..]);
    PlainStays(word, s[|word|..]);
    forall rest | Follow(rest) ensures ReadsValue(m, v, rest) {
      LiteralIs(m + rest, rest);
    }
  }

  lemma StringKept(s: string) returns (m: string)
    requires StartsWith(s, QUOTE) && ParseString(s).Ok?
    ensures Unclosed(s[1..]) ==> ParseString(s).rest == "" && Minify(s) == Overrun
    ensures !Unclosed(s[1..]) ==> Minify(s) == Prepend(m, Minify(ParseString(s).rest)) && StartsWith(m, QUOTE)
    ensures !Unclosed(s[1..]) ==> forall rest :: ParseString(m + rest) == Ok(ParseString(s).value, rest)
  {
    hide Minify, MinifyLiteral, ParseChars, Unclosed;
    var m1 := CharsKept(s[1..]);
    m := [QUOTE] + m1;
    assert s == [QUOTE] + s[1..];
    OpeningStays(s[1..]);
    if !Unclosed(s[1..]) {
      PrependTwice([QUOTE], m1, Minify(ParseString(s).rest));
      forall rest ensures ParseString(m + rest) == Ok(ParseString(s).value, rest) {
        assert ReadsChars(m1, ParseChars(s[1..]).value, rest);
        assert (m + rest)[1..] == m1 + rest;
      }
    }
  }

  /** One value: what the minifier leaves of its text reads as the same value. */
  lemma {:induction false} ValueKept(s: string) returns (m: string)
    requires ParseValue(s).Ok?
    ensures OpenLiteral(s) ==> ParseValue(s).rest == "" && Minify(s) == Overrun
    ensures !OpenLiteral(s) ==> Minify(s) == Prepend(m, Minify(ParseValue(s).rest)) && Reads(m, ParseValue(s).value)
    decreases |s|, 1
  {
    hide Minify, ParseNumber, ParseString, ParseItems, ParseMembers, Skip, Unclosed;
    if "null" <= s {
      m := LiteralKept(s, "null", Null);
    } else if "false" <= s {
      m := LiteralKept(s, "false", False);
    } else if "true" <= s {
      m := LiteralKept(s, "true", True);
    } else if s[0] == QUOTE {
      m := StringKept(s);
      if !OpenLiteral(s) {
        forall rest | Follow(rest) ensures ReadsValue(m, ParseValue(s).value, rest) {
          StringIs(m + rest, ParseString(s).value, rest);
        }
      }
    } else if s[0] == '-' || IsDigit(s[0]) {
      m := NumberTaken(s);
      PlainStays(m, ParseNumber(s).rest);
      forall rest | Follow(rest) ensures ReadsValue(m, ParseValue(s).value, rest) {
        assert ReadsNumber(m, ParseNumber(s).value, rest);
        NumberIs(m + rest, ParseNumber(s).value.n, rest);
      }
    } else if StartsWith(Skip(s[1..]), ']') || StartsWith(Skip(s[1..]), '}') {
      m := EmptyKept(s);
    } else if s[0] == '[' {
      m := ArrayKept(s);
    } else {
      m := ObjectKept(s);
    }
  }

  lemma EmptyKept(s: string) returns (m: string)
    requires ParseValue(s).Ok?
    requires StartsWith(s, '[') || StartsWith(s, '{')
    requires StartsWith(Skip(s[1..]), ']') || StartsWith(Skip(s[1..]), '}')
    ensures Minify(s) == Prepend(m, Minify(ParseValue(s).rest)) && Reads(m, ParseValue(s).value)
  {
    hide Minify, ParseValue, ParseItems, ParseMembers, Skip;
    var open, next := s[..1], Skip(s[1..]);
    var close, tail := next[..1], next[1..];
    CloserFits(s);
    EmptyIs(s);
    var w := SoftKept(s[1..]);
    assert s == open + s[1..] && next == close + tail;
    PlainStays(open, s[1..]);
    PlainStays(close, tail);
    PrependTwice(w, close, Minify(tail));
    PrependTwice(open, w + close, Minify(tail));
    m := open + (w + close);
    forall rest | Follow(rest) ensures ReadsValue(m, ParseValue(s).value, rest) {
      var more := close + rest;
      assert (m + rest)[1..] == w + more;
      SkipSoft(w, more);
      SkipStays(more);
      assert more[1..] == rest;
      EmptyIs(m + rest);
    }
  }

  /** A bracket that closes nothing else is the one that closes this. */
  lemma CloserFits(s: string)
    requires ParseValue(s).Ok?
    ensures StartsWith(s, '[') ==> !StartsWith(Skip(s[1..]), '}')
    ensures StartsWith(s, '{') ==> !StartsWith(Skip(s[1..]), ']')
  {
    hide Skip, ParseString, ParseNumber;
    var next := if s == "" then "" else Skip(s[1..]);
    if StartsWith(next, '}') {
      assert ParseValue(next).Fail?;
    } else if StartsWith(next, ']') {
      NotAString(next);
      assert ParseMember(s[1..]).Fail?;
    }
  }

  lemma NotAString(s: string)
    requires !StartsWith(s, QUOTE)
    ensures ParseString(s).Fail?
  {
  }

  lemma {:induction false} ArrayKept(s: string) returns (m: string)
    requires StartsWith(s, '[') && ParseValue(s).Ok? && !StartsWith(Skip(s[1..]), ']')
    ensures Minify(s) == Prepend(m, Minify(ParseValue(s).rest)) && Reads(m, ParseValue(s).value)
    decreases |s|, 0
  {
    hide Minify, ParseItems, ParseMembers, Skip;
    var items := ParseItems(s[1..]).value;
    var m1 := ItemsKept(s[1..]);
    assert s == "[" + s[1..];
    PlainStays("[", s[1..]);
    PrependTwice("[", m1, Minify(ParseValue(s).rest));
    m := "[" + m1;
    forall rest | Follow(rest) ensures ReadsValue(m, ParseValue(s).value, rest) {
      assert ReadsItems(m1, items, rest);
      ItemsAreNoEnd(m1 + rest);
      assert (m + rest)[1..] == m1 + rest;
      ArrayIs(m + rest, items, m1 + rest, rest);
    }
  }

  lemma ItemsAreNoEnd(s: string)
    requires ParseItems(s).Ok?
    ensures !StartsWith(Skip(s), ']')
  {
    hide Skip, ParseNumber, ParseString, ParseMembers;
  }

  lemma MembersAreNoEnd(s: string)
    requires ParseMembers(s).Ok?
    ensures !StartsWith(Skip(s), '}')
  {
    hide Skip, ParseValue;
    if StartsWith(Skip(s), '}') {
      NotAString(Skip(s));
    }
  }

  lemma {:induction false} ObjectKept(s: string) returns (m: string)
    requires StartsWith(s, '{') && ParseValue(s).Ok? && !StartsWith(Skip(s[1..]), '}')
    ensures Minify(s) == Prepend(m, Minify(ParseValue(s).rest)) && Reads(m, ParseValue(s).value)
    decreases |s|, 0
  {
    hide Minify, ParseItems, ParseMembers, Skip;
    var members := ParseMembers(s[1..]).value;
    var m1 := MembersKept(s[1..]);
    assert s == "{" + s[1..];
    PlainStays("{", s[1..]);
    PrependTwice("{", m1, Minify(ParseValue(s).rest));
    m := "{" + m1;
    forall rest | Follow(rest) ensures ReadsValue(m, ParseValue(s).value, rest) {
      assert ReadsMembers(m1, members, rest);
      MembersAreNoEnd(m1 + rest);
      assert (m + rest)[1..] == m1 + rest;
      ObjectIs(m + rest, members, m1 + rest, rest);
    }
  }

  /** Soft characters and one separator between two values. */
  lemma SeparatorKept(tail: string, c: char) returns (w: string)
    requires StartsWith(Skip(tail), c) && c in ",:]}"
    ensures Soft(w) && Minify(tail) == Prepend(w + [c], Minify(Skip(tail)[1..]))
    ensures forall more :: Separates(w, c, more)
  {
    hide Minify, Skip;
    w := SoftKept(tail);
    var next := Skip(tail);
    assert next == [c] + next[1..];
    PlainStays([c], next[1..]);
    PrependTwice(w, [c], Minify(next[1..]));
    forall more ensures Separates(w, c, more) {
      var text := w + [c] + more;
      assert text == w + ([c] + more);
      SkipSoft(w, [c] + more);
      SkipStays([c] + more);
      assert ([c] + more)[1..] == more;
      assert text[0] == if w == "" then c else w[0];
    }
  }

  /** Before the separator a value ends, and after it the parser goes on with `more`. */
  ghost predicate Separates(w: string, c: char, more: string) {
    var text := w + [c] + more;
    Follow(text) && StartsWith(Skip(text), c) && Skip(text)[1..] == more
  }

  /** A value after soft characters. */
  lemma {:induction false} SpacedKept(s: string) returns (m: string)
    requires ParseValue(Skip(s)).Ok? && Skip(ParseValue(Skip(s)).rest) != ""
    ensures Minify(s) == Prepend(m, Minify(ParseValue(Skip(s)).rest))
    ensures forall rest | Follow(rest) :: ReadsSpaced(m, ParseValue(Skip(s)).value, rest)
    decreases |s|, 2
  {
    hide Minify, ParseValue, Skip;
    var w := SoftKept(s);
    var m0 := ValueKept(Skip(s));
    var r := ParseValue(Skip(s));
    SkipNothing();
    PrependTwice(w, m0, Minify(r.rest));
    m := w + m0;
    forall rest | Follow(rest) ensures ReadsSpaced(m, r.value, rest) {
      assert m + rest == w + (m0 + rest);
      SkipSoft(w, m0 + rest);
      SkipStays(m0 + rest);
      assert ReadsValue(m0, r.value, rest);
    }
  }

  lemma SkipNothing()
    ensures Skip("") == ""
  {
  }

  ghost predicate ReadsSpaced(m: string, v: Json, rest: string) {
    ParseValue(Skip(m + rest)) == Ok(v, rest)
  }

  lemma {:induction false} ItemsKept(s: string) returns (m: string)
    requires ParseItems(s).Ok?
    ensures Minify(s) == Prepend(m, Minify(ParseItems(s).rest))
    ensures forall rest :: ReadsItems(m, ParseItems(s).value, rest)
    decreases |s|, 3
  {
    hide Minify, ParseValue, Skip;
    var first := ParseValue(Skip(s));
    var m0 := SpacedKept(s);
    var next := Skip(first.rest);
    var r := ParseItems(s);
    if next[0] == ',' {
      var w := SeparatorKept(first.rest, ',');
      var m1 := ItemsKept(next[1..]);
      PrependTwice(w + ",", m1, Minify(r.rest));
      PrependTwice(m0, w + "," + m1, Minify(r.rest));
      m := m0 + (w + "," + m1);
      forall rest ensures ReadsItems(m, r.value, rest) {
        assert ReadsItems(m1, ParseItems(next[1..]).value, rest);
        assert Separates(w, ',', m1 + rest);
        var tail := w + "," + (m1 + rest);
        assert m + rest == m0 + tail;
        assert ReadsSpaced(m0, first.value, tail);
        ItemsGoOn(m + rest, first.value, tail, m1 + rest, r.value[1..], rest);
      }
    } else {
      var w := SeparatorKept(first.rest, ']');
      PrependTwice(m0, w + "]", Minify(r.rest));
      m := m0 + (w + "]");
      forall rest ensures ReadsItems(m, r.value, rest) {
        assert Separates(w, ']', rest);
        var tail := w + "]" + rest;
        assert m + rest == m0 + tail;
        assert ReadsSpaced(m0, first.value, tail);
        ItemsEnd(m + rest, first.value, tail);
      }
    }
  }

  lemma {:induction false} MemberKept(s: string) returns (m: string)
    requires ParseMember(s).Ok? && Skip(ParseMember(s).rest) != ""
    ensures Minify(s) == Prepend(m, Minify(ParseMember(s).rest))
    ensures forall rest | Follow(rest) :: ReadsMember(m, ParseMember(s).value, rest)
    decreases |s|, 3
  {
    hide Minify, ParseValue, ParseString, Skip, Unclosed;
    var name := ParseString(Skip(s));
    var value := ParseValue(Skip(Skip(name.rest)[1..]));
    var r := ParseMember(s);
    var w0 := SoftKept(s);
    NotAStringUnless(Skip(s));
    var m0 := StringKept(Skip(s));
    SkipNothing();
    var w1 := SeparatorKept(name.rest, ':');
    var m1 := SpacedKept(Skip(name.rest)[1..]);
    PrependTwice(w1 + ":", m1, Minify(r.rest));
    PrependTwice(m0, w1 + ":" + m1, Minify(r.rest));
    PrependTwice(w0, m0 + (w1 + ":" + m1), Minify(r.rest));
    m := w0 + (m0 + (w1 + ":" + m1));
    forall rest | Follow(rest) ensures ReadsMember(m, r.value, rest) {
      var tail := w1 + ":" + (m1 + rest);
      assert m + rest == w0 + (m0 + tail);
      SkipSoft(w0, m0 + tail);
      SkipStays(m0 + tail);
      assert Separates(w1, ':', m1 + rest);
      assert ReadsSpaced(m1, value.value, rest);
      MemberIs(m + rest, r.value, tail, Skip(m1 + rest), rest);
    }
  }

  lemma NotAStringUnless(s: string)
    ensures ParseString(s).Ok? ==> StartsWith(s, QUOTE)
  {
  }

  lemma {:induction false} MembersKept(s: string) returns (m: string)
    requires ParseMembers(s).Ok?
    ensures Minify(s) == Prepend(m, Minify(ParseMembers(s).rest))
    ensures forall rest :: ReadsMembers(m, ParseMembers(s).value, rest)
    decreases |s|, 4
  {
    hide Minify, ParseMember, Skip;
    var first := ParseMember(s);
    var m0 := MemberKept(s);
    var next := Skip(first.rest);
    var r := ParseMembers(s);
    if next[0] == ',' {
      var w := SeparatorKept(first.rest, ',');
      var m1 := MembersKept(next[1..]);
      PrependTwice(w + ",", m1, Minify(r.rest));
      PrependTwice(m0, w + "," + m1, Minify(r.rest));
      m := m0 + (w + "," + m1);
      forall rest ensures ReadsMembers(m, r.value, rest) {
        assert ReadsMembers(m1, ParseMembers(next[1..]).value, rest);
        assert Separates(w, ',', m1 + rest);
        var tail := w + "," + (m1 + rest);
        assert m + rest == m0 + tail;
        assert ReadsMember(m0, first.value, tail);
        MembersGoOn(m + rest, first.value, tail, m1 + rest, r.value[1..], rest);
      }
    } else {
      var w := SeparatorKept(first.rest, '}');
      PrependTwice(m0, w + "}", Minify(r.rest));
      m := m0 + (w + "}");
      forall rest ensures ReadsMembers(m, r.value, rest) {
        assert Separates(w, '}', rest);
        var tail := w + "}" + rest;
        assert m + rest == m0 + tail;
        assert ReadsMember(m0, first.value, tail);
        MembersEnd(m + rest, first.value, tail);
      }
    }
  }

  /** For every text read in full: the minified text reads as the same value, again in full; and the
      minifier runs off the end if and only if the text is a string literal left open. */
  lemma MinifyKeepsMeaning(s: string)
    requires ParseText(s).Ok? && Skip(ParseText(s).rest) == ""
    ensures Minify(s) == Overrun <==> OpenLiteral(Skip(s))
    ensures Minify(s).Clean? ==> ParseText(Minify(s).text).Ok? && ParseText(Minify(s).text).value == ParseText(s).value
    ensures Minify(s).Clean? ==> Skip(ParseText(Minify(s).text).rest) == ""
  {
    hide Minify, ParseValue, Skip, Unclosed;
    var w := SoftKept(s);
    var r := ParseText(s);
    var m := ValueKept(Skip(s));
    if !OpenLiteral(Skip(s)) {
      var end := SoftKept(r.rest);
      NothingKept(end);
      assert Minify(s) == Clean(w + (m + end));
      SkipSoft(w, m + end);
      SkipStays(m + end);
      assert ReadsValue(m, r.value, end);
    }
  }

  lemma NothingKept(w: string)
    requires Soft(w)
    ensures Prepend(w, Minify("")) == Clean(w) && Skip(w) == "" && Follow(w)
  {
    assert w + "" == w;
    SkipSoft(w, "");
  }
}
