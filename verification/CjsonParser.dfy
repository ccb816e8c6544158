/** The parsers of cJSON.c, proved against CjsonText. A text is a string, and a position in it an index; the
    end of the string is the terminating NUL. */
module CjsonParser {
  import opened CjsonText
  import opened CjsonProofs
  import opened CjsonPrinter

  /** skip */
  method SkipBlanks(text: string) returns (rest: string)
    ensures rest == Skip(text)
  {
    rest := text;
    while rest != "" && rest[0] as int <= 32
      invariant Skip(rest) == Skip(text)
      decreases |rest|
    {
      rest := rest[1..];
    }
  }

  // ----- strings ----------------------------------------------------------------------------

  /** What the first pass of parse_string counts, from inside the literal. */
  function Measure(s: string): nat
    decreases |s|
  {
    if s == "" || s[0] == QUOTE then 0
    else if s[0] != BACKSLASH then 1 + Measure(s[1..])
    else 1 + if |s| == 1 then 0 else Measure(s[2..])
  }

  /** The first pass steps over the terminating NUL, behind a backslash. */
  predicate Overruns(s: string)
    decreases |s|
  {
    if s == "" || s[0] == QUOTE then false
    else if s[0] != BACKSLASH then Overruns(s[1..])
    else |s| == 1 || Overruns(s[2..])
  }

  predicate Inside(t: string) {
    forall i :: 0 <= i < |t| ==> t[i] != QUOTE && t[i] != BACKSLASH
  }

  lemma {:induction false} InsideMeasured(t: string, rest: string)
    requires Inside(t)
    ensures Measure(t + rest) == |t| + Measure(rest) && Overruns(t + rest) == Overruns(rest)
  {
    if t == "" {
      assert t + rest == rest;
    } else {
      assert (t + rest)[1..] == t[1..] + rest;
      InsideMeasured(t[1..], rest);
    }
  }

  lemma EscapeMeasure(t: string, rest: string)
    requires |t| >= 2 && t[0] == BACKSLASH && Inside(t[2..])
    ensures Measure(t + rest) == |t| - 1 + Measure(rest) && Overruns(t + rest) == Overruns(rest)
  {
    assert (t + rest)[2..] == t[2..] + rest;
    InsideMeasured(t[2..], rest);
  }

  /** The bytes of an escape are never more than the first pass counted for it. */
  lemma EscapeFits(s: string)
    requires ParseEscape(s).Ok?
    ensures |ParseEscape(s).value| + Measure(ParseEscape(s).rest) <= Measure([BACKSLASH] + s)
    ensures Overruns([BACKSLASH] + s) == Overruns(ParseEscape(s).rest)
  {
    hide Measure, Overruns, ParseHex4, Utf8;
    var tail := ParseEscape(s).rest;
    if s[0] != 'u' {
      assert [BACKSLASH] + s == [BACKSLASH, s[0]] + tail;
      EscapeMeasure([BACKSLASH, s[0]], tail);
    } else {
      var one, rest := [BACKSLASH] + s[..5], s[5..];
      assert [BACKSLASH] + s == one + rest;
      HexIsInside(s[1..]);
      assert one[2..] == s[1..][..4];
      EscapeMeasure(one, rest);
      if tail != rest {
        assert rest == rest[..6] + tail;
        HexIsInside(rest[2..]);
        assert rest[..6][2..] == rest[2..][..4];
        EscapeMeasure(rest[..6], tail);
      }
    }
  }

  lemma HexIsInside(s: string)
    requires FourHexDigits(s)
    ensures Inside(s[..4])
  {
  }

  /** A literal whose first pass overruns is one the second pass cannot read either. */
  lemma {:induction false} OverrunUnmodelled(s: string)
    requires Overruns(s)
    ensures ParseChars(s).Unmodelled?
    decreases |s|
  {
    if s[0] != BACKSLASH {
      OverrunUnmodelled(s[1..]);
    } else if ParseEscape(s[1..]).Ok? {
      assert s == [BACKSLASH] + s[1..];
      EscapeFits(s[1..]);
      OverrunUnmodelled(ParseEscape(s[1..]).rest);
    }
  }

  /** The decoded string is never longer than the first pass counted. */
  lemma {:induction false} CharsFit(s: string)
    requires ParseChars(s).Ok?
    ensures |ParseChars(s).value| <= Measure(s)
    decreases |s|
  {
    if s != "" && s[0] != QUOTE {
      if s[0] != BACKSLASH {
        CharsFit(s[1..]);
      } else {
        assert s == [BACKSLASH] + s[1..];
        EscapeFits(s[1..]);
        CharsFit(ParseEscape(s[1..]).rest);
      }
    }
  }

  function Glue(done: string, r: Parse<string>): Parse<string> {
    match r
    case Ok(out, rest) => Ok(done + out, rest)
    case other => other
  }

  lemma GlueTwice(a: string, b: string, r: Parse<string>)
    ensures Glue(a, Glue(b, r)) == Glue(a + b, r)
  {
    if r.Ok? {
      assert a + (b + r.value) == a + b + r.value;
    }
  }

  /** The fall-through switch that writes a code point backwards, six bits at a time. */
  method PutUtf8(out: array<char>, at: nat, code: nat) returns (ptr: nat)
    requires code < 0x110000 && at + |Utf8(code)| <= out.Length
    modifies out
    ensures ptr == at + |Utf8(code)| && out[..ptr] == old(out[..at]) + Utf8(code)
  {
    hide Utf8;
    Utf8Length(code);
    var uc, len := code, 4;
    if uc < 0x80 {
      len := 1;
    } else if uc < 0x800 {
      len := 2;
    } else if uc < 0x10000 {
      len := 3;
    }
    ptr := at + len;
    var marks := [0x00, 0x00, 0xC0, 0xE0, 0xF0];
    if len >= 4 {
      ptr := ptr - 1;
      out[ptr], uc := (0x80 + uc % 64) as char, uc / 64;
    }
    if len >= 3 {
      ptr := ptr - 1;
      out[ptr], uc := (0x80 + uc % 64) as char, uc / 64;
    }
    if len >= 2 {
      ptr := ptr - 1;
      out[ptr], uc := (0x80 + uc % 64) as char, uc / 64;
    }
    ptr := ptr - 1;
    out[ptr] := (marks[len] + uc) as char;
    Utf8Is(code, out[at..at + len]);
    ptr := ptr + len;
    assert out[..ptr] == out[..at] + out[at..ptr];
  }

  lemma Utf8Length(code: nat)
    requires code < 0x110000
    ensures |Utf8(code)| == if code < 0x80 then 1 else if code < 0x800 then 2 else if code < 0x10000 then 3 else 4
  {
  }

  lemma Utf8Is(code: nat, s: string)
    requires code < 0x110000
    requires |s| == if code < 0x80 then 1 else if code < 0x800 then 2 else if code < 0x10000 then 3 else 4
    requires |s| == 1 ==> s[0] == code as char
    requires |s| == 2 ==> s[1] == (0x80 + code % 64) as char && s[0] == (0xC0 + code / 64) as char
    requires |s| == 3 ==> s[2] == (0x80 + code % 64) as char && s[1] == (0x80 + code / 64 % 64) as char
    requires |s| == 3 ==> s[0] == (0xE0 + code / 64 / 64) as char
    requires |s| == 4 ==> s[3] == (0x80 + code % 64) as char && s[2] == (0x80 + code / 64 % 64) as char
    requires |s| == 4 ==> s[1] == (0x80 + code / 64 / 64 % 64) as char && s[0] == (0xF0 + code / 64 / 64 / 64) as char
    ensures s == Utf8(code)
  {
    SixBits(code);
  }

  lemma SixBits(n: nat)
    ensures n / 64 / 64 == n / 4096 && n / 4096 / 64 == n / 262144
    ensures n / 64 / 64 / 64 == n / 262144
  {
  }

  /** The switch on the character after a backslash, at position `from`. */
  method ReadEscape(out: array<char>, at: nat, str: string, from: nat) returns (ok: bool, ptr: nat, end: nat)
    requires from <= |str| && at <= out.Length
    requires ParseEscape(str[from..]).Ok? ==> at + |ParseEscape(str[from..]).value| <= out.Length
    modifies out
    ensures ok == ParseEscape(str[from..]).Ok?
    ensures ok ==> from < ptr <= |str| && str[ptr..] == ParseEscape(str[from..]).rest
    ensures ok ==> end == at + |ParseEscape(str[from..]).value|
    ensures ok ==> out[..end] == old(out[..at]) + ParseEscape(str[from..]).value
  {
    hide Utf8, ParseHex4, FourHexDigits;
    ghost var s := str[from..];
    if from == |str| {
      return false, from, at;
    }
    ok, ptr, end := true, from, at;
    if str[ptr] != 'u' {
      var c := str[ptr];
      out[end] := if c == 'b' then BACKSPACE else if c == 'f' then FORM_FEED else if c == 'n' then '\n'
      else if c == 'r' then '\r' else if c == 't' then '\t' else c;
      end := end + 1;
    } else if !FourHexDigits(str[ptr + 1..]) {
      assert str[ptr + 1..] == s[1..];
      return false, from, at;
    } else {
      assert str[ptr + 1..] == s[1..];
      HexIsLong(str[ptr + 1..]);
      var uc := ParseHex4(str[ptr + 1..]);
      ptr := ptr + 4;
      assert str[ptr + 1..] == s[5..];
      if 0xDC00 <= uc <= 0xDFFF || uc == 0 {
      } else if 0xD800 <= uc <= 0xDBFF {
        if ptr + 2 < |str| && str[ptr + 1] == BACKSLASH && str[ptr + 2] == 'u' {
          assert str[ptr + 3..] == s[5..][2..];
          if !FourHexDigits(str[ptr + 3..]) {
            return false, from, at;
          }
          HexIsLong(str[ptr + 3..]);
          var uc2 := ParseHex4(str[ptr + 3..]);
          ptr := ptr + 6;
          assert str[ptr + 1..] == s[5..][6..];
          if 0xDC00 <= uc2 <= 0xDFFF {
            end := PutUtf8(out, end, Combine(uc, uc2));
          }
        }
      } else {
        end := PutUtf8(out, end, uc);
      }
    }
    ptr := ptr + 1;
  }

  lemma HexIsLong(s: string)
    requires FourHexDigits(s)
    ensures |s| >= 4
  {
  }

  /** The first pass: how long the decoded string can be, unless it steps over the end. */
  method MeasureLiteral(str: string) returns (ok: bool, len: nat)
    ensures ok == !Overruns(str) && (ok ==> len == Measure(str))
  {
    var ptr := 0;
    len := 0;
    assert str[0..] == str;
    while ptr < |str| && str[ptr] != QUOTE
      invariant ptr <= |str| && len + Measure(str[ptr..]) == Measure(str) && Overruns(str[ptr..]) == Overruns(str)
    {
      len := len + 1;
      if str[ptr] == BACKSLASH {
        if ptr + 1 == |str| {
          return false, len;
        }
        assert str[ptr..][2..] == str[ptr + 2..];
        ptr := ptr + 1;
      }
      ptr := ptr + 1;
    }
    ok := true;
  }

  /** parse_string: the buffer allocated after the first pass is never exceeded, and holds the decoded
      string, `used` characters and a terminating NUL. */
  method ParseString(str: string) returns (r: Parse<array<char>>, used: nat)
    ensures CjsonText.ParseString(str).Fail? ==> r.Fail?
    ensures CjsonText.ParseString(str).Unmodelled? ==> r.Unmodelled?
    ensures CjsonText.ParseString(str).Ok? ==> r.Ok? && fresh(r.value) && r.rest == CjsonText.ParseString(str).rest
    ensures r.Ok? ==> CjsonText.ParseString(str).Ok?
    ensures r.Ok? ==> used == |CjsonText.ParseString(str).value| && CString(r.value, CjsonText.ParseString(str).value)
    ensures r.Ok? ==> r.value.Length == Measure(str[1..]) + 1
  {
    used := 0;
    if !StartsWith(str, QUOTE) {
      return Fail, used;
    }
    var ok, len := MeasureLiteral(str[1..]);
    CharsNeverFail(str[1..]);
    if !ok {
      OverrunUnmodelled(str[1..]);
      return Unmodelled, used;
    }
    var out := new char[len + 1];
    var ptr;
    ok, ptr, used := DecodeLiteral(out, str);
    if !ok {
      return Unmodelled, used;
    }
    CharsFit(str[1..]);
    out[used] := NUL;
    if ptr < |str| {
      ptr := ptr + 1;
    }
    r := Ok(out, str[ptr..]);
  }

  /** The second pass. */
  method DecodeLiteral(out: array<char>, str: string) returns (ok: bool, ptr: nat, at: nat)
    requires StartsWith(str, QUOTE) && !Overruns(str[1..]) && out.Length == Measure(str[1..]) + 1
    modifies out
    ensures ok == ParseChars(str[1..]).Ok?
    ensures ok ==> ptr <= |str| && at == |ParseChars(str[1..]).value| < out.Length && out[..at] == ParseChars(str[1..]).value
    ensures ok ==> (ptr < |str| ==> str[ptr] == QUOTE) && ParseChars(str[1..]).rest == str[if ptr < |str| then ptr + 1 else ptr..]
  {
    hide ParseEscape;
    ptr, at := 1, 0;
    GlueNothing(ParseChars(str[1..]));
    assert out[..0] == "";
    while ptr < |str| && str[ptr] != QUOTE
      invariant 1 <= ptr <= |str| && at + Measure(str[ptr..]) < out.Length && !Overruns(str[ptr..])
      invariant ParseChars(str[1..]) == Glue(out[..at], ParseChars(str[ptr..]))
    {
      ghost var done, s := out[..at], str[ptr..];
      if str[ptr] != BACKSLASH {
        assert s[1..] == str[ptr + 1..];
        GlueTwice(done, [s[0]], ParseChars(s[1..]));
        out[at] := str[ptr];
        at, ptr := at + 1, ptr + 1;
        assert out[..at] == done + [s[0]];
      } else {
        assert str[ptr + 1..] == s[1..] && s == [BACKSLASH] + s[1..];
        if ParseEscape(s[1..]).Ok? {
          EscapeFits(s[1..]);
          GlueTwice(done, ParseEscape(s[1..]).value, ParseChars(ParseEscape(s[1..]).rest));
        }
        CharsEscape(s);
        ok, ptr, at := ReadEscape(out, at, str, ptr + 1);
        if !ok {
          return;
        }
      }
    }
    ok := true;
    CharsEnd(str, ptr);
    assert out[..at] + "" == out[..at];
  }

  lemma CharsEnd(str: string, ptr: nat)
    requires ptr <= |str| && (ptr < |str| ==> str[ptr] == QUOTE)
    ensures ParseChars(str[ptr..]) == Ok("", str[if ptr < |str| then ptr + 1 else ptr..])
  {
  }

  lemma CharsEscape(s: string)
    requires s != "" && s[0] == BACKSLASH
    ensures !ParseEscape(s[1..]).Ok? ==> !ParseChars(s).Ok?
    ensures ParseEscape(s[1..]).Ok? ==>
              ParseChars(s) == Glue(ParseEscape(s[1..]).value, ParseChars(ParseEscape(s[1..]).rest))
  {
    hide ParseEscape;
  }

  lemma GlueNothing(r: Parse<string>)
    ensures Glue("", r) == r
  {
    if r.Ok? {
      assert "" + r.value == r.value;
    }
  }

  lemma {:induction false} CharsNeverFail(s: string)
    ensures !ParseChars(s).Fail?
    decreases |s|
  {
    hide ParseEscape;
    if s != "" && s[0] != QUOTE {
      if s[0] != BACKSLASH {
        CharsNeverFail(s[1..]);
      } else {
        EscapeNeverFails(s[1..]);
        if ParseEscape(s[1..]).Ok? {
          CharsNeverFail(ParseEscape(s[1..]).rest);
        }
      }
    }
  }

  lemma EscapeNeverFails(s: string)
    ensures !ParseEscape(s).Fail?
  {
  }

  // ----- numbers ----------------------------------------------------------------------------

  /** parse_number, for integers */
  method ParseNumber(text: string) returns (r: Parse<Json>)
    ensures r == CjsonText.ParseNumber(text)
  {
    var num, sign := text, 1;
    var n: nat := 0;
    if StartsWith(num, '-') {
      sign, num := -1, num[1..];
    }
    if StartsWith(num, '0') {
      num := num[1..];
    }
    ghost var digits := num;
    if num != "" && '1' <= num[0] <= '9' {
      while num != "" && IsDigit(num[0])
        invariant ParseDigits(num, n) == ParseDigits(digits, 0)
        decreases |num|
      {
        n := n * 10 + (num[0] as int - '0' as int);
        num := num[1..];
      }
    }
    if |num| >= 2 && num[0] == '.' && '0' <= num[1] <= '9' {
      return Unmodelled;
    }
    if StartsWith(num, 'e') || StartsWith(num, 'E') {
      return Unmodelled;
    }
    if sign * n < INT_MIN || INT_MAX < sign * n {
      return Unmodelled;
    }
    return Ok(Number(sign * n), num);
  }

  // ----- values -----------------------------------------------------------------------------

  function GlueItems(done: seq<Json>, r: Parse<seq<Json>>): Parse<seq<Json>> {
    match r
    case Ok(items, rest) => Ok(done + items, rest)
    case other => other
  }

  /** What the array parser makes of the text after an item. */
  function AfterItem(next: string): Parse<seq<Json>> {
    if StartsWith(next, ',') then ParseItems(next[1..])
    else if StartsWith(next, ']') then Ok([], next[1..])
    else Fail
  }

  function GlueMembers(done: seq<Member>, r: Parse<seq<Member>>): Parse<seq<Member>> {
    match r
    case Ok(members, rest) => Ok(done + members, rest)
    case other => other
  }

  /** What the object parser makes of the text after a member. */
  function AfterMember(next: string): Parse<seq<Member>> {
    if StartsWith(next, ',') then ParseMembers(next[1..])
    else if StartsWith(next, '}') then Ok([], next[1..])
    else Fail
  }

  lemma ItemsUnfold(s: string, done: seq<Json>)
    ensures match CjsonText.ParseValue(Skip(s))
            case Ok(v, tail) => GlueItems(done, ParseItems(s)) == GlueItems(done + [v], AfterItem(Skip(tail)))
            case Fail => GlueItems(done, ParseItems(s)).Fail?
            case Unmodelled => GlueItems(done, ParseItems(s)).Unmodelled?
  {
    hide Skip, CjsonText.ParseValue;
    match CjsonText.ParseValue(Skip(s))
    case Ok(v, tail) =>
      var r := AfterItem(Skip(tail));
      if r.Ok? {
        assert done + ([v] + r.value) == done + [v] + r.value;
        assert [v] + [] == [v];
      }
    case _ =>
  }

  lemma MembersUnfold(s: string, done: seq<Member>)
    ensures match CjsonText.ParseMember(s)
            case Ok(m, tail) => GlueMembers(done, ParseMembers(s)) == GlueMembers(done + [m], AfterMember(Skip(tail)))
            case Fail => GlueMembers(done, ParseMembers(s)).Fail?
            case Unmodelled => GlueMembers(done, ParseMembers(s)).Unmodelled?
  {
    hide Skip, CjsonText.ParseMember;
    match CjsonText.ParseMember(s)
    case Ok(m, tail) =>
      var r := AfterMember(Skip(tail));
      if r.Ok? {
        assert done + ([m] + r.value) == done + [m] + r.value;
        assert [m] + [] == [m];
      }
    case _ =>
  }

  /** parse_value */
  method ParseValue(value: string) returns (r: Parse<Json>)
    ensures r == CjsonText.ParseValue(value)
    decreases |value|, 1
  {
    hide CjsonText.ParseString, CjsonText.ParseNumber, ParseItems, ParseMembers, Skip;
    if "null" <= value {
      return Ok(Null, value[4..]);
    }
    if "false" <= value {
      return Ok(False, value[5..]);
    }
    if "true" <= value {
      return Ok(True, value[4..]);
    }
    if StartsWith(value, QUOTE) {
      var s, used := ParseString(value);
      if s.Fail? {
        return Fail;
      }
      if s.Unmodelled? {
        return Unmodelled;
      }
      assert s.value[..used] == CjsonText.ParseString(value).value;
      return Ok(String(s.value[..used]), s.rest);
    }
    if value != "" && (value[0] == '-' || '0' <= value[0] <= '9') {
      r := ParseNumber(value);
      return;
    }
    if StartsWith(value, '[') {
      r := ParseArray(value);
      return;
    }
    if StartsWith(value, '{') {
      r := ParseObject(value);
      return;
    }
    return Fail;
  }

  /** parse_array: one item after another while commas follow. */
  method ParseArray(text: string) returns (r: Parse<Json>)
    requires StartsWith(text, '[')
    ensures r == CjsonText.ParseValue(text)
    decreases |text|, 0
  {
    hide Skip, CjsonText.ParseValue, ParseItems;
    var value := SkipBlanks(text[1..]);
    ArrayUnfold(text);
    if StartsWith(value, ']') {
      return Ok(Array([]), value[1..]);
    }
    ItemsUnfold(text[1..], []);
    GlueNoItems(ParseItems(text[1..]));
    var v := ParseValue(value);
    if !v.Ok? {
      return if v.Fail? then Fail else Unmodelled;
    }
    var items := [v.value];
    assert [] + [v.value] == items;
    value := SkipBlanks(v.rest);
    while StartsWith(value, ',')
      invariant |value| < |text| && GlueItems(items, AfterItem(value)) == ParseItems(text[1..])
      decreases |value|
    {
      ItemsUnfold(value[1..], items);
      var start := SkipBlanks(value[1..]);
      v := ParseValue(start);
      if !v.Ok? {
        return if v.Fail? then Fail else Unmodelled;
      }
      items := items + [v.value];
      value := SkipBlanks(v.rest);
    }
    if StartsWith(value, ']') {
      assert items + [] == items;
      return Ok(Array(items), value[1..]);
    }
    return Fail;
  }

  lemma GlueNoItems(r: Parse<seq<Json>>)
    ensures GlueItems([], r) == r
  {
    if r.Ok? {
      assert [] + r.value == r.value;
    }
  }

  lemma GlueNoMembers(r: Parse<seq<Member>>)
    ensures GlueMembers([], r) == r
  {
    if r.Ok? {
      assert [] + r.value == r.value;
    }
  }

  lemma ArrayUnfold(s: string)
    requires StartsWith(s, '[')
    ensures StartsWith(Skip(s[1..]), ']') ==> CjsonText.ParseValue(s) == Ok(Array([]), Skip(s[1..])[1..])
    ensures !StartsWith(Skip(s[1..]), ']') ==>
              match ParseItems(s[1..])
              case Ok(items, rest) => CjsonText.ParseValue(s) == Ok(Array(items), rest)
              case Fail => CjsonText.ParseValue(s) == Fail
              case Unmodelled => CjsonText.ParseValue(s) == Unmodelled
  {
    hide Skip, ParseItems;
  }

  lemma ObjectUnfold(s: string)
    requires StartsWith(s, '{')
    ensures StartsWith(Skip(s[1..]), '}') ==> CjsonText.ParseValue(s) == Ok(Object([]), Skip(s[1..])[1..])
    ensures !StartsWith(Skip(s[1..]), '}') ==>
              match ParseMembers(s[1..])
              case Ok(members, rest) => CjsonText.ParseValue(s) == Ok(Object(members), rest)
              case Fail => CjsonText.ParseValue(s) == Fail
              case Unmodelled => CjsonText.ParseValue(s) == Unmodelled
  {
    hide Skip, ParseMembers;
  }

  /** One member of parse_object, at a text whose blanks are already skipped. */
  method ParseMember(text: string) returns (r: Parse<Member>)
    requires Skip(text) == text
    ensures r == CjsonText.ParseMember(text)
    decreases |text|, 2
  {
    hide Skip, CjsonText.ParseValue, CjsonText.ParseString;
    var s, used := ParseString(text);
    if !s.Ok? {
      return if s.Fail? then Fail else Unmodelled;
    }
    var name := s.value[..used];
    assert name == CjsonText.ParseString(text).value;
    var value := SkipBlanks(s.rest);
    if !StartsWith(value, ':') {
      return Fail;
    }
    value := SkipBlanks(value[1..]);
    var v := ParseValue(value);
    if !v.Ok? {
      return if v.Fail? then Fail else Unmodelled;
    }
    return Ok(Member(name, v.value), v.rest);
  }

  lemma SkipTwice(s: string)
    ensures Skip(Skip(s)) == Skip(s)
    ensures CjsonText.ParseMember(Skip(s)) == CjsonText.ParseMember(s)
  {
    hide CjsonText.ParseValue, CjsonText.ParseString;
  }

  /** parse_object: one member after another while commas follow. */
  method ParseObject(text: string) returns (r: Parse<Json>)
    requires StartsWith(text, '{')
    ensures r == CjsonText.ParseValue(text)
    decreases |text|, 0
  {
    hide Skip, CjsonText.ParseValue, CjsonText.ParseMember, ParseMembers;
    var value := SkipBlanks(text[1..]);
    ObjectUnfold(text);
    if StartsWith(value, '}') {
      return Ok(Object([]), value[1..]);
    }
    MembersUnfold(text[1..], []);
    GlueNoMembers(ParseMembers(text[1..]));
    SkipTwice(text[1..]);
    var m := ParseMember(value);
    if !m.Ok? {
      return if m.Fail? then Fail else Unmodelled;
    }
    var members := [m.value];
    assert [] + [m.value] == members;
    value := SkipBlanks(m.rest);
    while StartsWith(value, ',')
      invariant |value| < |text| && GlueMembers(members, AfterMember(value)) == ParseMembers(text[1..])
      decreases |value|
    {
      MembersUnfold(value[1..], members);
      SkipTwice(value[1..]);
      var start := SkipBlanks(value[1..]);
      m := ParseMember(start);
      if !m.Ok? {
        return if m.Fail? then Fail else Unmodelled;
      }
      members := members + [m.value];
      value := SkipBlanks(m.rest);
    }
    if StartsWith(value, '}') {
      assert members + [] == members;
      return Ok(Object(members), value[1..]);
    }
    return Fail;
  }

  /** cJSON_Parse of what cJSON_Print or cJSON_PrintUnformatted left in its buffer. */
  method PrintThenParse(v: Json, fmt: bool) returns (again: Parse<Json>)
    requires Storable(v)
    ensures again == Ok(v, "")
  {
    hide Print, CjsonText.ParseValue, NoNul, CString;
    var buffer := PrintValue(v, 0, fmt);
    ghost var text := Print(v, 0, fmt);
    PrintHasNoNul(v, 0, fmt);
    var len := StrLen(buffer, text);
    RoundTrip(v, fmt);
    CStringIs(buffer, text);
    var start := SkipBlanks(buffer[..len]);
    again := ParseValue(start);
  }

  lemma CStringIs(a: array<char>, s: string)
    requires CString(a, s)
    ensures |s| < a.Length && a[..|s|] == s
  {
  }
}
