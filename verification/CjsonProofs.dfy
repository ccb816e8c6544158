/** What the texts of CjsonText promise together: parsing undoes printing, and minifying keeps the
    meaning. */
module CjsonProofs {
  import opened CjsonText

  /** What may follow a value without being taken into it. */
  predicate Follow(rest: string) {
    rest == "" || (!IsDigit(rest[0]) && rest[0] != '.' && rest[0] != 'e' && rest[0] != 'E')
  }

  // ----- integers ---------------------------------------------------------------------------

  lemma {:induction false} DigitsLead(n: nat)
    ensures forall i :: 0 <= i < |Digits(n)| ==> IsDigit(Digits(n)[i])
    ensures n > 0 ==> Digits(n)[0] != '0'
  {
    if n >= 10 {
      DigitsLead(n / 10);
    }
  }

  lemma {:induction false} DigitsRead(n: nat, rest: string)
    ensures ParseDigits(Digits(n) + rest, 0) == ParseDigits(rest, n)
  {
    var last := ('0' as int + n % 10) as char;
    if n < 10 {
      assert (Digits(n) + rest)[1..] == rest;
    } else {
      assert Digits(n) + rest == Digits(n / 10) + ([last] + rest);
      DigitsRead(n / 10, [last] + rest);
      assert ([last] + rest)[1..] == rest;
    }
  }

  lemma DigitsStop(n: nat, rest: string)
    requires Follow(rest)
    ensures ParseDigits(rest, n) == (n, rest)
  {
  }

  lemma ZeroDigits()
    ensures Digits(0) == "0"
  {
  }

  /** print_number then parse_number, for every 32-bit integer. */
  lemma IntRoundTrip(n: int, rest: string)
    requires INT_MIN <= n <= INT_MAX && Follow(rest)
    ensures ParseNumber(PrintInt(n) + rest) == Ok(Number(n), rest)
  {
    hide ParseDigits, Digits;
    var size: nat := if n < 0 then -n else n;
    var s := PrintInt(n) + rest;
    DigitsLead(size);
    DigitsRead(size, rest);
    DigitsStop(size, rest);
    if n < 0 {
      assert s[1..] == Digits(size) + rest;
    }
    if size == 0 {
      ZeroDigits();
      assert s[1..] == rest;
    } else {
      assert (Digits(size) + rest)[0] == Digits(size)[0];
    }
  }

  // ----- strings ----------------------------------------------------------------------------

  lemma HexRoundTrip(n: nat, rest: string)
    requires n < 0x10000
    ensures FourHexDigits(Hex4(n) + rest) && ParseHex4(Hex4(n) + rest) == n
  {
    var d3, d2, d1, d0 := n / 4096, n / 256 % 16, n / 16 % 16, n % 16;
    assert n == ((d3 * 16 + d2) * 16 + d1) * 16 + d0;
    var h := Hex4(n) + rest;
    HexDigitValue(d3);
    HexDigitValue(d2);
    HexDigitValue(d1);
    HexDigitValue(d0);
    assert h[0] == HexDigit(d3) && h[1] == HexDigit(d2) && h[2] == HexDigit(d1) && h[3] == HexDigit(d0);
  }

  lemma HexDigitValue(d: nat)
    requires d < 16
    ensures HexValue(HexDigit(d)) == d
  {
  }

  lemma EscapeReads(c: char, rest: string)
    requires 0 < c as int < 256
    requires !(c as int > 31 && c != QUOTE && c != BACKSLASH)
    ensures EscapeChar(c)[0] == BACKSLASH && ParseEscape((EscapeChar(c) + rest)[1..]) == Ok([c], rest)
  {
    var s := (EscapeChar(c) + rest)[1..];
    if |EscapeChar(c)| == 2 {
      assert s[1..] == rest;
    } else {
      assert s == "u" + (Hex4(c as int) + rest);
      assert s[1..] == Hex4(c as int) + rest;
      HexRoundTrip(c as int, rest);
      assert s[5..] == rest;
    }
  }

  /** What print_string_ptr writes between the quotes, parse_string reads back. */
  lemma {:induction false} CharsRoundTrip(s: string, rest: string)
    requires Bytes(s)
    ensures ParseChars(Escape(s) + [QUOTE] + rest) == Ok(s, rest)
  {
    if s == "" {
      assert Escape(s) + [QUOTE] + rest == [QUOTE] + rest;
    } else {
      var tail := Escape(s[1..]) + [QUOTE] + rest;
      var text := Escape(s) + [QUOTE] + rest;
      assert text == EscapeChar(s[0]) + tail;
      CharsRoundTrip(s[1..], rest);
      assert s == [s[0]] + s[1..];
      if EscapeChar(s[0]) == [s[0]] && s[0] != BACKSLASH {
        assert text[1..] == tail;
      } else {
        EscapeReads(s[0], tail);
        assert text[0] == BACKSLASH;
      }
    }
  }

  lemma StringRoundTrip(s: string, rest: string)
    requires Bytes(s)
    ensures ParseString(PrintString(s) + rest) == Ok(s, rest)
  {
    CharsRoundTrip(s, rest);
    assert (PrintString(s) + rest)[1..] == Escape(s) + [QUOTE] + rest;
  }

  // ----- values -----------------------------------------------------------------------------

  predicate Blank(w: string) {
    forall i :: 0 <= i < |w| ==> IsBlank(w[i])
  }

  lemma {:induction false} SkipBlank(w: string, s: string)
    requires Blank(w)
    ensures Skip(w + s) == Skip(s)
  {
    if w == "" {
      assert w + s == s;
    } else {
      assert (w + s)[1..] == w[1..] + s;
      SkipBlank(w[1..], s);
    }
  }

  lemma {:induction false} TabsAreBlank(n: int)
    ensures Blank(Tabs(n))
  {
    if n > 0 {
      TabsAreBlank(n - 1);
    }
  }

  lemma SkipStays(s: string)
    requires s != "" && s[0] as int > 32
    ensures Skip(s) == s
  {
  }

  // One step of each list parser.

  lemma ItemsEnd(s: string, v: Json, tail: string)
    requires ParseValue(Skip(s)) == Ok(v, tail) && StartsWith(Skip(tail), ']')
    ensures ParseItems(s) == Ok([v], Skip(tail)[1..])
  {
    hide ParseValue, Skip;
  }

  lemma ItemsGoOn(s: string, v: Json, tail: string, more: string, items: seq<Json>, rest: string)
    requires ParseValue(Skip(s)) == Ok(v, tail) && StartsWith(Skip(tail), ',')
    requires Skip(Skip(tail)[1..]) == Skip(more) && ParseItems(more) == Ok(items, rest)
    ensures ParseItems(s) == Ok([v] + items, rest)
  {
    hide ParseValue, Skip;
  }

  lemma MemberIs(s: string, m: Member, tail: string, value: string, rest: string)
    requires ParseString(Skip(s)) == Ok(m.name, tail) && StartsWith(Skip(tail), ':')
    requires Skip(Skip(tail)[1..]) == value && ParseValue(value) == Ok(m.value, rest)
    ensures ParseMember(s) == Ok(m, rest)
  {
    hide ParseValue, ParseString, Skip;
  }

  lemma MembersEnd(s: string, m: Member, tail: string)
    requires ParseMember(s) == Ok(m, tail) && StartsWith(Skip(tail), '}')
    ensures ParseMembers(s) == Ok([m], Skip(tail)[1..])
  {
    hide ParseMember, Skip;
  }

  lemma MembersGoOn(s: string, m: Member, tail: string, more: string, members: seq<Member>, rest: string)
    requires ParseMember(s) == Ok(m, tail) && StartsWith(Skip(tail), ',')
    requires Skip(Skip(tail)[1..]) == Skip(more) && ParseMembers(more) == Ok(members, rest)
    ensures ParseMembers(s) == Ok([m] + members, rest)
  {
    MembersSkip(Skip(tail)[1..], more);
    hide ParseMember, Skip;
  }

  lemma MembersSkip(s: string, t: string)
    requires Skip(s) == Skip(t)
    ensures ParseMember(s) == ParseMember(t) && ParseMembers(s) == ParseMembers(t)
  {
    hide Skip, ParseValue, ParseString;
  }

  lemma ArrayIs(s: string, items: seq<Json>, more: string, rest: string)
    requires StartsWith(s, '[') && Skip(s[1..]) == Skip(more) && !StartsWith(Skip(more), ']')
    requires ParseItems(more) == Ok(items, rest)
    ensures ParseValue(s) == Ok(Array(items), rest)
  {
    hide Skip, ParseMembers, ParseString, ParseNumber;
    assert ParseItems(s[1..]) == ParseItems(more);
  }

  lemma ObjectIs(s: string, members: seq<Member>, more: string, rest: string)
    requires StartsWith(s, '{') && Skip(s[1..]) == Skip(more) && !StartsWith(Skip(more), '}')
    requires ParseMembers(more) == Ok(members, rest)
    ensures ParseValue(s) == Ok(Object(members), rest)
  {
    hide Skip, ParseItems, ParseString, ParseNumber, ParseMember;
    MembersSkip(s[1..], more);
  }

  lemma LiteralIs(text: string, rest: string)
    ensures text == "null" + rest ==> ParseValue(text) == Ok(Null, rest)
    ensures text == "false" + rest ==> ParseValue(text) == Ok(False, rest)
    ensures text == "true" + rest ==> ParseValue(text) == Ok(True, rest)
  {
    hide Skip, ParseItems, ParseMembers, ParseString, ParseNumber;
    if text == "null" + rest {
      assert text[4..] == rest;
    } else if text == "false" + rest {
      assert text[0] == 'f' && text[5..] == rest;
    } else if text == "true" + rest {
      assert text[0] == 't' && text[4..] == rest;
    }
  }

  lemma NumberIs(text: string, n: int, rest: string)
    requires text != "" && (text[0] == '-' || IsDigit(text[0])) && ParseNumber(text) == Ok(Number(n), rest)
    ensures ParseValue(text) == Ok(Number(n), rest)
  {
    hide Skip, ParseItems, ParseMembers, ParseString, ParseNumber;
  }

  lemma StringIs(text: string, s: string, rest: string)
    requires ParseString(text) == Ok(s, rest)
    ensures ParseValue(text) == Ok(String(s), rest)
  {
    hide Skip, ParseItems, ParseMembers, ParseNumber, ParseChars;
  }

  lemma IntStarts(n: int)
    ensures PrintInt(n) != "" && (PrintInt(n)[0] == '-' || IsDigit(PrintInt(n)[0]))
  {
    DigitsLead(if n < 0 then -n else n);
  }

  /** A printed value starts at a character that is neither blank nor a closing bracket. */
  lemma PrintStarts(v: Json, depth: nat, fmt: bool)
    ensures Print(v, depth, fmt) != ""
    ensures Print(v, depth, fmt)[0] as int > 32 && Print(v, depth, fmt)[0] != ']'
  {
    hide PrintItems, PrintMembers, Tabs, PrintInt, Escape;
    if v.Number? {
      IntStarts(v.n);
    }
  }

  /** cJSON_Parse gives back the value that cJSON_Print and cJSON_PrintUnformatted wrote, at any
      depth, and stops exactly after it. */
  lemma {:induction false} ValueRoundTrip(v: Json, depth: nat, fmt: bool, rest: string)
    requires Storable(v) && Follow(rest)
    ensures ParseValue(Print(v, depth, fmt) + rest) == Ok(v, rest)
    decreases v, 1
  {
    hide Skip, ParseValue, ParseNumber, ParseString, ParseItems, ParseMembers, PrintItems, PrintMembers, PrintInt, PrintString;
    var text := Print(v, depth, fmt) + rest;
    match v
    case Null => LiteralIs(text, rest);
    case False => LiteralIs(text, rest);
    case True => LiteralIs(text, rest);
    case Number(n) =>
      IntStarts(n);
      IntRoundTrip(n, rest);
      NumberIs(text, n, rest);
    case String(s) =>
      StringRoundTrip(s, rest);
      StringIs(text, s, rest);
    case Array(items) => ArrayRoundTrip(v, depth, fmt, rest);
    case Object(members) => ObjectRoundTrip(v, depth, fmt, rest);
  }

  lemma EmptyIs(s: string)
    ensures StartsWith(s, '[') && StartsWith(Skip(s[1..]), ']') ==> ParseValue(s) == Ok(Array([]), Skip(s[1..])[1..])
    ensures StartsWith(s, '{') && StartsWith(Skip(s[1..]), '}') ==> ParseValue(s) == Ok(Object([]), Skip(s[1..])[1..])
  {
    hide Skip, ParseItems, ParseMembers, ParseNumber, ParseString;
  }

  lemma {:induction false} ArrayRoundTrip(v: Json, depth: nat, fmt: bool, rest: string)
    requires v.Array? && Storable(v)
    ensures ParseValue(Print(v, depth, fmt) + rest) == Ok(v, rest)
    decreases v, 0
  {
    hide Skip, ParseValue, ParseItems, PrintItems;
    var text := Print(v, depth, fmt) + rest;
    var more := PrintItems(v.items, depth + 1, fmt) + "]" + rest;
    assert text[0] == '[' && text[1..] == more;
    if v.items == [] {
      ItemsStart(v.items, depth + 1, fmt);
      assert more == "]" + rest;
      SkipStays(more);
      assert more[1..] == rest;
      EmptyIs(text);
    } else {
      ItemsRoundTrip(v.items, depth + 1, fmt, rest);
      ItemsStart(v.items, depth + 1, fmt);
      SkipStays(more);
      ArrayIs(text, v.items, more, rest);
    }
  }

  lemma ItemsStart(items: seq<Json>, depth: nat, fmt: bool)
    ensures var text := PrintItems(items, depth, fmt);
      if items == [] then text == "" else text != "" && text[0] as int > 32 && text[0] != ']'
  {
    hide Print;
    if items != [] {
      PrintStarts(items[0], depth, fmt);
    }
  }

  lemma {:induction false} ItemsRoundTrip(items: seq<Json>, depth: nat, fmt: bool, rest: string)
    requires items != [] && forall i :: 0 <= i < |items| ==> Storable(items[i])
    ensures ParseItems(PrintItems(items, depth, fmt) + "]" + rest) == Ok(items, rest)
    decreases items, 1
  {
    hide Skip, Print, ParseValue, ParseItems, Storable;
    var text := PrintItems(items, depth, fmt) + "]" + rest;
    var first := Print(items[0], depth, fmt);
    PrintStarts(items[0], depth, fmt);
    if |items| == 1 {
      var tail := "]" + rest;
      assert text == first + tail;
      SkipStays(text);
      SkipStays(tail);
      ValueRoundTrip(items[0], depth, fmt, tail);
      assert tail[1..] == rest;
      ItemsEnd(text, items[0], tail);
      assert items == [items[0]];
    } else {
      var gap, more := When(fmt, " "), PrintItems(items[1..], depth, fmt) + "]" + rest;
      var tail := "," + gap + more;
      assert text == first + tail;
      SkipStays(text);
      SkipStays(tail);
      ValueRoundTrip(items[0], depth, fmt, tail);
      assert tail[1..] == gap + more;
      SkipBlank(gap, more);
      ItemsRoundTrip(items[1..], depth, fmt, rest);
      ItemsGoOn(text, items[0], tail, more, items[1..], rest);
      assert items == [items[0]] + items[1..];
    }
  }

  lemma {:induction false} ObjectRoundTrip(v: Json, depth: nat, fmt: bool, rest: string)
    requires v.Object? && Storable(v)
    ensures ParseValue(Print(v, depth, fmt) + rest) == Ok(v, rest)
    decreases v, 0
  {
    hide Skip, Tabs, ParseValue, ParseMembers, PrintMembers;
    if v.members == [] {
      EmptyObject(depth, fmt, rest);
    } else {
      var gap, end := When(fmt, "\n"), When(fmt, Tabs(depth));
      var more := PrintMembers(v.members, depth + 1, fmt) + end + "}" + rest;
      assert Print(v, depth, fmt) + rest == "{" + (gap + more);
      GapIsBlank(fmt);
      SkipBlank(gap, more);
      TabsAreBlank(depth);
      MembersRoundTrip(v.members, depth + 1, fmt, end, rest);
      MembersStart(v.members, depth + 1, fmt, more);
      assert ("{" + (gap + more))[1..] == gap + more;
      ObjectIs("{" + (gap + more), v.members, more, rest);
    }
  }

  lemma EmptyObject(depth: nat, fmt: bool, rest: string)
    ensures ParseValue(Print(Object([]), depth, fmt) + rest) == Ok(Object([]), rest)
  {
    hide Skip, Tabs, ParseValue;
    var text := Print(Object([]), depth, fmt) + rest;
    var gap, tail := When(fmt, "\n" + Tabs(depth - 1)), "}" + rest;
    TabsAreBlank(depth - 1);
    assert text[0] == '{' && text[1..] == gap + tail;
    SkipBlank(gap, tail);
    SkipStays(tail);
    assert tail[1..] == rest;
    EmptyIs(text);
  }

  /** After its blanks a printed member starts with the quote of its name. */
  lemma MembersStart(members: seq<Member>, depth: nat, fmt: bool, text: string)
    requires members != [] && PrintMembers(members, depth, fmt) <= text
    ensures StartsWith(Skip(text), QUOTE)
  {
    hide Skip, Tabs, Print;
    var tabs := When(fmt, Tabs(depth));
    var first := PrintMember(members[0], depth, fmt);
    assert first <= PrintMembers(members, depth, fmt);
    TabsAreBlank(depth);
    assert tabs <= first && first[|tabs|] == QUOTE;
    assert text == tabs + text[|tabs|..];
    SkipBlank(tabs, text[|tabs|..]);
    SkipStays(text[|tabs|..]);
  }

  lemma {:induction false} MemberRoundTrip(m: Member, depth: nat, fmt: bool, rest: string)
    requires Bytes(m.name) && Storable(m.value) && Follow(rest)
    ensures ParseMember(PrintMember(m, depth, fmt) + rest) == Ok(m, rest)
    decreases m, 0
  {
    hide Skip, Print, PrintString, ParseValue, ParseString, ParseMember, Tabs, Storable;
    var tabs, gap := When(fmt, Tabs(depth)), When(fmt, "\t");
    var value := Print(m.value, depth, fmt) + rest;
    var tail := ":" + gap + value;
    var text := PrintString(m.name) + tail;
    TabsAreBlank(depth);
    assert PrintMember(m, depth, fmt) + rest == tabs + text;
    SkipBlank(tabs, text);
    StringRoundTrip(m.name, tail);
    QuoteStays(m.name, tail);
    SkipStays(tail);
    assert tail[1..] == gap + value;
    SkipBlank(gap, value);
    PrintStarts(m.value, depth, fmt);
    SkipStays(value);
    ValueRoundTrip(m.value, depth, fmt, rest);
    MemberIs(tabs + text, m, tail, value, rest);
  }

  lemma QuoteStays(s: string, rest: string)
    ensures Skip(PrintString(s) + rest) == PrintString(s) + rest
  {
  }

  lemma {:induction false} MembersRoundTrip(members: seq<Member>, depth: nat, fmt: bool, end: string, rest: string)
    requires members != [] && Blank(end)
    requires forall i :: 0 <= i < |members| ==> Bytes(members[i].name) && Storable(members[i].value)
    ensures ParseMembers(PrintMembers(members, depth, fmt) + end + "}" + rest) == Ok(members, rest)
    decreases members, 1
  {
    hide Skip, PrintMember, PrintMembers, ParseMember, ParseMembers, Storable, Bytes, Blank;
    var text := PrintMembers(members, depth, fmt) + end + "}" + rest;
    if |members| == 1 {
      var blank := When(fmt, "\n") + end;
      LastMember(members, depth, fmt, end, rest);
      BlankEnd(fmt, end, rest);
      MemberRoundTrip(members[0], depth, fmt, blank + ("}" + rest));
      MembersEnd(text, members[0], blank + ("}" + rest));
      assert members == [members[0]];
    } else {
      var gap, more := When(fmt, "\n"), PrintMembers(members[1..], depth, fmt) + end + "}" + rest;
      var tail := "," + gap + more;
      FirstMember(members, depth, fmt, end, rest);
      SkipStays(tail);
      MemberRoundTrip(members[0], depth, fmt, tail);
      assert tail[1..] == gap + more;
      GapIsBlank(fmt);
      SkipBlank(gap, more);
      MembersRoundTrip(members[1..], depth, fmt, end, rest);
      MembersGoOn(text, members[0], tail, more, members[1..], rest);
      assert members == [members[0]] + members[1..];
    }
  }

  lemma GapIsBlank(fmt: bool)
    ensures Blank(When(fmt, "\n"))
  {
  }

  lemma BlankEnd(fmt: bool, end: string, rest: string)
    requires Blank(end)
    ensures var tail := When(fmt, "\n") + end + ("}" + rest);
            Follow(tail) && StartsWith(Skip(tail), '}') && Skip(tail)[1..] == rest
  {
    hide Skip;
    var gap := When(fmt, "\n");
    SkipBlank(gap + end, "}" + rest);
    SkipStays("}" + rest);
    assert ("}" + rest)[1..] == rest;
    assert (gap + end + ("}" + rest))[0] == if gap + end == "" then '}' else (gap + end)[0];
  }

  lemma LastMember(members: seq<Member>, depth: nat, fmt: bool, end: string, rest: string)
    requires |members| == 1
    ensures PrintMembers(members, depth, fmt) + end + "}" + rest
      == PrintMember(members[0], depth, fmt) + (When(fmt, "\n") + end + ("}" + rest))
  {
    hide PrintMember;
    assert PrintMembers(members[1..], depth, fmt) == "";
    assert PrintMembers(members, depth, fmt) == PrintMember(members[0], depth, fmt) + When(fmt, "\n");
  }

  lemma FirstMember(members: seq<Member>, depth: nat, fmt: bool, end: string, rest: string)
    requires |members| > 1
    ensures PrintMembers(members, depth, fmt) + end + "}" + rest
      == PrintMember(members[0], depth, fmt) + ("," + When(fmt, "\n") + (PrintMembers(members[1..], depth, fmt) + end + "}" + rest))
  {
    hide PrintMember;
    var first, gap, more := PrintMember(members[0], depth, fmt), When(fmt, "\n"), PrintMembers(members[1..], depth, fmt);
    assert PrintMembers(members, depth, fmt) == first + "," + gap + more;
    assert first + "," + gap + more + end + "}" + rest == first + ("," + gap + (more + end + "}" + rest));
  }

  lemma RoundTrip(v: Json, fmt: bool)
    requires Storable(v)
    ensures ParseText(Print(v, 0, fmt)) == Ok(v, "")
  {
    hide Print, ParseValue;
    var text := Print(v, 0, fmt);
    PrintStarts(v, 0, fmt);
    assert text + "" == text;
    ValueRoundTrip(v, 0, fmt, "");
  }
}
