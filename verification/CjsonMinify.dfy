/** cJSON_Minify keeps the meaning of a text: the minified formatted print is the unformatted print,
    and every text cJSON_Parse accepts in full is read as the same value afterwards. */
module CjsonMinify {
  import opened CjsonText
  import opened CjsonProofs

  lemma PrependTwice(a: string, b: string, r: Minified)
    ensures Prepend(a, Prepend(b, r)) == Prepend(a + b, r)
  {
    if r.Clean? {
      assert a + (b + r.text) == a + b + r.text;
    }
  }

  lemma PrependNothing(r: Minified)
    ensures Prepend("", r) == r
  {
    if r.Clean? {
      assert "" + r.text == r.text;
    }
  }

  /** Neither a blank nor the start of a literal or of a comment. */
  predicate Plain(t: string) {
    forall i :: 0 <= i < |t| ==> !IsBlank(t[i]) && t[i] != '/' && t[i] != QUOTE
  }

  lemma {:induction false} PlainStays(t: string, rest: string)
    requires Plain(t)
    ensures Minify(t + rest) == Prepend(t, Minify(rest))
  {
    if t == "" {
      assert t + rest == rest;
      PrependNothing(Minify(rest));
    } else {
      assert (t + rest)[..1] == t[..1] && (t + rest)[1..] == t[1..] + rest;
      PlainStays(t[1..], rest);
      PrependTwice(t[..1], t[1..], Minify(rest));
      assert t[..1] + t[1..] == t;
    }
  }

  lemma {:induction false} BlankGoes(w: string, rest: string)
    requires Blank(w)
    ensures Minify(w + rest) == Minify(rest)
  {
    if w == "" {
      assert w + rest == rest;
    } else {
      assert (w + rest)[1..] == w[1..] + rest;
      BlankGoes(w[1..], rest);
    }
  }

  /** Inside a literal, characters that neither close it nor escape stay. */
  lemma {:induction false} InsideStays(t: string, rest: string)
    requires forall i :: 0 <= i < |t| ==> t[i] != QUOTE && t[i] != BACKSLASH
    ensures MinifyLiteral(t + rest) == Prepend(t, MinifyLiteral(rest))
  {
    if t == "" {
      assert t + rest == rest;
      PrependNothing(MinifyLiteral(rest));
    } else {
      assert (t + rest)[..1] == t[..1] && (t + rest)[1..] == t[1..] + rest;
      InsideStays(t[1..], rest);
      PrependTwice(t[..1], t[1..], MinifyLiteral(rest));
      assert t[..1] + t[1..] == t;
    }
  }

  /** A backslash, the character after it, and characters that neither close nor escape. */
  lemma EscapeStays(t: string, rest: string)
    requires |t| >= 2 && t[0] == BACKSLASH
    requires forall i :: 2 <= i < |t| ==> t[i] != QUOTE && t[i] != BACKSLASH
    ensures MinifyLiteral(t + rest) == Prepend(t, MinifyLiteral(rest))
  {
    hide MinifyLiteral;
    assert (t + rest)[..2] == t[..2] && (t + rest)[2..] == t[2..] + rest;
    LiteralEscape(t + rest);
    InsideStays(t[2..], rest);
    PrependTwice(t[..2], t[2..], MinifyLiteral(rest));
    assert t[..2] + t[2..] == t;
  }

  lemma LiteralEscape(s: string)
    requires |s| >= 2 && s[0] == BACKSLASH
    ensures MinifyLiteral(s) == Prepend(s[..2], MinifyLiteral(s[2..]))
  {
  }

  // ----- the formatted print ------------------------------------------------------------------

  lemma HexIsInside(n: nat)
    requires n < 0x10000
    ensures forall i :: 0 <= i < 4 ==> Hex4(n)[i] != QUOTE && Hex4(n)[i] != BACKSLASH
  {
  }

  lemma {:induction false} EscapedStays(s: string, rest: string)
    requires Bytes(s)
    ensures MinifyLiteral(Escape(s) + [QUOTE] + rest) == Prepend(Escape(s) + [QUOTE], Minify(rest))
  {
    hide Minify, MinifyLiteral, EscapeChar;
    if s == "" {
      ClosingStays(rest);
      assert Escape(s) + [QUOTE] + rest == [QUOTE] + rest && Escape(s) + [QUOTE] == [QUOTE];
    } else {
      var head, tail := EscapeChar(s[0]), Escape(s[1..]) + [QUOTE];
      assert Escape(s) + [QUOTE] + rest == head + (tail + rest);
      assert Escape(s) + [QUOTE] == head + tail;
      EscapedStays(s[1..], rest);
      EscapeCharStays(s[0], tail + rest);
      PrependTwice(head, tail, Minify(rest));
    }
  }

  lemma ClosingStays(rest: string)
    ensures MinifyLiteral([QUOTE] + rest) == Prepend([QUOTE], Minify(rest))
  {
    assert ([QUOTE] + rest)[1..] == rest && ([QUOTE] + rest)[..1] == [QUOTE];
  }

  lemma OpeningStays(rest: string)
    ensures Minify([QUOTE] + rest) == Prepend([QUOTE], MinifyLiteral(rest))
  {
    assert ([QUOTE] + rest)[1..] == rest && ([QUOTE] + rest)[..1] == [QUOTE];
  }

  lemma EscapeCharStays(c: char, rest: string)
    requires c as int < 256
    ensures MinifyLiteral(EscapeChar(c) + rest) == Prepend(EscapeChar(c), MinifyLiteral(rest))
  {
    hide MinifyLiteral, Hex4;
    if EscapeChar(c) == [c] {
      InsideStays([c], rest);
    } else {
      HexIsInside(c as int);
      EscapeStays(EscapeChar(c), rest);
    }
  }

  lemma StringStays(s: string, rest: string)
    requires Bytes(s)
    ensures Minify(PrintString(s) + rest) == Prepend(PrintString(s), Minify(rest))
  {
    hide Minify, MinifyLiteral, Escape;
    var inside := Escape(s) + [QUOTE];
    assert PrintString(s) + rest == [QUOTE] + (inside + rest);
    assert PrintString(s) == [QUOTE] + inside;
    OpeningStays(inside + rest);
    EscapedStays(s, rest);
    PrependTwice([QUOTE], inside, Minify(rest));
  }

  lemma IntIsPlain(n: int)
    ensures Plain(PrintInt(n))
  {
    DigitsLead(if n < 0 then -n else n);
  }

  /** Minifying the formatted print of a value gives its unformatted print. */
  lemma {:induction false} ValueMinified(v: Json, depth: nat, rest: string)
    requires Storable(v)
    ensures Minify(Print(v, depth, true) + rest) == Prepend(Print(v, depth, false), Minify(rest))
    decreases v, 1
  {
    hide Minify, PrintInt, PrintString, PrintItems, PrintMembers;
    match v
    case Null => PlainStays("null", rest);
    case False => PlainStays("false", rest);
    case True => PlainStays("true", rest);
    case Number(n) =>
      IntIsPlain(n);
      PlainStays(PrintInt(n), rest);
    case String(s) => StringStays(s, rest);
    case Array(items) =>
      var long, short := PrintItems(items, depth + 1, true), PrintItems(items, depth + 1, false);
      assert Print(v, depth, true) + rest == "[" + (long + ("]" + rest));
      PlainStays("[", long + ("]" + rest));
      ItemsMinified(items, depth + 1, "]" + rest);
      PlainStays("]", rest);
      PrependTwice(short, "]", Minify(rest));
      PrependTwice("[", short + "]", Minify(rest));
      assert "[" + (short + "]") == Print(v, depth, false);
    case Object(members) => ObjectMinified(v, depth, rest);
  }

  lemma {:induction false} ItemsMinified(items: seq<Json>, depth: nat, rest: string)
    requires forall i :: 0 <= i < |items| ==> Storable(items[i])
    ensures Minify(PrintItems(items, depth, true) + rest) == Prepend(PrintItems(items, depth, false), Minify(rest))
    decreases items, 1
  {
    hide Minify, Print, Storable;
    if items == [] {
      assert "" + rest == rest;
      PrependNothing(Minify(rest));
    } else if |items| == 1 {
      ValueMinified(items[0], depth, rest);
    } else {
      var long, short := PrintItems(items[1..], depth, true), PrintItems(items[1..], depth, false);
      var head := Print(items[0], depth, false);
      assert PrintItems(items, depth, true) + rest == Print(items[0], depth, true) + ("," + (" " + (long + rest)));
      ValueMinified(items[0], depth, "," + (" " + (long + rest)));
      PlainStays(",", " " + (long + rest));
      BlankGoes(" ", long + rest);
      ItemsMinified(items[1..], depth, rest);
      PrependTwice(",", short, Minify(rest));
      PrependTwice(head, "," + short, Minify(rest));
      assert head + ("," + short) == PrintItems(items, depth, false);
    }
  }

  lemma {:induction false} ObjectMinified(v: Json, depth: nat, rest: string)
    requires v.Object? && Storable(v)
    ensures Minify(Print(v, depth, true) + rest) == Prepend(Print(v, depth, false), Minify(rest))
    decreases v, 0
  {
    hide Minify, PrintMembers, Tabs;
    if v.members == [] {
      var blank := "\n" + Tabs(depth - 1);
      TabsAreBlank(depth - 1);
      assert Print(v, depth, true) + rest == "{" + (blank + ("}" + rest));
      PlainStays("{", blank + ("}" + rest));
      BlankGoes(blank, "}" + rest);
      PlainStays("}", rest);
      PrependTwice("{", "}", Minify(rest));
      assert Print(v, depth, false) == "{" + "}";
    } else {
      var long, short := PrintMembers(v.members, depth + 1, true), PrintMembers(v.members, depth + 1, false);
      var end := Tabs(depth) + ("}" + rest);
      assert Print(v, depth, true) + rest == "{" + ("\n" + (long + end));
      PlainStays("{", "\n" + (long + end));
      BlankGoes("\n", long + end);
      MembersMinified(v.members, depth + 1, end);
      TabsAreBlank(depth);
      BlankGoes(Tabs(depth), "}" + rest);
      PlainStays("}", rest);
      PrependTwice(short, "}", Minify(rest));
      PrependTwice("{", short + "}", Minify(rest));
      assert Print(v, depth, false) == "{" + (short + "}");
    }
  }

  lemma {:induction false} MemberMinified(m: Member, depth: nat, rest: string)
    requires Bytes(m.name) && Storable(m.value)
    ensures Minify(PrintMember(m, depth, true) + rest) == Prepend(PrintMember(m, depth, false), Minify(rest))
    decreases m, 0
  {
    hide Minify, Print, Tabs, PrintString;
    var name, long, short := PrintString(m.name), Print(m.value, depth, true), Print(m.value, depth, false);
    assert PrintMember(m, depth, true) + rest == Tabs(depth) + (name + (":" + ("\t" + (long + rest))));
    TabsAreBlank(depth);
    BlankGoes(Tabs(depth), name + (":" + ("\t" + (long + rest))));
    StringStays(m.name, ":" + ("\t" + (long + rest)));
    PlainStays(":", "\t" + (long + rest));
    BlankGoes("\t", long + rest);
    ValueMinified(m.value, depth, rest);
    PrependTwice(":", short, Minify(rest));
    PrependTwice(name, ":" + short, Minify(rest));
    assert PrintMember(m, depth, false) == name + (":" + short);
  }

  lemma {:induction false} MembersMinified(members: seq<Member>, depth: nat, rest: string)
    requires forall i :: 0 <= i < |members| ==> Bytes(members[i].name) && Storable(members[i].value)
    ensures Minify(PrintMembers(members, depth, true) + rest) == Prepend(PrintMembers(members, depth, false), Minify(rest))
    decreases members, 1
  {
    hide Minify, PrintMember, Storable, Bytes;
    if members == [] {
      assert "" + rest == rest;
      PrependNothing(Minify(rest));
    } else {
      var long, short := PrintMembers(members[1..], depth, true), PrintMembers(members[1..], depth, false);
      var head, comma := PrintMember(members[0], depth, false), When(|members| > 1, ",");
      assert PrintMembers(members, depth, true) + rest == PrintMember(members[0], depth, true) + (comma + ("\n" + (long + rest)));
      MemberMinified(members[0], depth, comma + ("\n" + (long + rest)));
      PlainStays(comma, "\n" + (long + rest));
      BlankGoes("\n", long + rest);
      MembersMinified(members[1..], depth, rest);
      PrependTwice(comma, short, Minify(rest));
      PrependTwice(head, comma + short, Minify(rest));
      assert head + (comma + short) == PrintMembers(members, depth, false);
    }
  }

  lemma MinifyPrint(v: Json)
    requires Storable(v)
    ensures Minify(Print(v, 0, true)) == Clean(Print(v, 0, false))
  {
    hide Print;
    ValueMinified(v, 0, "");
    assert Print(v, 0, true) + "" == Print(v, 0, true);
    assert Print(v, 0, false) + "" == Print(v, 0, false);
  }
}
