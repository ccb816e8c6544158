/** What cJSON.c makes of texts that are JSON, and what it refuses, said over the trees of CjsonTrees. */
module CjsonLaws {
  import opened CjsonText
  import opened CjsonProofs
  import opened CjsonMinify
  import opened CjsonSyntax
  import opened CjsonTrees

  // ----- minifying ---------------------------------------------------------------------------------------------

  lemma HexIsHarmless(q: FourHex)
    requires q.Valid()
    ensures forall i :: 0 <= i < 4 ==> q.Text()[i] != QUOTE && q.Text()[i] != BACKSLASH
  {
    HexReads(q.a);
    HexReads(q.b);
    HexReads(q.c);
    HexReads(q.d);
  }

  lemma PieceStays(p: Piece, rest: string)
    requires p.Valid()
    ensures MinifyLiteral(p.Text() + rest) == Prepend(p.Text(), MinifyLiteral(rest))
  {
    hide MinifyLiteral, FourHex.Text;
    match p
    case Plain(c) => InsideStays([c], rest);
    case Short(c) => EscapeStays("\\" + [c], rest);
    case Unit(code) =>
      HexIsHarmless(code);
      EscapeStays("\\u" + code.Text(), rest);
    case Pair(high, low) =>
      var first, second := "\\u" + high.Text(), "\\u" + low.Text();
      HexIsHarmless(high);
      HexIsHarmless(low);
      assert p.Text() == first + second && first + second + rest == first + (second + rest);
      EscapeStays(first, second + rest);
      EscapeStays(second, rest);
      PrependTwice(first, second, MinifyLiteral(rest));
  }

  lemma {:induction false} PiecesStay(pieces: seq<Piece>, rest: string)
    requires ValidPieces(pieces)
    ensures MinifyLiteral(PiecesText(pieces) + "\"" + rest) == Prepend(PiecesText(pieces) + "\"", Minify(rest))
  {
    hide Minify, MinifyLiteral, Piece.Text;
    if pieces == [] {
      ClosingStays(rest);
      assert PiecesText(pieces) + "\"" + rest == "\"" + rest && PiecesText(pieces) + "\"" == "\"";
    } else {
      var head, tail := pieces[0].Text(), PiecesText(pieces[1..]) + "\"";
      assert PiecesText(pieces) + "\"" + rest == head + (tail + rest);
      assert PiecesText(pieces) + "\"" == head + tail;
      PiecesStay(pieces[1..], rest);
      PieceStays(pieces[0], tail + rest);
      PrependTwice(head, tail, Minify(rest));
    }
  }

  lemma NameStays(pieces: seq<Piece>, rest: string)
    requires ValidPieces(pieces)
    ensures Minify(StringText(pieces) + rest) == Prepend(StringText(pieces), Minify(rest))
  {
    hide Minify, MinifyLiteral, PiecesText;
    var inside := PiecesText(pieces) + "\"";
    assert StringText(pieces) + rest == "\"" + (inside + rest);
    assert StringText(pieces) == "\"" + inside;
    OpeningStays(inside + rest);
    PiecesStay(pieces, rest);
    PrependTwice("\"", inside, Minify(rest));
  }

  lemma NumberIsPlain(negative: bool, digits: seq<nat>)
    requires ValidDigits(digits)
    ensures CjsonMinify.Plain(NumberText(negative, digits))
  {
    var s := DigitsText(digits);
    forall i | 0 <= i < |s|
      ensures IsDigit(s[i])
    {
      OneDigit(digits[i]);
    }
  }

  /** A gap with what stands behind it, and both with what stands before them. */
  lemma FillGoes(g: Gap, rest: string)
    requires ValidGap(g)
    ensures Minify(Fill(g, true) + rest) == Minify(rest) && Fill(g, false) == ""
  {
    hide Minify, GapText;
    GapGoes(g, rest);
  }

  /** cJSON_Minify takes out exactly what stands between the tokens, comments included, at any depth and before any
      text. */
  lemma {:induction false} TreeMinified(t: Tree, rest: string)
    requires Valid(t)
    ensures Minify(Text(t, true) + rest) == Prepend(Text(t, false), Minify(rest))
    decreases t, 2
  {
    hide Minify, NumberText, StringText, ItemsText, EntriesText, GapText;
    match t
    case NullTree => PlainStays("null", rest);
    case FalseTree => PlainStays("false", rest);
    case TrueTree => PlainStays("true", rest);
    case NumberTree(negative, digits) =>
      NumberIsPlain(negative, digits);
      PlainStays(NumberText(negative, digits), rest);
    case StringTree(pieces) => NameStays(pieces, rest);
    case ArrayTree(items, inside) => ArrayMinified(t, rest);
    case ObjectTree(entries, inside) => ObjectTreeMinified(t, rest);
  }

  lemma {:induction false} ArrayMinified(t: Tree, rest: string)
    requires Valid(t) && t.ArrayTree?
    ensures Minify(Text(t, true) + rest) == Prepend(Text(t, false), Minify(rest))
    decreases t, 1
  {
    hide Minify, ItemsText, GapText;
    var long := if t.items == [] then GapText(t.inside) else ItemsText(t.items, true);
    var short := if t.items == [] then "" else ItemsText(t.items, false);
    assert Text(t, true) + rest == "[" + (long + ("]" + rest));
    if t.items == [] {
      GapGoes(t.inside, "]" + rest);
      PrependNothing(Minify("]" + rest));
    } else {
      ItemsMinified(t.items, "]" + rest);
    }
    Bracketed("[", long, short, "]", rest);
    assert "[" + short + "]" == Text(t, false);
  }

  lemma {:induction false} ObjectTreeMinified(t: Tree, rest: string)
    requires Valid(t) && t.ObjectTree?
    ensures Minify(Text(t, true) + rest) == Prepend(Text(t, false), Minify(rest))
    decreases t, 1
  {
    hide Minify, EntriesText, GapText;
    var long := if t.entries == [] then GapText(t.inside) else EntriesText(t.entries, true);
    var short := if t.entries == [] then "" else EntriesText(t.entries, false);
    assert Text(t, true) + rest == "{" + (long + ("}" + rest));
    if t.entries == [] {
      GapGoes(t.inside, "}" + rest);
      PrependNothing(Minify("}" + rest));
    } else {
      EntriesMinified(t.entries, "}" + rest);
    }
    Bracketed("{", long, short, "}", rest);
    assert "{" + short + "}" == Text(t, false);
  }

  lemma Bracketed(open: string, long: string, short: string, close: string, rest: string)
    requires CjsonMinify.Plain(open) && CjsonMinify.Plain(close)
    requires Minify(long + (close + rest)) == Prepend(short, Minify(close + rest))
    ensures Minify(open + (long + (close + rest))) == Prepend(open + short + close, Minify(rest))
  {
    hide Minify;
    PlainStays(open, long + (close + rest));
    PlainStays(close, rest);
    PrependTwice(short, close, Minify(rest));
    PrependTwice(open, short + close, Minify(rest));
    assert open + (short + close) == open + short + close;
  }

  lemma {:induction false} ItemsMinified(items: seq<Item>, rest: string)
    requires items != [] && forall i :: 0 <= i < |items| ==> ValidItem(items[i])
    ensures Minify(ItemsText(items, true) + rest) == Prepend(ItemsText(items, false), Minify(rest))
    decreases items, 3
  {
    hide Minify, Text, GapText, Valid, ItemsText;
    var item := items[0];
    ItemsAre(items, true, rest);
    ItemsAre(items, false, "");
    var short := Text(item.value, false);
    if |items| == 1 {
      FillGoes(item.after, rest);
      TreeMinified(item.value, GapText(item.after) + rest);
      FillGoes(item.before, Text(item.value, true) + (GapText(item.after) + rest));
      Together(ItemsText(items, false), short, "", "");
    } else {
      var long, last := ItemsText(items[1..], true), ItemsText(items[1..], false);
      var tail := "," + (long + rest);
      PlainStays(",", long + rest);
      ItemsMinified(items[1..], rest);
      FillGoes(item.after, tail);
      TreeMinified(item.value, GapText(item.after) + tail);
      FillGoes(item.before, Text(item.value, true) + (GapText(item.after) + tail));
      PrependTwice(",", last, Minify(rest));
      PrependTwice(short, "," + last, Minify(rest));
      Together(ItemsText(items, false), short, ",", last);
    }
  }

  lemma Together(whole: string, a: string, b: string, c: string)
    requires whole + "" == "" + (a + ("" + (if b == "" then "" else b + (c + ""))))
    ensures whole == if b == "" then a else a + (b + c)
  {
    assert whole + "" == whole && c + "" == c && a + "" == a;
    assert "" + (a + "") == a && (b != "" ==> "" + (a + ("" + (b + c))) == a + (b + c));
  }

  lemma {:induction false} EntriesMinified(entries: seq<Entry>, rest: string)
    requires entries != [] && forall i :: 0 <= i < |entries| ==> ValidEntry(entries[i])
    ensures Minify(EntriesText(entries, true) + rest) == Prepend(EntriesText(entries, false), Minify(rest))
    decreases entries, 3
  {
    hide Minify, EntryText, ValidEntry;
    var e := entries[0];
    if |entries| == 1 {
      EntryMinified(e, rest);
    } else {
      var long, last, short := EntriesText(entries[1..], true), EntriesText(entries[1..], false), EntryText(e, false);
      assert EntriesText(entries, true) + rest == EntryText(e, true) + ("," + (long + rest));
      EntryMinified(e, "," + (long + rest));
      PlainStays(",", long + rest);
      EntriesMinified(entries[1..], rest);
      PrependTwice(",", last, Minify(rest));
      PrependTwice(short, "," + last, Minify(rest));
      assert short + ("," + last) == EntriesText(entries, false);
    }
  }

  lemma {:induction false} EntryMinified(e: Entry, rest: string)
    requires ValidEntry(e)
    ensures Minify(EntryText(e, true) + rest) == Prepend(EntryText(e, false), Minify(rest))
    decreases e, 3
  {
    hide Minify, Text, GapText, StringText, Valid;
    var name, short := StringText(e.name), Text(e.value, false);
    var end := GapText(e.after) + rest;
    var value := GapText(e.between) + (Text(e.value, true) + end);
    EntryIs(e, rest);
    GapGoes(e.after, rest);
    TreeMinified(e.value, end);
    GapGoes(e.between, Text(e.value, true) + end);
    PlainStays(":", value);
    GapGoes(e.middle, ":" + value);
    NameStays(e.name, GapText(e.middle) + (":" + value));
    GapGoes(e.before, name + BehindName(e, rest));
    PrependTwice(":", short, Minify(rest));
    PrependTwice(name, ":" + short, Minify(rest));
    assert "" + name + "" + ":" + "" + short + "" == name + (":" + short);
  }

  /** A whole text, with gaps before and behind it. */
  lemma TextMinified(before: Gap, t: Tree, after: Gap)
    requires ValidGap(before) && ValidGap(after) && Valid(t)
    ensures Minify(GapText(before) + (Text(t, true) + GapText(after))) == Clean(Text(t, false))
  {
    hide Minify, Text, GapText, Valid;
    GapGoes(before, Text(t, true) + GapText(after));
    TreeMinified(t, GapText(after));
    GapGoes(after, "");
    assert GapText(after) + "" == GapText(after);
    NothingMinified();
    assert Text(t, false) + "" == Text(t, false);
  }

  lemma NothingMinified()
    ensures Minify("") == Clean("")
  {
  }

  /** The star that opens a comment may close it too, which it may not in C. */
  lemma ShortComment(rest: string)
    ensures Minify("/*/" + rest) == Minify(rest)
  {
    hide Minify;
    var s := "/*/" + rest;
    assert s[1..] == "*/" + rest && ("*/" + rest)[2..] == rest;
    BlockStep(s);
  }

  // ----- printing ------------------------------------------------------------------------------------------------

  lemma {:induction false} DigitsOf(n: nat) returns (digits: seq<nat>)
    ensures ValidDigits(digits) && DigitsText(digits) == Digits(n) && DigitsValue(digits) == n
    ensures digits[0] == 0 ==> n == 0
  {
    OneDigit(n % 10);
    if n < 10 {
      digits := [n];
      assert digits[..0] == [];
      assert DigitsText(digits) == [('0' as int + n) as char];
    } else {
      var d := DigitsOf(n / 10);
      digits := d + [n % 10];
      assert digits[..|d|] == d;
      assert DigitsText(digits) == DigitsText(d) + [('0' as int + n % 10) as char];
    }
  }

  lemma HexLower(n: nat) returns (q: FourHex)
    requires n < 0x10000
    ensures q.Valid() && q.Text() == Hex4(n) && q.Code() == n
  {
    hide Hex.Text, HexDigit;
    var d3, d2, d1, d0 := n / 4096, n / 256 % 16, n / 16 % 16, n % 16;
    FourDigits(n);
    q := FourHex(Hex(d3, false), Hex(d2, false), Hex(d1, false), Hex(d0, false));
    LowerIs(d3);
    LowerIs(d2);
    LowerIs(d1);
    LowerIs(d0);
  }

  lemma FourDigits(n: nat)
    requires n < 0x10000
    ensures n / 4096 < 16 && n == 0x1000 * (n / 4096) + 0x100 * (n / 256 % 16) + 0x10 * (n / 16 % 16) + n % 16
  {
    var a := n / 16;
    var b := a / 16;
    assert b == n / 256 && b / 16 == n / 4096;
    assert n == 16 * a + n % 16 && a == 16 * b + a % 16 && b == 16 * (b / 16) + b % 16;
  }

  lemma LowerIs(d: nat)
    requires d < 16
    ensures Hex(d, false).Text() == HexDigit(d)
  {
    if d < 10 {
      TenDigits(d);
    } else {
      SixLetters(d);
    }
  }

  /** What is written for a character: itself, or an escape that means it. */
  lemma PieceOf(c: char) returns (p: Piece)
    requires 0 < c as int < 256
    ensures p.Valid() && p.Text() == EscapeChar(c) && p.Meaning() == [c]
  {
    if EscapeChar(c) == [c] {
      p := Plain(c);
    } else if |EscapeChar(c)| == 2 {
      p := Short(EscapeChar(c)[1]);
    } else {
      var q := HexLower(c as int);
      p := Unit(q);
    }
  }

  lemma {:induction false} PiecesOf(s: string) returns (pieces: seq<Piece>)
    requires Bytes(s)
    ensures ValidPieces(pieces) && PiecesText(pieces) == Escape(s) && PiecesMeaning(pieces) == s
  {
    hide EscapeChar, Piece.Text, Piece.Meaning, Piece.Valid;
    if s == "" {
      pieces := [];
    } else {
      var p := PieceOf(s[0]);
      var more := PiecesOf(s[1..]);
      pieces := [p] + more;
      assert pieces[1..] == more && s == [s[0]] + s[1..];
    }
  }

  lemma StringOf(s: string) returns (pieces: seq<Piece>)
    requires Bytes(s)
    ensures ValidPieces(pieces) && StringText(pieces) == PrintString(s) && PiecesMeaning(pieces) == s
  {
    pieces := PiecesOf(s);
  }

  /** Blanks and tabs as a gap. */
  lemma {:induction false} GapOf(w: string) returns (g: Gap)
    requires CjsonProofs.Blank(w)
    ensures ValidGap(g) && NoComments(g) && GapText(g) == w
  {
    if w == "" {
      g := [];
    } else {
      var more := GapOf(w[1..]);
      g := [Space(w[0])] + more;
      assert g[1..] == more && w == [w[0]] + w[1..];
    }
  }

  /** A printed value is the text of a tree that means it, without comments. */
  lemma {:induction false} PrintIsText(v: Json, depth: nat, fmt: bool) returns (t: Tree)
    requires Storable(v)
    ensures Valid(t) && Spaced(t) && Text(t, true) == Print(v, depth, fmt) && Meaning(t) == v
    decreases v, 4
  {
    hide PrintItems, PrintMembers, PrintString, DigitsValue, PiecesText, PiecesMeaning, ItemsText, EntriesText, Tabs, GapText;
    match v
    case Null => t := NullTree;
    case False => t := FalseTree;
    case True => t := TrueTree;
    case Number(n) =>
      var digits := DigitsOf(if n < 0 then -n else n);
      t := NumberTree(n < 0, digits);
    case String(s) =>
      var pieces := StringOf(s);
      t := StringTree(pieces);
    case Array(items) => t := ArrayOf(items, depth, fmt);
    case Object(members) => t := ObjectOf(members, depth, fmt);
  }

  lemma {:induction false} ArrayOf(items: seq<Json>, depth: nat, fmt: bool) returns (t: Tree)
    requires forall i :: 0 <= i < |items| ==> Storable(items[i])
    ensures Valid(t) && Spaced(t) && Text(t, true) == Print(Array(items), depth, fmt) && Meaning(t) == Array(items)
    decreases items, 3
  {
    hide PrintItems, ItemsText, GapText, Storable;
    if items == [] {
      t := ArrayTree([], []);
      NoItems(depth, fmt);
    } else {
      var list := ItemsOf(items, depth + 1, fmt, "");
      t := ArrayTree(list, []);
      assert "" + PrintItems(items, depth + 1, fmt) == PrintItems(items, depth + 1, fmt);
    }
  }

  lemma {:induction false} ObjectOf(members: seq<Member>, depth: nat, fmt: bool) returns (t: Tree)
    requires forall i :: 0 <= i < |members| ==> Bytes(members[i].name) && Storable(members[i].value)
    ensures Valid(t) && Spaced(t) && Text(t, true) == Print(Object(members), depth, fmt) && Meaning(t) == Object(members)
    decreases members, 3
  {
    hide PrintMembers, EntriesText, GapText, Tabs, Storable, Bytes, Print, Meaning;
    if members == [] {
      TabsAreBlank(depth - 1);
      var inside := GapOf(When(fmt, "\n" + Tabs(depth - 1)));
      t := ObjectTree([], inside);
      NoEntries(inside, depth, fmt);
    } else {
      var end := When(fmt, Tabs(depth));
      TabsAreBlank(depth);
      var list := EntriesOf(members, depth + 1, fmt, end);
      t := ObjectTree(list, []);
      SomeEntries(list, members, depth, fmt);
    }
  }

  lemma NoEntries(inside: Gap, depth: nat, fmt: bool)
    requires ValidGap(inside) && GapText(inside) == When(fmt, "\n" + Tabs(depth - 1))
    ensures Text(ObjectTree([], inside), true) == Print(Object([]), depth, fmt) && Meaning(ObjectTree([], inside)) == Object([])
  {
    hide GapText, Tabs;
  }

  lemma SomeEntries(list: seq<Entry>, members: seq<Member>, depth: nat, fmt: bool)
    requires list != [] && members != [] && (forall i :: 0 <= i < |list| ==> ValidEntry(list[i])) && EntriesMeaning(list) == members
    requires EntriesText(list, true) == When(fmt, "\n") + PrintMembers(members, depth + 1, fmt) + When(fmt, Tabs(depth))
    ensures Text(ObjectTree(list, []), true) == Print(Object(members), depth, fmt) && Meaning(ObjectTree(list, [])) == Object(members)
  {
    hide PrintMembers, EntriesText, EntriesMeaning, Tabs;
    Braced(When(fmt, "\n"), PrintMembers(members, depth + 1, fmt), When(fmt, Tabs(depth)));
  }

  lemma Braced(line: string, inside: string, end: string)
    ensures "{" + line + inside + end + "}" == "{" + (line + inside + end) + "}"
  {
  }

  lemma NoItems(depth: nat, fmt: bool)
    ensures PrintItems([], depth + 1, fmt) == "" && Fill([], true) == ""
  {
  }

  lemma {:induction false} ItemsOf(items: seq<Json>, depth: nat, fmt: bool, before: string) returns (list: seq<Item>)
    requires items != [] && CjsonProofs.Blank(before) && forall i :: 0 <= i < |items| ==> Storable(items[i])
    ensures list != [] && forall i :: 0 <= i < |list| ==> ValidItem(list[i]) && SpacedItem(list[i])
    ensures ItemsText(list, true) == before + PrintItems(items, depth, fmt) && ItemsMeaning(list) == items
    decreases items, 2
  {
    hide Print, PrintItems, Storable, ValidItem, SpacedItem, ItemText, Meaning;
    var first := ItemOf(items[0], depth, fmt, before);
    PrintItemsStep(items, depth, fmt, before);
    if |items| == 1 {
      list := [first];
      OneMeaning(list);
      assert items == [items[0]];
    } else {
      var more := ItemsOf(items[1..], depth, fmt, When(fmt, " "));
      list := [first] + more;
      assert list[1..] == more;
      ItemsStep(list);
      assert items == [items[0]] + items[1..];
    }
  }

  lemma ItemsStep(list: seq<Item>)
    requires |list| > 1 && forall i :: 0 <= i < |list| ==> ValidItem(list[i])
    ensures Valid(list[0].value)
    ensures ItemsText(list, true) == ItemText(list[0], true) + "," + ItemsText(list[1..], true)
    ensures ItemsMeaning(list) == [Meaning(list[0].value)] + ItemsMeaning(list[1..])
  {
    hide ItemText, Meaning, Valid;
    assert ValidItem(list[0]);
  }

  lemma PrintItemsStep(items: seq<Json>, depth: nat, fmt: bool, before: string)
    requires items != []
    ensures before + PrintItems(items, depth, fmt)
      == if |items| == 1 then before + Print(items[0], depth, fmt)
         else before + Print(items[0], depth, fmt) + "," + (When(fmt, " ") + PrintItems(items[1..], depth, fmt))
  {
    hide Print;
    var a, b, c := Print(items[0], depth, fmt), When(fmt, " "), PrintItems(items[1..], depth, fmt);
    assert before + a + "," + (b + c) == before + (a + "," + b + c);
  }

  lemma {:induction false} ItemOf(v: Json, depth: nat, fmt: bool, before: string) returns (item: Item)
    requires CjsonProofs.Blank(before) && Storable(v)
    ensures ValidItem(item) && Valid(item.value) && SpacedItem(item)
    ensures ItemText(item, true) == before + Print(v, depth, fmt) && Meaning(item.value) == v
    decreases v, 5
  {
    hide Print, Storable, Valid, Spaced, Text, Meaning, GapText;
    var t := PrintIsText(v, depth, fmt);
    var g := GapOf(before);
    var none := GapOf("");
    item := Item(g, t, none);
    assert before + Print(v, depth, fmt) + "" == before + Print(v, depth, fmt);
  }

  lemma {:induction false} EntriesOf(members: seq<Member>, depth: nat, fmt: bool, end: string) returns (list: seq<Entry>)
    requires members != [] && CjsonProofs.Blank(end)
    requires forall i :: 0 <= i < |members| ==> Bytes(members[i].name) && Storable(members[i].value)
    ensures list != [] && forall i :: 0 <= i < |list| ==> ValidEntry(list[i]) && SpacedEntry(list[i])
    ensures EntriesText(list, true) == When(fmt, "\n") + PrintMembers(members, depth, fmt) + end
    ensures EntriesMeaning(list) == members
    decreases members, 2
  {
    hide PrintMember, PrintMembers, Storable, Bytes, EntryText, Meaning, PiecesMeaning, ValidEntry, SpacedEntry;
    var line, m := When(fmt, "\n"), members[0];
    CjsonProofs.GapIsBlank(fmt);
    MembersStep(members, depth, fmt, end);
    if |members| == 1 {
      var first := EntryOf(m, depth, fmt, line + end);
      list := [first];
      MemberMeans(first, m);
      OneMember(list);
      assert members == [m];
    } else {
      var first := EntryOf(m, depth, fmt, "");
      var more := EntriesOf(members[1..], depth, fmt, end);
      list := [first] + more;
      MemberMeans(first, m);
      assert list[1..] == more && members == [m] + members[1..];
    }
  }

  lemma MembersStep(members: seq<Member>, depth: nat, fmt: bool, end: string)
    requires members != []
    ensures var line, a := When(fmt, "\n"), PrintMember(members[0], depth, fmt);
            line + PrintMembers(members, depth, fmt) + end
            == if |members| == 1 then line + a + (line + end)
               else line + a + "" + "," + (line + PrintMembers(members[1..], depth, fmt) + end)
  {
    hide PrintMember, PrintMembers;
    MembersUnfold(members, depth, fmt);
    MemberTexts(When(fmt, "\n"), PrintMember(members[0], depth, fmt), PrintMembers(members[1..], depth, fmt), end);
  }

  lemma MemberTexts(line: string, a: string, more: string, end: string)
    ensures line + (a + line) + end == line + a + (line + end)
    ensures line + (a + "," + line + more) + end == line + a + "" + "," + (line + more + end)
  {
    var left, right := line + (a + "," + line + more) + end, line + a + "" + "," + (line + more + end);
    assert line + a + "" == line + a;
    assert left == line + a + "," + line + more + end == right;
  }

  predicate Means(e: Entry, m: Member) {
    ValidEntry(e) && PiecesMeaning(e.name) == m.name && Meaning(e.value) == m.value
  }

  lemma MemberMeans(e: Entry, m: Member)
    requires Means(e, m)
    ensures ValidEntry(e) && ValidPieces(e.name) && Valid(e.value)
    ensures Member(PiecesMeaning(e.name), Meaning(e.value)) == m
  {
  }

  lemma {:induction false} EntryOf(m: Member, depth: nat, fmt: bool, end: string) returns (e: Entry)
    requires CjsonProofs.Blank(end) && Bytes(m.name) && Storable(m.value)
    ensures Means(e, m) && SpacedEntry(e)
    ensures EntryText(e, true) == When(fmt, "\n") + PrintMember(m, depth, fmt) + end
    decreases m, 2
  {
    hide Print, Storable, Bytes, Valid, Spaced, Text, Meaning, GapText, PiecesMeaning, PrintString, StringText, Tabs;
    var line, tabs, tab := When(fmt, "\n"), When(fmt, Tabs(depth)), When(fmt, "\t");
    TabsAreBlank(depth);
    var name := StringOf(m.name);
    var t := PrintIsText(m.value, depth, fmt);
    var before := GapOf(line + tabs);
    var none := GapOf("");
    var between := GapOf(tab);
    var after := GapOf(end);
    e := Entry(before, name, none, between, t, after);
    var n, v := PrintString(m.name), Print(m.value, depth, fmt);
    assert line + tabs + n + "" + ":" + tab + v + end == line + (tabs + n + ":" + tab + v) + end;
  }

  // ----- layout --------------------------------------------------------------------------------------------------

  function Join(texts: seq<string>, separator: string): string {
    if texts == [] then ""
    else if |texts| == 1 then texts[0]
    else texts[0] + separator + Join(texts[1..], separator)
  }

  function Printed(items: seq<Json>, depth: nat, fmt: bool): seq<string> {
    seq(|items|, i requires 0 <= i < |items| => Print(items[i], depth, fmt))
  }

  /** The lines of an object, without what separates them. */
  function MemberLines(members: seq<Member>, depth: nat, fmt: bool): seq<string> {
    seq(|members|, i requires 0 <= i < |members| =>
      (if fmt then Tabs(depth) else "") + PrintString(members[i].name) + (if fmt then ":\t" else ":") + Print(members[i].value, depth, fmt))
  }

  lemma {:induction false} ItemsAreJoined(items: seq<Json>, depth: nat, fmt: bool)
    ensures PrintItems(items, depth, fmt) == Join(Printed(items, depth, fmt), if fmt then ", " else ",")
  {
    hide Print;
    var p := Printed(items, depth, fmt);
    if |items| > 1 {
      ItemsAreJoined(items[1..], depth, fmt);
      assert p[1..] == Printed(items[1..], depth, fmt);
      assert p[0] + "," + When(fmt, " ") == p[0] + if fmt then ", " else ",";
    }
  }

  lemma {:induction false} MembersAreJoined(members: seq<Member>, depth: nat, fmt: bool)
    requires members != []
    ensures PrintMembers(members, depth, fmt)
      == Join(MemberLines(members, depth, fmt), if fmt then ",\n" else ",") + if fmt then "\n" else ""
  {
    hide PrintMembers, PrintMember, Join, MemberLines;
    var p := MemberLines(members, depth, fmt);
    var line, separator := if fmt then "\n" else "", if fmt then ",\n" else ",";
    LinesStep(members, depth, fmt);
    MembersUnfold(members, depth, fmt);
    JoinStep(p, separator);
    if |members| > 1 {
      MembersAreJoined(members[1..], depth, fmt);
      Separated(p[0], line, separator, Join(p[1..], separator));
    }
  }

  lemma Separated(a: string, line: string, separator: string, more: string)
    requires separator == "," + line
    ensures a + "," + line + (more + line) == a + separator + more + line
  {
  }

  lemma LinesStep(members: seq<Member>, depth: nat, fmt: bool)
    requires members != []
    ensures var p := MemberLines(members, depth, fmt);
            |p| == |members| && p[0] == PrintMember(members[0], depth, fmt) && p[1..] == MemberLines(members[1..], depth, fmt)
  {
    hide PrintString, Tabs, Print, PrintMember;
    LineIs(members[0], depth, fmt);
  }

  lemma JoinStep(texts: seq<string>, separator: string)
    requires texts != []
    ensures Join(texts, separator) == if |texts| == 1 then texts[0] else texts[0] + separator + Join(texts[1..], separator)
  {
  }

  lemma MembersUnfold(members: seq<Member>, depth: nat, fmt: bool)
    requires members != []
    ensures var line, a := (if fmt then "\n" else ""), PrintMember(members[0], depth, fmt);
            PrintMembers(members, depth, fmt)
            == if |members| == 1 then a + line else a + "," + line + PrintMembers(members[1..], depth, fmt)
  {
    hide PrintMember;
    var line, a := (if fmt then "\n" else ""), PrintMember(members[0], depth, fmt);
    assert |members| == 1 ==> PrintMembers(members[1..], depth, fmt) == "" && a + "" + line + "" == a + line;
  }

  lemma LineIs(m: Member, depth: nat, fmt: bool)
    ensures PrintMember(m, depth, fmt)
      == (if fmt then Tabs(depth) else "") + PrintString(m.name) + (if fmt then ":\t" else ":") + Print(m.value, depth, fmt)
  {
    hide PrintString, Tabs, Print;
    var n, v := PrintString(m.name), Print(m.value, depth, fmt);
    assert When(fmt, Tabs(depth)) + n + ":" + When(fmt, "\t") + v
        == When(fmt, Tabs(depth)) + n + (if fmt then ":\t" else ":") + v;
  }

  /** The layout of cJSON_Print: items on one line, members on lines of their own, one tab deeper than the brace. */
  lemma Layout(items: seq<Json>, members: seq<Member>, depth: nat)
    requires members != []
    ensures Print(Array(items), depth, true) == "[" + Join(Printed(items, depth + 1, true), ", ") + "]"
    ensures Print(Array(items), depth, false) == "[" + Join(Printed(items, depth + 1, false), ",") + "]"
    ensures Print(Object(members), depth, true)
      == "{\n" + Join(MemberLines(members, depth + 1, true), ",\n") + "\n" + Tabs(depth) + "}"
    ensures Print(Object(members), depth, false) == "{" + Join(MemberLines(members, depth + 1, false), ",") + "}"
    ensures |Tabs(depth)| == depth && forall i :: 0 <= i < depth ==> Tabs(depth)[i] == '\t'
  {
    hide PrintItems, PrintMembers, Printed, MemberLines, Join;
    ItemsAreJoined(items, depth + 1, true);
    ItemsAreJoined(items, depth + 1, false);
    MembersAreJoined(members, depth + 1, true);
    MembersAreJoined(members, depth + 1, false);
    AllTabs(depth);
  }

  lemma EmptyLayout(depth: nat, fmt: bool)
    ensures Print(Array([]), depth, fmt) == "[]"
    ensures Print(Object([]), depth, fmt) == if fmt then "{\n" + Tabs(depth - 1) + "}" else "{}"
  {
    assert "{" + ("\n" + Tabs(depth - 1)) + "}" == "{\n" + Tabs(depth - 1) + "}";
  }

  lemma {:induction false} AllTabs(n: nat)
    ensures |Tabs(n)| == n && forall i :: 0 <= i < n ==> Tabs(n)[i] == '\t'
  {
    if n > 0 {
      AllTabs(n - 1);
    }
  }

  // ----- what is refused ----------------------------------------------------------------------------------------

  /** No value begins there. */
  predicate NoValue(s: string) {
    && (s == "" || (s[0] != '\"' && s[0] != '-' && !('0' <= s[0] <= '9') && s[0] != '[' && s[0] != '{'))
    && !("null" <= s) && !("false" <= s) && !("true" <= s)
  }

  lemma NoValueFails(s: string)
    requires NoValue(s)
    ensures ParseValue(s) == Fail
  {
    hide ParseNumber, ParseString, ParseItems, ParseMembers, Skip;
  }

  /** What may not follow an item of a list that `close` ends: the end of the text, or anything but a comma and the
      closing bracket; or a comma behind which what comes next is refused. */
  predicate Stops(s: string, close: char) {
    Follow(s) && (s == "" || (s[0] as int > 32 && s[0] != ',' && s[0] != close))
  }

  lemma ItemsStop(s: string, v: Json, tail: string)
    requires ParseValue(Skip(s)) == Ok(v, tail)
    ensures var next := Skip(tail);
            && (!StartsWith(next, ',') && !StartsWith(next, ']') ==> ParseItems(s) == Fail)
            && (StartsWith(next, ',') && ParseItems(next[1..]) == Fail ==> ParseItems(s) == Fail)
  {
    hide ParseValue, Skip;
  }

  lemma MembersStop(s: string, m: Member, tail: string)
    requires ParseMember(s) == Ok(m, tail)
    ensures var next := Skip(tail);
            && (!StartsWith(next, ',') && !StartsWith(next, '}') ==> ParseMembers(s) == Fail)
            && (StartsWith(next, ',') && ParseMembers(next[1..]) == Fail ==> ParseMembers(s) == Fail)
  {
    hide ParseMember, Skip;
  }

  lemma SkipStop(g: Gap, s: string, close: char)
    requires ValidGap(g) && NoComments(g) && Stops(s, close)
    ensures Skip(GapText(g) + s) == s && Follow(GapText(g) + s)
  {
    hide Skip, GapText;
    CjsonTrees.GapIsBlank(g);
    SkipBlank(GapText(g), s);
    if s == "" {
      NothingSkipped();
    } else {
      SkipStays(s);
    }
    if GapText(g) == "" {
      assert GapText(g) + s == s;
    } else {
      assert (GapText(g) + s)[0] == GapText(g)[0];
    }
  }

  lemma NothingSkipped()
    ensures Skip("") == ""
  {
  }

  /** A list of items that is neither closed nor goes on. */
  lemma {:induction false} ItemsRefused(items: seq<Item>, s: string)
    requires items != [] && forall i :: 0 <= i < |items| ==> ValidItem(items[i]) && SpacedItem(items[i])
    ensures Stops(s, ']') ==> ParseItems(ItemsText(items, true) + s) == Fail
    ensures StartsWith(s, ',') && ParseItems(s[1..]) == Fail ==> ParseItems(ItemsText(items, true) + s) == Fail
    decreases |items|
  {
    hide Skip, ParseValue, ParseItems, CjsonTrees.Text, GapText, Valid, Spaced, CjsonTrees.Meaning;
    var item := items[0];
    ItemsAre(items, true, s);
    var text := ItemsText(items, true) + s;
    if |items| == 1 {
      var tail := GapText(item.after) + s;
      if Stops(s, ']') {
        SkipStop(item.after, s, ']');
      } else if StartsWith(s, ',') {
        SkipToToken(item.after, ',', s[1..]);
        assert [','] + s[1..] == s;
      }
      SkipToText(item.before, item.value, tail);
      if Stops(s, ']') || StartsWith(s, ',') {
        TreeReads(item.value, tail);
        ItemsStop(text, CjsonTrees.Meaning(item.value), tail);
      }
    } else {
      var more := ItemsText(items[1..], true) + s;
      var tail := GapText(item.after) + ("," + more);
      SkipToToken(item.after, ',', more);
      SkipToText(item.before, item.value, tail);
      TreeReads(item.value, tail);
      ItemsRefused(items[1..], s);
      ItemsStop(text, CjsonTrees.Meaning(item.value), tail);
    }
  }

  lemma {:induction false} EntriesRefused(entries: seq<Entry>, s: string)
    requires entries != [] && forall i :: 0 <= i < |entries| ==> ValidEntry(entries[i]) && SpacedEntry(entries[i])
    ensures Stops(s, '}') ==> ParseMembers(EntriesText(entries, true) + s) == Fail
    ensures StartsWith(s, ',') && ParseMembers(s[1..]) == Fail ==> ParseMembers(EntriesText(entries, true) + s) == Fail
    decreases |entries|
  {
    hide Skip, ParseMember, ParseMembers, EntryText, GapText, ValidEntry, SpacedEntry, CjsonTrees.Meaning, PiecesMeaning;
    var e := entries[0];
    var text := EntriesText(entries, true) + s;
    ValidOne(e);
    var m := Member(PiecesMeaning(e.name), CjsonTrees.Meaning(e.value));
    if |entries| == 1 {
      if Stops(s, '}') {
        EntryStops(e, s);
        SkipStop(e.after, s, '}');
        MembersStop(text, m, GapText(e.after) + s);
      } else if StartsWith(s, ',') {
        assert [','] + s[1..] == s;
        EntryReads(e, ',', s[1..]);
        SkipToToken(e.after, ',', s[1..]);
        MembersStop(text, m, GapText(e.after) + s);
      }
    } else {
      var more := EntriesText(entries[1..], true) + s;
      assert text == EntryText(e, true) + ("," + more);
      EntryReads(e, ',', more);
      SkipToToken(e.after, ',', more);
      EntriesRefused(entries[1..], s);
      MembersStop(text, m, GapText(e.after) + ("," + more));
    }
  }

  lemma EntryStops(e: Entry, s: string)
    requires ValidEntry(e) && SpacedEntry(e) && Stops(s, '}')
    ensures ParseMember(EntryText(e, true) + s) == Ok(Member(PiecesMeaning(e.name), CjsonTrees.Meaning(e.value)), GapText(e.after) + s)
  {
    hide Skip, ParseValue, ParseString, ParseMember, EntryText, CjsonTrees.Text, GapText, StringText, Valid, Spaced, CjsonTrees.Meaning, Stops;
    var tail := GapText(e.after) + s;
    var value := CjsonTrees.Text(e.value, true) + tail;
    var behind := BehindName(e, s);
    EntryIs(e, s);
    SkipToName(e.before, e.name, behind);
    StringReads(e.name, behind);
    SkipToToken(e.middle, ':', GapText(e.between) + value);
    SkipToText(e.between, e.value, tail);
    SkipStop(e.after, s, '}');
    TreeReads(e.value, tail);
    MemberIs(EntryText(e, true) + s, Member(PiecesMeaning(e.name), CjsonTrees.Meaning(e.value)), behind, value, tail);
  }

  /** An array is refused that is not closed behind an item, that has a comma too many, or that holds no value where
      one must stand. */
  lemma ArrayRefused(items: seq<Item>, g: Gap, s: string)
    requires items != [] && forall i :: 0 <= i < |items| ==> ValidItem(items[i]) && SpacedItem(items[i])
    requires ValidGap(g) && NoComments(g)
    ensures Stops(s, ']') ==> ParseValue("[" + (ItemsText(items, true) + s)) == Fail
    ensures NoValue(s) && Stops(s, ',') ==> ParseValue("[" + (ItemsText(items, true) + ("," + (GapText(g) + s)))) == Fail
    ensures NoValue(s) && Stops(s, ']') ==> ParseValue("[" + (GapText(g) + s)) == Fail
  {
    hide Skip, ParseValue, ParseItems, ItemsText, GapText, NoValue, Stops;
    ItemsRefused(items, s);
    ItemsBegin(items, s);
    ArrayFails("[" + (ItemsText(items, true) + s));
    if NoValue(s) && Stops(s, ',') {
      SkipStop(g, s, ',');
      NoValueFails(s);
      NoItem(GapText(g) + s);
      var t := "," + (GapText(g) + s);
      assert t[1..] == GapText(g) + s;
      ItemsRefused(items, t);
      ItemsBegin(items, t);
      ArrayFails("[" + (ItemsText(items, true) + t));
    }
    if NoValue(s) && Stops(s, ']') {
      SkipStop(g, s, ']');
      NoValueFails(s);
      NoItem(GapText(g) + s);
      NotClosed(s);
      ArrayFails("[" + (GapText(g) + s));
    }
  }

  lemma NotClosed(s: string)
    ensures Stops(s, ']') ==> !StartsWith(s, ']')
    ensures Stops(s, '}') ==> !StartsWith(s, '}')
  {
  }

  lemma NoItem(s: string)
    requires ParseValue(Skip(s)) == Fail
    ensures ParseItems(s) == Fail
  {
    hide Skip, ParseValue;
  }

  lemma ArrayFails(s: string)
    requires StartsWith(s, '[')
    ensures !StartsWith(Skip(s[1..]), ']') && ParseItems(s[1..]) == Fail ==> ParseValue(s) == Fail
  {
    hide Skip, ParseItems, ParseMembers, ParseNumber, ParseString;
  }

  lemma ObjectFails(s: string)
    requires StartsWith(s, '{')
    ensures !StartsWith(Skip(s[1..]), '}') && ParseMembers(s[1..]) == Fail ==> ParseValue(s) == Fail
  {
    hide Skip, ParseItems, ParseMembers, ParseNumber, ParseString;
  }

  lemma NoMember(s: string)
    requires !StartsWith(Skip(s), '\"')
    ensures ParseMember(s) == Fail && ParseMembers(s) == Fail
  {
    hide Skip, ParseValue;
  }

  /** An object is refused that is not closed behind a member, or in which something else stands where a name must. */
  lemma ObjectRefused(entries: seq<Entry>, g: Gap, s: string)
    requires entries != [] && forall i :: 0 <= i < |entries| ==> ValidEntry(entries[i]) && SpacedEntry(entries[i])
    requires ValidGap(g) && NoComments(g)
    ensures Stops(s, '}') ==> ParseValue("{" + (EntriesText(entries, true) + s)) == Fail
    ensures !StartsWith(s, '\"') && Stops(s, ',') ==> ParseValue("{" + (EntriesText(entries, true) + ("," + (GapText(g) + s)))) == Fail
    ensures !StartsWith(s, '\"') && Stops(s, '}') ==> ParseValue("{" + (GapText(g) + s)) == Fail
  {
    hide Skip, ParseValue, ParseMembers, EntriesText, GapText, Stops;
    EntriesRefused(entries, s);
    EntriesBegin(entries, s);
    ObjectFails("{" + (EntriesText(entries, true) + s));
    if !StartsWith(s, '\"') && Stops(s, ',') {
      SkipStop(g, s, ',');
      NoMember(GapText(g) + s);
      var t := "," + (GapText(g) + s);
      assert t[1..] == GapText(g) + s;
      EntriesRefused(entries, t);
      EntriesBegin(entries, t);
      ObjectFails("{" + (EntriesText(entries, true) + t));
    }
    if !StartsWith(s, '\"') && Stops(s, '}') {
      SkipStop(g, s, '}');
      NoMember(GapText(g) + s);
      NotClosed(s);
      ObjectFails("{" + (GapText(g) + s));
    }
  }

  /** A member without a colon behind its name, or without a value behind the colon. */
  lemma MemberRefused(e: Entry, s: string)
    requires ValidEntry(e) && SpacedEntry(e) && Stops(s, ':')
    ensures ParseMember(GapText(e.before) + (StringText(e.name) + (GapText(e.middle) + s))) == Fail
    ensures NoValue(s) ==>
              ParseMember(GapText(e.before) + (StringText(e.name) + (GapText(e.middle) + (":" + (GapText(e.between) + s))))) == Fail
  {
    hide Skip, ParseValue, ParseString, GapText, StringText, Valid, Spaced, NoValue, PiecesMeaning;
    var behind := GapText(e.middle) + s;
    SkipToName(e.before, e.name, behind);
    StringReads(e.name, behind);
    SkipStop(e.middle, s, ':');
    NoColon(GapText(e.before) + (StringText(e.name) + behind), PiecesMeaning(e.name), behind);
    if NoValue(s) {
      var more := GapText(e.middle) + (":" + (GapText(e.between) + s));
      SkipToName(e.before, e.name, more);
      StringReads(e.name, more);
      SkipToToken(e.middle, ':', GapText(e.between) + s);
      SkipStop(e.between, s, ':');
      NoValueFails(s);
      NoColon(GapText(e.before) + (StringText(e.name) + more), PiecesMeaning(e.name), more);
    }
  }

  lemma NoColon(s: string, name: string, tail: string)
    requires ParseString(Skip(s)) == Ok(name, tail)
    ensures !StartsWith(Skip(tail), ':') ==> ParseMember(s) == Fail
    ensures StartsWith(Skip(tail), ':') && ParseValue(Skip(Skip(tail)[1..])) == Fail ==> ParseMember(s) == Fail
  {
    hide Skip, ParseValue, ParseString;
  }
}
