/** JSON texts as trees (sections 2 to 5 of RFC 8259), with anything between their tokens that may stand there, comments
    included: cJSON_Parse reads what they mean, cJSON_Minify takes out what stands between, and cJSON_Print writes
    such a text. */
module CjsonTrees {
  import opened CjsonText
  import opened CjsonProofs
  import opened CjsonMinify
  import opened CjsonSyntax

  // ----- between the tokens ---------------------------------------------------------------------------------

  datatype Filler = Space(c: char) | Line(text: string) | Block(text: string) {
    predicate Valid() {
      match this
      case Space(c) => c in " \t\r\n"
      case Line(text) => forall i :: 0 <= i < |text| ==> text[i] != '\n'
      case Block(text) => NoEnd("*" + text)
    }

    function Text(): string {
      match this
      case Space(c) => [c]
      case Line(text) => "//" + text + "\n"
      case Block(text) => "/*" + text + "*/"
    }
  }

  predicate NoEnd(s: string) {
    forall i :: 0 <= i < |s| - 1 ==> !(s[i] == '*' && s[i + 1] == '/')
  }

  type Gap = seq<Filler>

  predicate ValidGap(g: Gap) {
    forall i :: 0 <= i < |g| ==> g[i].Valid()
  }

  predicate NoComments(g: Gap) {
    forall i :: 0 <= i < |g| ==> g[i].Space?
  }

  function GapText(g: Gap): string {
    if g == [] then "" else g[0].Text() + GapText(g[1..])
  }

  lemma {:induction false} GapIsBlank(g: Gap)
    requires ValidGap(g) && NoComments(g)
    ensures CjsonProofs.Blank(GapText(g))
  {
    if g != [] {
      GapIsBlank(g[1..]);
    }
  }

  lemma {:induction false} SkipsLine(text: string, rest: string)
    requires Line(text).Valid()
    ensures SkipLine(text + "\n" + rest) == "\n" + rest
  {
    if text == "" {
      assert text + "\n" + rest == "\n" + rest;
    } else {
      assert (text + "\n" + rest)[1..] == text[1..] + "\n" + rest;
      SkipsLine(text[1..], rest);
    }
  }

  lemma {:induction false} SkipsComment(s: string, rest: string)
    requires NoEnd(s)
    ensures SkipComment(s + "*/" + rest) == Ok("", rest)
  {
    var text := s + "*/" + rest;
    if s == "" {
      assert text == "*/" + rest;
    } else {
      assert text[1..] == s[1..] + "*/" + rest;
      SkipsComment(s[1..], rest);
      assert !("*/" <= text) by {
        assert text[0] == s[0] && text[1] == if |s| > 1 then s[1] else '*';
      }
    }
  }

  lemma FillerGoes(f: Filler, rest: string)
    requires f.Valid()
    ensures Minify(f.Text() + rest) == Minify(rest)
  {
    hide Minify;
    match f
    case Space(c) => BlankGoes([c], rest);
    case Line(text) =>
      var s := f.Text() + rest;
      assert s == ("//" + text) + "\n" + rest;
      SkipsLine("//" + text, rest);
      LineStep(s);
      BlankGoes("\n", rest);
    case Block(text) =>
      var s := f.Text() + rest;
      assert s == "/" + (("*" + text) + "*/" + rest);
      assert s[1..] == ("*" + text) + "*/" + rest;
      SkipsComment("*" + text, rest);
      BlockStep(s);
  }

  lemma LineStep(s: string)
    requires "//" <= s
    ensures Minify(s) == Minify(SkipLine(s))
  {
    hide SkipComment, SkipLine;
    assert s[0] == '/';
    SkipLineShrinks(s);
  }

  lemma BlockStep(s: string)
    requires "/*" <= s && SkipComment(s[1..]).Ok?
    ensures Minify(s) == Minify(SkipComment(s[1..]).rest)
  {
    hide SkipLine;
    assert s[0] == '/' && s[1] == '*';
  }

  /** The minifier takes a gap out. */
  lemma {:induction false} GapGoes(g: Gap, rest: string)
    requires ValidGap(g)
    ensures Minify(GapText(g) + rest) == Minify(rest)
  {
    hide Minify, Filler.Text;
    if g == [] {
      assert GapText(g) + rest == rest;
    } else {
      assert GapText(g) + rest == g[0].Text() + (GapText(g[1..]) + rest);
      FillerGoes(g[0], GapText(g[1..]) + rest);
      GapGoes(g[1..], rest);
    }
  }

  // ----- trees ------------------------------------------------------------------------------------------------

  datatype Tree =
    | NullTree
    | FalseTree
    | TrueTree
    | NumberTree(negative: bool, digits: seq<nat>)
    | StringTree(pieces: seq<Piece>)
    | ArrayTree(items: seq<Item>, inside: Gap)
    | ObjectTree(entries: seq<Entry>, inside: Gap)

  datatype Item = Item(before: Gap, value: Tree, after: Gap)

  datatype Entry = Entry(before: Gap, name: seq<Piece>, middle: Gap, between: Gap, value: Tree, after: Gap)

  /** A tree whose numbers are 32-bit integers. */
  predicate Valid(t: Tree) {
    match t
    case NumberTree(negative, digits) => ValidDigits(digits) && INT_MIN <= NumberMeaning(negative, digits) <= INT_MAX
    case StringTree(pieces) => ValidPieces(pieces)
    case ArrayTree(items, inside) =>
      && ValidGap(inside)
      && forall i :: 0 <= i < |items| ==> ValidGap(items[i].before) && ValidGap(items[i].after) && Valid(items[i].value)
    case ObjectTree(entries, inside) =>
      && ValidGap(inside)
      && forall i :: 0 <= i < |entries| ==>
                       && ValidGap(entries[i].before) && ValidPieces(entries[i].name) && ValidGap(entries[i].middle)
                       && ValidGap(entries[i].between) && Valid(entries[i].value) && ValidGap(entries[i].after)
    case _ => true
  }

  predicate ValidItem(item: Item) {
    ValidGap(item.before) && ValidGap(item.after) && Valid(item.value)
  }

  predicate ValidEntry(e: Entry) {
    && ValidGap(e.before) && ValidPieces(e.name) && ValidGap(e.middle)
    && ValidGap(e.between) && Valid(e.value) && ValidGap(e.after)
  }

  /** A tree without comments. */
  predicate Spaced(t: Tree) {
    match t
    case ArrayTree(items, inside) =>
      && NoComments(inside)
      && forall i :: 0 <= i < |items| ==> NoComments(items[i].before) && NoComments(items[i].after) && Spaced(items[i].value)
    case ObjectTree(entries, inside) =>
      && NoComments(inside)
      && forall i :: 0 <= i < |entries| ==>
                       && NoComments(entries[i].before) && NoComments(entries[i].middle)
                       && NoComments(entries[i].between) && Spaced(entries[i].value) && NoComments(entries[i].after)
    case _ => true
  }

  predicate SpacedItem(item: Item) {
    NoComments(item.before) && NoComments(item.after) && Spaced(item.value)
  }

  predicate SpacedEntry(e: Entry) {
    && NoComments(e.before) && NoComments(e.middle)
    && NoComments(e.between) && Spaced(e.value) && NoComments(e.after)
  }

  function Meaning(t: Tree): Json
    requires Valid(t)
    decreases t, 0
  {
    match t
    case NullTree => Null
    case FalseTree => False
    case TrueTree => True
    case NumberTree(negative, digits) => Number(NumberMeaning(negative, digits))
    case StringTree(pieces) => String(PiecesMeaning(pieces))
    case ArrayTree(items, _) => Array(ItemsMeaning(items))
    case ObjectTree(entries, _) => Object(EntriesMeaning(entries))
  }

  function ItemsMeaning(items: seq<Item>): seq<Json>
    requires forall i :: 0 <= i < |items| ==> ValidItem(items[i])
    decreases items, 1
  {
    if items == [] then []
    else
      assert ValidItem(items[0]);
      [Meaning(items[0].value)] + ItemsMeaning(items[1..])
  }

  function EntriesMeaning(entries: seq<Entry>): seq<Member>
    requires forall i :: 0 <= i < |entries| ==> ValidEntry(entries[i])
    decreases entries, 1
  {
    if entries == [] then []
    else
      assert ValidEntry(entries[0]);
      [Member(PiecesMeaning(entries[0].name), Meaning(entries[0].value))] + EntriesMeaning(entries[1..])
  }

  /** What stands in a gap, or nothing. */
  function Fill(g: Gap, gaps: bool): string {
    if gaps then GapText(g) else ""
  }

  /** The text of a tree, with what stands between its tokens or without. */
  function Text(t: Tree, gaps: bool): string
    requires Valid(t)
    decreases t, 0
  {
    match t
    case NullTree => "null"
    case FalseTree => "false"
    case TrueTree => "true"
    case NumberTree(negative, digits) => NumberText(negative, digits)
    case StringTree(pieces) => StringText(pieces)
    case ArrayTree(items, inside) => "[" + (if items == [] then Fill(inside, gaps) else ItemsText(items, gaps)) + "]"
    case ObjectTree(entries, inside) => "{" + (if entries == [] then Fill(inside, gaps) else EntriesText(entries, gaps)) + "}"
  }

  function ItemText(item: Item, gaps: bool): string
    requires ValidItem(item)
    decreases item, 1
  {
    Fill(item.before, gaps) + Text(item.value, gaps) + Fill(item.after, gaps)
  }

  function ItemsText(items: seq<Item>, gaps: bool): string
    requires items != [] && forall i :: 0 <= i < |items| ==> ValidItem(items[i])
    decreases items, 2
  {
    if |items| == 1 then ItemText(items[0], gaps) else ItemText(items[0], gaps) + "," + ItemsText(items[1..], gaps)
  }

  function EntryText(e: Entry, gaps: bool): string
    requires ValidEntry(e)
    decreases e, 1
  {
    Fill(e.before, gaps) + StringText(e.name) + Fill(e.middle, gaps) + ":" + Fill(e.between, gaps) + Text(e.value, gaps) + Fill(e.after, gaps)
  }

  function EntriesText(entries: seq<Entry>, gaps: bool): string
    requires entries != [] && forall i :: 0 <= i < |entries| ==> ValidEntry(entries[i])
    decreases entries, 2
  {
    if |entries| == 1 then EntryText(entries[0], gaps) else EntryText(entries[0], gaps) + "," + EntriesText(entries[1..], gaps)
  }

  // ----- reading ------------------------------------------------------------------------------------------------

  /** A value begins with a character that is no blank and closes nothing. */
  lemma TextStarts(t: Tree, gaps: bool)
    requires Valid(t)
    ensures Text(t, gaps) != "" && Text(t, gaps)[0] as int > 32 && Text(t, gaps)[0] != ']' && Text(t, gaps)[0] != '}'
  {
    hide ItemsText, EntriesText, PiecesText, GapText;
    if t.NumberTree? {
      OneDigit(t.digits[0]);
      assert NumberText(t.negative, t.digits)[0] == if t.negative then '-' else DigitsText(t.digits)[0];
    }
  }

  lemma SkipToText(g: Gap, t: Tree, rest: string)
    requires ValidGap(g) && NoComments(g) && Valid(t)
    ensures Skip(GapText(g) + (Text(t, true) + rest)) == Text(t, true) + rest
  {
    hide Skip, Text, GapText;
    GapIsBlank(g);
    SkipBlank(GapText(g), Text(t, true) + rest);
    TextStarts(t, true);
    SkipStays(Text(t, true) + rest);
  }

  /** Behind a gap stands a token of one character. */
  lemma SkipToToken(g: Gap, c: char, rest: string)
    requires ValidGap(g) && NoComments(g) && c in ",:]}"
    ensures var s := GapText(g) + ([c] + rest);
            Skip(s) == [c] + rest && Follow(s) && ([c] + rest)[1..] == rest
  {
    hide Skip, GapText;
    GapIsBlank(g);
    SkipBlank(GapText(g), [c] + rest);
    SkipStays([c] + rest);
    assert (GapText(g) + ([c] + rest))[0] == if GapText(g) == "" then c else GapText(g)[0];
  }

  /** cJSON_Parse reads what the tree means, at any depth, and stops right behind it. */
  lemma {:induction false} TreeReads(t: Tree, rest: string)
    requires Valid(t) && Spaced(t) && (t.NumberTree? ==> Follow(rest))
    ensures ParseValue(Text(t, true) + rest) == Ok(Meaning(t), rest)
    decreases t, 1
  {
    hide ParseValue, ItemsText, EntriesText, NumberText, StringText, PiecesMeaning, DigitsValue, GapText;
    var text := Text(t, true) + rest;
    match t
    case NullTree => LiteralIs(text, rest);
    case FalseTree => LiteralIs(text, rest);
    case TrueTree => LiteralIs(text, rest);
    case NumberTree(negative, digits) => NumberReads(negative, digits, rest);
    case StringTree(pieces) => StringReads(pieces, rest);
    case ArrayTree(items, inside) => ArrayReads(t, rest);
    case ObjectTree(entries, inside) => ObjectReads(t, rest);
  }

  lemma {:induction false} ArrayReads(t: Tree, rest: string)
    requires t.ArrayTree? && Valid(t) && Spaced(t)
    ensures ParseValue(Text(t, true) + rest) == Ok(Meaning(t), rest)
    decreases t, 0
  {
    hide ParseValue, ParseItems, Skip, ItemsText, GapText;
    var text := Text(t, true) + rest;
    if t.items == [] {
      assert text[1..] == GapText(t.inside) + ("]" + rest);
      SkipToToken(t.inside, ']', rest);
      EmptyIs(text);
    } else {
      var more := ItemsText(t.items, true) + ("]" + rest);
      assert text[1..] == more;
      ItemsRead(t.items, rest);
      ItemsBegin(t.items, "]" + rest);
      ArrayIs(text, ItemsMeaning(t.items), more, rest);
    }
  }

  lemma ItemsBegin(items: seq<Item>, rest: string)
    requires items != [] && forall i :: 0 <= i < |items| ==> ValidItem(items[i]) && SpacedItem(items[i])
    ensures !StartsWith(Skip(ItemsText(items, true) + rest), ']')
  {
    hide Skip, Text, GapText;
    var item := items[0];
    ItemsAre(items, true, rest);
    var tail := GapText(item.after) + (if |items| == 1 then rest else "," + (ItemsText(items[1..], true) + rest));
    SkipToText(item.before, item.value, tail);
    TextStarts(item.value, true);
    assert (Text(item.value, true) + tail)[0] == Text(item.value, true)[0];
  }

  /** The text of a list of items, one by one. */
  lemma ItemsAre(items: seq<Item>, gaps: bool, rest: string)
    requires items != [] && forall i :: 0 <= i < |items| ==> ValidItem(items[i])
    ensures ValidItem(items[0])
    ensures var item := items[0];
            var tail := if |items| == 1 then rest else "," + (ItemsText(items[1..], gaps) + rest);
            ItemsText(items, gaps) + rest == Fill(item.before, gaps) + (Text(item.value, gaps) + (Fill(item.after, gaps) + tail))
  {
    hide Text, GapText, Valid;
    var item := items[0];
    var b, v, a := Fill(item.before, gaps), Text(item.value, gaps), Fill(item.after, gaps);
    assert ItemText(item, gaps) == b + v + a;
    if |items| == 1 {
      assert b + v + a + rest == b + (v + (a + rest));
    } else {
      var more := ItemsText(items[1..], gaps);
      assert b + v + a + "," + more + rest == b + (v + (a + ("," + (more + rest))));
    }
  }

  lemma OneMeaning(items: seq<Item>)
    requires |items| == 1 && ValidItem(items[0])
    ensures ItemsMeaning(items) == [Meaning(items[0].value)]
  {
    assert items[1..] == [];
  }

  lemma OneMember(entries: seq<Entry>)
    requires |entries| == 1 && ValidEntry(entries[0])
    ensures EntriesMeaning(entries) == [Member(PiecesMeaning(entries[0].name), Meaning(entries[0].value))]
  {
    assert entries[1..] == [];
  }

  lemma {:induction false} ItemsRead(items: seq<Item>, rest: string)
    requires items != [] && forall i :: 0 <= i < |items| ==> ValidItem(items[i]) && SpacedItem(items[i])
    ensures ParseItems(ItemsText(items, true) + ("]" + rest)) == Ok(ItemsMeaning(items), rest)
    decreases items, 2
  {
    hide Skip, ParseValue, ParseItems, Text, GapText, Valid, Spaced, Meaning;
    var item := items[0];
    var text := ItemsText(items, true) + ("]" + rest);
    ItemsAre(items, true, "]" + rest);
    if |items| == 1 {
      OneMeaning(items);
      var tail := GapText(item.after) + ("]" + rest);
      SkipToText(item.before, item.value, tail);
      SkipToToken(item.after, ']', rest);
      TreeReads(item.value, tail);
      ItemsEnd(text, Meaning(item.value), tail);
    } else {
      var more := ItemsText(items[1..], true) + ("]" + rest);
      var tail := GapText(item.after) + ("," + more);
      SkipToText(item.before, item.value, tail);
      SkipToToken(item.after, ',', more);
      TreeReads(item.value, tail);
      ItemsRead(items[1..], rest);
      ItemsGoOn(text, Meaning(item.value), tail, more, ItemsMeaning(items[1..]), rest);
    }
  }

  lemma {:induction false} ObjectReads(t: Tree, rest: string)
    requires t.ObjectTree? && Valid(t) && Spaced(t)
    ensures ParseValue(Text(t, true) + rest) == Ok(Meaning(t), rest)
    decreases t, 0
  {
    hide ParseValue, ParseMembers, Skip, EntriesText, GapText;
    var text := Text(t, true) + rest;
    if t.entries == [] {
      assert text[1..] == GapText(t.inside) + ("}" + rest);
      SkipToToken(t.inside, '}', rest);
      EmptyIs(text);
    } else {
      var more := EntriesText(t.entries, true) + ("}" + rest);
      assert text[1..] == more;
      EntriesRead(t.entries, rest);
      EntriesBegin(t.entries, "}" + rest);
      ObjectIs(text, EntriesMeaning(t.entries), more, rest);
    }
  }

  lemma SkipToName(g: Gap, name: seq<Piece>, rest: string)
    requires ValidGap(g) && NoComments(g) && ValidPieces(name)
    ensures Skip(GapText(g) + (StringText(name) + rest)) == StringText(name) + rest
  {
    hide Skip, GapText, PiecesText;
    GapIsBlank(g);
    SkipBlank(GapText(g), StringText(name) + rest);
    SkipStays(StringText(name) + rest);
  }

  /** What follows the name of an entry. */
  function BehindName(e: Entry, rest: string): string
    requires ValidEntry(e)
  {
    GapText(e.middle) + (":" + (GapText(e.between) + (Text(e.value, true) + (GapText(e.after) + rest))))
  }

  lemma EntryIs(e: Entry, rest: string)
    requires ValidEntry(e)
    ensures EntryText(e, true) + rest == GapText(e.before) + (StringText(e.name) + BehindName(e, rest))
  {
    hide Text, GapText, StringText;
    var b, n, m, w, v, a := GapText(e.before), StringText(e.name), GapText(e.middle), GapText(e.between), Text(e.value, true), GapText(e.after);
    assert b + n + m + ":" + w + v + a + rest == b + (n + (m + (":" + (w + (v + (a + rest))))));
  }

  lemma EntriesBegin(entries: seq<Entry>, rest: string)
    requires entries != [] && forall i :: 0 <= i < |entries| ==> ValidEntry(entries[i]) && SpacedEntry(entries[i])
    ensures !StartsWith(Skip(EntriesText(entries, true) + rest), '}')
  {
    hide Skip, EntryText, GapText, PiecesText, BehindName;
    var e := entries[0];
    var tail := (if |entries| == 1 then "" else "," + EntriesText(entries[1..], true)) + rest;
    assert EntriesText(entries, true) + rest == EntryText(e, true) + tail;
    EntryIs(e, tail);
    SkipToName(e.before, e.name, BehindName(e, tail));
  }

  lemma {:induction false} EntryReads(e: Entry, c: char, rest: string)
    requires ValidEntry(e) && SpacedEntry(e) && c in ",}"
    ensures var tail := GapText(e.after) + ([c] + rest);
            ParseMember(EntryText(e, true) + ([c] + rest)) == Ok(Member(PiecesMeaning(e.name), Meaning(e.value)), tail)
    decreases e, 2
  {
    hide Skip, ParseValue, ParseString, ParseMember, EntryText, Text, GapText, StringText, Valid, Spaced, Meaning;
    var tail := GapText(e.after) + ([c] + rest);
    var value := Text(e.value, true) + tail;
    var text := EntryText(e, true) + ([c] + rest);
    var behind := BehindName(e, [c] + rest);
    EntryIs(e, [c] + rest);
    SkipToName(e.before, e.name, behind);
    StringReads(e.name, behind);
    SkipToToken(e.middle, ':', GapText(e.between) + value);
    SkipToText(e.between, e.value, tail);
    SkipToToken(e.after, c, rest);
    TreeReads(e.value, tail);
    MemberIs(text, Member(PiecesMeaning(e.name), Meaning(e.value)), behind, value, tail);
  }

  lemma {:induction false} EntriesRead(entries: seq<Entry>, rest: string)
    requires entries != [] && forall i :: 0 <= i < |entries| ==> ValidEntry(entries[i]) && SpacedEntry(entries[i])
    ensures ParseMembers(EntriesText(entries, true) + ("}" + rest)) == Ok(EntriesMeaning(entries), rest)
    decreases entries, 3
  {
    hide Skip, ParseMember, ParseMembers, EntryText, GapText, ValidEntry, SpacedEntry, Meaning, PiecesMeaning;
    var e := entries[0];
    var text := EntriesText(entries, true) + ("}" + rest);
    ValidOne(e);
    var m := Member(PiecesMeaning(e.name), Meaning(e.value));
    if |entries| == 1 {
      EntryReads(e, '}', rest);
      SkipToToken(e.after, '}', rest);
      MembersEnd(text, m, GapText(e.after) + ("}" + rest));
      OneMember(entries);
    } else {
      var more := EntriesText(entries[1..], true) + ("}" + rest);
      assert text == EntryText(e, true) + ("," + more);
      EntryReads(e, ',', more);
      SkipToToken(e.after, ',', more);
      EntriesRead(entries[1..], rest);
      MembersGoOn(text, m, GapText(e.after) + ("," + more), more, EntriesMeaning(entries[1..]), rest);
    }
  }

  lemma ValidOne(e: Entry)
    requires ValidEntry(e) && SpacedEntry(e)
    ensures ValidPieces(e.name) && Valid(e.value) && ValidGap(e.after) && NoComments(e.after)
  {
  }

  /** The same for a whole text: blanks before the value are skipped, what follows it is not looked at. */
  lemma TextReads(before: Gap, t: Tree, rest: string)
    requires ValidGap(before) && NoComments(before) && Valid(t) && Spaced(t) && (t.NumberTree? ==> Follow(rest))
    ensures ParseText(GapText(before) + (Text(t, true) + rest)) == Ok(Meaning(t), rest)
  {
    hide Skip, ParseValue, Text, GapText, Valid, Spaced, Meaning;
    SkipToText(before, t, rest);
    TreeReads(t, rest);
  }
}
