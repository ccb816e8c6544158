/** What a file says, line by line, and which of its lines ini_puts leaves as they are (libcwmp/src/ini.c). */
module IniContent {
  import opened IniText
  import opened IniLaws

  // ----- what one line says -----------------------------------------------------------------------------

  predicate Spaces(s: string) {
    forall i :: 0 <= i < |s| ==> s[i] in " \t\r"
  }

  predicate Printing(c: char) {
    '!' <= c <= '~'
  }

  /** A text whose ends can be seen. */
  predicate Bare(s: string) {
    s == "" || (Printing(s[0]) && Printing(s[|s| - 1]))
  }

  predicate Quoted(s: string) {
    s != "" && s[0] == '\"' && s[|s| - 1] == '\"'
  }

  lemma {:induction false} SkipSpaces(b: string, s: string)
    requires Spaces(b) && (s != "" ==> Printing(s[0]) || s == "\n")
    ensures SkipLeading(b + s) == if s == "\n" then "" else s
  {
    if b == "" {
      assert b + s == s;
      assert s == "\n" ==> s[1..] == "";
    } else {
      assert (b + s)[1..] == b[1..] + s;
      SkipSpaces(b[1..], s);
    }
  }

  lemma {:induction false} TrimSpaces(s: string, b: string)
    requires Spaces(b) && Bare(s)
    ensures TrimEnd(s + b) == s
  {
    if b == "" {
      assert s + b == s;
    } else {
      var c := b[..|b| - 1];
      assert (s + b)[..|s + b| - 1] == s + c && (s + b)[|s + b| - 1] == b[|b| - 1];
      TrimSpaces(s, c);
    }
  }

  /** Text with blanks around it is read without them; in double quotes, whatever it is, it is read as it is. */
  lemma ReadsBare(b: string, text: string, d: string)
    requires Spaces(b) && Spaces(d) && Bare(text)
    ensures !Quoted(text) ==> ReadAs(b + text + d) == text
    ensures forall v :: text == "\"" + v + "\"" ==> ReadAs(b + text + d) == v
  {
    hide SkipLeading, TrimEnd;
    if text == "" {
      assert b + text + d == b + d + "";
      assert Spaces(b + d);
      SkipSpaces(b + d, "");
      TrimSpaces("", "");
      assert "" + "" == "";
    } else {
      assert b + text + d == b + (text + d);
      SkipSpaces(b, text + d);
      TrimSpaces(text, d);
    }
    forall v | text == "\"" + v + "\""
      ensures ReadAs(b + text + d) == v
    {
      assert text[1..|text| - 1] == v;
    }
  }

  predicate Without(s: string, c: char) {
    forall i :: 0 <= i < |s| ==> s[i] != c
  }

  lemma FindIs(a: string, c: char, b: string)
    requires Without(a, c)
    ensures Find(a + [c] + b, c) == |a|
  {
    var s := a + [c] + b;
    assert s[|a|] == c && forall k :: 0 <= k < |a| ==> s[k] == a[k];
  }

  lemma FindNone(s: string, c: char)
    ensures Without(s, c) <==> Find(s, c) < 0
  {
  }

  /** A name, a separator and a text: the first equals sign, or the first colon where there is none. */
  predicate Entry(name: string, b: string, separator: char, text: string) {
    && name != "" && Bare(name) && name[0] !in "[;#" && Without(name, '=') && Spaces(b)
    && (separator == '=' || (separator == ':' && Without(name, ':') && Without(text, '=')))
  }

  /** Such a line holds its name and no other key; the writer takes it for the key when nothing is between
      name and separator. */
  lemma EntrySays(name: string, b: string, separator: char, text: string, key: string)
    requires Entry(name, b, separator, text)
    ensures LineOf(name + b + [separator] + text, key) == if key == name then [Seen(ReadAs(text), b == "")] else []
    ensures !Opens(name + b + [separator] + text)
  {
    hide Find, TrimEnd, ReadAs;
    var sp := name + b + [separator] + text;
    var n := |name + b|;
    assert sp == (name + b) + [separator] + text;
    FindIs(name + b, separator, text);
    if separator == ':' {
      assert Without(sp, '=');
      FindNone(sp, '=');
    }
    assert Separator(sp) == n && sp[..n] == name + b && sp[n + 1..] == text;
    TrimSpaces(name, b);
    assert name + b == name <==> b == "";
    assert sp[0] == name[0];
  }

  /** A comment holds no key, and neither does a line without a separator. */
  lemma OthersSayNothing(sp: string, key: string)
    requires (sp != "" && sp[0] in ";#") || (Without(sp, '=') && Without(sp, ':'))
    ensures LineOf(sp, key) == []
  {
    FindNone(sp, '=');
    FindNone(sp, ':');
  }

  /** A line is the header of a section exactly when it begins with its name in brackets. */
  lemma HeaderIs(sp: string, section: string)
    requires Without(section, ']')
    ensures HeaderOf(sp) == Some(section) <==> "[" + section + "]" <= sp
  {
    hide Find;
    var h := "[" + section + "]";
    if h <= sp {
      assert sp == ("[" + section) + [']'] + sp[|h|..];
      assert Without("[" + section, ']');
      FindIs("[" + section, ']', sp[|h|..]);
      assert sp[0] == h[0] && sp[1..|section| + 1] == h[1..|section| + 1] == section;
    }
    if HeaderOf(sp) == Some(section) {
      var n := Find(sp, ']');
      FoundThere(sp, ']');
      assert n >= 1 && sp[1..n] == section && sp[..n + 1] == "[" + sp[1..n] + "]";
    }
  }

  lemma FoundThere(s: string, c: char)
    requires Find(s, c) >= 0
    ensures s[Find(s, c)] == c
  {
  }

  // ----- what a file says ----------------------------------------------------------------------------------

  /** The text of a file of these lines. */
  function Text(lines: seq<string>): string {
    if lines == [] then "" else lines[0] + "\n" + Text(lines[1..])
  }

  /** Lines that fit the line buffer. */
  predicate Short(lines: seq<string>) {
    forall i :: 0 <= i < |lines| ==> NoEnd(lines[i]) && |lines[i]| < BUFFER_SIZE - 1
  }

  lemma TextStep(lines: seq<string>)
    requires Short(lines) && lines != []
    ensures ReadLine(Text(lines)) == (lines[0] + "\n", Text(lines[1..])) && Text(lines) != ""
  {
    var w := lines[0] + "\n";
    assert w[..|w| - 1] == lines[0];
    ReadWritten(w, Text(lines[1..]));
  }

  /** The line without the blanks before it. */
  function Said(line: string): string {
    SkipLeading(line)
  }

  /** What is said of a line does not depend on the line end behind it. */
  lemma SaidWith(line: string, section: string, key: string)
    ensures var sp, said := SkipLeading(line + "\n"), Said(line);
            && HeaderOf(sp) == HeaderOf(said) && Opens(sp) == Opens(said) && LineOf(sp, key) == LineOf(said, key)
            && (sp == "" <==> said == "") && (said != "" ==> sp == said + "\n")
  {
    hide SkipLeading, HeaderOf, Opens, Holds, ValueOf, HoldsExactly;
    SkipUnended(line);
    HoldsSeparates(Said(line), key);
    if Said(line) != "" {
      NotBlankFirst(line);
      SameLine(Said(line), key);
    }
  }

  lemma NotBlankFirst(line: string)
    requires SkipLeading(line) != ""
    ensures Stripped(SkipLeading(line))
  {
  }

  /** The lines of a key from a line on, up to the next header. */
  lemma {:induction false} KeyFoundAt(lines: seq<string>, j: nat, key: string)
    requires Short(lines) && j <= |lines|
    requires forall k :: 0 <= k < j ==> !Opens(Said(lines[k])) && LineOf(Said(lines[k]), key) == []
    ensures j == |lines| || Opens(Said(lines[j])) ==> FindKey(Text(lines), key) == None
    ensures j < |lines| && !Opens(Said(lines[j])) && LineOf(Said(lines[j]), key) != [] ==>
              FindKey(Text(lines), key) == Some(LineOf(Said(lines[j]), key)[0].value)
  {
    hide Said, Opens, LineOf, ReadLine, Lines;
    FindsFirst(Text(lines), key);
    NothingFound("", key);
    if lines != [] {
      TextStep(lines);
      KeyStep(Text(lines), key);
      SaidWith(lines[0], "", key);
      if j > 0 {
        FindsFirst(Text(lines[1..]), key);
        KeyFoundAt(lines[1..], j - 1, key);
      }
    }
  }

  lemma {:induction false} SectionFoundAt(lines: seq<string>, i: nat, section: string)
    requires Short(lines) && i <= |lines|
    requires forall k :: 0 <= k < i ==> HeaderOf(Said(lines[k])) != Some(section)
    ensures i == |lines| ==> FindSection(Text(lines), section) == None
    ensures i < |lines| && HeaderOf(Said(lines[i])) == Some(section) ==> FindSection(Text(lines), section) == Some(Text(lines[i + 1..]))
  {
    hide Said, HeaderOf, ReadLine;
    if lines != [] {
      TextStep(lines);
      SaidWith(lines[0], section, "");
      if i > 0 {
        SectionFoundAt(lines[1..], i - 1, section);
        assert i < |lines| ==> lines[1..][i..] == lines[i + 1..];
      }
    }
  }

  /** ini_gets: behind the first header of the section, the first line that holds the key, if it comes before
      the next header. */
  lemma FoundAt(lines: seq<string>, i: nat, j: nat, section: string, key: string)
    requires Short(lines) && section != "" && Without(section, ']') && i <= |lines|
    requires forall k :: 0 <= k < i ==> !("[" + section + "]" <= Said(lines[k]))
    requires i < |lines| ==>
               "[" + section + "]" <= Said(lines[i]) && i < j <= |lines|
               && forall k :: i < k < j ==> !Opens(Said(lines[k])) && LineOf(Said(lines[k]), key) == []
    ensures i == |lines| || j == |lines| || Opens(Said(lines[j])) ==> Gets(Some(Text(lines)), section, key) == None
    ensures i < |lines| && j < |lines| && !Opens(Said(lines[j])) && LineOf(Said(lines[j]), key) != [] ==>
              Gets(Some(Text(lines)), section, key) == Some(LineOf(Said(lines[j]), key)[0].value)
  {
    hide Said, Opens, LineOf, HeaderOf, FindSection, FindKey, Text, Short;
    forall k | 0 <= k < |lines|
      ensures HeaderOf(Said(lines[k])) == Some(section) <==> "[" + section + "]" <= Said(lines[k])
    {
      HeaderIs(Said(lines[k]), section);
    }
    SectionFoundAt(lines, i, section);
    if i < |lines| {
      KeyFoundBehind(lines, i + 1, j, key);
    }
  }

  lemma KeyFoundBehind(lines: seq<string>, i: nat, j: nat, key: string)
    requires Short(lines) && i <= j <= |lines|
    requires forall k :: i <= k < j ==> !Opens(Said(lines[k])) && LineOf(Said(lines[k]), key) == []
    ensures j == |lines| || Opens(Said(lines[j])) ==> FindKey(Text(lines[i..]), key) == None
    ensures j < |lines| && !Opens(Said(lines[j])) && LineOf(Said(lines[j]), key) != [] ==>
              FindKey(Text(lines[i..]), key) == Some(LineOf(Said(lines[j]), key)[0].value)
  {
    hide Said, Opens, LineOf, FindKey, Text;
    KeyFoundAt(lines[i..], j - i, key);
  }

  // ----- any text put -------------------------------------------------------------------------------------

  /** What is got after a put: the text itself when the key has it already, the old value of a hidden key, and
      otherwise what is read of the text. */
  lemma PutThenRead(file: Option<string>, section: string, key: string, text: string)
    requires NormalFile(file) && ValidSection(section) && ValidKey(key) && Fits(key, text)
    ensures var before := Gets(file, section, key);
            Gets(Puts(file, section, Some(key), Some(text)), section, key)
            == if before == Some(text) || Hidden(file, section, key) then before else Some(ReadAs(text))
  {
    hide Puts, Gets, ValidKey, ValidSection, LinesAt, Normal, ReadAs;
    GetsFirst(file, section, key);
    GetsFirst(Puts(file, section, Some(key), Some(text)), section, key);
    PutsFinds(file, section, key, Some(text), section, key);
  }

  /** A value in double quotes, blanks at its ends included, is the value got, exactly when the key had not the
      quoted text itself for its value, and is not hidden or has the value already. */
  lemma PutQuotedThenGet(file: Option<string>, section: string, key: string, v: string)
    requires NormalFile(file) && ValidSection(section) && ValidKey(key) && NoEnd(v) && |key| + |v| + 2 <= BUFFER_SIZE - 4
    ensures var text := "\"" + v + "\"";
            Gets(Puts(file, section, Some(key), Some(text)), section, key) == Some(v)
            <==> Gets(file, section, key) != Some(text) && (!Hidden(file, section, key) || Gets(file, section, key) == Some(v))
  {
    hide Puts, Gets, ValidKey, ValidSection, LinesAt, Normal, ReadAs, Hidden;
    var text := "\"" + v + "\"";
    ReadsQuoted(v);
    PutThenRead(file, section, key, text);
    assert |text| == |v| + 2;
  }

  lemma ReadsQuoted(v: string)
    ensures ReadAs("\"" + v + "\"") == v
  {
    hide ReadAs;
    var text := "\"" + v + "\"";
    ReadsBare("", text, "");
    assert "" + text + "" == text;
  }

  /** The quotes stay when the value got already has them: the file is then not written. */
  lemma QuotesStay(key: string, v: string)
    requires ValidKey(key) && NoEnd(v) && |key| + |v| + 4 <= BUFFER_SIZE - 4
    ensures var text := "\"" + v + "\"";
            var file := Puts(None, "", Some(key), Some("\"" + text + "\""));
            Gets(Puts(file, "", Some(key), Some(text)), "", key) == Some(text) != Some(v)
  {
    hide Puts, Gets, ValidKey, ReadAs, Normal, Hidden, LinesAt;
    var text := "\"" + v + "\"";
    var twice := "\"" + text + "\"";
    var file := Puts(None, "", Some(key), Some(twice));
    NothingThere(key);
    ReadsQuoted(text);
    PutThenRead(None, "", key, twice);
    PutsNormal(None, "", Some(key), Some(twice));
    PutThenRead(file, "", key, text);
    assert |text| == |v| + 2;
  }

  lemma NothingThere(key: string)
    ensures Gets(None, "", key) == None && !Hidden(None, "", key) && ValidSection("") && NormalFile(None)
  {
  }

  // ----- the lines of a file --------------------------------------------------------------------------------

  /** The line without its end. */
  function Chomp(sp: string): string {
    if sp != "" && sp[|sp| - 1] == '\n' then sp[..|sp| - 1] else sp
  }

  /** The lines of a file, without those that are blank and without the blanks before them. */
  function Content(s: string): seq<string>
    decreases |s|
  {
    if s == "" then []
    else
      var (line, rest) := ReadLine(s);
      ContentOf(SkipLeading(line)) + Content(rest)
  }

  function ContentOf(sp: string): seq<string> {
    if sp == "" then [] else [Chomp(sp)]
  }

  lemma ContentStep(s: string)
    requires s != ""
    ensures Content(s) == ContentOf(SkipLeading(ReadLine(s).0)) + Content(ReadLine(s).1)
  {
    hide SkipLeading, ReadLine;
  }

  /** Of a file of short lines it is these lines. */
  lemma {:induction false} ContentIs(lines: seq<string>)
    requires Short(lines) && forall i :: 0 <= i < |lines| ==> Stripped(lines[i])
    ensures Content(Text(lines)) == lines
  {
    hide ReadLine, Content;
    if lines != [] {
      TextStep(lines);
      ContentStep(Text(lines));
      var w := lines[0] + "\n";
      StrippedStays(w);
      assert w[..|w| - 1] == lines[0];
      ContentIs(lines[1..]);
    } else {
      NoContent();
    }
  }

  lemma NoContent()
    ensures Content("") == [] && ContentOf("") == []
  {
  }

  lemma EmptyContent(t: string)
    ensures Content("\n" + t) == Content(t)
  {
    hide Content, ReadLine;
    ReadWritten("\n", t);
    ContentStep("\n" + t);
    assert SkipLeading("\n") == "";
  }

  lemma ContentThrough(sp: string, t: string)
    requires Stripped(sp) && Ended(sp, t)
    ensures Content(sp + t) == [Chomp(sp)] + Content(t)
  {
    hide Content, ReadLine;
    StrippedStays(sp);
    ContentStep(sp + t);
    if IsLine(sp) {
      ReadWritten(sp, t);
    } else if t == "" {
      assert sp + t == sp;
      ReadLast(sp);
    } else {
      var more := t[1..];
      assert t == "\n" + more && sp + t == (sp + "\n") + more;
      assert (sp + "\n")[..|sp|] == sp;
      ReadWritten(sp + "\n", more);
      StrippedStays(sp + "\n");
      EmptyContent(more);
      assert Chomp(sp) == sp by {
        assert NoEnd(sp);
      }
    }
  }

  /** Copying keeps every line. */
  lemma {:induction false} CopyContent(s: string)
    requires Normal(s)
    ensures Content(CopyRest(s)) == Content(s)
    decreases |s|
  {
    hide Content, ReadLine, Normal, Ended, SkipLeading, CopyRest, Opens, Chomp;
    CopyEnds(s, None, None, "", false);
    if s != "" {
      var (line, rest) := ReadLine(s);
      var sp, t := SkipLeading(line), CopyRest(rest);
      CopyStep(s);
      CopyEnds(rest, None, None, "", false);
      LineCopied(s, t);
      CopyContent(rest);
      ContentStep(s);
      BlankLineSays("", "");
      if sp != "" {
        ContentThrough(sp, t);
        EmptyContent(sp + t);
      }
    }
  }

  // ----- which lines a put leaves as they are -----------------------------------------------------------------

  /** A line of the key itself: the writer takes nothing else for it. */
  predicate KeyOf(line: string, key: string) {
    key + "=" <= line || (key + ":" <= line && Without(line, '='))
  }

  lemma ExactlyIs(sp: string, key: string)
    requires Stripped(sp) && HoldsExactly(sp, key)
    ensures KeyOf(Chomp(sp), key)
  {
    hide Find;
    var n := Separator(sp);
    FindNone(sp, '=');
    if Find(sp, '=') >= 0 {
      FoundThere(sp, '=');
    } else {
      FoundThere(sp, ':');
    }
    assert sp[..n + 1] == key + [sp[n]];
    assert Chomp(sp)[..n + 1] == sp[..n + 1];
  }

  function PutLine(key: string, value: Option<string>): seq<string> {
    if value.Some? then [key + "=" + value.value] else []
  }

  /** The lines of a file after one is put between the others, or in place of one of them. */
  predicate OneChanged(before: seq<string>, after: seq<string>, i: nat, j: nat, put: seq<string>, key: string) {
    && i <= j <= |before| && j <= i + 1
    && after == before[..i] + put + before[j..]
    && (j == i + 1 ==> KeyOf(before[i], key))
  }

  lemma KeyLineContent(key: string, value: string, t: string)
    requires ValidKey(key) && Fits(key, value)
    ensures Content(KeyLine(key, value) + t) == [key + "=" + value] + Content(t)
    ensures KeyLine(key, value) == key + "=" + value + "\n"
  {
    hide KeyLine, ValidKey, Fits, IsLine, Content;
    KeyLineIs(key, value);
    var w := KeyLine(key, value);
    EndedLine(w, t);
    ContentThrough(w, t);
    assert w[..|w| - 1] == key + "=" + value;
  }

  lemma NewKeyContent(key: string, value: Option<string>, t: string)
    requires ValidPut(key, value)
    ensures Content(NewKey(Some(key), value) + t) == PutLine(key, value) + Content(t)
  {
    hide KeyLine, ValidKey, Fits, Content;
    if value.Some? {
      KeyLineContent(key, value.value, t);
    } else {
      assert "" + t == t;
    }
  }

  lemma BeforeContent(sp: string, t: string, key: string, value: Option<string>)
    requires Stripped(sp) && Ended(sp, t) && ValidPut(key, value)
    ensures Content((if value.Some? then key + "=" + value.value + "\n\n" else "") + sp + t)
      == PutLine(key, value) + ([Chomp(sp)] + Content(t))
  {
    hide Content, KeyLine, ValidKey, Fits, Ended, Stripped;
    ContentThrough(sp, t);
    if value.Some? {
      KeyLineContent(key, value.value, "\n" + (sp + t));
      EmptyContent(sp + t);
      assert key + "=" + value.value + "\n\n" + sp + t == KeyLine(key, value.value) + ("\n" + (sp + t));
    } else {
      assert "" + sp + t == sp + t;
    }
  }

  /** From behind the header on, all lines but the one of the key stay, in their order. */
  lemma {:induction false} PutKeyKeeps(s: string, key: string, value: Option<string>) returns (i: nat, j: nat)
    requires Normal(s) && ValidPut(key, value)
    ensures OneChanged(Content(s), Content(PutKey(s, Some(key), value)), i, j, PutLine(key, value), key)
    decreases |s|
  {
    hide Content, ReadLine, Normal, HoldsExactly, Ended, SkipLeading, KeyLine, ValidKey, Fits, CopyRest, Opens, Chomp, OneChanged;
    i, j := 0, 0;
    NoContent();
    if s == "" {
      NewKeyContent(key, value, "");
      var w := NewKey(Some(key), value);
      assert w + "" == w;
      EmptyContent(w);
      assert PutLine(key, value) + [] == PutLine(key, value);
      OneAlone(PutLine(key, value), key);
    } else {
      var (line, rest) := ReadLine(s);
      var sp := SkipLeading(line);
      ContentStep(s);
      BlankLineSays("", key);
      CopyEnds(rest, Some(key), value, "", false);
      LineCopied(s, CopyRest(rest));
      CopyContent(rest);
      if Opens(sp) {
        BeforeContent(sp, CopyRest(rest), key, value);
        OneFirst(Content(s), PutLine(key, value), 0, key);
      } else if HoldsExactly(sp, key) {
        ExactlyIs(sp, key);
        NewKeyContent(key, value, CopyRest(rest));
        j := 1;
        OneFirst(Content(s), PutLine(key, value), 1, key);
      } else {
        var t := PutKey(rest, Some(key), value);
        LineCopied(s, t);
        i, j := PutKeyKeeps(rest, key, value);
        CopiedContent("", sp, t);
        assert "" + sp + t == sp + t;
        OneCopied(sp, Content(rest), Content(t), i, j, PutLine(key, value), key);
        i, j := i + |ContentOf(sp)|, j + |ContentOf(sp)|;
      }
    }
  }

  lemma OneFirst(before: seq<string>, put: seq<string>, j: nat, key: string)
    requires j <= 1 && j <= |before| && (j == 1 ==> KeyOf(before[0], key))
    ensures OneChanged(before, put + before[j..], 0, j, put, key)
    ensures j == 0 ==> before[j..] == before
  {
    hide KeyOf;
    assert before[..0] + put + before[j..] == put + before[j..];
  }

  lemma OneBehind(line: string, before: seq<string>, after: seq<string>, i: nat, j: nat, put: seq<string>, key: string)
    requires OneChanged(before, after, i, j, put, key)
    ensures OneChanged([line] + before, [line] + after, i + 1, j + 1, put, key)
  {
    hide KeyOf;
    assert ([line] + before)[..i + 1] == [line] + before[..i] && ([line] + before)[j + 1..] == before[j..];
  }

  lemma CopiedContent(before: string, sp: string, t: string)
    requires (before == "" || before == "\n") && (sp != "" ==> Stripped(sp) && Ended(sp, t))
    ensures Content(before + sp + t) == ContentOf(sp) + Content(t)
  {
    hide Content, Ended;
    Joined(before, sp, t);
    assert "" + (sp + t) == sp + t && [] + Content(t) == Content(t);
    if sp != "" {
      ContentThrough(sp, t);
    } else {
      assert sp + t == t;
    }
    EmptyContent(sp + t);
  }

  /** What is put: the line of the key, behind a header when the section is not there. */
  function PutLines(s: string, section: string, key: string, value: Option<string>): seq<string> {
    if section == "" || FindSection(s, section).Some? || value.None? then PutLine(key, value)
    else ["[" + section + "]"] + PutLine(key, value)
  }

  lemma PutLinesStep(s: string, section: string, key: string, value: Option<string>)
    requires s != "" && section != ""
    ensures HeaderOf(SkipLeading(ReadLine(s).0)) == Some(section) ==> PutLines(s, section, key, value) == PutLine(key, value)
    ensures HeaderOf(SkipLeading(ReadLine(s).0)) != Some(section) ==>
              PutLines(s, section, key, value) == PutLines(ReadLine(s).1, section, key, value)
              && FindSection(s, section) == FindSection(ReadLine(s).1, section)
    ensures HeaderOf(SkipLeading(ReadLine(s).0)) == Some(section) ==> FindSection(s, section).Some?
  {
    hide SkipLeading, ReadLine, HeaderOf;
  }

  lemma SectionContent(section: string, key: string, value: Option<string>, count: bool)
    requires ValidSection(section) && section != "" && ValidPut(key, value)
    ensures Content(PutSection("", section, Some(key), value, count)) == PutLines("", section, key, value)
  {
    hide Content, KeyLine, SectionLine, ValidKey, Fits, ValidSection, IsLine;
    NoContent();
    if value.Some? {
      var h, w := SectionLine(section), KeyLine(key, value.value);
      SectionLineSays(section);
      SectionLineIs(section);
      KeyLineContent(key, value.value, "");
      EndedLine(h, w);
      ContentThrough(h, w);
      EmptyContent(h + w);
      assert w + "" == w && "\n" + h + w == "\n" + (h + w);
      assert h[..|h| - 1] == "[" + section + "]";
    }
  }

  lemma SectionLineIs(section: string)
    requires ValidSection(section) && section != ""
    ensures SectionLine(section) == "[" + section + "]" + "\n"
  {
    assert section[..|section|] == section;
  }

  lemma {:induction false} PutSectionKeeps(s: string, section: string, key: string, value: Option<string>, count: bool)
    returns (i: nat, j: nat)
    requires Normal(s) && ValidSection(section) && section != "" && ValidPut(key, value)
    ensures OneChanged(Content(s), Content(PutSection(s, section, Some(key), value, count)), i, j, PutLines(s, section, key, value), key)
    ensures FindSection(s, section).None? ==> j == i
    decreases |s|
  {
    hide FindSection, Content, ReadLine, Normal, HeaderOf, Ended, SkipLeading, PutKey, Opens, ValidKey, Fits, ValidSection, SectionLine, KeyLine, Chomp, PutLines, OneChanged, PutSection;
    i, j := 0, 0;
    if s == "" {
      SectionContent(section, key, value, count);
      OneAlone(PutLines(s, section, key, value), key);
    } else {
      var (line, rest) := ReadLine(s);
      var sp := SkipLeading(line);
      var found := HeaderOf(sp) == Some(section);
      var t := if found then PutKey(rest, Some(key), value) else PutSection(rest, section, Some(key), value, count || sp != "");
      ContentStep(s);
      PutLinesStep(s, section, key, value);
      PutSectionStep(s, section, Some(key), value, count);
      PutEnds(rest, key, value, section, count || sp != "");
      LineCopied(s, t);
      if found {
        i, j := PutKeyKeeps(rest, key, value);
      } else {
        i, j := PutSectionKeeps(rest, section, key, value, count || sp != "");
      }
      CopiedContent(if Opens(sp) && count then "\n" else "", sp, t);
      OneCopied(sp, Content(rest), Content(t), i, j, PutLines(s, section, key, value), key);
      i, j := i + |ContentOf(sp)|, j + |ContentOf(sp)|;
    }
  }

  lemma PutSectionStep(s: string, section: string, key: Option<string>, value: Option<string>, count: bool)
    requires s != ""
    ensures var sp, rest := SkipLeading(ReadLine(s).0), ReadLine(s).1;
            var found := HeaderOf(sp) == Some(section);
            PutSection(s, section, key, value, count) ==
            if found && key.None? then PutKey(rest, key, value)
            else
              (if Opens(sp) && count then "\n" else "") + sp +
              if found then PutKey(rest, key, value) else PutSection(rest, section, key, value, count || sp != "")
  {
    hide ReadLine, SkipLeading, Opens, HeaderOf, KeyLine, SectionLine, PutKey;
  }

  lemma PutEnds(s: string, key: string, value: Option<string>, section: string, count: bool)
    ensures s == "" ==> PutKey(s, Some(key), value) == "" || PutKey(s, Some(key), value)[0] == '\n'
    ensures s == "" ==> PutSection(s, section, Some(key), value, count) == "" || PutSection(s, section, Some(key), value, count)[0] == '\n'
  {
    hide SkipLeading, ReadLine, HeaderOf, Opens;
  }

  lemma OneAlone(put: seq<string>, key: string)
    ensures OneChanged(Content(""), put, 0, 0, put, key)
  {
    NoContent();
    assert [][..0] + put + [][0..] == put;
  }

  lemma OneCopied(sp: string, before: seq<string>, after: seq<string>, i: nat, j: nat, put: seq<string>, key: string)
    requires OneChanged(before, after, i, j, put, key)
    ensures OneChanged(ContentOf(sp) + before, ContentOf(sp) + after, i + |ContentOf(sp)|, j + |ContentOf(sp)|, put, key)
  {
    hide OneChanged, Chomp;
    if sp == "" {
      assert [] + before == before && [] + after == after;
    } else {
      OneBehind(Chomp(sp), before, after, i, j, put, key);
    }
  }

  /** The lines of the file, none when there is no file. */
  function FileContent(file: Option<string>): seq<string> {
    if file.Some? then Content(file.value) else []
  }

  lemma RewrittenKeeps(s: string, section: string, key: string, value: Option<string>) returns (i: nat, j: nat)
    requires Normal(s) && ValidSection(section) && ValidPut(key, value)
    ensures OneChanged(Content(s), Content(Rewritten(s, section, Some(key), value)), i, j, PutLines(s, section, key, value), key)
    ensures section != "" && FindSection(s, section).None? ==> j == i
  {
    hide Content, Normal, PutKey, PutSection, ValidKey, Fits, ValidSection, KeyOf, FindSection;
    if section == "" {
      i, j := PutKeyKeeps(s, key, value);
    } else {
      i, j := PutSectionKeeps(s, section, key, value, false);
    }
  }

  lemma CreatedContent(section: string, key: string, value: string)
    requires ValidSection(section) && ValidKey(key) && Fits(key, value)
    ensures Content(SectionLine(section) + KeyLine(key, value))
      == (if section == "" then [] else ["[" + section + "]"]) + [key + "=" + value]
  {
    hide Content, KeyLine, SectionLine, ValidKey, Fits, ValidSection, IsLine;
    var h, w := SectionLine(section), KeyLine(key, value);
    NoContent();
    KeyLineContent(key, value, "");
    assert w + "" == w;
    if section == "" {
      NoSectionLine();
      assert h + w == w;
    } else {
      SectionLineSays(section);
      SectionLineIs(section);
      EndedLine(h, w);
      ContentThrough(h, w);
      assert h[..|h| - 1] == "[" + section + "]";
    }
  }

  /** ini_puts: every line of the file stays as it is and where it is, comments and the keys of other sections
      included, but for at most one line of the key, which is replaced by the new one or taken out; the new line
      may also come in between two others. */
  lemma PutsKeeps(file: Option<string>, section: string, key: string, value: Option<string>) returns (i: nat, j: nat, put: seq<string>)
    requires NormalFile(file) && ValidSection(section) && ValidPut(key, value)
    ensures OneChanged(FileContent(file), FileContent(Puts(file, section, Some(key), value)), i, j, put, key)
    ensures put == [] || put == PutLine(key, value) || (put == ["[" + section + "]"] + PutLine(key, value) && j == i)
    ensures put == [] ==> value.None? || Gets(file, section, key) == value
  {
    hide Content, Normal, ValidKey, Fits, ValidSection, Rewritten, KeyLine, SectionLine, KeyOf, Lookup, FindSection;
    i, j, put := 0, 0, [];
    if file.Some? {
      var s := file.value;
      if value.None? || Lookup(s, section, key) != value {
        i, j := RewrittenKeeps(s, section, key, value);
        put := PutLines(s, section, key, value);
      } else {
        assert Content(s)[..0] + [] + Content(s)[0..] == Content(s);
      }
    } else if value.Some? {
      CreatedContent(section, key, value.value);
      put := (if section == "" then [] else ["[" + section + "]"]) + PutLine(key, value);
    }
  }

  // ----- erasing a section ------------------------------------------------------------------------------------

  predicate IsHeader(line: string) {
    line != "" && line[0] == '['
  }

  /** From behind a header all lines go, up to the next header. */
  lemma {:induction false} EraseKeeps(s: string, value: Option<string>) returns (j: nat)
    requires Normal(s)
    ensures j <= |Content(s)| && Content(PutKey(s, None, value)) == Content(s)[j..]
    ensures forall k :: 0 <= k < j ==> !IsHeader(Content(s)[k])
    ensures j < |Content(s)| ==> IsHeader(Content(s)[j])
    decreases |s|
  {
    hide Content, ReadLine, Normal, Ended, SkipLeading, CopyRest, Stripped, Opens, Chomp, IsHeader;
    j := 0;
    NoContent();
    if s != "" {
      var (line, rest) := ReadLine(s);
      var sp := SkipLeading(line);
      ContentStep(s);
      BlankLineSays("", "");
      LineCopied(s, CopyRest(rest));
      CopyEnds(rest, None, value, "", false);
      CopyContent(rest);
      HeaderChomped(sp);
      if Opens(sp) {
        ContentThrough(sp, CopyRest(rest));
        assert "" + sp + CopyRest(rest) == sp + CopyRest(rest);
      } else {
        j := EraseKeeps(rest, value);
        assert "" + PutKey(rest, None, value) == PutKey(rest, None, value);
        j := j + |ContentOf(sp)|;
      }
    }
  }

  lemma HeaderChomped(sp: string)
    ensures sp != "" && (Stripped(sp) || !Opens(sp)) ==> (Opens(sp) <==> IsHeader(Chomp(sp)))
    ensures Opens(sp) ==> sp != ""
  {
  }

  /** The lines from the first header of the section to the next header are gone; none when it is not there. */
  predicate SectionGone(before: seq<string>, after: seq<string>, section: string, i: nat, j: nat) {
    && i <= j <= |before| && after == before[..i] + before[j..]
    && (if i < j then "[" + section + "]" <= before[i] else i == |before|)
    && (forall k :: 0 <= k < i ==> !("[" + section + "]" <= before[k]))
    && (forall k :: i < k < j ==> !IsHeader(before[k]))
    && (j < |before| ==> IsHeader(before[j]))
  }

  lemma {:induction false} EraseSectionKeeps(s: string, section: string, value: Option<string>, count: bool) returns (i: nat, j: nat)
    requires Normal(s) && Without(section, ']')
    ensures SectionGone(Content(s), Content(PutSection(s, section, None, value, count)), section, i, j)
    decreases |s|
  {
    hide Content, ReadLine, Normal, HeaderOf, Ended, Stripped, SkipLeading, PutKey, Opens, Chomp, PutSection, SectionGone;
    i, j := 0, 0;
    if s == "" {
      NothingGone(section, value, count);
    } else {
      var (line, rest) := ReadLine(s);
      var sp := SkipLeading(line);
      ContentStep(s);
      BlankLineSays(section, "");
      PutSectionStep(s, section, None, value, count);
      EraseEnds(rest, value, section, count || sp != "");
      ChompedHeader(line, section);
      if HeaderOf(sp) == Some(section) {
        LineCopied(s, "");
        j := EraseKeeps(rest, value);
        FirstGone(Chomp(sp), Content(rest), section, j);
        j := j + 1;
      } else {
        var t := PutSection(rest, section, None, value, count || sp != "");
        LineCopied(s, t);
        i, j := EraseSectionKeeps(rest, section, value, count || sp != "");
        CopiedContent(if Opens(sp) && count then "\n" else "", sp, t);
        GoneBehind(sp, Content(rest), Content(t), section, i, j);
        i, j := i + |ContentOf(sp)|, j + |ContentOf(sp)|;
      }
    }
  }

  lemma EraseEnds(s: string, value: Option<string>, section: string, count: bool)
    ensures s == "" ==> PutSection(s, section, None, value, count) == ""
  {
    hide SkipLeading, ReadLine, HeaderOf, Opens;
  }

  lemma NothingGone(section: string, value: Option<string>, count: bool)
    ensures SectionGone(Content(""), Content(PutSection("", section, None, value, count)), section, 0, 0)
  {
    EraseEnds("", value, section, count);
    NoContent();
  }

  lemma FirstGone(line: string, rest: seq<string>, section: string, j: nat)
    requires "[" + section + "]" <= line && j <= |rest|
    requires forall k :: 0 <= k < j ==> !IsHeader(rest[k])
    requires j < |rest| ==> IsHeader(rest[j])
    ensures SectionGone([line] + rest, rest[j..], section, 0, j + 1)
  {
    hide IsHeader;
    assert ([line] + rest)[j + 1..] == rest[j..];
  }

  lemma GoneBehind(sp: string, before: seq<string>, after: seq<string>, section: string, i: nat, j: nat)
    requires SectionGone(before, after, section, i, j) && (sp != "" ==> !("[" + section + "]" <= Chomp(sp)))
    ensures SectionGone(ContentOf(sp) + before, ContentOf(sp) + after, section, i + |ContentOf(sp)|, j + |ContentOf(sp)|)
  {
    hide SectionGone, Chomp;
    if sp == "" {
      assert [] + before == before && [] + after == after;
    } else {
      GoneBehindLine(Chomp(sp), before, after, section, i, j);
    }
  }

  lemma GoneBehindLine(line: string, before: seq<string>, after: seq<string>, section: string, i: nat, j: nat)
    requires SectionGone(before, after, section, i, j) && !("[" + section + "]" <= line)
    ensures SectionGone([line] + before, [line] + after, section, i + 1, j + 1)
  {
    hide IsHeader;
    var all := [line] + before;
    assert all[..i + 1] == [line] + before[..i] && all[j + 1..] == before[j..];
    forall k | 0 <= k < i + 1
      ensures !("[" + section + "]" <= all[k])
    {
      if k > 0 {
        assert all[k] == before[k - 1];
      }
    }
    forall k | i + 1 < k < j + 1
      ensures !IsHeader(all[k])
    {
      assert all[k] == before[k - 1];
    }
  }

  lemma ChompedHeader(line: string, section: string)
    requires Without(section, ']')
    ensures var sp := SkipLeading(line);
            sp != "" ==> (HeaderOf(sp) == Some(section) <==> "[" + section + "]" <= Chomp(sp))
  {
    hide HeaderOf;
    var sp := SkipLeading(line);
    HeaderIs(sp, section);
    var h := "[" + section + "]";
    if h <= sp && sp[|sp| - 1] == '\n' {
      assert h[|h| - 1] == ']';
      assert sp[..|h|] == h;
      assert |h| < |sp|;
    }
  }

  /** Erasing a section takes out its first header and what follows it up to the next one, and nothing else. */
  lemma EraseSectionContent(s: string, section: string, value: Option<string>) returns (i: nat, j: nat)
    requires Normal(s) && Without(section, ']')
    ensures var before, after := Content(s), FileContent(Puts(Some(s), section, None, value));
            if section != "" then SectionGone(before, after, section, i, j)
            else
              && j <= |before| && after == before[j..]
              && (forall k :: 0 <= k < j ==> !IsHeader(before[k])) && (j < |before| ==> IsHeader(before[j]))
  {
    hide Content, Normal, PutKey, PutSection, IsHeader, SectionGone;
    i := 0;
    if section == "" {
      j := EraseKeeps(s, value);
    } else {
      i, j := EraseSectionKeeps(s, section, value, false);
    }
  }
}
