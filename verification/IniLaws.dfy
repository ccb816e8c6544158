/** What ini_puts and ini_gets promise together: the value put is found again, and every other key of
    every section keeps what it had. */
module IniLaws {
  import opened IniText

  predicate NoEnd(s: string) {
    forall i :: 0 <= i < |s| ==> s[i] != '\n'
  }

  /** A section name that survives being written: shorter than its place, without ] and line ends. */
  predicate ValidSection(section: string) {
    NoEnd(section) && Find(section, ']') < 0 && |section| <= BUFFER_SIZE - 5
  }

  /** A key that is read back from the line it is written on. */
  predicate ValidKey(key: string) {
    && NoEnd(key) && Find(key, '=') < 0
    && (key != "" ==> !Blank(key[0]) && !Blank(key[|key| - 1]) && key[0] !in "[;#")
  }

  /** A text that fits on one line behind the key. */
  predicate Fits(key: string, text: string) {
    NoEnd(text) && |key| + |text| <= BUFFER_SIZE - 4
  }

  /** A value that is read back as it is: without blanks at its ends, and not in double quotes. */
  predicate ValidValue(key: string, value: string) {
    && Fits(key, value)
    && (value != "" ==> !Blank(value[0]) && !Blank(value[|value| - 1]))
    && !(value != "" && value[0] == '\"' && value[|value| - 1] == '\"')
  }

  // ----- reading what was written ---------------------------------------------------------------

  predicate IsLine(w: string) {
    w != "" && w[|w| - 1] == '\n' && NoEnd(w[..|w| - 1]) && |w| < BUFFER_SIZE
  }

  lemma {:induction false} TakenLine(w: string, t: string, limit: nat)
    requires w != "" && w[|w| - 1] == '\n' && NoEnd(w[..|w| - 1]) && |w| <= limit
    ensures Taken(w + t, limit) == |w|
  {
    if |w| > 1 {
      assert w[..|w| - 1][0] == w[0];
      assert (w + t)[1..] == w[1..] + t;
      assert w[1..][..|w| - 2] == w[..|w| - 1][1..];
      TakenLine(w[1..], t, limit - 1);
    }
  }

  lemma {:induction false} TakenAll(w: string, limit: nat)
    requires NoEnd(w) && |w| <= limit
    ensures Taken(w, limit) == |w|
  {
    if w != "" {
      TakenAll(w[1..], limit - 1);
    }
  }

  lemma ReadWritten(w: string, t: string)
    requires IsLine(w)
    ensures ReadLine(w + t) == (w, t)
  {
    TakenLine(w, t, BUFFER_SIZE - 1);
    assert (w + t)[..|w|] == w && (w + t)[|w|..] == t;
  }

  /** A line and what is written behind it: the line has its end, or what follows begins with it. */
  predicate Ended(sp: string, t: string) {
    IsLine(sp) || (NoEnd(sp) && |sp| < BUFFER_SIZE - 1 && (t == "" || t[0] == '\n'))
  }

  predicate Stripped(sp: string) {
    sp != "" && !Blank(sp[0])
  }

  lemma StrippedStays(sp: string)
    requires Stripped(sp)
    ensures SkipLeading(sp) == sp
  {
  }

  // A line end behind a line changes nothing of what the line says.

  lemma {:induction false} FindUnended(sp: string, c: char)
    requires c != '\n'
    ensures Find(sp + "\n", c) == Find(sp, c)
  {
    var i, j := Find(sp + "\n", c), Find(sp, c);
    assert forall k :: 0 <= k < |sp| ==> (sp + "\n")[k] == sp[k];
  }

  lemma TrimUnended(s: string)
    ensures TrimEnd(s + "\n") == TrimEnd(s)
  {
    assert (s + "\n")[..|s|] == s;
  }

  lemma {:induction false} SkipUnended(s: string)
    ensures SkipLeading(s + "\n") == (if SkipLeading(s) == "" then "" else SkipLeading(s) + "\n")
  {
    if s == "" {
      assert s + "\n" == "\n" && "\n"[1..] == "";
    } else if Blank(s[0]) {
      assert (s + "\n")[1..] == s[1..] + "\n";
      SkipUnended(s[1..]);
    }
  }

  lemma SameLine(sp: string, key: string)
    requires Stripped(sp)
    ensures HeaderOf(sp + "\n") == HeaderOf(sp) && Opens(sp + "\n") == Opens(sp)
    ensures Holds(sp + "\n", key) == Holds(sp, key)
    ensures Separator(sp + "\n") == Separator(sp)
    ensures Separator(sp) >= 0 ==> ValueOf(sp + "\n") == ValueOf(sp)
    ensures HoldsExactly(sp + "\n", key) == HoldsExactly(sp, key)
  {
    hide Unquote, TrimEnd, SkipLeading, Find;
    FindUnended(sp, ']');
    FindUnended(sp, '=');
    FindUnended(sp, ':');
    var i := Separator(sp);
    if HeaderOf(sp).Some? {
      assert (sp + "\n")[1..Find(sp, ']')] == sp[1..Find(sp, ']')];
    }
    if i >= 0 {
      assert (sp + "\n")[..i] == sp[..i];
      assert (sp + "\n")[i + 1..] == sp[i + 1..] + "\n";
      SkipUnended(sp[i + 1..]);
      TrimUnended(SkipLeading(sp[i + 1..]));
    }
  }

  /** A line in which the lookup sees the key: its value, and whether the writer sees the key in it too. */
  datatype Seen = Seen(value: string, exact: bool)

  function LineOf(sp: string, key: string): seq<Seen> {
    if Holds(sp, key) then [Seen(ValueOf(sp), HoldsExactly(sp, key))] else []
  }

  /** All such lines before the next section. */
  function Lines(s: string, key: string): seq<Seen>
    decreases |s|
  {
    if s == "" then []
    else
      var (line, rest) := ReadLine(s);
      var sp := SkipLeading(line);
      if Opens(sp) then [] else LineOf(sp, key) + Lines(rest, key)
  }

  /** All such lines of the first section of that name. */
  function LinesIn(s: string, section: string, key: string): seq<Seen> {
    match FindSection(s, section)
    case None => []
    case Some(rest) => Lines(rest, key)
  }

  function First(lines: seq<Seen>): Option<string> {
    if lines == [] then None else Some(lines[0].value)
  }

  /** The lookup finds the first of these lines. */
  lemma {:induction false} FindsFirst(s: string, key: string)
    ensures FindKey(s, key) == First(Lines(s, key))
    decreases |s|
  {
    if s != "" {
      FindsFirst(ReadLine(s).1, key);
    }
  }

  // One line of either search.

  lemma KeyStep(s: string, key: string)
    requires s != ""
    ensures var sp, rest := SkipLeading(ReadLine(s).0), ReadLine(s).1;
            Lines(s, key) == if Opens(sp) then [] else LineOf(sp, key) + Lines(rest, key)
  {
    hide SkipLeading, ReadLine, Opens, LineOf;
  }

  lemma InStep(s: string, section: string, key: string)
    requires s != ""
    ensures var sp, rest := SkipLeading(ReadLine(s).0), ReadLine(s).1;
            LinesIn(s, section, key) == if HeaderOf(sp) == Some(section) then Lines(rest, key) else LinesIn(rest, section, key)
  {
    hide SkipLeading, ReadLine, HeaderOf, Lines;
  }

  lemma EmptyLine(t: string, section: string, key: string)
    ensures Lines("\n" + t, key) == Lines(t, key) && LinesIn("\n" + t, section, key) == LinesIn(t, section, key)
  {
    hide Lines, LinesIn;
    ReadWritten("\n", t);
    KeyStep("\n" + t, key);
    InStep("\n" + t, section, key);
    assert SkipLeading("\n") == "";
  }

  /** Both searches over a written line. */
  lemma Through(sp: string, t: string, section: string, key: string)
    requires Stripped(sp) && Ended(sp, t)
    ensures Lines(sp + t, key) == if Opens(sp) then [] else LineOf(sp, key) + Lines(t, key)
    ensures LinesIn(sp + t, section, key) == if HeaderOf(sp) == Some(section) then Lines(t, key) else LinesIn(t, section, key)
  {
    hide Lines, LinesIn, ReadLine, HeaderOf, Opens, Holds, ValueOf, Separator;
    StrippedStays(sp);
    KeyStep(sp + t, key);
    InStep(sp + t, section, key);
    if IsLine(sp) {
      ReadWritten(sp, t);
    } else if t == "" {
      assert sp + t == sp;
      ReadLast(sp);
    } else {
      var more := t[1..];
      assert t == "\n" + more && sp + t == (sp + "\n") + more;
      assert (sp + "\n")[..|sp|] == sp;
      ReadWritten(sp + "\n", more);
      StrippedStays(sp + "\n");
      SameLine(sp, key);
      EmptyLine(more, section, key);
      HoldsSeparates(sp, key);
    }
  }

  lemma HoldsSeparates(sp: string, key: string)
    ensures Holds(sp, key) ==> Separator(sp) >= 0
  {
  }

  lemma ReadLast(sp: string)
    requires NoEnd(sp) && |sp| < BUFFER_SIZE - 1
    ensures ReadLine(sp) == (sp, "")
  {
    TakenAll(sp, BUFFER_SIZE - 1);
    assert sp[..|sp|] == sp && sp[|sp|..] == "";
  }

  // ----- the lines of a normal file ---------------------------------------------------------------

  lemma {:induction false} TakenEnds(s: string, limit: nat)
    ensures NoEnd(s[..Taken(s, limit)]) || (Taken(s, limit) > 0 && s[Taken(s, limit) - 1] == '\n' && NoEnd(s[..Taken(s, limit) - 1]))
  {
    if s != "" && limit > 0 && s[0] != '\n' {
      TakenEnds(s[1..], limit - 1);
      var n := Taken(s[1..], limit - 1);
      assert s[..n + 1] == [s[0]] + s[1..][..n];
      if n > 0 {
        assert s[..n] == [s[0]] + s[1..][..n - 1];
      }
    }
  }

  lemma {:induction false} SkipIsSuffix(s: string) returns (n: nat)
    ensures n <= |s| && SkipLeading(s) == s[n..]
  {
    if s != "" && Blank(s[0]) {
      n := SkipIsSuffix(s[1..]);
      n := n + 1;
    } else {
      n := 0;
    }
  }

  lemma NormalStep(s: string)
    requires s != "" && Normal(s)
    ensures var (line, rest) := ReadLine(s);
            && line != "" && |line| < BUFFER_SIZE && Normal(rest)
            && (line[|line| - 1] == '\n' || (rest == "" && |line| < BUFFER_SIZE - 1))
            && (NoEnd(line) || (line[|line| - 1] == '\n' && NoEnd(line[..|line| - 1])))
  {
    TakenEnds(s, BUFFER_SIZE - 1);
  }

  /** What is copied of a line, and what may follow it. */
  lemma LineCopied(s: string, t: string)
    requires s != "" && Normal(s)
    ensures Normal(ReadLine(s).1)
    ensures var sp := SkipLeading(ReadLine(s).0);
            sp != "" && (ReadLine(s).1 == "" ==> t == "" || t[0] == '\n') ==> Stripped(sp) && Ended(sp, t)
  {
    hide ReadLine, Normal, SkipLeading;
    var line, sp := ReadLine(s).0, SkipLeading(ReadLine(s).0);
    NormalStep(s);
    var n := SkipIsSuffix(line);
    if sp != "" && line[|line| - 1] == '\n' {
      assert sp[|sp| - 1] == '\n';
      assert sp[..|sp| - 1] == line[..|line| - 1][n..];
      LastEnds(line);
    }
  }

  lemma LastEnds(line: string)
    requires line != "" && line[|line| - 1] == '\n'
    ensures !NoEnd(line)
  {
  }

  lemma CopyEnds(s: string, key: Option<string>, value: Option<string>, section: string, count: bool)
    ensures s == "" ==> CopyRest(s) == ""
    ensures s == "" ==> PutKey(s, key, value) == "" || PutKey(s, key, value)[0] == '\n'
    ensures s == "" ==> PutSection(s, section, key, value, count) == "" || PutSection(s, section, key, value, count)[0] == '\n'
  {
  }

  lemma CopyStep(s: string)
    requires s != ""
    ensures var sp, t := SkipLeading(ReadLine(s).0), CopyRest(ReadLine(s).1);
            CopyRest(s) == if sp == "" then t else if Opens(sp) then "\n" + (sp + t) else sp + t
  {
    hide SkipLeading, ReadLine, Opens;
    var sp, t := SkipLeading(ReadLine(s).0), CopyRest(ReadLine(s).1);
    Joined(if Opens(sp) then "\n" else "", sp, t);
    BlankLineSays("", "");
  }

  lemma Joined(a: string, b: string, c: string)
    ensures a + b + c == a + (b + c)
    ensures a == "" ==> a + b + c == b + c && (b == "" ==> a + b + c == c)
  {
  }

  /** Copying the rest of the file keeps both searches. */
  lemma {:induction false} CopyKeeps(s: string, section: string, key: string)
    requires Normal(s)
    ensures Lines(CopyRest(s), key) == Lines(s, key) && LinesIn(CopyRest(s), section, key) == LinesIn(s, section, key)
    decreases |s|
  {
    hide Lines, LinesIn, ReadLine, Normal, HeaderOf, Holds, ValueOf, Ended, SkipLeading, CopyRest, Opens;
    CopyEnds(s, None, None, section, false);
    if s != "" {
      var (line, rest) := ReadLine(s);
      var sp, t := SkipLeading(line), CopyRest(rest);
      CopyStep(s);
      CopyEnds(rest, None, None, section, false);
      LineCopied(s, t);
      CopyKeeps(rest, section, key);
      KeyStep(s, key);
      InStep(s, section, key);
      BlankLineSays(section, key);
      if sp != "" {
        Through(sp, t, section, key);
        EmptyLine(sp + t, section, key);
      }
    }
  }

  lemma BlankLineSays(section: string, key: string)
    ensures !Opens("") && !Holds("", key) && HeaderOf("") != Some(section) && !HoldsExactly("", key)
    ensures LineOf("", key) == []
  {
  }

  /** Both searches over what is copied of a line, with an empty line before it or without. */
  lemma Copied(before: string, sp: string, t: string, section: string, key: string)
    requires (before == "" || before == "\n") && (sp != "" ==> Stripped(sp) && Ended(sp, t))
    ensures Lines(before + sp + t, key) == if Opens(sp) then [] else LineOf(sp, key) + Lines(t, key)
    ensures LinesIn(before + sp + t, section, key) == if HeaderOf(sp) == Some(section) then Lines(t, key) else LinesIn(t, section, key)
  {
    hide Lines, LinesIn, HeaderOf, Opens, LineOf, Ended;
    BlankLineSays(section, key);
    Joined(before, sp, t);
    assert "" + (sp + t) == sp + t && LineOf("", key) + Lines(t, key) == Lines(t, key);
    if sp != "" {
      Through(sp, t, section, key);
    } else {
      assert sp + t == t;
    }
    EmptyLine(sp + t, section, key);
  }

  // ----- the line of a key --------------------------------------------------------------------------

  lemma {:induction false} FindBefore(a: string, b: string, c: char)
    requires Find(a, c) < 0 && b != "" && b[0] == c
    ensures Find(a + b, c) == |a|
  {
    var i := Find(a + b, c);
    assert (a + b)[|a|] == c;
    assert forall k :: 0 <= k < |a| ==> (a + b)[k] == a[k];
  }

  lemma TrimStays(s: string)
    requires s != "" ==> !Blank(s[|s| - 1])
    ensures TrimEnd(s) == s
  {
  }

  lemma KeyLineIs(key: string, value: string)
    requires ValidKey(key) && Fits(key, value)
    ensures var w := key + "=" + value + "\n";
            KeyLine(key, value) == w && IsLine(w) && Stripped(w) && !Opens(w) && w[0] != ';' && w[0] != '#'
  {
    hide TrimEnd, Unquote, Find;
    var w := key + "=" + value + "\n";
    assert w[..|w| - 1] == key + "=" + value;
    assert key[..|key|] == key && value[..|value|] == value;
    assert w[0] == if key == "" then '=' else key[0];
  }

  lemma SeparatorAt(w: string)
    requires Find(w, '=') >= 0
    ensures Separator(w) == Find(w, '=')
  {
  }

  lemma KeyLineParts(key: string, value: string)
    requires Find(key, '=') < 0
    ensures var w := key + "=" + value + "\n";
            Separator(w) == |key| && w[..|key|] == key && w[|key| + 1..] == value + "\n"
  {
    hide Find, Separator;
    var end := value + "\n";
    Joined(key, "=", end);
    Joined(key + "=", value, "\n");
    FindBefore(key, "=" + end, '=');
    SeparatorAt(key + ("=" + end));
    Cut(key, "=", end);
  }

  lemma Cut(a: string, b: string, c: string)
    requires |b| == 1
    ensures (a + (b + c))[..|a|] == a && (a + (b + c))[|a| + 1..] == c
  {
  }

  lemma KeyLineSays(key: string, value: string, other: string)
    requires ValidKey(key) && Fits(key, value)
    ensures var w := key + "=" + value + "\n";
            && KeyLine(key, value) == w && IsLine(w) && Stripped(w) && !Opens(w)
            && (Holds(w, other) <==> other == key) && Separator(w) >= 0 && ValueOf(w) == ReadAs(value) && HoldsExactly(w, key)
  {
    hide Separator, Unquote, IsLine, KeyLine, TrimEnd, SkipLeading;
    KeyLineIs(key, value);
    KeyLineParts(key, value);
    TrimStays(key);
    SkipUnended(value);
    TrimUnended(SkipLeading(value));
  }

  lemma SkipStays(s: string)
    requires s != "" ==> !Blank(s[0])
    ensures SkipLeading(s) == s
  {
  }

  lemma KeyLineThrough(key: string, value: string, t: string, section: string, other: string)
    requires ValidKey(key) && Fits(key, value)
    ensures Lines(KeyLine(key, value) + t, other) == (if other == key then [Seen(ReadAs(value), true)] else []) + Lines(t, other)
    ensures LinesIn(KeyLine(key, value) + t, section, other) == LinesIn(t, section, other)
  {
    hide Lines, LinesIn, KeyLine, Holds, ValueOf, Separator, Fits, ValidKey, IsLine;
    KeyLineSays(key, value, other);
    EndedLine(KeyLine(key, value), t);
    Through(KeyLine(key, value), t, section, other);
  }

  lemma EndedLine(w: string, t: string)
    requires IsLine(w)
    ensures Ended(w, t)
  {
  }

  /** A line the writer takes for the key is one the lookup takes for it, and for no other key. */
  lemma ExactlyHolds(sp: string, key: string, other: string)
    requires Stripped(sp) && ValidKey(key) && HoldsExactly(sp, key)
    ensures Holds(sp, other) <==> other == key
  {
    TrimStays(key);
    if key != "" {
      assert sp[..Separator(sp)][0] == sp[0];
    }
  }

  // ----- putting a key --------------------------------------------------------------------------------

  /** What becomes of the lines of a key: the first one that the writer sees is replaced, or left out when
      there is no value; without one, the value comes behind the others. */
  function Replaced(lines: seq<Seen>, value: Option<string>): seq<Seen> {
    if lines == [] || lines[0].exact then
      (if value.Some? then [Seen(ReadAs(value.value), true)] else []) + (if lines == [] then [] else lines[1..])
    else [lines[0]] + Replaced(lines[1..], value)
  }

  /** The lines of a section after `key` was put, or erased when there is no value. */
  function Expected(s: string, key: string, value: Option<string>, other: string): seq<Seen> {
    if other != key then Lines(s, other) else Replaced(Lines(s, key), value)
  }

  predicate ValidPut(key: string, value: Option<string>) {
    ValidKey(key) && (value.Some? ==> Fits(key, value.value))
  }

  lemma ReplacedBehind(line: seq<Seen>, lines: seq<Seen>, value: Option<string>)
    requires |line| <= 1 && (line == [] || !line[0].exact)
    ensures Replaced(line + lines, value) == line + Replaced(lines, value)
  {
    if line == [] {
      assert line + lines == lines;
    } else {
      assert (line + lines)[1..] == lines;
    }
  }

  lemma {:induction false} PutKeyFinds(s: string, key: string, value: Option<string>, section: string, other: string)
    requires Normal(s) && ValidPut(key, value)
    ensures Lines(PutKey(s, Some(key), value), other) == Expected(s, key, value, other)
    ensures LinesIn(PutKey(s, Some(key), value), section, other) == LinesIn(s, section, other)
    decreases |s|
  {
    hide Lines, LinesIn, ReadLine, Normal, HeaderOf, Holds, HoldsExactly, ValueOf, Ended, SkipLeading, KeyLine, ValidKey, Fits, CopyRest, Opens;
    if s == "" {
      PutAtEnd(key, value, section, other);
    } else {
      var (line, rest) := ReadLine(s);
      var sp := SkipLeading(line);
      KeyStep(s, other);
      InStep(s, section, other);
      BlankLineSays(section, key);
      BlankLineSays(section, other);
      CopyEnds(rest, Some(key), value, section, false);
      LineCopied(s, CopyRest(rest));
      CopyKeeps(rest, section, other);
      if Opens(sp) {
        PutBefore(sp, CopyRest(rest), key, value, section, other);
      } else if HoldsExactly(sp, key) {
        ExactlyHolds(sp, key, other);
        NoHeader(sp, section);
        PutInstead(CopyRest(rest), key, value, section, other);
      } else {
        var t := PutKey(rest, Some(key), value);
        LineCopied(s, t);
        NoHeader(sp, section);
        PutKeyFinds(rest, key, value, section, other);
        ReplacedBehind(LineOf(sp, key), Lines(rest, key), value);
        if sp == "" {
          assert sp + t == t;
        } else {
          Through(sp, t, section, other);
        }
      }
    }
  }

  lemma NoHeader(sp: string, section: string)
    requires !Opens(sp)
    ensures HeaderOf(sp) != Some(section)
  {
  }

  lemma NothingFound(section: string, key: string)
    ensures Lines("", key) == [] && LinesIn("", section, key) == []
  {
  }

  lemma PutAtEnd(key: string, value: Option<string>, section: string, other: string)
    requires ValidPut(key, value)
    ensures Lines(PutKey("", Some(key), value), other) == Expected("", key, value, other)
    ensures LinesIn(PutKey("", Some(key), value), section, other) == LinesIn("", section, other)
  {
    hide Lines, LinesIn, KeyLine, ValidKey, Fits;
    NothingFound(section, other);
    NothingFound(section, key);
    if value.Some? {
      var w := KeyLine(key, value.value);
      KeyLineThrough(key, value.value, "", section, other);
      EmptyLine(w, section, other);
      assert w + "" == w;
    }
  }

  /** The key written before the next section header. */
  lemma PutBefore(sp: string, t: string, key: string, value: Option<string>, section: string, other: string)
    requires Stripped(sp) && Ended(sp, t) && Opens(sp) && ValidPut(key, value)
    ensures var text := (if value.Some? then key + "=" + value.value + "\n\n" else "") + sp + t;
            && Lines(text, other) == (if other == key && value.Some? then [Seen(ReadAs(value.value), true)] else [])
            && LinesIn(text, section, other) == if HeaderOf(sp) == Some(section) then Lines(t, other) else LinesIn(t, section, other)
  {
    hide Lines, LinesIn, Holds, KeyLine, ValidKey, Fits, Ended, Stripped, HeaderOf, Opens, Separator, ValueOf;
    Through(sp, t, section, other);
    if value.Some? {
      var w := KeyLine(key, value.value);
      KeyLineSays(key, value.value, other);
      assert key + "=" + value.value + "\n\n" + sp + t == w + ("\n" + (sp + t));
      KeyLineThrough(key, value.value, "\n" + (sp + t), section, other);
      EmptyLine(sp + t, section, other);
    } else {
      assert "" + sp + t == sp + t;
    }
  }

  /** The key written in place of its line, or the line left out. */
  lemma PutInstead(t: string, key: string, value: Option<string>, section: string, other: string)
    requires ValidPut(key, value)
    ensures var text := NewKey(Some(key), value) + t;
            && Lines(text, other) == (if other == key && value.Some? then [Seen(ReadAs(value.value), true)] else []) + Lines(t, other)
            && LinesIn(text, section, other) == LinesIn(t, section, other)
  {
    hide Lines, LinesIn, KeyLine, ValidKey, Fits;
    if value.Some? {
      KeyLineThrough(key, value.value, t, section, other);
    } else {
      assert "" + t == t;
    }
  }

  /** Erasing the rest of a section: nothing of it is found, the next sections stay. */
  lemma {:induction false} EraseFinds(s: string, value: Option<string>, section: string, other: string)
    requires Normal(s)
    ensures Lines(PutKey(s, None, value), other) == []
    ensures LinesIn(PutKey(s, None, value), section, other) == LinesIn(s, section, other)
    decreases |s|
  {
    hide Lines, LinesIn, ReadLine, Normal, HeaderOf, Holds, ValueOf, Ended, SkipLeading, CopyRest, Opens;
    NothingFound(section, other);
    if s != "" {
      var (line, rest) := ReadLine(s);
      var sp := SkipLeading(line);
      InStep(s, section, other);
      BlankLineSays(section, other);
      if Opens(sp) {
        LineCopied(s, CopyRest(rest));
        CopyEnds(rest, None, value, section, false);
        CopyKeeps(rest, section, other);
        Through(sp, CopyRest(rest), section, other);
        assert "" + sp + CopyRest(rest) == sp + CopyRest(rest);
      } else {
        LineCopied(s, "");
        NoHeader(sp, section);
        EraseFinds(rest, value, section, other);
        assert PutKey(s, None, value) == "" + PutKey(rest, None, value);
        assert "" + PutKey(rest, None, value) == PutKey(rest, None, value);
      }
    }
  }

  // ----- putting a section ----------------------------------------------------------------------------

  lemma SectionLineSays(section: string)
    requires ValidSection(section) && section != ""
    ensures var w := SectionLine(section);
            IsLine(w) && Stripped(w) && Opens(w) && HeaderOf(w) == Some(section)
  {
    var w := SectionLine(section);
    assert section[..|section|] == section;
    assert w[..|w| - 1] == "[" + section + "]";
    assert w == ("[" + section) + "]\n";
    assert forall k :: 0 <= k < |section| ==> ("[" + section)[k + 1] == section[k];
    FindBefore("[" + section, "]\n", ']');
    assert w[1..|section| + 1] == section;
  }

  /** What the lookup finds in sections of that name after a put into the first of them. */
  function ExpectedIn(s: string, section: string, key: string, value: Option<string>, other: string): seq<Seen> {
    match FindSection(s, section)
    case None => if other == key then Replaced([], value) else []
    case Some(rest) => Expected(rest, key, value, other)
  }

  lemma ExpectedStep(s: string, section: string, key: string, value: Option<string>, other: string)
    requires s != ""
    ensures var sp, rest := SkipLeading(ReadLine(s).0), ReadLine(s).1;
            ExpectedIn(s, section, key, value, other)
            == if HeaderOf(sp) == Some(section) then Expected(rest, key, value, other) else ExpectedIn(rest, section, key, value, other)
  {
    hide SkipLeading, ReadLine, HeaderOf, Expected;
  }

  lemma SectionAtEnd(section: string, key: string, value: Option<string>, count: bool, region: string, other: string)
    requires ValidSection(section) && section != "" && ValidPut(key, value)
    ensures Lines(PutSection("", section, Some(key), value, count), other) == []
    ensures LinesIn(PutSection("", section, Some(key), value, count), region, other)
      == if region != section then [] else ExpectedIn("", section, key, value, other)
  {
    hide Lines, LinesIn, KeyLine, SectionLine, ValidKey, Fits, ValidSection, HeaderOf, Opens, IsLine, Stripped;
    NothingFound(region, other);
    if value.Some? {
      var h, w := SectionLine(section), KeyLine(key, value.value);
      SectionLineSays(section);
      KeyLineThrough(key, value.value, "", region, other);
      EndedLine(h, w);
      Through(h, w, region, other);
      EmptyLine(h + w, region, other);
      assert w + "" == w && "\n" + h + w == "\n" + (h + w);
    }
  }

  lemma {:induction false} PutSectionFinds(s: string, section: string, key: string, value: Option<string>, count: bool, region: string, other: string)
    requires Normal(s) && ValidSection(section) && section != "" && ValidPut(key, value)
    ensures Lines(PutSection(s, section, Some(key), value, count), other) == Lines(s, other)
    ensures LinesIn(PutSection(s, section, Some(key), value, count), region, other)
      == if region != section then LinesIn(s, region, other) else ExpectedIn(s, section, key, value, other)
    decreases |s|
  {
    hide Lines, LinesIn, LineOf, Replaced, ExpectedIn, Expected, ReadLine, Normal, HeaderOf, Ended, SkipLeading, PutKey, Opens, ValidKey, Fits, ValidSection, SectionLine, KeyLine;
    if s == "" {
      SectionAtEnd(section, key, value, count, region, other);
      NothingFound(region, other);
    } else {
      var (line, rest) := ReadLine(s);
      var sp := SkipLeading(line);
      var found := HeaderOf(sp) == Some(section);
      var t := if found then PutKey(rest, Some(key), value) else PutSection(rest, section, Some(key), value, count || sp != "");
      KeyStep(s, other);
      InStep(s, region, other);
      ExpectedStep(s, section, key, value, other);
      BlankLineSays(section, other);
      BlankLineSays(region, other);
      CopyEnds(rest, Some(key), value, section, count || sp != "");
      LineCopied(s, t);
      if found {
        PutKeyFinds(rest, key, value, region, other);
        OpensHeader(sp, section);
      } else {
        PutSectionFinds(rest, section, key, value, count || sp != "", region, other);
      }
      Copied(if Opens(sp) && count then "\n" else "", sp, t, region, other);
    }
  }

  lemma OpensHeader(sp: string, section: string)
    requires HeaderOf(sp) == Some(section)
    ensures Opens(sp)
  {
  }

  /** What the lookup finds in the sections of that name after the first one. */
  function SecondIn(s: string, section: string, other: string): seq<Seen> {
    match FindSection(s, section)
    case None => []
    case Some(rest) => LinesIn(rest, section, other)
  }

  lemma SecondStep(s: string, section: string, other: string)
    requires s != ""
    ensures var sp, rest := SkipLeading(ReadLine(s).0), ReadLine(s).1;
            SecondIn(s, section, other) == if HeaderOf(sp) == Some(section) then LinesIn(rest, section, other) else SecondIn(rest, section, other)
  {
    hide SkipLeading, ReadLine, HeaderOf, LinesIn;
  }

  lemma {:induction false} EraseSectionFinds(s: string, section: string, value: Option<string>, count: bool, region: string, other: string)
    requires Normal(s)
    ensures Lines(PutSection(s, section, None, value, count), other) == Lines(s, other)
    ensures LinesIn(PutSection(s, section, None, value, count), region, other)
      == if region != section then LinesIn(s, region, other) else SecondIn(s, section, other)
    decreases |s|
  {
    hide Lines, LinesIn, LineOf, SecondIn, ReadLine, Normal, HeaderOf, Ended, SkipLeading, PutKey, Opens, SectionLine, KeyLine;
    NothingFound(region, other);
    NothingSecond(section, other);
    if s != "" {
      var (line, rest) := ReadLine(s);
      var sp := SkipLeading(line);
      KeyStep(s, other);
      InStep(s, region, other);
      SecondStep(s, section, other);
      BlankLineSays(section, other);
      BlankLineSays(region, other);
      CopyEnds(rest, None, value, section, count || sp != "");
      if HeaderOf(sp) == Some(section) {
        LineCopied(s, "");
        EraseFinds(rest, value, region, other);
        OpensHeader(sp, section);
      } else {
        var t := PutSection(rest, section, None, value, count || sp != "");
        LineCopied(s, t);
        EraseSectionFinds(rest, section, value, count || sp != "", region, other);
        Copied(if Opens(sp) && count then "\n" else "", sp, t, region, other);
      }
    }
  }

  lemma NothingSecond(section: string, key: string)
    ensures SecondIn("", section, key) == []
  {
  }

  // ----- the file stays one whose lines fit ---------------------------------------------------------------

  lemma NormalLine(w: string, t: string)
    requires w != "" && Ended(w, t) && Normal(t)
    ensures Normal(w + t)
  {
    hide Normal, Taken;
    if IsLine(w) {
      ReadWritten(w, t);
      NormalIs(w + t);
    } else if t == "" {
      assert w + t == w;
      ReadLast(w);
      NormalIs(w);
    } else {
      var more := t[1..];
      assert t == "\n" + more && w + t == (w + "\n") + more && (w + "\n")[..|w|] == w;
      ReadWritten(w + "\n", more);
      ReadWritten("\n", more);
      NormalIs(t);
      NormalIs(w + t);
    }
  }

  lemma NormalIs(s: string)
    requires s != ""
    ensures var (line, rest) := ReadLine(s);
            Normal(s) <==>
              line != "" && |line| < BUFFER_SIZE && (line[|line| - 1] == '\n' || (rest == "" && |line| < BUFFER_SIZE - 1)) && Normal(rest)
  {
  }

  lemma NormalEmptyLine(t: string)
    requires Normal(t)
    ensures Normal("\n" + t)
  {
    EndedLine("\n", t);
    NormalLine("\n", t);
  }

  lemma NormalKeyLine(key: string, value: string, t: string)
    requires ValidKey(key) && Fits(key, value) && Normal(t)
    ensures Normal(KeyLine(key, value) + t)
  {
    hide Normal, KeyLine, ValidKey, Fits, IsLine;
    KeyLineIs(key, value);
    EndedLine(KeyLine(key, value), t);
    NormalLine(KeyLine(key, value), t);
  }

  lemma NothingNormal()
    ensures Normal("")
  {
  }

  lemma {:induction false} CopyNormal(s: string)
    requires Normal(s)
    ensures Normal(CopyRest(s))
    decreases |s|
  {
    hide Normal, ReadLine, SkipLeading, CopyRest, Opens, Ended, Stripped;
    CopyEnds(s, None, None, "", false);
    NothingNormal();
    if s != "" {
      var (line, rest) := ReadLine(s);
      var sp, t := SkipLeading(line), CopyRest(rest);
      CopyStep(s);
      CopyEnds(rest, None, None, "", false);
      LineCopied(s, t);
      CopyNormal(rest);
      BlankLineSays("", "");
      if sp != "" {
        NormalLine(sp, t);
        NormalEmptyLine(sp + t);
      }
    }
  }

  /** The part of the file behind the header stays normal. */
  lemma {:induction false} PutKeyNormal(s: string, key: Option<string>, value: Option<string>)
    requires Normal(s) && (key.Some? ==> ValidPut(key.value, value))
    ensures Normal(PutKey(s, key, value))
    decreases |s|
  {
    hide Normal, ReadLine, SkipLeading, CopyRest, Opens, HoldsExactly, Ended, Stripped, KeyLine, ValidKey, Fits;
    NothingNormal();
    if s == "" {
      if key.Some? && value.Some? {
        NormalKeyLine(key.value, value.value, "");
        NormalEmptyLine(KeyLine(key.value, value.value) + "");
        assert KeyLine(key.value, value.value) + "" == KeyLine(key.value, value.value);
      }
    } else {
      var (line, rest) := ReadLine(s);
      var sp, t := SkipLeading(line), PutKey(rest, key, value);
      CopyEnds(rest, key, value, "", false);
      LineCopied(s, CopyRest(rest));
      CopyNormal(rest);
      if Opens(sp) {
        BlankLineSays("", "");
        NormalLine(sp, CopyRest(rest));
        NormalBefore(sp + CopyRest(rest), key, value);
        Joined(if key.Some? && value.Some? then key.value + "=" + value.value + "\n\n" else "", sp, CopyRest(rest));
      } else if key.Some? && HoldsExactly(sp, key.value) {
        NormalInstead(CopyRest(rest), key.value, value);
      } else {
        LineCopied(s, t);
        PutKeyNormal(rest, key, value);
        assert "" + t == t;
        if key.Some? && sp != "" {
          NormalLine(sp, t);
        }
      }
    }
  }

  lemma NormalBefore(t: string, key: Option<string>, value: Option<string>)
    requires Normal(t) && (key.Some? ==> ValidPut(key.value, value))
    ensures Normal((if key.Some? && value.Some? then key.value + "=" + value.value + "\n\n" else "") + t)
  {
    hide Normal, KeyLine, ValidKey, Fits, Stripped;
    if key.Some? && value.Some? {
      KeyLineIs(key.value, value.value);
      NormalEmptyLine(t);
      NormalKeyLine(key.value, value.value, "\n" + t);
      assert key.value + "=" + value.value + "\n\n" + t == KeyLine(key.value, value.value) + ("\n" + t);
    } else {
      assert "" + t == t;
    }
  }

  lemma NormalInstead(t: string, key: string, value: Option<string>)
    requires Normal(t) && ValidPut(key, value)
    ensures Normal(NewKey(Some(key), value) + t)
  {
    hide Normal, KeyLine, ValidKey, Fits;
    if value.Some? {
      NormalKeyLine(key, value.value, t);
    } else {
      assert "" + t == t;
    }
  }

  lemma {:induction false} PutSectionNormal(s: string, section: string, key: Option<string>, value: Option<string>, count: bool)
    requires Normal(s) && ValidSection(section) && section != "" && (key.Some? ==> ValidPut(key.value, value))
    ensures Normal(PutSection(s, section, key, value, count))
    decreases |s|
  {
    hide Normal, ReadLine, SkipLeading, PutKey, Opens, HeaderOf, Ended, Stripped, KeyLine, SectionLine, ValidKey, Fits, ValidSection, IsLine;
    NothingNormal();
    if s == "" {
      if key.Some? && value.Some? {
        var h, w := SectionLine(section), KeyLine(key.value, value.value);
        NormalKeyLine(key.value, value.value, "");
        assert w + "" == w;
        SectionLineSays(section);
        EndedLine(h, w);
        NormalSection(section, w);
        NormalEmptyLine(h + w);
        Joined("\n", h, w);
      }
    } else {
      var (line, rest) := ReadLine(s);
      var sp := SkipLeading(line);
      var found := HeaderOf(sp) == Some(section);
      var t := if found then PutKey(rest, key, value) else PutSection(rest, section, key, value, count || sp != "");
      CopyEnds(rest, key, value, section, count || sp != "");
      LineCopied(s, t);
      if found {
        PutKeyNormal(rest, key, value);
      } else {
        PutSectionNormal(rest, section, key, value, count || sp != "");
      }
      BlankLineSays(section, "");
      if sp == "" {
        assert "" + sp + t == t;
      } else {
        NormalLine(sp, t);
        NormalEmptyLine(sp + t);
        assert "\n" + sp + t == "\n" + (sp + t) && "" + sp + t == sp + t;
      }
    }
  }

  lemma NormalSection(section: string, t: string)
    requires ValidSection(section) && section != "" && Normal(t)
    ensures Normal(SectionLine(section) + t)
  {
    hide Normal, SectionLine, ValidSection, IsLine;
    SectionLineSays(section);
    EndedLine(SectionLine(section), t);
    NormalLine(SectionLine(section), t);
  }

  /** So the rewritten file can be put to again. */
  lemma RewrittenNormal(s: string, section: string, key: Option<string>, value: Option<string>)
    requires Normal(s) && ValidSection(section) && (key.Some? ==> ValidPut(key.value, value))
    ensures Normal(Rewritten(s, section, key, value))
  {
    hide Normal, PutKey, PutSection, ValidKey, Fits, ValidSection;
    if section == "" {
      PutKeyNormal(s, key, value);
    } else {
      PutSectionNormal(s, section, key, value, false);
    }
  }

  lemma PutsNormal(file: Option<string>, section: string, key: Option<string>, value: Option<string>)
    requires NormalFile(file) && ValidSection(section) && (key.Some? ==> ValidPut(key.value, value))
    ensures NormalFile(Puts(file, section, key, value))
  {
    hide Normal, Rewritten, KeyLine, SectionLine, ValidKey, Fits, ValidSection, Lookup;
    if file.Some? {
      RewrittenNormal(file.value, section, key, value);
    } else if key.Some? && value.Some? {
      NothingNormal();
      NormalKeyLine(key.value, value.value, "");
      var w := KeyLine(key.value, value.value);
      assert w + "" == w;
      if section == "" {
        NoSectionLine();
        assert "" + w == w;
      } else {
        NormalSection(section, w);
      }
    }
  }

  // ----- the laws ---------------------------------------------------------------------------------------

  predicate NormalFile(file: Option<string>) {
    file.None? || Normal(file.value)
  }

  /** The lines of a key in a section of the file; the empty name stands for what is above the sections. */
  function LinesAt(file: Option<string>, section: string, key: string): seq<Seen> {
    match file
    case None => []
    case Some(s) => if section == "" then Lines(s, key) else LinesIn(s, section, key)
  }

  lemma GetsFirst(file: Option<string>, section: string, key: string)
    ensures Gets(file, section, key) == First(LinesAt(file, section, key))
  {
    hide FindKey, Lines, FindSection;
    if file.Some? {
      FindsFirst(file.value, key);
      if section != "" && FindSection(file.value, section).Some? {
        FindsFirst(FindSection(file.value, section).value, key);
      }
    }
  }

  /** The line on which the lookup finds the key is not one that the writer takes for it: there are blanks
      before its separator. */
  predicate Hidden(file: Option<string>, section: string, key: string) {
    var lines := LinesAt(file, section, key);
    lines != [] && !lines[0].exact
  }

  lemma CreatedFinds(section: string, key: string, value: string, region: string, other: string)
    requires ValidSection(section) && ValidKey(key) && Fits(key, value)
    ensures LinesAt(Some(SectionLine(section) + KeyLine(key, value)), region, other)
      == if region == section && other == key then [Seen(ReadAs(value), true)] else []
  {
    hide Lines, LinesIn, KeyLine, SectionLine, ValidKey, Fits, ValidSection, HeaderOf, Opens, IsLine, Stripped;
    var h, w := SectionLine(section), KeyLine(key, value);
    NothingFound(region, other);
    KeyLineThrough(key, value, "", region, other);
    assert w + "" == w;
    if section == "" {
      NoSectionLine();
      assert h + w == w;
    } else {
      SectionLineSays(section);
      EndedLine(h, w);
      Through(h, w, region, other);
    }
  }

  lemma NoSectionLine()
    ensures SectionLine("") == ""
  {
  }

  /** The lines of every key of every section in the rewritten file. */
  lemma RewrittenFinds(s: string, section: string, key: string, value: Option<string>, region: string, other: string)
    requires Normal(s) && ValidSection(section) && ValidPut(key, value)
    ensures var lines := LinesAt(Some(s), region, other);
            LinesAt(Some(Rewritten(s, section, Some(key), value)), region, other)
            == if region == section && other == key then Replaced(lines, value) else lines
  {
    hide Lines, FindSection, PutKey, PutSection, Normal, ValidKey, Fits, ValidSection;
    if section == "" {
      PutKeyFinds(s, key, value, region, other);
    } else {
      PutSectionFinds(s, section, key, value, false, region, other);
    }
  }

  /** What ini_puts makes of the lines of its key: nothing new when the value is there already. */
  function PutLines(lines: seq<Seen>, value: Option<string>): seq<Seen> {
    if value.Some? && First(lines) == value then lines else Replaced(lines, value)
  }

  /** The lines of every key of every section after a put, or an erased key. */
  lemma PutsFinds(file: Option<string>, section: string, key: string, value: Option<string>, region: string, other: string)
    requires NormalFile(file) && ValidSection(section) && ValidPut(key, value)
    ensures var lines := LinesAt(file, region, other);
            LinesAt(Puts(file, section, Some(key), value), region, other)
            == if region == section && other == key then PutLines(lines, value) else lines
  {
    hide Rewritten, KeyLine, SectionLine, ValidKey, Fits, ValidSection, Lines, FindSection, Lookup;
    if file.Some? {
      GetsFirst(file, section, key);
      RewrittenFinds(file.value, section, key, value, region, other);
    } else if value.Some? {
      CreatedFinds(section, key, value.value, region, other);
    }
  }

  lemma ReadsPlain(key: string, value: string)
    requires ValidValue(key, value)
    ensures ReadAs(value) == value && Fits(key, value)
  {
    SkipStays(value);
    TrimStays(value);
  }

  /** The value put is the value found, exactly when the key is not hidden from the writer or has that
      value already. */
  lemma PutThenGet(file: Option<string>, section: string, key: string, value: string)
    requires NormalFile(file) && ValidSection(section) && ValidKey(key) && ValidValue(key, value)
    ensures Gets(Puts(file, section, Some(key), Some(value)), section, key) == Some(value)
      <==> !Hidden(file, section, key) || Gets(file, section, key) == Some(value)
  {
    hide Puts, Gets, ReadAs, ValidKey, ValidValue, ValidSection, LinesAt, Normal;
    GetsFirst(file, section, key);
    GetsFirst(Puts(file, section, Some(key), Some(value)), section, key);
    ReadsPlain(key, value);
    PutsFinds(file, section, key, Some(value), section, key);
  }

  /** A hidden key keeps its value. */
  lemma PutHidden(file: Option<string>, section: string, key: string, value: string)
    requires NormalFile(file) && ValidSection(section) && ValidKey(key) && ValidValue(key, value)
    ensures Hidden(file, section, key) ==> Gets(Puts(file, section, Some(key), Some(value)), section, key) == Gets(file, section, key)
  {
    hide Puts, Gets, ReadAs, ValidKey, ValidValue, ValidSection, LinesAt, Normal;
    GetsFirst(file, section, key);
    GetsFirst(Puts(file, section, Some(key), Some(value)), section, key);
    ReadsPlain(key, value);
    PutsFinds(file, section, key, Some(value), section, key);
  }

  /** Every other key, of this section and of every other, keeps its value: after a put as after an
      erased key. */
  lemma PutFrame(file: Option<string>, section: string, key: string, value: Option<string>, region: string, other: string)
    requires NormalFile(file) && ValidSection(section) && ValidPut(key, value)
    requires region != section || other != key
    ensures Gets(Puts(file, section, Some(key), value), region, other) == Gets(file, region, other)
  {
    hide Puts, Gets, ValidKey, Fits, ValidSection, LinesAt, Normal;
    GetsFirst(file, region, other);
    GetsFirst(Puts(file, section, Some(key), value), region, other);
    PutsFinds(file, section, key, value, region, other);
  }

  /** An erased key is gone, unless it is hidden or another line of the section holds it too. */
  lemma EraseThenGet(file: Option<string>, section: string, key: string)
    requires NormalFile(file) && ValidSection(section) && ValidKey(key)
    ensures Gets(Puts(file, section, Some(key), None), section, key)
            == if Hidden(file, section, key) then Gets(file, section, key)
               else if LinesAt(file, section, key) == [] then None
               else First(LinesAt(file, section, key)[1..])
  {
    hide Puts, Gets, ValidKey, Fits, ValidSection, LinesAt, Normal;
    GetsFirst(file, section, key);
    GetsFirst(Puts(file, section, Some(key), None), section, key);
    PutsFinds(file, section, key, None, section, key);
  }

  /** Erasing a section touches no other one; what is found in it afterwards is what the later sections
      of that name hold. */
  lemma EraseSectionFrame(file: Option<string>, section: string, value: Option<string>, region: string, other: string)
    requires NormalFile(file) && file.Some?
    ensures region != section ==> Gets(Puts(file, section, None, value), region, other) == Gets(file, region, other)
    ensures Gets(Puts(file, section, None, value), section, other)
      == if section == "" then None else First(SecondIn(file.value, section, other))
  {
    hide PutKey, PutSection, FindKey, FindSection, Normal, Lines, Gets;
    GetsFirst(file, region, other);
    GetsFirst(Puts(file, section, None, value), region, other);
    GetsFirst(Puts(file, section, None, value), section, other);
    if section == "" {
      EraseFinds(file.value, value, region, other);
    } else {
      EraseSectionFinds(file.value, section, value, false, region, other);
      EraseSectionFinds(file.value, section, value, false, section, other);
    }
  }

  // ----- a run of puts -----------------------------------------------------------------------------------

  /** A call of ini_puts with a key; without a value it erases the key. */
  datatype Put = Put(section: string, key: string, value: Option<string>) {
    predicate Valid() {
      ValidSection(section) && ValidPut(key, value)
    }

    /** The value is one that is read back as it is. */
    predicate Plain() {
      Valid() && (value.Some? ==> ValidValue(key, value.value))
    }
  }

  function PutAll(file: Option<string>, puts: seq<Put>): Option<string> {
    if puts == [] then file
    else
      var p := puts[|puts| - 1];
      Puts(PutAll(file, puts[..|puts| - 1]), p.section, Some(p.key), p.value)
  }

  /** The lines of one key through a run: only the puts of this key change them. */
  function PutAllLines(lines: seq<Seen>, puts: seq<Put>, section: string, key: string): seq<Seen> {
    if puts == [] then lines
    else
      var before, p := PutAllLines(lines, puts[..|puts| - 1], section, key), puts[|puts| - 1];
      if p.section == section && p.key == key then PutLines(before, p.value) else before
  }

  /** Through any run of puts the file stays normal, and the lines of every key of every section are those
      that the puts of this key make. */
  lemma {:induction false} RunFinds(file: Option<string>, puts: seq<Put>, section: string, key: string)
    requires NormalFile(file) && forall p :: p in puts ==> p.Valid()
    ensures NormalFile(PutAll(file, puts))
    ensures LinesAt(PutAll(file, puts), section, key) == PutAllLines(LinesAt(file, section, key), puts, section, key)
  {
    hide Puts, ValidPut, ValidSection, LinesAt, PutLines, NormalFile;
    if puts != [] {
      var shorter, p := puts[..|puts| - 1], puts[|puts| - 1];
      assert p.Valid();
      RunFinds(file, shorter, section, key);
      PutsFinds(PutAll(file, shorter), p.section, p.key, p.value, section, key);
      PutsNormal(PutAll(file, shorter), p.section, Some(p.key), p.value);
    }
  }

  type Table = map<(string, string), string>

  function InTable(table: Table, section: string, key: string): Option<string> {
    if (section, key) in table then Some(table[(section, key)]) else None
  }

  /** The file stands for a table: each key is on one line that the writer sees, or on none. */
  ghost predicate StandsFor(file: Option<string>, table: Table) {
    forall section, key :: LinesOf(file, table, section, key)
  }

  predicate LinesOf(file: Option<string>, table: Table, section: string, key: string) {
    LinesAt(file, section, key) == if (section, key) in table then [Seen(table[(section, key)], true)] else []
  }

  /** The table after a run of puts. */
  function PutAllIn(table: Table, puts: seq<Put>): Table {
    if puts == [] then table
    else
      var before, p := PutAllIn(table, puts[..|puts| - 1]), puts[|puts| - 1];
      if p.value.Some? then before[(p.section, p.key) := p.value.value] else before - {(p.section, p.key)}
  }

  lemma {:induction false} TableLines(lines: seq<Seen>, table: Table, puts: seq<Put>, section: string, key: string)
    requires lines == if (section, key) in table then [Seen(table[(section, key)], true)] else []
    requires forall p :: p in puts ==> p.Plain()
    ensures var after := PutAllIn(table, puts);
            PutAllLines(lines, puts, section, key) == if (section, key) in after then [Seen(after[(section, key)], true)] else []
  {
    hide ReadAs, ValidValue, ValidPut, ValidSection;
    if puts != [] {
      var p := puts[|puts| - 1];
      assert p.Plain();
      if p.value.Some? {
        ReadsPlain(p.key, p.value.value);
      }
      TableLines(lines, table, puts[..|puts| - 1], section, key);
    }
  }

  /** The file refines a table: through any run of puts and erased keys it stands for the table that the run
      makes, and the lookup finds what is in the table. */
  lemma FileIsTable(file: Option<string>, table: Table, puts: seq<Put>)
    requires NormalFile(file) && StandsFor(file, table) && forall p :: p in puts ==> p.Plain()
    ensures NormalFile(PutAll(file, puts)) && StandsFor(PutAll(file, puts), PutAllIn(table, puts))
    ensures forall section, key :: Gets(PutAll(file, puts), section, key) == InTable(PutAllIn(table, puts), section, key)
  {
    hide PutAll, PutAllIn, Gets, LinesAt, NormalFile, ValidPut, ValidSection;
    var f, t := PutAll(file, puts), PutAllIn(table, puts);
    RunFinds(file, puts, "", "");
    forall section, key
      ensures LinesOf(f, t, section, key)
      ensures Gets(f, section, key) == InTable(t, section, key)
    {
      assert LinesOf(file, table, section, key);
      RunFinds(file, puts, section, key);
      TableLines(LinesAt(file, section, key), table, puts, section, key);
      GetsFirst(f, section, key);
    }
  }

  /** A file that is not there yet stands for the empty table. */
  lemma NoFileIsEmpty()
    ensures NormalFile(None) && StandsFor(None, map[])
  {
    forall section, key
      ensures LinesOf(None, map[], section, key)
    {
    }
  }

  lemma HiddenLine()
    ensures var s := "k =1\n";
            && ReadLine(s) == (s, "") && SkipLeading(s) == s && Separator(s) == 2 && !Opens(s)
            && s[..2] == "k " && TrimEnd("k ") == "k" && ValueOf(s) == "1"
  {
    hide ReadLine;
    var s := "k =1\n";
    assert s + "" == s && s[..4] == "k =1";
    ReadWritten(s, "");
    assert s == "k " + "=1\n" && "k "[1..] == " " && " "[1..] == "";
    assert Find("", '=') < 0 && Find(" ", '=') < 0 && Find("k ", '=') < 0;
    FindBefore("k ", "=1\n", '=');
    assert "k "[..1] == "k";
    assert s[3..] == "1\n" && "1\n"[..1] == "1";
  }

  /** A file on which the writer and the lookup disagree: the new line is added, the old one is found. */
  lemma HiddenKeyStays()
    ensures Hidden(Some("k =1\n"), "", "k")
    ensures Gets(Puts(Some("k =1\n"), "", Some("k"), Some("2")), "", "k") == Some("1")
  {
    hide ReadLine, Separator, ValueOf, Opens, TrimEnd, SkipLeading;
    var s := "k =1\n";
    HiddenLine();
    assert Holds(s, "k") && !HoldsExactly(s, "k");
    KeyStep(s, "k");
    assert Lines(s, "k")[0] == Seen("1", false);
    assert Normal(s) && ValidKey("k") && ValidValue("k", "2");
    GetsFirst(Some(s), "", "k");
    PutThenGet(Some(s), "", "k", "2");
    EraseThenGet(Some(s), "", "k");
    PutsFinds(Some(s), "", "k", Some("2"), "", "k");
    GetsFirst(Puts(Some(s), "", Some("k"), Some("2")), "", "k");
  }
}
