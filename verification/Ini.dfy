/** ini_gets and ini_puts of libcwmp/src/ini.c over a directory of files, line by line, and the numbers
    of ini_putl and ini_getl. */
module Ini {
  import opened IniText
  import opened IniLaws

  const NUL: char := 0 as char

  // ----- pieces of a line -------------------------------------------------------------------------

  /** ini_skip_leading: the position of the first character that is not blank. */
  method SkipLeadingAt(str: string) returns (at: nat)
    ensures at <= |str| && str[at..] == SkipLeading(str)
  {
    at := 0;
    assert str[0..] == str;
    while at < |str| && Blank(str[at])
      invariant at <= |str| && SkipLeading(str[at..]) == SkipLeading(str)
    {
      assert str[at..][1..] == str[at + 1..];
      at := at + 1;
    }
  }

  /** ini_skip_trailing, from `end` back to the start. */
  method SkipTrailingAt(str: string, end: nat) returns (at: nat)
    requires end <= |str|
    ensures at <= end && str[..at] == TrimEnd(str[..end])
  {
    at := end;
    while at > 0 && Blank(str[at - 1])
      invariant at <= end && TrimEnd(str[..at]) == TrimEnd(str[..end])
    {
      assert str[..at][..at - 1] == str[..at - 1];
      at := at - 1;
    }
  }

  /** strchr */
  method Search(str: string, c: char) returns (at: int)
    ensures at == Find(str, c)
  {
    at := 0;
    while at < |str| && str[at] != c
      invariant 0 <= at <= |str| && forall k :: 0 <= k < at ==> str[k] != c
    {
      at := at + 1;
    }
    if at == |str| {
      at := -1;
    }
  }

  // ----- ini_get_keystring ----------------------------------------------------------------------------

  /** Is this line the header of the section? */
  method IsHeaderOf(sp: string, section: string) returns (match_: bool)
    ensures match_ == (HeaderOf(sp) == Some(section))
  {
    var ep := Search(sp, ']');
    match_ := sp != "" && sp[0] == '[' && ep >= 0 && ep - 1 == |section| && sp[1..1 + |section|] == section;
  }

  /** Is this an entry whose name, trimmed at its end, is the key? */
  method IsEntryOf(sp: string, key: string) returns (match_: bool, ep: int)
    ensures match_ == Holds(sp, key) && ep == Separator(sp)
  {
    ep := Search(sp, '=');
    if ep < 0 {
      ep := Search(sp, ':');
    }
    if sp == "" || sp[0] == ';' || sp[0] == '#' || ep < 0 {
      return false, ep;
    }
    var len := SkipTrailingAt(sp, ep);
    match_ := len == |key| && sp[..len] == key;
  }

  /** ini_get_keystring for a key: the stream is read line by line until the section is found, and then
      until the key is, or the next section, or the end. */
  method GetKeystring(fp: string, section: string, key: string) returns (found: bool, value: string)
    ensures found == Lookup(fp, section, key).Some?
    ensures found ==> Some(value) == Lookup(fp, section, key)
  {
    hide ReadLine, HeaderOf, Holds, Separator, ValueOf, Opens, SkipLeading, Find;
    var rest := fp;
    value := "";
    if |section| > 0 {
      var inside := false;
      while !inside
        invariant !inside ==> FindSection(rest, section) == FindSection(fp, section)
        invariant inside ==> FindSection(fp, section) == Some(rest)
        decreases !inside, |rest|
      {
        if rest == "" {
          return false, value;
        }
        var line := ReadLine(rest).0;
        rest := ReadLine(rest).1;
        var at := SkipLeadingAt(line);
        inside := IsHeaderOf(line[at..], section);
      }
    }
    ghost var start := rest;
    while true
      invariant FindKey(rest, key) == FindKey(start, key)
      decreases |rest|
    {
      if rest == "" {
        return false, value;
      }
      var line := ReadLine(rest).0;
      rest := ReadLine(rest).1;
      var at := SkipLeadingAt(line);
      var sp := line[at..];
      if Opens(sp) {
        return false, value;
      }
      var here, ep := IsEntryOf(sp, key);
      if here {
        HoldsSeparates(sp, key);
        value := EntryValue(sp, ep);
        return true, value;
      }
    }
    assert false;
  }

  /** The value of an entry: trimmed at both ends, and without the double quotes around it. */
  method EntryValue(sp: string, ep: int) returns (value: string)
    requires ep == Separator(sp) >= 0
    ensures value == ValueOf(sp)
  {
    hide SkipLeading, TrimEnd, Separator;
    var tail := sp[ep + 1..];
    var at := SkipLeadingAt(tail);
    var end := SkipTrailingAt(tail[at..], |tail[at..]|);
    assert tail[at..][..|tail[at..]|] == tail[at..];
    value := tail[at..][..end];
    if value != "" && value[0] == '\"' && value[|value| - 1] == '\"' {
      value := if |value| == 1 then "" else value[1..|value| - 1];
    }
  }

  // ----- writing a line ---------------------------------------------------------------------------------

  /** ini_save_strncpy to position `at`: at most maxlen - 1 characters, and a NUL. */
  method SaveStrncpy(dest: array<char>, at: nat, source: string, maxlen: nat) returns (end: nat)
    requires maxlen > 0 && at + maxlen <= dest.Length
    modifies dest
    ensures end == at + Least(|source|, maxlen - 1) && dest[end] == NUL
    ensures dest[..end] == old(dest[..at]) + source[..Least(|source|, maxlen - 1)]
  {
    var n := 0;
    while n < maxlen - 1 && n < |source|
      invariant n <= |source| && n <= maxlen - 1 && dest[..at + n] == old(dest[..at]) + source[..n]
    {
      dest[at + n] := source[n];
      assert dest[..at + n + 1] == dest[..at + n] + [source[n]];
      n := n + 1;
    }
    end := at + n;
    ghost var done := dest[..end];
    dest[end] := NUL;
    assert dest[..end] == done;
  }

  /** ini_write_section: the line is built in the buffer, which it never exceeds. */
  method WriteSection(buffer: array<char>, section: string, fp: string) returns (written: string)
    requires buffer.Length == BUFFER_SIZE
    modifies buffer
    ensures written == fp + SectionLine(section)
  {
    written := fp;
    if |section| > 0 {
      buffer[0] := '[';
      assert buffer[..1] == "[";
      var p := SaveStrncpy(buffer, 1, section, BUFFER_SIZE - 4);
      buffer[p] := ']';
      assert buffer[..p + 1] == buffer[..p] + "]";
      buffer[p + 1] := '\n';
      buffer[p + 2] := NUL;
      assert buffer[..p + 2] == SectionLine(section);
      written := fp + buffer[..p + 2];
    }
  }

  /** ini_write_key: the line is built in the buffer, which it never exceeds. */
  method WriteKey(buffer: array<char>, key: string, value: string, fp: string) returns (written: string)
    requires buffer.Length == BUFFER_SIZE
    modifies buffer
    ensures written == fp + KeyLine(key, value)
  {
    assert buffer[..0] == "";
    var p := SaveStrncpy(buffer, 0, key, BUFFER_SIZE - 3);
    ghost var name := buffer[..p];
    assert name == key[..Least(|key|, BUFFER_SIZE - 4)];
    buffer[p] := '=';
    p := p + 1;
    assert buffer[..p] == name + "=";
    p := SaveStrncpy(buffer, p, value, BUFFER_SIZE - p - 2);
    ghost var line := buffer[..p];
    buffer[p] := '\n';
    buffer[p + 1] := NUL;
    assert buffer[..p + 1] == line + "\n";
    written := fp + buffer[..p + 1];
  }

  // ----- files ------------------------------------------------------------------------------------------

  /** ini_tempname: as much of the name as fits the line buffer, with its last character replaced. */
  function TempName(filename: string): (name: string)
    requires filename != ""
    ensures name != ""
  {
    var kept := filename[..Least(|filename|, BUFFER_SIZE - 1)];
    kept[..|kept| - 1] + "~"
  }

  /** The temporary file is the file itself exactly for names that fit the buffer and end in a tilde. */
  lemma TempIsItself(filename: string)
    requires filename != ""
    ensures TempName(filename) == filename <==> |filename| < BUFFER_SIZE && filename[|filename| - 1] == '~'
  {
    var kept := filename[..Least(|filename|, BUFFER_SIZE - 1)];
    assert filename == filename[..|filename| - 1] + [filename[|filename| - 1]];
    assert TempName(filename)[|kept| - 1] == '~';
  }

  /** The key has the value already, so that the file is left as it is. */
  predicate Settled(file: Option<string>, section: string, key: Option<string>, value: Option<string>) {
    file.Some? && key.Some? && value.Some? && Lookup(file.value, section, key.value) == value
  }

  class Directory {
    var files: map<string, string>

    constructor ()
      ensures files == map[]
    {
      files := map[];
    }

    /** The file of that name, if there is one; no file has an empty name. */
    function File(filename: string): (file: Option<string>)
      reads this
    {
      if filename != "" && filename in files then Some(files[filename]) else None
    }

    /** ini_gets into a buffer of `size` characters. */
    method Gets(section: string, key: string, default_: string, size: nat, filename: string) returns (buffer: string)
      requires size > 0
      ensures var found := IniText.Gets(File(filename), section, key);
              var text := if found.Some? then found.value else default_;
              buffer == text[..Least(|text|, size - 1)]
    {
      var ok, value := false, "";
      if filename != "" && filename in files {
        ok, value := GetKeystring(files[filename], section, key);
      }
      var text := if ok then value else default_;
      buffer := text[..Least(|text|, size - 1)];
    }

    /** The end of a rewrite: the file is removed, and the temporary one takes its place, unless it was the
        file itself. */
    method Replace(filename: string, written: string)
      requires filename != ""
      modifies this
      ensures var temp := TempName(filename);
              files == if temp == filename then old(files) - {filename} else old(files)[filename := written] - {temp}
    {
      var temp := TempName(filename);
      files := files[temp := written];
      files := files - {filename};
      if temp in files {
        files := files[filename := files[temp]] - {temp};
      }
    }

    /** ini_puts. The file is rewritten into a temporary one beside it. When that is the file itself, it is
        lost (TempIsItself); when another file has that name, that one is. */
    method Puts(section: string, key: Option<string>, value: Option<string>, filename: string) returns (ok: bool)
      modifies this
      ensures ok == (filename != "" || key.None? || value.None?)
      ensures filename == "" ==> files == old(files)
      ensures filename != "" ==>
                var file := old(File(filename));
                File(filename) == if TempName(filename) == filename && file.Some? && !Settled(file, section, key, value) then None
                                  else IniText.Puts(file, section, key, value)
      ensures filename != "" ==>
                var rewritten := old(File(filename)).Some? && !Settled(old(File(filename)), section, key, value);
                forall other :: other != filename ==>
                  File(other) == if rewritten && other == TempName(filename) then None else old(File(other))
    {
      hide Rewritten, Lookup, KeyLine, SectionLine;
      var buffer := new char[BUFFER_SIZE];
      ok := true;
      var put := key.Some? && value.Some?;
      if filename == "" {
        return !put;
      }
      if filename !in files {
        if put {
          var wfp := WriteSection(buffer, section, "");
          wfp := WriteKey(buffer, key.value, value.value, wfp);
          assert "" + SectionLine(section) + KeyLine(key.value, value.value) == SectionLine(section) + KeyLine(key.value, value.value);
          files := files[filename := wfp];
        }
        return;
      }
      var rfp := files[filename];
      if put {
        var found, held := GetKeystring(rfp, section, key.value);
        if found && held == value.value {
          return;
        }
      }
      var wfp := Rewrite(buffer, rfp, section, key, value);
      Replace(filename, wfp);
    }

    /** The body of ini_puts: the lines up to the section, then up to the key, then the rest. */
    static method Rewrite(buffer: array<char>, file: string, section: string, key: Option<string>, value: Option<string>)
      returns (wfp: string)
      requires buffer.Length == BUFFER_SIZE
      modifies buffer
      ensures wfp == Rewritten(file, section, key, value)
    {
      hide PutKey, PutSection;
      var rfp, found := file, true;
      wfp := "";
      if |section| > 0 {
        found, rfp, wfp := RewriteSection(buffer, file, section, key, value);
      }
      if found {
        wfp := RewriteKey(buffer, rfp, key, value, wfp);
      }
    }

    /** The lines up to the section header, and the section itself at the end when there is none. */
    static method RewriteSection(buffer: array<char>, file: string, section: string, key: Option<string>, value: Option<string>)
      returns (inside: bool, rfp: string, wfp: string)
      requires buffer.Length == BUFFER_SIZE && section != ""
      modifies buffer
      ensures PutSection(file, section, key, value, false) == if inside then wfp + PutKey(rfp, key, value) else wfp
    {
      hide ReadLine, HeaderOf, SkipLeading, Opens, PutKey, PutSection, SectionLine, KeyLine;
      var count := 0;
      inside, rfp, wfp := false, file, "";
      while !inside
        invariant count >= 0
        invariant PutSection(file, section, key, value, false)
               == wfp + if inside then PutKey(rfp, key, value) else PutSection(rfp, section, key, value, count > 0)
        decreases !inside, |rfp|
      {
        SectionStep(rfp, section, key, value, count > 0);
        if rfp == "" {
          wfp := AppendSection(buffer, section, key, value, count > 0, wfp);
          return;
        }
        var line := ReadLine(rfp).0;
        rfp := ReadLine(rfp).1;
        var at := SkipLeadingAt(line);
        var sp := line[at..];
        inside := IsHeaderOf(sp, section);
        if !inside || key.Some? {
          ghost var lead := if Opens(sp) && count > 0 then "\n" else "";
          Regroup(wfp, lead, sp, if inside then PutKey(rfp, key, value) else PutSection(rfp, section, key, value, count > 0 || sp != ""));
          wfp, count := CopyLine(sp, wfp, count);
        }
      }
    }

    /** The end of the file without the section. */
    static method AppendSection(buffer: array<char>, section: string, key: Option<string>, value: Option<string>, ghost count: bool, before: string)
      returns (wfp: string)
      requires buffer.Length == BUFFER_SIZE && section != ""
      modifies buffer
      ensures wfp == before + PutSection("", section, key, value, count)
    {
      hide SectionLine, KeyLine, PutSection;
      SectionStep("", section, key, value, count);
      wfp := before;
      if key.Some? && value.Some? {
        wfp := wfp + "\n";
        wfp := WriteSection(buffer, section, wfp);
        wfp := WriteKey(buffer, key.value, value.value, wfp);
        assert wfp == before + ("\n" + SectionLine(section) + KeyLine(key.value, value.value));
      } else {
        assert before + "" == before;
      }
    }

    /** One line before the section: not when it is empty, and with an empty line before a header. */
    static method CopyLine(sp: string, before: string, count: int) returns (wfp: string, counted: int)
      requires count >= 0
      ensures wfp == before + ((if Opens(sp) && count > 0 then "\n" else "") + sp)
      ensures counted >= 0 && (counted > 0 <==> count > 0 || sp != "")
    {
      wfp, counted := before, count;
      if |sp| > 0 {
        if Opens(sp) && count > 0 {
          wfp := wfp + "\n";
        }
        wfp := wfp + sp;
        counted := counted + 1;
      }
    }

    /** From behind the header: up to the key, the next section or the end. */
    static method RewriteKey(buffer: array<char>, file: string, key: Option<string>, value: Option<string>, before: string)
      returns (wfp: string)
      requires buffer.Length == BUFFER_SIZE
      modifies buffer
      ensures wfp == before + PutKey(file, key, value)
    {
      hide ReadLine, SkipLeading, Opens, HoldsExactly, KeyLine, CopyRest, PutKey, AtStop;
      var rfp := file;
      wfp := before;
      while true
        invariant before + PutKey(file, key, value) == wfp + PutKey(rfp, key, value)
        decreases |rfp|
      {
        KeyStepPut(rfp, key, value);
        if rfp == "" {
          wfp := AppendKey(buffer, key, value, wfp);
          return;
        }
        var line := ReadLine(rfp).0;
        rfp := ReadLine(rfp).1;
        var at := SkipLeadingAt(line);
        var sp := line[at..];
        var here := IsExactly(sp, key);
        if here || Opens(sp) {
          wfp := WriteStop(buffer, sp, rfp, key, value, wfp);
          return;
        }
        Regroup(wfp, if key.Some? then sp else "", "", PutKey(rfp, key, value));
        if key.Some? && |sp| > 0 {
          wfp := wfp + sp;
        }
      }
      assert false;
    }

    /** The end of the file without the key. */
    static method AppendKey(buffer: array<char>, key: Option<string>, value: Option<string>, before: string) returns (wfp: string)
      requires buffer.Length == BUFFER_SIZE
      modifies buffer
      ensures wfp == before + PutKey("", key, value)
    {
      wfp := before;
      if key.Some? && value.Some? {
        wfp := wfp + "\n";
        wfp := WriteKey(buffer, key.value, value.value, wfp);
        assert wfp == before + ("\n" + KeyLine(key.value, value.value));
      }
    }

    /** At the key, which is replaced, or at the next section, before which it is inserted. */
    static method WriteStop(buffer: array<char>, sp: string, rfp: string, key: Option<string>, value: Option<string>, before: string)
      returns (wfp: string)
      requires buffer.Length == BUFFER_SIZE
      modifies buffer
      ensures wfp == before + AtStop(sp, rfp, key, value)
    {
      hide Opens, KeyLine, CopyRest;
      wfp := before;
      var put := key.Some? && value.Some?;
      ghost var head := if Opens(sp) then (if put then key.value + "=" + value.value + "\n\n" else "") + sp else NewKey(key, value);
      if Opens(sp) {
        if put {
          wfp := wfp + key.value + "=" + value.value + "\n" + "\n";
        }
        wfp := wfp + sp;
      } else if put {
        wfp := WriteKey(buffer, key.value, value.value, wfp);
      }
      assert wfp == before + head;
      assert before + (head + CopyRest(rfp)) == before + head + CopyRest(rfp);
      wfp := CopyFrom(rfp, wfp);
    }

    /** The rest of the file. */
    static method CopyFrom(file: string, before: string) returns (wfp: string)
      ensures wfp == before + CopyRest(file)
    {
      hide ReadLine, SkipLeading, Opens;
      var rfp := file;
      wfp := before;
      while rfp != ""
        invariant before + CopyRest(file) == wfp + CopyRest(rfp)
        decreases |rfp|
      {
        var line := ReadLine(rfp).0;
        ghost var was := wfp;
        rfp := ReadLine(rfp).1;
        var at := SkipLeadingAt(line);
        var sp := line[at..];
        if |sp| > 0 {
          if Opens(sp) {
            wfp := wfp + "\n";
          }
          wfp := wfp + sp;
        }
        BlankLineSays("", "");
        ghost var copied := (if Opens(sp) then "\n" else "") + sp;
        assert wfp == was + copied;
        assert was + (copied + CopyRest(rfp)) == was + copied + CopyRest(rfp);
      }
    }

    /** Is this line the one the writer replaces? */
    static method IsExactly(sp: string, key: Option<string>) returns (match_: bool)
      ensures match_ == (key.Some? && HoldsExactly(sp, key.value))
    {
      var ep := Search(sp, '=');
      if ep < 0 {
        ep := Search(sp, ':');
      }
      match_ := key.Some? && ep >= 0 && ep == |key.value| && sp[..ep] == key.value;
    }

    /** ini_putl */
    method Putl(section: string, key: string, value: int, filename: string) returns (ok: bool)
      requires LONG_MIN <= value <= LONG_MAX
      modifies this
      ensures ok == (filename != "")
      ensures filename != "" ==>
                var file, text := old(File(filename)), Some(Decimal(value));
                File(filename) == if TempName(filename) == filename && file.Some? && !Settled(file, section, Some(key), text) then None
                                  else IniText.Puts(file, section, Some(key), text)
    {
      var str := new char[32];
      var len := LongToStr(value, str);
      ok := Puts(section, Some(key), Some(str[..len]), filename);
    }

    /** ini_getl */
    method Getl(section: string, key: string, default_: int, filename: string) returns (value: int)
      ensures value == NumberOf(IniText.Gets(File(filename), section, key), default_)
    {
      var buff := Gets(section, key, "", 64, filename);
      value := if |buff| == 0 then default_ else Strtol(buff);
    }

    /** A number put and got again: for any names, what is read of the file that was written; and for names
        that are written whole into a file whose lines fit, the number, unless the key is hidden from the
        writer, when it is the old one. */
    method PutlThenGetl(section: string, key: string, value: int, default_: int, filename: string) returns (again: int)
      requires LONG_MIN <= value <= LONG_MAX
      modifies this
      ensures var file, text := old(File(filename)), Some(Decimal(value));
              var after := if filename == "" then file
                           else if Lost(filename, file, section, key, value) then None
                           else IniText.Puts(file, section, Some(key), text);
              again == NumberOf(IniText.Gets(after, section, key), default_)
      ensures var file := old(File(filename));
              filename != "" && !Lost(filename, file, section, key, value) && WrittenWhole(file, section, key, value)
              ==> again == if Hidden(file, section, key) then NumberOf(IniText.Gets(file, section, key), default_) else value
    {
      hide IniText.Puts, IniText.Gets, ValidKey, ValidSection, Normal, Hidden, Decimal, Strtol, Strtoul;
      NothingThere(section, key);
      StrtolReads(value);
      NumberRead(value, default_);
      if WrittenWhole(File(filename), section, key, value) {
        DecimalIsValue(key, value);
        PutThenGet(File(filename), section, key, Decimal(value));
        PutHidden(File(filename), section, key, Decimal(value));
      }
      var ok := Putl(section, key, value, filename);
      again := Getl(section, key, default_, filename);
    }
  }

  /** The number in a text of at most 63 characters. */
  function NumberOf(found: Option<string>, default_: int): int {
    var text := if found.Some? then found.value[..Least(|found.value|, 63)] else "";
    if text == "" then default_ else Strtol(text)
  }

  lemma NumberRead(n: int, default_: int)
    requires LONG_MIN <= n <= LONG_MAX
    ensures NumberOf(Some(Decimal(n)), default_) == n
  {
    hide Decimal, Strtol;
    StrtolReads(n);
    DecimalIsValue("", n);
    assert Decimal(n)[..|Decimal(n)|] == Decimal(n);
  }

  /** The file is its own temporary one, and is rewritten. */
  predicate Lost(filename: string, file: Option<string>, section: string, key: string, value: int) {
    filename != "" && TempName(filename) == filename && file.Some? && !Settled(file, section, Some(key), Some(Decimal(value)))
  }

  predicate WrittenWhole(file: Option<string>, section: string, key: string, value: int) {
    NormalFile(file) && ValidSection(section) && ValidKey(key) && |key| + |Decimal(value)| <= BUFFER_SIZE - 4
  }

  /** What the loop over a section leaves to do when it stops at a line. */
  function AtStop(sp: string, rest: string, key: Option<string>, value: Option<string>): string {
    if Opens(sp) then (if key.Some? && value.Some? then key.value + "=" + value.value + "\n\n" else "") + sp + CopyRest(rest)
    else NewKey(key, value) + CopyRest(rest)
  }

  lemma Regroup(a: string, b: string, c: string, d: string)
    ensures a + (b + c + d) == a + (b + c) + d
    ensures c == "" ==> a + (b + d) == a + b + d && (b == "" ==> a + b == a)
  {
  }

  lemma KeyStepPut(s: string, key: Option<string>, value: Option<string>)
    ensures s == "" ==> PutKey(s, key, value) == if key.Some? && value.Some? then "\n" + KeyLine(key.value, value.value) else ""
    ensures s != "" ==>
              var sp, rest := SkipLeading(ReadLine(s).0), ReadLine(s).1;
              PutKey(s, key, value) ==
              if Opens(sp) || (key.Some? && HoldsExactly(sp, key.value)) then AtStop(sp, rest, key, value)
              else (if key.Some? then sp else "") + PutKey(rest, key, value)
  {
    hide ReadLine, SkipLeading, Opens, HoldsExactly, KeyLine, CopyRest;
  }

  lemma SectionStep(s: string, section: string, key: Option<string>, value: Option<string>, count: bool)
    ensures s == "" ==>
              PutSection(s, section, key, value, count)
              == if key.Some? && value.Some? then "\n" + SectionLine(section) + KeyLine(key.value, value.value) else ""
    ensures s != "" ==>
              var sp, rest := SkipLeading(ReadLine(s).0), ReadLine(s).1;
              var found := HeaderOf(sp) == Some(section);
              PutSection(s, section, key, value, count) ==
              if found && key.None? then PutKey(rest, key, value)
              else
                (if Opens(sp) && count then "\n" else "") + sp +
                if found then PutKey(rest, key, value) else PutSection(rest, section, key, value, count || sp != "")
  {
    hide ReadLine, SkipLeading, Opens, HeaderOf, KeyLine, SectionLine, PutKey;
  }

  // ----- numbers ------------------------------------------------------------------------------------------

  const LONG_MIN := -0x8000_0000_0000_0000
  const LONG_MAX := 0x7FFF_FFFF_FFFF_FFFF

  function DigitsOf(n: nat): (s: string)
    ensures s != ""
  {
    (if n < 10 then "" else DigitsOf(n / 10)) + [('0' as int + n % 10) as char]
  }

  function Magnitude(n: int): nat {
    if n < 0 then -n else n
  }

  function Decimal(n: int): (s: string)
    ensures s != ""
  {
    (if n < 0 then "-" else "") + DigitsOf(Magnitude(n))
  }

  function Reversed(s: string): (r: string)
    ensures |r| == |s|
  {
    if s == "" then "" else Reversed(s[1..]) + [s[0]]
  }

  lemma {:induction false} ReversedAt(s: string, k: nat)
    requires k < |s|
    ensures Reversed(s)[k] == s[|s| - 1 - k]
  {
    if k < |s| - 1 {
      ReversedAt(s[1..], k);
    }
  }

  lemma {:induction false} ReversedEnd(s: string, c: char)
    ensures Reversed(s + [c]) == [c] + Reversed(s)
  {
    if s == "" {
      assert [c][1..] == "";
    } else {
      assert (s + [c])[1..] == s[1..] + [c];
      ReversedEnd(s[1..], c);
    }
  }

  /** ini_string_reverse, on the first `len` characters. */
  method StringReverse(str: array<char>, len: nat)
    requires len <= str.Length
    modifies str
    ensures str[..len] == Reversed(old(str[..len]))
    ensures forall k :: len <= k < str.Length ==> str[k] == old(str[k])
  {
    var i: int, j: int := 0, len - 1;
    while i < j
      invariant 0 <= i <= len && i + j == len - 1 && j >= i - 1
      invariant forall k :: 0 <= k < i ==> str[k] == old(str[len - 1 - k]) && str[len - 1 - k] == old(str[k])
      invariant forall k :: i <= k <= j ==> str[k] == old(str[k])
      invariant forall k :: len <= k < str.Length ==> str[k] == old(str[k])
    {
      var t := str[i];
      str[i] := str[j];
      str[j] := t;
      i, j := i + 1, j - 1;
    }
    ghost var was := old(str[..len]);
    forall k | 0 <= k < len ensures str[..len][k] == Reversed(was)[k] {
      ReversedAt(was, k);
    }
  }

  /** C's % and / for a divisor of ten: towards zero. */
  function Rem10(n: int): int {
    if n < 0 then -(-n % 10) else n % 10
  }

  function Quot10(n: int): int {
    if n < 0 then -(-n / 10) else n / 10
  }

  lemma {:induction false} DigitsLength(n: nat, width: nat, bound: nat)
    requires n < bound && 1 <= width && bound <= Power10(width)
    ensures |DigitsOf(n)| <= width
  {
    if n >= 10 {
      DigitsLength(n / 10, width - 1, Power10(width - 1));
    }
  }

  function Power10(e: nat): nat {
    if e == 0 then 1 else 10 * Power10(e - 1)
  }

  lemma LongFits(n: int)
    requires LONG_MIN <= n <= LONG_MAX
    ensures |Decimal(n)| <= 20
  {
    assert Power10(4) == 10000;
    assert Power10(8) == 10000 * 10000;
    assert Power10(12) == 100000000 * 10000;
    assert Power10(16) == 1000000000000 * 10000;
    assert Power10(19) == 10000000000000000 * 1000;
    DigitsLength(Magnitude(n), 19, Power10(19));
  }

  /** ini_long2str: the digits from the last one, the sign, and all of it reversed in place. The value
      is never negated, so the smallest number is written too. */
  method LongToStr(value: int, str: array<char>) returns (len: nat)
    requires LONG_MIN <= value <= LONG_MAX && str.Length == 32
    modifies str
    ensures len == |Decimal(value)| && len < 32 && str[..len] == Decimal(value) && str[len] == NUL
  {
    hide DigitsOf, Reversed;
    var i, v, more := 0, value, true;
    ghost var digits := DigitsOf(Magnitude(value));
    ReversedNothing();
    LongFits(value);
    assert str[..0] == "";
    while more
      invariant i <= |digits| && LONG_MIN <= v <= LONG_MAX
      invariant more ==> digits == DigitsOf(Magnitude(v)) + Reversed(str[..i])
      invariant !more ==> digits == Reversed(str[..i])
      decreases more, Magnitude(v)
    {
      ghost var was := str[..i];
      var n := Rem10(v);
      DigitStep(v);
      str[i] := ('0' as int + Magnitude(n)) as char;
      assert str[..i + 1] == was + [str[i]];
      ReversedEnd(was, str[i]);
      i := i + 1;
      v := Quot10(v);
      more := v != 0;
    }
    ghost var was := str[..i];
    if value < 0 {
      str[i] := '-';
      assert str[..i + 1] == was + ['-'];
      ReversedEnd(was, '-');
      i := i + 1;
    }
    ghost var whole := str[..i];
    str[i] := NUL;
    assert str[..i] == whole;
    StringReverse(str, i);
    len := i;
  }

  lemma ReversedNothing()
    ensures Reversed("") == ""
  {
  }

  lemma DigitStep(v: int)
    ensures var c := ('0' as int + Magnitude(Rem10(v))) as char;
            DigitsOf(Magnitude(v)) == if Quot10(v) == 0 then [c] else DigitsOf(Magnitude(Quot10(v))) + [c]
  {
  }

  // ----- strtol ---------------------------------------------------------------------------------------------

  function Strtoul(s: string, n: nat): nat {
    if s != "" && '0' <= s[0] <= '9' then Strtoul(s[1..], n * 10 + (s[0] as int - '0' as int)) else n
  }

  /** isspace: the blank, and the characters from the tabulator to the carriage return. */
  function SkipSpace(s: string): string {
    if s != "" && (s[0] == ' ' || 9 <= s[0] as int <= 13) then SkipSpace(s[1..]) else s
  }

  /** strtol in base ten. */
  function Strtol(text: string): int {
    var s := SkipSpace(text);
    var signed := s != "" && (s[0] == '-' || s[0] == '+');
    var magnitude: int := Strtoul(if signed then s[1..] else s, 0);
    var value := if signed && s[0] == '-' then -magnitude else magnitude;
    if value < LONG_MIN then LONG_MIN else if value > LONG_MAX then LONG_MAX else value
  }

  lemma {:induction false} StrtoulReads(n: nat, rest: string)
    ensures Strtoul(DigitsOf(n) + rest, 0) == Strtoul(rest, n)
  {
    var last := ('0' as int + n % 10) as char;
    if n < 10 {
      assert (DigitsOf(n) + rest)[1..] == rest;
    } else {
      assert DigitsOf(n) + rest == DigitsOf(n / 10) + ([last] + rest);
      StrtoulReads(n / 10, [last] + rest);
      assert ([last] + rest)[1..] == rest;
    }
  }

  lemma {:induction false} DigitsAre(n: nat)
    ensures forall i :: 0 <= i < |DigitsOf(n)| ==> '0' <= DigitsOf(n)[i] <= '9'
  {
    if n >= 10 {
      DigitsAre(n / 10);
    }
  }

  lemma StrtolReads(n: int)
    requires LONG_MIN <= n <= LONG_MAX
    ensures Strtol(Decimal(n)) == n
  {
    StrtoulReads(Magnitude(n), "");
    DigitsAre(Magnitude(n));
    assert DigitsOf(Magnitude(n)) + "" == DigitsOf(Magnitude(n));
    if n < 0 {
      assert Decimal(n)[1..] == DigitsOf(Magnitude(n));
    } else {
      assert Decimal(n) == DigitsOf(Magnitude(n));
    }
  }

  /** Any numeral is read, whatever blanks are before it, whatever its sign, and whatever follows its digits; one
      that a long does not hold is read as the nearest that it does. */
  lemma {:induction false} NumeralReads(blanks: string, sign: string, n: nat, rest: string)
    requires forall i :: 0 <= i < |blanks| ==> blanks[i] in " \t\n\r"
    requires sign in ["", "+", "-"] && (rest == "" || !('0' <= rest[0] <= '9'))
    ensures var value: int := if sign == "-" then -(n as int) else n as int;
            Strtol(blanks + sign + DigitsOf(n) + rest)
            == if value < LONG_MIN then LONG_MIN else if value > LONG_MAX then LONG_MAX else value
  {
    hide DigitsOf, Strtoul, SkipSpace;
    var numeral := sign + DigitsOf(n) + rest;
    DigitsAre(n);
    assert numeral[0] == if sign == "" then DigitsOf(n)[0] else sign[0];
    SkipsSpace(blanks, numeral);
    assert blanks + sign + DigitsOf(n) + rest == blanks + numeral;
    assert sign + DigitsOf(n) + rest == sign + (DigitsOf(n) + rest);
    assert numeral[|sign|..] == DigitsOf(n) + rest;
    StrtoulReads(n, rest);
    StrtoulStops(rest, n);
  }

  lemma {:induction false} SkipsSpace(blanks: string, numeral: string)
    requires forall i :: 0 <= i < |blanks| ==> blanks[i] in " \t\n\r"
    requires numeral != "" && numeral[0] in "+-0123456789"
    ensures SkipSpace(blanks + numeral) == numeral
  {
    if blanks == "" {
      assert blanks + numeral == numeral;
    } else {
      assert (blanks + numeral)[1..] == blanks[1..] + numeral;
      SkipsSpace(blanks[1..], numeral);
    }
  }

  lemma StrtoulStops(rest: string, n: nat)
    requires rest == "" || !('0' <= rest[0] <= '9')
    ensures Strtoul(rest, n) == n
  {
  }

  /** The digits stand from the highest to the lowest. */
  lemma DecimalOf()
    ensures Decimal(0) == "0" && Decimal(-120) == "-120"
  {
    assert DigitsOf(1) == "1" && DigitsOf(12) == "12" && DigitsOf(120) == "120";
  }

  lemma NothingThere(section: string, key: string)
    ensures IniText.Gets(None, section, key) == None
  {
  }

  lemma DecimalIsValue(key: string, n: int)
    requires LONG_MIN <= n <= LONG_MAX
    ensures ValidValue(key, Decimal(n)) <==> |key| + |Decimal(n)| <= BUFFER_SIZE - 4
    ensures 1 <= |Decimal(n)| <= 20
  {
    LongFits(n);
    DigitsAre(Magnitude(n));
    var d := DigitsOf(Magnitude(n));
    assert forall i :: 0 <= i < |Decimal(n)| ==> Decimal(n)[i] == '-' || Decimal(n)[i] in d;
  }
}
