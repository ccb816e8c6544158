/** What a file means to ini_gets, and what ini_puts makes of it (libcwmp/src/ini.c). */
module IniText {
  // A file is a text without NUL, read by fgets into a buffer of 256 characters; what is left of it is the
  // stream.

  datatype Option<T> = None | Some(value: T)

  const BUFFER_SIZE := 256

  /** `c <= ' '` for a signed char: control characters and everything beyond ASCII. */
  predicate Blank(c: char) {
    c as int <= 32 || c as int >= 128
  }

  function Least(a: int, b: int): int {
    if a < b then a else b
  }

  /** ini_skip_leading */
  function SkipLeading(s: string): (r: string)
    ensures |r| <= |s| && (r != "" ==> !Blank(r[0]))
  {
    if s != "" && Blank(s[0]) then SkipLeading(s[1..]) else s
  }

  /** ini_skip_trailing */
  function TrimEnd(s: string): (r: string)
    ensures r <= s && (r != "" ==> !Blank(r[|r| - 1]))
  {
    if s != "" && Blank(s[|s| - 1]) then TrimEnd(s[..|s| - 1]) else s
  }

  /** strchr, as an index; -1 for NULL. */
  function Find(s: string, c: char): (i: int)
    ensures -1 <= i < |s|
    ensures i >= 0 ==> s[i] == c
    ensures forall j :: 0 <= j < (if i >= 0 then i else |s|) ==> s[j] != c
  {
    if s == "" then -1
    else if s[0] == c then 0
    else
      var i := Find(s[1..], c);
      assert forall j :: 1 <= j < |s| ==> s[j] == s[1..][j - 1];
      if i < 0 then -1 else i + 1
  }

  /** How much fgets takes: a line with its end, or as much as fits. */
  function Taken(s: string, limit: nat): (n: nat)
    ensures n <= |s| && n <= limit && (s != "" && limit > 0 ==> n > 0)
  {
    if s == "" || limit == 0 then 0
    else if s[0] == '\n' then 1
    else 1 + Taken(s[1..], limit - 1)
  }

  function ReadLine(s: string): (r: (string, string))
    ensures s != "" ==> |r.1| < |s|
    ensures r.0 + r.1 == s
  {
    var n := Taken(s, BUFFER_SIZE - 1);
    (s[..n], s[n..])
  }

  /** Every line, without its end, is shorter than 255 characters, so that one fgets reads it. */
  predicate Normal(s: string)
    decreases |s|
  {
    s == "" ||
    var (line, rest) := ReadLine(s);
    |line| < BUFFER_SIZE && (line[|line| - 1] == '\n' || (rest == "" && |line| < BUFFER_SIZE - 1)) && Normal(rest)
  }

  // ----- lines --------------------------------------------------------------------------------

  /** The section a line opens, when it is a header. */
  function HeaderOf(sp: string): Option<string> {
    if sp != "" && sp[0] == '[' && Find(sp, ']') >= 0 then Some(sp[1..Find(sp, ']')]) else None
  }

  predicate Opens(sp: string) {
    sp != "" && sp[0] == '['
  }

  /** The separator: the first equals sign, or without one the first colon. */
  function Separator(sp: string): (i: int)
    ensures -1 <= i < |sp|
  {
    if Find(sp, '=') >= 0 then Find(sp, '=') else Find(sp, ':')
  }

  /** A line in which the lookup sees the key: its name trimmed at the end. */
  predicate Holds(sp: string, key: string) {
    sp != "" && sp[0] != ';' && sp[0] != '#' && Separator(sp) >= 0 && TrimEnd(sp[..Separator(sp)]) == key
  }

  /** A line in which the writer sees the key: its name exactly. */
  predicate HoldsExactly(sp: string, key: string) {
    Separator(sp) >= 0 && sp[..Separator(sp)] == key
  }

  /** Double quotes around a value do not belong to it. */
  function Unquote(s: string): string {
    if s != "" && s[0] == '\"' && s[|s| - 1] == '\"' then (if |s| == 1 then "" else s[1..|s| - 1]) else s
  }

  /** What is read of the text behind a separator. */
  function ReadAs(text: string): string {
    Unquote(TrimEnd(SkipLeading(text)))
  }

  function ValueOf(sp: string): string
    requires Separator(sp) >= 0
  {
    ReadAs(sp[Separator(sp) + 1..])
  }

  // ----- ini_get_keystring ----------------------------------------------------------------------

  /** The stream behind the header of the first section of that name. */
  function FindSection(s: string, section: string): (r: Option<string>)
    ensures r.Some? ==> |r.value| < |s|
    decreases |s|
  {
    if s == "" then None
    else
      var (line, rest) := ReadLine(s);
      if HeaderOf(SkipLeading(line)) == Some(section) then Some(rest) else FindSection(rest, section)
  }

  /** The value of the first line that holds the key, before the next section. */
  function FindKey(s: string, key: string): Option<string>
    decreases |s|
  {
    if s == "" then None
    else
      var (line, rest) := ReadLine(s);
      var sp := SkipLeading(line);
      if Opens(sp) then None
      else if Holds(sp, key) then Some(ValueOf(sp))
      else FindKey(rest, key)
  }

  /** What ini_gets finds; the empty section name stands for the keys above the first section. */
  function Lookup(s: string, section: string, key: string): Option<string> {
    if section == "" then FindKey(s, key)
    else
      match FindSection(s, section)
      case None => None
      case Some(rest) => FindKey(rest, key)
  }

  // ----- ini_puts -------------------------------------------------------------------------------

  /** ini_write_section */
  function SectionLine(section: string): string {
    if section == "" then "" else "[" + section[..Least(|section|, BUFFER_SIZE - 5)] + "]\n"
  }

  /** ini_write_key */
  function KeyLine(key: string, value: string): string {
    var name := key[..Least(|key|, BUFFER_SIZE - 4)];
    name + "=" + value[..Least(|value|, BUFFER_SIZE - 4 - |name|)] + "\n"
  }

  function NewKey(key: Option<string>, value: Option<string>): string {
    if key.Some? && value.Some? then KeyLine(key.value, value.value) else ""
  }

  /** The rest of the file, without empty lines, with one before each section. */
  function CopyRest(s: string): string
    decreases |s|
  {
    if s == "" then ""
    else
      var (line, rest) := ReadLine(s);
      var sp := SkipLeading(line);
      (if Opens(sp) then "\n" else "") + sp + CopyRest(rest)
  }

  /** From behind the section header: up to the key or the next section, and the rest. */
  function PutKey(s: string, key: Option<string>, value: Option<string>): string
    decreases |s|
  {
    if s == "" then (if key.Some? && value.Some? then "\n" + NewKey(key, value) else "")
    else
      var (line, rest) := ReadLine(s);
      var sp := SkipLeading(line);
      if Opens(sp) then
        (if key.Some? && value.Some? then key.value + "=" + value.value + "\n\n" else "") + sp + CopyRest(rest)
      else if key.Some? && HoldsExactly(sp, key.value) then NewKey(key, value) + CopyRest(rest)
      else (if key.Some? then sp else "") + PutKey(rest, key, value)
  }

  /** Up to the section, which is added at the end when it is missing; `count` says whether a line has
      been written. */
  function PutSection(s: string, section: string, key: Option<string>, value: Option<string>, count: bool): string
    decreases |s|
  {
    if s == "" then (if key.Some? && value.Some? then "\n" + SectionLine(section) + NewKey(key, value) else "")
    else
      var (line, rest) := ReadLine(s);
      var sp := SkipLeading(line);
      var found := HeaderOf(sp) == Some(section);
      if found && key.None? then PutKey(rest, key, value)
      else
        (if Opens(sp) && count then "\n" else "") + sp +
        if found then PutKey(rest, key, value) else PutSection(rest, section, key, value, count || sp != "")
  }

  function Rewritten(s: string, section: string, key: Option<string>, value: Option<string>): string {
    if section == "" then PutKey(s, key, value) else PutSection(s, section, key, value, false)
  }

  /** The file after ini_puts; None is a file that does not exist. Without a key the section is erased,
      without a value the key. */
  function Puts(file: Option<string>, section: string, key: Option<string>, value: Option<string>): Option<string> {
    match file
    case None => if key.Some? && value.Some? then Some(SectionLine(section) + NewKey(key, value)) else None
    case Some(s) =>
      if key.Some? && value.Some? && Lookup(s, section, key.value) == value then file
      else Some(Rewritten(s, section, key, value))
  }

  function Gets(file: Option<string>, section: string, key: string): Option<string> {
    match file
    case None => None
    case Some(s) => Lookup(s, section, key)
  }
}
