/** JSON values and their texts as libcwmp/src/cJSON.c prints, parses and minifies them. */
module CjsonText {

  // A byte string is a sequence of characters below 256 without NUL; a pointer into a text is what is left
  // of the text from there, and the end of the text is its terminating NUL.

  datatype Json =
    | Null
    | False
    | True
    | Number(n: int)
    | String(s: string)
    | Array(items: seq<Json>)
    | Object(members: seq<Member>)

  datatype Member = Member(name: string, value: Json)

  const INT_MIN := -0x8000_0000
  const INT_MAX := 0x7FFF_FFFF

  predicate Bytes(s: string) {
    forall i :: 0 <= i < |s| ==> 0 < s[i] as int < 256
  }

  /** What cJSON can hold of the values modelled: 32-bit integers and NUL-free byte strings. */
  predicate Storable(v: Json) {
    match v
    case Number(n) => INT_MIN <= n <= INT_MAX
    case String(s) => Bytes(s)
    case Array(items) => forall i :: 0 <= i < |items| ==> Storable(items[i])
    case Object(members) => forall i :: 0 <= i < |members| ==> Bytes(members[i].name) && Storable(members[i].value)
    case _ => true
  }

  // ----- printing ---------------------------------------------------------------------------

  const QUOTE: char := '\"'
  const BACKSLASH: char := '\\'
  const BACKSPACE: char := 8 as char
  const FORM_FEED: char := 12 as char

  function HexDigit(d: nat): char
    requires d < 16
  {
    if d < 10 then ('0' as int + d) as char else ('a' as int + (d - 10)) as char
  }

  /** "%04x" */
  function Hex4(n: nat): (s: string)
    requires n < 0x10000
    ensures |s| == 4
  {
    [HexDigit(n / 4096), HexDigit(n / 256 % 16), HexDigit(n / 16 % 16), HexDigit(n % 16)]
  }

  function EscapeChar(c: char): string {
    if c as int > 31 && c != QUOTE && c != BACKSLASH then [c]
    else if c == BACKSLASH || c == QUOTE then [BACKSLASH, c]
    else if c == BACKSPACE then [BACKSLASH, 'b']
    else if c == FORM_FEED then [BACKSLASH, 'f']
    else if c == '\n' then [BACKSLASH, 'n']
    else if c == '\r' then [BACKSLASH, 'r']
    else if c == '\t' then [BACKSLASH, 't']
    else [BACKSLASH, 'u'] + Hex4(c as int)
  }

  function Escape(s: string): string {
    if s == "" then "" else EscapeChar(s[0]) + Escape(s[1..])
  }

  /** print_string_ptr */
  function PrintString(s: string): string {
    [QUOTE] + Escape(s) + [QUOTE]
  }

  function Digits(n: nat): (s: string)
    ensures |s| > 0
  {
    (if n < 10 then "" else Digits(n / 10)) + [('0' as int + n % 10) as char]
  }

  /** "%d" */
  function PrintInt(n: int): string {
    if n < 0 then "-" + Digits(-n) else Digits(n)
  }

  function Tabs(n: int): string {
    if n <= 0 then "" else "\t" + Tabs(n - 1)
  }

  function When(fmt: bool, s: string): string {
    if fmt then s else ""
  }

  /** print_value: `depth` counts the enclosing arrays and objects. */
  function Print(v: Json, depth: nat, fmt: bool): string
    decreases v, 0
  {
    match v
    case Null => "null"
    case False => "false"
    case True => "true"
    case Number(n) => PrintInt(n)
    case String(s) => PrintString(s)
    case Array(items) => "[" + PrintItems(items, depth + 1, fmt) + "]"
    case Object(members) =>
      if members == [] then "{" + When(fmt, "\n" + Tabs(depth - 1)) + "}"
      else "{" + When(fmt, "\n") + PrintMembers(members, depth + 1, fmt) + When(fmt, Tabs(depth)) + "}"
  }

  function PrintItems(items: seq<Json>, depth: nat, fmt: bool): string
    decreases items, 1
  {
    if items == [] then ""
    else if |items| == 1 then Print(items[0], depth, fmt)
    else Print(items[0], depth, fmt) + "," + When(fmt, " ") + PrintItems(items[1..], depth, fmt)
  }

  function PrintMember(m: Member, depth: nat, fmt: bool): string
    decreases m, 1
  {
    When(fmt, Tabs(depth)) + PrintString(m.name) + ":" + When(fmt, "\t") + Print(m.value, depth, fmt)
  }

  function PrintMembers(members: seq<Member>, depth: nat, fmt: bool): string
    decreases members, 2
  {
    if members == [] then ""
    else
      PrintMember(members[0], depth, fmt) + When(|members| > 1, ",") + When(fmt, "\n") +
      PrintMembers(members[1..], depth, fmt)
  }

  // ----- parsing ----------------------------------------------------------------------------

  /** A parse gives a value and what follows it, or fails; Unmodelled marks malformed escapes,
      numbers that are not 32-bit integers, and reads beyond the end of the text. */
  datatype Parse<+T> = Ok(value: T, rest: string) | Fail | Unmodelled

  /** skip */
  function Skip(s: string): (r: string)
    ensures |r| <= |s| && (r != "" ==> r[0] as int > 32)
  {
    if s != "" && s[0] as int <= 32 then Skip(s[1..]) else s
  }

  predicate StartsWith(s: string, c: char) {
    s != "" && s[0] == c
  }

  predicate IsDigit(c: char) {
    '0' <= c <= '9'
  }

  function HexValue(c: char): (d: int)
    ensures -1 <= d < 16
  {
    if '0' <= c <= '9' then c as int - '0' as int
    else if 'A' <= c <= 'F' then 10 + c as int - 'A' as int
    else if 'a' <= c <= 'f' then 10 + c as int - 'a' as int
    else -1
  }

  predicate FourHexDigits(s: string) {
    |s| >= 4 && forall i :: 0 <= i < 4 ==> HexValue(s[i]) >= 0
  }

  /** parse_hex4 on four hexadecimal digits */
  function ParseHex4(s: string): (n: nat)
    requires FourHexDigits(s)
    ensures n < 0x10000
  {
    ((HexValue(s[0]) * 16 + HexValue(s[1])) * 16 + HexValue(s[2])) * 16 + HexValue(s[3])
  }

  /** The UTF-8 bytes of a code point, as parse_string emits them (section 3 of RFC 3629). */
  function Utf8(uc: nat): (s: string)
    requires uc < 0x110000
    ensures 1 <= |s| <= 4 && |s| <= (if uc < 0x10000 then 3 else 4)
  {
    if uc < 0x80 then [uc as char]
    else if uc < 0x800 then [(0xC0 + uc / 64) as char, (0x80 + uc % 64) as char]
    else if uc < 0x10000 then [(0xE0 + uc / 4096) as char, (0x80 + uc / 64 % 64) as char, (0x80 + uc % 64) as char]
    else [(0xF0 + uc / 262144) as char, (0x80 + uc / 4096 % 64) as char, (0x80 + uc / 64 % 64) as char, (0x80 + uc % 64) as char]
  }

  /** The code point of a surrogate pair (section 7 of RFC 8259). */
  function Combine(high: nat, low: nat): nat {
    0x10000 + high % 0x400 * 0x400 + low % 0x400
  }

  /** One escape after its backslash: the bytes it stands for and what follows. */
  function ParseEscape(s: string): (r: Parse<string>)
    ensures r.Ok? ==> |r.rest| < |s|
  {
    if s == "" then Unmodelled
    else if s[0] == 'b' then Ok([BACKSPACE], s[1..])
    else if s[0] == 'f' then Ok([FORM_FEED], s[1..])
    else if s[0] == 'n' then Ok("\n", s[1..])
    else if s[0] == 'r' then Ok("\r", s[1..])
    else if s[0] == 't' then Ok("\t", s[1..])
    else if s[0] != 'u' then Ok([s[0]], s[1..])
    else if !FourHexDigits(s[1..]) then Unmodelled
    else
      var uc, rest := ParseHex4(s[1..]), s[5..];
      if 0xDC00 <= uc <= 0xDFFF || uc == 0 then Ok("", rest)
      else if 0xD800 <= uc <= 0xDBFF then
        if !(|rest| >= 2 && rest[0] == BACKSLASH && rest[1] == 'u') then Ok("", rest)
        else if !FourHexDigits(rest[2..]) then Unmodelled
        else
          var uc2 := ParseHex4(rest[2..]);
          if uc2 < 0xDC00 || 0xDFFF < uc2 then Ok("", rest[6..])
          else Ok(Utf8(Combine(uc, uc2)), rest[6..])
      else Ok(Utf8(uc), rest)
  }

  /** The rest of a string literal; one that is not closed runs to the end of the text. */
  function ParseChars(s: string): (r: Parse<string>)
    ensures r.Ok? ==> |r.rest| <= |s|
    decreases |s|
  {
    if s == "" then Ok("", "")
    else if s[0] == QUOTE then Ok("", s[1..])
    else if s[0] != BACKSLASH then
      match ParseChars(s[1..])
      case Ok(out, rest) => Ok([s[0]] + out, rest)
      case other => other
    else
      match ParseEscape(s[1..])
      case Ok(bytes, tail) =>
        (match ParseChars(tail)
         case Ok(out, rest) => Ok(bytes + out, rest)
         case other => other)
      case other => other
  }

  /** parse_string */
  function ParseString(s: string): (r: Parse<string>)
    ensures r.Ok? ==> |r.rest| < |s|
  {
    if StartsWith(s, QUOTE) then ParseChars(s[1..]) else Fail
  }

  /** The digits at the head of `s`, read after the value `n`. */
  function ParseDigits(s: string, n: nat): (r: (nat, string))
    ensures |r.1| <= |s|
  {
    if s != "" && IsDigit(s[0]) then ParseDigits(s[1..], n * 10 + (s[0] as int - '0' as int)) else (n, s)
  }

  /** The number of sign and digits `n`, when what follows leaves it a 32-bit integer. */
  function Numeral(negative: bool, n: nat, rest: string): (r: Parse<Json>)
    ensures r.Ok? ==> r.value.Number? && r.rest == rest
  {
    var magnitude: int := n;
    var value := if negative then -magnitude else magnitude;
    if |rest| >= 2 && rest[0] == '.' && IsDigit(rest[1]) then Unmodelled
    else if StartsWith(rest, 'e') || StartsWith(rest, 'E') then Unmodelled
    else if value < INT_MIN || INT_MAX < value then Unmodelled
    else Ok(Number(value), rest)
  }

  /** The digits of a number, its sign and one leading zero taken off. */
  function LeadingDigits(s: string): (r: (nat, string))
    ensures |r.1| <= |s| && (s != "" && '1' <= s[0] <= '9' ==> |r.1| < |s|)
  {
    if s != "" && '1' <= s[0] <= '9' then ParseDigits(s, 0) else (0, s)
  }

  /** parse_number, for integers */
  function ParseNumber(s: string): (r: Parse<Json>)
    ensures r.Ok? ==> r.value.Number?
    ensures r.Ok? && s != "" && (s[0] == '-' || IsDigit(s[0])) ==> |r.rest| < |s|
  {
    var negative := StartsWith(s, '-');
    var s1 := if negative then s[1..] else s;
    var s2 := if StartsWith(s1, '0') then s1[1..] else s1;
    Numeral(negative, LeadingDigits(s2).0, LeadingDigits(s2).1)
  }

  /** parse_value */
  function ParseValue(s: string): (r: Parse<Json>)
    ensures r.Ok? ==> |r.rest| < |s|
    decreases |s|, 1
  {
    if "null" <= s then Ok(Null, s[4..])
    else if "false" <= s then Ok(False, s[5..])
    else if "true" <= s then Ok(True, s[4..])
    else if StartsWith(s, QUOTE) then
      match ParseString(s)
      case Ok(str, rest) => Ok(String(str), rest)
      case Fail => Fail
      case Unmodelled => Unmodelled
    else if s != "" && (s[0] == '-' || IsDigit(s[0])) then ParseNumber(s)
    else if StartsWith(s, '[') then
      if StartsWith(Skip(s[1..]), ']') then Ok(Array([]), Skip(s[1..])[1..])
      else
        match ParseItems(s[1..])
        case Ok(items, rest) => Ok(Array(items), rest)
        case Fail => Fail
        case Unmodelled => Unmodelled
    else if StartsWith(s, '{') then
      if StartsWith(Skip(s[1..]), '}') then Ok(Object([]), Skip(s[1..])[1..])
      else
        match ParseMembers(s[1..])
        case Ok(members, rest) => Ok(Object(members), rest)
        case Fail => Fail
        case Unmodelled => Unmodelled
    else Fail
  }

  /** The items of an array that is not empty, up to its closing bracket. */
  function ParseItems(s: string): (r: Parse<seq<Json>>)
    ensures r.Ok? ==> |r.rest| < |s|
    decreases |s|, 2
  {
    match ParseValue(Skip(s))
    case Fail => Fail
    case Unmodelled => Unmodelled
    case Ok(v, tail) =>
      var next := Skip(tail);
      if StartsWith(next, ',') then
        match ParseItems(next[1..])
        case Ok(items, rest) => Ok([v] + items, rest)
        case other => other
      else if StartsWith(next, ']') then Ok([v], next[1..])
      else Fail
  }

  /** One member: name, colon, value. */
  function ParseMember(s: string): (r: Parse<Member>)
    ensures r.Ok? ==> |r.rest| < |s|
    decreases |s|, 2
  {
    match ParseString(Skip(s))
    case Fail => Fail
    case Unmodelled => Unmodelled
    case Ok(name, tail) =>
      if !StartsWith(Skip(tail), ':') then Fail
      else
        match ParseValue(Skip(Skip(tail)[1..]))
        case Ok(v, rest) => Ok(Member(name, v), rest)
        case Fail => Fail
        case Unmodelled => Unmodelled
  }

  function ParseMembers(s: string): (r: Parse<seq<Member>>)
    ensures r.Ok? ==> |r.rest| < |s|
    decreases |s|, 3
  {
    match ParseMember(s)
    case Fail => Fail
    case Unmodelled => Unmodelled
    case Ok(m, tail) =>
      var next := Skip(tail);
      if StartsWith(next, ',') then
        match ParseMembers(next[1..])
        case Ok(members, rest) => Ok([m] + members, rest)
        case other => other
      else if StartsWith(next, '}') then Ok([m], next[1..])
      else Fail
  }

  /** cJSON_Parse: leading blanks are skipped, what follows the value is not looked at. */
  function ParseText(s: string): Parse<Json> {
    ParseValue(Skip(s))
  }

  // ----- minifying --------------------------------------------------------------------------

  /** What cJSON_Minify leaves; Overrun marks a literal or a comment that is not closed, where it
      reads beyond the terminating NUL. */
  datatype Minified = Clean(text: string) | Overrun

  function Prepend(m: string, rest: Minified): Minified {
    match rest
    case Clean(text) => Clean(m + text)
    case Overrun => Overrun
  }

  predicate IsBlank(c: char) {
    c == ' ' || c == '\t' || c == '\r' || c == '\n'
  }

  /** To the end of the line, which stays. */
  function SkipLine(s: string): (r: string)
    ensures |r| <= |s|
  {
    if s != "" && s[0] != '\n' then SkipLine(s[1..]) else s
  }

  /** Past the first star and slash in a row. */
  function SkipComment(s: string): (r: Parse<string>)
    ensures r.Ok? ==> |r.rest| < |s|
  {
    if s == "" then Unmodelled
    else if "*/" <= s then Ok("", s[2..])
    else SkipComment(s[1..])
  }

  /** cJSON_Minify */
  function Minify(s: string): Minified
    decreases |s|
  {
    if s == "" then Clean("")
    else if IsBlank(s[0]) then Minify(s[1..])
    else if "//" <= s then SkipLineShrinks(s); Minify(SkipLine(s))
    else if "/*" <= s then
      match SkipComment(s)
      case Ok(_, rest) => Minify(rest)
      case _ => Overrun
    else if s[0] == QUOTE then Prepend(s[..1], MinifyLiteral(s[1..]))
    else Prepend(s[..1], Minify(s[1..]))
  }

  lemma SkipLineShrinks(s: string)
    requires "//" <= s
    ensures |SkipLine(s)| < |s|
  {
  }

  /** From inside a string literal. */
  function MinifyLiteral(s: string): Minified
    decreases |s|
  {
    if s == "" then Overrun
    else if s[0] == QUOTE then Prepend(s[..1], Minify(s[1..]))
    else if s[0] != BACKSLASH then Prepend(s[..1], MinifyLiteral(s[1..]))
    else if |s| == 1 then Overrun
    else Prepend(s[..2], MinifyLiteral(s[2..]))
  }
}
