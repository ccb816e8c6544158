/** The printers of cJSON.c: each measures its text, allocates a buffer, and fills it. They are proved
    to stay inside the buffer and to write the text that CjsonText describes. */
module CjsonPrinter {
  import opened CjsonText
  import opened CjsonProofs

  const NUL: char := 0 as char

  predicate NoNul(s: string) {
    forall i :: 0 <= i < |s| ==> s[i] != NUL
  }

  /** The buffer holds `s` and its terminating NUL. */
  ghost predicate CString(a: array<char>, s: string)
    reads a
  {
    |s| < a.Length && a[..|s|] == s && a[|s|] == NUL
  }

  method StrLen(a: array<char>, ghost s: string) returns (n: nat)
    requires CString(a, s) && NoNul(s)
    ensures n == |s|
  {
    assert forall k :: 0 <= k < |s| ==> a[k] == a[..|s|][k];
    n := 0;
    while a[n] != NUL
      invariant n <= |s|
      decreases |s| - n
    {
      n := n + 1;
    }
  }

  /** strcpy to position `at` of a longer buffer. */
  method StrCpy(dst: array<char>, at: nat, src: array<char>, ghost s: string)
    requires CString(src, s) && NoNul(s) && dst != src && at + |s| < dst.Length
    modifies dst
    ensures dst[..at + |s|] == old(dst[..at]) + s && dst[at + |s|] == NUL
  {
    assert forall k :: 0 <= k < |s| ==> src[k] == src[..|s|][k];
    var n := 0;
    while src[n] != NUL
      invariant n <= |s| && dst[..at + n] == old(dst[..at]) + s[..n]
      decreases |s| - n
    {
      dst[at + n] := src[n];
      assert dst[..at + n + 1] == dst[..at + n] + [s[n]];
      n := n + 1;
    }
    dst[at + n] := NUL;
    assert n == |s| && dst[..at + n] == old(dst[..at]) + s;
  }

  /** strcpy to `at`, and the position after what was copied. */
  method Append(dst: array<char>, at: nat, src: array<char>, ghost s: string) returns (ptr: nat)
    requires CString(src, s) && NoNul(s) && dst != src && at + |s| < dst.Length
    modifies dst
    ensures ptr == at + |s| && dst[..ptr] == old(dst[..at]) + s
  {
    StrCpy(dst, at, src, s);
    var size := StrLen(src, s);
    ptr := at + size;
  }

  /** sprintf of a given text to position `at`. */
  method Put(dst: array<char>, at: nat, text: string)
    requires at + |text| < dst.Length
    modifies dst
    ensures dst[..at + |text|] == old(dst[..at]) + text && dst[at + |text|] == NUL
  {
    for n := 0 to |text|
      invariant dst[..at + n] == old(dst[..at]) + text[..n]
    {
      dst[at + n] := text[n];
      assert dst[..at + n + 1] == dst[..at + n] + [text[n]];
    }
    dst[at + |text|] := NUL;
    assert dst[..at + |text|] == old(dst[..at]) + text;
  }

  // ----- strings ----------------------------------------------------------------------------

  lemma EscapeStep(s: string, i: nat)
    requires i < |s|
    ensures Escape(s[i..]) == EscapeChar(s[i]) + Escape(s[i + 1..])
  {
    assert s[i..][1..] == s[i + 1..];
  }

  /** print_string_ptr: the buffer is filled exactly. */
  method PrintStringPtr(str: string) returns (out: array<char>)
    ensures fresh(out) && CString(out, PrintString(str)) && out.Length == |PrintString(str)| + 1
  {
    var len, ptr := 0, 0;
    assert str[0..] == str;
    while ptr < |str|
      invariant ptr <= |str| && len + |Escape(str[ptr..])| == |Escape(str)|
    {
      EscapeStep(str, ptr);
      var token := str[ptr];
      len := len + 1;
      if token == QUOTE || token == BACKSLASH || token == BACKSPACE || token == FORM_FEED
         || token == '\n' || token == '\r' || token == '\t' {
        len := len + 1;
      } else if token as int < 32 {
        len := len + 5;
      }
      ptr := ptr + 1;
    }
    out := new char[len + 3];
    var at := FillString(out, str);
    out[at] := QUOTE;
    assert out[..at + 1] == PrintString(str);
    out[at + 1] := NUL;
    assert out[..at + 1] == PrintString(str);
  }

  /** The escape of one character. */
  method PutEscape(out: array<char>, at: nat, token: char) returns (ptr: nat)
    requires !(token as int > 31 && token != QUOTE && token != BACKSLASH)
    requires at + |EscapeChar(token)| < out.Length
    modifies out
    ensures ptr == at + |EscapeChar(token)| && out[..ptr] == old(out[..at]) + EscapeChar(token)
  {
    ghost var done := out[..at];
    out[at] := BACKSLASH;
    ptr := at + 1;
    assert out[..ptr] == done + [BACKSLASH];
    if token == BACKSLASH || token == QUOTE {
      out[ptr] := token;
    } else if token == BACKSPACE {
      out[ptr] := 'b';
    } else if token == FORM_FEED {
      out[ptr] := 'f';
    } else if token == '\n' {
      out[ptr] := 'n';
    } else if token == '\r' {
      out[ptr] := 'r';
    } else if token == '\t' {
      out[ptr] := 't';
    } else {
      Put(out, ptr, "u" + Hex4(token as int));
      ptr := ptr + 4;
    }
    ptr := ptr + 1;
    assert out[..ptr] == done + EscapeChar(token);
  }

  /** One character, escaped where it must be. */
  method PutChar(out: array<char>, at: nat, token: char) returns (ptr: nat)
    requires at + |EscapeChar(token)| < out.Length
    modifies out
    ensures ptr == at + |EscapeChar(token)| && out[..ptr] == old(out[..at]) + EscapeChar(token)
  {
    if token as int > 31 && token != QUOTE && token != BACKSLASH {
      out[at] := token;
      ptr := at + 1;
    } else {
      ptr := PutEscape(out, at, token);
    }
  }

  /** The opening quote and the characters. */
  method FillString(out: array<char>, str: string) returns (at: nat)
    requires out.Length == |Escape(str)| + 3
    modifies out
    ensures at == 1 + |Escape(str)| && out[..at] == [QUOTE] + Escape(str)
  {
    hide EscapeChar, Escape;
    out[0] := QUOTE;
    at := 1;
    var ptr := 0;
    assert str[0..] == str && str[|str|..] == "";
    assert out[..1] == [QUOTE];
    EscapeNothing();
    while ptr < |str|
      invariant ptr <= |str| && 1 <= at <= out.Length
      invariant out[..at] + Escape(str[ptr..]) == [QUOTE] + Escape(str)
    {
      EscapeStep(str, ptr);
      Regroup(out[..at], EscapeChar(str[ptr]), "", "", Escape(str[ptr + 1..]));
      at := PutChar(out, at, str[ptr]);
      ptr := ptr + 1;
    }
  }

  lemma EscapeNothing()
    ensures Escape("") == ""
  {
  }

  lemma Regroup(done: string, a: string, b: string, c: string, more: string)
    ensures done + a + (b + c) + more == done + (a + b + c + more)
    ensures c == "" ==> done + a + b + more == done + (a + b + more)
    ensures b == c == "" ==> done + a + more == done + (a + more)
    ensures |done + (a + b + c + more)| == |done| + |a| + |b| + |c| + |more|
  {
  }

  // ----- numbers ----------------------------------------------------------------------------

  lemma {:induction false} DigitsFit(n: nat, width: nat, bound: nat)
    requires n < bound && 1 <= width && bound <= Power10(width)
    ensures |Digits(n)| <= width
  {
    if n >= 10 {
      DigitsFit(n / 10, width - 1, Power10(width - 1));
    }
  }

  function Power10(e: nat): nat {
    if e == 0 then 1 else 10 * Power10(e - 1)
  }

  lemma IntFits(n: int)
    requires INT_MIN <= n <= INT_MAX
    ensures |PrintInt(n)| <= 11
  {
    assert Power10(4) == 10000;
    assert Power10(8) == 10000 * 10000;
    assert Power10(10) == 10_000_000_000;
    DigitsFit(if n < 0 then -n else n, 10, 10_000_000_000);
  }

  /** print_number of an integer: its 21 characters are enough. */
  method PrintNumber(n: int) returns (out: array<char>)
    requires INT_MIN <= n <= INT_MAX
    ensures fresh(out) && CString(out, PrintInt(n))
  {
    out := new char[21];
    IntFits(n);
    Put(out, 0, PrintInt(n));
    assert out[..0] == "";
  }

  // ----- values -----------------------------------------------------------------------------

  lemma NoNulJoin(a: string, b: string)
    requires NoNul(a) && NoNul(b)
    ensures NoNul(a + b)
  {
  }

  lemma NoNulWhen(fmt: bool, s: string)
    requires NoNul(s)
    ensures NoNul(When(fmt, s))
  {
  }

  lemma EscapeCharHasNoNul(c: char)
    requires c != NUL
    ensures NoNul(EscapeChar(c))
  {
  }

  lemma {:induction false} EscapeHasNoNul(s: string)
    requires Bytes(s)
    ensures NoNul(Escape(s))
  {
    hide NoNul, EscapeChar;
    if s == "" {
      NoNulNothing();
    } else {
      EscapeCharHasNoNul(s[0]);
      EscapeHasNoNul(s[1..]);
      NoNulJoin(EscapeChar(s[0]), Escape(s[1..]));
    }
  }

  lemma NoNulNothing()
    ensures NoNul("")
  {
  }

  lemma NameHasNoNul(s: string)
    requires Bytes(s)
    ensures NoNul(PrintString(s))
  {
    EscapeHasNoNul(s);
  }

  lemma {:induction false} TabsSize(n: int)
    ensures |Tabs(n)| == (if n < 0 then 0 else n) && NoNul(Tabs(n))
  {
    if n > 0 {
      TabsSize(n - 1);
    }
  }

  /** What is printed holds no NUL, so strlen measures all of it. */
  lemma {:induction false} PrintHasNoNul(v: Json, depth: nat, fmt: bool)
    requires Storable(v)
    ensures NoNul(Print(v, depth, fmt))
    decreases v, 0
  {
    hide PrintItems, PrintMembers, PrintInt, PrintString, Tabs;
    match v
    case Number(n) => IntHasNoNul(n);
    case String(s) => NameHasNoNul(s);
    case Array(items) => ItemsHaveNoNul(items, depth + 1, fmt);
    case Object(members) =>
      TabsSize(depth);
      TabsSize(depth - 1);
      MembersHaveNoNul(members, depth + 1, fmt);
    case _ =>
  }

  lemma IntHasNoNul(n: int)
    ensures NoNul(PrintInt(n))
  {
    DigitsLead(if n < 0 then -n else n);
  }

  lemma {:induction false} ItemsHaveNoNul(items: seq<Json>, depth: nat, fmt: bool)
    requires forall i :: 0 <= i < |items| ==> Storable(items[i])
    ensures NoNul(PrintItems(items, depth, fmt))
    decreases items, 1
  {
    hide Print, Storable;
    if items != [] {
      PrintHasNoNul(items[0], depth, fmt);
      ItemsHaveNoNul(items[1..], depth, fmt);
    }
  }

  lemma MemberHasNoNul(m: Member, depth: nat, fmt: bool)
    requires Bytes(m.name) && NoNul(Print(m.value, depth, fmt))
    ensures NoNul(PrintMember(m, depth, fmt))
  {
    hide Print, PrintString, Tabs, NoNul;
    var name, value := PrintString(m.name), Print(m.value, depth, fmt);
    var tabs, gap := When(fmt, Tabs(depth)), When(fmt, "\t");
    TabsSize(depth);
    NameHasNoNul(m.name);
    Separators(fmt);
    NoNulWhen(fmt, Tabs(depth));
    NoNulJoin(tabs, name);
    NoNulJoin(tabs + name, ":");
    NoNulJoin(tabs + name + ":", gap);
    NoNulJoin(tabs + name + ":" + gap, value);
  }

  lemma Separators(fmt: bool)
    ensures NoNul(":") && NoNul(",") && NoNul("") && NoNul(When(fmt, "\t")) && NoNul(When(fmt, "\n"))
  {
  }

  lemma {:induction false} MembersHaveNoNul(members: seq<Member>, depth: nat, fmt: bool)
    requires forall i :: 0 <= i < |members| ==> Bytes(members[i].name) && Storable(members[i].value)
    ensures NoNul(PrintMembers(members, depth, fmt))
    decreases members, 1
  {
    hide Print, PrintMember, NoNul, Storable, Bytes;
    Separators(fmt);
    if members != [] {
      var first, more := PrintMember(members[0], depth, fmt), PrintMembers(members[1..], depth, fmt);
      var comma, end := When(|members| > 1, ","), When(fmt, "\n");
      PrintHasNoNul(members[0].value, depth, fmt);
      MemberHasNoNul(members[0], depth, fmt);
      MembersHaveNoNul(members[1..], depth, fmt);
      NoNulJoin(first, comma);
      NoNulJoin(first + comma, end);
      NoNulJoin(first + comma + end, more);
    }
  }

  /** print_value */
  method PrintValue(item: Json, depth: nat, fmt: bool) returns (out: array<char>)
    requires Storable(item)
    ensures fresh(out) && CString(out, Print(item, depth, fmt))
    decreases item, 1
  {
    match item
    case Null =>
      out := new char[5];
      Put(out, 0, "null");
      assert out[..0] == "";
    case False =>
      out := new char[6];
      Put(out, 0, "false");
      assert out[..0] == "";
    case True =>
      out := new char[5];
      Put(out, 0, "true");
      assert out[..0] == "";
    case Number(n) => out := PrintNumber(n);
    case String(s) => out := PrintStringPtr(s);
    case Array(items) => out := PrintArray(item, depth, fmt);
    case Object(members) => out := PrintObject(item, depth, fmt);
  }

  function Wide(fmt: bool, extra: nat): nat {
    if fmt then extra else 0
  }

  /** What print_array adds up for its entries. */
  function ItemsRoom(items: seq<Json>, depth: nat, fmt: bool): (r: nat)
    ensures |PrintItems(items, depth, fmt)| <= r
  {
    if items == [] then 0
    else |Print(items[0], depth, fmt)| + 2 + Wide(fmt, 1) + ItemsRoom(items[1..], depth, fmt)
  }

  /** print_array: the entries first, their lengths added up, then the whole. */
  method PrintArray(item: Json, depth: nat, fmt: bool) returns (out: array<char>)
    requires item.Array? && Storable(item)
    ensures fresh(out) && CString(out, Print(item, depth, fmt))
    decreases item, 0
  {
    var items := item.items;
    if |items| == 0 {
      out := new char[3];
      Put(out, 0, "[]");
      assert out[..0] == "";
      assert PrintItems(items, depth + 1, fmt) == "";
    } else {
      var entries, len := PrintEntries(items, depth + 1, fmt);
      out := new char[len];
      ComposeArray(out, entries, items, depth, fmt);
    }
  }

  /** The printed items, and the length of the buffer for all of them. */
  method PrintEntries(items: seq<Json>, depth: nat, fmt: bool) returns (entries: seq<array<char>>, len: nat)
    requires forall k :: 0 <= k < |items| ==> Storable(items[k])
    ensures |entries| == |items| && len == 5 + ItemsRoom(items, depth, fmt)
    ensures forall k :: 0 <= k < |items| ==> fresh(entries[k]) && CString(entries[k], Print(items[k], depth, fmt))
    decreases items, 2
  {
    hide Print, PrintItems, CString, NoNul, Storable;
    entries, len := [], 5;
    assert items[0..] == items;
    for i := 0 to |items|
      invariant |entries| == i && len + ItemsRoom(items[i..], depth, fmt) == 5 + ItemsRoom(items, depth, fmt)
      invariant forall k :: 0 <= k < i ==> fresh(entries[k]) && CString(entries[k], Print(items[k], depth, fmt))
    {
      var ret := PrintValue(items[i], depth, fmt);
      entries := entries + [ret];
      PrintHasNoNul(items[i], depth, fmt);
      var size := StrLen(ret, Print(items[i], depth, fmt));
      len := len + size + 2 + Wide(fmt, 1);
      assert items[i..][1..] == items[i + 1..];
    }
    assert items[|items|..] == [];
  }

  lemma ItemsStep(items: seq<Json>, i: nat, depth: nat, fmt: bool)
    requires i < |items|
    ensures PrintItems(items[i..], depth, fmt)
      == Print(items[i], depth, fmt) + When(i != |items| - 1, "," + When(fmt, " ")) + PrintItems(items[i + 1..], depth, fmt)
  {
    hide Print;
    assert items[i..][1..] == items[i + 1..];
  }

  /** Copies the entries, separated, between the brackets. */
  method ComposeArray(out: array<char>, entries: seq<array<char>>, items: seq<Json>, depth: nat, fmt: bool)
    requires items != [] && |entries| == |items| && Storable(Array(items))
    requires forall k :: 0 <= k < |items| ==> entries[k] != out && CString(entries[k], Print(items[k], depth + 1, fmt))
    requires out.Length == 5 + ItemsRoom(items, depth + 1, fmt)
    modifies out
    ensures CString(out, Print(Array(items), depth, fmt))
  {
    hide Print, PrintItems, ItemsRoom, CString, NoNul;
    ghost var whole := "[" + PrintItems(items, depth + 1, fmt);
    out[0] := '[';
    var ptr := 1;
    out[ptr] := NUL;
    assert out[..1] == "[";
    assert items[0..] == items;
    for i := 0 to |items|
      invariant 1 <= ptr <= out.Length && out[..ptr] + PrintItems(items[i..], depth + 1, fmt) == whole
      invariant forall k :: i <= k < |items| ==> CString(entries[k], Print(items[k], depth + 1, fmt))
    {
      ItemsStep(items, i, depth + 1, fmt);
      ghost var done, entry, more := out[..ptr], Print(items[i], depth + 1, fmt), PrintItems(items[i + 1..], depth + 1, fmt);
      ghost var sep := When(i != |items| - 1, "," + When(fmt, " "));
      Regroup(done, entry, sep, "", more);
      PrintHasNoNul(items[i], depth + 1, fmt);
      ptr := Append(out, ptr, entries[i], entry);
      ptr := Separate(out, ptr, i != |items| - 1, fmt);
    }
    PrintOfArray(items, depth, fmt);
    Close(out, ptr, ']', whole);
  }

  lemma PrintOfArray(items: seq<Json>, depth: nat, fmt: bool)
    ensures Print(Array(items), depth, fmt) == "[" + PrintItems(items, depth + 1, fmt) + "]"
    ensures PrintItems(items[|items|..], depth + 1, fmt) == ""
  {
  }

  method Separate(out: array<char>, at: nat, more: bool, fmt: bool) returns (ptr: nat)
    requires at + 2 < out.Length
    modifies out
    ensures ptr == at + |When(more, "," + When(fmt, " "))| && out[..ptr] == old(out[..at]) + When(more, "," + When(fmt, " "))
  {
    ptr := at;
    if more {
      out[ptr] := ',';
      ptr := ptr + 1;
      assert out[..ptr] == old(out[..at]) + ",";
      if fmt {
        out[ptr] := ' ';
        ptr := ptr + 1;
        assert out[..ptr] == old(out[..at]) + "," + " ";
      }
      out[ptr] := NUL;
    }
  }

  /** The closing bracket and the terminating NUL. */
  method Close(out: array<char>, at: nat, bracket: char, ghost done: string)
    requires at + 1 < out.Length && out[..at] == done
    modifies out
    ensures CString(out, done + [bracket])
  {
    out[at] := bracket;
    out[at + 1] := NUL;
    assert out[..at + 1] == done + [bracket];
  }

  /** What print_object adds up for its members. */
  function MembersRoom(members: seq<Member>, depth: nat, fmt: bool): (r: nat)
  {
    if members == [] then 0
    else
      |Print(members[0].value, depth, fmt)| + |PrintString(members[0].name)| + 2 + Wide(fmt, 2 + depth) +
      MembersRoom(members[1..], depth, fmt)
  }

  lemma {:induction false} MembersFit(members: seq<Member>, depth: nat, fmt: bool)
    ensures |PrintMembers(members, depth, fmt)| <= MembersRoom(members, depth, fmt)
  {
    hide Print, PrintString;
    if members != [] {
      TabsSize(depth);
      MembersFit(members[1..], depth, fmt);
    }
  }

  /** `n` tabulators. */
  method PutTabs(out: array<char>, at: nat, n: int) returns (ptr: nat)
    requires n <= 0 || at + n <= out.Length
    requires at <= out.Length
    modifies out
    ensures ptr == at + |Tabs(n)| && ptr <= out.Length && out[..ptr] == old(out[..at]) + Tabs(n)
  {
    ptr := at;
    var j := 0;
    while j < n
      invariant 0 <= j && (j <= n || j == 0) && ptr == at + j <= out.Length
      invariant out[..ptr] == old(out[..at]) + Tabs(j)
    {
      out[ptr] := '\t';
      ptr := ptr + 1;
      TabsEnd(j + 1);
      assert out[..ptr] == out[..ptr - 1] + "\t";
      assert old(out[..at]) + Tabs(j) + "\t" == old(out[..at]) + (Tabs(j) + "\t");
      j := j + 1;
    }
    TabsSize(n);
    assert n <= 0 ==> Tabs(n) == "" == Tabs(0);
  }

  lemma {:induction false} TabsEnd(n: nat)
    requires n > 0
    ensures Tabs(n) == Tabs(n - 1) + "\t"
  {
    if n > 1 {
      TabsEnd(n - 1);
      assert "\t" + (Tabs(n - 2) + "\t") == "\t" + Tabs(n - 2) + "\t";
    }
  }

  /** print_object without members. */
  method PrintEmptyObject(depth: nat, fmt: bool) returns (out: array<char>)
    ensures fresh(out) && CString(out, Print(Object([]), depth, fmt))
  {
    out := new char[if fmt then depth + 4 else 3];
    out[0] := '{';
    var ptr := 1;
    assert out[..1] == "{";
    TabsSize(depth - 1);
    if fmt {
      out[1] := '\n';
      assert out[..2] == "{\n";
      ptr := PutTabs(out, 2, depth - 1);
      assert out[..ptr] == "{" + When(fmt, "\n" + Tabs(depth - 1));
    }
    Close(out, ptr, '}', "{" + When(fmt, "\n" + Tabs(depth - 1)));
  }

  /** The printed name and value of a member, and how long they are together. */
  method PrintParts(m: Member, depth: nat, fmt: bool) returns (str: array<char>, ret: array<char>, size: nat)
    requires Bytes(m.name) && Storable(m.value)
    ensures fresh(str) && CString(str, PrintString(m.name))
    ensures fresh(ret) && CString(ret, Print(m.value, depth, fmt))
    ensures size == |Print(m.value, depth, fmt)| + |PrintString(m.name)|
    decreases m, 0
  {
    hide Print, PrintString;
    str := PrintStringPtr(m.name);
    ret := PrintValue(m.value, depth, fmt);
    PrintHasNoNul(m.value, depth, fmt);
    NameHasNoNul(m.name);
    size := StrLen(ret, Print(m.value, depth, fmt));
    var nameSize := StrLen(str, PrintString(m.name));
    size := size + nameSize;
  }

  /** print_object: names and entries first, their lengths added up, then the whole. */
  method PrintObject(item: Json, depth: nat, fmt: bool) returns (out: array<char>)
    requires item.Object? && Storable(item)
    ensures fresh(out) && CString(out, Print(item, depth, fmt))
    decreases item, 0
  {
    var members := item.members;
    if |members| == 0 {
      out := PrintEmptyObject(depth, fmt);
      assert members == [];
    } else {
      var names, entries, len := PrintMemberParts(members, depth + 1, fmt);
      out := new char[len];
      ComposeObject(out, names, entries, members, depth + 1, fmt);
    }
  }

  /** The printed names and values, and the length of the buffer for all of them. */
  method PrintMemberParts(members: seq<Member>, depth: nat, fmt: bool)
    returns (names: seq<array<char>>, entries: seq<array<char>>, len: nat)
    requires forall k :: 0 <= k < |members| ==> Bytes(members[k].name) && Storable(members[k].value)
    ensures |names| == |entries| == |members| && len == 7 + Wide(fmt, depth) + MembersRoom(members, depth, fmt)
    ensures forall k :: 0 <= k < |members| ==> fresh(names[k]) && CString(names[k], PrintString(members[k].name))
    ensures forall k :: 0 <= k < |members| ==> fresh(entries[k]) && CString(entries[k], Print(members[k].value, depth, fmt))
    decreases members, 2
  {
    hide Print, PrintString, CString, NoNul, Storable, Bytes;
    names, entries := [], [];
    len := 7 + Wide(fmt, depth);
    ghost var start := len;
    assert members[0..] == members;
    for i := 0 to |members|
      invariant |entries| == |names| == i
      invariant len + MembersRoom(members[i..], depth, fmt) == start + MembersRoom(members, depth, fmt)
      invariant forall k :: 0 <= k < i ==> fresh(names[k]) && CString(names[k], PrintString(members[k].name))
      invariant forall k :: 0 <= k < i ==> fresh(entries[k]) && CString(entries[k], Print(members[k].value, depth, fmt))
    {
      var str, ret, size := PrintParts(members[i], depth, fmt);
      names, entries := names + [str], entries + [ret];
      len := len + size + 2 + Wide(fmt, 2 + depth);
      assert members[i..][1..] == members[i + 1..];
    }
    assert members[|members|..] == [];
  }

  lemma MembersStep(members: seq<Member>, i: nat, depth: nat, fmt: bool)
    requires i < |members|
    ensures PrintMembers(members[i..], depth, fmt)
      == PrintMember(members[i], depth, fmt) + When(i != |members| - 1, ",") + When(fmt, "\n") + PrintMembers(members[i + 1..], depth, fmt)
  {
    hide PrintMember;
    assert members[i..][1..] == members[i + 1..];
  }

  lemma PrintOfObject(members: seq<Member>, depth: nat, fmt: bool)
    requires members != []
    ensures Print(Object(members), depth, fmt)
      == "{" + When(fmt, "\n") + PrintMembers(members, depth + 1, fmt) + When(fmt, Tabs(depth)) + "}"
    ensures PrintMembers(members[|members|..], depth + 1, fmt) == ""
  {
  }

  /** Copies the members, one after another, between the braces. */
  method ComposeObject(out: array<char>, names: seq<array<char>>, entries: seq<array<char>>, members: seq<Member>, depth: nat, fmt: bool)
    requires members != [] && |names| == |entries| == |members| && depth > 0 && Storable(Object(members))
    requires forall k :: 0 <= k < |members| ==> names[k] != out && CString(names[k], PrintString(members[k].name))
    requires forall k :: 0 <= k < |members| ==> entries[k] != out && CString(entries[k], Print(members[k].value, depth, fmt))
    requires out.Length == 7 + Wide(fmt, depth) + MembersRoom(members, depth, fmt)
    modifies out
    ensures CString(out, Print(Object(members), depth - 1, fmt))
  {
    hide Print, PrintMembers, PrintMember, PrintString, Tabs, MembersRoom, CString, NoNul;
    ghost var whole := "{" + When(fmt, "\n") + PrintMembers(members, depth, fmt);
    MembersFit(members, depth, fmt);
    var ptr := OpenObject(out, fmt);
    assert members[0..] == members;
    for i := 0 to |members|
      invariant 1 <= ptr <= out.Length && out[..ptr] + PrintMembers(members[i..], depth, fmt) == whole
      invariant forall k :: i <= k < |members| ==> CString(names[k], PrintString(members[k].name))
      invariant forall k :: i <= k < |members| ==> CString(entries[k], Print(members[k].value, depth, fmt))
    {
      MembersStep(members, i, depth, fmt);
      ghost var done, member, more := out[..ptr], PrintMember(members[i], depth, fmt), PrintMembers(members[i + 1..], depth, fmt);
      ghost var sep, end := When(i != |members| - 1, ","), When(fmt, "\n");
      Regroup(done, member, sep, end, more);
      ptr := ComposeMember(out, ptr, names[i], entries[i], members[i], depth, fmt);
      ptr := EndMember(out, ptr, i != |members| - 1, fmt);
    }
    PrintOfObject(members, depth - 1, fmt);
    CloseObject(out, ptr, depth - 1, fmt, whole);
  }

  method OpenObject(out: array<char>, fmt: bool) returns (ptr: nat)
    requires out.Length > 2
    modifies out
    ensures 1 <= ptr <= 2 && out[..ptr] == "{" + When(fmt, "\n")
  {
    out[0] := '{';
    ptr := 1;
    assert out[..1] == "{";
    if fmt {
      out[1] := '\n';
      ptr := 2;
      assert out[..2] == "{" + "\n";
    }
    out[ptr] := NUL;
  }

  method CloseObject(out: array<char>, at: nat, depth: nat, fmt: bool, ghost done: string)
    requires at + 1 + Wide(fmt, depth) < out.Length && out[..at] == done
    modifies out
    ensures CString(out, done + When(fmt, Tabs(depth)) + "}")
  {
    hide CString, Tabs;
    TabsSize(depth);
    var ptr := at;
    if fmt {
      ptr := PutTabs(out, ptr, depth);
    }
    assert out[..ptr] == done + When(fmt, Tabs(depth));
    Close(out, ptr, '}', done + When(fmt, Tabs(depth)));
  }

  /** The comma before the next member, and the end of the line. */
  method EndMember(out: array<char>, at: nat, more: bool, fmt: bool) returns (ptr: nat)
    requires at + 2 < out.Length
    modifies out
    ensures ptr == at + |When(more, ",")| + |When(fmt, "\n")|
    ensures out[..ptr] == old(out[..at]) + (When(more, ",") + When(fmt, "\n"))
  {
    ptr := at;
    if more {
      out[ptr] := ',';
      ptr := ptr + 1;
    }
    assert out[..ptr] == old(out[..at]) + When(more, ",");
    if fmt {
      out[ptr] := '\n';
      ptr := ptr + 1;
    }
    assert out[..ptr] == old(out[..at]) + (When(more, ",") + When(fmt, "\n"));
    out[ptr] := NUL;
  }

  /** Indentation, name, colon and entry of one member. */
  method ComposeMember(out: array<char>, at: nat, name: array<char>, entry: array<char>, m: Member, depth: nat, fmt: bool) returns (ptr: nat)
    requires name != out && entry != out && Bytes(m.name) && Storable(m.value)
    requires CString(name, PrintString(m.name)) && CString(entry, Print(m.value, depth, fmt))
    requires at + |PrintMember(m, depth, fmt)| < out.Length
    modifies out
    ensures ptr == at + |PrintMember(m, depth, fmt)| && out[..ptr] == old(out[..at]) + PrintMember(m, depth, fmt)
  {
    hide Print, PrintString, Tabs, Storable, CString, NoNul;
    ghost var done, tabs, gap := out[..at], When(fmt, Tabs(depth)), When(fmt, "\t");
    ghost var n, e := PrintString(m.name), Print(m.value, depth, fmt);
    TabsSize(depth);
    NameHasNoNul(m.name);
    PrintHasNoNul(m.value, depth, fmt);
    ptr := at;
    if fmt {
      ptr := PutTabs(out, ptr, depth);
    }
    assert out[..ptr] == done + tabs;
    ptr := Append(out, ptr, name, n);
    out[ptr] := ':';
    ptr := ptr + 1;
    assert out[..ptr] == done + tabs + n + ":";
    if fmt {
      out[ptr] := '\t';
      ptr := ptr + 1;
    }
    assert out[..ptr] == done + tabs + n + ":" + gap;
    ptr := Append(out, ptr, entry, e);
    assert done + tabs + n + ":" + gap + e == done + (tabs + n + ":" + gap + e);
  }
}
