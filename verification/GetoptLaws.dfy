/** What a caller of getopt is promised, in terms of the option string and the argument vector alone: each way
    of writing an option, and whole command lines. */
module GetoptLaws {
  import opened Getopt

  // ----- the option string ------------------------------------------------------------------

  /** `c` is declared in the option string, with `tail` behind it. */
  predicate Declared(letters: string, pre: string, c: char, tail: string) {
    letters == pre + [c] + tail && c !in pre && c != ':' && c != ';'
  }

  /** `-W` before a semicolon asks for the long reading. */
  predicate AsksLong(c: char, tail: string) {
    c == 'W' && tail != "" && tail[0] == ';'
  }

  predicate NoColon(tail: string) {
    tail == "" || tail[0] != ':'
  }

  lemma {:induction false} FoundBehind(pre: string, c: char, tail: string)
    requires c !in pre
    ensures Find(pre + [c] + tail, c) == |pre|
  {
    if pre != "" {
      assert (pre + [c] + tail)[1..] == pre[1..] + [c] + tail;
      FoundBehind(pre[1..], c, tail);
    }
  }

  lemma {:induction false} NotFound(letters: string, c: char)
    requires c !in letters
    ensures Find(letters, c) == |letters|
  {
    if letters != "" {
      NotFound(letters[1..], c);
    }
  }

  lemma KindIs(letters: string, pre: string, c: char, tail: string)
    requires Declared(letters, pre, c, tail)
    ensures AsksLong(c, tail) ==> KindOf(letters, c).LongPrefix?
    ensures !AsksLong(c, tail) && NoColon(tail) ==> KindOf(letters, c).Plain?
    ensures !AsksLong(c, tail) && !NoColon(tail) && NoColon(tail[1..]) ==> KindOf(letters, c).Required?
    ensures !AsksLong(c, tail) && !NoColon(tail) && !NoColon(tail[1..]) ==> KindOf(letters, c).Optional?
  {
    FoundBehind(pre, c, tail);
    assert tail != "" ==> letters[|pre| + 1] == tail[0];
    assert |tail| > 1 ==> letters[|pre| + 2] == tail[1];
  }

  // ----- one letter -------------------------------------------------------------------------

  /** The scanner is at letter `c` of element `k`, with `more` behind it. */
  predicate At(args: seq<string>, s: State, c: char, more: string) {
    Fits(args, s) && s.rest == Some([c] + more)
  }

  /** The state in which `n` more elements have been passed. */
  function Past(s: State, n: nat, rest: Option<string>): State {
    State(s.k + n, rest, s.marks + Repeat(true, n), s.optopt)
  }

  /** A letter with no colon behind it takes nothing: the next one is read next. */
  lemma PlainLetter(spec: Spec, args: seq<string>, s: State, c: char, more: string, pre: string, tail: string)
    requires At(args, s, c, more) && Declared(spec.letters, pre, c, tail) && NoColon(tail) && !AsksLong(c, tail)
    ensures Step(spec, args, s) == (Past(s, if more == "" then 1 else 0, Some(more)), Event(Letter(c), None, s.optopt))
  {
    KindIs(spec.letters, pre, c, tail);
  }

  /** With one colon the argument is the rest of the element, or else the next element. */
  lemma RequiredArgument(spec: Spec, args: seq<string>, s: State, c: char, more: string, pre: string, post: string)
    requires At(args, s, c, more) && Declared(spec.letters, pre, c, ":" + post) && NoColon(post)
    ensures more != "" ==> Step(spec, args, s) == (Past(s, 1, None), Event(Letter(c), Some(more), s.optopt))
    ensures more == "" && s.k + 1 < |args| ==>
      Step(spec, args, s) == (Past(s, 2, None), Event(Letter(c), Some(args[s.k + 1]), s.optopt))
  {
    KindIs(spec.letters, pre, c, ":" + post);
    TwoMarks();
  }

  /** Without either it is missing: '?', or ':' when the option string begins with a colon. */
  lemma MissingArgument(spec: Spec, args: seq<string>, s: State, c: char, pre: string, post: string)
    requires At(args, s, c, "") && Declared(spec.letters, pre, c, ":" + post) && NoColon(post) && s.k + 1 == |args|
    ensures var colon := spec.letters != "" && spec.letters[0] == ':';
            Step(spec, args, s) == (Past(s, 1, None).(optopt := c), Event(Letter(if colon then ':' else '?'), None, c))
  {
    KindIs(spec.letters, pre, c, ":" + post);
  }

  /** With two colons the argument is the rest of the element, and may be missing. */
  lemma OptionalArgument(spec: Spec, args: seq<string>, s: State, c: char, more: string, pre: string, post: string)
    requires At(args, s, c, more) && Declared(spec.letters, pre, c, "::" + post)
    ensures Step(spec, args, s) == (Past(s, 1, None), Event(Letter(c), if more == "" then None else Some(more), s.optopt))
  {
    KindIs(spec.letters, pre, c, "::" + post);
    TwoMarks();
  }

  /** A letter that is not declared, a colon or a semicolon: '?', with the letter in optopt. */
  lemma UnknownLetter(spec: Spec, args: seq<string>, s: State, c: char, more: string)
    requires At(args, s, c, more) && (c !in spec.letters || c == ':' || c == ';')
    ensures Step(spec, args, s) == (Past(s, if more == "" then 1 else 0, Some(more)).(optopt := c), Event(Letter('?'), None, c))
  {
    if c !in spec.letters {
      NotFound(spec.letters, c);
    }
  }

  /** The long reading of -W is left to the application. */
  lemma LongLetter(spec: Spec, args: seq<string>, s: State, more: string, pre: string, post: string)
    requires At(args, s, 'W', more) && Declared(spec.letters, pre, 'W', ";" + post)
    ensures Step(spec, args, s) == (Past(s, if more == "" then 1 else 0, None), Event(Letter('W'), None, s.optopt))
  {
    KindIs(spec.letters, pre, 'W', ";" + post);
  }

  lemma TwoMarks()
    ensures forall marks: seq<bool> :: marks + Repeat(true, 2) == marks + [true, true]
    ensures forall marks: seq<bool> :: marks + Repeat(true, 1) == marks + [true]
  {
    assert Repeat(true, 2) == [true, true] && Repeat(true, 1) == [true];
  }

  // ----- one element ------------------------------------------------------------------------

  /** The scanner is between two elements. */
  predicate Between(args: seq<string>, s: State) {
    Fits(args, s) && !InElement(s.rest) && s.k < |args|
  }

  lemma NothingSkipped(args: seq<string>, k: nat, marks: seq<bool>)
    requires k < |args| && !NonOptionP(args[k])
    ensures SkipNonOptions(args, k) == k && marks + Repeat(false, 0) == marks
  {
  }

  /** A minus and more, but not two of them alone, is read letter by letter. */
  lemma OptionElement(spec: Spec, args: seq<string>, s: State, c: char, more: string)
    requires Between(args, s) && args[s.k] == "-" + [c] + more && args[s.k] != "--"
    ensures At(args, s.(rest := Some([c] + more)), c, more) && Step(spec, args, s) == Step(spec, args, s.(rest := Some([c] + more)))
  {
    NothingSkipped(args, s.k, s.marks);
    assert args[s.k][1..] == [c] + more;
  }

  /** Two of them alone end the scan: what follows is left. */
  lemma DoubleDash(spec: Spec, args: seq<string>, s: State)
    requires Between(args, s) && args[s.k] == "--"
    ensures var (t, event) := Step(spec, args, s);
            event == Event(Done, None, s.optopt) && t.marks == s.marks + [true] + Repeat(false, |args| - s.k - 1)
  {
    NothingSkipped(args, s.k, s.marks);
    TwoMarks();
  }

  /** Anything that does not begin with a minus, and the minus alone. */
  predicate Operand(element: string) {
    element == "" || element == "-" || element[0] != '-'
  }

  /** An option string that begins with a plus, or POSIXLY_CORRECT: the first operand ends the scan. */
  lemma OperandStops(letters: string, posixlyCorrect: bool, args: seq<string>, s: State)
    requires Between(args, s) && Operand(args[s.k]) && args[s.k] != "--"
    requires posixlyCorrect ==> letters == "" || (letters[0] != '+' && letters[0] != '-')
    ensures var (t, event) := Step(ParseSpec(if posixlyCorrect then letters else "+" + letters, posixlyCorrect), args, s);
            event == Event(Done, None, s.optopt) && t.marks == s.marks + Repeat(false, |args| - s.k)
  {
    assert s.marks + Repeat(false, 0) == s.marks && s.marks + Repeat(true, 0) == s.marks;
  }

  /** An option string that begins with a minus: each operand is returned in its place. */
  lemma OperandReturned(letters: string, posixlyCorrect: bool, args: seq<string>, s: State)
    requires Between(args, s) && Operand(args[s.k])
    ensures var spec := ParseSpec("-" + letters, posixlyCorrect);
            spec == Spec(ReturnInOrder, letters)
            && Step(spec, args, s) == (Past(s, 1, s.rest), Event(NonOption, Some(args[s.k]), s.optopt))
  {
    assert s.marks + Repeat(false, 0) == s.marks;
    TwoMarks();
  }

  /** Otherwise operands are passed over. */
  lemma OperandSkipped(letters: string, args: seq<string>, s: State)
    requires Between(args, s) && Operand(args[s.k])
    ensures var spec := Spec(Permute, letters);
            && (letters == "" || (letters[0] != '+' && letters[0] != '-') ==> ParseSpec(letters, false) == spec)
            && Step(spec, args, s) == Step(spec, args, State(s.k + 1, None, s.marks + [false], s.optopt))
  {
    var j := SkipNonOptions(args, s.k);
    assert j == SkipNonOptions(args, s.k + 1);
    assert s.marks + Repeat(false, j - s.k) == s.marks + [false] + Repeat(false, j - s.k - 1);
  }

  // ----- whole command lines ----------------------------------------------------------------

  /** What is written on a command line: letters without arguments behind one minus; the same before a letter
      with its argument, in the same element or in the next; or an operand. */
  datatype Item =
    | Flags(flags: string)
    | Joined(flags: string, c: char, arg: string)
    | Apart(flags: string, c: char, arg: string)
    | Word(text: string)

  function Elements(item: Item): (elements: seq<string>)
    ensures |elements| == if item.Apart? then 2 else 1
  {
    match item
    case Flags(flags) => ["-" + flags]
    case Joined(flags, c, arg) => ["-" + flags + [c] + arg]
    case Apart(flags, c, arg) => ["-" + flags + [c], arg]
    case Word(text) => [text]
  }

  ghost predicate TakesNothing(letters: string, c: char) {
    exists pre, tail :: Declared(letters, pre, c, tail) && NoColon(tail) && !AsksLong(c, tail)
  }

  ghost predicate Requires(letters: string, c: char) {
    exists pre, post :: Declared(letters, pre, c, ":" + post) && NoColon(post)
  }

  ghost predicate MayTake(letters: string, c: char) {
    exists pre, post :: Declared(letters, pre, c, "::" + post)
  }

  ghost predicate Allowed(letters: string, item: Item) {
    match item
    case Flags(flags) => flags != "" && flags != "-" && AllPlain(letters, flags)
    case Joined(flags, c, arg) =>
      flags + [c] + arg != "-" && AllPlain(letters, flags) && ((Requires(letters, c) && arg != "") || MayTake(letters, c))
    case Apart(flags, c, arg) => flags + [c] != "-" && AllPlain(letters, flags) && Requires(letters, c)
    case Word(text) => Operand(text)
  }

  ghost predicate AllPlain(letters: string, flags: string) {
    forall i :: 0 <= i < |flags| ==> TakesNothing(letters, flags[i])
  }

  function FlagEvents(flags: string, optopt: char): seq<Event> {
    if flags == "" then [] else [Event(Letter(flags[0]), None, optopt)] + FlagEvents(flags[1..], optopt)
  }

  /** What the item means: the letters in their order, the last one with its argument; an operand is returned
      only when operands are returned in order. */
  function Meaning(inOrder: bool, item: Item, optopt: char): seq<Event> {
    match item
    case Flags(flags) => FlagEvents(flags, optopt)
    case Joined(flags, c, arg) =>
      FlagEvents(flags, optopt) + [Event(Letter(c), if arg == "" then None else Some(arg), optopt)]
    case Apart(flags, c, arg) => FlagEvents(flags, optopt) + [Event(Letter(c), Some(arg), optopt)]
    case Word(text) => if inOrder then [Event(NonOption, Some(text), optopt)] else []
  }

  /** The command line: the items, and perhaps two minus signs and what is left to the caller. */
  function Line(items: seq<Item>, dashes: bool, left: seq<string>): seq<string> {
    if items == [] then (if dashes then ["--"] + left else []) else Elements(items[0]) + Line(items[1..], dashes, left)
  }

  function Meanings(inOrder: bool, items: seq<Item>, optopt: char): seq<Event> {
    if items == [] then [] else Meaning(inOrder, items[0], optopt) + Meanings(inOrder, items[1..], optopt)
  }

  /** The elements that are left to the caller, behind the options. */
  function Operands(inOrder: bool, items: seq<Item>, dashes: bool, left: seq<string>): seq<string> {
    if items == [] then (if dashes then left else [])
    else (if items[0].Word? && !inOrder then [items[0].text] else []) + Operands(inOrder, items[1..], dashes, left)
  }

  function Options(inOrder: bool, items: seq<Item>, dashes: bool): seq<string> {
    if items == [] then (if dashes then ["--"] else [])
    else (if items[0].Word? && !inOrder then [] else Elements(items[0])) + Options(inOrder, items[1..], dashes)
  }

  function MarksOf(inOrder: bool, items: seq<Item>, dashes: bool, left: seq<string>): (marks: seq<bool>)
    ensures |marks| == |Line(items, dashes, left)|
  {
    if items == [] then (if dashes then [true] + Repeat(false, |left|) else [])
    else Repeat(!items[0].Word? || inOrder, |Elements(items[0])|) + MarksOf(inOrder, items[1..], dashes, left)
  }

  predicate Scannable(spec: Spec, args: seq<string>, s: State) {
    Fits(args, s) && !KindOf(spec.letters, 'W').LongPrefix? && !spec.ordering.RequireOrder?
  }

  lemma OneStep(spec: Spec, args: seq<string>, s: State, t: State, event: Event)
    requires Scannable(spec, args, s) && Step(spec, args, s) == (t, event) && !event.ret.Done?
    ensures Scannable(spec, args, t) && Events(spec, args, s) == [event] + Events(spec, args, t)
    ensures Marks(spec, args, s) == Marks(spec, args, t)
  {
  }

  lemma SameStep(spec: Spec, args: seq<string>, s: State, t: State)
    requires Scannable(spec, args, s) && Fits(args, t) && Step(spec, args, s) == Step(spec, args, t)
    ensures Events(spec, args, s) == Events(spec, args, t) && Marks(spec, args, s) == Marks(spec, args, t)
  {
  }

  /** Letters without arguments, one after the other. */
  lemma {:induction false} ScanFlags(spec: Spec, args: seq<string>, s: State, flags: string, more: string)
    requires Scannable(spec, args, s) && AllPlain(spec.letters, flags) && s.rest == Some(flags + more) && s.k < |args|
    ensures var t := if flags != "" && more == "" then Past(s, 1, Some("")) else s.(rest := Some(more));
            && Scannable(spec, args, t)
            && Events(spec, args, s) == FlagEvents(flags, s.optopt) + Events(spec, args, t)
            && Marks(spec, args, s) == Marks(spec, args, t)
    decreases |flags|
  {
    hide Step, KindOf, Events, Marks;
    if flags == "" {
      assert flags + more == more;
      assert [] + Events(spec, args, s) == Events(spec, args, s);
    } else {
      var c, behind := flags[0], flags[1..] + more;
      assert flags + more == [c] + behind && TakesNothing(spec.letters, c);
      var pre, tail :| Declared(spec.letters, pre, c, tail) && NoColon(tail) && !AsksLong(c, tail);
      PlainLetter(spec, args, s, c, behind, pre, tail);
      var t := Past(s, if behind == "" then 1 else 0, Some(behind));
      OneStep(spec, args, s, t, Event(Letter(c), None, s.optopt));
      assert s.marks + Repeat(true, 0) == s.marks;
      assert [Event(Letter(c), None, s.optopt)] + FlagEvents(flags[1..], s.optopt) == FlagEvents(flags, s.optopt);
      if behind != "" {
        ScanFlags(spec, args, t, flags[1..], more);
      } else {
        assert flags == [c];
        assert FlagEvents(flags[1..], s.optopt) == [];
      }
    }
  }

  /** One item: its events, and its elements are passed. */
  lemma ScanItem(spec: Spec, args: seq<string>, s: State, item: Item) returns (t: State)
    requires Scannable(spec, args, s) && Between(args, s) && Allowed(spec.letters, item)
    requires s.k + |Elements(item)| <= |args| && args[s.k..s.k + |Elements(item)|] == Elements(item)
    ensures var inOrder := spec.ordering.ReturnInOrder?;
            && Scannable(spec, args, t) && !InElement(t.rest) && t.optopt == s.optopt && t.k == s.k + |Elements(item)|
            && t.marks == s.marks + Repeat(!item.Word? || inOrder, |Elements(item)|)
            && Events(spec, args, s) == Meaning(inOrder, item, s.optopt) + Events(spec, args, t)
            && Marks(spec, args, s) == Marks(spec, args, t)
  {
    hide Step, KindOf, Events, Marks, SkipNonOptions;
    assert args[s.k] == Elements(item)[0];
    match item {
      case Word(text) => t := ScanWord(spec, args, s, text);
      case Flags(flags) => t := ScanLetters(spec, args, s, flags, "");
      case Joined(flags, c, arg) =>
        assert "-" + flags + [c] + arg == "-" + (flags + ([c] + arg));
        t := ScanLetters(spec, args, s, flags, [c] + arg);
        t := ScanJoined(spec, args, s, t, flags, c, arg);
      case Apart(flags, c, arg) =>
        assert "-" + flags + [c] == "-" + (flags + [c]);
        assert args[s.k + 1] == args[s.k..s.k + 2][1];
        t := ScanLetters(spec, args, s, flags, [c]);
        t := ScanApart(spec, args, s, t, flags, c, arg);
    }
  }

  lemma ScanWord(spec: Spec, args: seq<string>, s: State, text: string) returns (t: State)
    requires Scannable(spec, args, s) && Between(args, s) && Operand(text) && args[s.k] == text
    ensures var inOrder := spec.ordering.ReturnInOrder?;
            && Scannable(spec, args, t) && !InElement(t.rest) && t.optopt == s.optopt && t.k == s.k + 1
            && t.marks == s.marks + Repeat(inOrder, 1)
            && Events(spec, args, s) == Meaning(inOrder, Word(text), s.optopt) + Events(spec, args, t)
            && Marks(spec, args, s) == Marks(spec, args, t)
  {
    hide Step, KindOf, Events, Marks, SkipNonOptions;
    assert Repeat(true, 1) == [true] && Repeat(false, 1) == [false];
    if spec.ordering.ReturnInOrder? {
      OperandReturned(spec.letters, false, args, s);
      t := Past(s, 1, s.rest);
      OneStep(spec, args, s, t, Event(NonOption, Some(text), s.optopt));
    } else {
      OperandSkipped(spec.letters, args, s);
      t := State(s.k + 1, None, s.marks + [false], s.optopt);
      SameStep(spec, args, s, t);
      assert [] + Events(spec, args, t) == Events(spec, args, t);
    }
  }

  /** The letters of an element up to the one with an argument, if there is one. */
  lemma ScanLetters(spec: Spec, args: seq<string>, s: State, flags: string, more: string) returns (t: State)
    requires Scannable(spec, args, s) && Between(args, s) && AllPlain(spec.letters, flags)
    requires flags + more != "" && flags + more != "-" && args[s.k] == "-" + (flags + more)
    ensures Scannable(spec, args, t) && t == if more == "" then Past(s, 1, Some("")) else s.(rest := Some(more))
    ensures Events(spec, args, s) == FlagEvents(flags, s.optopt) + Events(spec, args, t) && Marks(spec, args, s) == Marks(spec, args, t)
  {
    hide Step, KindOf, Events, Marks, SkipNonOptions;
    var w := flags + more;
    assert w == [w[0]] + w[1..] && args[s.k] == "-" + [w[0]] + w[1..];
    assert args[s.k][1..] == w;
    OptionElement(spec, args, s, w[0], w[1..]);
    SameStep(spec, args, s, s.(rest := Some(w)));
    ScanFlags(spec, args, s.(rest := Some(w)), flags, more);
    t := if more == "" then Past(s, 1, Some("")) else s.(rest := Some(more));
  }

  lemma ScanJoined(spec: Spec, args: seq<string>, s: State, u: State, flags: string, c: char, arg: string) returns (t: State)
    requires Scannable(spec, args, u) && u == s.(rest := Some([c] + arg)) && s.k < |args|
    requires (Requires(spec.letters, c) && arg != "") || MayTake(spec.letters, c)
    requires Scannable(spec, args, s) && Events(spec, args, s) == FlagEvents(flags, s.optopt) + Events(spec, args, u)
    requires Marks(spec, args, s) == Marks(spec, args, u)
    ensures Scannable(spec, args, t) && t == Past(s, 1, None) && Marks(spec, args, s) == Marks(spec, args, t)
    ensures Events(spec, args, s) == Meaning(spec.ordering.ReturnInOrder?, Joined(flags, c, arg), s.optopt) + Events(spec, args, t)
  {
    hide Step, KindOf, Events, Marks, SkipNonOptions;
    t := Past(s, 1, None);
    if MayTake(spec.letters, c) {
      var pre, post :| Declared(spec.letters, pre, c, "::" + post);
      OptionalArgument(spec, args, u, c, arg, pre, post);
    } else {
      var pre, post :| Declared(spec.letters, pre, c, ":" + post) && NoColon(post);
      RequiredArgument(spec, args, u, c, arg, pre, post);
    }
    OneStep(spec, args, u, t, Event(Letter(c), if arg == "" then None else Some(arg), s.optopt));
  }

  lemma ScanApart(spec: Spec, args: seq<string>, s: State, u: State, flags: string, c: char, arg: string) returns (t: State)
    requires Scannable(spec, args, u) && u == s.(rest := Some([c])) && s.k + 1 < |args| && args[s.k + 1] == arg
    requires Requires(spec.letters, c)
    requires Scannable(spec, args, s) && Events(spec, args, s) == FlagEvents(flags, s.optopt) + Events(spec, args, u)
    requires Marks(spec, args, s) == Marks(spec, args, u)
    ensures Scannable(spec, args, t) && t == Past(s, 2, None) && Marks(spec, args, s) == Marks(spec, args, t)
    ensures Events(spec, args, s) == Meaning(spec.ordering.ReturnInOrder?, Apart(flags, c, arg), s.optopt) + Events(spec, args, t)
  {
    hide Step, KindOf, Events, Marks, SkipNonOptions;
    t := Past(s, 2, None);
    var pre, post :| Declared(spec.letters, pre, c, ":" + post) && NoColon(post);
    assert [c] + "" == [c];
    RequiredArgument(spec, args, u, c, "", pre, post);
    OneStep(spec, args, u, t, Event(Letter(c), Some(arg), s.optopt));
  }

  /** The end of the line, with two minus signs or without. */
  lemma ScanEnd(spec: Spec, args: seq<string>, s: State, dashes: bool, left: seq<string>)
    requires Scannable(spec, args, s) && !InElement(s.rest) && args[s.k..] == Line([], dashes, left)
    ensures Events(spec, args, s) == [] && Marks(spec, args, s) == s.marks + MarksOf(spec.ordering.ReturnInOrder?, [], dashes, left)
  {
    hide KindOf;
    if dashes {
      assert args[s.k] == args[s.k..][0] == "--" && |left| == |args| - s.k - 1;
      DoubleDash(spec, args, s);
      assert s.marks + [true] + Repeat(false, |left|) == s.marks + ([true] + Repeat(false, |left|));
    } else {
      assert s.k == |args|;
      assert s.marks + Repeat(false, 0) + Repeat(true, 0) + Repeat(false, 0) == s.marks + [];
    }
  }

  lemma LineParts(inOrder: bool, items: seq<Item>, dashes: bool, left: seq<string>)
    requires items != []
    ensures Line(items, dashes, left) == Elements(items[0]) + Line(items[1..], dashes, left)
    ensures MarksOf(inOrder, items, dashes, left)
      == Repeat(!items[0].Word? || inOrder, |Elements(items[0])|) + MarksOf(inOrder, items[1..], dashes, left)
  {
  }

  lemma SplitAt(args: seq<string>, k: nat, e: seq<string>, rest: seq<string>)
    requires k <= |args| && args[k..] == e + rest
    ensures k + |e| <= |args| && args[k..k + |e|] == e && args[k + |e|..] == rest
  {
    assert args[k..][..|e|] == args[k..k + |e|] && args[k..][|e|..] == args[k + |e|..];
  }

  lemma MarksJoin(a: seq<bool>, b: seq<bool>, c: seq<bool>)
    ensures a + b + c == a + (b + c)
  {
  }

  /** From anywhere in the line. */
  lemma {:induction false} ScanLine(spec: Spec, args: seq<string>, s: State, items: seq<Item>, dashes: bool, left: seq<string>)
    requires Scannable(spec, args, s) && !InElement(s.rest) && args[s.k..] == Line(items, dashes, left)
    requires forall item :: item in items ==> Allowed(spec.letters, item)
    ensures var inOrder := spec.ordering.ReturnInOrder?;
            && Events(spec, args, s) == Meanings(inOrder, items, s.optopt)
            && Marks(spec, args, s) == s.marks + MarksOf(inOrder, items, dashes, left)
    decreases |items|
  {
    hide Step, KindOf, Events, Marks, SkipNonOptions, Allowed, Elements, Meaning, Repeat, Line, MarksOf;
    if items == [] {
      ScanEnd(spec, args, s, dashes, left);
    } else {
      var item, rest := items[0], Line(items[1..], dashes, left);
      LineParts(spec.ordering.ReturnInOrder?, items, dashes, left);
      SplitAt(args, s.k, Elements(item), rest);
      var t := ScanItem(spec, args, s, item);
      ScanLine(spec, args, t, items[1..], dashes, left);
      MarksJoin(s.marks, Repeat(!item.Word? || spec.ordering.ReturnInOrder?, |Elements(item)|),
        MarksOf(spec.ordering.ReturnInOrder?, items[1..], dashes, left));
    }
  }

  /** The option string does not ask for the long reading of -W. */
  ghost predicate NoLong(letters: string) {
    forall pre, tail :: Declared(letters, pre, 'W', tail) ==> !AsksLong('W', tail)
  }

  lemma NoLongIs(letters: string)
    requires NoLong(letters)
    ensures !KindOf(letters, 'W').LongPrefix?
  {
    if KindOf(letters, 'W').LongPrefix? {
      var i := Find(letters, 'W');
      assert letters == letters[..i] + ['W'] + letters[i + 1..];
      assert Declared(letters, letters[..i], 'W', letters[i + 1..]);
    }
  }

  lemma NoLongWithout(letters: string)
    requires 'W' !in letters
    ensures NoLong(letters) && !KindOf(letters, 'W').LongPrefix?
  {
    forall pre, tail
      ensures Declared(letters, pre, 'W', tail) ==> !AsksLong('W', tail)
    {
      assert (pre + ['W'] + tail)[|pre|] == 'W';
    }
    NoLongIs(letters);
  }

  /** cwmpd -d 5: the level of the log is the argument of the letter. */
  lemma LogLevel(optopt: char)
    ensures !KindOf("d:Df:", 'W').LongPrefix?
    ensures Events(Spec(Permute, "d:Df:"), ["cwmpd", "-d", "5"], Start(["cwmpd", "-d", "5"], 0, optopt))
            == [Event(Letter('d'), Some("5"), optopt)]
  {
    hide Events, Start, Select, Marks, KindOf;
    var letters := "d:Df:";
    var item := Apart("", 'd', "5");
    NoLongWithout(letters);
    assert letters == "" + ['d'] + (":" + "Df:") && Declared(letters, "", 'd', ":" + "Df:") && NoColon("Df:");
    assert Requires(letters, 'd');
    assert "" + ['d'] == "d";
    assert Allowed(letters, item);
    assert Elements(item) == ["-d", "5"] by {
      assert "-" + "" + ['d'] == "-d";
    }
    CommandLine(Spec(Permute, letters), "cwmpd", [item], false, [], optopt);
    assert ["cwmpd"] + Line([item], false, []) == ["cwmpd", "-d", "5"];
    assert Meanings(false, [item], optopt) == [Event(Letter('d'), Some("5"), optopt)];
  }

  /** Any command line made of letters, arguments and operands, with the option string that declares them: the
      calls return what is written, in its order, and behind the options are left the operands, in theirs. */
  lemma CommandLine(spec: Spec, program: string, items: seq<Item>, dashes: bool, left: seq<string>, optopt: char)
    requires NoLong(spec.letters) && !spec.ordering.RequireOrder?
    requires forall item :: item in items ==> Allowed(spec.letters, item)
    ensures !KindOf(spec.letters, 'W').LongPrefix?
    ensures var inOrder := spec.ordering.ReturnInOrder?;
            var args := [program] + Line(items, dashes, left);
            var s := Start(args, 0, optopt);
            && Events(spec, args, s) == Meanings(inOrder, items, optopt)
            && Select(args, Marks(spec, args, s), true) == [program] + Options(inOrder, items, dashes)
            && Select(args, Marks(spec, args, s), false) == Operands(inOrder, items, dashes, left)
  {
    hide Step, KindOf, Events, Marks, SkipNonOptions, Allowed, Select, NoLong;
    NoLongIs(spec.letters);
    var inOrder := spec.ordering.ReturnInOrder?;
    var line := Line(items, dashes, left);
    var args := [program] + line;
    var s := Start(args, 0, optopt);
    assert args[1..] == line && s.marks == [true];
    ScanLine(spec, args, s, items, dashes, left);
    SelectLine([program], [true], inOrder, items, dashes, left);
    assert Select([program], [true], true) == [program] && Select([program], [true], false) == [] by {
      SelectExtends([program], 0, 1, [], true, true);
      SelectExtends([program], 0, 1, [], true, false);
      assert [] + Repeat(true, 1) == [true] && [program][..1] == [program] && [program][0..1] == [program];
      assert [program][..0] == [];
      SelectNone([], []);
    }
    assert [] + Operands(inOrder, items, dashes, left) == Operands(inOrder, items, dashes, left);
  }

  lemma SelectMore(args: seq<string>, marks: seq<bool>, more: seq<string>, b: bool, want: bool)
    requires |args| == |marks|
    ensures Select(args + more, marks + Repeat(b, |more|), want) == Select(args, marks, want) + (if b == want then more else [])
  {
    var all := args + more;
    SelectExtends(all, |args|, |all|, marks, b, want);
    assert all[..|all|] == all && all[..|args|] == args && all[|args|..] == more;
  }

  lemma {:induction false} SelectLine(args: seq<string>, marks: seq<bool>, inOrder: bool, items: seq<Item>, dashes: bool, left: seq<string>)
    requires |args| == |marks|
    ensures var line, more := Line(items, dashes, left), MarksOf(inOrder, items, dashes, left);
            && Select(args + line, marks + more, true) == Select(args, marks, true) + Options(inOrder, items, dashes)
            && Select(args + line, marks + more, false) == Select(args, marks, false) + Operands(inOrder, items, dashes, left)
    decreases |items|
  {
    hide Select;
    var line, more := Line(items, dashes, left), MarksOf(inOrder, items, dashes, left);
    if items != [] {
      var e, b := Elements(items[0]), !items[0].Word? || inOrder;
      var rest := Line(items[1..], dashes, left);
      SelectMore(args, marks, e, b, true);
      SelectMore(args, marks, e, b, false);
      SelectLine(args + e, marks + Repeat(b, |e|), inOrder, items[1..], dashes, left);
      assert args + line == args + e + rest;
      assert marks + more == marks + Repeat(b, |e|) + MarksOf(inOrder, items[1..], dashes, left);
      Grouping(Select(args, marks, true), if b then e else [], Options(inOrder, items[1..], dashes));
      Grouping(Select(args, marks, false), if b then [] else e, Operands(inOrder, items[1..], dashes, left));
    } else if dashes {
      SelectMore(args, marks, ["--"], true, true);
      SelectMore(args, marks, ["--"], true, false);
      SelectMore(args + ["--"], marks + Repeat(true, 1), left, false, true);
      SelectMore(args + ["--"], marks + Repeat(true, 1), left, false, false);
      assert args + line == args + ["--"] + left;
      assert Repeat(true, 1) == [true] && marks + more == marks + Repeat(true, 1) + Repeat(false, |left|);
    } else {
      assert args + line == args && marks + more == marks;
    }
  }

  lemma Grouping(a: seq<string>, b: seq<string>, c: seq<string>)
    ensures a + b + c == a + (b + c)
  {
  }
}
