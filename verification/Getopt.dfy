/** The permuting option scanner of cwmpd/src/getopt.c, with short options, against a scanner
    that walks the original argument vector and never moves anything. */
module Getopt {

  datatype Option<+T> = None | Some(value: T)

  datatype Ordering = RequireOrder | Permute | ReturnInOrder

  /** What a call returns: -1, 1 for a non-option in RETURN_IN_ORDER, or a character. */
  datatype Return = Done | NonOption | Letter(c: char)

  datatype Event = Event(ret: Return, optarg: Option<string>, optopt: char)

  /** NONOPTION_P */
  predicate NonOptionP(element: string) {
    |element| == 0 || element[0] != '-' || |element| == 1
  }

  // ----- the option string ------------------------------------------------------------------

  datatype Spec = Spec(ordering: Ordering, letters: string)

  /** _getopt_initialize: a leading '-' or '+' selects the ordering and is skipped. */
  function ParseSpec(optstring: string, posixlyCorrect: bool): Spec {
    if |optstring| > 0 && optstring[0] == '-' then Spec(ReturnInOrder, optstring[1..])
    else if |optstring| > 0 && optstring[0] == '+' then Spec(RequireOrder, optstring[1..])
    else Spec(if posixlyCorrect then RequireOrder else Permute, optstring)
  }

  datatype Kind = Unknown | LongPrefix | Plain | Required | Optional

  /** strchr, as an index; the length when there is no such character. */
  function Find(s: string, c: char): (i: nat)
    ensures i <= |s| && (i < |s| ==> s[i] == c) && forall j :: 0 <= j < i ==> s[j] != c
  {
    if |s| == 0 || s[0] == c then 0 else 1 + Find(s[1..], c)
  }

  /** How the option string describes letter `c`. */
  function KindOf(letters: string, c: char): Kind {
    var i := Find(letters, c);
    if i == |letters| || c == ':' || c == ';' then Unknown
    else if c == 'W' && i + 1 < |letters| && letters[i + 1] == ';' then LongPrefix
    else if i + 1 < |letters| && letters[i + 1] == ':' then
      if i + 2 < |letters| && letters[i + 2] == ':' then Optional else Required
    else Plain
  }

  // ----- the reference scanner --------------------------------------------------------------

  /** Where a scanner stands that moves nothing: `k` is the next element, `rest` the letters of it
      still to be read.  `marks` says of each element passed whether it is an option element (or an
      argument of one) or a non-option that was skipped. */
  datatype State = State(k: nat, rest: Option<string>, marks: seq<bool>, optopt: char)

  function Repeat(b: bool, n: nat): (s: seq<bool>)
    ensures |s| == n && forall i :: 0 <= i < n ==> s[i] == b
  {
    seq(n, _ => b)
  }

  predicate InElement(rest: Option<string>) {
    rest.Some? && |rest.value| > 0
  }

  predicate Fits(args: seq<string>, s: State) {
    s.k <= |args| && |s.marks| == s.k && (InElement(s.rest) ==> s.k < |args|)
  }

  /** The first element at or after `k` with option syntax. */
  function SkipNonOptions(args: seq<string>, k: nat): (j: nat)
    requires k <= |args|
    ensures k <= j <= |args| && (j < |args| ==> !NonOptionP(args[j]))
    ensures forall i :: k <= i < j ==> NonOptionP(args[i])
    decreases |args| - k
  {
    if k < |args| && NonOptionP(args[k]) then SkipNonOptions(args, k + 1) else k
  }

  function Finish(args: seq<string>, s: State, j: nat): State
    requires Fits(args, s) && s.k <= j <= |args|
  {
    State(|args|, None, s.marks + Repeat(true, j - s.k) + Repeat(false, |args| - j), s.optopt)
  }

  /** Reads one option letter of element `s.k`. */
  function Decode(spec: Spec, args: seq<string>, s: State): (r: (State, Event))
    requires Fits(args, s) && InElement(s.rest)
    ensures Fits(args, r.0) && !r.1.ret.Done?
  {
    var c, rest := s.rest.value[0], s.rest.value[1..];
    var k := if rest == "" then s.k + 1 else s.k;
    var passed := s.marks + Repeat(true, k - s.k);
    match KindOf(spec.letters, c)
    case Unknown => (State(k, Some(rest), passed, c), Event(Letter('?'), None, c))
    case LongPrefix => (State(k, None, passed, s.optopt), Event(Letter('W'), None, s.optopt))
    case Plain => (State(k, Some(rest), passed, s.optopt), Event(Letter(c), None, s.optopt))
    case Optional =>
      (State(s.k + 1, None, s.marks + [true], s.optopt),
       Event(Letter(c), if rest == "" then None else Some(rest), s.optopt))
    case Required =>
      if rest != "" then
        (State(s.k + 1, None, s.marks + [true], s.optopt), Event(Letter(c), Some(rest), s.optopt))
      else if k == |args| then
        (State(k, None, passed, c), Event(Letter(if |spec.letters| > 0 && spec.letters[0] == ':' then ':' else '?'), None, c))
      else
        (State(k + 1, None, s.marks + [true, true], s.optopt), Event(Letter(c), Some(args[k]), s.optopt))
  }

  /** One call of a scanner that leaves the argument vector alone. */
  function Step(spec: Spec, args: seq<string>, s: State): (r: (State, Event))
    requires Fits(args, s)
    ensures Fits(args, r.0) && (r.1.ret.Done? ==> r.0.k == |args|)
  {
    if InElement(s.rest) then
      Decode(spec, args, s)
    else
      var j := if spec.ordering.Permute? then SkipNonOptions(args, s.k) else s.k;
      var t := State(j, None, s.marks + Repeat(false, j - s.k), s.optopt);
      if j == |args| then
        (Finish(args, t, j), Event(Done, None, s.optopt))
      else if args[j] == "--" then
        (Finish(args, t, j + 1), Event(Done, None, s.optopt))
      else if NonOptionP(args[j]) then
        if spec.ordering.RequireOrder? then (Finish(args, t, j), Event(Done, None, s.optopt))
        else (State(j + 1, s.rest, t.marks + [true], s.optopt), Event(NonOption, Some(args[j]), s.optopt))
      else
        Decode(spec, args, t.(rest := Some(args[j][1..])))
  }

  /** The elements marked `b`, in their original order. */
  function Select(args: seq<string>, marks: seq<bool>, b: bool): seq<string>
    requires |args| == |marks|
  {
    if |args| == 0 then []
    else
      var n := |args| - 1;
      Select(args[..n], marks[..n], b) + (if marks[n] == b then [args[n]] else [])
  }

  lemma {:induction false} SelectExtends(args: seq<string>, k: nat, j: nat, marks: seq<bool>, more: bool, b: bool)
    requires k <= j <= |args| && |marks| == k
    ensures Select(args[..j], marks + Repeat(more, j - k), b) ==
      Select(args[..k], marks, b) + (if more == b then args[k..j] else [])
    decreases j - k
  {
    hide Select, Repeat;
    if j == k {
      assert marks + Repeat(more, 0) == marks;
    } else {
      var shorter := marks + Repeat(more, j - 1 - k);
      SelectExtends(args, k, j - 1, marks, more, b);
      SelectOne(args, j - 1, shorter, more, b);
      assert marks + Repeat(more, j - k) == shorter + [more];
      if more == b {
        SliceGrows(Select(args[..k], marks, b), args, k, j);
      }
    }
  }

  lemma SliceGrows(p: seq<string>, args: seq<string>, k: nat, j: nat)
    requires k < j <= |args|
    ensures p + args[k..j - 1] + [args[j - 1]] == p + args[k..j]
  {
  }

  lemma SelectOne(args: seq<string>, k: nat, marks: seq<bool>, more: bool, b: bool)
    requires k < |args| && |marks| == k
    ensures Select(args[..k + 1], marks + [more], b) == Select(args[..k], marks, b) + (if more == b then [args[k]] else [])
  {
    assert args[..k + 1][..k] == args[..k];
    assert (marks + [more])[..k] == marks;
  }

  /** The two selections together are a rearrangement of the whole vector. */
  lemma {:induction false} SelectIsPermutation(args: seq<string>, marks: seq<bool>)
    requires |args| == |marks|
    ensures multiset(Select(args, marks, true) + Select(args, marks, false)) == multiset(args)
  {
    hide Select;
    if |args| == 0 {
      SelectNone(args, marks);
    }
    if |args| > 0 {
      var n := |args| - 1;
      SelectIsPermutation(args[..n], marks[..n]);
      SelectLast(args, marks, true);
      SelectLast(args, marks, false);
      var s, t := Select(args[..n], marks[..n], true), Select(args[..n], marks[..n], false);
      InsertedOnce(s, t, args[n]);
      InsertedOnce(args[..n], [], args[n]);
      assert args == args[..n] + [args[n]] + [] && args[..n] + [] == args[..n];
    }
  }

  lemma SelectNone(args: seq<string>, marks: seq<bool>)
    requires |args| == |marks| == 0
    ensures Select(args, marks, true) == Select(args, marks, false) == []
  {
  }

  lemma SelectLast(args: seq<string>, marks: seq<bool>, b: bool)
    requires 0 < |args| == |marks|
    ensures var n := |args| - 1;
      Select(args, marks, b) == (if marks[n] == b then Select(args[..n], marks[..n], b) + [args[n]] else Select(args[..n], marks[..n], b))
  {
    var n := |args| - 1;
    assert Select(args[..n], marks[..n], b) + [] == Select(args[..n], marks[..n], b);
  }

  lemma InsertedOnce(s: seq<string>, t: seq<string>, x: string)
    ensures multiset(s + [x] + t) == multiset(s + t) + multiset{x}
    ensures multiset(s + (t + [x])) == multiset(s + t) + multiset{x}
  {
  }

  /** Where scanning starts: element 0 is the program name. */
  function Start(args: seq<string>, start: nat, optopt: char): (s: State)
    requires start <= |args|
    ensures Fits(args, s)
  {
    var k := if start == 0 && |args| > 0 then 1 else start;
    State(k, None, Repeat(true, k), optopt)
  }

  // ----- whole runs of the reference scanner --------------------------------------------------

  /** The letters left in the current element; for an element not yet begun, more than it has. */
  function Unread(args: seq<string>, s: State): nat
    requires Fits(args, s)
  {
    if InElement(s.rest) then |s.rest.value| else if s.k < |args| then |args[s.k]| + 1 else 0
  }

  /** Every call that does not end the scan reads on: elements first, then letters. */
  lemma StepReadsOn(spec: Spec, args: seq<string>, s: State)
    requires Fits(args, s) && KindOf(spec.letters, 'W') != LongPrefix
    ensures var (t, event) := Step(spec, args, s);
      event.ret.Done? || s.k < t.k || (s.k == t.k && Unread(args, t) < Unread(args, s))
  {
  }

  /** What the calls return, up to the -1 that ends the scan. */
  function Events(spec: Spec, args: seq<string>, s: State): seq<Event>
    requires Fits(args, s) && KindOf(spec.letters, 'W') != LongPrefix
    decreases |args| - s.k, Unread(args, s)
  {
    StepReadsOn(spec, args, s);
    var (t, event) := Step(spec, args, s);
    if event.ret.Done? then [] else [event] + Events(spec, args, t)
  }

  /** Which elements the whole scan treats as options or their arguments. */
  function Marks(spec: Spec, args: seq<string>, s: State): (marks: seq<bool>)
    requires Fits(args, s) && KindOf(spec.letters, 'W') != LongPrefix
    ensures |marks| == |args| && s.marks <= marks
    decreases |args| - s.k, Unread(args, s)
  {
    StepReadsOn(spec, args, s);
    StepExtendsMarks(spec, args, s);
    var (t, event) := Step(spec, args, s);
    if event.ret.Done? then t.marks else Marks(spec, args, t)
  }

  lemma StepExtendsMarks(spec: Spec, args: seq<string>, s: State)
    requires Fits(args, s)
    ensures s.marks <= Step(spec, args, s).0.marks
  {
  }

  /** The scan ends within `n` calls. */
  ghost predicate DoneWithin(spec: Spec, args: seq<string>, s: State, n: nat)
    requires Fits(args, s)
    decreases n
  {
    n > 0 && var (t, event) := Step(spec, args, s); event.ret.Done? || DoneWithin(spec, args, t, n - 1)
  }

  ghost predicate Ends(spec: Spec, args: seq<string>, start: nat, optopt: char)
    requires start <= |args|
  {
    exists n: nat :: DoneWithin(spec, args, Start(args, start, optopt), n)
  }

  lemma {:induction false} ScanEnds(spec: Spec, args: seq<string>, s: State) returns (n: nat)
    requires Fits(args, s) && KindOf(spec.letters, 'W') != LongPrefix
    ensures DoneWithin(spec, args, s, n)
    decreases |args| - s.k, Unread(args, s)
  {
    StepReadsOn(spec, args, s);
    var (t, event) := Step(spec, args, s);
    if event.ret.Done? {
      n := 1;
    } else {
      n := ScanEnds(spec, args, t);
      n := n + 1;
    }
  }

  /** When the option string holds "W;" and there are no long options, "-Wx" is read over and over:
      the letter is returned with optind still on the element and no letters left in hand. */
  lemma {:induction false} ScanLoops(spec: Spec, optopt: char, n: nat)
    requires KindOf(spec.letters, 'W') == LongPrefix
    ensures var args := ["program", "-Wx"]; !DoneWithin(spec, args, Start(args, 0, optopt), n)
  {
    var args := ["program", "-Wx"];
    var s := Start(args, 0, optopt);
    assert args[1][1..] == "Wx" && "Wx"[1..] == "x" && args[1] != "--";
    assert SkipNonOptions(args, 1) == 1;
    assert s.marks + Repeat(false, 0) + Repeat(true, 0) == s.marks;
    assert Step(spec, args, s) == (s, Event(Letter('W'), None, optopt));
    if n > 0 {
      ScanLoops(spec, optopt, n - 1);
    }
  }

  /** Scanning ends for every argument vector exactly when the option string does not ask for the
      long-option reading of -W. */
  lemma ScanEndsExactly(spec: Spec)
    ensures KindOf(spec.letters, 'W') != LongPrefix <==>
      forall args: seq<string>, start: nat, optopt: char :: start <= |args| ==> Ends(spec, args, start, optopt)
  {
    if KindOf(spec.letters, 'W') != LongPrefix {
      forall args: seq<string>, start: nat, optopt: char | start <= |args|
        ensures Ends(spec, args, start, optopt)
      {
        var n := ScanEnds(spec, args, Start(args, start, optopt));
      }
    } else {
      forall n: nat
        ensures !DoneWithin(spec, ["program", "-Wx"], Start(["program", "-Wx"], 0, 'x'), n)
      {
        ScanLoops(spec, 'x', n);
      }
      assert !Ends(spec, ["program", "-Wx"], 0, 'x');
    }
  }

  // ----- grouping -----------------------------------------------------------------------------

  /** The first `k` elements of `a` are those of `orig`, grouped: option elements, then skipped
      non-options, then later option elements; the rest of the vector is untouched. */
  ghost predicate Grouped(a: seq<string>, orig: seq<string>, k: nat, first: nat, last: nat, marks: seq<bool>) {
    && |a| == |orig| && first <= last <= k <= |a| && |marks| == k
    && a[k..] == orig[k..]
    && Select(orig[..k], marks, true) == a[..first] + a[last..k]
    && Select(orig[..k], marks, false) == a[first..last]
  }

  /** Options first, then non-options, each in its original order, with `boundary` between them. */
  ghost predicate Partitioned(a: seq<string>, orig: seq<string>, marks: seq<bool>, boundary: nat)
    requires |marks| == |orig|
  {
    a == Select(orig, marks, true) + Select(orig, marks, false) && boundary == |Select(orig, marks, true)|
  }

  lemma StartIsGrouped(orig: seq<string>, k: nat)
    requires k <= |orig|
    ensures Grouped(orig, orig, k, k, k, Repeat(true, k))
  {
    SelectExtends(orig, 0, k, [], true, true);
    SelectExtends(orig, 0, k, [], true, false);
    assert [] + Repeat(true, k) == Repeat(true, k);
    assert orig[0..k] == orig[..k] + orig[k..k];
    assert Select(orig[..0], [], true) == [];
  }

  lemma GroupAfterExchange(a: seq<string>, orig: seq<string>, k: nat, first: nat, last: nat, marks: seq<bool>)
    requires Grouped(a, orig, k, first, last, marks)
    ensures Grouped(Rotated(a, first, last, k), orig, k, first + (k - last), k, marks)
  {
    hide Select;
    var b := Rotated(a, first, last, k);
    assert b[..first + (k - last)] == a[..first] + a[last..k];
    assert b[first + (k - last)..k] == a[first..last];
    assert b[k..] == a[k..];
    assert b[k..k] == [];
  }

  lemma GroupJoins(a: seq<string>, orig: seq<string>, k: nat, first: nat, marks: seq<bool>)
    requires Grouped(a, orig, k, first, first, marks)
    ensures Grouped(a, orig, k, k, k, marks)
  {
    hide Select;
    assert a[..first] + a[first..k] == a[..k] + a[k..k];
    assert a[first..first] == a[k..k];
  }

  /** Passing elements that stay where they are: skipped when `last` moves along, options when it
      does not. */
  lemma GroupExtends(a: seq<string>, orig: seq<string>, k: nat, j: nat, first: nat, last: nat, marks: seq<bool>, b: bool)
    requires Grouped(a, orig, k, first, last, marks) && k <= j <= |a| && (!b ==> last == k)
    ensures Grouped(a, orig, j, first, if b then last else j, marks + Repeat(b, j - k))
  {
    hide Select;
    SelectExtends(orig, k, j, marks, b, true);
    SelectExtends(orig, k, j, marks, b, false);
    TailsAgree(a, orig, k, j);
    if b {
      SlicesJoin(a, last, k, j, a[..first]);
      assert a[first..last] + [] == a[first..last];
    } else {
      SlicesJoin(a, first, k, j, []);
      assert a[..first] + a[k..k] + [] == a[..first] + a[j..j];
    }
  }

  lemma TailsAgree(a: seq<string>, b: seq<string>, k: nat, j: nat)
    requires k <= j <= |a| == |b| && a[k..] == b[k..]
    ensures a[k..j] == b[k..j] && a[j..] == b[j..]
  {
    assert a[k..j] == a[k..][..j - k] && b[k..j] == b[k..][..j - k];
    assert a[j..] == a[k..][j - k..] && b[j..] == b[k..][j - k..];
  }

  lemma SlicesJoin(a: seq<string>, lo: nat, mid: nat, hi: nat, p: seq<string>)
    requires lo <= mid <= hi <= |a|
    ensures p + a[lo..mid] + a[mid..hi] == p + a[lo..hi]
    ensures a[lo..mid] + a[mid..hi] == a[lo..hi]
  {
  }

  lemma GroupShape(a: seq<string>, orig: seq<string>, k: nat, first: nat, last: nat, marks: seq<bool>)
    requires Grouped(a, orig, k, first, last, marks)
    ensures |a| == |orig| && first <= last <= k <= |a| && |marks| == k
  {
  }

  lemma GroupTail(a: seq<string>, orig: seq<string>, k: nat, first: nat, last: nat, marks: seq<bool>, i: nat)
    requires Grouped(a, orig, k, first, last, marks) && k <= i < |a|
    ensures |a| == |orig| && a[i] == orig[i]
  {
    assert a[k..][i - k] == orig[k..][i - k];
  }

  /** An option element, or one and its argument, is passed. */
  lemma PassedElements(a: seq<string>, orig: seq<string>, k: nat, first: nat, last: nat, marks: seq<bool>)
    requires Grouped(a, orig, k, first, last, marks) && k < |a|
    ensures marks + Repeat(true, 0) == marks && marks + Repeat(true, 1) == marks + [true]
    ensures marks + [true] + [true] == marks + [true, true]
    ensures Grouped(a, orig, k + 1, first, last, marks + [true])
    ensures k + 1 < |a| ==> Grouped(a, orig, k + 2, first, last, marks + [true, true])
  {
    hide Grouped;
    GroupShape(a, orig, k, first, last, marks);
    assert marks + Repeat(true, 1) == marks + [true];
    assert marks + Repeat(true, 2) == marks + [true, true];
    GroupExtends(a, orig, k, k + 1, first, last, marks, true);
    if k + 1 < |a| {
      GroupExtends(a, orig, k, k + 2, first, last, marks, true);
    }
  }

  lemma EmptyIsPartitioned(a: seq<string>, orig: seq<string>, marks: seq<bool>)
    requires |a| == |orig| == |marks| == 0
    ensures Partitioned(a, orig, marks, 0)
  {
  }

  lemma GroupEnds(a: seq<string>, orig: seq<string>, first: nat, marks: seq<bool>)
    requires Grouped(a, orig, |a|, first, |a|, marks)
    ensures Partitioned(a, orig, marks, first)
  {
    hide Select;
    assert orig[..|a|] == orig;
    assert a[..first] + a[|a|..|a|] == a[..first];
    assert a[..first] + a[first..] == a;
  }

  // ----- the scanner that permutes ----------------------------------------------------------

  function AtMost(n: nat, limit: nat): nat {
    if n > limit then limit else n
  }

  /** struct _getopt_data, with the argument vector it works on. */
  class Scanner {
    const spec: Spec
    const argv: array<string>
    var optind: nat
    var optarg: Option<string>
    var optopt: char
    var nextchar: Option<string>
    var firstNonopt: nat
    var lastNonopt: nat
    ghost const orig: seq<string>
    ghost var marks: seq<bool>

    ghost function Abs(): State
      reads this`optind, this`nextchar, this`marks, this`optopt
    {
      State(optind, nextchar, marks, optopt)
    }

    ghost predicate Valid()
      reads this, argv
    {
      && Grouped(argv[..], orig, optind, firstNonopt, lastNonopt, marks) && Fits(orig, Abs())
      && (!spec.ordering.Permute? ==> firstNonopt == lastNonopt)
    }

    /** The state _getopt_initialize sets up, for a caller who starts at element `start`. */
    constructor (argv: array<string>, optstring: string, posixlyCorrect: bool, start: nat, optopt: char)
      requires start <= argv.Length
      ensures Valid() && this.argv == argv && orig == argv[..] && spec == ParseSpec(optstring, posixlyCorrect)
      ensures Abs() == Start(argv[..], start, optopt)
    {
      this.argv, orig, spec := argv, argv[..], ParseSpec(optstring, posixlyCorrect);
      var first := if start == 0 && argv.Length > 0 then 1 else start;
      optind, firstNonopt, lastNonopt := first, first, first;
      nextchar, optarg := None, None;
      this.optopt := optopt;
      marks := Repeat(true, first);
      new;
      StartIsGrouped(argv[..], optind);
    }

    /** _getopt_internal_r without long options: returns what the reference scanner returns. */
    method GetOpt() returns (ret: Return)
      requires Valid()
      modifies this, argv
      ensures var (s, event) := Step(spec, orig, old(Abs()));
        && ret == event.ret && optarg == (if argv.Length == 0 then old(optarg) else event.optarg) && optopt == event.optopt
        && (argv.Length == 0 ==> ret == Done)
        && (ret != Done ==> Valid() && Abs() == s)
        && (ret == Done ==> marks == s.marks && Partitioned(argv[..], orig, marks, optind))
    {
      hide Grouped, Select, Rotated, Partitioned;
      GroupShape(argv[..], orig, optind, firstNonopt, lastNonopt, marks);
      if argv.Length < 1 {
        EmptyIsPartitioned(argv[..], orig, marks);
        return Done;
      }
      optarg := None;
      if !InElement(nextchar) {
        var found;
        found, ret := Advance();
        if !found {
          return;
        }
      }
      ret := ReadLetter();
    }

    /** Moves options that follow skipped non-options in front of them, and skips more. */
    method SkipAhead()
      requires Valid() && spec.ordering.Permute?
      modifies this`optind, this`firstNonopt, this`lastNonopt, this`marks, argv
      ensures Grouped(argv[..], orig, optind, firstNonopt, lastNonopt, marks) && lastNonopt == optind
      ensures optind == SkipNonOptions(orig, old(optind)) && marks == old(marks) + Repeat(false, optind - old(optind))
    {
      hide Grouped, Select, Rotated;
      GroupShape(argv[..], orig, optind, firstNonopt, lastNonopt, marks);
      if firstNonopt != lastNonopt && lastNonopt != optind {
        GroupAfterExchange(argv[..], orig, optind, firstNonopt, lastNonopt, marks);
        Exchange();
      } else if lastNonopt != optind {
        GroupJoins(argv[..], orig, optind, firstNonopt, marks);
        firstNonopt := optind;
      }
      ghost var k, a := optind, argv[..];
      while optind < argv.Length && NonOptionP(argv[optind])
        invariant k <= optind <= argv.Length && SkipNonOptions(orig, k) == SkipNonOptions(orig, optind)
        invariant argv[..] == a
        decreases argv.Length - optind
        modifies this`optind
      {
        GroupTail(a, orig, k, firstNonopt, k, marks, optind);
        optind := optind + 1;
      }
      if optind < argv.Length {
        GroupTail(a, orig, k, firstNonopt, k, marks, optind);
      }
      GroupExtends(a, orig, k, optind, firstNonopt, k, marks, false);
      lastNonopt := optind;
      marks := marks + Repeat(false, optind - k);
      assert argv[..] == a;
    }

    /** "--" joins the options, and everything after it the non-options. */
    method PassDashes()
      requires Grouped(argv[..], orig, optind, firstNonopt, lastNonopt, marks) && optind < argv.Length
      modifies this`optind, this`firstNonopt, this`lastNonopt, this`marks, argv
      ensures Grouped(argv[..], orig, optind, firstNonopt, lastNonopt, marks) && lastNonopt == optind == argv.Length
      ensures marks == old(marks) + Repeat(true, 1) + Repeat(false, argv.Length - (old(optind) + 1))
    {
      hide Grouped, Select, Rotated, Repeat;
      GroupShape(argv[..], orig, optind, firstNonopt, lastNonopt, marks);
      GroupExtends(argv[..], orig, optind, optind + 1, firstNonopt, lastNonopt, marks, true);
      optind := optind + 1;
      marks := marks + Repeat(true, 1);
      if firstNonopt != lastNonopt && lastNonopt != optind {
        GroupAfterExchange(argv[..], orig, optind, firstNonopt, lastNonopt, marks);
        Exchange();
      } else if firstNonopt == lastNonopt {
        GroupJoins(argv[..], orig, optind, firstNonopt, marks);
        firstNonopt := optind;
      }
      GroupExtends(argv[..], orig, optind, argv.Length, firstNonopt, optind, marks, false);
      marks := marks + Repeat(false, argv.Length - optind);
      lastNonopt := argv.Length;
      optind := argv.Length;
    }

    /** Moves on to the next option element, when there is one. */
    method Advance() returns (found: bool, ret: Return)
      requires Valid() && !InElement(nextchar) && optarg == None && 1 <= argv.Length
      modifies this, argv
      ensures optopt == old(optopt)
      ensures found ==>
        Valid() && InElement(nextchar) && Step(spec, orig, old(Abs())) == Decode(spec, orig, Abs()) && optarg == None
      ensures !found ==> var (s, event) := Step(spec, orig, old(Abs()));
        && ret == event.ret && optarg == event.optarg && optopt == event.optopt
        && (ret != Done ==> Valid() && Abs() == s)
        && (ret == Done ==> marks == s.marks && Partitioned(argv[..], orig, marks, optind))
    {
      hide Grouped, Select, Rotated, Partitioned, Repeat, Decode;
      GroupShape(argv[..], orig, optind, firstNonopt, lastNonopt, marks);
      // a caller may have moved optind back
      lastNonopt := AtMost(lastNonopt, optind);
      firstNonopt := AtMost(firstNonopt, optind);
      assert marks + Repeat(false, 0) == marks;
      if spec.ordering.Permute? {
        SkipAhead();
      }
      GroupShape(argv[..], orig, optind, firstNonopt, lastNonopt, marks);
      ghost var j, marks1, n := optind, marks, argv.Length;
      assert marks1 + Repeat(true, 0) == marks1 && marks1 + Repeat(false, 0) == marks1;
      if optind < argv.Length {
        GroupTail(argv[..], orig, j, firstNonopt, lastNonopt, marks, j);
      }
      if optind != argv.Length && argv[optind] == "--" {
        PassDashes();
      }
      if optind == argv.Length {
        if firstNonopt == lastNonopt {
          GroupJoins(argv[..], orig, n, firstNonopt, marks);
        }
        GroupEnds(argv[..], orig, if firstNonopt == lastNonopt then n else firstNonopt, marks);
        if firstNonopt != lastNonopt {
          optind := firstNonopt;
        }
        return false, Done;
      }
      if NonOptionP(argv[optind]) {
        if spec.ordering.RequireOrder? {
          GroupJoins(argv[..], orig, j, firstNonopt, marks);
          GroupExtends(argv[..], orig, j, n, j, j, marks, false);
          GroupEnds(argv[..], orig, j, marks + Repeat(false, n - j));
          marks := marks + Repeat(false, n - j);
          return false, Done;
        }
        GroupExtends(argv[..], orig, j, j + 1, firstNonopt, lastNonopt, marks, true);
        assert marks + Repeat(true, 1) == marks + [true];
        optarg := Some(argv[optind]);
        optind := optind + 1;
        marks := marks + [true];
        return false, NonOption;
      }
      nextchar := Some(argv[optind][1..]);
      return true, NonOption;
    }

    method ReadLetter() returns (ret: Return)
      requires Valid() && InElement(nextchar) && optarg == None
      modifies this
      ensures var (s, event) := Decode(spec, orig, old(Abs()));
        && ret == event.ret && optarg == event.optarg && optopt == event.optopt
        && Valid() && Abs() == s
    {
      hide Grouped, Select, Repeat;
      GroupShape(argv[..], orig, optind, firstNonopt, lastNonopt, marks);
      ghost var k, a := optind, argv[..];
      PassedElements(a, orig, k, firstNonopt, lastNonopt, marks);
      var c := nextchar.value[0];
      var rest := nextchar.value[1..];
      nextchar := Some(rest);
      if rest == "" {
        optind := optind + 1;
      }
      marks := marks + Repeat(true, optind - k);
      var kind := KindOf(spec.letters, c);
      if kind.Unknown? {
        optopt := c;
        return Letter('?');
      }
      if kind.LongPrefix? {
        // no long options were given: the application handles it
        nextchar := None;
        return Letter('W');
      }
      if kind.Optional? {
        if rest != "" {
          optarg := nextchar;
          optind := optind + 1;
          marks := marks + [true];
        } else {
          optarg := None;
        }
        nextchar := None;
      } else if kind.Required? {
        if rest != "" {
          optarg := nextchar;
          optind := optind + 1;
          marks := marks + [true];
        } else if optind == argv.Length {
          optopt := c;
          c := if |spec.letters| > 0 && spec.letters[0] == ':' then ':' else '?';
        } else {
          GroupTail(a, orig, k, firstNonopt, lastNonopt, old(marks), k + 1);
          optarg := Some(argv[optind]);
          optind := optind + 1;
          marks := marks + [true];
        }
        nextchar := None;
      }
      return Letter(c);
    }

    /** The caller's loop: calls until -1. */
    method ScanAll() returns (events: seq<Event>)
      requires Valid() && KindOf(spec.letters, 'W') != LongPrefix
      modifies this, argv
      ensures events == Events(spec, orig, old(Abs()))
      ensures marks == Marks(spec, orig, old(Abs())) && Partitioned(argv[..], orig, marks, optind)
    {
      hide Partitioned, Grouped, Step, KindOf;
      events := [];
      ghost var s0 := Abs();
      StepReadsOn(spec, orig, Abs());
      var ret := GetOpt();
      while ret != Done
        invariant ret != Done ==> Valid() && events + [Event(ret, optarg, optopt)] + Events(spec, orig, Abs()) == Events(spec, orig, s0)
        invariant ret != Done ==> Marks(spec, orig, Abs()) == Marks(spec, orig, s0)
        invariant ret == Done ==> events == Events(spec, orig, s0) && marks == Marks(spec, orig, s0)
        invariant ret == Done ==> Partitioned(argv[..], orig, marks, optind)
        decreases if ret == Done then 0 else 1, if ret == Done then 0 else |orig| - optind, if ret == Done then 0 else Unread(orig, Abs())
      {
        events := events + [Event(ret, optarg, optopt)];
        StepReadsOn(spec, orig, Abs());
        ret := GetOpt();
      }
    }

    /** Swaps `len` elements at `i` with `len` elements at `j`. */
    method SwapSegments(i: nat, j: nat, len: nat)
      requires i + len <= j && j + len <= argv.Length
      modifies argv
      ensures argv[..] == Swapped(old(argv[..]), i, j, len)
    {
      hide Swapped;
      ghost var a := argv[..];
      for n := 0 to len
        invariant forall x :: 0 <= x < argv.Length ==> argv[x] == SwappedAt(a, i, j, n, x)
      {
        var tem := argv[i + n];
        argv[i + n] := argv[j + n];
        argv[j + n] := tem;
      }
      SwappedEverywhere(a, argv[..], i, j, len);
    }

    /** Rotates the skipped non-options past the options processed since. */
    method Exchange()
      requires firstNonopt <= lastNonopt <= optind <= argv.Length
      modifies this`firstNonopt, this`lastNonopt, argv
      ensures argv[..] == Rotated(old(argv[..]), old(firstNonopt), old(lastNonopt), optind)
      ensures firstNonopt == old(firstNonopt) + (optind - old(lastNonopt)) && lastNonopt == optind
    {
      hide Rotated, Swapped;
      var bottom: nat, middle: nat, top: nat := firstNonopt, lastNonopt, optind;
      ghost var target := Rotated(argv[..], bottom, middle, top);
      while top > middle && middle > bottom
        invariant bottom <= middle <= top <= argv.Length
        invariant Rotated(argv[..], bottom, middle, top) == target
        decreases top - bottom
        modifies argv
      {
        ghost var a := argv[..];
        if top - middle > middle - bottom {
          // the bottom segment is the short one: swap it with the top part of the top segment
          var len := middle - bottom;
          SwapSegments(bottom, top - len, len);
          BottomSwapped(a, argv[..], bottom, middle, top);
          top := top - len;
        } else {
          // the top segment is the short one: swap it with the bottom part of the bottom segment
          var len := top - middle;
          SwapSegments(bottom, middle, len);
          TopSwapped(a, argv[..], bottom, middle, top);
          bottom := bottom + len;
        }
      }
      RotationOver(argv[..], bottom, middle, top);
      firstNonopt := firstNonopt + (optind - lastNonopt);
      lastNonopt := optind;
    }
  }

  function Rotated(a: seq<string>, bottom: nat, middle: nat, top: nat): seq<string>
    requires bottom <= middle <= top <= |a|
  {
    a[..bottom] + a[middle..top] + a[bottom..middle] + a[top..]
  }

  function Swapped(a: seq<string>, i: nat, j: nat, len: nat): seq<string>
    requires i + len <= j && j + len <= |a|
  {
    a[..i] + a[j..j + len] + a[i + len..j] + a[i..i + len] + a[j + len..]
  }

  function SwappedAt(a: seq<string>, i: nat, j: nat, n: nat, x: nat): string
    requires i + n <= j && j + n <= |a| && x < |a|
  {
    if i <= x < i + n then a[j + (x - i)] else if j <= x < j + n then a[i + (x - j)] else a[x]
  }

  lemma SwappedEverywhere(a: seq<string>, b: seq<string>, i: nat, j: nat, len: nat)
    requires i + len <= j && j + len <= |a| == |b|
    requires forall x :: 0 <= x < |a| ==> b[x] == SwappedAt(a, i, j, len, x)
    ensures b == Swapped(a, i, j, len)
  {
    var c := Swapped(a, i, j, len);
    forall x | 0 <= x < |a|
      ensures b[x] == c[x]
    {
      assert b[x] == SwappedAt(a, i, j, len, x);
    }
  }

  /** Rotating x and y is done when one of them is exchanged with the far end of the other and the
      rest is rotated. */
  lemma BottomSwapped(a: seq<string>, b: seq<string>, bottom: nat, middle: nat, top: nat)
    requires bottom < middle < top <= |a| && middle - bottom < top - middle
    requires b == Swapped(a, bottom, top - (middle - bottom), middle - bottom)
    ensures |b| == |a| && Rotated(b, bottom, middle, top - (middle - bottom)) == Rotated(a, bottom, middle, top)
  {
    var far := top - (middle - bottom);
    assert b[..bottom] == a[..bottom];
    assert b[middle..far] == a[middle..far];
    assert b[bottom..middle] == a[far..top];
    assert b[far..] == a[bottom..middle] + a[top..];
    assert a[middle..top] == a[middle..far] + a[far..top];
  }

  lemma TopSwapped(a: seq<string>, b: seq<string>, bottom: nat, middle: nat, top: nat)
    requires bottom < middle < top <= |a| && top - middle <= middle - bottom
    requires b == Swapped(a, bottom, middle, top - middle)
    ensures |b| == |a| && Rotated(b, bottom + (top - middle), middle, top) == Rotated(a, bottom, middle, top)
  {
    var near := bottom + (top - middle);
    assert b[..near] == a[..bottom] + a[middle..top];
    assert b[middle..top] == a[bottom..near];
    assert b[near..middle] == a[near..middle];
    assert b[top..] == a[top..];
    assert a[bottom..middle] == a[bottom..near] + a[near..middle];
  }

  lemma RotationOver(a: seq<string>, bottom: nat, middle: nat, top: nat)
    requires bottom <= middle <= top <= |a| && (bottom == middle || middle == top)
    ensures Rotated(a, bottom, middle, top) == a
  {
  }

  // ----- abbreviated long options ---------------------------------------------------------------

  datatype LongOption = LongOption(name: string, hasArg: int, flag: int, val: int) {
    predicate SameMeaning(other: LongOption) {
      hasArg == other.hasArg && flag == other.flag && val == other.val
    }
  }

  datatype Lookup = NotFound | Found(index: nat) | Ambiguous

  /** `i` is the first option that `name` abbreviates. */
  ghost predicate FirstMatch(longopts: seq<LongOption>, name: string, i: nat) {
    i < |longopts| && name <= longopts[i].name && forall j :: 0 <= j < i ==> !(name <= longopts[j].name)
  }

  ghost predicate NoExact(longopts: seq<LongOption>, name: string, n: nat) {
    n <= |longopts| && forall j :: 0 <= j < n ==> longopts[j].name != name
  }

  /** A later option that `name` abbreviates too, with another meaning. */
  ghost predicate Conflict(longopts: seq<LongOption>, name: string, longOnly: bool, i: nat, j: nat)
    requires i < |longopts|
  {
    i < j < |longopts| && name <= longopts[j].name && (longOnly || !longopts[i].SameMeaning(longopts[j]))
  }

  /** The search for a long option by an abbreviation: an exact name wins; else the first option it
      abbreviates, unless a later one it abbreviates means something else. */
  method FindLong(longopts: seq<LongOption>, name: string, longOnly: bool) returns (r: Lookup)
    ensures r.NotFound? <==> forall i :: 0 <= i < |longopts| ==> !(name <= longopts[i].name)
    ensures (exists i :: 0 <= i < |longopts| && longopts[i].name == name) <==>
      r.Found? && r.index < |longopts| && longopts[r.index].name == name
    ensures r.Found? && r.index < |longopts| && longopts[r.index].name == name ==> NoExact(longopts, name, r.index)
    ensures r.Found? ==> r.index < |longopts| && name <= longopts[r.index].name
    ensures r.Found? && longopts[r.index].name != name ==>
      FirstMatch(longopts, name, r.index) && forall j: nat :: !Conflict(longopts, name, longOnly, r.index, j)
    ensures r.Ambiguous? ==> exists i: nat, j: nat :: FirstMatch(longopts, name, i) && Conflict(longopts, name, longOnly, i, j)
  {
    var found: Option<nat>, ambiguous := None, false;
    for i := 0 to |longopts|
      invariant NoExact(longopts, name, i)
      invariant found.None? ==> !ambiguous && forall j :: 0 <= j < i ==> !(name <= longopts[j].name)
      invariant found.Some? ==> found.value < i && FirstMatch(longopts, name, found.value)
      invariant found.Some? && !ambiguous ==> forall j: nat :: j < i ==> !Conflict(longopts, name, longOnly, found.value, j)
      invariant ambiguous ==> found.Some? && exists j: nat :: j < i && Conflict(longopts, name, longOnly, found.value, j)
    {
      if name <= longopts[i].name {
        if |name| == |longopts[i].name| {
          assert longopts[i].name == name;
          return Found(i);
        } else if found.None? {
          found := Some(i);
        } else if longOnly || !longopts[found.value].SameMeaning(longopts[i]) {
          assert Conflict(longopts, name, longOnly, found.value, i);
          ambiguous := true;
        }
      }
    }
    if ambiguous {
      return Ambiguous;
    }
    r := if found.Some? then Found(found.value) else NotFound;
  }
}
