/** cJSON_Minify, in place: one pointer reads the text and another writes what is kept behind it. */
module CjsonMinifier {
  import opened CjsonText
  import opened CjsonMinify
  import opened CjsonPrinter

  /** From position `at` the buffer still holds the text, and its NUL; what is written stays behind. */
  ghost predicate Unread(json: array<char>, s: string, at: nat, into: nat)
    reads json
  {
    into <= at <= |s| < json.Length && json[at..|s|] == s[at..] && json[|s|] == NUL
  }

  lemma UnreadAt(json: array<char>, s: string, at: nat, into: nat, k: nat)
    requires Unread(json, s, at, into) && at <= k <= |s| && NoNul(s)
    ensures into <= at && |s| < json.Length
    ensures k < |s| ==> json[k] == s[k] && json[k] != NUL
    ensures k == |s| ==> json[k] == NUL
  {
    if k < |s| {
      assert json[k] == json[at..|s|][k - at];
    }
  }

  lemma UnreadWithin(json: array<char>, s: string, at: nat, into: nat)
    requires Unread(json, s, at, into)
    ensures into <= at <= |s| < json.Length
  {
  }

  lemma SuffixStep(s: string, i: nat)
    requires i < |s|
    ensures s[i..] != "" && s[i..][0] == s[i] && s[i..][1..] == s[i + 1..] && s[i..][..1] == [s[i]]
    ensures i + 1 < |s| ==> |s[i..]| >= 2 && s[i..][1] == s[i + 1]
    ensures i + 1 == |s| ==> |s[i..]| == 1
  {
  }

  /** A comment to the end of its line. */
  method PassLine(json: array<char>, ghost s: string, from: nat, ghost into: nat) returns (at: nat)
    requires Unread(json, s, from, into) && NoNul(s) && "//" <= s[from..]
    ensures from < at <= |s| && Unread(json, s, at, into) && Minify(s[at..]) == Minify(s[from..])
  {
    hide Minify, Unread, NoNul;
    at := from;
    UnreadWithin(json, s, from, into);
    UnreadAt(json, s, from, into, at);
    MinifyStep(s[from..]);
    SkipLineShrinks(s[from..]);
    while json[at] != NUL && json[at] != '\n'
      invariant from <= at <= |s| && SkipLine(s[at..]) == SkipLine(s[from..])
      invariant (at < |s| ==> json[at] == s[at] != NUL) && (at == |s| ==> json[at] == NUL)
      decreases |s| - at
    {
      SuffixStep(s, at);
      at := at + 1;
      UnreadAt(json, s, from, into, at);
    }
    UnreadOn(json, s, from, into, at);
  }

  /** A comment to its closing star and slash; its own opening star may be that star. */
  method PassComment(json: array<char>, ghost s: string, from: nat, ghost into: nat) returns (ok: bool, at: nat)
    requires Unread(json, s, from, into) && NoNul(s) && "/*" <= s[from..]
    ensures ok ==> from < at <= |s| && Unread(json, s, at, into) && Minify(s[at..]) == Minify(s[from..])
    ensures !ok ==> Minify(s[from..]) == Overrun
  {
    hide Minify, Unread, NoNul;
    at := from;
    UnreadWithin(json, s, from, into);
    UnreadAt(json, s, from, into, at);
    MinifyStep(s[from..]);
    while json[at] != NUL && !(json[at] == '*' && json[at + 1] == '/')
      invariant from <= at <= |s| && SkipComment(s[at..]) == SkipComment(s[from..])
      invariant (at < |s| ==> json[at] == s[at] != NUL) && (at == |s| ==> json[at] == NUL)
      decreases |s| - at
    {
      CommentStep(s, at);
      UnreadAt(json, s, from, into, at + 1);
      at := at + 1;
    }
    if json[at] == NUL {
      return false, at;
    }
    CommentStep(s, at);
    UnreadAt(json, s, from, into, at + 1);
    at := at + 2;
    UnreadOn(json, s, from, into, at);
    ok := true;
  }

  lemma CommentStep(s: string, i: nat)
    requires i < |s|
    ensures i + 1 < |s| && s[i] == '*' && s[i + 1] == '/' ==> SkipComment(s[i..]) == Ok("", s[i + 2..])
    ensures !(i + 1 < |s| && s[i] == '*' && s[i + 1] == '/') ==> SkipComment(s[i..]) == SkipComment(s[i + 1..])
  {
    SuffixStep(s, i);
    if i + 1 < |s| {
      assert s[i..][2..] == s[i + 2..];
    }
  }

  lemma MinifyStep(s: string)
    requires s != ""
    ensures IsBlank(s[0]) ==> Minify(s) == Minify(s[1..])
    ensures "//" <= s ==> Minify(s) == Minify(SkipLine(s))
    ensures "/*" <= s ==> Minify(s) == if SkipComment(s).Ok? then Minify(SkipComment(s).rest) else Overrun
    ensures s[0] == QUOTE ==> Minify(s) == Prepend([s[0]], MinifyLiteral(s[1..]))
    ensures !IsBlank(s[0]) && !("//" <= s) && !("/*" <= s) && s[0] != QUOTE ==> Minify(s) == Prepend([s[0]], Minify(s[1..]))
  {
    hide MinifyLiteral, SkipComment, SkipLine;
    assert s[..1] == [s[0]];
    assert "//" <= s ==> s[0] == '/';
    assert "/*" <= s ==> s[0] == '/' && s[1] == '*';
  }

  /** One character moved down. The reader is ahead, so nothing unread is lost; `whole` is the minified
      text, and `rest` what will follow this character. */
  method Keep(json: array<char>, ghost s: string, at: nat, into: nat, ghost whole: Minified, ghost rest: Minified)
    requires Unread(json, s, at, into) && at < |s| && NoNul(s)
    requires whole == Prepend(json[..into], Prepend([s[at]], rest))
    modifies json
    ensures Unread(json, s, at + 1, into + 1) && whole == Prepend(json[..into + 1], rest)
  {
    UnreadAt(json, s, at, into, at);
    ghost var before, done := json[at..|s|], json[..into];
    json[into] := json[at];
    assert json[at + 1..|s|] == before[1..];
    assert json[..into + 1] == done + [s[at]];
    PrependTwice(done, [s[at]], rest);
  }

  lemma LiteralStep(s: string)
    requires s != ""
    ensures s[0] == QUOTE ==> MinifyLiteral(s) == Prepend([s[0]], Minify(s[1..]))
    ensures s[0] != QUOTE && s[0] != BACKSLASH ==> MinifyLiteral(s) == Prepend([s[0]], MinifyLiteral(s[1..]))
    ensures s[0] == BACKSLASH && |s| == 1 ==> MinifyLiteral(s) == Overrun
    ensures s[0] == BACKSLASH && |s| > 1 ==> MinifyLiteral(s) == Prepend([s[0]], Prepend([s[1]], MinifyLiteral(s[2..])))
  {
    hide Minify;
    assert s[..1] == [s[0]];
    if |s| > 1 {
      assert s[..2] == [s[0]] + [s[1]];
      PrependTwice([s[0]], [s[1]], MinifyLiteral(s[2..]));
    }
  }

  lemma LiteralNothing()
    ensures MinifyLiteral("") == Overrun
  {
  }

  lemma Overrunning(done: string, r: Minified)
    ensures Prepend(done, r) == Overrun <==> r == Overrun
  {
  }

  /** From behind the opening quote to behind the closing one. */
  method CopyLiteral(json: array<char>, ghost s: string, from: nat, start: nat) returns (ok: bool, at: nat, into: nat)
    requires Unread(json, s, from, start) && NoNul(s)
    modifies json
    ensures ok ==> from < at <= |s| && Unread(json, s, at, into)
    ensures ok ==> Prepend(old(json[..start]), MinifyLiteral(s[from..])) == Prepend(json[..into], Minify(s[at..]))
    ensures !ok ==> MinifyLiteral(s[from..]) == Overrun
  {
    hide Minify, MinifyLiteral, Prepend, Unread, NoNul;
    at, into := from, start;
    UnreadWithin(json, s, at, into);
    ghost var whole := Prepend(json[..start], MinifyLiteral(s[from..]));
    Overrunning(json[..start], MinifyLiteral(s[from..]));
    UnreadAt(json, s, at, into, at);
    while json[at] != NUL && json[at] != QUOTE
      invariant from <= at <= |s| < json.Length && into <= at && Unread(json, s, at, into)
      invariant (at < |s| ==> json[at] == s[at] != NUL) && (at == |s| ==> json[at] == NUL)
      invariant whole == Prepend(json[..into], MinifyLiteral(s[at..]))
      decreases |s| - at
    {
      ghost var rest := s[at..];
      SuffixStep(s, at);
      LiteralStep(rest);
      if json[at] == BACKSLASH {
        UnreadAt(json, s, at, into, at + 1);
        if json[at + 1] == NUL {
          Overrunning(json[..into], MinifyLiteral(rest));
          return false, at, into;
        }
        assert rest[2..] == s[at + 2..];
        Keep(json, s, at, into, whole, Prepend([s[at + 1]], MinifyLiteral(s[at + 2..])));
        at, into := at + 1, into + 1;
      }
      Keep(json, s, at, into, whole, MinifyLiteral(s[at + 1..]));
      at, into := at + 1, into + 1;
      UnreadAt(json, s, at, into, at);
    }
    if json[at] == NUL {
      LiteralNothing();
      Overrunning(json[..into], MinifyLiteral(s[at..]));
      return false, at, into;
    }
    SuffixStep(s, at);
    LiteralStep(s[at..]);
    Keep(json, s, at, into, whole, Minify(s[at + 1..]));
    at, into := at + 1, into + 1;
    ok := true;
  }

  /** cJSON_Minify: the text is replaced by its minified form, or the reader runs off an open literal
      or comment. */
  method MinifyInPlace(json: array<char>, ghost s: string) returns (ok: bool)
    requires CString(json, s) && NoNul(s)
    modifies json
    ensures ok == Minify(s).Clean?
    ensures ok ==> CString(json, Minify(s).text)
  {
    hide Minify, MinifyLiteral, SkipLine, SkipComment, Prepend, Unread, NoNul;
    CStringUnread(json, s);
    var at: nat, into: nat := 0, 0;
    assert s[0..] == s && json[..0] == "";
    PrependNothing(Minify(s));
    UnreadAt(json, s, at, into, at);
    while json[at] != NUL
      invariant into <= at <= |s| < json.Length && Unread(json, s, at, into)
      invariant (at < |s| ==> json[at] == s[at] != NUL) && (at == |s| ==> json[at] == NUL)
      invariant Minify(s) == Prepend(json[..into], Minify(s[at..]))
      decreases |s| - at
    {
      ghost var rest := s[at..];
      SuffixStep(s, at);
      MinifyStep(rest);
      UnreadAt(json, s, at, into, at + 1);
      if json[at] == ' ' || json[at] == '\t' || json[at] == '\r' || json[at] == '\n' {
        UnreadOn(json, s, at, into, at + 1);
        at := at + 1;
      } else if json[at] == '/' && json[at + 1] == '/' {
        at := PassLine(json, s, at, into);
      } else if json[at] == '/' && json[at + 1] == '*' {
        ok, at := PassComment(json, s, at, into);
        if !ok {
          Overrunning(json[..into], Minify(rest));
          return;
        }
      } else if json[at] == QUOTE {
        Keep(json, s, at, into, Minify(s), MinifyLiteral(rest[1..]));
        ghost var kept := json[..into + 1];
        ok, at, into := CopyLiteral(json, s, at + 1, into + 1);
        if !ok {
          Overrunning(kept, MinifyLiteral(rest[1..]));
          return;
        }
        UnreadWithin(json, s, at, into);
      } else {
        Keep(json, s, at, into, Minify(s), Minify(rest[1..]));
        at, into := at + 1, into + 1;
      }
      UnreadAt(json, s, at, into, at);
    }
    MinifyNothing(json[..into]);
    ghost var kept := json[..into];
    json[into] := NUL;
    assert json[..into] == kept;
    ok := true;
  }

  lemma UnreadOn(json: array<char>, s: string, at: nat, into: nat, k: nat)
    requires Unread(json, s, at, into) && at <= k <= |s|
    ensures Unread(json, s, k, into)
  {
    assert json[k..|s|] == json[at..|s|][k - at..];
  }

  lemma MinifyNothing(done: string)
    ensures Prepend(done, Minify("")) == Clean(done)
  {
    assert done + "" == done;
  }

  lemma CStringUnread(json: array<char>, s: string)
    requires CString(json, s)
    ensures Unread(json, s, 0, 0) && |s| < json.Length
  {
    assert json[0..|s|] == json[..|s|] && s[0..] == s;
  }
}
