/** The growable buffer of libcwmp/src/xmlet/buffer.c and the escaping of libcwmp/src/xmlet/xmlet.c.

    Memory may be refused: an answer says whether the first request is granted, and whether the smaller one
    that follows a refusal is. The escaping loop does not look at refusals, so the characters it asks for in
    vain are missing from its output, and the specification says which they are. */
module XmlBuffer {
  import opened Words

  const NUL: char := 0 as char
  const SIZE_INC: nat := 4096
  const XML_OK := 0
  const XML_INDEX_SIZE_ERR := 1
  const XML_INSUFFICIENT_MEMORY := 102

  // ----- predefined entities, section 4.6 of XML 1.0 ----------------------------------------------------

  /** The text printed for one character. */
  function Entity(c: char): (e: string)
    ensures e != [] && (e[0] == '&' <==> c in "<>&'\"") && (e[0] != '&' ==> e == [c])
  {
    match c
    case '<' => "&lt;"
    case '>' => "&gt;"
    case '&' => "&amp;"
    case '\'' => "&apos;"
    case '\"' => "&quot;"
    case _ => [c]
  }

  function Escape(s: string): string {
    if s == [] then [] else Entity(s[0]) + Escape(s[1..])
  }

  datatype Decoded = Malformed | Decoded(text: string)

  /** The character that the entity at the start of the text stands for; NUL when there is none. */
  function EntityAt(t: string): (c: char)
    ensures c != NUL ==> c in "<>&'\""
  {
    if "&lt;" <= t then '<'
    else if "&gt;" <= t then '>'
    else if "&amp;" <= t then '&'
    else if "&apos;" <= t then '\''
    else if "&quot;" <= t then '\"'
    else NUL
  }

  /** What a reader makes of character data: entities stand for their characters, and neither a bare
      ampersand nor a less-than sign may occur. */
  function Unescape(t: string): Decoded {
    if t == [] then Decoded([])
    else if t[0] == '<' then Malformed
    else if t[0] == '&' then
      var c := EntityAt(t);
      if c == NUL || |Entity(c)| > |t| then Malformed
      else
        match Unescape(t[|Entity(c)|..])
        case Decoded(text) => Decoded([c] + text)
        case Malformed => Malformed
    else
      match Unescape(t[1..])
      case Decoded(text) => Decoded([t[0]] + text)
      case Malformed => Malformed
  }

  /** No character that markup could begin or end with. */
  predicate NoRaw(t: string) {
    forall i :: 0 <= i < |t| ==> t[i] !in "<>'\""
  }

  lemma EntityAtEntity(c: char, rest: string)
    requires c in "<>&'\""
    ensures EntityAt(Entity(c) + rest) == c
  {
    var t := Entity(c) + rest;
    assert Entity(c) <= t && t[1] == Entity(c)[1] && t[2] == Entity(c)[2];
    PrefixAt("&lt;", t, 1);
    PrefixAt("&gt;", t, 1);
    PrefixAt("&amp;", t, 1);
    PrefixAt("&amp;", t, 2);
    PrefixAt("&apos;", t, 1);
    PrefixAt("&apos;", t, 2);
    PrefixAt("&quot;", t, 1);
  }

  lemma PrefixAt(a: string, t: string, i: nat)
    requires i < |a|
    ensures a <= t ==> t[i] == a[i]
  {
  }

  lemma EntityIs(t: string)
    requires EntityAt(t) != NUL
    ensures Entity(EntityAt(t)) <= t
  {
  }

  lemma UnescapeEntity(c: char, rest: string)
    ensures Unescape(Entity(c) + rest)
         == match Unescape(rest)
            case Decoded(text) => Decoded([c] + text)
            case Malformed => Malformed
  {
    hide EntityAt;
    var e := Entity(c);
    assert (e + rest)[|e|..] == rest;
    if c in "<>&'\"" {
      EntityAtEntity(c, rest);
    }
  }

  lemma {:induction false} UnescapeEscape(s: string)
    ensures Unescape(Escape(s)) == Decoded(s) && NoRaw(Escape(s))
  {
    hide Unescape, EntityAt, Entity;
    if s == [] {
      UnescapeNone();
    } else {
      UnescapeEscape(s[1..]);
      UnescapeEntity(s[0], Escape(s[1..]));
      EntityNoRaw(s[0]);
      assert s == [s[0]] + s[1..];
    }
  }

  lemma EntityNoRaw(c: char)
    ensures NoRaw(Entity(c))
  {
  }

  lemma UnescapeNone()
    ensures Unescape([]) == Decoded([])
  {
  }

  /** How much of a text its first character is read from. */
  function ReadLength(t: string): (k: nat)
    requires t != []
    ensures k > 0
  {
    if t[0] == '&' then |Entity(EntityAt(t))| else 1
  }

  lemma UnescapeFirst(t: string, s: string)
    requires t != [] && Unescape(t) == Decoded(s)
    ensures s != [] && ReadLength(t) <= |t| && Unescape(t[ReadLength(t)..]) == Decoded(s[1..])
    ensures t[0] in "<>'\"" || t[..ReadLength(t)] == Entity(s[0])
  {
    hide EntityAt, Entity, Unescape;
    UnescapeStep(t);
    if t[0] == '&' {
      EntityIs(t);
    }
  }

  lemma UnescapeStep(t: string)
    requires t != [] && Unescape(t).Decoded?
    ensures t[0] != '<' && (t[0] == '&' ==> EntityAt(t) != NUL)
    ensures var k := ReadLength(t);
            k <= |t| && Unescape(t[k..]).Decoded?
            && Unescape(t) == Decoded([if t[0] == '&' then EntityAt(t) else t[0]] + Unescape(t[k..]).text)
  {
    hide EntityAt, Entity;
  }

  /** The escaped texts are exactly those that read back and hold no raw markup character; each is the
      escape of what it reads as. */
  lemma {:induction false} EscapeExactly(t: string, s: string)
    ensures t == Escape(s) <==> Unescape(t) == Decoded(s) && NoRaw(t)
  {
    hide Unescape, EntityAt, Entity;
    UnescapeEscape(s);
    UnescapeNone();
    if Unescape(t) == Decoded(s) && NoRaw(t) && t != [] {
      UnescapeFirst(t, s);
      var k := ReadLength(t);
      assert forall i :: 0 <= i < |t| - k ==> t[k..][i] == t[k + i];
      EscapeExactly(t[k..], s[1..]);
      assert t == t[..k] + t[k..];
    }
  }

  /** The five predefined entities; every other character stands for itself. */
  lemma Predefined(c: char)
    ensures Escape("<") == "&lt;" && Escape(">") == "&gt;" && Escape("&") == "&amp;"
    ensures Escape("'") == "&apos;" && Escape("\"") == "&quot;"
    ensures c !in "<>&'\"" ==> Escape([c]) == [c]
  {
    hide Escape;
    EscapeOne('<');
    EscapeOne('>');
    EscapeOne('&');
    EscapeOne('\'');
    EscapeOne('\"');
    EscapeOne(c);
  }

  lemma EscapeOne(c: char)
    ensures Escape([c]) == Entity(c)
  {
    hide Entity;
    assert [c][1..] == [];
  }

  // ----- room -------------------------------------------------------------------------------------------

  /** What the pool answers to a first request for memory, and to the smaller one after a refusal. */
  datatype Answer = Answer(first: bool, second: bool)

  datatype Room = NoRoom | Room(capacity: nat)

  /** The capacity after asking for `need` bytes beside a NUL. */
  function Grow(length: nat, capacity: nat, need: nat, a: Answer): (r: Room)
    ensures r.Room? && length < need && (length < capacity || length == 0) ==> need < r.capacity
  {
    if need <= length || need < capacity then Room(capacity)
    else if length == 0 then
      if a.first then Room(need + 1) else NoRoom
    else if a.first then
      var diff := need - length + 1;
      Room((if SIZE_INC > diff then SIZE_INC else diff) + capacity)
    else if a.second then Room(need + 1)
    else NoRoom
  }

  /** More memory is asked for when the bytes and a NUL do not fit, and refused when every request is: of an empty
      buffer there is one, of another a second and smaller one. A buffer that is not empty grows by 4096 bytes, or by as
      many as are missing behind its contents when these are more. */
  lemma Grows(length: nat, capacity: nat, need: nat, a: Answer)
    requires length < capacity || length == capacity == 0
    ensures var r := Grow(length, capacity, need, a);
            && (r.NoRoom? <==> need >= capacity && need > length && !a.first && (length == 0 || !a.second))
            && (need < capacity || need == length ==> r == Room(capacity))
            && (need >= capacity && need > length > 0 && a.first ==>
                  r.capacity - capacity >= 4096 && r.capacity - capacity >= need - length + 1
                  && (r.capacity - capacity == 4096 || r.capacity - capacity == need - length + 1))
            && (need >= capacity && need > length && r.Room? && (length == 0 || !a.first) ==> r.capacity == need + 1)
  {
  }

  /** What a buffer holds, and its capacity. */
  datatype Text = Text(text: string, capacity: nat)

  /** Whether an append is carried out: the length is passed on as an int, which must not be negative. */
  predicate Took(b: Text, data: string, a: Answer) {
    ToInt(|b.text|) >= 0 && Grow(|b.text|, b.capacity, |b.text| + |data|, a).Room?
  }

  /** XmlBufferAppendString; from 2^32 bytes on the end is where the int points. */
  function Appended(b: Text, data: string, a: Answer): Text {
    if !Took(b, data, a) then b
    else
      var at := ToInt(|b.text|);
      Text(b.text[..at] + data + b.text[at..], Grow(|b.text|, b.capacity, |b.text| + |data|, a).capacity)
  }

  /** An append goes to the end of every buffer of less than 2^31 bytes that memory is granted to; every
      buffer of 2^31 bytes up to 2^32 refuses it. */
  lemma AppendsBehind(b: Text, data: string, a: Answer)
    requires |b.text| < UNSIGNED_INT
    ensures Took(b, data, a) ==> |b.text| < 0x8000_0000
    ensures a.first && |b.text| < 0x8000_0000 ==> Took(b, data, a)
    ensures Appended(b, data, a).text == if Took(b, data, a) then b.text + data else b.text
  {
    assert b.text[..|b.text|] + data + b.text[|b.text|..] == b.text + data;
  }

  /** The buffer after the escapes of all of `p`. */
  function Escaped(b: Text, p: string, answers: seq<Answer>): Text
    requires |answers| == |p|
    decreases |p|
  {
    if p == [] then b
    else
      var n := |p| - 1;
      Appended(Escaped(b, p[..n], answers[..n]), Entity(p[n]), answers[n])
  }

  /** The characters of `p` whose escapes get into the buffer: all but those refused. */
  function Kept(b: Text, p: string, answers: seq<Answer>): (kept: string)
    requires |answers| == |p|
    ensures |kept| <= |p|
    decreases |p|
  {
    if p == [] then []
    else
      var n := |p| - 1;
      Kept(b, p[..n], answers[..n]) + if Took(Escaped(b, p[..n], answers[..n]), Entity(p[n]), answers[n]) then [p[n]] else []
  }

  /** Escapes are appended one behind the other; none gets in once the buffer has 2^31 bytes. */
  lemma {:induction false} EscapedIsKept(b: Text, p: string, answers: seq<Answer>)
    requires |answers| == |p| && |b.text| < UNSIGNED_INT
    ensures Escaped(b, p, answers).text == b.text + Escape(Kept(b, p, answers))
    ensures |Escaped(b, p, answers).text| <= if |b.text| < 0x8000_0000 then 0x8000_0005 else |b.text|
    decreases |p|
  {
    hide Grow, Entity, Escape, Appended, Took, ToInt;
    EscapeNone();
    if p == [] {
      assert b.text + [] == b.text;
    } else {
      var n := |p| - 1;
      EscapedIsKept(b, p[..n], answers[..n]);
      EntityLength(p[n]);
      var before, kept := Escaped(b, p[..n], answers[..n]), Kept(b, p[..n], answers[..n]);
      AppendsBehind(before, Entity(p[n]), answers[n]);
      if Took(before, Entity(p[n]), answers[n]) {
        EscapeMore(kept, p[n], b.text);
      } else {
        assert kept + [] == kept;
      }
    }
  }

  /** A string may be escaped in two parts: what becomes of the first has no part in what is asked for the second, so
      that a refusal costs its own character and no other. */
  lemma {:induction false} EscapedInParts(b: Text, p: string, q: string, before: seq<Answer>, behind: seq<Answer>)
    requires |before| == |p| && |behind| == |q|
    ensures var middle := Escaped(b, p, before);
            && Escaped(b, p + q, before + behind) == Escaped(middle, q, behind)
            && Kept(b, p + q, before + behind) == Kept(b, p, before) + Kept(middle, q, behind)
    decreases |q|
  {
    hide Appended, Took, Entity;
    if q == [] {
      assert p + q == p && before + behind == before;
      assert Kept(b, p, before) + [] == Kept(b, p, before);
    } else {
      var n := |q| - 1;
      assert (p + q)[..|p| + n] == p + q[..n] && (before + behind)[..|p| + n] == before + behind[..n];
      assert (p + q)[|p| + n] == q[n] && (before + behind)[|p| + n] == behind[n];
      EscapedInParts(b, p, q[..n], before, behind[..n]);
    }
  }

  /** One character: its entity is appended, unless that is refused. */
  lemma EscapedOne(b: Text, c: char, a: Answer)
    ensures Escaped(b, [c], [a]) == Appended(b, Entity(c), a)
    ensures Kept(b, [c], [a]) == if Took(b, Entity(c), a) then [c] else []
  {
    hide Appended, Took, Entity;
    assert [c][..0] == [] && [a][..0] == [];
  }

  lemma EntityLength(c: char)
    ensures 1 <= |Entity(c)| <= 6
  {
  }

  /** With all memory granted nothing is dropped exactly when the buffer has less than 2^31 bytes before the
      last character. */
  lemma {:induction false} KeptAll(b: Text, p: string, answers: seq<Answer>)
    requires |answers| == |p| && |b.text| < UNSIGNED_INT && forall i :: 0 <= i < |answers| ==> answers[i].first
    ensures Kept(b, p, answers) == p <==> p == [] || |b.text| + |Escape(p[..|p| - 1])| < 0x8000_0000
    decreases |p|
  {
    hide Entity, Escape, Escaped, Appended, Took, Grow, ToInt;
    if p != [] {
      var n := |p| - 1;
      var q, kept := p[..n], Kept(b, p[..n], answers[..n]);
      KeptAll(b, q, answers[..n]);
      EscapedIsKept(b, q, answers[..n]);
      AppendsBehind(Escaped(b, q, answers[..n]), Entity(p[n]), answers[n]);
      assert p == q + [p[n]];
      if q != [] {
        assert q == q[..n - 1] + [q[n - 1]];
        EscapeJoins(q[..n - 1], q[n - 1]);
      } else {
        EscapeNone();
      }
      if kept == q {
        EntityLength(if q == [] then p[n] else q[n - 1]);
      } else {
        assert |Kept(b, p, answers)| == |p| ==> Kept(b, p, answers)[..n] == kept;
      }
    }
  }

  /** How much of a string of so many characters the loop sees, whose bound is an int. */
  function Seen(n: nat): (k: nat)
    ensures k <= n && (k == n <==> n < 0x8000_0000)
  {
    if ToInt(n) < 0 then 0 else ToInt(n)
  }

  // ----- the buffer -------------------------------------------------------------------------------------

  class Buffer {
    var buf: array?<char>
    var length: nat
    var capacity: nat

    ghost predicate Shape()
      reads this
    {
      && (buf == null ==> length == 0 && capacity == 0)
      && (buf != null ==> buf.Length == capacity && length < capacity)
    }

    ghost predicate Valid()
      reads this, buf
    {
      Shape() && (buf != null ==> buf[length] == NUL)
    }

    ghost function Contents(): string
      reads this, buf
    {
      if buf == null || length > buf.Length then [] else buf[..length]
    }

    /** XmlBufferInit */
    constructor ()
      ensures Valid() && Contents() == [] && buf == null
    {
      buf, length, capacity := null, 0, 0;
    }

    /** XmlBufferSetSize: the contents stay, with room for `need` bytes and a NUL or an error. */
    method SetSize(need: nat, a: Answer) returns (code: int)
      requires Shape()
      modifies this`buf, this`capacity
      ensures Shape() && Contents() == old(Contents()) && (buf == old(buf) || fresh(buf))
      ensures match Grow(length, old(capacity), need, a)
              case Room(c) => code == XML_OK && capacity == c
              case NoRoom => code == XML_INSUFFICIENT_MEMORY && buf == old(buf) && capacity == old(capacity)
    {
      if need <= length || need < capacity {
        return XML_OK;
      }
      if length == 0 {
        if !a.first {
          return XML_INSUFFICIENT_MEMORY;
        }
        buf := new char[need + 1];
        capacity := need + 1;
        return XML_OK;
      }
      var diff := need - length + 1;
      var size := (if SIZE_INC > diff then SIZE_INC else diff) + capacity;
      if !a.first {
        size := need + 1;
        if !a.second {
          return XML_INSUFFICIENT_MEMORY;
        }
      }
      buf := Realloc(buf, length, size);
      capacity := size;
      return XML_OK;
    }

    /** XmlBufferInsert: an insertion into the sequence, or nothing at all. */
    method Insert(data: string, index: int, a: Answer) returns (code: int)
      requires Valid()
      modifies this, buf
      ensures Valid() && (buf == old(buf) || fresh(buf))
      ensures var room := Grow(old(length), old(capacity), old(length) + |data|, a);
              if index < 0 || index > ToInt(old(length)) then code == XML_INDEX_SIZE_ERR && Contents() == old(Contents()) && capacity == old(capacity)
              else if data == [] then code == XML_OK && Contents() == old(Contents()) && capacity == old(capacity)
              else if room.NoRoom? then code == XML_INSUFFICIENT_MEMORY && Contents() == old(Contents()) && capacity == old(capacity)
              else code == XML_OK && capacity == room.capacity
                   && Contents() == old(Contents())[..index] + data + old(Contents())[index..]
    {
      hide Grow;
      if index < 0 || index > ToInt(length) {
        return XML_INDEX_SIZE_ERR;
      }
      if data == [] {
        return XML_OK;
      }
      code := SetSize(length + |data|, a);
      if code != XML_OK {
        return code;
      }
      Place(index, data);
    }

    method Place(index: nat, data: string)
      requires Shape() && buf != null && index <= length && length + |data| < capacity
      modifies this`length, buf
      ensures Valid() && length == old(length) + |data|
      ensures Contents() == old(Contents())[..index] + data + old(Contents())[index..]
    {
      assert Contents()[..index] == buf[..index] && Contents()[index..] == buf[index..length];
      Open(buf, length, index, data);
      length := length + |data|;
      buf[length] := NUL;
    }

    ghost function AsText(): Text
      reads this, buf
    {
      Text(Contents(), capacity)
    }

    /** XmlBufferAppend and XmlBufferAppendString, which insert at the length as an int. */
    method Append(data: string, a: Answer) returns (code: int)
      requires Valid() && data != []
      modifies this, buf
      ensures Valid() && (buf == old(buf) || fresh(buf)) && AsText() == Appended(old(AsText()), data, a)
      ensures length == |Contents()| && (code == XML_OK <==> Took(old(AsText()), data, a))
      ensures ToInt(old(length)) < 0 ==> code == XML_INDEX_SIZE_ERR
    {
      hide Grow;
      assert |Contents()| == length;
      code := Insert(data, ToInt(length), a);
      assert |Contents()| == length;
    }

    /** One turn of the loop of XmlCopyWithEscape. */
    method CopyOne(c: char, a: Answer)
      requires Valid()
      modifies this, buf
      ensures Valid() && (buf == old(buf) || fresh(buf)) && AsText() == Appended(old(AsText()), Entity(c), a)
    {
      hide Grow, Valid, Appended;
      var text := [c];
      match c {
        case '<' => text := "&lt;";
        case '>' => text := "&gt;";
        case '&' => text := "&amp;";
        case '\'' => text := "&apos;";
        case '\"' => text := "&quot;";
        case _ =>
      }
      assert text == Entity(c);
      var code := Append(text, a);
    }

    /** XmlCopyWithEscape: the escapes of the characters that the loop sees; a refusal is passed over. */
    method CopyWithEscape(p: string, answers: seq<Answer>)
      requires Valid() && |answers| == |p|
      modifies this, buf
      ensures Valid() && AsText() == Escaped(old(AsText()), p[..Seen(|p|)], answers[..Seen(|p|)])
      ensures |old(Contents())| < UNSIGNED_INT ==>
                Contents() == old(Contents()) + Escape(Kept(old(AsText()), p[..Seen(|p|)], answers[..Seen(|p|)]))
    {
      hide Valid, Appended, Escape, Entity, Kept;
      var plen, i := ToInt(|p|), 0;
      while i < plen
        invariant i <= Seen(|p|) && Valid() && (buf == old(buf) || fresh(buf))
        invariant AsText() == Escaped(old(AsText()), p[..i], answers[..i])
      {
        CopyOne(p[i], answers[i]);
        assert p[..i + 1][..i] == p[..i] && answers[..i + 1][..i] == answers[..i];
        i := i + 1;
      }
      if |old(Contents())| < UNSIGNED_INT {
        EscapedIsKept(old(AsText()), p[..i], answers[..i]);
      }
    }
  }

  lemma EscapeNone()
    ensures Escape([]) == []
  {
  }

  lemma {:induction false} EscapeMore(done: string, c: char, before: string)
    ensures before + Escape(done + [c]) == before + Escape(done) + Entity(c)
  {
    EscapeJoins(done, c);
    Associates(before, Escape(done), Entity(c));
  }

  lemma {:induction false} EscapeJoins(done: string, c: char)
    ensures Escape(done + [c]) == Escape(done) + Entity(c)
  {
    if done == [] {
      assert done + [c] == [c] && Escape([c][1..]) == [];
    } else {
      EscapeJoins(done[1..], c);
      assert (done + [c])[1..] == done[1..] + [c];
      Associates(Entity(done[0]), Escape(done[1..]), Entity(c));
    }
  }

  lemma Associates(a: string, b: string, c: string)
    ensures a + (b + c) == a + b + c
  {
  }

  // ----- moving bytes -------------------------------------------------------------------------------------

  /** PREALLOC: new memory, cleared, with the first `length` bytes of the old. */
  method Realloc(b: array<char>, length: nat, size: nat) returns (r: array<char>)
    requires length <= b.Length && length <= size
    ensures fresh(r) && r.Length == size && r[..length] == b[..length] && forall i :: length <= i < size ==> r[i] == NUL
  {
    r := new char[size](_ => NUL);
    var i := 0;
    while i < length
      invariant i <= length && r[..i] == b[..i] && forall j :: length <= j < size ==> r[j] == NUL
    {
      r[i] := b[i];
      i := i + 1;
    }
  }

  /** memmove of what follows the insertion point, and memcpy of the new bytes. */
  method Open(b: array<char>, length: nat, index: nat, data: string)
    requires index <= length && length + |data| <= b.Length
    modifies b
    ensures b[..length + |data|] == old(b[..index]) + data + old(b[index..length])
  {
    MoveUp(b, length, index, |data|);
    ghost var moved := b[index + |data|..length + |data|];
    var i := 0;
    while i < |data|
      invariant i <= |data| && b[..index] == old(b[..index]) && b[index..index + i] == data[..i]
      invariant b[index + |data|..length + |data|] == moved
    {
      b[index + i] := data[i];
      i := i + 1;
    }
    assert data[..|data|] == data;
    assert b[..length + |data|] == b[..index] + b[index..index + |data|] + b[index + |data|..length + |data|];
  }

  method MoveUp(b: array<char>, length: nat, index: nat, n: nat)
    requires index <= length && length + n <= b.Length
    modifies b
    ensures b[..index] == old(b[..index]) && b[index + n..length + n] == old(b[index..length])
  {
    ghost var was := b[..];
    var i := length;
    while i > index
      invariant index <= i <= length && b[..i] == was[..i] && b[i + n..length + n] == was[i..length]
    {
      i := i - 1;
      ghost var moved := b[i + 1 + n..length + n];
      b[i + n] := b[i];
      assert b[i + n..length + n] == [was[i]] + moved;
    }
  }
}
