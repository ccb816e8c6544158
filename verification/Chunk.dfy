/** The chunk of libcwmp/src/buffer.c: a chain of fixed-size buffers that is written piece by piece and
    copied out as one string.

    The buffers up to the current one are in use; what they hold, one after the other, is the contents. A
    buffer linked behind the current one is left over and is emptied before it is used. Copying out goes
    through strncpy, which stops at a NUL and fills up with NULs. */
module Chunk {
  import opened Words

  const BUFFER_SIZE := 1024
  const CWMP_ERROR := -1
  const NUL: char := 0 as char

  function Min(a: nat, b: nat): nat {
    if a <= b then a else b
  }

  // ----- pieces of a byte string ----------------------------------------------------------------------

  function Flat(pieces: seq<string>): string {
    if pieces == [] then [] else pieces[0] + Flat(pieces[1..])
  }

  lemma {:induction false} FlatJoins(pieces: seq<string>, more: seq<string>)
    ensures Flat(pieces + more) == Flat(pieces) + Flat(more)
  {
    if pieces == [] {
      assert pieces + more == more;
    } else {
      assert (pieces + more)[1..] == pieces[1..] + more;
      FlatJoins(pieces[1..], more);
    }
  }

  lemma FlatOne(piece: string)
    ensures Flat([piece]) == piece
  {
  }

  function Zeros(n: nat): (z: string)
    ensures |z| == n && forall i :: 0 <= i < n ==> z[i] == NUL
  {
    seq(n, _ => NUL)
  }

  /** The |s| characters that strncpy writes: those before the first NUL, and NULs from there on. */
  function Strncpy(s: string): (r: string)
    ensures |r| == |s|
  {
    if s == [] then [] else if s[0] == NUL then Zeros(|s|) else [s[0]] + Strncpy(s[1..])
  }

  /** Nothing but NULs follows the first NUL. */
  predicate Clean(s: string) {
    forall i, j :: 0 <= i < j < |s| && s[i] == NUL ==> s[j] == NUL
  }

  lemma {:induction false} StrncpyIs(s: string)
    ensures Strncpy(s) == s <==> Clean(s)
  {
    if s != [] {
      var rest := s[1..];
      StrncpyIs(rest);
      assert s == [s[0]] + rest;
      if s[0] == NUL {
        assert Clean(s) ==> s == Zeros(|s|);
      } else {
        CleanTail(s);
      }
    }
  }

  lemma CleanTail(s: string)
    requires s != [] && s[0] != NUL
    ensures Clean(s) <==> Clean(s[1..])
  {
    var rest := s[1..];
    assert forall i :: 0 <= i < |rest| ==> rest[i] == s[i + 1];
    if Clean(rest) {
      forall i, j | 0 <= i < j < |s| && s[i] == NUL ensures s[j] == NUL {
        assert rest[i - 1] == NUL && rest[j - 1] == s[j];
      }
    }
  }

  /** What is copied of the pieces into `max` characters, one strncpy a piece. */
  function Copied(pieces: seq<string>, max: nat): (r: string) {
    if pieces == [] then []
    else
      var k := Min(|pieces[0]|, max);
      Strncpy(pieces[0][..k]) + Copied(pieces[1..], max - k)
  }

  /** Every part that is copied is clean. */
  predicate AllClean(pieces: seq<string>, max: nat) {
    pieces == [] || (
      var k := Min(|pieces[0]|, max);
      Clean(pieces[0][..k]) && AllClean(pieces[1..], max - k))
  }

  /** The copy is the beginning of the string exactly when no copied part of a buffer goes on behind a NUL. */
  lemma {:induction false} CopiedIsPrefix(pieces: seq<string>, max: nat)
    ensures |Copied(pieces, max)| == Min(|Flat(pieces)|, max)
    ensures Copied(pieces, max) == Flat(pieces)[..Min(|Flat(pieces)|, max)] <==> AllClean(pieces, max)
  {
    if pieces != [] {
      var k := Min(|pieces[0]|, max);
      var rest := Flat(pieces[1..]);
      var m := Min(|rest|, max - k);
      CopiedIsPrefix(pieces[1..], max - k);
      StrncpyIs(pieces[0][..k]);
      assert Flat(pieces)[..Min(|Flat(pieces)|, max)] == pieces[0][..k] + rest[..m];
      SamePair(Strncpy(pieces[0][..k]), Copied(pieces[1..], max - k), pieces[0][..k], rest[..m]);
    }
  }

  lemma SamePair(a: string, b: string, c: string, d: string)
    requires |a| == |c| && |b| == |d|
    ensures a + b == c + d <==> a == c && b == d
  {
    if a + b == c + d {
      assert (a + b)[..|a|] == a && (c + d)[..|a|] == c;
      assert (a + b)[|a|..] == b && (c + d)[|a|..] == d;
    }
  }

  lemma {:induction false} NulFreeIsClean(pieces: seq<string>, max: nat)
    requires NUL !in Flat(pieces)
    ensures AllClean(pieces, max)
  {
    if pieces != [] {
      var k := Min(|pieces[0]|, max);
      assert forall i :: 0 <= i < k ==> Flat(pieces)[i] == pieces[0][i];
      forall c | c in Flat(pieces[1..]) ensures c != NUL {
        assert c in Flat(pieces);
      }
      NulFreeIsClean(pieces[1..], max - k);
    }
  }

  lemma {:induction false} NothingMore(pieces: seq<string>)
    ensures Copied(pieces, 0) == []
  {
    if pieces != [] {
      NothingMore(pieces[1..]);
    }
  }

  // ----- one buffer -----------------------------------------------------------------------------------

  class Buffer {
    const store: array<char>
    var writed: nat
    var readed: nat
    /** The offset pointer, as its distance from the start of the store. */
    var offset: nat
    var next: Buffer?

    ghost predicate Valid()
      reads this
    {
      store.Length == BUFFER_SIZE + 1 && writed <= BUFFER_SIZE && offset == writed && readed == 0
    }

    ghost function Data(): string
      reads this, store
    {
      if writed <= store.Length then store[..writed] else []
    }

    /** cwmp_buffer_create */
    constructor ()
      ensures Valid() && Data() == [] && next == null && fresh(store)
    {
      store := new char[BUFFER_SIZE + 1];
      writed, readed, offset, next := 0, 0, 0, null;
      new;
      store[0] := NUL;
    }

    /** cwmp_buffer_clear */
    method Clear()
      requires store.Length == BUFFER_SIZE + 1
      modifies this, store
      ensures Valid() && Data() == [] && next == null
    {
      writed, readed, offset, next := 0, 0, 0, null;
      store[0] := NUL;
    }

    /** cwmp_buffer_write_bytes: all of the bytes, or none when they do not fit. */
    method WriteBytes(val: string)
      requires Valid()
      modifies this`writed, this`offset, store
      ensures Valid()
      ensures Data() == old(Data()) + if |val| <= BUFFER_SIZE - old(writed) then val else []
    {
      if |val| > BUFFER_SIZE - writed {
        return;
      }
      ghost var was := Data();
      var i := 0;
      while i < |val|
        invariant i <= |val| && store[..offset] == was && store[offset..offset + i] == val[..i]
        modifies store
      {
        store[offset + i] := val[i];
        i := i + 1;
      }
      assert store[..offset + |val|] == store[..offset] + store[offset..offset + |val|];
      assert val[..|val|] == val;
      offset := offset + |val|;
      writed := writed + |val|;
    }
  }

  ghost function Pieces(chain: seq<Buffer>): (s: seq<string>)
    reads chain, set b | b in chain :: b.store
    ensures |s| == |chain| && forall i :: 0 <= i < |s| ==> s[i] == chain[i].Data()
  {
    if chain == [] then [] else Pieces(chain[..|chain| - 1]) + [chain[|chain| - 1].Data()]
  }

  function BufferAt(chain: seq<Buffer>, i: nat): Buffer? {
    if i < |chain| then chain[i] else null
  }

  ghost predicate Apart(chain: seq<Buffer>)
    reads chain
  {
    && (forall i :: 0 <= i < |chain| ==> chain[i].Valid())
    && (forall i, j :: 0 <= i < j < |chain| ==> chain[i] != chain[j] && chain[i].store != chain[j].store)
  }

  /** Each buffer leads to the next, and the last to `end`. */
  ghost predicate LeadsTo(chain: seq<Buffer>, end: Buffer?)
    reads chain
  {
    forall i :: 0 <= i < |chain| ==> chain[i].next == if i + 1 < |chain| then chain[i + 1] else end
  }

  ghost predicate Linked(chain: seq<Buffer>)
    reads chain
  {
    Apart(chain) && LeadsTo(chain, null)
  }

  lemma PieceIs(chain: seq<Buffer>, i: nat)
    requires Linked(chain) && i < |chain|
    ensures chain[i].Valid() && |Pieces(chain)[i]| == chain[i].writed && chain[i].next == BufferAt(chain, i + 1)
    ensures chain[i].store[..chain[i].writed] == Pieces(chain)[i]
  {
    LeadsAt(chain, null, i);
  }

  // ----- one buffer of a chain changes ------------------------------------------------------------------

  method PutIn(b: Buffer, part: string, ghost chain: seq<Buffer>, ghost i: nat)
    requires Linked(chain) && i < |chain| && b == chain[i] && |part| <= BUFFER_SIZE - b.writed
    modifies b`writed, b`offset, b.store
    ensures Linked(chain) && Pieces(chain) == old(Pieces(chain))[i := old(Pieces(chain)[i]) + part]
    ensures b.writed == old(b.writed) + |part|
  {
    b.WriteBytes(part);
    forall j | 0 <= j < |chain| && j != i ensures chain[j].Data() == old(chain[j].Data()) {
      assert chain[j] != b && chain[j].store != b.store;
    }
  }

  /** Clearing a buffer ends the chain there. */
  method ClearIn(b: Buffer, ghost chain: seq<Buffer>, ghost i: nat)
    requires Linked(chain) && i < |chain| && b == chain[i]
    modifies b, b.store
    ensures Linked(chain[..i + 1]) && Pieces(chain[..i + 1]) == old(Pieces(chain))[..i] + [[]]
    ensures b.writed == 0
  {
    b.Clear();
    forall j | 0 <= j < i ensures chain[j].Data() == old(chain[j].Data()) {
      assert chain[j] != b && chain[j].store != b.store;
    }
  }

  lemma PiecesMore(chain: seq<Buffer>, b: Buffer)
    ensures Pieces(chain + [b]) == Pieces(chain) + [b.Data()]
  {
    assert (chain + [b])[..|chain|] == chain;
  }

  method LinkIn(p: Buffer, b: Buffer, ghost chain: seq<Buffer>)
    requires Linked(chain) && b !in chain && b.Valid() && b.next == null && chain != [] && p == chain[|chain| - 1]
    requires forall c :: c in chain ==> c.store != b.store
    modifies p`next
    ensures Linked(chain + [b]) && Pieces(chain + [b]) == old(Pieces(chain)) + [b.Data()]
  {
    hide Pieces;
    p.next := b;
    assert LeadsTo(chain, b);
    assert Apart(chain);
    assert forall j :: 0 <= j < |chain| ==> chain[j].Data() == old(chain[j].Data());
    assert Pieces(chain) == old(Pieces(chain));
    LinkedMore(chain, b);
    PiecesMore(chain, b);
  }

  lemma LinkedMore(chain: seq<Buffer>, b: Buffer)
    requires Apart(chain) && LeadsTo(chain, b) && b !in chain && b.Valid() && b.next == null
    requires forall c :: c in chain ==> c.store != b.store
    ensures Linked(chain + [b])
  {
    var more := chain + [b];
    assert Apart(more);
    forall i | 0 <= i < |more| ensures more[i].next == if i + 1 < |more| then more[i + 1] else null {
      if i < |chain| {
        LeadsAt(chain, b, i);
        assert more[i] == chain[i];
        assert i + 1 < |chain| ==> more[i + 1] == chain[i + 1];
      } else {
        assert more[i] == b;
      }
    }
  }

  lemma LeadsAt(chain: seq<Buffer>, end: Buffer?, i: nat)
    requires LeadsTo(chain, end) && i < |chain|
    ensures chain[i].next == if i + 1 < |chain| then chain[i + 1] else end
  {
  }

  lemma OneBuffer(b: Buffer)
    requires b.Valid() && b.next == null
    ensures Linked([b]) && Pieces([b]) == [b.Data()] && Pieces([]) == [] && [] + [b] == [b]
  {
  }

  /** A new buffer behind the last, if there is one. */
  method NewIn(p: Buffer?, ghost chain: seq<Buffer>) returns (b: Buffer)
    requires Linked(chain) && p == (if chain == [] then null else chain[|chain| - 1])
    modifies p
    ensures fresh(b) && fresh(b.store) && b.writed == 0
    ensures Linked(chain + [b]) && Pieces(chain + [b]) == old(Pieces(chain)) + [[]]
  {
    hide Linked, Pieces;
    b := new Buffer();
    if p == null {
      OneBuffer(b);
    } else {
      LinkIn(p, b, chain);
    }
  }

  ghost predicate Covers(repr: set<object>, chain: seq<Buffer>) {
    forall b :: b in chain ==> b in repr && b.store in repr
  }

  lemma CoversPart(repr: set<object>, chain: seq<Buffer>, k: nat)
    requires Covers(repr, chain) && k <= |chain|
    ensures Covers(repr, chain[..k])
  {
  }

  lemma CoversMore(repr: set<object>, chain: seq<Buffer>, b: Buffer)
    requires Covers(repr, chain)
    ensures Covers(repr + {b, b.store}, chain + [b])
  {
  }

  // ----- the chunk --------------------------------------------------------------------------------------

  class Rope {
    var buffer: Buffer?
    var current: Buffer?
    var bytes: nat
    /** The buffers in the order of their links, what they hold, and how many of them are in use. */
    ghost var chain: seq<Buffer>
    ghost var text: seq<string>
    ghost var used: nat
    ghost var repr: set<object>

    ghost predicate Valid()
      reads this, repr
    {
      && this !in repr && Covers(repr, chain)
      && used <= |chain| && (used == 0 ==> chain == []) && Linked(chain)
      && buffer == BufferAt(chain, 0) && current == (if used == 0 then null else chain[used - 1])
      && text == Pieces(chain) && bytes == |Contents()|
    }

    /** Everything written since the chunk was created or cleared. */
    ghost function Contents(): string
      reads this
    {
      Flat(text[..Min(used, |text|)])
    }

    /** cwmp_chunk_create */
    constructor ()
      ensures Valid() && Contents() == [] && chain == []
    {
      buffer, current, bytes, chain, text, used, repr := null, null, 0, [], [], 0, {};
    }

    /** cwmp_chunk_clear and cwmp_chunk_init: the buffers are forgotten. */
    method Clear()
      modifies this
      ensures Valid() && Contents() == [] && chain == []
    {
      buffer, current, bytes, chain, text, used, repr := null, null, 0, [], [], 0, {};
    }

    /** cwmp_chunk_length */
    method Length() returns (n: nat)
      requires Valid()
      ensures n == |Contents()|
    {
      n := bytes;
    }

    /** cwmp_buffer_remain of the current buffer, zero when there is none. */
    function Remain(): nat
      reads this, current
    {
      if current == null || current.writed > BUFFER_SIZE then 0 else BUFFER_SIZE - current.writed
    }

    /** What can still be written when the pool has `room` buffers left. */
    ghost function Space(room: nat): nat
      reads this, current
    {
      Remain() + (if used < |chain| then BUFFER_SIZE else 0) + BUFFER_SIZE * room
    }

    lemma Facts()
      requires Valid()
      ensures used <= |chain| == |text| && (used == 0 ==> chain == []) && Linked(chain) && text == Pieces(chain)
      ensures buffer == BufferAt(chain, 0) && current == (if used == 0 then null else chain[used - 1]) && bytes == |Contents()|
      ensures current != null ==> current.Valid() && current.next == BufferAt(chain, used) && current in chain
      ensures current != null ==> current.next != null ==> current.next in chain && current.next in repr && current.next.store in repr
      ensures Covers(repr, chain) && this !in repr && (current != null ==> current in repr && current.store in repr)
    {
    }

    lemma Build()
      requires this !in repr && Covers(repr, chain) && used <= |chain| && (used == 0 ==> chain == []) && Linked(chain)
      requires buffer == BufferAt(chain, 0) && current == (if used == 0 then null else chain[used - 1])
      requires text == Pieces(chain) && bytes == |Contents()|
      ensures Valid()
    {
      hide Linked, Pieces, Flat, Covers;
    }

    /** The buffer behind the current one is emptied and used again; what was linked behind it is dropped.
        No chunk comes to this that is created, cleared and written to only: its buffers are all in use. */
    method Reuse()
      requires Valid() && current != null && current.next != null
      modifies this`current, this`chain, this`text, this`used, current.next, current.next.store
      ensures Valid() && Contents() == old(Contents()) && current != null && current.writed == 0
      ensures used == |chain|
    {
      hide Valid, Linked, Pieces, Flat, Covers;
      Facts();
      CoversPart(repr, chain, used + 1);
      current := current.next;
      ClearIn(current, chain, used);
      text := text[..used] + [[]];
      used := used + 1;
      chain := chain[..used];
      EmptyMore(old(text[..used]));
      assert text[..used] == text;
      Build();
    }

    /** A new buffer behind the current one, which is the last. */
    method Extend()
      requires Valid() && used == |chain|
      modifies this`buffer, this`current, this`chain, this`text, this`used, this`repr, current
      ensures Valid() && Contents() == old(Contents()) && current != null && current.writed == 0
      ensures fresh(repr - old(repr)) && used == |chain|
    {
      hide Valid, Linked, Pieces, Flat, Covers;
      Facts();
      assert text[..used] == text;
      var b := NewIn(current, chain);
      if current == null {
        buffer := b;
      }
      current := b;
      CoversMore(repr, chain, b);
      chain := chain + [b];
      repr := repr + {b, b.store};
      used := used + 1;
      text := text + [[]];
      EmptyMore(old(text));
      assert text[..used] == text;
      Build();
    }

    /** Room for at least one byte, or nothing when the pool has no buffer left. */
    method MakeRoom(room: nat) returns (ok: bool, left: nat)
      requires Valid() && Remain() == 0
      modifies this, repr
      ensures Valid() && Contents() == old(Contents())
      ensures ok ==> current != null && Remain() == BUFFER_SIZE && Space(left) == old(Space(room))
      ensures !ok ==> old(Space(room)) == 0
      ensures fresh(repr - old(repr)) && (old(used == |chain|) ==> used == |chain|)
    {
      hide Linked, Pieces, Flat, Covers;
      Facts();
      left := room;
      if current != null && current.next != null {
        Reuse();
        return true, left;
      }
      if room == 0 {
        return false, left;
      }
      Extend();
      return true, left - 1;
    }

    /** Bytes that fit go behind the others. */
    method Put(part: string)
      requires Valid() && current != null && |part| <= Remain()
      modifies this`bytes, this`text, current`writed, current`offset, current.store
      ensures Valid() && Contents() == old(Contents()) + part && Remain() == old(Remain()) - |part|
    {
      hide Valid, Linked, Pieces, Flat, Covers;
      Facts();
      PutIn(current, part, chain, used - 1);
      bytes := bytes + |part|;
      LastMore(text, used, part);
      text := text[used - 1 := text[used - 1] + part];
      Build();
    }

    /** cwmp_chunk_write_string with a pool that has `room` buffers left: what fits is appended, and it is an
        error when that is not all. The number of bytes comes back as an int. */
    method WriteString(str: string, room: nat) returns (ret: int)
      requires Valid()
      modifies this, repr
      ensures Valid() && fresh(repr - old(repr)) && (old(used == |chain|) ==> used == |chain|)
      ensures var k := Min(|str|, old(Space(room)));
              Contents() == old(Contents()) + str[..k] && ret == if k == |str| then ToInt(|str|) else CWMP_ERROR
    {
      hide Valid, Linked, Pieces, Flat, Covers;
      var writed, left := 0, room;
      while writed < |str|
        invariant writed <= |str| && Valid() && Contents() == old(Contents()) + str[..writed]
        invariant writed + Space(left) == old(Space(room))
        invariant fresh(repr - old(repr)) && (old(used == |chain|) ==> used == |chain|)
      {
        if Remain() == 0 {
          var ok;
          ok, left := MakeRoom(left);
          if !ok {
            return CWMP_ERROR;
          }
        }
        var n := Min(|str| - writed, Remain());
        Facts();
        Put(str[writed..writed + n]);
        Further(old(Contents()), str, writed, n);
        writed := writed + n;
      }
      return ToInt(writed);
    }

    /** cwmp_chunk_copy: at most `max` bytes and a NUL. The number of bytes comes back as an int. */
    method CopyTo(dest: array<char>, max: nat) returns (ret: int, ghost n: nat)
      requires Valid() && dest !in repr && Min(bytes, max) < dest.Length
      modifies dest
      ensures Valid() && Contents() == old(Contents())
      ensures n == Min(|Contents()|, max) && dest[n] == NUL && ret == ToInt(n)
      ensures dest[..n] == Copied(text[..Min(used, |text|)], max)
      ensures NUL !in Contents() ==> dest[..n] == Contents()[..n]
      ensures dest[n + 1..] == old(dest[n + 1..])
    {
      hide Linked, Pieces, Flat, AllClean;
      Facts();
      ghost var pieces := text[..used];
      CopiedIsPrefix(pieces, max);
      if NUL !in Contents() {
        NulFreeIsClean(pieces, max);
      }
      var count := CopyLoop(dest, max, pieces);
      dest[count] := NUL;
      ret, n := ToInt(count), count;
    }

    method CopyLoop(dest: array<char>, max: nat, ghost pieces: seq<string>) returns (n: nat)
      requires Valid() && dest !in repr && Min(bytes, max) < dest.Length && pieces == text[..Min(used, |text|)]
      modifies dest
      ensures n == Min(bytes, max) && dest[..n] == Copied(pieces, max) && dest[n..] == old(dest[n..])
    {
      hide Linked, Pieces, Flat, Copied, Strncpy, CopyAt;
      Facts();
      CopyStart(pieces, max);
      var left: nat, p := bytes, buffer;
      n := 0;
      ghost var i := 0;
      while n <= max && left > 0 && p != null
        invariant i <= |chain| && p == BufferAt(chain, i) && n <= max && n < dest.Length
        invariant CopyAt(pieces, max, dest[..n], i, left) && n + left == bytes
        invariant dest[n..] == old(dest[n..])
        invariant Pieces(chain) == text && Linked(chain)
        decreases |chain| - i
        modifies dest
      {
        PieceIs(chain, i);
        var k := CopyBuffer(dest, n, p, left, max, pieces, i, text[i]);
        n := n + k;
        left := left - k;
        p := p.next;
        i := i + 1;
      }
      CopyEnd(pieces, max, dest[..n], i, left);
    }
  }

  // ----- the copy, piece by piece -------------------------------------------------------------------------

  /** Where the copy stands at buffer `i`: full, or with all before it copied and `left` characters to come. */
  ghost predicate CopyAt(pieces: seq<string>, max: nat, out: string, i: nat, left: nat) {
    && |out| <= max
    && if |out| == max then out == Copied(pieces, max)
       else i <= |pieces| && left == |Flat(pieces[i..])| && out + Copied(pieces[i..], max - |out|) == Copied(pieces, max)
  }

  lemma CopyStart(pieces: seq<string>, max: nat)
    ensures CopyAt(pieces, max, [], 0, |Flat(pieces)|)
  {
    CopiedIsPrefix(pieces, max);
    assert pieces[0..] == pieces;
  }

  lemma CopyStep(pieces: seq<string>, max: nat, out: string, i: nat, left: nat, src: string, k: nat)
    requires CopyAt(pieces, max, out, i, left) && left > 0 && (i < |pieces| ==> src == pieces[i])
    requires k == Min(Min(left, |src|), max - |out|)
    ensures CopyAt(pieces, max, out + Strncpy(src[..k]), i + 1, left - k)
  {
    if |out| < max {
      var rest := pieces[i..];
      assert rest != [] && rest[1..] == pieces[i + 1..];
      var more := Copied(rest[1..], max - |out| - k);
      assert out + (Strncpy(src[..k]) + more) == out + Strncpy(src[..k]) + more;
      NothingMore(rest[1..]);
    }
  }

  lemma CopyEnd(pieces: seq<string>, max: nat, out: string, i: nat, left: nat)
    requires CopyAt(pieces, max, out, i, left) && (left == 0 || i >= |pieces|)
    ensures out == Copied(pieces, max) && |out| == Min(|Flat(pieces)|, max)
  {
    CopiedIsPrefix(pieces, max);
    if |out| < max {
      CopiedIsPrefix(pieces[i..], max - |out|);
    }
  }

  lemma EmptyMore(pieces: seq<string>)
    ensures Flat(pieces + [[]]) == Flat(pieces)
  {
    FlatJoins(pieces, [[]]);
    FlatOne([]);
  }

  lemma LastMore(text: seq<string>, used: nat, part: string)
    requires 0 < used <= |text|
    ensures Flat(text[used - 1 := text[used - 1] + part][..used]) == Flat(text[..used]) + part
  {
    hide Flat;
    var front, last := text[..used - 1], text[used - 1];
    assert text[..used] == front + [last];
    assert text[used - 1 := last + part][..used] == front + [last + part];
    FlatJoins(front, [last + part]);
    FlatJoins(front, [last]);
    FlatOne(last + part);
    FlatOne(last);
    Associates(Flat(front), last, part);
  }

  lemma Associates(a: string, b: string, c: string)
    ensures a + (b + c) == a + b + c
  {
  }

  /** What the result of a write says: a string of less than 2^31 bytes is written in full exactly when the
      result is its length, and a negative result means an error. For 2^32 - 1 bytes the result is that of an
      error although all is written. */
  lemma ResultTells(n: nat, k: nat)
    requires k <= n
    ensures var ret := if k == n then ToInt(n) else CWMP_ERROR;
            && (n < 0x8000_0000 ==> (k == n <==> ret == n) && (k < n <==> ret < 0))
            && (k == n == 0xFFFF_FFFF ==> ret == CWMP_ERROR)
  {
    FirstWrong();
  }

  lemma Further(before: string, str: string, at: nat, n: nat)
    requires at + n <= |str|
    ensures before + str[..at] + str[at..at + n] == before + str[..at + n]
  {
    assert str[..at + n] == str[..at] + str[at..at + n];
  }

  /** One turn of the loop of cwmp_chunk_copy. */
  method CopyBuffer(dest: array<char>, n: nat, p: Buffer, left: nat, max: nat,
                    ghost pieces: seq<string>, ghost i: nat, ghost piece: string)
    returns (k: nat)
    requires p.Valid() && dest != p.store && n < dest.Length && left > 0 && n <= max && Min(n + left, max) < dest.Length
    requires piece == p.store[..p.writed] && (i < |pieces| ==> piece == pieces[i]) && CopyAt(pieces, max, dest[..n], i, left)
    modifies dest
    ensures k <= left && n + k <= max && n + k < dest.Length && CopyAt(pieces, max, dest[..n + k], i + 1, left - k)
    ensures dest[n + k..] == old(dest[n..])[k..]
  {
    hide CopyAt, Strncpy;
    var b := if left > p.writed - p.readed then p.writed - p.readed else left;
    var d := max - n;
    k := if d > b then b else d;
    CopyStep(pieces, max, dest[..n], i, left, piece, k);
    CopyPiece(dest, n, p, k);
  }

  method CopyPiece(dest: array<char>, n: nat, p: Buffer, k: nat)
    requires p.Valid() && k <= p.writed && n + k <= dest.Length && dest != p.store
    modifies dest
    ensures dest[..n + k] == old(dest[..n]) + Strncpy(p.store[..p.writed][..k]) && dest[n + k..] == old(dest[n..])[k..]
  {
    hide Strncpy;
    assert p.store[..p.writed][..k] == p.store[..k];
    StrncpyInto(dest, n, p.store, k);
    assert dest[..n + k] == dest[..n] + dest[n..n + k];
  }

  lemma {:induction false} StrncpyParts(s: string, stop: nat)
    requires stop <= |s| && NUL !in s[..stop] && (stop < |s| ==> s[stop] == NUL)
    ensures Strncpy(s) == s[..stop] + Zeros(|s| - stop)
  {
    if stop > 0 {
      assert s[0] in s[..stop];
      assert s[1..][..stop - 1] == s[..stop][1..];
      StrncpyParts(s[1..], stop - 1);
      assert s[..stop] == [s[0]] + s[1..][..stop - 1];
    }
  }

  /** strncpy of `k` characters to place `at`. */
  method StrncpyInto(dest: array<char>, at: nat, src: array<char>, k: nat)
    requires at + k <= dest.Length && k <= src.Length && dest != src
    modifies dest
    ensures dest[..at] == old(dest[..at]) && dest[at..at + k] == Strncpy(src[..k])
    ensures dest[at + k..] == old(dest[at + k..])
  {
    hide Strncpy;
    var stop := CopyToNul(dest, at, src, k);
    ghost var front := dest[at..at + stop];
    FillZeros(dest, at + stop, at + k);
    StrncpyParts(src[..k], stop);
    assert dest[at..at + stop] == dest[..at + stop][at..] == front;
    assert dest[..at] == dest[..at + stop][..at];
    assert dest[at..at + k] == dest[at..at + stop] + dest[at + stop..at + k];
    assert src[..k][..stop] == src[..stop];
  }

  method CopyToNul(dest: array<char>, at: nat, src: array<char>, k: nat) returns (stop: nat)
    requires at + k <= dest.Length && k <= src.Length && dest != src
    modifies dest
    ensures stop <= k && dest[at..at + stop] == src[..stop] && NUL !in src[..stop] && (stop < k ==> src[stop] == NUL)
    ensures dest[..at] == old(dest[..at]) && dest[at + stop..] == old(dest[at + stop..])
  {
    stop := 0;
    while stop < k && src[stop] != NUL
      invariant stop <= k && dest[at..at + stop] == src[..stop] && NUL !in src[..stop]
      invariant dest[..at] == old(dest[..at]) && dest[at + stop..] == old(dest[..])[at + stop..]
    {
      dest[at + stop] := src[stop];
      stop := stop + 1;
    }
  }

  method FillZeros(dest: array<char>, lo: nat, hi: nat)
    requires lo <= hi <= dest.Length
    modifies dest
    ensures dest[..lo] == old(dest[..lo]) && dest[lo..hi] == Zeros(hi - lo) && dest[hi..] == old(dest[hi..])
  {
    var i := lo;
    while i < hi
      invariant lo <= i <= hi && dest[lo..i] == Zeros(i - lo)
      invariant dest[..lo] == old(dest[..lo]) && dest[hi..] == old(dest[hi..])
    {
      dest[i] := NUL;
      i := i + 1;
    }
  }
}
