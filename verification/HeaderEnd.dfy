/** Where the header of a message ends, found while it is still coming in, and its index then. */
module HeaderEnd {
  import opened Common
  import opened HeaderText
  import opened HeaderIndex
  import opened HeaderParse

  const MAX_TRANSFER_BYTES: nat := 4096
  const RESERVED_INDEX_SIZE: nat := 1024

  predicate MarkAt(t: string, i: nat) {
    i + 4 <= |t| && t[i] == '\r' && t[i + 1] == '\n' && t[i + 2] == '\r' && t[i + 3] == '\n'
  }

  /** string_view::find from a position: the first mark, or the length when there is none. */
  function FindMark(t: string, from: nat): (r: nat)
    requires from <= |t|
    ensures from <= r <= |t|
    decreases |t| - from
  {
    if from == |t| || MarkAt(t, from) then from else FindMark(t, from + 1)
  }

  lemma {:induction false} FindMarkFirst(t: string, from: nat)
    requires from <= |t|
    ensures var r := FindMark(t, from); (r < |t| ==> MarkAt(t, r)) && forall i :: from <= i < r ==> !MarkAt(t, i)
    decreases |t| - from
  {
    if from < |t| && !MarkAt(t, from) { FindMarkFirst(t, from + 1); }
  }

  lemma {:induction false} FindMarkIs(t: string, from: nat, r: nat)
    requires from <= r <= |t| && (r < |t| ==> MarkAt(t, r)) && forall i :: from <= i < r ==> !MarkAt(t, i)
    ensures FindMark(t, from) == r
    decreases r - from
  {
    if from < r { FindMarkIs(t, from + 1, r); }
  }

  /** No mark lies within. */
  ghost predicate NoMark(t: string) { forall i :: !MarkAt(t, i) }

  /** If what there was held no mark, the last three bytes of it and the new ones are all that needs
      looking at: the search from there finds what a search of everything would. */
  lemma SearchTheSeam(t: string, n: nat, left: nat)
    requires n <= |t| && left == (if n < 3 then 0 else n - 3) && NoMark(t[..n])
    ensures FindMark(t, left) == FindMark(t, 0)
  {
    var r := FindMark(t, left);
    FindMarkFirst(t, left);
    forall i | 0 <= i < r ensures !MarkAt(t, i) {
      if i < left { assert MarkAt(t, i) ==> MarkAt(t[..n], i); }
    }
    FindMarkIs(t, 0, r);
  }

  datatype Status = INIT | HEADER_PARSED

  /** Where a start line ends, if it parses: parse_start_line of a request or of a response. */
  type StartLine = string -> Option<nat>

  /** At `at` stand these header lines, and an empty one. */
  ghost predicate LinesAt(t: string, at: nat, rs: seq<Raw>) {
    && at + |TextOf(rs)| + 2 <= |t| && t[at..at + |TextOf(rs)| + 2] == TextOf(rs) + "\r\n"
    && forall i :: 0 <= i < |rs| ==> WellFormed(rs[i])
  }

  /** Behind the start line stand these header lines and an empty one. */
  ghost predicate Headed(start: StartLine, t: string, rs: seq<Raw>) {
    start(t).Some? ==>
      LinesAt(t, start(t).value, rs)
  }

  /** The start line parses, and there is room for the index. */
  predicate Parses(start: StartLine, t: string, capacity: nat, n: nat) {
    start(t).Some? && (n == 0 || capacity - KvSize(n) > |t|)
  }

  /** The entry reads as the key and the value of one of the lines. */
  ghost predicate NamesSome(text: string, e: KV, ls: seq<Line>) { exists j: nat :: Names(text, e, ls, j) }

  lemma Cutting(t: string, at: nat, n: nat)
    requires at + n <= |t|
    ensures t[at..] == t[at..at + n] + t[at + n..]
  {
  }

  // ----- where the lines end -----

  /** Behind a start line and its line end, without a mark in it. */
  ghost predicate BehindLine(t: string, at: nat) { 2 <= at <= |t| && t[at - 2..at] == "\r\n" && NoMark(t[..at]) }

  /** No key holds a mark. */
  ghost predicate CleanKeys(rs: seq<Raw>, n: nat)
    requires n <= |rs|
  {
    forall j :: 0 <= j < n ==> NoMark(rs[j].key)
  }

  /** One line, and where it stands. */
  ghost predicate LineAt(t: string, at: nat, l: Raw) {
    at + |Shown(l)| <= |t| && t[at..at + |Shown(l)|] == Shown(l) && WellFormed(l)
  }

  lemma LineChars(t: string, at: nat, l: Raw)
    requires LineAt(t, at, l)
    ensures |Shown(l)| == |l.key| + |l.rest| + 3 && t[at] != '\r'
    ensures forall i :: 0 <= i < |l.key| ==> t[at + i] == l.key[i]
    ensures forall i :: at + |l.key| <= i < at + |l.key| + 1 + |l.rest| ==> t[i] != '\r'
    ensures t[at + |l.key| + 1 + |l.rest|] == '\r' && t[at + |l.key| + 2 + |l.rest|] == '\n'
  {
    var w := t[at..at + |Shown(l)|];
    assert w == Shown(l);
    assert forall i :: 0 <= i < |w| ==> t[at + i] == w[i];
    assert w[0] == (if l.key == "" then ':' else l.key[0]) && t[at + 0] == w[0];
    assert w[|l.key|] == ':';
    forall i | at + |l.key| < i < at + |l.key| + 1 + |l.rest| ensures t[i] != '\r' {
      assert w[i - at] == l.rest[i - at - |l.key| - 1];
    }
  }

  /** A mark that starts in a line is in its key. */
  lemma MarkInLine(t: string, at: nat, l: Raw, i: nat)
    requires LineAt(t, at, l) && at <= i && i + 4 <= at + |Shown(l)|
    ensures MarkAt(t, i) <==> MarkAt(l.key, i - at)
  {
    LineChars(t, at, l);
    var k := i - at;
    if MarkAt(t, i) {
      assert t[at + k] == '\r' && t[at + (k + 2)] == '\r' && t[at + (k + 3)] == '\n';
      assert k + 3 < |l.key|;
    }
    if k + 4 <= |l.key| {
      assert t[at + k] == l.key[k] && t[at + (k + 1)] == l.key[k + 1];
      assert t[at + (k + 2)] == l.key[k + 2] && t[at + (k + 3)] == l.key[k + 3];
    }
  }

  /** No mark starts in one line and ends in the next. */
  lemma MarkAcross(t: string, at: nat, l: Raw, i: nat)
    requires LineAt(t, at, l) && 2 <= at <= i + 3 && i < at && t[at - 2..at] == "\r\n"
    ensures !MarkAt(t, i)
  {
    LineChars(t, at, l);
    assert t[at - 2] == t[at - 2..at][0] && t[at - 1] == t[at - 2..at][1];
  }

  lemma EndsLine(t: string, at: nat, l: Raw)
    requires LineAt(t, at, l)
    ensures var e := at + |Shown(l)|; 2 <= e <= |t| && t[e - 2..e] == "\r\n"
  {
    LineChars(t, at, l);
  }

  lemma Middle(w: string, p: string, x: string)
    requires p + x <= w
    ensures w[|p|..|p| + |x|] == x
  {
  }

  lemma LineOf(t: string, at: nat, rs: seq<Raw>, j: nat)
    requires LinesAt(t, at, rs) && j < |rs|
    ensures LineAt(t, at + StartOf(rs, j), rs[j]) && StartOf(rs, j) + |Shown(rs[j])| == StartOf(rs, j + 1)
  {
    TextOfSnoc(rs, j);
    TextOfPrefix(rs, j + 1);
    var a, n := StartOf(rs, j), |Shown(rs[j])|;
    var w := t[at..at + |TextOf(rs)| + 2];
    assert TextOf(rs) <= w by { assert w == TextOf(rs) + "\r\n"; }
    Middle(w, TextOf(rs[..j]), Shown(rs[j]));
    SliceOfSlice(t, at, at + |TextOf(rs)| + 2, a, n);
    var from := at + a;
    assert t[from..from + n] == Shown(rs[j]);
  }

  /** Without marks in the keys there is none before the end of the lines. */
  lemma {:induction false} NoMarkWithin(t: string, at: nat, rs: seq<Raw>, n: nat, i: nat)
    requires BehindLine(t, at) && LinesAt(t, at, rs) && n <= |rs| && CleanKeys(rs, n)
    requires i + 4 <= at + StartOf(rs, n)
    ensures !MarkAt(t, i)
    decreases n
  {
    hide WellFormed, Shown, LineAt;
    if n == 0 {
      assert !MarkAt(t[..at], i);
    } else {
      var a := at + StartOf(rs, n - 1);
      LineOf(t, at, rs, n - 1);
      if i + 4 <= a {
        NoMarkWithin(t, at, rs, n - 1, i);
      } else if i < a {
        if n > 1 {
          LineOf(t, at, rs, n - 2);
          EndsLine(t, at + StartOf(rs, n - 2), rs[n - 2]);
        }
        MarkAcross(t, a, rs[n - 1], i);
      } else {
        MarkInLine(t, a, rs[n - 1], i);
      }
    }
  }

  /** Before the empty line there is a line end, of the last line or of the start line. */
  lemma EndBefore(t: string, at: nat, rs: seq<Raw>)
    requires BehindLine(t, at) && LinesAt(t, at, rs)
    ensures StartOf(rs, |rs|) == |TextOf(rs)|
    ensures var e := at + |TextOf(rs)|; 2 <= e <= |t| && t[e - 2..e] == "\r\n"
  {
    assert rs[..|rs|] == rs;
    if |rs| == 0 {
      NoText(rs);
    } else {
      LineOf(t, at, rs, |rs| - 1);
      hide LinesAt, TextOf, LineAt;
      EndsLine(t, at + StartOf(rs, |rs| - 1), rs[|rs| - 1]);
    }
  }

  lemma NoText(rs: seq<Raw>)
    requires |rs| == 0
    ensures TextOf(rs) == ""
  {
  }

  /** And the empty line. */
  lemma EmptyLine(t: string, at: nat, rs: seq<Raw>)
    requires LinesAt(t, at, rs)
    ensures var e := at + |TextOf(rs)|; e + 2 <= |t| && t[e..e + 2] == "\r\n"
  {
    hide TextOf, WellFormed;
    var n := |TextOf(rs)|;
    SliceOfSlice(t, at, at + n + 2, n, 2);
    assert (TextOf(rs) + "\r\n")[n..n + 2] == "\r\n";
  }

  lemma LastMark(t: string, at: nat, rs: seq<Raw>)
    requires BehindLine(t, at) && LinesAt(t, at, rs)
    ensures
      var e := at + |TextOf(rs)|;
      && 2 <= e && MarkAt(t, e - 2) && t[e - 2] == '\r' && StartOf(rs, |rs|) == |TextOf(rs)|
  {
    hide LinesAt, BehindLine, TextOf, StartOf;
    EndBefore(t, at, rs);
    EmptyLine(t, at, rs);
    TwoEnds(t, at + |TextOf(rs)|);
  }

  lemma TwoEnds(t: string, e: nat)
    requires 2 <= e && e + 2 <= |t| && t[e - 2..e] == "\r\n" && t[e..e + 2] == "\r\n"
    ensures MarkAt(t, e - 2)
  {
    assert t[e - 2] == t[e - 2..e][0] && t[e - 1] == t[e - 2..e][1];
    assert t[e] == t[e..e + 2][0] && t[e + 1] == t[e..e + 2][1];
  }

  /** The lines end where the body begins exactly when no key holds a mark.  A line that has no colon is
      part of the key of the next that has one. */
  lemma LinesEndIff(t: string, at: nat, rs: seq<Raw>)
    requires BehindLine(t, at) && LinesAt(t, at, rs)
    ensures FindMark(t, 0) + 4 == at + |TextOf(rs)| + 2 <==> CleanKeys(rs, |rs|)
  {
    if CleanKeys(rs, |rs|) {
      CleanEnd(t, at, rs);
    } else {
      var j :| 0 <= j < |rs| && !NoMark(rs[j].key);
      DirtyEnd(t, at, rs, j);
    }
  }

  lemma CleanEnd(t: string, at: nat, rs: seq<Raw>)
    requires BehindLine(t, at) && LinesAt(t, at, rs) && CleanKeys(rs, |rs|)
    ensures FindMark(t, 0) + 2 == at + |TextOf(rs)|
  {
    var e := at + |TextOf(rs)|;
    LastMark(t, at, rs);
    hide LinesAt, CleanKeys, BehindLine, TextOf;
    forall i | 0 <= i < e - 2 ensures !MarkAt(t, i) {
      if i + 4 <= e { NoMarkWithin(t, at, rs, |rs|, i); } else { assert t[i + 1] == '\r'; }
    }
    FindMarkIs(t, 0, e - 2);
  }

  lemma DirtyEnd(t: string, at: nat, rs: seq<Raw>, j: nat)
    requires BehindLine(t, at) && LinesAt(t, at, rs) && j < |rs| && !NoMark(rs[j].key)
    ensures FindMark(t, 0) + 2 < at + |TextOf(rs)|
  {
    var k :| MarkAt(rs[j].key, k);
    var i := at + StartOf(rs, j) + k;
    LineOf(t, at, rs, j);
    MarkInLine(t, at + StartOf(rs, j), rs[j], i);
    StartsGrow(rs, j + 1);
    hide LinesAt, BehindLine, TextOf, LineAt;
    FindMarkFirst(t, 0);
  }

  /** A header of one line without a colon, and then a body with one: the parser takes the header's end, and
      the body up to that colon, for a key. */
  lemma KeySwallowsBody()
    ensures
      var rs := [Raw("a\r\n\r\nb", "c")];
      var t := "\r\na\r\n\r\nb:c\r\n\r\n";
      BehindLine(t, 2) && LinesAt(t, 2, rs) && FindMark(t, 0) + 4 < 2 + |TextOf(rs)| + 2
  {
    var rs := [Raw("a\r\n\r\nb", "c")];
    var t := "\r\na\r\n\r\nb:c\r\n\r\n";
    OneLine(rs[0]);
    assert |TextOf(rs)| == 10 && t[2..2 + 10 + 2] == TextOf(rs) + "\r\n";
    assert WellFormed(rs[0]);
    assert LinesAt(t, 2, rs);
    assert t[0..2] == "\r\n" && |t[..2]| == 2;
    assert BehindLine(t, 2);
    assert MarkAt(rs[0].key, 1);
    hide LinesAt, BehindLine, TextOf;
    DirtyEnd(t, 2, rs, 0);
  }

  lemma OneLine(l: Raw)
    ensures TextOf([l]) == l.key + ":" + l.rest + "\r\n"
  {
    assert [l][..0] == [] && "" + Shown(l) == Shown(l);
  }

  lemma StartsGrow(rs: seq<Raw>, j: nat)
    requires j <= |rs|
    ensures StartOf(rs, j) <= |TextOf(rs)|
  {
    TextOfPrefix(rs, j);
  }

  class Message {
    const buf: array<char>
    var bufSize: nat
    const bufCapacity: nat
    var status: Status
    var bodyAt: nat
    var bodyLen: nat
    var headersAt: nat
    var index: seq<KV>

    ghost predicate Valid()
      reads this, buf
    {
      bufSize <= bufCapacity <= buf.Length && (status == INIT ==> NoMark(buf[..bufSize]))
    }

    constructor (capacity: nat)
      ensures Valid() && status == INIT && bufSize == 0 && bufCapacity == capacity == buf.Length && fresh(buf)
    {
      buf := new char[capacity](i => '\0');
      bufSize, bufCapacity, status, bodyAt, bodyLen := 0, capacity, INIT, 0, 0;
      headersAt, index := 0, [];
    }

    /** The header is complete: its start line, its index, and the body behind its first end. */
    ghost predicate Complete(start: StartLine, rs: seq<Raw>)
      reads this, buf
      requires bufSize <= buf.Length
    {
      var t := buf[..bufSize];
      var end := FindMark(t, 0);
      && status == HEADER_PARSED && MarkAt(t, end) && bodyAt == end + 4 && bodyAt + bodyLen == bufSize
      && start(t) == Some(headersAt) && headersAt <= |t|
      && |index| == |rs| && (forall i :: 0 <= i < |index| ==> NamesSome(t[headersAt..], index[i], Meaning(rs)))
      && (BehindLine(t, headersAt) ==> (bodyAt == headersAt + |TextOf(rs)| + 2 <==> CleanKeys(rs, |rs|)))
    }

    /** `size` new bytes stand behind the old ones.  2: the header goes on; 0: it is complete; -1: no
        room for the bytes, or it was parsed before, or its start line does not parse, or no room for
        its index. */
    method AppendBytes(size: nat, start: StartLine, ghost rs: seq<Raw>) returns (r: int)
      requires Valid()
      requires bufSize + size <= buf.Length && !NoMark(buf[..bufSize + size]) ==>
        Headed(start, buf[..bufSize + size], rs)
      modifies this`bufSize, this`status, this`bodyAt, this`bodyLen, this`headersAt, this`index
      ensures r == 2 || r == 0 || r == -1
      ensures r != -1 ==> Valid() && bufSize == old(bufSize) + size < bufCapacity && old(status) == INIT
      ensures r == 2 ==> status == INIT && NoMark(buf[..bufSize])
      ensures r == 0 ==> Complete(start, rs)
      ensures r == -1 <==>
        old(status) == HEADER_PARSED || old(bufSize) + size >= bufCapacity ||
        (!NoMark(buf[..old(bufSize) + size]) && !Parses(start, buf[..old(bufSize) + size], bufCapacity, |rs|))
    {
      hide NamesSome, TextOf, WellFormed, MarkAt, FindMark;
      if status == HEADER_PARSED { return -1; }
      if bufSize + size >= bufCapacity { return -1; }
      var found := Search(size);
      if !found { return 2; }
      var at := start(buf[..bufSize]);
      if at.None? { return -1; }
      headersAt := at.value;
      var ok := ParseHeaders(buf[..bufSize], headersAt, rs);
      if !ok { return -1; }
      status := HEADER_PARSED;
      if BehindLine(buf[..bufSize], headersAt) { LinesEndIff(buf[..bufSize], headersAt, rs); }
      return 0;
    }

    /** The search for the end, from three bytes before the new ones. */
    method Search(size: nat) returns (found: bool)
      requires Valid() && status == INIT && bufSize + size < bufCapacity
      modifies this`bufSize, this`bodyAt, this`bodyLen
      ensures bufSize == old(bufSize) + size && (found <==> !NoMark(buf[..bufSize]))
      ensures found ==>
        var end := FindMark(buf[..bufSize], 0);
        MarkAt(buf[..bufSize], end) && bodyAt == end + 4 && bodyAt + bodyLen == bufSize
    {
      var income := bufSize;
      var left := if income < 3 then 0 else income - 3;
      bufSize := bufSize + size;
      var t := buf[..bufSize];
      assert t[..income] == buf[..income];
      SearchTheSeam(t, income, left);
      var pos := FindMark(t, left);
      FindMarkFirst(t, 0);
      if pos == |t| { return false; }
      assert MarkAt(t, pos);
      var past := pos - left + 4 - (income - left);
      bodyAt, bodyLen := income + past, size - past;
      return true;
    }

    /** headers.reset() on what is behind the start line. */
    method ParseHeaders(t: string, at: nat, ghost rs: seq<Raw>) returns (ok: bool)
      requires LinesAt(t, at, rs) && |t| <= bufCapacity
      modifies this`index
      ensures ok <==> |rs| == 0 || bufCapacity - KvSize(|rs|) > |t|
      ensures ok ==> |index| == |rs| && forall i :: 0 <= i < |index| ==> NamesSome(t[at..], index[i], Meaning(rs))
    {
      ghost var body := t[at + |TextOf(rs)| + 2..];
      Cutting(t, at, |TextOf(rs)| + 2);
      assert t[at..] == TextOf(rs) + ("\r\n" + body);
      var r, kv, order := Parse(t[at..], bufCapacity - at, rs, body);
      ok, index := r == 0, kv;
      if ok {
        Permutes(order, |rs|);
        forall i | 0 <= i < |index| ensures NamesSome(t[at..], index[i], Meaning(rs)) {
          assert Names(t[at..], kv[i], Meaning(rs), order[i]);
        }
      }
    }

    /** The new bytes arrive behind the old ones. */
    method Arrive(chunk: string)
      requires Valid() && bufSize + |chunk| <= buf.Length
      modifies buf
      ensures Valid() && buf[..bufSize] == old(buf[..bufSize]) &&
        buf[..bufSize + |chunk|] == old(buf[..bufSize]) + chunk
    {
      forall i | 0 <= i < |chunk| { buf[bufSize + i] := chunk[i]; }
      assert buf[..bufSize] == old(buf[..bufSize]);
    }
  }

  /** The header comes with these bytes, and not before. */
  ghost predicate CompletedBy(chunks: seq<string>, used: nat)
    requires 0 < used <= |chunks|
  {
    NoMark(Joined(chunks[..used - 1])) && !NoMark(Joined(chunks[..used]))
  }

  /** receive_header, up to the body stream: each chunk is what one recv() brings, and an empty one says
      that the peer has closed.  2: more is to come; 1: closed before the header was complete; 0: it is
      complete, with the first chunk that completes it, wherever the bytes were cut; -1: the room runs
      out first, or what is complete does not parse or has no room for its index. */
  method Receive(m: Message, chunks: seq<string>, start: StartLine, ghost rs: seq<Raw>) returns (r: int, used: nat)
    requires m.Valid() && m.status == INIT && m.bufSize == 0
    requires forall i :: 0 <= i < |chunks| ==> |chunks[i]| <= MAX_TRANSFER_BYTES
    requires forall n :: 0 <= n <= |chunks| && !NoMark(Joined(chunks[..n])) ==> Headed(start, Joined(chunks[..n]), rs)
    modifies m, m.buf
    ensures used <= |chunks| && (r == 2 || r == 1 || r == 0 || r == -1)
    ensures r == 2 ==> used == |chunks| && NoMark(Joined(chunks))
    ensures r == 1 ==> used > 0 && chunks[used - 1] == "" && NoMark(Joined(chunks[..used]))
    ensures r == 0 ==>
      && used > 0 && CompletedBy(chunks, used) && m.bufSize <= m.buf.Length &&
        m.buf[..m.bufSize] == Joined(chunks[..used])
      && m.Complete(start, rs) && FindMark(Joined(chunks), 0) == FindMark(Joined(chunks[..used]), 0)
    ensures r == -1 ==>
      || (NoMark(Joined(chunks[..used])) &&
        m.bufCapacity - |Joined(chunks[..used])| <= MAX_TRANSFER_BYTES + RESERVED_INDEX_SIZE)
      || (used > 0 && CompletedBy(chunks, used) && !Parses(start, Joined(chunks[..used]), m.bufCapacity, |rs|))
  {
    used, r := 0, 2;
    while used < |chunks|
      invariant r == 2 && used <= |chunks| && m.Valid() && m.status == INIT &&
        m.buf[..m.bufSize] == Joined(chunks[..used])
    {
      if m.bufCapacity - m.bufSize <= MAX_TRANSFER_BYTES + RESERVED_INDEX_SIZE { return -1, used; }
      r, used := ReceiveOne(m, chunks, used, start, rs);
      if r != 2 { return; }
    }
    assert chunks[..used] == chunks;
  }

  /** receive_bytes, with room for them. */
  method ReceiveOne(m: Message, chunks: seq<string>, n: nat, start: StartLine, ghost rs: seq<Raw>)
    returns (r: int, used: nat)
    requires n < |chunks| && |chunks[n]| <= MAX_TRANSFER_BYTES
    requires m.Valid() && m.status == INIT && m.buf[..m.bufSize] == Joined(chunks[..n])
    requires m.bufCapacity - m.bufSize > MAX_TRANSFER_BYTES + RESERVED_INDEX_SIZE
    requires !NoMark(Joined(chunks[..n + 1])) ==> Headed(start, Joined(chunks[..n + 1]), rs)
    modifies m, m.buf
    ensures used == n + 1 && (r == 2 || r == 1 || r == 0 || r == -1)
    ensures r == 2 ==> m.Valid() && m.status == INIT && m.buf[..m.bufSize] == Joined(chunks[..used])
    ensures r == 1 ==> chunks[n] == "" && NoMark(Joined(chunks[..used]))
    ensures r == 0 ==>
      && CompletedBy(chunks, used) && m.bufSize <= m.buf.Length && m.buf[..m.bufSize] == Joined(chunks[..used])
      && m.Complete(start, rs) && FindMark(Joined(chunks), 0) == FindMark(Joined(chunks[..used]), 0)
    ensures r == -1 ==> CompletedBy(chunks, used) && !Parses(start, Joined(chunks[..used]), m.bufCapacity, |rs|)
  {
    hide FindMark, Parses, Headed, MarkAt;
    used := n + 1;
    JoinedAdd(chunks, n);
    if chunks[n] == "" {
      assert Joined(chunks[..n + 1]) == Joined(chunks[..n]);
      return 1, used;
    }
    m.Arrive(chunks[n]);
    assert m.buf[..m.bufSize + |chunks[n]|] == Joined(chunks[..used]);
    r := m.AppendBytes(|chunks[n]|, start, rs);
    if r == 0 {
      JoinedPrefix(chunks, used);
      StillFirst(Joined(chunks[..used]), Joined(chunks));
    }
  }

  /** More bytes do not change where the first mark is. */
  lemma StillFirst(t: string, u: string)
    requires t <= u && MarkAt(t, FindMark(t, 0))
    ensures FindMark(u, 0) == FindMark(t, 0) && MarkAt(u, FindMark(t, 0))
  {
    var r := FindMark(t, 0);
    FindMarkFirst(t, 0);
    forall i | 0 <= i < r ensures !MarkAt(u, i) { assert MarkAt(u, i) ==> MarkAt(t, i); }
    FindMarkIs(u, 0, r);
  }
}
