/** ChunkedBodyReadStream itself: one line buffer, a cursor in it, and what is left of the chunk. */
module ChunkedReader {
  import opened Common
  import opened ChunkedCode
  import opened Chunked
  import opened ChunkedMachine
  import opened ChunkedPhases
  import opened ChunkedTheorems

  /** A socket that has these bytes to come, in pieces of these sizes. */
  class Socket {
    var rest: string
    var pieces: seq<nat>
    ghost var stops: set<nat>
    var closed: bool

    constructor (rest: string, pieces: seq<nat>)
      ensures this.rest == rest && this.pieces == pieces && stops == {|rest|} && !closed
    {
      this.rest, this.pieces, stops, closed := rest, pieces, {|rest|}, false;
    }

    /** Some bytes, one at least. */
    method Recv(max: nat) returns (r: string)
      requires rest != "" && max > 0
      modifies this`rest, this`pieces, this`stops
      ensures r != "" && |r| <= max && r + rest == old(rest)
      ensures
        var piece := if old(pieces) == [] then |old(rest)| else if old(pieces)[0] == 0 then 1 else old(pieces)[0];
        |r| == Min(piece, Min(max, |old(rest)|))
      ensures pieces == (if old(pieces) == [] then [] else old(pieces)[1..]) && stops == old(stops) + {|rest|}
    {
      var wanted := |rest|;
      if pieces != [] {
        wanted := if pieces[0] == 0 then 1 else pieces[0];
        pieces := pieces[1..];
      }
      var k := Min(wanted, Min(max, |rest|));
      r, rest := rest[..k], rest[k..];
      stops := stops + {|rest|};
    }

    /** All the bytes asked for, if that many are to come. */
    method Read(n: nat) returns (r: string)
      modifies this`rest
      ensures r + rest == old(rest) && |r| == Min(n, |old(rest)|)
    {
      var k := Min(n, |rest|);
      r, rest := rest[..k], rest[k..];
    }

    method Close()
      modifies this`closed
      ensures closed
    {
      closed := true;
    }
  }

  class Reader {
    const sock: Socket
    var line: string      // m_get_line_buf up to m_line_size
    var cursor: nat
    var remain: nat       // m_chunked_remain
    var finish: bool
    var fault: bool       // the last read ended with an error
    ghost var lost: bool

    ghost function View(): St
      reads this, sock
    {
      St(line, cursor, remain, finish, fault, lost, sock.rest, sock.pieces, sock.stops, sock.closed)
    }

    constructor (sock: Socket, body: string)
      ensures this.sock == sock && fresh(this)
      ensures line == body && cursor == 0 && remain == 0 && !finish && !fault && !lost
    {
      this.sock, line, cursor, remain, finish, fault, lost := sock, body, 0, 0, false, false, false;
    }

    /** The end of the body: what is missing of the last line's end is taken off the socket. */
    method FoundLast(missing: int)
      modifies this`finish, sock
      ensures View() == Last(old(View()), missing)
    {
      finish := true;
      if missing > 0 {
        var r := sock.Read(missing);
        assert sock.rest == old(sock.rest)[|r|..];
        if |r| != missing { sock.Close(); }
      }
    }

    method PosNextChunk(pos: nat) returns (found: bool)
      requires pos <= |line|
      modifies this`cursor, this`remain, this`finish, sock
      ensures found <==> Found(old(View()), pos)
      ensures View() == if found then PosNext(old(View()), pos) else old(View())
    {
      var l := line[pos..];
      var p := FindEnd(l, 0);
      if p == |l| { return false; }
      remain := FromHex(l[..p], 0);
      if remain != 0 || p == 0 {
        cursor := cursor + p + 2;
        return true;
      }
      FoundLast(p + 4 - |l|);
      return true;
    }

    /** memmove: what is left of the buffer to its front. */
    method MoveToFront()
      requires cursor <= |line|
      modifies this`line, this`cursor
      ensures View() == Shift(old(View()))
    {
      line := line[cursor..];
      cursor := 0;
    }

    /** One pass of get_new_chunk's loop, with something to come and room for it. */
    method RecvTurn() returns (done: bool)
      requires Piece(View()) > 0
      modifies this`line, this`cursor, this`remain, this`finish, sock
      ensures RecvLoop(old(View())) == if done then View() else RecvLoop(View())
      ensures !done ==> |sock.rest| < |old(sock.rest)|
    {
      ghost var s := View();
      var r := sock.Recv(LINE_BUFFER_SIZE - |line|);
      assert r == s.rest[..Piece(s)] && sock.rest == s.rest[Piece(s)..];
      line := line + r;
      assert View() == Recv(s);
      if |line| <= 2 { return false; }
      done := PosNextChunk(0);
    }

    /** get_new_chunk; false for a peer that has closed, or a line that does not fit the buffer.  A reader
        that is due a line is past it then, exactly if it was not misled by a line that is used up. */
    method GetNewChunk() returns (ok: bool)
      requires !fault
      modifies this`line, this`cursor, this`remain, this`finish, this`fault, this`lost, sock
      ensures View() == GetNew(old(View())) && ok == !fault
      ensures forall ph, heads :: DueLine(old(View()), ph, heads) ==>
        (Inv(View(), Advance(ph), heads) <==> !Misled(old(View())))
    {
      NewLineIff(View());
      hide DueLine, Inv, PosNext, Found;
      if cursor < |line| {
        var found := PosNextChunk(cursor);
        if found { return true; }
        MoveToFront();
      } else {
        lost := lost || Misled(View());
      }
      ghost var s := View();
      var done := false;
      while !done
        invariant RecvLoop(s) == (if done then View() else RecvLoop(View())) && !fault
        decreases if done then 0 else |sock.rest| + 1
      {
        if sock.rest == "" || |line| >= LINE_BUFFER_SIZE {
          fault := true;
          return false;
        }
        done := RecvTurn();
      }
      return true;
    }

    /** The line behind the data, or what there is of it moved to the front. */
    method FindNextLine() returns (found: bool)
      requires cursor <= |line| && !finish
      modifies this`line, this`cursor, this`remain, this`finish, sock
      ensures Reading(View(), "", found) == NextLine(old(View()))
    {
      found := PosNextChunk(cursor);
      if !found { MoveToFront(); }
    }

    /** One pass of read_from_line_buf's loop; it returns there if not `on`. */
    method LineBufTurn(count: nat) returns (out: string, on: bool)
      requires count > 0 && cursor < |line| && !finish
      modifies this`line, this`cursor, this`remain, this`finish, sock
      ensures Reading(View(), out, on) == LineTurn(old(View()), count)
    {
      hide NextLine, Left, Found;
      var n := Min(count, Min(remain, |line| - cursor));
      out := line[cursor..cursor + n];
      cursor, remain := cursor + n, remain - n;
      on := true;
      if remain == 0 { on := FindNextLine(); }
      if !on { return; }
      if cursor == |line| { cursor, line := 0, ""; }
    }

    /** read_from_line_buf: data in order, until all that was asked for is read or the buffer has no more. */
    method ReadFromLineBuf(count: nat) returns (out: string)
      modifies this`line, this`cursor, this`remain, this`finish, sock
      ensures View() == LineLoop(old(View()), count).s && out == LineLoop(old(View()), count).out
      ensures forall ph, heads :: Mid(old(View()), ph, heads) && count > 0 ==>
        Drains(old(View()), ph, heads, count, View(), out)
    {
      LineBufDrains(View(), count);
      hide LineLoop, LineTurn, Mid, Drains;
      out := "";
      ghost var s := View();
      LineLoopStarts(s, count);
      while |out| < count && cursor < |line| && !finish
        invariant LineLoopsOn(s, count, View(), out)
        decreases if finish then 0 else 1, |line| - cursor
      {
        ghost var was, sofar := View(), out;
        var o, on := LineBufTurn(count - |out|);
        out := out + o;
        LineLoopsOnward(s, count, was, sofar, Reading(View(), o, on));
        if !on { return; }
      }
      LineLoopEnds(s, count, View(), out);
    }

    method ReadFromStream(count: nat) returns (out: string, on: bool)
      requires remain > 0 && count > 0
      modifies this`remain, sock`rest
      ensures Reading(View(), out, on) == StreamPart(old(View()), count)
    {
      var n := Min(count, remain);
      out := sock.Read(n);
      assert out == old(sock.rest)[..|out|] && sock.rest == old(sock.rest)[|out|..];
      remain := remain - |out|;
      on := remain == 0 || out != "";
    }

    /** One pass of read's loop; it ends there if not `on`. */
    method ReadTurn(count: nat) returns (out: string, on: bool)
      requires count > 0 && !fault
      modifies this`line, this`cursor, this`remain, this`finish, this`fault, this`lost, sock
      ensures Reading(View(), out, on) == Turn(old(View()), count)
    {
      out := ReadFromLineBuf(count);
      ghost var a, sofar := View(), out;
      ghost var b := StreamPart(a, count - |out|);
      on := true;
      if remain > 0 && |out| < count {
        var more;
        more, on := ReadFromStream(count - |out|);
        out := out + more;
      } else {
        assert out + "" == out;
      }
      if on && remain == 0 {
        var ok := GetNewChunk();
      }
    }

    /** read(): for a reader that is in its place, as much of the payload as is asked for, in order; and
        the socket is closed exactly when more is asked for than there is, and a pass starts with the end
        of the last line cut off. */
    method Read(count: nat) returns (out: string)
      modifies this`line, this`cursor, this`remain, this`finish, this`fault, this`lost, sock
      ensures var r := ChunkedMachine.Read(old(View()).(fault := false), count); View() == r.s && out == r.out
      ensures forall ph, heads :: Inv(old(View()), ph, heads) && !old(lost) ==>
        Delivers(old(View()), ph, heads, count, View(), out)
    {
      ReadDelivers(View(), count);
      hide ChunkedMachine.Read, Turn, Inv, Delivers;
      out, fault := "", false;
      ghost var s := View();
      var on := true;
      ReadStarts(s, count);
      while |out| < count && !finish && on && !fault
        invariant |out| <= count && (on && !fault ==> ReadsOn(s, count, View(), out))
        invariant !on || fault ==> ReadIs(s, count, View(), out)
        decreases if on && !fault && !finish && |out| < count then 1 else 0, Left(View())
      {
        ghost var was, sofar := View(), out;
        var o;
        o, on := ReadTurn(count - |out|);
        out := out + o;
        ReadsOnward(s, count, was, sofar, Reading(View(), o, on));
      }
      if on && !fault { ReadEnds(s, count, View(), out); }
    }
  }

  // ----- what the methods promise -----

  /** A line is due, and is not in the buffer in full but at its front. */
  ghost predicate DueLine(s: St, ph: Phase, heads: set<nat>) {
    Mid(s, ph, heads) && !ph.InData? && (ph.AtEnd? && s.cursor < |s.line| ==> |s.line| - s.cursor < 2)
  }

  lemma NewLineIff(s: St)
    ensures forall ph, heads :: DueLine(s, ph, heads) ==> (Inv(GetNew(s), Advance(ph), heads) <==> !Misled(s))
  {
    forall ph, heads | DueLine(s, ph, heads) ensures Inv(GetNew(s), Advance(ph), heads) <==> !Misled(s) {
      GetNewMid(s, ph, heads);
    }
  }

  ghost predicate Drains(s: St, ph: Phase, heads: set<nat>, count: nat, now: St, out: string) {
    exists next :: Leads(s, ph, Reading(now, out, true), next, heads) && Drained(Reading(now, out, true), next, count)
  }

  lemma LineBufDrains(s: St, count: nat)
    ensures forall ph, heads :: Mid(s, ph, heads) && count > 0 ==>
      Drains(s, ph, heads, count, LineLoop(s, count).s, LineLoop(s, count).out)
  {
    hide *;
    forall ph, heads | Mid(s, ph, heads) && count > 0
      ensures Drains(s, ph, heads, count, LineLoop(s, count).s, LineLoop(s, count).out)
    {
      LineBufDrainsAt(s, ph, heads, count);
    }
  }

  lemma LineBufDrainsAt(s: St, ph: Phase, heads: set<nat>, count: nat)
    requires Mid(s, ph, heads) && count > 0
    ensures Drains(s, ph, heads, count, LineLoop(s, count).s, LineLoop(s, count).out)
  {
    MidInv(s, ph, heads);
    hide Inv, Mid, LineLoop, Payload;
    var next := LineLoopMid(s, ph, heads, count);
    var r := LineLoop(s, count);
    assert Leads(s, ph, Reading(r.s, r.out, true), next, heads) && Drained(Reading(r.s, r.out, true), next, count);
  }

  lemma MidInv(s: St, ph: Phase, heads: set<nat>)
    requires Mid(s, ph, heads)
    ensures Inv(s, ph, heads)
  {
  }

  ghost predicate Delivers(s: St, ph: Phase, heads: set<nat>, count: nat, now: St, out: string) {
    exists next :: ReadsTo(s, ph, heads, count, now, out, next)
  }

  ghost predicate ReadsTo(s: St, ph: Phase, heads: set<nat>, count: nat, now: St, out: string, next: Phase) {
    Keeps(now, next, heads, s.closed || Closes(s, ph, count)) && (!now.lost ==> Gives(ph, out, count, next))
  }

  lemma ReadDelivers(s: St, count: nat)
    ensures
      var r := ChunkedMachine.Read(s.(fault := false), count);
      forall ph, heads :: Inv(s, ph, heads) && !s.lost ==> Delivers(s, ph, heads, count, r.s, r.out)
  {
    hide *;
    var r := ChunkedMachine.Read(s.(fault := false), count);
    forall ph, heads | Inv(s, ph, heads) && !s.lost ensures Delivers(s, ph, heads, count, r.s, r.out) {
      InvSound(s, ph, heads);
      ReadDeliversAt(s, ph, heads, count);
    }
  }

  lemma ReadDeliversAt(s: St, ph: Phase, heads: set<nat>, count: nat)
    requires Inv(s, ph, heads) && !s.lost
    ensures var r := ChunkedMachine.Read(s, count); Delivers(s, ph, heads, count, r.s, r.out)
  {
    hide Inv, Gives, ChunkedMachine.Read, Closes, CutIn, EndCut;
    var next := ReadMid(s, ph, heads, count);
    var r := ChunkedMachine.Read(s, count);
    assert ReadsTo(s, ph, heads, count, r.s, r.out, next);
  }

  // ----- the loops -----

  /** What read_from_line_buf gives from `s` is what it gives from `now`, behind `out`. */
  ghost predicate LineLoopsOn(s: St, count: nat, now: St, out: string) {
    |out| <= count &&
    var r, more := LineLoop(s, count), LineLoop(now, count - |out|);
    r.s == more.s && r.out == out + more.out
  }

  lemma LineLoopStarts(s: St, count: nat)
    ensures LineLoopsOn(s, count, s, "")
  {
    hide LineLoop;
    assert "" + LineLoop(s, count).out == LineLoop(s, count).out;
  }

  lemma LineLoopEnds(s: St, count: nat, now: St, out: string)
    requires LineLoopsOn(s, count, now, out) && (|out| == count || now.cursor >= |now.line| || now.finish)
    ensures LineLoop(s, count).s == now && LineLoop(s, count).out == out
  {
    assert LineLoop(now, count - |out|) == Reading(now, "", true);
    assert out + "" == out;
  }

  lemma LineLoopStep(s: St, count: nat, t: Reading)
    requires count > 0 && s.cursor < |s.line| && !s.finish && t == LineTurn(s, count)
    ensures
      var r := LineLoop(s, count);
      if !t.on then r == t
      else var more := LineLoop(t.s, count - |t.out|); r.s == more.s && r.out == t.out + more.out
  {
    hide LineTurn;
  }

  lemma LineLoopsOnward(s: St, count: nat, was: St, out: string, t: Reading)
    requires LineLoopsOn(s, count, was, out) && |out| < count && was.cursor < |was.line| && !was.finish
    requires t == LineTurn(was, count - |out|)
    ensures t.on ==> LineLoopsOn(s, count, t.s, out + t.out)
    ensures !t.on ==> LineLoop(s, count).s == t.s && LineLoop(s, count).out == out + t.out
  {
    hide LineLoop, LineTurn;
    LineLoopStep(was, count - |out|, t);
    Assoc(out, t.out, LineLoop(t.s, count - |out| - |t.out|).out);
  }

  /** What is read from `s` is what is read from `now`, behind `out`. */
  ghost predicate ReadsOn(s: St, count: nat, now: St, out: string) {
    |out| <= count &&
    var r, more := ChunkedMachine.Read(s, count), ChunkedMachine.Read(now, count - |out|);
    r.s == more.s && r.out == out + more.out
  }

  ghost predicate ReadIs(s: St, count: nat, now: St, out: string) {
    var r := ChunkedMachine.Read(s, count);
    now == r.s && out == r.out
  }

  lemma ReadStarts(s: St, count: nat)
    ensures ReadsOn(s, count, s, "")
  {
    hide ChunkedMachine.Read;
    assert "" + ChunkedMachine.Read(s, count).out == ChunkedMachine.Read(s, count).out;
  }

  lemma ReadEnds(s: St, count: nat, now: St, out: string)
    requires ReadsOn(s, count, now, out) && (|out| == count || now.finish)
    ensures ReadIs(s, count, now, out)
  {
    assert ChunkedMachine.Read(now, count - |out|) == Reading(now, "", true);
    assert out + "" == out;
  }

  lemma ReadStep(s: St, count: nat, t: Reading)
    requires count > 0 && !s.finish && t == Turn(s, count)
    ensures
      var r := ChunkedMachine.Read(s, count);
      if !t.on || t.s.fault then r == t
      else var more := ChunkedMachine.Read(t.s, count - |t.out|); r.s == more.s && r.out == t.out + more.out
  {
    hide Turn;
    if t.on && !t.s.fault && (t.s.finish || |t.out| == count) {
      assert ChunkedMachine.Read(t.s, count - |t.out|) == Reading(t.s, "", true);
      assert t.out + "" == t.out;
    }
  }

  lemma ReadsOnward(s: St, count: nat, was: St, out: string, t: Reading)
    requires ReadsOn(s, count, was, out) && |out| < count && !was.finish && t == Turn(was, count - |out|)
    ensures t.on && !t.s.fault ==> ReadsOn(s, count, t.s, out + t.out)
    ensures !t.on || t.s.fault ==> ReadIs(s, count, t.s, out + t.out)
  {
    hide ChunkedMachine.Read, Turn;
    ReadStep(was, count - |out|, t);
    Assoc(out, t.out, ChunkedMachine.Read(t.s, count - |out| - |t.out|).out);
  }

  // ----- writer to reader -----

  /** Any non-empty writes below the limit and a close; any part of that as the initial body, and the
      rest in any pieces; any reads.  They return the payload in order, as much as they ask for, and end
      when it does, unless a used-up line is taken for the next one; the socket stays open unless a
      piece ends inside the last two bytes. */
  method RoundTrip(cs: seq<string>, split: nat, pieces: seq<nat>, counts: seq<nat>)
    returns (out: string, finish: bool, closed: bool)
    requires Sizes(cs) && split <= |Coded(cs)|
    ensures
      var s := Reads(Start(Coded(cs)[..split], Coded(cs)[split..], pieces), counts).s;
      var asked := Total(counts, |counts|);
      && (s.lost ==> !(s.stops !! Heads(cs)))
      && (!s.lost ==>
            && out == Joined(cs)[..Min(asked, |Joined(cs)|)] && (asked > |Joined(cs)| ==> finish)
            && (closed ==> 1 in s.stops || 2 in s.stops))
  {
    var wire := WriteAll(cs);
    var sock := new Socket(wire[split..], pieces);
    var r := new Reader(sock, wire[..split]);
    ghost var s0 := r.View();
    assert s0 == Start(Coded(cs)[..split], Coded(cs)[split..], pieces);
    out := "";
    var i: nat := 0;
    while i < |counts|
      invariant i <= |counts| && Reads(s0, counts[..i]) == Reading(r.View(), out, true)
    {
      ReadsStep(s0, counts, i, r.View(), out);
      var o := r.Read(counts[i]);
      out := out + o;
      i := i + 1;
    }
    assert counts[..i] == counts;
    ReadsGive(cs, split, pieces, counts);
    finish, closed := r.finish, sock.closed;
  }

  lemma ReadsStep(s: St, counts: seq<nat>, i: nat, now: St, out: string)
    requires i < |counts| && Reads(s, counts[..i]) == Reading(now, out, true)
    ensures
      var o := ChunkedMachine.Read(now.(fault := false), counts[i]);
      Reads(s, counts[..i + 1]) == Reading(o.s, out + o.out, true)
  {
    hide ChunkedMachine.Read;
    assert counts[..i + 1][..i] == counts[..i];
  }
}
