/**
 ChunkedBodyReadStream as a function of its state, in every state it can get into, with a socket that
 hands over its bytes in given pieces.
 */
module ChunkedMachine {
  import opened Common
  import opened ChunkedCode

  const LINE_BUFFER_SIZE: nat := 4096

  /** `line` is m_get_line_buf up to m_line_size and `remain` is m_chunked_remain; `rest` has not come
      in yet, and will in pieces of these sizes.  `fault`: the peer was found closed, or the line buffer
      full.  `stops` are the numbers of bytes still to come at the ends of the pieces so far, and `lost`
      says that a line that was used up has been taken for the next one. */
  datatype St = St(line: string, cursor: nat, remain: nat, finish: bool, fault: bool, lost: bool,
                   rest: string, pieces: seq<nat>, stops: set<nat>, closed: bool)

  datatype Reading = Reading(s: St, out: string, on: bool)

  function Start(body: string, rest: string, pieces: seq<nat>): St {
    St(body, 0, 0, false, false, false, rest, pieces, {|rest|}, false)
  }

  /** What is left to look at. */
  function Left(s: St): nat { |s.rest| + (if s.cursor < |s.line| then |s.line| - s.cursor else 0) }

  // ----- the socket -----

  /** How much recv() would hand over. */
  function Piece(s: St): (k: nat)
    ensures k <= |s.rest| && (k > 0 ==> |s.line| + k <= LINE_BUFFER_SIZE)
    ensures s.rest != "" && |s.line| < LINE_BUFFER_SIZE ==> k > 0
  {
    if s.rest == "" || |s.line| >= LINE_BUFFER_SIZE then 0
    else
      var wanted := if s.pieces == [] then |s.rest| else if s.pieces[0] == 0 then 1 else s.pieces[0];
      Min(wanted, Min(LINE_BUFFER_SIZE - |s.line|, |s.rest|))
  }

  function Recv(s: St): St {
    var k := Piece(s);
    s.(line := s.line + s.rest[..k], rest := s.rest[k..],
       pieces := if s.pieces == [] then [] else s.pieces[1..], stops := s.stops + {|s.rest| - k})
  }

  /** All the bytes asked for, if that many are to come. */
  function ReadStream(s: St, n: nat): St { s.(rest := s.rest[Min(n, |s.rest|)..]) }

  // ----- the lines -----

  /** Whether pos_next_chunk finds a line. */
  predicate Found(s: St, pos: nat)
    requires pos <= |s.line|
  {
    FindEnd(s.line[pos..], 0) < |s.line| - pos
  }

  /** The last line is there: the empty line's end, as far as it is missing, is taken off the socket,
      which is closed if it has not that much. */
  function Last(s: St, missing: int): St {
    if missing <= 0 then s.(finish := true)
    else ReadStream(s, missing).(finish := true, closed := s.closed || |s.rest| < missing)
  }

  /** pos_next_chunk, when it finds a line. */
  function PosNext(s: St, pos: nat): (r: St)
    requires pos <= |s.line| && Found(s, pos)
    ensures r.finish || (r.line == s.line && r.rest == s.rest && r.cursor >= s.cursor + 2)
    ensures r.fault == s.fault && r.lost == s.lost && r.stops == s.stops
  {
    var l := s.line[pos..];
    var p := FindEnd(l, 0);
    var n := FromHex(l[..p], 0);
    if n != 0 || p == 0 then s.(remain := n, cursor := s.cursor + p + 2)
    else Last(s.(remain := n), p + 4 - |l|)
  }

  /** memmove: what is left of the buffer to its front. */
  function Shift(s: St): St
    requires s.cursor <= |s.line|
  {
    s.(line := s.line[s.cursor..], cursor := 0)
  }

  /** get_new_chunk's loop: bytes, and a look. */
  function RecvLoop(s: St): (r: St)
    ensures r.fault || r.finish || Left(r) < Left(s)
    ensures r.lost == s.lost && s.stops <= r.stops
    decreases |s.rest|
  {
    if Piece(s) == 0 then s.(fault := true)
    else
      var m := Recv(s);
      if |m.line| > 2 && Found(m, 0) then PosNext(m, 0) else RecvLoop(m)
  }

  /** A line that is used up, but still in the buffer, is looked at once more.  That does no harm when
      the line in front is an empty one, as the one that is due, and that one comes in with more. */
  predicate Misled(s: St) {
    s.cursor >= |s.line| && s.line != "" && (Piece(s) <= 2 || FindEnd(s.line, 0) != 0)
  }

  function GetNew(s: St): (r: St)
    ensures r.fault || r.finish || Left(r) < Left(s)
    ensures r.lost == (s.lost || Misled(s)) && s.stops <= r.stops
  {
    if s.cursor >= |s.line| then RecvLoop(s.(lost := s.lost || Misled(s)))
    else if Found(s, s.cursor) then PosNext(s, s.cursor)
    else RecvLoop(Shift(s))
  }

  // ----- reading -----

  /** Data from the line buffer. */
  function TakeCount(s: St, count: nat): (n: nat)
    requires s.cursor <= |s.line|
    ensures n <= count && n <= s.remain && s.cursor + n <= |s.line|
  {
    Min(count, Min(s.remain, |s.line| - s.cursor))
  }

  function Taken(s: St, n: nat): (r: St)
    requires n <= s.remain && s.cursor + n <= |s.line|
    ensures Left(r) + n == Left(s)
  {
    s.(cursor := s.cursor + n, remain := s.remain - n)
  }

  function Reset(s: St): (r: St)
    ensures Left(r) == Left(s) && |r.line| - r.cursor == |s.line| - s.cursor
    ensures r.lost == s.lost && r.stops == s.stops && r.fault == s.fault && r.finish == s.finish
  {
    if s.cursor == |s.line| then s.(cursor := 0, line := "") else s
  }

  /** The line behind the data, if it is all there. */
  function NextLine(s: St): (r: Reading)
    requires s.cursor <= |s.line| && !s.finish
    ensures Left(r.s) <= Left(s) && r.out == ""
    ensures r.on ==> r.s.finish || (Left(r.s) <= Left(s) - 2 && |r.s.line| - r.s.cursor <= |s.line| - s.cursor - 2)
    ensures r.s.lost == s.lost && r.s.stops == s.stops && r.s.fault == s.fault
  {
    if Found(s, s.cursor) then Reading(FoundNext(s), "", true) else Reading(Shift(s), "", false)
  }

  function FoundNext(s: St): (r: St)
    requires s.cursor <= |s.line| && !s.finish && Found(s, s.cursor)
    ensures Left(r) <= Left(s) && r.lost == s.lost && r.stops == s.stops && r.fault == s.fault
    ensures r.finish || (Left(r) <= Left(s) - 2 && |r.line| - r.cursor <= |s.line| - s.cursor - 2 &&
      r.cursor <= |r.line|)
  {
    FoundFits(s, s.cursor);
    PosNext(s, s.cursor)
  }

  lemma FoundFits(s: St, pos: nat)
    requires pos <= |s.line| && !s.finish && Found(s, pos)
    ensures pos + FindEnd(s.line[pos..], 0) + 2 <= |s.line|
    ensures var r := PosNext(s, pos); r.finish ==> Left(r) <= Left(s) && r.cursor == s.cursor && r.line == s.line
    ensures var r := PosNext(s, pos); !r.finish ==> r.cursor == s.cursor + FindEnd(s.line[pos..], 0) + 2
  {
  }

  /** One pass of read_from_line_buf's loop; it returns there if not `on`. */
  function LineTurn(s: St, count: nat): (r: Reading)
    requires count > 0 && s.cursor < |s.line| && !s.finish
    ensures |r.out| <= count && Left(r.s) <= Left(s)
    ensures r.on ==> r.s.finish || (Left(r.s) < Left(s) && |r.s.line| - r.s.cursor < |s.line| - s.cursor)
    ensures r.s.lost == s.lost && r.s.stops == s.stops && r.s.fault == s.fault
  {
    var n := TakeCount(s, count);
    var a, out := Taken(s, n), s.line[s.cursor..s.cursor + n];
    if a.remain == 0 then
      var b := NextLine(a);
      Reading(if b.on then Reset(b.s) else b.s, out, b.on)
    else
      Reading(Reset(a), out, true)
  }

  /** read_from_line_buf. */
  function LineLoop(s: St, count: nat): (r: Reading)
    ensures |r.out| <= count && Left(r.s) <= Left(s)
    ensures r.s.lost == s.lost && s.stops <= r.s.stops && r.s.fault == s.fault
    decreases if s.finish then 0 else 1, |s.line| - s.cursor
  {
    if count == 0 || s.cursor >= |s.line| || s.finish then Reading(s, "", true)
    else
      var t := LineTurn(s, count);
      if !t.on then t
      else
        var r := LineLoop(t.s, count - |t.out|);
        r.(out := t.out + r.out)
  }

  /** read_from_stream, if there is something to read for. */
  function StreamPart(s: St, count: nat): (r: Reading)
    ensures |r.out| <= count && Left(r.s) + |r.out| == Left(s)
    ensures r.s.lost == s.lost && r.s.stops == s.stops && r.s.fault == s.fault && r.s.finish == s.finish
    ensures r.on && r.s.remain > 0 && |r.out| < count ==> r.out != ""
  {
    if s.remain == 0 || count == 0 then Reading(s, "", true)
    else
      var n := Min(count, s.remain);
      var out := s.rest[..Min(n, |s.rest|)];
      Reading(ReadStream(s, n).(remain := s.remain - |out|), out, s.remain == |out| || out != "")
  }

  /** What read() does behind read_from_line_buf: data from the socket, and the next line if the chunk
      is used up. */
  function Rest(s: St, count: nat): (r: Reading)
    ensures |r.out| <= count && (s.lost ==> r.s.lost) && s.stops <= r.s.stops
    ensures !r.on || r.s.fault || r.s.finish || |r.out| == count || Left(r.s) < Left(s)
  {
    var b := StreamPart(s, count);
    b.(s := if b.on && b.s.remain == 0 then GetNew(b.s) else b.s)
  }

  /** One pass of read's loop; it goes on there if `on`. */
  function Turn(s: St, count: nat): (r: Reading)
    requires count > 0
    ensures |r.out| <= count
    ensures !r.on || r.s.fault || r.s.finish || |r.out| == count || Left(r.s) < Left(s)
    ensures (s.lost ==> r.s.lost) && s.stops <= r.s.stops
  {
    var a := LineLoop(s, count);
    var b := Rest(a.s, count - |a.out|);
    Reading(b.s, a.out + b.out, b.on)
  }

  /** read(). */
  function Read(s: St, count: nat): (r: Reading)
    ensures |r.out| <= count && (s.lost ==> r.s.lost) && s.stops <= r.s.stops
    decreases Left(s)
  {
    if count == 0 || s.finish then Reading(s, "", true)
    else
      var t := Turn(s, count);
      if !t.on || t.s.fault || t.s.finish || |t.out| == count then t
      else
        var r := Read(t.s, count - |t.out|);
        r.(out := t.out + r.out)
  }

  /** One read after the other; each starts over after an error of the last. */
  function Reads(s: St, counts: seq<nat>): (r: Reading)
    ensures (s.lost ==> r.s.lost) && s.stops <= r.s.stops
    decreases |counts|
  {
    if counts == [] then Reading(s, "", true)
    else
      var n := |counts| - 1;
      var a := Reads(s, counts[..n]);
      var b := Read(a.s.(fault := false), counts[n]);
      Reading(b.s, a.out + b.out, true)
  }
}
