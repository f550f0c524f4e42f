/** Where in the coding a reader is, and that reading keeps it there. */
module ChunkedPhases {
  import opened Common
  import opened ChunkedCode
  import opened ChunkedMachine

  // ----- where the size lines end -----

  /** How many bytes come behind each chunk-size line. */
  function Heads(cs: seq<string>): set<nat> {
    if cs == [] then {} else Heads(cs[1..]) + {|cs[0]| + 2 + |Coded(cs[1..])|}
  }

  ghost predicate Covered(cs: seq<string>, heads: set<nat>) {
    cs == [] || (|cs[0]| + 2 + |Coded(cs[1..])| in heads && Covered(cs[1..], heads))
  }

  lemma {:induction false} HeadsCover(cs: seq<string>, heads: set<nat>)
    requires Heads(cs) <= heads
    ensures Covered(cs, heads)
    decreases |cs|
  {
    if cs == [] {
    } else {
      HeadsCover(cs[1..], heads);
    }
  }

  // ----- where the reader is -----

  /** `avail` has come in, `rest` has not. */
  ghost predicate At(ph: Phase, avail: string, rest: string, remain: nat) {
    && !ph.Over? && PhaseOk(ph) && avail + rest == Pending(ph)
    && remain == (if ph.InData? then |ph.d| else 0)
  }

  /** What is behind the cursor is used up, and still in the buffer. */
  predicate Spent(s: St) { s.cursor == |s.line| && s.line != "" }

  /** The buffer starts with a line, and the cursor is at it or behind it. */
  ghost predicate Front(s: St)
    requires s.cursor <= |s.line|
  {
    if s.cursor == 0 then s.line == "" || s.remain == 0
    else
      var p := FindEnd(s.line, 0);
      p + 2 <= s.cursor && (p == 0 || FromHex(s.line[..p], 0) > 0)
  }

  /** In place, but for a line that may be used up. */
  ghost predicate Loose(s: St, ph: Phase, heads: set<nat>) {
    && !s.finish && !s.fault && s.cursor <= |s.line|
    && At(ph, s.line[s.cursor..], s.rest, s.remain) && Covered(Chunks(ph), heads)
    && (s.cursor < |s.line| ==> |s.rest| in s.stops) && Front(s)
  }

  /** In the middle of things.  A line can be used up and still be there only behind a piece that ended
      at the end of a chunk-size line, and only until the data of that chunk has been read. */
  ghost predicate Mid(s: St, ph: Phase, heads: set<nat>) {
    Loose(s, ph, heads) && (Spent(s) ==> !ph.AtHead? && !(s.stops !! heads))
  }

  /** At the last line, what followed it gone. */
  ghost predicate Ended(s: St) {
    && s.finish && !s.fault && s.remain == 0 && s.rest == "" && s.cursor <= |s.line|
    && 3 <= |s.line[s.cursor..]| <= 5 && s.line[s.cursor..] <= "0\r\n\r\n"
  }

  ghost predicate Inv(s: St, ph: Phase, heads: set<nat>) {
    if ph.Over? then Ended(s) else Mid(s, ph, heads)
  }

  // ----- strings -----

  lemma Shifted(a: string, b: string, l: string, m: string)
    requires a + b == l + m && |a| >= |l|
    ensures a[|l|..] + b == m
  {
    assert (a + b)[|l|..] == a[|l|..] + b;
    assert (l + m)[|l|..] == m;
  }

  lemma LineFound(avail: string, rest: string, line: string, more: string, p: nat)
    requires avail + rest == line + "\r\n" + more && p == FindEnd(avail, 0) < |avail|
    requires forall i :: 0 <= i < |line| ==> line[i] != '\r'
    ensures p == |line| && p + 2 <= |avail| && avail[..p] == line && avail[p + 2..] + rest == more
  {
    hide *;
    FindsLine(avail, rest, line, more);
    Shifted(avail, rest, line + "\r\n", more);
  }

  lemma LastTaken(avail: string, rest: string, p: nat)
    requires avail + rest == "0\r\n\r\n" && p == FindEnd(avail, 0) < |avail|
    ensures p == 1 && avail[..p] == "0" && FromHex(avail[..p], 0) == 0 && 3 <= |avail| <= 5 && avail <= "0\r\n\r\n"
  {
    hide FindEnd, FromHex;
    ZeroReads();
    FindsLine(avail, rest, "0", "\r\n");
    PartOf(avail, rest, "0\r\n\r\n");
  }

  lemma ZeroReads()
    ensures FromHex("0", 0) == 0
  {
    assert "0"[1..] == "";
  }

  lemma PartOf(a: string, b: string, all: string)
    requires a + b == all
    ensures a <= all && |a| <= |all|
  {
  }

  lemma CodedLong(cs: seq<string>)
    ensures |Coded(cs)| >= 5
    ensures cs != [] ==> |Coded(cs)| >= |Hex(|cs[0]|)| + 4
  {
    if cs == [] {
    } else {
      CodedLong(cs[1..]);
    }
  }

  lemma PendingLong(ph: Phase)
    requires !ph.Over?
    ensures |Pending(ph)| >= 5 && (!ph.InData? ==> |Pending(ph)| >= |LineAt(ph)| + 4)
  {
    CodedLong(ph.cs);
  }

  /** Of a string that is longer, the first line is the same. */
  lemma FrontStays(line: string, more: string)
    requires FindEnd(line, 0) + 2 <= |line|
    ensures FindEnd(line + more, 0) == FindEnd(line, 0) && (line + more)[..FindEnd(line, 0)] == line[..FindEnd(line, 0)]
  {
    var p := FindEnd(line, 0);
    assert EndAt(line + more, p);
    forall i | 0 <= i < p ensures !EndAt(line + more, i) { assert !EndAt(line, i); }
    var q := FindEnd(line + more, 0);
    assert q >= p && q <= p;
  }

  // ----- finding a line -----

  lemma LineParts(l: string, rest: string, ph: Phase, p: nat)
    requires PhaseOk(ph) && (ph.AtHead? || ph.AtEnd?) && ph != AtHead([])
    requires l + rest == Pending(ph) && p == FindEnd(l, 0) < |l|
    ensures
      && p == |LineAt(ph)| && p + 2 <= |l| && l[p + 2..] + rest == Pending(Advance(ph))
      && FromHex(l[..p], 0) == (if Advance(ph).InData? then |Advance(ph).d| else 0) && (ph.AtEnd? <==> p == 0)
  {
    hide FindEnd, Coded, Hex, FromHex, PhaseOk, Pending, Payload;
    AdvancePending(ph);
    LineFound(l, rest, LineAt(ph), Pending(Advance(ph)), p);
  }

  /** What stands behind the cursor when a line is found there. */
  lemma LineIs(s: St, ph: Phase, heads: set<nat>)
    requires Loose(s, ph, heads) && !ph.InData? && ph != AtHead([]) && Found(s, s.cursor)
    ensures
      var l := s.line[s.cursor..];
      var p := FindEnd(l, 0);
      && p == |LineAt(ph)| && s.cursor + p + 2 <= |s.line| &&
        s.line[s.cursor + p + 2..] + s.rest == Pending(Advance(ph))
      && FromHex(l[..p], 0) == (if Advance(ph).InData? then |Advance(ph).d| else 0) && (ph.AtEnd? <==> p == 0)
  {
    hide FindEnd, LineAt, Pending, FromHex, Covered, Front, Chunks, PhaseOk;
    var l := s.line[s.cursor..];
    var p := FindEnd(l, 0);
    LineParts(l, s.rest, ph, p);
    Cuts(s.line, s.cursor, p + 2);
  }

  /** Past a line, fewer chunks are to come; with nothing behind a size line, it is one of those. */
  lemma AdvanceCovered(ph: Phase, heads: set<nat>, rest: string)
    requires !ph.InData? && !ph.Over? && ph != AtHead([]) && Covered(Chunks(ph), heads)
    ensures Covered(Chunks(Advance(ph)), heads)
    ensures ph.AtHead? && "" + rest == Pending(Advance(ph)) ==> |rest| in heads
  {
    if ph.AtHead? && "" + rest == Pending(Advance(ph)) {
      assert |Pending(Advance(ph))| == |ph.cs[0]| + 2 + |Coded(ph.cs[1..])|;
    }
  }

  /** What the search makes of a line that is there. */
  lemma PosNextIs(s: St, ph: Phase, heads: set<nat>)
    requires Loose(s, ph, heads) && !ph.InData? && ph != AtHead([]) && s.cursor < |s.line| && Found(s, s.cursor)
    ensures
      var p, r := |LineAt(ph)|, PosNext(s, s.cursor);
      && r == s.(remain := if Advance(ph).InData? then |Advance(ph).d| else 0, cursor := s.cursor + p + 2)
      && Front(r) && r.cursor <= |s.line| && At(Advance(ph), s.line[r.cursor..], s.rest, r.remain)
  {
    LineIs(s, ph, heads);
    AdvanceOk(s, ph, heads);
    hide FromHex, Pending, FindEnd, Covered, PhaseOk, LineAt, Found, Loose, Front;
    var r := PosNext(s, s.cursor);
    if s.cursor > 0 {
      FrontOn(s, r);
    } else {
      assert s.line[0..] == s.line;
      FrontFirst(r);
    }
  }

  lemma FrontOn(s: St, r: St)
    requires 0 < s.cursor <= r.cursor <= |s.line| && r.line == s.line && Front(s)
    ensures Front(r)
  {
    hide FindEnd, FromHex;
  }

  lemma FrontFirst(r: St)
    requires 0 < r.cursor <= |r.line|
    requires var p := FindEnd(r.line, 0); p + 2 <= r.cursor && (p == 0 || FromHex(r.line[..p], 0) > 0)
    ensures Front(r)
  {
    hide FindEnd, FromHex;
  }

  lemma AdvanceOk(s: St, ph: Phase, heads: set<nat>)
    requires Loose(s, ph, heads) && !ph.InData? && ph != AtHead([])
    ensures var a := Advance(ph); PhaseOk(a) && !a.Over? && (a.InData? ==> |a.d| > 0) && (ph.AtEnd? <==> !a.InData?)
    ensures s.cursor > 0 ==> Front(s)
  {
    AdvancePending(ph);
  }

  /** Past a line; a chunk-size line with nothing behind it ends where its piece did. */
  lemma FoundMid(s: St, ph: Phase, heads: set<nat>)
    requires Loose(s, ph, heads) && !ph.InData? && ph != AtHead([]) && s.cursor < |s.line| && Found(s, s.cursor)
    ensures
      var r := PosNext(s, s.cursor);
      && r == s.(remain := r.remain, cursor := r.cursor) && s.cursor + 2 <= r.cursor == s.cursor + |LineAt(ph)| + 2
      && Loose(r, Advance(ph), heads) && (ph.AtHead? && Spent(r) ==> |r.rest| in r.stops && |r.rest| in heads)
  {
    hide PosNext, Front, Coded, Covered, Pending, LineAt, Found;
    PosNextIs(s, ph, heads);
    AdvanceCovered(ph, heads, s.rest);
    assert s.line[|s.line|..] == "";
  }

  lemma LastMid(s: St, heads: set<nat>)
    requires Loose(s, AtHead([]), heads) && Found(s, s.cursor)
    ensures
      var r := PosNext(s, s.cursor);
      Ended(r) && r.closed == s.closed && r.stops == s.stops && r.cursor == s.cursor && r.line == s.line
    ensures |s.line| - s.cursor == 5 - |s.rest| && |s.rest| <= 2
  {
    var l := s.line[s.cursor..];
    LastTaken(l, s.rest, FindEnd(l, 0));
    assert |l| + |s.rest| == |l + s.rest|;
  }

  /** A line that is not all there is short, and more than its end is to come. */
  lemma NotFoundShort(s: St, ph: Phase, heads: set<nat>)
    requires Loose(s, ph, heads) && !ph.InData? && !Found(s, s.cursor)
    ensures |s.line| - s.cursor < |LineAt(ph)| + 2 <= 9 && |s.rest| >= 3
  {
    var l := s.line[s.cursor..];
    AdvancePending(ph);
    FindsLine(l, s.rest, LineAt(ph), if ph == AtHead([]) then "\r\n" else Pending(Advance(ph)));
    PendingLong(ph);
    assert |l + s.rest| == |l| + |s.rest|;
  }

  // ----- get_new_chunk -----

  /** At the start of a line of which not all is in, or too little to look at. */
  ghost predicate Waits(s: St, ph: Phase, heads: set<nat>) {
    Loose(s, ph, heads) && !ph.InData? && s.cursor == 0 && (|s.line| < |LineAt(ph)| + 2 || |s.line| <= 2)
  }

  lemma RecvMid(s: St, ph: Phase, heads: set<nat>)
    requires Waits(s, ph, heads)
    ensures Piece(s) > 0 && Loose(Recv(s), ph, heads)
    ensures var m := Recv(s); m.closed == s.closed && m.line != ""
  {
    AdvancePending(ph);
    PendingLong(ph);
    assert s.line[0..] == s.line;
    assert |s.line + s.rest| == |s.line| + |s.rest|;
    RecvBytes(s.line, s.rest, Piece(s));
  }

  lemma RecvBytes(line: string, rest: string, k: nat)
    requires k <= |rest|
    ensures (line + rest[..k])[0..] + rest[k..] == line + rest && |rest[k..]| == |rest| - k
  {
    Assoc(line, rest[..k], rest[k..]);
    assert rest[..k] + rest[k..] == rest;
  }

  lemma {:induction false} RecvLoopMid(s: St, ph: Phase, heads: set<nat>)
    requires Waits(s, ph, heads)
    ensures var r := RecvLoop(s); Inv(r, Advance(ph), heads) && r.closed == s.closed
    decreases |s.rest|
  {
    RecvMid(s, ph, heads);
    var m := Recv(s);
    assert m.line[0..] == m.line;
    if |m.line| > 2 && Found(m, 0) {
      if ph == AtHead([]) { LastMid(m, heads); } else { FoundMid(m, ph, heads); }
    } else {
      if |m.line| > 2 { NotFoundShort(m, ph, heads); }
      RecvLoopMid(m, ph, heads);
    }
  }

  /** A used-up line at the front of the buffer is found again. */
  lemma SpentAgain(s: St, ph: Phase, heads: set<nat>)
    requires Mid(s, ph, heads) && Spent(s) && Piece(s) > 0
    ensures
      var m := Recv(s);
      var p := FindEnd(s.line, 0);
      && |m.line| > 2 && Found(m, 0) && RecvLoop(s) == PosNext(m, 0) && m.line[0..] == m.line
      && FindEnd(m.line, 0) == p && (p == 0 || FromHex(m.line[..p], 0) > 0) && m.closed == s.closed
  {
    var m := Recv(s);
    FrontStays(s.line, s.rest[..Piece(s)]);
    assert m.line[0..] == m.line;
  }

  lemma SpentSteps(s: St, ph: Phase, heads: set<nat>)
    requires Mid(s, ph, heads) && Spent(s) && !Misled(s)
    ensures Piece(s) > 2 && FindEnd(s.line, 0) == 0 && GetNew(s) == Recv(s).(remain := 0, cursor := |s.line| + 2)
    ensures FindEnd(Recv(s).line, 0) == 0
  {
    assert s == s.(lost := s.lost || Misled(s));
    SpentAgain(s, ph, heads);
    assert Recv(s).line[..0] == "";
  }

  /** When the line in front is an empty one, it may stand for the one that is due. */
  lemma SpentPasses(s: St, ph: Phase, heads: set<nat>)
    requires Mid(s, ph, heads) && Spent(s) && ph.AtEnd? && !Misled(s)
    ensures var r := GetNew(s); Inv(r, Advance(ph), heads) && r.closed == s.closed
  {
    SpentSteps(s, ph, heads);
    assert s.line[s.cursor..] == "" && "" + s.rest == s.rest;
    SpentBytes(s.line, s.rest, Piece(s), Coded(ph.cs));
  }

  lemma SpentBytes(line: string, rest: string, k: nat, more: string)
    requires rest == "\r\n" + more && 2 <= k <= |rest|
    ensures (line + rest[..k])[|line| + 2..] + rest[k..] == more
  {
    assert (line + rest[..k])[|line| + 2..] == rest[..k][2..];
    assert rest[..k] + rest[k..] == rest;
    Shifted(rest[..k], rest[k..], "\r\n", more);
  }

  /** Otherwise the reader is out of place. */
  lemma SpentMisleads(s: St, ph: Phase, heads: set<nat>)
    requires Mid(s, ph, heads) && Spent(s) && ph.AtEnd? && Misled(s)
    ensures !Inv(GetNew(s), Advance(ph), heads)
  {
    var s1 := s.(lost := true);
    if Piece(s1) > 0 {
      SpentAgain(s1, ph, heads);
      var m := Recv(s1);
      var p := FindEnd(s.line, 0);
      if p == 0 { assert m.line[..0] == ""; }
    }
  }

  lemma GetNewFresh(s: St, ph: Phase, heads: set<nat>)
    requires Mid(s, ph, heads) && !ph.InData? && !Spent(s)
    requires ph.AtEnd? && s.cursor < |s.line| ==> |s.line| - s.cursor < 2
    ensures var r := GetNew(s); Inv(r, Advance(ph), heads) && r.closed == s.closed
  {
    if s.cursor >= |s.line| {
      RecvLoopMid(s.(lost := s.lost || Misled(s)), ph, heads);
    } else if Found(s, s.cursor) {
      if ph == AtHead([]) {
        LastMid(s, heads);
      } else {
        LineIs(s, ph, heads);
        FoundMid(s, ph, heads);
      }
    } else {
      NotFoundShort(s, ph, heads);
      assert Shift(s).line[0..] == s.line[s.cursor..];
      RecvLoopMid(Shift(s), ph, heads);
    }
  }

  /** get_new_chunk leaves the reader at what follows exactly when it does not take a line that was used
      up for the one that is due. */
  lemma GetNewMid(s: St, ph: Phase, heads: set<nat>)
    requires Mid(s, ph, heads) && !ph.InData?
    requires ph.AtEnd? && s.cursor < |s.line| ==> |s.line| - s.cursor < 2
    ensures var r := GetNew(s); Inv(r, Advance(ph), heads) <==> !Misled(s)
    ensures !Misled(s) ==> GetNew(s).closed == s.closed
    ensures Misled(s) ==> !(s.stops !! heads)
  {
    if Spent(s) {
      if Misled(s) { SpentMisleads(s, ph, heads); } else { SpentPasses(s, ph, heads); }
    } else {
      GetNewFresh(s, ph, heads);
    }
  }

  /** Asked once more after the end, it takes the end of the last line off the socket once more. */
  lemma GetNewEnded(s: St)
    requires Ended(s)
    ensures var r := GetNew(s); Ended(r) && r.lost == s.lost && r.stops == s.stops
    ensures GetNew(s).closed == (s.closed || |s.line| - s.cursor < 5)
  {
    var l := s.line[s.cursor..];
    LastTaken(l, "0\r\n\r\n"[|l|..], 1);
  }

  // ----- data -----

  /** Taking data, from wherever it is. */
  lemma EatAt(ph: Phase, avail: string, rest: string, remain: nat, n: nat)
    requires At(ph, avail, rest, remain) && ph.InData? && 0 < n <= |ph.d| && n <= |avail|
    ensures At(Eat(ph, n), avail[n..], rest, remain - n) && avail[..n] + Payload(Eat(ph, n)) == Payload(ph)
  {
    EatPending(ph, n);
    Shifted(avail, rest, ph.d[..n], Pending(Eat(ph, n)));
    assert (avail + rest)[..n] == avail[..n];
    assert (ph.d[..n] + Pending(Eat(ph, n)))[..n] == ph.d[..n];
  }

  /** After some data: where the reader is then. */
  function After(ph: Phase, n: nat): Phase
    requires ph.InData? ==> n <= |ph.d|
  {
    if ph.InData? then Eat(ph, n) else ph
  }

  lemma MidAt(s: St, ph: Phase, heads: set<nat>)
    requires Mid(s, ph, heads)
    ensures s.cursor <= |s.line| && !s.finish && !s.fault && !ph.Over? && At(ph, s.line[s.cursor..], s.rest, s.remain)
  {
  }

  lemma TakeIs(s: St, ph: Phase, heads: set<nat>, count: nat)
    requires Mid(s, ph, heads) && s.cursor < |s.line| && count > 0
    ensures !ph.Over? && !s.finish && s.remain == (if ph.InData? then |ph.d| else 0)
    ensures var n := TakeCount(s, count);
      (ph.InData? ==> 0 < n <= |ph.d|) && (!ph.InData? ==> n == 0) && PhaseOk(After(ph, n))
    ensures var n := TakeCount(s, count); s.line[s.cursor..s.cursor + n] + Payload(After(ph, n)) == Payload(ph)
    ensures
      var n := TakeCount(s, count);
      At(After(ph, n), s.line[s.cursor..][n..], s.rest, s.remain - n) && Chunks(After(ph, n)) == Chunks(ph)
  {
    MidAt(s, ph, heads);
    hide Mid, At, Payload, PhaseOk, Chunks;
    var n := TakeCount(s, count);
    Cuts(s.line, s.cursor, n);
    TakeAt(ph, s.line[s.cursor..], s.rest, s.remain, n, count);
  }

  lemma TakeLoose(s: St, ph: Phase, heads: set<nat>, count: nat)
    requires Mid(s, ph, heads) && s.cursor < |s.line| && count > 0
    requires ph.InData? ==> TakeCount(s, count) <= |ph.d|
    ensures var n := TakeCount(s, count); Loose(Taken(s, n), After(ph, n), heads)
  {
    TakeFront(s, ph, heads, count);
    TakeIs(s, ph, heads, count);
    hide Mid, Loose, Front, At, PhaseOk, Chunks, Payload;
    var n := TakeCount(s, count);
    TakeMid(s, ph, heads, n, After(ph, n), Taken(s, n));
  }

  lemma TakeMid(s: St, ph: Phase, heads: set<nat>, n: nat, next: Phase, now: St)
    requires Mid(s, ph, heads) && s.cursor + n <= |s.line| && n <= s.remain
    requires now == Taken(s, n) && Front(now)
    requires At(next, s.line[s.cursor..][n..], s.rest, s.remain - n) && Chunks(next) == Chunks(ph)
    ensures Loose(now, next, heads)
  {
    hide Front, At, Covered, Chunks, Spent;
    Cuts(s.line, s.cursor, n);
  }

  lemma Cuts(line: string, cursor: nat, n: nat)
    requires cursor + n <= |line|
    ensures line[cursor..][..n] == line[cursor..cursor + n] && line[cursor..][n..] == line[cursor + n..]
  {
  }

  lemma TakeAt(ph: Phase, avail: string, rest: string, remain: nat, n: nat, count: nat)
    requires At(ph, avail, rest, remain) && avail != "" && count > 0 && n == Min(count, Min(remain, |avail|))
    ensures !ph.Over? && PhaseOk(ph) && remain == (if ph.InData? then |ph.d| else 0)
    ensures (ph.InData? ==> 0 < n <= |ph.d|) && (!ph.InData? ==> n == 0)
    ensures At(After(ph, n), avail[n..], rest, remain - n) && avail[..n] + Payload(After(ph, n)) == Payload(ph) &&
      PhaseOk(After(ph, n))
    ensures Chunks(After(ph, n)) == Chunks(ph)
  {
    if ph.InData? {
      EatAt(ph, avail, rest, remain, n);
    } else {
      assert avail[..0] == "" && avail[0..] == avail && "" + Payload(ph) == Payload(ph);
    }
  }

  lemma TakeFront(s: St, ph: Phase, heads: set<nat>, count: nat)
    requires Mid(s, ph, heads) && s.cursor < |s.line| && count > 0
    ensures Front(Taken(s, TakeCount(s, count)))
  {
  }

  /** The line behind the data in the buffer. */
  lemma NextLineMid(s: St, ph: Phase, heads: set<nat>)
    requires Loose(s, ph, heads) && !ph.InData?
    ensures
      var b := NextLine(s);
      && b.s.closed == s.closed
      && (if b.on then b.s == FoundNext(s) && Found(s, s.cursor) && LineDone(b.s, Advance(ph), heads)
          else Mid(b.s, ph, heads) && b.s.cursor == 0 && |b.s.line| < |LineAt(ph)| + 2 && |s.rest| >= 3 && !Spent(b.s))
      && (b.on && ph == AtHead([]) ==> |s.rest| <= 2 && |b.s.line| - b.s.cursor == 5 - |s.rest|)
      && (!b.on || ph != AtHead([]) ==> b.s.rest == s.rest)
  {
    hide FindEnd, LineAt, Pending, Covered, FromHex;
    if !Found(s, s.cursor) {
      NotFoundShort(s, ph, heads);
      assert Shift(s).line[0..] == s.line[s.cursor..];
    } else if ph == AtHead([]) {
      LastMid(s, heads);
    } else {
      FoundMid(s, ph, heads);
    }
  }

  ghost predicate LineDone(s: St, ph: Phase, heads: set<nat>) {
    if ph.Over? then Ended(s) else Loose(s, ph, heads)
  }

  lemma ResetMid(s: St, ph: Phase, heads: set<nat>)
    requires LineDone(s, ph, heads)
    ensures var r := Reset(s); Inv(r, ph, heads) && !Spent(r) && r.closed == s.closed && r.rest == s.rest
    ensures var r := Reset(s); r.cursor < |r.line| ==> r == s
  {
    if s.cursor == |s.line| { assert s.line[s.cursor..] == "" && ""[0..] == ""; }
  }

  /** From a place to a later one, with the data in between. */
  ghost predicate Leads(s: St, ph: Phase, r: Reading, now: Phase, heads: set<nat>) {
    Inv(r.s, now, heads) && r.out + Payload(now) == Payload(ph) && r.s.closed == s.closed
  }

  /** The buffer has no data left, or all that was asked for is read, and no line end is left. */
  ghost predicate Drained(r: Reading, now: Phase, count: nat) {
    && (|r.out| < count && now.InData? ==> r.s.cursor == |r.s.line|)
    && (now.AtEnd? && r.s.cursor < |r.s.line| ==> |r.s.line| - r.s.cursor < 2)
  }

  /** A pass that takes data and comes to no line. */
  lemma TurnInData(s: St, ph: Phase, heads: set<nat>, count: nat)
    requires Mid(s, ph, heads) && s.cursor < |s.line| && count > 0 && TakeCount(s, count) < s.remain
    ensures
      var n, t := TakeCount(s, count), LineTurn(s, count);
      && t.on && n < |ph.d| && |t.out| == n && Leads(s, ph, t, Eat(ph, n), heads) && !Spent(t.s) && t.s.rest == s.rest
      && (|t.out| == count || t.s.cursor == |t.s.line|)
  {
    hide Loose, Spent;
    var n := TakeCount(s, count);
    TakeIs(s, ph, heads, count);
    TakeLoose(s, ph, heads, count);
    ResetMid(Taken(s, n), Eat(ph, n), heads);
  }

  /** From the data in the buffer past the line behind it, or to the front of what there is of it. */
  lemma LineEnds(s: St, ph: Phase, heads: set<nat>)
    requires Loose(s, ph, heads) && !ph.InData? && !ph.Over?
    ensures
      var b := NextLine(s);
      var r := if b.on then Reset(b.s) else b.s;
      && !Spent(r) && r.closed == s.closed && (ph != AtHead([]) || !b.on ==> r.rest == s.rest)
      && (if b.on then Inv(r, Advance(ph), heads) &&
        (ph == AtHead([]) ==> |s.rest| <= 2 && |r.line| - r.cursor == 5 - |s.rest|)
          else Inv(r, ph, heads) && r.cursor == 0 && |r.line| < |LineAt(ph)| + 2 && |s.rest| >= 3)
  {
    hide Ended, Mid, NextLine, Reset, LineAt, At, Covered, Front;
    NextLineMid(s, ph, heads);
    var b := NextLine(s);
    if b.on {
      ResetMid(b.s, Advance(ph), heads);
      if ph == AtHead([]) { ResetEnded(b.s); }
    }
  }

  /** A pass that comes to a line. */
  lemma TurnToLine(s: St, ph: Phase, heads: set<nat>, count: nat) returns (end: Phase)
    requires Mid(s, ph, heads) && s.cursor < |s.line| && count > 0 && TakeCount(s, count) == s.remain
    ensures !end.InData? && !end.Over? && end == After(ph, s.remain)
    ensures
      var t := LineTurn(s, count);
      && |t.out| == s.remain && !Spent(t.s)
      && (if t.on then
            Leads(s, ph, t, Advance(end), heads) &&
              (end == AtHead([]) ==> |s.rest| <= 2 && |t.s.line| - t.s.cursor == 5 - |s.rest|)
          else Leads(s, ph, t, end, heads) && t.s.cursor == 0 && |t.s.line| < |LineAt(end)| + 2 && |s.rest| >= 3)
      && (end != AtHead([]) || !t.on ==> t.s.rest == s.rest)
  {
    hide Loose, Spent, NextLine, Inv, Mid, Reset, Payload, LineAt, At, PhaseOk, Chunks;
    var n := TakeCount(s, count);
    TakeIs(s, ph, heads, count);
    TakeLoose(s, ph, heads, count);
    end := After(ph, n);
    LineEnds(Taken(s, n), end, heads);
    if NextLine(Taken(s, n)).on { AdvancePending(end); }
  }

  lemma ResetEnded(s: St)
    requires Ended(s)
    ensures Reset(s) == s
  {
  }

  /** read_from_line_buf: out comes data, in order, and the buffer is drained. */
  lemma {:induction false} LineLoopMid(s: St, ph: Phase, heads: set<nat>, count: nat) returns (now: Phase)
    requires Inv(s, ph, heads) && (count == 0 && ph.AtEnd? && s.cursor < |s.line| ==> |s.line| - s.cursor < 2)
    ensures Leads(s, ph, LineLoop(s, count), now, heads) && Drained(LineLoop(s, count), now, count)
    decreases if s.finish then 0 else 1, |s.line| - s.cursor
  {
    if count == 0 || s.cursor >= |s.line| || s.finish {
      now := ph;
      assert "" + Payload(ph) == Payload(ph);
    } else {
      now := LineLoopOn(s, ph, heads, count);
    }
  }

  lemma PassMid(s: St, ph: Phase, heads: set<nat>, count: nat) returns (mid: Phase)
    requires Mid(s, ph, heads) && s.cursor < |s.line| && count > 0
    ensures
      var t := LineTurn(s, count);
      && |t.out| <= count && Leads(s, ph, t, mid, heads)
      && (t.on && |t.out| == count && mid.AtEnd? && t.s.cursor < |t.s.line| ==> |t.s.line| - t.s.cursor < 2)
      && (!t.on ==> Drained(t, mid, count))
  {
    hide LineTurn, Mid, Payload;
    TakeIs(s, ph, heads, count);
    if TakeCount(s, count) < s.remain {
      TurnInData(s, ph, heads, count);
      mid := Eat(ph, |LineTurn(s, count).out|);
    } else {
      var end := TurnToLine(s, ph, heads, count);
      mid := if LineTurn(s, count).on then Advance(end) else end;
    }
  }

  lemma {:induction false} LineLoopOn(s: St, ph: Phase, heads: set<nat>, count: nat) returns (now: Phase)
    requires Mid(s, ph, heads) && s.cursor < |s.line| && count > 0
    ensures Leads(s, ph, LineLoop(s, count), now, heads) && Drained(LineLoop(s, count), now, count)
    decreases if s.finish then 0 else 1, |s.line| - s.cursor, 0
  {
    hide Inv, LineTurn, Mid, Payload;
    MidAt(s, ph, heads);
    var mid := PassMid(s, ph, heads, count);
    var t := LineTurn(s, count);
    now := mid;
    if t.on {
      now := LineLoopMid(t.s, mid, heads, count - |t.out|);
      Assoc(t.out, LineLoop(t.s, count - |t.out|).out, Payload(now));
    }
  }
}
