/** What reading gives, whatever the pieces and the reads. */
module ChunkedTheorems {
  import opened Common
  import opened ChunkedCode
  import opened ChunkedMachine
  import opened ChunkedPhases

  // ----- the end in the line buffer -----

  /** The end of the last line is on its way, and what is before it in the buffer. */
  predicate TailCut(s: St) { 1 <= |s.rest| <= 2 && s.cursor < |s.line| && !s.finish }

  /** With so little to come, something of the coding is in the buffer. */
  lemma TailIn(s: St, ph: Phase, heads: set<nat>)
    requires Mid(s, ph, heads) && |s.rest| <= 2
    ensures s.cursor < |s.line|
  {
    MidAt(s, ph, heads);
    PendingLong(ph);
    assert |s.line[s.cursor..] + s.rest| == |s.line| - s.cursor + |s.rest|;
  }

  /** Whether read_from_line_buf finds the end of the body. */
  ghost predicate EndsIff(s: St, ph: Phase, count: nat) {
    var r := LineLoop(s, count);
    && (r.s.finish <==> |s.rest| <= 2 && |Payload(ph)| < count)
    && (r.s.finish ==> |r.s.line| - r.s.cursor == 5 - |s.rest|)
  }

  lemma EndsOn(s: St, ph: Phase, count: nat, t: Reading, now: Phase)
    requires count > 0 && s.cursor < |s.line| && !s.finish && t == LineTurn(s, count) && t.on && t.s.rest == s.rest
    requires t.out + Payload(now) == Payload(ph) && EndsIff(t.s, now, count - |t.out|)
    ensures EndsIff(s, ph, count)
  {
    hide LineTurn, Payload;
    assert |t.out + Payload(now)| == |t.out| + |Payload(now)|;
  }

  lemma EndsHere(s: St, ph: Phase, count: nat, t: Reading)
    requires count > 0 && s.cursor < |s.line| && !s.finish && t == LineTurn(s, count)
    requires if t.on then t.s.finish && |s.rest| <= 2 && |Payload(ph)| == 0 && |t.s.line| - t.s.cursor == 5 - |s.rest|
             else |s.rest| >= 3 && !t.s.finish
    ensures EndsIff(s, ph, count)
  {
    hide LineTurn, Payload;
    if t.on { assert LineLoop(t.s, count - |t.out|) == Reading(t.s, "", true); }
  }

  /** It does exactly when no more than the end of the last line is still to come, and more is asked for
      than there is. */
  lemma {:induction false} LineLoopEndsIff(s: St, ph: Phase, heads: set<nat>, count: nat)
    requires Mid(s, ph, heads)
    ensures EndsIff(s, ph, count)
    decreases |s.line| - s.cursor
  {
    hide Mid;
    MidAt(s, ph, heads);
    if |s.rest| <= 2 { TailIn(s, ph, heads); }
    if count > 0 && s.cursor < |s.line| {
      TakeIs(s, ph, heads, count);
      if TakeCount(s, count) < s.remain { DataEndsIff(s, ph, heads, count); } else { LineEndsIff(s, ph, heads, count); }
    }
  }

  lemma {:induction false} DataEndsIff(s: St, ph: Phase, heads: set<nat>, count: nat)
    requires Mid(s, ph, heads) && count > 0 && s.cursor < |s.line| && TakeCount(s, count) < s.remain
    ensures EndsIff(s, ph, count)
    decreases |s.line| - s.cursor, 0
  {
    hide Mid, LineTurn, EndsIff;
    MidAt(s, ph, heads);
    TurnInData(s, ph, heads, count);
    var t := LineTurn(s, count);
    var now := Eat(ph, |t.out|);
    MidAt(t.s, now, heads);
    LineLoopEndsIff(t.s, now, heads, count - |t.out|);
    EndsOn(s, ph, count, t, now);
  }

  lemma {:induction false} LineEndsIff(s: St, ph: Phase, heads: set<nat>, count: nat)
    requires Mid(s, ph, heads) && count > 0 && s.cursor < |s.line| && TakeCount(s, count) == s.remain
    ensures EndsIff(s, ph, count)
    decreases |s.line| - s.cursor, 0
  {
    hide Mid, LineTurn, EndsIff, Ended, At;
    MidAt(s, ph, heads);
    TakeIs(s, ph, heads, count);
    var end := TurnToLine(s, ph, heads, count);
    var t := LineTurn(s, count);
    if !t.on {
      MidAt(t.s, end, heads);
      EndsHere(s, ph, count, t);
    } else if end == AtHead([]) {
      EndedIs(t.s);
      assert ph == AtHead([]);
      EndsHere(s, ph, count, t);
    } else {
      MidAt(t.s, Advance(end), heads);
      LineLoopEndsIff(t.s, Advance(end), heads, count - |t.out|);
      EndsOn(s, ph, count, t, Advance(end));
    }
  }

  lemma EndedIs(s: St)
    requires Ended(s)
    ensures s.finish && !s.fault && s.rest == "" && s.remain == 0 && s.cursor < |s.line|
  {
  }

  // ----- a pass of read() -----

  lemma DataLeft(ph: Phase, avail: string, rest: string, remain: nat)
    requires At(ph, avail, rest, remain) && ph.InData? && avail == ""
    ensures |rest| >= remain == |ph.d| > 0
  {
    assert avail + rest == rest;
  }

  /** read_from_stream gives the data of the chunk that the buffer does not have. */
  lemma StreamMid(s: St, ph: Phase, heads: set<nat>, count: nat)
    requires Mid(s, ph, heads) && ph.InData? && s.cursor == |s.line| && count > 0
    ensures
      var b, n := StreamPart(s, count), Min(count, s.remain);
      && b.on && 0 < n <= |ph.d| && |b.out| == n && s.remain == |ph.d| && b.s.remain == s.remain - n
      && Leads(s, ph, b, Eat(ph, n), heads) && b.s.cursor == |b.s.line|
  {
    MidAt(s, ph, heads);
    var n := Min(count, s.remain);
    DataLeft(ph, s.line[s.cursor..], s.rest, s.remain);
    assert s.line[s.cursor..] == "" && "" + s.rest == s.rest;
    StreamAt(ph, s.rest, s.remain, n);
    StreamLoose(s, ph, heads, n);
  }

  lemma StreamAt(ph: Phase, rest: string, remain: nat, n: nat)
    requires At(ph, "", rest, remain) && ph.InData? && 0 < n <= remain && n <= |rest|
    ensures At(Eat(ph, n), "", rest[n..], remain - n) && rest[..n] + Payload(Eat(ph, n)) == Payload(ph) &&
      Chunks(Eat(ph, n)) == Chunks(ph)
  {
    assert "" + rest == rest + "";
    EatAt(ph, rest, "", remain, n);
    assert rest[n..] + "" == "" + rest[n..];
  }

  lemma StreamLoose(s: St, ph: Phase, heads: set<nat>, n: nat)
    requires Mid(s, ph, heads) && ph.InData? && s.cursor == |s.line| && 0 < n <= s.remain && n <= |s.rest| &&
      n <= |ph.d|
    requires At(Eat(ph, n), "", s.rest[n..], s.remain - n) && Chunks(Eat(ph, n)) == Chunks(ph)
    ensures Mid(s.(rest := s.rest[n..], remain := s.remain - n), Eat(ph, n), heads)
  {
    hide At, Covered, Chunks;
    assert s.line[s.cursor..] == "";
  }

  /** In place, unless the reader was misled, and then a piece has ended at the end of a size line. */
  ghost predicate Keeps(s: St, ph: Phase, heads: set<nat>, closed: bool) {
    (s.lost ==> !(s.stops !! heads)) && (!s.lost ==> Inv(s, ph, heads) && s.closed == closed)
  }

  /** The next line, if the data is used up. */
  lemma NextMid(s: St, ph: Phase, heads: set<nat>) returns (now: Phase)
    requires Mid(s, ph, heads) && !s.lost && (ph.AtEnd? && s.cursor < |s.line| ==> |s.line| - s.cursor < 2)
    ensures Keeps(if s.remain == 0 then GetNew(s) else s, now, heads, s.closed) && Payload(now) == Payload(ph)
  {
    MidAt(s, ph, heads);
    now := ph;
    if s.remain == 0 {
      hide Mid, Inv, Payload;
      GetNewMid(s, ph, heads);
      AdvancePending(ph);
      now := Advance(ph);
      MoreStops(s.stops, GetNew(s).stops, heads);
    }
  }

  lemma MoreStops(a: set<nat>, b: set<nat>, heads: set<nat>)
    requires a <= b
    ensures !(a !! heads) ==> !(b !! heads)
  {
  }

  lemma RestMid(s: St, ph: Phase, heads: set<nat>, count: nat) returns (now: Phase)
    requires Mid(s, ph, heads) && !s.lost
    requires (count > 0 && ph.InData? ==> s.cursor == |s.line|) &&
      (ph.AtEnd? && s.cursor < |s.line| ==> |s.line| - s.cursor < 2)
    ensures var r := Rest(s, count); r.on && r.out + Payload(now) == Payload(ph) && Keeps(r.s, now, heads, s.closed)
  {
    MidAt(s, ph, heads);
    if count > 0 && ph.InData? {
      StreamMid(s, ph, heads, count);
      var b := StreamPart(s, count);
      now := NextMid(b.s, Eat(ph, |b.out|), heads);
    } else {
      assert "" + Payload(ph) == Payload(ph);
      now := NextMid(s, ph, heads);
    }
  }

  lemma RestEnded(s: St, count: nat)
    requires Ended(s)
    ensures Rest(s, count) == Reading(GetNew(s), "", true)
  {
  }

  /** One pass of read(): data, in order.  It closes the socket exactly when the end of the last line is
      cut off and more is asked for than there is. */
  lemma TurnMid(s: St, ph: Phase, heads: set<nat>, count: nat) returns (now: Phase)
    requires Mid(s, ph, heads) && !s.lost && count > 0
    ensures
      var r := Turn(s, count);
      && r.on && r.out + Payload(now) == Payload(ph)
      && Keeps(r.s, now, heads, s.closed || (TailCut(s) && |Payload(ph)| < count))
      && (TailCut(s) && |Payload(ph)| < count ==> !r.s.lost && r.s.finish)
  {
    hide Mid, Payload, Keeps, LineLoop, Rest, GetNew, At;
    MidAt(s, ph, heads);
    var a := LineLoop(s, count);
    var mid := LineLoopMid(s, ph, heads, count);
    LineLoopEndsIff(s, ph, heads, count);
    TailIs(s, ph, heads);
    if mid.Over? {
      hide Ended;
      RestEnded(a.s, count - |a.out|);
      GetNewEnded(a.s);
      now := Over;
      KeepsOver(GetNew(a.s), heads, s.closed || (TailCut(s) && |Payload(ph)| < count));
    } else {
      MidAt(a.s, mid, heads);
      now := RestMid(a.s, mid, heads, count - |a.out|);
    }
    Assoc(a.out, Rest(a.s, count - |a.out|).out, Payload(now));
  }

  lemma TailIs(s: St, ph: Phase, heads: set<nat>)
    requires Mid(s, ph, heads)
    ensures TailCut(s) <==> 1 <= |s.rest| <= 2
  {
    if |s.rest| <= 2 { TailIn(s, ph, heads); }
  }

  lemma KeepsOver(s: St, heads: set<nat>, closed: bool)
    requires Ended(s) && !s.lost && s.closed == closed
    ensures Keeps(s, Over, heads, closed)
  {
  }

  // ----- read() and reads -----

  /** Some pass of the read starts with the end of the last line cut off. */
  predicate CutIn(s: St, count: nat)
    decreases Left(s)
  {
    count > 0 && !s.finish &&
    (TailCut(s) ||
     var t := Turn(s, count);
     t.on && !t.s.fault && !t.s.finish && |t.out| != count && CutIn(t.s, count - |t.out|))
  }

  /** The read closes the socket: it asks for more than there is, and finds the end of the last line
      cut off. */
  predicate Closes(s: St, ph: Phase, count: nat) { |Payload(ph)| < count && CutIn(s, count) }

  /** A piece ended inside the last two bytes. */
  predicate EndCut(s: St) { 1 in s.stops || 2 in s.stops }

  lemma TailStops(s: St, ph: Phase, heads: set<nat>)
    requires Mid(s, ph, heads)
    ensures TailCut(s) ==> EndCut(s)
  {
  }

  /** Exactly as many bytes as asked for, or all that are left; short only at the end. */
  ghost predicate Gives(ph: Phase, out: string, count: nat, now: Phase) {
    out + Payload(now) == Payload(ph) && |out| <= count && (|out| < count ==> now.Over?) && (ph.Over? ==> now.Over?)
  }

  lemma {:induction false} ReadMid(s: St, ph: Phase, heads: set<nat>, count: nat) returns (now: Phase)
    requires Inv(s, ph, heads) && !s.lost
    ensures var r := Read(s, count);
      && Keeps(r.s, now, heads, s.closed || Closes(s, ph, count)) && (!r.s.lost ==> Gives(ph, r.out, count, now))
      && (!r.s.lost && CutIn(s, count) ==> EndCut(r.s))
    decreases Left(s)
  {
    if count == 0 || s.finish {
      now := ph;
      assert "" + Payload(ph) == Payload(ph);
    } else {
      now := ReadOn(s, ph, heads, count);
    }
  }

  lemma {:induction false} ReadOn(s: St, ph: Phase, heads: set<nat>, count: nat) returns (now: Phase)
    requires Mid(s, ph, heads) && !s.lost && count > 0
    ensures var r := Read(s, count);
      && Keeps(r.s, now, heads, s.closed || Closes(s, ph, count)) && (!r.s.lost ==> Gives(ph, r.out, count, now))
      && (!r.s.lost && CutIn(s, count) ==> EndCut(r.s))
    decreases Left(s), 0
  {
    hide Mid, Payload, Turn;
    MidAt(s, ph, heads);
    hide At, Ended;
    var t := Turn(s, count);
    now := TurnMid(s, ph, heads, count);
    assert |t.out + Payload(now)| == |t.out| + |Payload(now)|;
    TailStops(s, ph, heads);
    if t.s.lost {
      MoreStops(t.s.stops, Read(s, count).s.stops, heads);
    } else if now.Over? {
      EndedIs(t.s);
    } else {
      MidAt(t.s, now, heads);
      if |t.out| < count {
        var mid := now;
        now := ReadMid(t.s, mid, heads, count - |t.out|);
        Assoc(t.out, Read(t.s, count - |t.out|).out, Payload(now));
      }
    }
  }

  /** So a read that asks for more than there is, while the end of the last line is cut off, has all of
      it and closes the socket; one that asks for no more does not. */
  lemma CutTailCloses(s: St, ph: Phase, heads: set<nat>, count: nat)
    requires Mid(s, ph, heads) && !s.lost && !s.closed && TailCut(s) && count > 0
    ensures var r := Read(s, count);
      && (|Payload(ph)| < count ==> !r.s.lost && r.s.finish && r.s.closed && r.out == Payload(ph))
      && (count <= |Payload(ph)| && !r.s.lost ==> !r.s.closed && r.out == Payload(ph)[..count])
  {
    hide Mid, Turn;
    MidAt(s, ph, heads);
    hide At;
    var r := Read(s, count);
    if |Payload(ph)| < count {
      var now := TurnMid(s, ph, heads, count);
      assert r == Turn(s, count);
      if !now.Over? { MidAt(r.s, now, heads); }
      assert r.out + "" == r.out;
    } else {
      var now := ReadMid(s, ph, heads, count);
      if !r.s.lost { assert r.out == (r.out + Payload(now))[..|r.out|]; }
    }
  }

  /** The first n of these together. */
  function Total(counts: seq<nat>, n: nat): nat
    requires n <= |counts|
  {
    if n == 0 then 0 else Total(counts, n - 1) + counts[n - 1]
  }

  ghost predicate SoFar(all: string, out: string, asked: nat, ph: Phase) {
    out + Payload(ph) == all && |out| <= asked && (|out| < asked ==> ph.Over?)
  }

  lemma {:induction false} TotalPrefix(counts: seq<nat>, n: nat, m: nat)
    requires n <= m <= |counts|
    ensures Total(counts[..m], n) == Total(counts, n)
  {
    if n == 0 {
    } else {
      TotalPrefix(counts, n - 1, m);
    }
  }

  lemma SoFarMore(all: string, out: string, asked: nat, ph: Phase, o: string, count: nat, now: Phase)
    requires SoFar(all, out, asked, ph) && Gives(ph, o, count, now)
    ensures SoFar(all, out + o, asked + count, now)
  {
    Assoc(out, o, Payload(now));
  }

  lemma InvSound(s: St, ph: Phase, heads: set<nat>)
    requires Inv(s, ph, heads)
    ensures !s.fault && s.(fault := false) == s
  {
  }

  lemma ReadsIs(s: St, counts: seq<nat>, n: nat)
    requires |counts| == n + 1
    ensures
      var a := Reads(s, counts[..n]);
      var b := Read(a.s.(fault := false), counts[n]);
      Reads(s, counts) == Reading(b.s, a.out + b.out, true) && a.s.stops <= b.s.stops && (a.s.lost ==> b.s.lost)
  {
    hide Read;
  }

  lemma {:induction false} ReadsMid(s: St, ph: Phase, heads: set<nat>, counts: seq<nat>) returns (now: Phase)
    requires Inv(s, ph, heads) && !s.lost && !s.closed
    ensures var r := Reads(s, counts);
      && (r.s.lost ==> !(r.s.stops !! heads))
      && (!r.s.lost ==>
        Inv(r.s, now, heads) && SoFar(Payload(ph), r.out, Total(counts, |counts|), now) && (r.s.closed ==> EndCut(r.s)))
    decreases |counts|
  {
    now := ph;
    if counts == [] {
      assert "" + Payload(ph) == Payload(ph);
    } else {
      hide Inv, Payload, SoFar, Total, EndCut, Read, Reads;
      var n := |counts| - 1;
      var mid := ReadsMid(s, ph, heads, counts[..n]);
      TotalPrefix(counts, n, n);
      ReadsIs(s, counts, n);
      var a := Reads(s, counts[..n]);
      var b := Read(a.s.(fault := false), counts[n]);
      if a.s.lost {
        MoreStops(a.s.stops, b.s.stops, heads);
      } else {
        InvSound(a.s, mid, heads);
        now := ReadMid(a.s, mid, heads, counts[n]);
        if !b.s.lost { SoFarMore(Payload(ph), a.out, Total(counts, n), mid, b.out, counts[n], now); }
      }
    }
  }

  lemma AllRead(all: string, out: string, asked: nat, ph: Phase)
    requires SoFar(all, out, asked, ph)
    ensures out == all[..Min(asked, |all|)] && (asked > |all| ==> ph.Over?)
  {
    assert out == (out + Payload(ph))[..|out|];
  }

  lemma Starts(cs: seq<string>, split: nat, pieces: seq<nat>)
    requires Sizes(cs) && split <= |Coded(cs)|
    ensures Inv(Start(Coded(cs)[..split], Coded(cs)[split..], pieces), AtHead(cs), Heads(cs))
  {
    HeadsCover(cs, Heads(cs));
    var a, b := Coded(cs)[..split], Coded(cs)[split..];
    assert a[0..] == a && a + b == Coded(cs);
  }

  /** The coding of any chunks, in any pieces, and any reads: they give the payload in order, as much as
      they ask for, and end when it does, unless a used-up line is taken for the next one; and that
      takes a piece that ends at the end of a chunk-size line.  The socket stays open unless a piece
      ends inside the last two bytes. */
  lemma ReadsGive(cs: seq<string>, split: nat, pieces: seq<nat>, counts: seq<nat>)
    requires Sizes(cs) && split <= |Coded(cs)|
    ensures
      var r := Reads(Start(Coded(cs)[..split], Coded(cs)[split..], pieces), counts);
      var asked := Total(counts, |counts|);
      && (r.s.lost ==> !(r.s.stops !! Heads(cs)))
      && (!r.s.lost ==>
            && r.out == Joined(cs)[..Min(asked, |Joined(cs)|)] && !r.s.fault && (asked > |Joined(cs)| ==> r.s.finish)
            && (r.s.closed ==> 1 in r.s.stops || 2 in r.s.stops))
  {
    var s := Start(Coded(cs)[..split], Coded(cs)[split..], pieces);
    Starts(cs, split, pieces);
    var now := ReadsMid(s, AtHead(cs), Heads(cs), counts);
    var r := Reads(s, counts);
    if !r.s.lost {
      AllRead(Joined(cs), r.out, Total(counts, |counts|), now);
      if now.Over? { EndedIs(r.s); } else { MidAt(r.s, now, Heads(cs)); }
    }
  }
}
