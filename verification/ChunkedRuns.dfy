/** Runs of the chunked reader that go wrong, and one next to each that does not. */
module ChunkedRuns {
  import opened Common
  import opened ChunkedCode
  import opened ChunkedMachine

  /** The bytes of one chunk with the data "a". */
  const WIRE := "1\r\na\r\n0\r\n\r\n"

  lemma WireIs()
    ensures Coded(["a"]) == WIRE
  {
    assert Hex(1) == "1" by { assert [HexDigit(1)] == "1"; }
    assert ["a"][1..] == [];
    assert Chunk("a") == "1\r\na\r\n";
  }

  lemma FindsAt(s: string, p: nat)
    requires p + 2 <= |s| && EndAt(s, p) && forall i :: 0 <= i < p ==> !EndAt(s, i)
    ensures FindEnd(s, 0) == p
  {
    var r := FindEnd(s, 0);
    assert r <= p && r >= p;
  }

  lemma OneTurn(s: St, count: nat, t: Reading)
    requires count > 0 && !s.finish && t == Turn(s, count) && t.on && !t.s.fault
    ensures t.s.finish || |t.out| == count ==> Read(s, count) == t
    ensures !t.s.finish && |t.out| != count ==> Read(s, count).out == t.out + Read(t.s, count - |t.out|).out
    ensures !t.s.finish && |t.out| != count ==> Read(s, count).s == Read(t.s, count - |t.out|).s
  {
    hide Turn;
  }

  // ----- a used-up line is read again -----

  const USED_0 := Start("", WIRE, [3])
  const USED_1 := St("1\r\n", 3, 1, false, false, false, "a\r\n0\r\n\r\n", [], {11, 8}, false)
  const USED_2 := St("1\r\n\r\n0\r\n\r\n", 6, 1, false, false, true, "", [], {11, 8, 0}, false)

  /** The first piece is the size line alone. */
  lemma UsedFirst()
    ensures Turn(USED_0, 1) == Reading(USED_1, "", true)
  {
    var m := Recv(USED_0);
    assert WIRE[..3] == "1\r\n" && WIRE[3..] == "a\r\n0\r\n\r\n" && "" + "1\r\n" == "1\r\n";
    assert m == St("1\r\n", 0, 0, false, false, false, "a\r\n0\r\n\r\n", [], {11, 8}, false);
    assert m.line[0..] == "1\r\n";
    FindsAt("1\r\n", 1);
    assert "1\r\n"[..1] == "1" && FromHex("1", 0) == 1;
    assert PosNext(m, 0) == USED_1;
    assert GetNew(USED_0) == USED_1;
  }

  /** The data comes from the socket, and then the size line is found once more. */
  lemma UsedSecond()
    ensures Turn(USED_1, 1) == Reading(USED_2, "a", true)
  {
    var b := St("1\r\n", 3, 0, false, false, false, "\r\n0\r\n\r\n", [], {11, 8}, false);
    assert "a\r\n0\r\n\r\n"[..1] == "a" && "a\r\n0\r\n\r\n"[1..] == "\r\n0\r\n\r\n";
    assert StreamPart(USED_1, 1) == Reading(b, "a", true);
    FindsAt("1\r\n", 1);
    var m := Recv(b.(lost := true));
    assert "\r\n0\r\n\r\n"[..7] == "\r\n0\r\n\r\n" && "\r\n0\r\n\r\n"[7..] == "";
    assert m == St("1\r\n\r\n0\r\n\r\n", 3, 0, false, false, true, "", [], {11, 8, 0}, false);
    assert m.line[0..] == "1\r\n\r\n0\r\n\r\n";
    FindsAt(m.line, 1);
    assert m.line[..1] == "1" && FromHex("1", 0) == 1;
    assert PosNext(m, 0) == USED_2;
    assert GetNew(b) == USED_2;
    assert "" + "a" == "a";
  }

  lemma UsedThird()
    ensures Turn(USED_2, 1).out == "\r" && Turn(USED_2, 1).on && !Turn(USED_2, 1).s.fault
  {
    var a := Taken(USED_2, 1);
    assert a.line[7..] == "\n\r\n";
    FindsAt("\n\r\n", 1);
    assert "\n\r\n"[..1] == "\n" && FromHex("\n", 0) == 0;
    var b := NextLine(a);
    assert b.on && b.s.finish && b.s.remain == 0 && b.s.cursor == 7;
    assert LineTurn(USED_2, 1) == Reading(b.s, "\r", true) by { assert USED_2.line[6..7] == "\r"; }
    assert LineLoop(b.s, 0) == Reading(b.s, "", true);
    assert LineLoop(USED_2, 1) == Reading(b.s, "\r" + "", true);
    assert "\r" + "" == "\r" && "\r" + "" == "\r";
    var c := GetNew(b.s);
    assert StreamPart(b.s, 0) == Reading(b.s, "", true);
    assert c == PosNext(b.s, 7) && !c.fault;
  }

  lemma OneRead(s: St, n: nat)
    ensures Reads(s, [n]) == Reading(Read(s.(fault := false), n).s, Read(s.(fault := false), n).out, true)
  {
    hide Read;
    assert [n][..0] == [];
    assert Reads(s, []) == Reading(s, "", true);
    assert "" + Read(s.(fault := false), n).out == Read(s.(fault := false), n).out;
  }

  lemma TwoReads(s: St, n: nat, m: nat)
    requires !s.fault && !Read(s, n).s.fault
    ensures
      var a := Read(s, n);
      var b := Read(a.s, m);
      Reads(s, [n, m]) == Reading(b.s, a.out + b.out, true)
  {
    hide Read;
    var c: seq<nat> := [n, m];
    assert c[..1] == [n];
    OneRead(s, n);
    assert s.(fault := false) == s && Read(s, n).s.(fault := false) == Read(s, n).s;
  }

  lemma UsedReads()
    ensures Read(USED_0, 1).s == USED_2 && Read(USED_0, 1).out == "a" && Read(USED_2, 1).out == "\r"
  {
    hide Turn, Read;
    UsedFirst();
    UsedSecond();
    UsedThird();
    OneTurn(USED_0, 1, Reading(USED_1, "", true));
    OneTurn(USED_1, 1, Reading(USED_2, "a", true));
    assert "" + "a" == "a";
    OneTurn(USED_2, 1, Turn(USED_2, 1));
  }

  /** One chunk with the data "a"; the first piece ends at the end of the size line, and there are two
      reads of one byte.  The second returns a byte that is not of the payload. */
  lemma UsedUpLineIsReadAgain()
    ensures
      var r := Reads(Start("", Coded(["a"]), [3]), [1, 1]);
      r.out == "a\r" && r.s.lost
  {
    hide Turn, Read;
    WireIs();
    UsedReads();
    TwoReads(USED_0, 1, 1);
    assert "a" + "\r" == "a\r";
  }

  // ----- the same line, harmless -----

  /** When the initial part ends at the end of the first size line, read_from_line_buf finds that line,
      and empties the buffer. */
  lemma FirstLineIsCleared(cs: seq<string>, pieces: seq<nat>, count: nat)
    requires cs != [] && Sizes(cs) && count > 0 && |Hex(|cs[0]|)| + 2 <= |Coded(cs)|
    ensures
      var h := |Hex(|cs[0]|)| + 2;
      var s := Start(Coded(cs)[..h], Coded(cs)[h..], pieces);
      var r := LineLoop(s, count);
      r.s == s.(line := "", cursor := 0, remain := |cs[0]|) && r.out == "" && !Misled(r.s)
  {
    var h := |Hex(|cs[0]|)| + 2;
    var s := Start(Coded(cs)[..h], Coded(cs)[h..], pieces);
    FirstLineIsFound(cs, s);
    hide Coded, Hex, Found, PosNext;
    var t := s.(line := "", cursor := 0, remain := |cs[0]|);
    assert s.line[0..0] == "";
    assert Taken(s, 0) == s;
    assert LineTurn(s, count) == Reading(t, "", true);
    assert LineLoop(t, count) == Reading(t, "", true);
    assert "" + "" == "";
  }

  lemma FirstLineIsFound(cs: seq<string>, s: St)
    requires cs != [] && Sizes(cs) && |Hex(|cs[0]|)| + 2 <= |Coded(cs)|
    requires s.line == Coded(cs)[..|Hex(|cs[0]|)| + 2] && s.rest == Coded(cs)[|Hex(|cs[0]|)| + 2..]
    requires s.cursor == 0 && s.remain == 0
    ensures Found(s, 0) && PosNext(s, 0) == s.(remain := |cs[0]|, cursor := |s.line|)
  {
    var ph := AtHead(cs);
    var line, more := LineAt(ph), Pending(Advance(ph));
    AdvancePending(ph);
    assert s.line[0..] == s.line && s.line + s.rest == Coded(cs);
    FindsLine(s.line, s.rest, line, more);
  }
}
