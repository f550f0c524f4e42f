/** ChunkedBodyWriteStream. */
module Chunked {
  import opened Common
  import opened ChunkedCode

  // ----- the writer -----

  /** What is left of a text that snprintf puts into ten bytes. */
  function InTen(full: string): string { if |full| < 10 then full else full[..9] + "\0" }

  /** snprintf("%x\r\n") into ten bytes, and of those as many as it says it printed. */
  function Printed(count: nat): (r: string)
    ensures |r| >= 3
  {
    InTen(Hex(count % 0x1_0000_0000) + "\r\n")
  }

  lemma PrintedIs(count: nat)
    requires count < LIMIT
    ensures Printed(count) == Hex(count) + "\r\n"
  {
    hide Hex, InTen, Pow16;
    HexLength(count, 7);
    Pow16Seven();
    var c := count % 0x1_0000_0000;
    assert c == count;
    ShortFits(Hex(c), "\r\n");
  }

  lemma ShortFits(h: string, e: string)
    requires |h| + |e| < 10
    ensures InTen(h + e) == h + e
  {
  }

  lemma PrintedShort(count: nat)
    requires count < LIMIT
    ensures Printed(count) == Hex(count) + "\r\n" && Printed(count)[|Printed(count)| - 2..] == "\r\n"
  {
    PrintedIs(count);
    var h, e := Hex(count), "\r\n";
    Suffix(h, e, |h + e| - 2);
  }

  lemma Suffix(a: string, b: string, k: int)
    requires k == |a|
    ensures (a + b)[k..] == b
  {
  }

  /** What write() sends is a chunk of the coding exactly when its size fits seven digits. */
  lemma SizeLineIff(count: nat)
    ensures Printed(count) == Hex(count) + "\r\n" <==> count < LIMIT
  {
    if count < LIMIT {
      PrintedIs(count);
    } else {
      PrintedLong(count);
      HexLength(count, 7);
      Pow16Seven();
      EndsInNewline(Hex(count));
    }
  }

  lemma PrintedLong(count: nat)
    ensures |Printed(count)| < 10 || (|Printed(count)| == 10 && Printed(count)[9] == '\0')
  {
  }

  lemma EndsInNewline(h: string)
    ensures |h + "\r\n"| == |h| + 2 && (h + "\r\n")[|h| + 1] == '\n'
  {
  }

  class Writer {
    var sent: string
    var finish: bool

    constructor ()
      ensures sent == "" && !finish
    {
      sent, finish := "", false;
    }

    method Write(data: string) returns (count: nat)
      modifies this`sent
      ensures count == |data|
      ensures |data| < LIMIT ==> sent == old(sent) + Chunk(data)
    {
      var size := Printed(|data|);
      sent := sent + size + data + size[|size| - 2..];
      if |data| < LIMIT {
        PrintedShort(|data|);
        assert old(sent) + size + data + "\r\n" == old(sent) + (size + data + "\r\n");
      }
      return |data|;
    }

    method Close()
      modifies this
      ensures finish
      ensures sent == if old(finish) then old(sent) else old(sent) + "0\r\n\r\n"
    {
      if finish { return; }
      var n := Write("");
      assert Hex(0) == "0" && Chunk("") == "0\r\n\r\n";
      finish := true;
    }
  }

  lemma {:induction false} CodedSnoc(cs: seq<string>, c: string)
    ensures Coded(cs + [c]) == Front(cs) + Chunk(c) + "0\r\n\r\n" && Coded(cs) == Front(cs) + "0\r\n\r\n"
    ensures Front(cs + [c]) == Front(cs) + Chunk(c)
  {
    if cs == [] {
      assert [c][1..] == [] && cs + [c] == [c];
      assert "" + Chunk(c) == Chunk(c) && "" + "0\r\n\r\n" == "0\r\n\r\n" && Chunk(c) + "" == Chunk(c);
    } else {
      CodedSnoc(cs[1..], c);
      assert (cs + [c])[1..] == cs[1..] + [c];
      Assoc(Chunk(cs[0]), Front(cs[1..]), Chunk(c));
      Assoc(Chunk(cs[0]), Front(cs[1..]), "0\r\n\r\n");
      Assoc(Chunk(cs[0]), Front(cs[1..]) + Chunk(c), "0\r\n\r\n");
    }
  }

  /** All the chunks, without the last one that is empty. */
  function Front(cs: seq<string>): string { if cs == [] then "" else Chunk(cs[0]) + Front(cs[1..]) }

  /** Writes and a close put the coding of the writes on the wire. */
  method WriteAll(cs: seq<string>) returns (wire: string)
    requires Sizes(cs)
    ensures wire == Coded(cs)
  {
    var w := new Writer();
    var i := 0;
    while i < |cs|
      invariant i <= |cs| && !w.finish && w.sent == Front(cs[..i])
    {
      var n := w.Write(cs[i]);
      CodedSnoc(cs[..i], cs[i]);
      assert cs[..i + 1] == cs[..i] + [cs[i]];
      i := i + 1;
    }
    assert cs[..i] == cs;
    CodedSnoc(cs, "");
    w.Close();
    return w.sent;
  }
}
