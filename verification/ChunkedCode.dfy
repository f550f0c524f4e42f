/** The chunked coding of section 4.1 of RFC 7230, as strings; and what is left of it at any point. */
module ChunkedCode {
  import opened Common

  // ----- sizes in hex -----

  function HexDigit(d: nat): (c: char)
    requires d < 16
    ensures '0' <= c <= '9' || 'a' <= c <= 'f'
  {
    if d < 10 then ('0' as int + d) as char else ('a' as int + (d - 10)) as char
  }

  /** printf's %x. */
  function Hex(n: nat): (s: string)
    ensures s != "" && forall i :: 0 <= i < |s| ==> '0' <= s[i] <= '9' || 'a' <= s[i] <= 'f'
  {
    if n < 16 then [HexDigit(n)] else Hex(n / 16) + [HexDigit(n % 16)]
  }

  function Value(c: char): int {
    if '0' <= c <= '9' then c as int - '0' as int
    else if 'A' <= c <= 'F' then c as int - 'A' as int + 10
    else if 'a' <= c <= 'f' then c as int - 'a' as int + 10
    else -1
  }

  /** hex_to_uint64: up to the first character that is no digit. */
  function FromHex(s: string, acc: nat): nat
    decreases |s|
  {
    if s == "" || Value(s[0]) < 0 then acc else FromHex(s[1..], acc * 16 + Value(s[0]))
  }

  lemma {:induction false} FromHexSnoc(s: string, d: nat, acc: nat)
    requires d < 16 && forall i :: 0 <= i < |s| ==> Value(s[i]) >= 0
    ensures FromHex(s + [HexDigit(d)], acc) == FromHex(s, acc) * 16 + d
    decreases |s|
  {
    var t := s + [HexDigit(d)];
    assert Value(HexDigit(d)) == d;
    if s == "" {
      assert t[1..] == "";
    } else {
      assert t[1..] == s[1..] + [HexDigit(d)];
      FromHexSnoc(s[1..], d, acc * 16 + Value(s[0]));
    }
  }

  /** Reading back what was printed. */
  lemma {:induction false} HexRoundTrip(n: nat)
    ensures FromHex(Hex(n), 0) == n
  {
    if n < 16 {
      assert "" + [HexDigit(n)] == [HexDigit(n)];
      FromHexSnoc("", n, 0);
    } else {
      HexRoundTrip(n / 16);
      FromHexSnoc(Hex(n / 16), n % 16, 0);
    }
  }

  function Pow16(k: nat): nat { if k == 0 then 1 else 16 * Pow16(k - 1) }

  lemma {:induction false} HexLength(n: nat, k: nat)
    requires k > 0
    ensures |Hex(n)| <= k <==> n < Pow16(k)
    decreases k
  {
    if n < 16 {
      Pow16Grows(k);
    } else if k > 1 {
      HexLength(n / 16, k - 1);
      DivMul(n, Pow16(k - 1));
    }
  }

  lemma {:induction false} Pow16Grows(k: nat)
    requires k > 0
    ensures Pow16(k) >= 16
  {
    if k > 1 { Pow16Grows(k - 1); }
  }

  lemma DivMul(n: nat, m: nat)
    ensures n / 16 < m <==> n < 16 * m
  {
  }

  lemma Pow16Seven()
    ensures Pow16(7) == 0x1000_0000 && Pow16(8) == 0x1_0000_0000
  {
    assert Pow16(1) == 16 && Pow16(2) == 0x100 && Pow16(3) == 0x1000;
    assert Pow16(4) == 0x1_0000 && Pow16(5) == 0x10_0000 && Pow16(6) == 0x100_0000;
    assert Pow16(7) == 16 * Pow16(6);
    assert Pow16(8) == 16 * Pow16(7);
  }

  // ----- the coding -----

  const LIMIT: nat := 0x1000_0000

  function Chunk(c: string): string { Hex(|c|) + "\r\n" + c + "\r\n" }

  function Coded(cs: seq<string>): string {
    if cs == [] then "0\r\n\r\n" else Chunk(cs[0]) + Coded(cs[1..])
  }

  predicate Sizes(cs: seq<string>) { forall i :: 0 <= i < |cs| ==> 0 < |cs[i]| < LIMIT }

  /** What a reader has still to get: chunks; or the rest of one chunk's data first; or the line end
      behind that data first; or nothing. */
  datatype Phase = AtHead(cs: seq<string>) | InData(d: string, cs: seq<string>) | AtEnd(cs: seq<string>) | Over

  function Chunks(p: Phase): seq<string> { if p.Over? then [] else p.cs }

  function Pending(p: Phase): string {
    match p
    case AtHead(cs) => Coded(cs)
    case InData(d, cs) => d + "\r\n" + Coded(cs)
    case AtEnd(cs) => "\r\n" + Coded(cs)
    case Over => ""
  }

  function Payload(p: Phase): string {
    match p
    case AtHead(cs) => Joined(cs)
    case InData(d, cs) => d + Joined(cs)
    case AtEnd(cs) => Joined(cs)
    case Over => ""
  }

  ghost predicate PhaseOk(p: Phase) { Sizes(Chunks(p)) && (p.InData? ==> p.d != "") }

  /** Past one line: a chunk-size line, or the empty one behind the data. */
  function Advance(p: Phase): Phase
    requires p.AtHead? || p.AtEnd?
  {
    match p
    case AtEnd(cs) => AtHead(cs)
    case AtHead(cs) => if cs == [] then Over else InData(cs[0], cs[1..])
  }

  /** Past some of the data. */
  function Eat(p: Phase, n: nat): Phase
    requires p.InData? && n <= |p.d|
  {
    if n == |p.d| then AtEnd(p.cs) else InData(p.d[n..], p.cs)
  }

  /** The line a reader is at, without its end. */
  function LineAt(p: Phase): string {
    match p
    case AtHead(cs) => (if cs == [] then "0" else Hex(|cs[0]|))
    case AtEnd(_) => ""
    case InData(_, _) => ""
    case Over => ""
  }

  lemma AdvancePending(p: Phase)
    requires PhaseOk(p) && (p.AtHead? || p.AtEnd?)
    ensures p != AtHead([]) ==> Pending(p) == LineAt(p) + "\r\n" + Pending(Advance(p))
    ensures p == AtHead([]) ==> Pending(p) == LineAt(p) + "\r\n" + "\r\n"
    ensures PhaseOk(Advance(p)) && Payload(Advance(p)) == Payload(p)
    ensures |LineAt(p)| <= 7 && FromHex(LineAt(p), 0) == (if Advance(p).InData? then |Advance(p).d| else 0)
  {
    match p
    case AtEnd(cs) => assert "" + "\r\n" == "\r\n";
    case AtHead(cs) =>
      if cs == [] {
        assert Hex(0) == "0";
        HexRoundTrip(0);
      } else {
        HexRoundTrip(|cs[0]|);
        HexLength(|cs[0]|, 7);
        Pow16Seven();
        Regroup(Hex(|cs[0]|) + "\r\n", cs[0], "\r\n", Coded(cs[1..]));
      }
  }

  lemma Regroup(a: string, b: string, c: string, d: string)
    ensures (a + b + c) + d == a + (b + c + d)
  {
  }

  lemma EatPending(p: Phase, n: nat)
    requires p.InData? && n <= |p.d|
    ensures Pending(p) == p.d[..n] + Pending(Eat(p, n)) && Payload(p) == p.d[..n] + Payload(Eat(p, n))
    ensures PhaseOk(p) ==> PhaseOk(Eat(p, n))
  {
    SplitHead(p.d, n, "\r\n", Coded(p.cs));
    SplitHead(p.d, n, "", Joined(p.cs));
    assert p.d + "" == p.d && p.d[n..] + "" == p.d[n..];
    if n == |p.d| {
      assert p.d[n..] == "" && p.d[..n] == p.d;
      assert "" + "\r\n" == "\r\n" && "" + Joined(p.cs) == Joined(p.cs);
    }
  }

  lemma SplitHead(d: string, n: nat, a: string, b: string)
    requires n <= |d|
    ensures d + a + b == d[..n] + (d[n..] + a + b)
  {
  }

  // ----- finding the line end -----

  predicate EndAt(s: string, i: nat) { i + 2 <= |s| && s[i] == '\r' && s[i + 1] == '\n' }

  function FindEnd(s: string, from: nat): (r: nat)
    requires from <= |s|
    ensures from <= r <= |s| && (r < |s| ==> EndAt(s, r)) && forall i :: from <= i < r ==> !EndAt(s, i)
    decreases |s| - from
  {
    if from == |s| || EndAt(s, from) then from else FindEnd(s, from + 1)
  }

  /** In the part of a line, its end and more that has come in, the line end is found as soon as all of
      it is there, and not before. */
  lemma FindsLine(avail: string, rest: string, line: string, more: string)
    requires avail + rest == line + "\r\n" + more && forall i :: 0 <= i < |line| ==> line[i] != '\r'
    ensures FindEnd(avail, 0) == if |avail| >= |line| + 2 then |line| else |avail|
    ensures |avail| >= |line| + 2 ==> avail[..|line|] == line
    ensures rest == "" ==> |avail| >= |line| + 2
  {
    var all := line + "\r\n" + more;
    assert |all| == |avail| + |rest|;
    forall i | 0 <= i < |avail| ensures avail[i] == all[i] { assert avail[i] == (avail + rest)[i]; }
    assert all[|line|] == '\r' && all[|line| + 1] == '\n';
    forall i | 0 <= i < |line| ensures all[i] == line[i] { }
    var r := FindEnd(avail, 0);
    if |avail| >= |line| + 2 {
      assert EndAt(avail, |line|);
      assert forall i :: 0 <= i < |line| ==> !EndAt(avail, i);
    } else {
      assert forall i :: 0 <= i < |avail| ==> !EndAt(avail, i);
    }
  }
}
