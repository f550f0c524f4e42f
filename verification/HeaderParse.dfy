/** Reading a header text back: the parser moves one pointer, and the index is made anew. */
module HeaderParse {
  import opened HeaderOrder
  import opened HeaderText
  import opened HeaderIndex

  /** The first place from `from` on where the character stands, or the end. */
  function FindFirst(text: string, from: nat, c: char): (r: nat)
    requires from <= |text|
    ensures from <= r <= |text| && (r < |text| ==> text[r] == c) && forall i :: from <= i < r ==> text[i] != c
    decreases |text| - from
  {
    if from == |text| || text[from] == c then from else FindFirst(text, from + 1, c)
  }

  /** Leading spaces. */
  function Spaces(v: string): (n: nat)
    ensures n <= |v| && (n < |v| ==> v[n] != ' ') && forall i :: 0 <= i < n ==> v[i] == ' '
  {
    if v == "" || v[0] != ' ' then 0 else 1 + Spaces(v[1..])
  }

  /** A line as it is received: whatever stands between its colon and its end. */
  datatype Raw = Raw(key: string, rest: string)

  function Shown(l: Raw): string { l.key + ":" + l.rest + "\r\n" }

  /** What the parser needs of a line to see where its key and value end. */
  predicate WellFormed(l: Raw) {
    ':' !in l.key && (l.key != "" ==> l.key[0] != '\r') && '\r' !in l.rest
  }

  /** What the parser makes of a line that starts at `at`. */
  function ParsedAt(at: nat, l: Raw): KV {
    var n := Spaces(l.rest);
    KV(Span(at, |l.key|), Span(at + |l.key| + 1 + n, |l.rest| - n))
  }

  /** Without the spaces in front of the value. */
  function Meant(l: Raw): Line { Line(l.key, l.rest[Spaces(l.rest)..]) }

  function Meaning(rs: seq<Raw>): (ls: seq<Line>)
    ensures |ls| == |rs| && forall i :: 0 <= i < |rs| ==> ls[i] == Meant(rs[i])
  {
    seq(|rs|, i requires 0 <= i < |rs| => Meant(rs[i]))
  }

  function TextOf(rs: seq<Raw>): string {
    if rs == [] then "" else TextOf(rs[..|rs| - 1]) + Shown(rs[|rs| - 1])
  }

  function StartOf(rs: seq<Raw>, j: nat): nat
    requires j <= |rs|
  {
    |TextOf(rs[..j])|
  }

  lemma TextOfSnoc(rs: seq<Raw>, j: nat)
    requires j < |rs|
    ensures TextOf(rs[..j + 1]) == TextOf(rs[..j]) + Shown(rs[j]) &&
      StartOf(rs, j) + |Shown(rs[j])| == StartOf(rs, j + 1)
  {
    assert rs[..j + 1][..j] == rs[..j];
  }

  lemma {:induction false} TextOfPrefix(rs: seq<Raw>, j: nat)
    requires j <= |rs|
    ensures TextOf(rs[..j]) <= TextOf(rs)
    decreases |rs|
  {
    if j == |rs| {
      assert rs[..j] == rs;
    } else {
      var init := rs[..|rs| - 1];
      TextOfPrefix(init, j);
      assert init[..j] == rs[..j];
    }
  }

  class Parser {
    const text: string
    var ptr: nat

    constructor (text: string)
      ensures this.text == text && ptr == 0
    {
      this.text, ptr := text, 0;
    }

    method SkipString(s: string)
      requires ptr <= |text|
      modifies this
      ensures ptr == if ptr <= |text| && s <= old(text[ptr..]) then old(ptr) + |s| else old(ptr)
      ensures ptr <= |text|
    {
      if s <= text[ptr..] { ptr := ptr + |s|; }
    }

    /** Nothing stops this at the end of the text: some other character must stand before it. */
    method SkipChars(c: char, continuously: bool, ghost stop: nat)
      requires ptr < |text|
      requires continuously ==> ptr <= stop < |text| && text[stop] != c && forall i :: ptr <= i < stop ==> text[i] == c
      modifies this
      ensures ptr == if continuously then stop else if text[old(ptr)] == c then old(ptr) + 1 else old(ptr)
    {
      while text[ptr] == c
        invariant if continuously then old(ptr) <= ptr <= stop else ptr == old(ptr)
        decreases stop - ptr
      {
        ptr := ptr + 1;
        if !continuously { return; }
      }
    }

    method ExtractUntilChar(c: char) returns (s: Span)
      requires ptr <= |text|
      modifies this
      ensures ptr == FindFirst(text, old(ptr), c) && s == Span(old(ptr), ptr - old(ptr))
    {
      var begin := ptr;
      while ptr < |text| && text[ptr] != c
        invariant begin <= ptr <= |text| && FindFirst(text, begin, c) == FindFirst(text, ptr, c)
      {
        ptr := ptr + 1;
      }
      s := Span(begin, ptr - begin);
    }

    /** One line: its key, and its value without leading spaces. */
    method ParseLine(ghost l: Raw, ghost more: string) returns (e: KV)
      requires ptr <= |text| && text[ptr..] == Shown(l) + more && WellFormed(l)
      modifies this
      ensures ptr == old(ptr) + |Shown(l)| && ptr <= |text| && text[ptr..] == more
      ensures e == ParsedAt(old(ptr), l)
    {
      hide Spaces, WellFormed, FindFirst, Shown;
      ghost var at := ptr;
      LineParts(text, at, l, more);
      AfterLine(text, at, l, more);
      var k := ExtractUntilChar(':');
      SkipChars(':', false, 0);
      SkipChars(' ', true, at + |l.key| + 1 + Spaces(l.rest));
      var v := ExtractUntilChar('\r');
      SkipString("\r\n");
      e := KV(k, v);
    }
  }

  lemma AfterLine(text: string, at: nat, l: Raw, more: string)
    requires at <= |text| && text[at..] == Shown(l) + more
    ensures at + |Shown(l)| <= |text| && text[at + |Shown(l)|..] == more
    ensures |Shown(l)| == |l.key| + 1 + |l.rest| + 2
  {
    assert text[at..][|Shown(l)|..] == more;
  }

  lemma {:induction false} FindsAt(text: string, from: nat, c: char, at: nat)
    requires from <= at < |text| && text[at] == c && forall i :: from <= i < at ==> text[i] != c
    ensures FindFirst(text, from, c) == at
  {
  }

  lemma Parts(s: string, l: Raw, more: string)
    requires s == Shown(l) + more
    ensures |s| >= |l.key| + 1 + |l.rest| + 2
    ensures forall i :: 0 <= i < |l.key| ==> s[i] == l.key[i]
    ensures s[|l.key|] == ':'
    ensures forall i :: 0 <= i < |l.rest| ==> s[|l.key| + 1 + i] == l.rest[i]
    ensures s[|l.key| + 1 + |l.rest|] == '\r' && s[|l.key| + 2 + |l.rest|] == '\n'
  {
  }

  lemma PartsAt(text: string, at: nat, k: nat, v: nat, e: nat, l: Raw, more: string)
    requires at <= |text| && text[at..] == Shown(l) + more && k == at + |l.key| && v == k + 1 && e == v + |l.rest|
    ensures e + 2 <= |text| && text[k] == ':' && text[e] == '\r' && text[e + 1] == '\n'
    ensures forall i :: at <= i < k ==> text[i] == l.key[i - at]
    ensures forall i :: v <= i < e ==> text[i] == l.rest[i - v]
  {
    var s := text[at..];
    Parts(s, l, more);
    assert forall i :: at <= i < |text| ==> text[i] == s[i - at];
  }

  lemma LineParts(text: string, at: nat, l: Raw, more: string)
    requires at <= |text| && text[at..] == Shown(l) + more && WellFormed(l)
    ensures
      var k, v, n := at + |l.key|, at + |l.key| + 1, Spaces(l.rest);
      && v + |l.rest| + 2 <= |text|
      && FindFirst(text, at, ':') == k && text[k] == ':'
      && (forall i :: v <= i < v + n ==> text[i] == ' ') && text[v + n] != ' '
      && FindFirst(text, v + n, '\r') == v + |l.rest|
      && "\r\n" <= text[v + |l.rest|..]
  {
    var k, n := at + |l.key|, Spaces(l.rest);
    var v, e := k + 1, k + 1 + |l.rest|;
    PartsAt(text, at, k, v, e, l, more);
    FindsAt(text, at, ':', k);
    FindsAt(text, v + n, '\r', e);
    assert text[e..][0] == '\r' && text[e..][1] == '\n';
  }

  // ----- the whole text -----

  ghost predicate ParsedInv(rs: seq<Raw>, order: seq<nat>, kv: seq<KV>, i: nat)
    requires |order| == |kv|
  {
    i < |kv| ==> order[i] < |rs| && kv[i] == ParsedAt(StartOf(rs, order[i]), rs[order[i]])
  }

  /** Each entry is what the parser made of line order[i]. */
  ghost predicate Parsed(rs: seq<Raw>, order: seq<nat>, kv: seq<KV>) {
    |order| == |kv| && forall i :: ParsedInv(rs, order, kv, i)
  }

  /** n - 1 down to 0: kv_add puts each entry in front. */
  function Down(n: nat): (r: seq<nat>)
    ensures |r| == n && forall i :: 0 <= i < n ==> r[i] == n - 1 - i
  {
    if n == 0 then [] else [n - 1] + Down(n - 1)
  }

  function Rest(rs: seq<Raw>, j: nat, body: string): string
    requires j <= |rs|
    decreases |rs| - j
  {
    if j == |rs| then "\r\n" + body else Shown(rs[j]) + Rest(rs, j + 1, body)
  }

  lemma {:induction false} RestIsRest(rs: seq<Raw>, j: nat, body: string)
    requires j <= |rs|
    ensures TextOf(rs[..j]) + Rest(rs, j, body) == TextOf(rs) + ("\r\n" + body)
    decreases |rs| - j
  {
    if j == |rs| {
      assert rs[..j] == rs;
    } else {
      RestIsRest(rs, j + 1, body);
      TextOfSnoc(rs, j);
      assert (TextOf(rs[..j]) + Shown(rs[j])) + Rest(rs, j + 1, body) ==
        TextOf(rs[..j]) + (Shown(rs[j]) + Rest(rs, j + 1, body));
    }
  }

  lemma RestFirst(rs: seq<Raw>, j: nat, body: string)
    requires j <= |rs| && forall i :: 0 <= i < |rs| ==> WellFormed(rs[i])
    ensures Rest(rs, j, body) != "" && (Rest(rs, j, body)[0] == '\r' <==> j == |rs|)
  {
    if j < |rs| {
      assert WellFormed(rs[j]);
      assert Rest(rs, j, body)[0] == (rs[j].key + ":")[0];
    }
  }

  /** The loop of parse(): every line up to the empty one, whatever follows that.  It fails exactly
      when the entries would reach down to the text. */
  method ParseLines(text: string, bufCapacity: nat, ghost rs: seq<Raw>, ghost body: string)
    returns (r: int, kv: seq<KV>)
    requires text == TextOf(rs) + ("\r\n" + body) && forall i :: 0 <= i < |rs| ==> WellFormed(rs[i])
    ensures r == 0 || r == -1
    ensures r == -1 <==> rs != [] && bufCapacity - KvSize(|rs|) <= |text|
    ensures r == 0 ==> |kv| == |rs| && Parsed(rs, Down(|rs|), kv)
  {
    var p := new Parser(text);
    kv := [];
    ghost var j: nat := 0;
    RestIsRest(rs, 0, body);
    RestFirst(rs, 0, body);
    assert rs[..0] == [] && text[0..] == text;
    while p.text[p.ptr] != '\r'
      invariant j <= |rs| && p.text == text && p.ptr == StartOf(rs, j) < |text| && text[p.ptr..] == Rest(rs, j, body)
      invariant p.text[p.ptr] == '\r' <==> j == |rs|
      invariant |kv| == j && Parsed(rs, Down(j), kv) && (j > 0 ==> bufCapacity - KvSize(j) > |text|)
      decreases |rs| - j
    {
      assert WellFormed(rs[j]);
      ghost var at := p.ptr;
      var e := p.ParseLine(rs[j], Rest(rs, j + 1, body));
      if bufCapacity - KvSize(|kv| + 1) <= |text| { return -1, kv; }
      AddFirst(rs, j, kv, e);
      kv := [e] + kv;
      TextOfSnoc(rs, j);
      RestFirst(rs, j + 1, body);
      j := j + 1;
    }
    return 0, kv;
  }

  lemma AddFirst(rs: seq<Raw>, j: nat, kv: seq<KV>, e: KV)
    requires j < |rs| && |kv| == j && Parsed(rs, Down(j), kv) && e == ParsedAt(StartOf(rs, j), rs[j])
    ensures Parsed(rs, Down(j + 1), [e] + kv)
  {
    var o, w := Down(j + 1), [e] + kv;
    forall i: nat ensures ParsedInv(rs, o, w, i) {
      if 0 < i <= j { assert ParsedInv(rs, Down(j), kv, i - 1); }
    }
  }

  // ----- sorting -----

  function KeyIn(text: string, e: KV): string {
    if e.first.offset + e.first.length <= |text| then text[e.first.offset..e.first.offset + e.first.length] else ""
  }

  /** What the parser makes of a line reads as its key, and as its value without leading spaces. */
  lemma ParsedReads(rs: seq<Raw>, j: nat)
    requires j < |rs|
    ensures
      var t, e := TextOf(rs), ParsedAt(StartOf(rs, j), rs[j]);
      && Inside(t, e.first) && Cut(t, e.first) == rs[j].key
      && Inside(t, e.second) && Cut(t, e.second) == Meant(rs[j]).value
  {
    var t, u, before, l := TextOf(rs), TextOf(rs[..j + 1]), TextOf(rs[..j]), rs[j];
    TextOfSnoc(rs, j);
    TextOfPrefix(rs, j + 1);
    hide TextOf, Shown;
    LineReads(t, u, before, l);
  }

  lemma LineReads(t: string, u: string, before: string, l: Raw)
    requires u <= t && u == before + Shown(l)
    ensures
      var e := ParsedAt(|before|, l);
      Inside(t, e.first) && Cut(t, e.first) == l.key && Inside(t, e.second) && Cut(t, e.second) == Meant(l).value
  {
    var e := ParsedAt(|before|, l);
    ShownReads(before, l.key, l.rest, Spaces(l.rest));
    assert t[..|u|] == u;
    PrefixCut(t, |u|, e.first);
    PrefixCut(t, |u|, e.second);
  }

  lemma ShownReads(before: string, k: string, rest: string, n: nat)
    requires n <= |rest|
    ensures
      var u, at := before + Shown(Raw(k, rest)), |before|;
      && |u| == at + |k| + 1 + |rest| + 2
      && u[at..at + |k|] == k && u[at + |k| + 1 + n..at + |k| + 1 + |rest|] == rest[n..]
  {
    var r := Shown(Raw(k, rest));
    assert r[..|k|] == k && r[|k| + 1..|k| + 1 + |rest|] == rest;
    var u, at := before + r, |before|;
    assert u[at..at + |k|] == r[..|k|];
    assert u[at + |k| + 1 + n..at + |k| + 1 + |rest|] == r[|k| + 1 + n..|k| + 1 + |rest|];
  }

  lemma KeyReads(rs: seq<Raw>, j: nat, text: string)
    requires j < |rs| && TextOf(rs) <= text
    ensures KeyIn(text, ParsedAt(StartOf(rs, j), rs[j])) == rs[j].key
  {
    ParsedReads(rs, j);
    PrefixReads(text, TextOf(rs), ParsedAt(StartOf(rs, j), rs[j]), rs[j].key);
  }

  lemma PrefixReads(text: string, t: string, e: KV, k: string)
    requires t <= text && Inside(t, e.first) && Cut(t, e.first) == k
    ensures KeyIn(text, e) == k
  {
    assert text[..|t|] == t;
    PrefixCut(text, |t|, e.first);
  }

  /** std::sort, of which only this is used: the same entries, in order of their keys.  Equal keys may
      come out either way. */
  method Sort(text: string, kv: seq<KV>, ghost rs: seq<Raw>, ghost order: seq<nat>)
    returns (w: seq<KV>, ghost o: seq<nat>)
    requires TextOf(rs) <= text && Parsed(rs, order, kv)
    ensures Parsed(rs, o, w) && Sorted(Keys(Meaning(rs), o)) && multiset(o) == multiset(order)
  {
    w, o := [], [];
    var i: nat := 0;
    while i < |kv|
      invariant i <= |kv| && Parsed(rs, o, w) && Sorted(Keys(Meaning(rs), o)) && multiset(o) == multiset(order[..i])
    {
      assert ParsedInv(rs, order, kv, i);
      KeyReads(rs, order[i], text);
      var p := Place(text, w, KeyIn(text, kv[i]), rs, o);
      PlaceKeeps(rs, o, w, order[i], kv[i], p);
      assert order[..i + 1] == order[..i] + [order[i]];
      assert o == o[..p] + o[p..];
      w, o := InsertAt(w, p, kv[i]), InsertAt(o, p, order[i]);
      i := i + 1;
    }
    assert order[..i] == order;
  }

  method Place(text: string, w: seq<KV>, key: string, ghost rs: seq<Raw>, ghost o: seq<nat>) returns (p: nat)
    requires TextOf(rs) <= text && Parsed(rs, o, w) && Sorted(Keys(Meaning(rs), o))
    ensures Cuts(Keys(Meaning(rs), o), key, p)
  {
    p := 0;
    ghost var ks := Keys(Meaning(rs), o);
    while p < |w| && Icmp(KeyIn(text, w[p]), key) < 0
      invariant p <= |w| && forall i :: 0 <= i < p ==> Icmp(ks[i], key) < 0
    {
      assert ParsedInv(rs, o, w, p);
      KeyReads(rs, o[p], text);
      p := p + 1;
    }
    if p < |w| {
      assert ParsedInv(rs, o, w, p);
      KeyReads(rs, o[p], text);
      NotLessAfter(ks, key, p);
    }
  }

  lemma PlaceKeeps(rs: seq<Raw>, o: seq<nat>, w: seq<KV>, j: nat, e: KV, p: nat)
    requires Parsed(rs, o, w) && Sorted(Keys(Meaning(rs), o)) && j < |rs| && e == ParsedAt(StartOf(rs, j), rs[j])
    requires Cuts(Keys(Meaning(rs), o), rs[j].key, p)
    ensures Parsed(rs, InsertAt(o, p, j), InsertAt(w, p, e)) && Sorted(Keys(Meaning(rs), InsertAt(o, p, j)))
  {
    var o', w', ks := InsertAt(o, p, j), InsertAt(w, p, e), Keys(Meaning(rs), o);
    forall i: nat ensures ParsedInv(rs, o', w', i) {
      if i < p { assert ParsedInv(rs, o, w, i); }
      if p < i < |w'| { assert ParsedInv(rs, o, w, i - 1); }
    }
    CutKeepsSorted(ks, rs[j].key, p);
    PlacedKeys(rs, o, w, j, p);
  }

  lemma PlacedKeys(rs: seq<Raw>, o: seq<nat>, w: seq<KV>, j: nat, p: nat)
    requires Parsed(rs, o, w) && j < |rs| && p <= |o|
    ensures Keys(Meaning(rs), InsertAt(o, p, j)) == Keys(Meaning(rs), o)[..p] + [rs[j].key] + Keys(Meaning(rs), o)[p..]
  {
    var o', ks := InsertAt(o, p, j), Keys(Meaning(rs), o);
    var got, want := Keys(Meaning(rs), o'), InsertAt(ks, p, rs[j].key);
    forall i | 0 <= i < |got| ensures got[i] == want[i] {
      if i < p {
        assert ParsedInv(rs, o, w, i) && o'[i] == o[i];
      } else if p < i {
        assert ParsedInv(rs, o, w, i - 1) && o'[i] == o[i - 1];
      }
    }
    assert got == want;
  }

  /** The entry reads as the key and the value of line j. */
  ghost predicate Names(text: string, e: KV, ls: seq<Line>, j: nat) {
    j < |ls| && Inside(text, e.first) && Cut(text, e.first) == ls[j].key && Inside(text, e.second) &&
      Cut(text, e.second) == ls[j].value
  }

  lemma NamesLine(text: string, rs: seq<Raw>, j: nat, body: string)
    requires j < |rs| && text == TextOf(rs) + ("\r\n" + body)
    ensures Names(text, ParsedAt(StartOf(rs, j), rs[j]), Meaning(rs), j)
  {
    var e := ParsedAt(StartOf(rs, j), rs[j]);
    ParsedReads(rs, j);
    assert text[..|TextOf(rs)|] == TextOf(rs);
    PrefixCut(text, |TextOf(rs)|, e.first);
    PrefixCut(text, |TextOf(rs)|, e.second);
  }

  /** parse(): the index of what was rendered, sorted; each line has one entry. */
  method Parse(text: string, bufCapacity: nat, ghost rs: seq<Raw>, ghost body: string)
    returns (r: int, kv: seq<KV>, ghost order: seq<nat>)
    requires text == TextOf(rs) + ("\r\n" + body) && forall i :: 0 <= i < |rs| ==> WellFormed(rs[i])
    ensures r == 0 || r == -1
    ensures r == -1 <==> rs != [] && bufCapacity - KvSize(|rs|) <= |text|
    ensures r == 0 ==>
      Parsed(rs, order, kv) && Sorted(Keys(Meaning(rs), order)) && multiset(order) == multiset(Down(|rs|))
    ensures r == 0 ==> forall i :: 0 <= i < |kv| ==> Names(text, kv[i], Meaning(rs), order[i])
  {
    r, kv := ParseLines(text, bufCapacity, rs, body);
    order := [];
    if r == 0 {
      kv, order := Sort(text, kv, rs, Down(|rs|));
      forall i | 0 <= i < |kv| ensures Names(text, kv[i], Meaning(rs), order[i]) {
        assert ParsedInv(rs, order, kv, i);
        NamesLine(text, rs, order[i], body);
      }
    }
  }

  // ----- the round trip -----

  /** A permutation of the line numbers, in the terms of the index. */
  lemma Permutes(order: seq<nat>, n: nat)
    requires multiset(order) == multiset(Down(n))
    ensures |order| == n && (forall i, j :: Once(order, i, j)) && forall j :: 0 <= j < n ==> j in order
  {
    assert |multiset(order)| == |multiset(Down(n))|;
    forall j | 0 <= j < n ensures j in order {
      assert Down(n)[n - 1 - j] == j;
      assert j in multiset(order);
    }
    forall i: nat, j: nat ensures Once(order, i, j) {
      if i < j < |order| && order[i] == order[j] {
        DownOnce(n, order[i]);
        Twice(order, i, j);
      }
    }
  }

  lemma OneMore(x: nat, s: seq<nat>)
    ensures multiset([x] + s) == multiset(s)[x := multiset(s)[x] + 1]
  {
  }

  lemma DownStep(n: nat, s: seq<nat>)
    requires n > 0 && s == Down(n - 1)
    ensures Down(n) == [n - 1] + s
  {
  }

  lemma {:induction false} DownOnce(n: nat, x: nat)
    ensures multiset(Down(n))[x] == if x < n then 1 else 0
  {
    hide Down;
    if n == 0 {
    } else {
      DownOnce(n - 1, x);
      DownStep(n, Down(n - 1));
      OneMore(n - 1, Down(n - 1));
    }
  }

  lemma Twice(s: seq<nat>, i: nat, j: nat)
    requires i < j < |s| && s[i] == s[j]
    ensures multiset(s)[s[i]] >= 2
  {
    assert s == s[..j] + s[j..];
    assert s[..j][i] == s[i] && s[j..][0] == s[j];
    assert s[i] in multiset(s[..j]) && s[i] in multiset(s[j..]);
  }

  /** Lines as insert() writes them. */
  function Written(ls: seq<Line>): (rs: seq<Raw>)
    ensures |rs| == |ls| && forall i :: 0 <= i < |ls| ==> rs[i] == Raw(ls[i].key, " " + ls[i].value)
  {
    seq(|ls|, i requires 0 <= i < |ls| => Raw(ls[i].key, " " + ls[i].value))
  }

  lemma {:induction false} WrittenText(ls: seq<Line>)
    ensures TextOf(Written(ls)) == Text(ls)
    decreases |ls|
  {
    if ls == [] {
    } else {
      var n := |ls| - 1;
      WrittenPrefix(ls, n);
      WrittenText(ls[..n]);
      assert ls[n].key + ":" + (" " + ls[n].value) + "\r\n" == ls[n].key + ": " + ls[n].value + "\r\n";
    }
  }

  lemma WrittenPrefix(ls: seq<Line>, j: nat)
    requires j <= |ls|
    ensures Written(ls)[..j] == Written(ls[..j])
  {
  }

  lemma WrittenAt(ls: seq<Line>, j: nat)
    requires j < |ls|
    ensures ParsedAt(StartOf(Written(ls), j), Written(ls)[j]) == Entry(ls, j) <==> Spaces(ls[j].value) == 0
  {
    WrittenPrefix(ls, j);
    WrittenText(ls[..j]);
    assert (" " + ls[j].value)[1..] == ls[j].value;
  }

  /** Without leading spaces in the values, what was inserted is what is parsed: the parsed index is an
      index of the same lines, each entry naming the very key and value. */
  lemma {:induction false} ParsedIsIndex(ls: seq<Line>, order: seq<nat>, kv: seq<KV>)
    requires Parsed(Written(ls), order, kv) && multiset(order) == multiset(Down(|ls|))
    requires forall i :: 0 <= i < |ls| ==> Spaces(ls[i].value) == 0
    ensures Indexed(ls, order, kv)
  {
    Permutes(order, |ls|);
    forall i: nat ensures EntryInv(ls, order, kv, i) {
      assert ParsedInv(Written(ls), order, kv, i);
      if i < |kv| { WrittenAt(ls, order[i]); }
    }
  }

  /** And only then: a value with a leading space comes back shorter. */
  lemma {:induction false} LeadingSpaceIsLost(ls: seq<Line>, order: seq<nat>, kv: seq<KV>, i: nat)
    requires Parsed(Written(ls), order, kv) && i < |kv|
    ensures order[i] < |ls| && (kv[i] == Entry(ls, order[i]) <==> Spaces(ls[order[i]].value) == 0)
  {
    assert ParsedInv(Written(ls), order, kv, i);
    WrittenAt(ls, order[i]);
  }

  /** With no two keys alike, any two sorted indexes of the same lines answer every look-up alike:
      the one that grew by inserts, and the one made by the parser. */
  lemma SameAnswers(ls: seq<Line>, o: seq<nat>, kv: seq<KV>, o': seq<nat>, kv': seq<KV>, key: string)
    requires Indexed(ls, o, kv) && Indexed(ls, o', kv')
    requires forall i, j :: 0 <= i < j < |ls| ==> Icmp(ls[i].key, ls[j].key) != 0
    ensures
      var i, j := Scan(Keys(ls, o), key, 0), Scan(Keys(ls, o'), key, 0);
      (i < |o| <==> j < |o'|) && (i < |o| ==> o[i] == o'[j])
  {
    var i, j := Scan(Keys(ls, o), key, 0), Scan(Keys(ls, o'), key, 0);
    if i < |o| {
      assert EntryInv(ls, o, kv, i);
      ScanSound(Keys(ls, o), key, 0);
      ScanOnly(ls, o', kv', key, o[i]);
    } else if j < |o'| {
      assert EntryInv(ls, o', kv', j);
      ScanSound(Keys(ls, o'), key, 0);
      ScanOnly(ls, o, kv, key, o'[j]);
    }
  }

  lemma {:induction false} ScanSound(ks: seq<string>, key: string, from: nat)
    requires from <= |ks|
    ensures
      var r := Scan(ks, key, from);
      (r < |ks| ==> Icmp(ks[r], key) == 0) && forall i :: from <= i < r ==> Icmp(ks[i], key) != 0
    decreases |ks| - from
  {
    if from < |ks| && Icmp(ks[from], key) != 0 { ScanSound(ks, key, from + 1); }
  }

  /** If line n has the key, the scan stops at the entry of line n. */
  lemma ScanOnly(ls: seq<Line>, o: seq<nat>, kv: seq<KV>, key: string, n: nat)
    requires Indexed(ls, o, kv) && n < |ls| && Icmp(ls[n].key, key) == 0
    requires forall i, j :: 0 <= i < j < |ls| ==> Icmp(ls[i].key, ls[j].key) != 0
    ensures var i := Scan(Keys(ls, o), key, 0); i < |o| && o[i] == n
  {
    var ks := Keys(ls, o);
    var i := Scan(ks, key, 0);
    ScanSound(ks, key, 0);
    assert n in o;
    var m: nat :| m < |o| && o[m] == n;
    assert EntryInv(ls, o, kv, m);
    assert i <= m;
    assert EntryInv(ls, o, kv, i);
    IcmpFlips(ls[n].key, key);
    IcmpTransitive(ks[i], key, ls[n].key);
    IcmpFlips(ks[i], key);
    IcmpTransitive(ls[n].key, key, ks[i]);
    IcmpFlips(ls[n].key, ks[i]);
  }
}
