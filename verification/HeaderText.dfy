/** The text of a header store as lines, and where in it the keys and values are. */
module HeaderText {
  import opened HeaderOrder

  datatype Line = Line(key: string, value: string)

  /** Positions relative to the start of the text. */
  datatype Span = Span(offset: nat, length: nat)

  datatype KV = KV(first: Span, second: Span)

  function Rendered(l: Line): string { l.key + ": " + l.value + "\r\n" }

  function Text(ls: seq<Line>): string {
    if ls == [] then "" else Text(ls[..|ls| - 1]) + Rendered(ls[|ls| - 1])
  }

  function Start(ls: seq<Line>, j: nat): nat
    requires j <= |ls|
  {
    |Text(ls[..j])|
  }

  function Entry(ls: seq<Line>, j: nat): KV
    requires j < |ls|
  {
    KV(Span(Start(ls, j), |ls[j].key|), Span(Start(ls, j) + |ls[j].key| + 2, |ls[j].value|))
  }

  ghost predicate Inside(text: string, s: Span) { s.offset + s.length <= |text| }

  function Cut(text: string, s: Span): string
    requires s.offset + s.length <= |text|
  {
    text[s.offset..s.offset + s.length]
  }

  lemma TextSnoc(ls: seq<Line>, l: Line)
    ensures Text(ls + [l]) == Text(ls) + Rendered(l)
  {
    assert (ls + [l])[..|ls|] == ls;
  }

  /** What comes after line j starts where line j ends. */
  lemma {:induction false} TextFrom(ls: seq<Line>, j: nat)
    requires j <= |ls|
    ensures Start(ls, j) <= |Text(ls)| && Text(ls)[..Start(ls, j)] == Text(ls[..j])
    decreases |ls|
  {
    if j == |ls| {
      assert ls[..j] == ls;
    } else {
      var init := ls[..|ls| - 1];
      TextFrom(init, j);
      assert init[..j] == ls[..j];
    }
  }

  /** An index entry names its own line's key and value, and lies within that line. */
  lemma EntryReads(ls: seq<Line>, j: nat)
    requires j < |ls|
    ensures
      var e := Entry(ls, j);
      && Inside(Text(ls), e.first) && Cut(Text(ls), e.first) == ls[j].key
      && Inside(Text(ls), e.second) && Cut(Text(ls), e.second) == ls[j].value
      && Start(ls, j) + |Rendered(ls[j])| == Start(ls, j + 1) <= |Text(ls)|
  {
    var t, k, v, at := Text(ls), ls[j].key, ls[j].value, Start(ls, j);
    var u := Text(ls[..j + 1]);
    LineInText(ls, j);
    ReadsBack(Text(ls[..j]), k, v);
    PrefixCut(t, |u|, Span(at, |k|));
    PrefixCut(t, |u|, Span(at + |k| + 2, |v|));
  }

  lemma LineInText(ls: seq<Line>, j: nat)
    requires j < |ls|
    ensures
      var u := Text(ls[..j + 1]);
      && u == Text(ls[..j]) + Rendered(ls[j]) && |u| == Start(ls, j) + |ls[j].key| + |ls[j].value| + 4
      && |u| <= |Text(ls)| && u == Text(ls)[..|u|]
  {
    assert ls[..j + 1] == ls[..j] + [ls[j]];
    TextSnoc(ls[..j], ls[j]);
    TextFrom(ls, j + 1);
  }

  lemma ReadsBack(before: string, k: string, v: string)
    ensures
      var u := before + Rendered(Line(k, v));
      u[|before|..|before| + |k|] == k && u[|before| + |k| + 2..|before| + |k| + 2 + |v|] == v
  {
    var r := Rendered(Line(k, v));
    assert r[..|k|] == k && r[|k| + 2..|k| + 2 + |v|] == v;
    var u := before + r;
    assert u[|before|..|before| + |k|] == r[..|k|];
    assert u[|before| + |k| + 2..|before| + |k| + 2 + |v|] == r[|k| + 2..|k| + 2 + |v|];
  }

  lemma PrefixCut(t: string, n: nat, s: Span)
    requires n <= |t| && s.offset + s.length <= n
    ensures Cut(t, s) == Cut(t[..n], s)
  {
  }

  /** Entries of earlier lines do not mind later ones. */
  lemma EntryStays(ls: seq<Line>, j: nat, l: Line)
    requires j < |ls|
    ensures Entry(ls + [l], j) == Entry(ls, j)
  {
    assert (ls + [l])[..j] == ls[..j];
  }

  lemma EntryLast(ls: seq<Line>, l: Line)
    ensures Entry(ls + [l], |ls|) == KV(Span(|Text(ls)|, |l.key|), Span(|Text(ls)| + |l.key| + 2, |l.value|))
  {
    assert (ls + [l])[..|ls|] == ls;
  }

  // ----- a change of the first line -----

  lemma {:induction false} TextCons(ls: seq<Line>)
    requires ls != []
    ensures Text(ls) == Rendered(ls[0]) + Text(ls[1..])
    decreases |ls|
  {
    var init, last := ls[..|ls| - 1], ls[|ls| - 1];
    if |ls| == 1 {
      assert init == [] && ls[1..] == [];
      assert Text(ls) == "" + Rendered(ls[0]);
    } else {
      TextCons(init);
      assert ls[1..][..|ls| - 2] == init[1..];
      assert Text(ls) == Rendered(ls[0]) + (Text(init[1..]) + Rendered(last));
    }
  }

  lemma FirstLine(ls: seq<Line>, l: Line)
    requires ls != []
    ensures Text(ls) == Rendered(ls[0]) + Text(ls[1..])
    ensures Text(ls[0 := l]) == Rendered(l) + Text(ls[1..])
  {
    TextCons(ls);
    TextCons(ls[0 := l]);
    assert ls[0 := l][1..] == ls[1..];
  }

  /** Replacing the first line shifts the entries of all others by the difference in length. */
  lemma EntryShifts(ls: seq<Line>, l: Line, j: nat)
    requires 0 < j < |ls|
    ensures
      var d := |Rendered(l)| - |Rendered(ls[0])|;
      var e, f := Entry(ls, j), Entry(ls[0 := l], j);
      && f.first.offset == e.first.offset + d && f.first.length == e.first.length
      && f.second.offset == e.second.offset + d && f.second.length == e.second.length
      && e.first.offset > 0
  {
    assert ls[0 := l][..j] == ls[..j][0 := l];
    FirstLine(ls[..j], l);
    assert ls[..j][0] == ls[0];
  }
}
