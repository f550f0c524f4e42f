/**
 The header store: text that grows up from the start of a buffer and an index, sorted by key, that
 grows down from its end, eight bytes an entry.
 */
module HeaderStore {
  import opened Common
  import opened HeaderOrder
  import opened HeaderText
  import opened HeaderIndex

  const EEXIST := 17

  function Patched(m: string, at: nat, s: string): (r: string)
    requires at + |s| <= |m|
    ensures |r| == |m|
  {
    m[..at] + s + m[at + |s|..]
  }

  class Store {
    const mem: array<char>
    var buf: nat           // m_buf, as a position in the memory it points into
    var bufSize: nat
    var bufCapacity: nat
    var kv: seq<KV>        // from kv_begin() to kv_end()
    var lastKv: nat
    ghost var lines: seq<Line>
    ghost var order: seq<nat>

    /** The text is the lines, and ends before the index begins. */
    ghost predicate TextOk()
      reads this, mem
    {
      && buf + bufCapacity <= mem.Length && bufCapacity < 0x1_0000
      && bufSize + KvSize(|kv|) <= bufCapacity
      && mem[..][buf..buf + bufSize] == Text(lines)
    }

    ghost predicate IndexOk()
      reads this`lines, this`order, this`kv
    {
      Indexed(lines, order, kv) && Sorted(Keys(lines, order))
    }

    /** The last entry inserted is that of the last line. */
    ghost predicate LastOk()
      reads this`lines, this`order, this`lastKv
    {
      lines != [] ==> lastKv < |order| && order[lastKv] == |lines| - 1
    }

    ghost predicate Valid()
      reads this, mem
    {
      TextOk() && IndexOk() && LastOk()
    }

    constructor (mem: array<char>, buf: nat, bufCapacity: nat)
      requires buf + bufCapacity <= mem.Length && bufCapacity < 0x1_0000
      ensures Valid() && lines == [] && this.mem == mem && this.buf == buf && this.bufCapacity == bufCapacity
    {
      this.mem, this.buf, this.bufCapacity := mem, buf, bufCapacity;
      bufSize, kv, lastKv, lines, order := 0, [], 0, [], [];
    }

    function SpaceRemain(): int
      reads this
    {
      bufCapacity - bufSize - KvSize(|kv|)
    }

    // ----- looking up -----

    method Read(s: Span) returns (r: string)
      requires TextOk() && Inside(Text(lines), s)
      ensures r == Cut(Text(lines), s)
    {
      assert |Text(lines)| == bufSize;
      r := mem[buf + s.offset..buf + s.offset + s.length];
      assert r == mem[..][buf + s.offset..buf + s.offset + s.length];
      SubSlice(mem[..], buf, bufSize, s);
    }

    method KeyAt(i: nat) returns (k: string)
      requires TextOk() && Indexed(lines, order, kv) && i < |kv|
      ensures k == Keys(lines, order)[i]
    {
      assert EntryInv(lines, order, kv, i);
      EntryReads(lines, order[i]);
      k := Read(kv[i].first);
    }

    method ValueAt(i: nat) returns (v: string)
      requires TextOk() && Indexed(lines, order, kv) && i < |kv|
      ensures order[i] < |lines| && v == lines[order[i]].value
    {
      assert EntryInv(lines, order, kv, i);
      EntryReads(lines, order[i]);
      v := Read(kv[i].second);
    }

    /** Halving the part of the index that may hold the cut. */
    method LowerBound(key: string) returns (first: nat)
      requires TextOk() && IndexOk()
      ensures Cuts(Keys(lines, order), key, first)
    {
      ghost var ks := Keys(lines, order);
      first := 0;
      var count: nat := |kv|;
      while count > 0
        invariant first + count <= |kv|
        invariant forall i :: 0 <= i < first ==> Icmp(ks[i], key) < 0
        invariant forall i :: first + count <= i < |ks| ==> Icmp(ks[i], key) >= 0
      {
        var step := count / 2;
        var k := KeyAt(first + step);
        if Icmp(k, key) < 0 {
          LessBefore(ks, key, first + step);
          first, count := first + step + 1, count - step - 1;
        } else {
          NotLessAfter(ks, key, first + step);
          count := step;
        }
      }
    }

    /** Binary search finds what a linear scan of the index finds. */
    method Find(key: string) returns (i: nat)
      requires TextOk() && IndexOk()
      ensures i == Scan(Keys(lines, order), key, 0)
    {
      i := LowerBound(key);
      CutIsScan(Keys(lines, order), key, i);
      if i == |kv| { return; }
      var k := KeyAt(i);
      if Icmp(k, key) != 0 { i := |kv|; }
    }

    // ----- writing -----

    method Put(at: nat, s: string)
      requires at + |s| <= mem.Length
      modifies mem
      ensures mem[..] == Patched(old(mem[..]), at, s)
    {
      forall i | 0 <= i < |s| { mem[at + i] := s[i]; }
    }

    method WriteLine(at: nat, key: string, value: string)
      requires at + |Rendered(Line(key, value))| <= mem.Length
      modifies mem
      ensures mem[..] == Patched(old(mem[..]), at, Rendered(Line(key, value)))
    {
      ghost var m := mem[..];
      Put(at, key);
      Put(at + |key|, ": ");
      PatchedTwice(m, at, key, ": ");
      Put(at + |key| + 2, value);
      PatchedTwice(m, at, key + ": ", value);
      Put(at + |key| + 2 + |value|, "\r\n");
      PatchedTwice(m, at, key + ": " + value, "\r\n");
    }

    /** Into the index at the lower bound of its key; those before it move down one place.  -1
        without room. */
    method KvAddSort(e: KV, ghost key: string) returns (p: int)
      requires TextOk() && IndexOk() && buf + e.first.offset + e.first.length <= mem.Length
      requires mem[..][buf + e.first.offset..buf + e.first.offset + e.first.length] == key
      modifies this`kv
      ensures p == -1 <==> bufCapacity - KvSize(|old(kv)| + 1) <= bufSize
      ensures p == -1 ==> kv == old(kv)
      ensures p != -1 ==> 0 <= p && Cuts(Keys(lines, order), key, p) && p <= |old(kv)| && kv == InsertAt(old(kv), p, e)
    {
      if bufCapacity - KvSize(|kv| + 1) <= bufSize { return -1; }
      var text := mem[buf + e.first.offset..buf + e.first.offset + e.first.length];
      assert text == mem[..][buf + e.first.offset..buf + e.first.offset + e.first.length];
      var k := LowerBound(text);
      kv := InsertAt(kv, k, e);
      return k;
    }

    /** The text of the new line behind the rest, which stays. */
    method AppendLine(key: string, value: string, newSize: nat)
      requires newSize == bufSize + |key| + |value| + 4
      requires TextOk() && SpaceRemain() >= |key| + |value| + 4 + KvSize(1)
      modifies mem
      ensures TextOk() && mem[..][buf + bufSize..buf + bufSize + |key|] == key
      ensures mem[..][buf..buf + newSize] == Text(lines + [Line(key, value)])
    {
      ghost var m := mem[..];
      WriteLine(buf + bufSize, key, value);
      LineAppended(m, mem[..], buf, buf + bufSize, buf + newSize, lines, Line(key, value));
    }

    /** The index takes up the line whose text has been written, and the text ends behind it. */
    method AddEntry(key: string, value: string, newSize: nat)
      requires newSize == bufSize + |key| + |value| + 4
      requires TextOk() && IndexOk() && SpaceRemain() >= |key| + |value| + 4 + KvSize(1)
      requires mem[..][buf + bufSize..buf + bufSize + |key|] == key
      requires mem[..][buf..buf + newSize] == Text(lines + [Line(key, value)])
      modifies this`bufSize, this`kv, this`lastKv, this`lines, this`order
      ensures Valid() && lines == old(lines) + [Line(key, value)]
      ensures lastKv <= |old(kv)| && Cuts(old(Keys(lines, order)), key, lastKv) && |kv| == |old(kv)| + 1
      ensures order == InsertAt(old(order), lastKv, |old(lines)|)
    {
      hide Text, Cuts, Indexed, Keys;
      ghost var ls, o, k := lines, order, kv;
      var e := KV(Span(bufSize, |key|), Span(bufSize + |key| + 2, |value|));
      assert bufSize == |Text(lines)|;
      var p := KvAddSort(e, key);
      Entered(ls, o, k, Line(key, value), e, p);
      lastKv, bufSize := p, newSize;
      order, lines := InsertAt(order, p, |lines|), lines + [Line(key, value)];
    }

    /** Everything that insert does once nothing speaks against it. */
    method InsertNew(key: string, value: string, newSize: nat)
      requires newSize == bufSize + |key| + |value| + 4
      requires Valid() && SpaceRemain() >= |key| + |value| + 4 + KvSize(1)
      modifies this`bufSize, this`kv, this`lastKv, this`lines, this`order, mem
      ensures Valid() && lines == old(lines) + [Line(key, value)]
      ensures lastKv <= |old(kv)| && Cuts(old(Keys(lines, order)), key, lastKv)
      ensures order == InsertAt(old(order), lastKv, |old(lines)|)
    {
      AppendLine(key, value, newSize);
      AddEntry(key, value, newSize);
    }

    /** Refused with -EEXIST when duplicates are not allowed and the key is there, and with -1 when
        line and entry do not fit; otherwise the new line is the last, and its entry goes before all
        entries of equal keys. */
    method Insert(key: string, value: string, allowDup: bool) returns (r: int)
      requires Valid()
      modifies this`bufSize, this`kv, this`lastKv, this`lines, this`order, mem
      ensures Valid()
      ensures r == -EEXIST <==> !allowDup && Scan(old(Keys(lines, order)), key, 0) < |old(kv)|
      ensures r == -1 <==> r != -EEXIST && old(SpaceRemain()) < |key| + |value| + 4 + KvSize(1)
      ensures r != 0 ==> r < 0 && lines == old(lines) && order == old(order) && kv == old(kv) && mem[..] == old(mem[..])
      ensures r == 0 ==>
        && lines == old(lines) + [Line(key, value)]
        && lastKv <= |old(kv)| && Cuts(old(Keys(lines, order)), key, lastKv)
        && order == InsertAt(old(order), lastKv, |old(lines)|)
    {
      if !allowDup {
        var it := Find(key);
        if it != |kv| { return -EEXIST; }
      }
      var newSize := bufSize + |key| + 2 + |value| + 2;
      if newSize + KvSize(|kv| + 1) > bufCapacity { return -1; }
      InsertNew(key, value, newSize);
      return 0;
    }

    method Reset()
      requires TextOk()
      modifies this`bufSize, this`kv, this`lastKv, this`lines, this`order
      ensures Valid() && lines == []
    {
      bufSize, kv, lastKv, lines, order := 0, [], 0, [], [];
    }

    /** The text of a longer last line. */
    method ExtendText(value: string)
      requires TextOk() && lines != [] && bufSize >= 2 && SpaceRemain() >= |value|
      modifies mem
      ensures mem[..][buf..buf + bufSize + |value|] == Text(Extended(lines, value))
    {
      ghost var m := mem[..];
      EndWith(buf + bufSize - 2, value);
      LastExtended(m, mem[..], buf, bufSize, lines, value);
    }

    method EndWith(at: nat, value: string)
      requires at + |value| + 2 <= mem.Length
      modifies mem
      ensures mem[..] == Patched(old(mem[..]), at, value + "\r\n")
    {
      Put(at, value);
      Put(at + |value|, "\r\n");
      PatchedTwice(old(mem[..]), at, value, "\r\n");
    }

    /** More value for the last line inserted, and for no other. */
    method ValueAppend(value: string) returns (ok: bool)
      requires Valid()
      modifies this`bufSize, this`kv, this`lines, mem
      ensures Valid()
      ensures ok <==> old(lines) != [] && old(SpaceRemain()) >= |value|
      ensures if ok then lines == Extended(old(lines), value)
              else lines == old(lines) && kv == old(kv) && mem[..] == old(mem[..])
    {
      if lastKv >= |kv| { return false; }
      var newSize := bufSize + |value|;
      if newSize + KvSize(|kv|) > bufCapacity { return false; }
      LastLineEnds(lines);
      ExtendText(value);
      GrowEntry(value);
      bufSize := newSize;
      return true;
    }

    method GrowEntry(value: string)
      requires IndexOk() && LastOk() && lines != []
      modifies this`kv, this`lines
      ensures IndexOk() && LastOk() && lines == Extended(old(lines), value) && |kv| == |old(kv)|
    {
      var e := kv[lastKv];
      IndexGrows(lines, order, kv, lastKv, value);
      kv := kv[lastKv := e.(second := Span(e.second.offset, e.second.length + |value|))];
      lines := Extended(lines, value);
    }

    /** The entry of the line that starts the text. */
    method HostEntry() returns (h: nat)
      requires Indexed(lines, order, kv) && lines != []
      ensures h < |kv| && order[h] == 0
    {
      h := 0;
      assert 0 in order;
      ghost var z: nat :| 0 <= z < |order| && order[z] == 0;
      ZeroIsFirst(lines, order, kv, z);
      while kv[h].first.offset != 0
        invariant h <= z
        decreases z - h
      {
        h := h + 1;
      }
      ZeroIsFirst(lines, order, kv, h);
    }

    /** The text with a new Host line in front, which starts at `to`. */
    method RehostText(to: nat, host: string, was: nat)
      requires TextOk() && lines != [] && |lines[0].key| == 4 && |lines[0].value| == was
      requires bufCapacity - KvSize(|kv|) - bufSize >= to - buf + |host| - was
      modifies mem
      ensures
        var n := bufSize + |host| - was;
        0 <= n && to + n <= buf + bufCapacity && mem[..][to..to + n] == Text(lines[0 := Line("Host", host)])
    {
      ghost var l, t, was0 := Line("Host", host), Text(lines[1..]), mem[..];
      FirstLine(lines, l);
      assert |Rendered(lines[0])| == was + 8 && |Rendered(l)| == |host| + 8;
      MoveTail(to + |host| + 8, buf + was + 8, buf + bufSize, Rendered(lines[0]), t);
      ghost var m := mem[..];
      PatchedIn(was0, to + |host| + 8, t);
      WriteLine(to, "Host", host);
      Rehosted(m, mem[..], to, Rendered(l), t);
    }

    /** The text behind its first line, moved. */
    method MoveTail(to: nat, from: nat, end: nat, ghost first: string, ghost t: string)
      requires TextOk() && Text(lines) == first + t && from == buf + |first| && end == buf + bufSize
      requires to + |t| <= mem.Length
      modifies mem
      ensures mem[..] == Patched(old(mem[..]), to, t)
    {
      assert mem[..][buf..buf + bufSize][|first|..] == t;
      assert mem[from..end] == mem[..][from..end] == t;
      Put(to, mem[from..end]);
    }

    /** The Host line, which starts the text, gets a new value, and the text moves by `delta` with the
        end of the buffer where it was.  -1, and nothing done, if that does not fit. */
    method ResetHost(delta: int, host: string) returns (r: int)
      requires Valid() && lines != [] && Icmp(lines[0].key, "Host") == 0
      requires buf + delta >= 0 && bufCapacity - delta < 0x1_0000
      modifies this`buf, this`bufSize, this`bufCapacity, this`kv, this`lines, mem
      ensures Valid() && order == old(order)
      ensures r == -1 <==> old(SpaceRemain()) < delta + |host| - old(|lines[0].value|)
      ensures r == -1 || r == 0
      ensures r == -1 ==>
        lines == old(lines) && kv == old(kv) && mem[..] == old(mem[..]) && buf == old(buf) && bufSize == old(bufSize)
      ensures r == 0 ==> lines == old(lines)[0 := Line("Host", host)]
      ensures r == 0 ==> buf == old(buf) + delta && buf + bufCapacity == old(buf + bufCapacity)
    {
      var h := HostEntry();
      assert EntryInv(lines, order, kv, h);
      var was := kv[h].second.length;
      var inner := |host| - was;
      if SpaceRemain() < delta + inner { return -1; }
      Rehost(delta, host, h, inner);
      return 0;
    }

    method Rehost(delta: int, host: string, h: nat, inner: int)
      requires Valid() && lines != [] && Icmp(lines[0].key, "Host") == 0 && h < |kv| && order[h] == 0
      requires buf + delta >= 0 && bufCapacity - delta < 0x1_0000 && inner == |host| - |lines[0].value|
      requires SpaceRemain() >= delta + inner
      modifies this`buf, this`bufSize, this`bufCapacity, this`kv, this`lines, mem
      ensures Valid() && lines == old(lines)[0 := Line("Host", host)]
      ensures buf == old(buf) + delta && buf + bufCapacity == old(buf + bufCapacity)
    {
      RehostText(buf + delta, host, |host| - inner);
      ShiftIndex(h, inner, host);
      buf, bufCapacity, bufSize := buf + delta, bufCapacity - delta, bufSize + inner;
    }

    method ShiftIndex(h: nat, inner: int, host: string)
      requires IndexOk() && lines != [] && Icmp(lines[0].key, "Host") == 0 && h < |kv| && order[h] == 0
      requires inner == |host| - |lines[0].value|
      modifies this`kv, this`lines
      ensures IndexOk() && lines == old(lines)[0 := Line("Host", host)] && |kv| == |old(kv)|
    {
      Rehosts(lines, order, kv, h, host);
      kv := ShiftAll(kv, h, inner, host);
      lines := lines[0 := Line("Host", host)];
    }
  }

  function Extended(ls: seq<Line>, value: string): seq<Line>
    requires ls != []
  {
    var last := ls[|ls| - 1];
    ls[..|ls| - 1] + [last.(value := last.value + value)]
  }

  lemma LastLineEnds(ls: seq<Line>)
    requires ls != []
    ensures |Text(ls)| >= 2 && Text(ls)[|Text(ls)| - 2..] == "\r\n"
  {
  }

  lemma LastExtended(m: string, w: string, at: nat, n: nat, ls: seq<Line>, value: string)
    requires ls != [] && 2 <= n && at + n + |value| <= |m| && m[at..at + n] == Text(ls)
    requires w == Patched(m, at + n - 2, value + "\r\n")
    ensures w[at..at + n + |value|] == Text(Extended(ls, value))
  {
    var k, end := at + n - 2, value + "\r\n";
    TextOfExtended(ls, value);
    Glue(m, at, k, at + n);
    assert m[at..at + n][..n - 2] == m[at..k];
    PatchedOut(m, k, end, at, k);
    PatchedIn(m, k, end);
    Glue(w, at, k, k + |end|);
  }

  lemma TextOfExtended(ls: seq<Line>, value: string)
    requires ls != []
    ensures |Text(ls)| >= 2 && Text(Extended(ls, value)) == Text(ls)[..|Text(ls)| - 2] + (value + "\r\n")
  {
    var init, last := ls[..|ls| - 1], ls[|ls| - 1];
    var more := last.(value := last.value + value);
    TextSnoc(init, more);
    RenderedMore(last, value);
    DropAdd(Text(init), Rendered(last), |Rendered(last)| - 2, value + "\r\n");
  }

  lemma RenderedMore(l: Line, value: string)
    ensures |Rendered(l)| >= 2
    ensures Rendered(l.(value := l.value + value)) == Rendered(l)[..|Rendered(l)| - 2] + (value + "\r\n")
  {
    var h := l.key + ": " + l.value;
    assert Rendered(l)[..|Rendered(l)| - 2] == h;
    assert l.key + ": " + (l.value + value) == h + value;
    Assoc(h, value, "\r\n");
  }

  lemma DropAdd(t: string, r: string, k: nat, e: string)
    requires k <= |r|
    ensures t + (r[..k] + e) == (t + r)[..|t| + k] + e
  {
    assert (t + r)[..|t| + k] == t + r[..k];
    Assoc(t, r[..k], e);
  }

  /** The new line written in front of the moved tail. */
  lemma Rehosted(m: string, w: string, d: nat, r: string, t: string)
    requires d + |r| + |t| <= |m| && m[d + |r|..d + |r| + |t|] == t && w == Patched(m, d, r)
    ensures w[d..d + |r| + |t|] == r + t
  {
    PatchedIn(m, d, r);
    PatchedOut(m, d, r, d + |r|, d + |r| + |t|);
    Glue(w, d, d + |r|, d + |r| + |t|);
  }

  /** The index with a new entry at its cut is an index again, and sorted. */
  lemma Entered(ls: seq<Line>, order: seq<nat>, kv: seq<KV>, l: Line, e: KV, p: nat)
    requires Indexed(ls, order, kv) && Sorted(Keys(ls, order)) && Cuts(Keys(ls, order), l.key, p)
    requires e == KV(Span(|Text(ls)|, |l.key|), Span(|Text(ls)| + |l.key| + 2, |l.value|))
    ensures Indexed(ls + [l], InsertAt(order, p, |ls|), InsertAt(kv, p, e)) &&
      Sorted(Keys(ls + [l], InsertAt(order, p, |ls|)))
  {
    EntryLast(ls, l);
    IndexInsert(ls, order, kv, l, p);
    KeysInsert(ls, order, kv, l, p);
    CutKeepsSorted(Keys(ls, order), l.key, p);
  }

  lemma PatchedIn(m: string, at: nat, s: string)
    requires at + |s| <= |m|
    ensures Patched(m, at, s)[at..at + |s|] == s
  {
  }

  lemma PatchedOut(m: string, at: nat, s: string, lo: nat, hi: nat)
    requires at + |s| <= |m| && lo <= hi <= |m| && (hi <= at || at + |s| <= lo)
    ensures Patched(m, at, s)[lo..hi] == m[lo..hi]
  {
  }

  lemma Glue(m: string, a: nat, b: nat, c: nat)
    requires a <= b <= c <= |m|
    ensures m[a..b] + m[b..c] == m[a..c]
  {
  }

  lemma PatchedTwice(m: string, at: nat, s: string, t: string)
    requires at + |s| + |t| <= |m|
    ensures Patched(Patched(m, at, s), at + |s|, t) == Patched(m, at, s + t)
  {
  }

  /** The text before the new line is as it was, and with it the text is one line longer. */
  lemma LineAppended(m: string, w: string, at: nat, k: nat, e: nat, ls: seq<Line>, l: Line)
    requires at <= k && e == k + |l.key| + |l.value| + 4 && e <= |m| && |m| == |w|
    requires w == Patched(m, k, Rendered(l)) && m[at..k] == Text(ls)
    ensures w[at..k] == Text(ls) && w[at..e] == Text(ls + [l]) && w[k..k + |l.key|] == l.key
  {
    var r := Rendered(l);
    assert |r| == |l.key| + |l.value| + 4;
    TextSnoc(ls, l);
    PatchedOut(m, k, r, at, k);
    PatchedIn(m, k, r);
    Glue(w, at, k, e);
    assert r[..|l.key|] == l.key;
    SubSlice(w, k, |r|, Span(0, |l.key|));
  }

  lemma SubSlice(m: string, at: nat, n: nat, s: Span)
    requires at + n <= |m| && s.offset + s.length <= n
    ensures m[at..at + n][s.offset..s.offset + s.length] == m[at + s.offset..at + s.offset + s.length]
  {
  }
}
