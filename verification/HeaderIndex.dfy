/** A sorted index over the lines of a header text. */
module HeaderIndex {
  import opened HeaderOrder
  import opened HeaderText

  /** kv_size(): eight bytes an entry. */
  function KvSize(n: nat): nat { 8 * n }

  /** The i-th entry is the entry of line order[i]; every line has one. */
  ghost predicate EntryInv(ls: seq<Line>, order: seq<nat>, kv: seq<KV>, i: nat)
    requires |order| == |kv|
  {
    i < |kv| ==> order[i] < |ls| && kv[i] == Entry(ls, order[i])
  }

  ghost predicate Once(order: seq<nat>, i: nat, j: nat) { i < j < |order| ==> order[i] != order[j] }

  ghost predicate Indexed(ls: seq<Line>, order: seq<nat>, kv: seq<KV>) {
    && |order| == |kv| == |ls|
    && (forall i :: EntryInv(ls, order, kv, i))
    && (forall i, j :: Once(order, i, j))
    && (forall n :: 0 <= n < |ls| ==> n in order)
  }

  /** The keys in the order of the index. */
  ghost function Keys(ls: seq<Line>, order: seq<nat>): (r: seq<string>)
    ensures |r| == |order| && forall i :: 0 <= i < |r| && order[i] < |ls| ==> r[i] == ls[order[i]].key
  {
    seq(|order|, i requires 0 <= i < |order| => if order[i] < |ls| then ls[order[i]].key else "")
  }

  function InsertAt<T>(s: seq<T>, p: nat, x: T): (r: seq<T>)
    requires p <= |s|
    ensures |r| == |s| + 1 && r[p] == x
    ensures forall i :: 0 <= i < p ==> r[i] == s[i]
    ensures forall i :: p <= i < |s| ==> r[i + 1] == s[i]
    ensures forall i :: p < i < |r| ==> r[i] == s[i - 1]
  {
    s[..p] + [x] + s[p..]
  }

  lemma IndexInsert(ls: seq<Line>, order: seq<nat>, kv: seq<KV>, l: Line, p: nat)
    requires Indexed(ls, order, kv) && p <= |kv|
    ensures Indexed(ls + [l], InsertAt(order, p, |ls|), InsertAt(kv, p, Entry(ls + [l], |ls|)))
  {
    var o, k, w := InsertAt(order, p, |ls|), InsertAt(kv, p, Entry(ls + [l], |ls|)), ls + [l];
    forall i: nat ensures EntryInv(w, o, k, i) {
      if i < p { assert EntryInv(ls, order, kv, i); EntryStays(ls, order[i], l); }
      if p < i < |k| { assert EntryInv(ls, order, kv, i - 1); EntryStays(ls, order[i - 1], l); }
    }
    forall i: nat, j: nat ensures Once(o, i, j) {
      if i < j < |o| {
        assert Once(order, i, j) && Once(order, i, j - 1) && (i > 0 ==> Once(order, i - 1, j - 1));
        assert (i < p ==> EntryInv(ls, order, kv, i)) && (j > p ==> EntryInv(ls, order, kv, j - 1));
      }
    }
    forall n | 0 <= n < |w| ensures n in o {
      if n < |ls| {
        assert n in order;
        var i :| 0 <= i < |order| && order[i] == n;
        assert o[if i < p then i else i + 1] == n;
      } else {
        assert o[p] == n;
      }
    }
  }

  lemma KeyAt(ls: seq<Line>, order: seq<nat>, kv: seq<KV>, l: Line, p: nat, i: nat)
    requires Indexed(ls, order, kv) && p <= |kv| && i <= |order|
    ensures InsertAt(order, p, |ls|)[i] <= |ls|
    ensures (ls + [l])[InsertAt(order, p, |ls|)[i]].key == InsertAt(Keys(ls, order), p, l.key)[i]
  {
    if i < p {
      assert EntryInv(ls, order, kv, i);
    } else if p < i {
      assert EntryInv(ls, order, kv, i - 1);
    }
  }

  lemma KeysInsert(ls: seq<Line>, order: seq<nat>, kv: seq<KV>, l: Line, p: nat)
    requires Indexed(ls, order, kv) && p <= |kv|
    ensures Keys(ls + [l], InsertAt(order, p, |ls|)) == Keys(ls, order)[..p] + [l.key] + Keys(ls, order)[p..]
  {
    var got, want := Keys(ls + [l], InsertAt(order, p, |ls|)), InsertAt(Keys(ls, order), p, l.key);
    forall i | 0 <= i < |got| ensures got[i] == want[i] { KeyAt(ls, order, kv, l, p, i); }
    assert got == want;
  }

  /** More value on the last line changes the entry of that line and no other. */
  lemma IndexGrows(ls: seq<Line>, order: seq<nat>, kv: seq<KV>, at: nat, more: string)
    requires Indexed(ls, order, kv) && at < |kv| && order[at] == |ls| - 1
    ensures
      var last := ls[|ls| - 1];
      var w, e := ls[..|ls| - 1] + [last.(value := last.value + more)], kv[at];
      Indexed(w, order, kv[at := e.(second := Span(e.second.offset, e.second.length + |more|))]) &&
      Keys(w, order) == Keys(ls, order)
  {
    var last, init := ls[|ls| - 1], ls[..|ls| - 1];
    var grown := last.(value := last.value + more);
    var w, e := init + [grown], kv[at];
    var k := kv[at := e.(second := Span(e.second.offset, e.second.length + |more|))];
    assert ls == init + [last];
    EntryLast(init, last);
    EntryLast(init, grown);
    assert EntryInv(ls, order, kv, at);
    forall i: nat ensures EntryInv(w, order, k, i) {
      assert EntryInv(ls, order, kv, i) && Once(order, i, at) && Once(order, at, i);
      if i < |kv| && i != at {
        EntryStays(init, order[i], last);
        EntryStays(init, order[i], grown);
      }
    }
    forall i | 0 <= i < |order| ensures Keys(w, order)[i] == Keys(ls, order)[i] { assert EntryInv(ls, order, kv, i); }
  }

  function Shift(s: Span, d: int): Span
    requires s.offset + d >= 0
  {
    Span(s.offset + d, s.length)
  }

  /** A new first line of the same key order moves all other entries by the difference, and its own
      entry is written anew. */
  lemma IndexRehosts(ls: seq<Line>, order: seq<nat>, kv: seq<KV>, k: seq<KV>, h: nat, l: Line)
    requires Indexed(ls, order, kv) && ls != [] && h < |kv| && order[h] == 0 && |k| == |kv|
    requires k[h] == KV(Span(0, |l.key|), Span(|l.key| + 2, |l.value|))
    requires
      var d := |Rendered(l)| - |Rendered(ls[0])|;
      forall i :: 0 <= i < |kv| && i != h ==> kv[i].first.offset + d >= 0 && kv[i].second.offset + d >= 0 &&
                                               k[i] == KV(Shift(kv[i].first, d), Shift(kv[i].second, d))
    ensures Indexed(ls[0 := l], order, k)
  {
    var w := ls[0 := l];
    forall i: nat ensures EntryInv(w, order, k, i) {
      assert EntryInv(ls, order, kv, i) && Once(order, i, h) && Once(order, h, i);
      if i < |kv| {
        if i == h {
          assert w[..0] == [];
        } else {
          EntryShifts(ls, l, order[i]);
        }
      }
    }
  }

  /** Only the first line's entry starts at offset zero. */
  lemma ZeroIsFirst(ls: seq<Line>, order: seq<nat>, kv: seq<KV>, i: nat)
    requires Indexed(ls, order, kv) && i < |kv|
    ensures kv[i].first.offset == 0 <==> order[i] == 0
  {
    assert EntryInv(ls, order, kv, i);
    if order[i] == 0 {
      assert ls[..0] == [];
    } else {
      EntryShifts(ls, ls[0], order[i]);
    }
  }

  /** Every offset moved, and the Host entry, number h, set to what reset_host sets it to. */
  function ShiftAll(kv: seq<KV>, h: nat, d: int, host: string): (r: seq<KV>)
    requires h < |kv|
    requires forall i :: 0 <= i < |kv| && i != h ==> kv[i].first.offset + d >= 0 && kv[i].second.offset + d >= 0
    ensures |r| == |kv| && r[h] == KV(Span(0, 4), Span(6, |host|))
    ensures forall i :: 0 <= i < |kv| && i != h ==> r[i] == KV(Shift(kv[i].first, d), Shift(kv[i].second, d))
  {
    seq(|kv|, i requires 0 <= i < |kv| =>
      if i == h then KV(Span(0, 4), Span(6, |host|)) else KV(Shift(kv[i].first, d), Shift(kv[i].second, d)))
  }

  /** Offsets of the other lines leave room for a shorter Host line. */
  lemma MayShift(ls: seq<Line>, order: seq<nat>, kv: seq<KV>, h: nat, l: Line, i: nat)
    requires Indexed(ls, order, kv) && ls != [] && h < |kv| && order[h] == 0 && i < |kv| && i != h
    ensures
      var d := |Rendered(l)| - |Rendered(ls[0])|;
      kv[i].first.offset + d >= 0 && kv[i].second.offset + d >= 0
  {
    assert EntryInv(ls, order, kv, i) && Once(order, i, h) && Once(order, h, i);
    EntryShifts(ls, l, order[i]);
  }

  /** The index after reset_host, and still sorted: the key has only changed its case. */
  lemma Rehosts(ls: seq<Line>, order: seq<nat>, kv: seq<KV>, h: nat, host: string)
    requires Indexed(ls, order, kv) && Sorted(Keys(ls, order)) && ls != [] && h < |kv| && order[h] == 0
    requires Icmp(ls[0].key, "Host") == 0
    ensures
      var l, d := Line("Host", host), |host| - |ls[0].value|;
      && (forall i :: 0 <= i < |kv| && i != h ==> kv[i].first.offset + d >= 0 && kv[i].second.offset + d >= 0)
      && Indexed(ls[0 := l], order, ShiftAll(kv, h, d, host)) && Sorted(Keys(ls[0 := l], order))
  {
    var l, d := Line("Host", host), |host| - |ls[0].value|;
    assert d == |Rendered(l)| - |Rendered(ls[0])|;
    forall i | 0 <= i < |kv| && i != h ensures kv[i].first.offset + d >= 0 && kv[i].second.offset + d >= 0 {
      MayShift(ls, order, kv, h, l, i);
    }
    IndexRehosts(ls, order, kv, ShiftAll(kv, h, d, host), h, l);
    RehostedSorted(ls, order, kv, l);
  }

  lemma RehostedSorted(ls: seq<Line>, order: seq<nat>, kv: seq<KV>, l: Line)
    requires Indexed(ls, order, kv) && Sorted(Keys(ls, order)) && ls != [] && Icmp(ls[0].key, l.key) == 0
    ensures Sorted(Keys(ls[0 := l], order))
  {
    var ks, ws := Keys(ls, order), Keys(ls[0 := l], order);
    forall i: nat, j: nat ensures InOrder(ws, i, j) {
      if i < j < |ws| {
        assert InOrder(ks, i, j) && EntryInv(ls, order, kv, i) && EntryInv(ls, order, kv, j);
        IcmpFlips(ls[0].key, l.key);
        if order[i] == 0 { IcmpTransitive(ws[i], ks[i], ks[j]); }
        if order[j] == 0 { IcmpTransitive(ws[i], ks[j], ws[j]); }
      }
    }
  }
}
