/** Threads and the binary heap of sleeping threads, sifted in place with back-indices. */
module SleepQueue {
  class Thread {
    const id: nat
    var idx: int          // index in the sleep queue, -1 outside; pop_front leaves it stale
    var tsWakeup: nat

    constructor (id: nat)
      ensures this.id == id && idx == -1 && tsWakeup == 0
    {
      this.id, idx, tsWakeup := id, -1, 0;
    }
  }

  function Parent(i: nat): nat
    requires i > 0
  {
    (i - 1) / 2
  }

  // ----- heap order, on the wake-up times alone -----

  /** The edge from `i` up to its parent is in order. */
  ghost predicate Edge(k: seq<nat>, i: nat) {
    0 < i < |k| ==> k[Parent(i)] <= k[i]
  }

  ghost predicate Heap(k: seq<nat>) {
    forall i :: Edge(k, i)
  }

  /** `i` is in order with its grandparent: a hole at its parent does no harm. */
  ghost predicate Bridge(k: seq<nat>, i: nat) {
    0 < i < |k| && Parent(i) > 0 ==> k[Parent(Parent(i))] <= k[i]
  }

  ghost predicate AroundAt(k: seq<nat>, h: nat, i: nat) {
    (i != h && (i == 0 || Parent(i) != h) ==> Edge(k, i)) && (i > 0 && Parent(i) == h ==> Bridge(k, i))
  }

  /** In order everywhere but next to `h`, and in order across it. */
  ghost predicate HeapAround(k: seq<nat>, h: nat) {
    forall i :: AroundAt(k, h, i)
  }

  ghost predicate BelowAt(k: seq<nat>, h: nat, i: nat) {
    i > 0 && Parent(i) == h ==> Edge(k, i)
  }

  /** The edges from `h` down to its children are in order. */
  ghost predicate Below(k: seq<nat>, h: nat) {
    forall i :: BelowAt(k, h, i)
  }

  function Swap<T>(s: seq<T>, i: nat, c: nat): seq<T>
    requires i < |s| && c < |s|
  {
    s[i := s[c]][c := s[i]]
  }

  /** The last element in place of the one at `id`, and the last place gone. */
  function Moved<T>(s: seq<T>, id: nat): (r: seq<T>)
    requires id < |s|
    ensures |r| == |s| - 1
    ensures forall i :: 0 <= i < |r| ==> r[i] == if i == id then s[|s| - 1] else s[i]
  {
    s[id := s[|s| - 1]][..|s| - 1]
  }

  /** An exchange with a later parent moves the hole up and leaves order below it. */
  lemma SwapUp(k: seq<nat>, i: nat)
    requires 0 < i < |k| && HeapAround(k, i) && k[i] < k[Parent(i)]
    ensures HeapAround(Swap(k, i, Parent(i)), Parent(i)) && Below(Swap(k, i, Parent(i)), Parent(i))
  {
    var c := Parent(i);
    var w := Swap(k, i, c);
    forall j: nat ensures AroundAt(w, c, j) && BelowAt(w, c, j) {
      assert AroundAt(k, i, j) && AroundAt(k, i, c);
    }
  }

  lemma UpDone(k: seq<nat>, i: nat)
    requires i < |k| && HeapAround(k, i) && Below(k, i) && Edge(k, i)
    ensures Heap(k)
  {
    forall j: nat ensures Edge(k, j) { assert AroundAt(k, i, j) && BelowAt(k, i, j); }
  }

  /** An exchange with the earlier child moves the hole down and leaves order above it. */
  lemma SwapDown(k: seq<nat>, i: nat, c: nat)
    requires 0 < c < |k| && Parent(c) == i && i < |k| && HeapAround(k, i) && Edge(k, i) && k[c] < k[i]
    requires forall d :: 0 < d < |k| && Parent(d) == i ==> k[c] <= k[d]
    ensures HeapAround(Swap(k, i, c), c) && Edge(Swap(k, i, c), c)
  {
    var w := Swap(k, i, c);
    forall j: nat ensures AroundAt(w, c, j) {
      assert AroundAt(k, i, j) && AroundAt(k, i, c);
      assert j > 0 ==> AroundAt(k, i, Parent(j));
    }
  }

  lemma DownDone(k: seq<nat>, i: nat)
    requires i < |k| && HeapAround(k, i) && Edge(k, i)
    requires forall d :: 0 < d < |k| && Parent(d) == i ==> k[i] <= k[d]
    ensures Heap(k)
  {
    forall j: nat ensures BelowAt(k, i, j) { }
    UpDone(k, i);
  }

  lemma HeapMinimum(k: seq<nat>, i: nat)
    requires Heap(k) && i < |k|
    ensures k[0] <= k[i]
  {
    if i == 0 {
    } else {
      assert Edge(k, i);
      HeapMinimum(k, Parent(i));
    }
  }

  // ----- the queue -----

  ghost predicate Indexed(v: seq<Thread>)
    reads v
  {
    forall i :: 0 <= i < |v| ==> v[i].idx == i
  }

  ghost function Times(v: seq<Thread>): (k: seq<nat>)
    reads v
    ensures |k| == |v| && forall i :: 0 <= i < |v| ==> k[i] == v[i].tsWakeup
  {
    if v == [] then [] else Times(v[..|v| - 1]) + [v[|v| - 1].tsWakeup]
  }

  class Sleepers {
    var q: seq<Thread>

    ghost predicate Valid()
      reads this, q
    {
      Indexed(q) && Heap(Times(q))
    }

    constructor ()
      ensures Valid() && q == []
    {
      q := [];
    }

    method UpdateNode(i: nat, t: Thread)
      requires i < |q|
      modifies this`q, t`idx
      ensures q == old(q)[i := t] && t.idx == i
    {
      q := q[i := t];
      q[i].idx := i;
    }

    /** `v` is the queue with `tmp` in the hole at `i`, and `k` are its wake-up times. */
    ghost predicate Hole(v: seq<Thread>, k: seq<nat>, i: nat, tmp: Thread)
      reads this, v
    {
      && i < |q| == |v| == |k| && v[i] == tmp && k[i] == tmp.tsWakeup
      && forall j :: 0 <= j < |v| && j != i ==>
           q[j] == v[j] && v[j].idx == j && v[j] != tmp && k[j] == v[j].tsWakeup
    }

    /** Fills the hole at `i` from `c`, which becomes the hole. */
    method MoveHole(ghost v: seq<Thread>, ghost k: seq<nat>, i: nat, c: nat, t: Thread, ghost tmp: Thread)
      requires Hole(v, k, i, tmp) && c < |q| && c != i && t == q[c]
      modifies this`q, t`idx
      ensures Hole(Swap(v, i, c), Swap(k, i, c), c, tmp)
      ensures multiset(Swap(v, i, c)) == multiset(v)
    {
      UpdateNode(i, t);
    }

    method FillHole(ghost v: seq<Thread>, ghost k: seq<nat>, i: nat, tmp: Thread)
      requires Hole(v, k, i, tmp)
      modifies this`q, tmp`idx
      ensures q == v && Indexed(q) && Times(q) == k
    {
      UpdateNode(i, tmp);
    }

    /** Moves the thread at `h` up past every parent that is due later. */
    method Up(h: nat) returns (moved: bool)
      requires h < |q| && Indexed(q) && HeapAround(Times(q), h)
      modifies this`q, (set t: Thread | t in q)`idx
      ensures Indexed(q) && multiset(q) == multiset(old(q))
      ensures moved ==> Heap(Times(q))
      ensures !moved ==> q == old(q) && Times(q) == old(Times(q)) && Edge(Times(q), h)
    {
      var i := h;
      var tmp := q[i];
      moved := false;
      ghost var k0 := Times(q);
      ghost var v, k := q, k0;
      while i != 0
        invariant Hole(v, k, i, tmp) && multiset(v) == multiset(old(q))
        invariant HeapAround(k, i) && (moved ==> Below(k, i))
        invariant !moved ==> v == old(q) && q == v && i == h && k == k0 && tmp.idx == h
      {
        var c := (i - 1) / 2;
        if tmp.tsWakeup < q[c].tsWakeup {
          SwapUp(k, i);
          assert q[c] in multiset(v);
          MoveHole(v, k, i, c, q[c], tmp);
          v, k := Swap(v, i, c), Swap(k, i, c);
          i := c;
          moved := true;
        } else {
          break;
        }
      }
      if moved {
        assert tmp in multiset(v);
        FillHole(v, k, i, tmp);
        UpDone(k, i);
      } else {
        assert Times(q) == k0;
      }
    }

    /** One pass of down's loop: the earlier of the children c and c + 1 fills the hole at `i`, if it
        is due before the thread that left it. */
    method DownTurn(i: nat, c: nat, tmp: Thread, ghost v: seq<Thread>, ghost k: seq<nat>) returns (on: bool, e: nat)
      requires Hole(v, k, i, tmp) && HeapAround(k, i) && Edge(k, i) && c == 2 * i + 1 && c < |q|
      modifies this`q, (set t: Thread | t in v)`idx
      ensures on ==>
        && i < e < |v| && Hole(Swap(v, i, e), Swap(k, i, e), e, tmp) && multiset(Swap(v, i, e)) == multiset(v)
        && HeapAround(Swap(k, i, e), e) && Edge(Swap(k, i, e), e)
      ensures !on ==> q == old(q) && Hole(v, k, i, tmp) && tmp.idx == old(tmp.idx)
      ensures !on ==> forall d :: 0 < d < |k| && Parent(d) == i ==> k[i] <= k[d]
    {
      e := if c + 1 < |q| && q[c + 1].tsWakeup < q[c].tsWakeup then c + 1 else c;
      on := q[e].tsWakeup < tmp.tsWakeup;
      if on {
        SwapDown(k, i, e);
        assert q[e] in multiset(v);
        MoveHole(v, k, i, e, q[e], tmp);
      }
    }

    /** Moves the thread at `h` down past every child that is due earlier. */
    method Down(h: nat)
      requires h < |q| && Indexed(q) && HeapAround(Times(q), h) && Edge(Times(q), h)
      modifies this`q, (set t: Thread | t in q)`idx
      ensures Valid() && multiset(q) == multiset(old(q))
    {
      var i: nat := h;
      var tmp := q[i];
      var moved, on := false, true;
      ghost var v, k := q, Times(q);
      while on && 2 * i + 1 < |q|
        invariant Hole(v, k, i, tmp) && multiset(v) == multiset(old(q))
        invariant HeapAround(k, i) && Edge(k, i)
        invariant !moved ==> q == v && tmp.idx == i
        invariant !on ==> forall d :: 0 < d < |k| && Parent(d) == i ==> k[i] <= k[d]
        decreases |q| - i, on
      {
        var e;
        assert forall t :: t in v ==> t in multiset(old(q));
        on, e := DownTurn(i, 2 * i + 1, tmp, v, k);
        if on {
          v, k := Swap(v, i, e), Swap(k, i, e);
          i, moved := e, true;
        }
      }
      DownDone(k, i);
      assert tmp in multiset(v);
      if moved { FillHole(v, k, i, tmp); } else { assert Times(q) == k; }
    }

    method Push(t: Thread)
      requires Valid() && t !in q
      modifies this`q, (set x: Thread | x in q)`idx, t`idx
      ensures Valid() && multiset(q) == multiset(old(q)) + multiset{t}
    {
      ghost var k0 := Times(q);
      q := q + [t];
      t.idx := |q| - 1;
      assert Times(q) == k0 + [t.tsWakeup];
      AppendAround(k0, t.tsWakeup);
      var moved := Up(|q| - 1);
      if !moved { AppendDone(k0, t.tsWakeup); }
    }

    /** The last thread takes the place of the one at `id`. */
    method MoveLastTo(id: nat)
      requires Valid() && id + 1 < |q|
      modifies this`q, (set x: Thread | x in q)`idx
      ensures id < |q| && Indexed(q) && HeapAround(Times(q), id) && (id == 0 ==> Edge(Times(q), 0))
      ensures q == Moved(old(q), id)
      ensures old(q[id]).idx == id
    {
      ghost var s, k := q, Times(q);
      q := q[id := q[|q| - 1]];
      q[id].idx := id;
      q := q[..|q| - 1];
      ReplaceAround(k, id);
      assert Times(q) == Moved(k, id);
    }

    method DropLast()
      requires Valid() && q != []
      modifies this`q
      ensures Valid() && q == Moved(old(q), |old(q)| - 1)
    {
      ghost var k := Times(q);
      q := q[..|q| - 1];
      PrefixHeap(k);
      assert Times(q) == k[..|q|];
    }

    /** A front thread is due first. */
    lemma FrontIsDueFirst()
      requires Valid() && q != []
      ensures forall t: Thread :: t in q ==> q[0].tsWakeup <= t.tsWakeup
    {
      forall t: Thread | t in q ensures q[0].tsWakeup <= t.tsWakeup {
        var i :| 0 <= i < |q| && q[i] == t;
        HeapMinimum(Times(q), i);
      }
    }

    /** Takes out a thread that is due first.  Its index is left at 0. */
    method PopFront() returns (r: Thread)
      requires Valid() && q != []
      modifies this`q, (set x: Thread | x in q)`idx
      ensures Valid() && r == old(q[0]) && multiset(q) == multiset(old(q)) - multiset{r} && r !in q
      ensures forall t: Thread :: t in old(q) ==> r.tsWakeup <= t.tsWakeup
      ensures r.idx == 0
    {
      FrontIsDueFirst();
      r := q[0];
      RemoveAt(q, 0);
      if |q| == 1 {  // the code sifts the emptied vector too, which reads past its end
        DropLast();
      } else {
        MoveLastTo(0);
        label moved:
        Down(0);
        assert r !in multiset(old@moved(q));
      }
    }

    /** Whatever stands at `id` goes up or, failing that, down to its place. */
    method SiftAt(id: nat)
      requires id < |q| && Indexed(q) && HeapAround(Times(q), id)
      modifies this`q, (set t: Thread | t in q)`idx
      ensures Valid() && multiset(q) == multiset(old(q))
    {
      var moved := Up(id);
      if !moved { Down(id); }
    }

    /** Takes out `t`, wherever it stands, if it is in the queue. */
    method Pop(t: Thread) returns (r: int)
      requires Valid() && (t.idx == -1 || t in q)
      modifies this`q, (set x: Thread | x in q)`idx, t`idx
      ensures Valid() && t !in q && t.idx == -1
      ensures old(t.idx) == -1 ==> r == -1 && q == old(q)
      ensures old(t.idx) != -1 ==> r == 0 && multiset(q) == multiset(old(q)) - multiset{t}
    {
      hide Heap;
      if t.idx == -1 { return -1; }
      var id := t.idx;
      RemoveAt(q, id);
      if t.idx == |q| - 1 {
        DropLast();
      } else {
        MoveLastTo(id);
        assert t !in multiset(q);
        SiftAt(id);
        assert t !in multiset(q);
      }
      t.idx := -1;
      r := 0;
    }
  }

  lemma AppendAround(k: seq<nat>, x: nat)
    requires Heap(k)
    ensures HeapAround(k + [x], |k|)
  {
    forall i: nat ensures AroundAt(k + [x], |k|, i) { assert Edge(k, i); }
  }

  lemma AppendDone(k: seq<nat>, x: nat)
    requires Heap(k) && Edge(k + [x], |k|)
    ensures Heap(k + [x])
  {
    forall i: nat ensures Edge(k + [x], i) { assert Edge(k, i); }
  }

  /** Putting the last time in place of the one at `id` disturbs the order only next to `id`. */
  lemma ReplaceAround(k: seq<nat>, id: nat)
    requires Heap(k) && id + 1 < |k|
    ensures HeapAround(Moved(k, id), id)
    ensures id == 0 ==> Edge(Moved(k, id), id)
  {
    var w := Moved(k, id);
    forall i: nat ensures AroundAt(w, id, i) {
      assert Edge(k, i);
      assert i > 0 ==> Edge(k, Parent(i));
    }
  }

  lemma PrefixHeap(k: seq<nat>)
    requires Heap(k) && |k| > 0
    ensures Heap(k[..|k| - 1])
  {
    var w := k[..|k| - 1];
    forall i: nat ensures Edge(w, i) { assert Edge(k, i); }
  }

  lemma MovedMultiset<T>(s: seq<T>, id: nat)
    requires id < |s|
    ensures multiset(Moved(s, id)) == multiset(s) - multiset{s[id]}
  {
    var n := |s| - 1;
    assert s == s[..id] + [s[id]] + s[id + 1..];
    if id < n {
      assert s[id + 1..] == s[id + 1..n] + [s[n]];
      assert Moved(s, id) == s[..id] + [s[n]] + s[id + 1..n];
    } else {
      assert Moved(s, id) == s[..id];
    }
  }

  /** Removing by moving the last element into the gap removes exactly the one that was there. */
  lemma RemoveAt(s: seq<Thread>, id: nat)
    requires id < |s| && Indexed(s)
    ensures multiset(Moved(s, id)) == multiset(s) - multiset{s[id]}
    ensures s[id] !in Moved(s, id) && forall x :: x in Moved(s, id) ==> x in s
  {
    MovedMultiset(s, id);
  }
}
