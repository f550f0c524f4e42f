/** memcpy_iov: from one vector to another, across both segmentations. */
module IovTransfer {
  import opened Common
  import opened Iov
  import opened IovView
  import opened IovCopy

  ghost predicate Distinct(a: seq<nat>) { forall i, j :: 0 <= i < j < |a| ==> a[i] != a[j] }

  ghost predicate Separate(a: seq<nat>, b: seq<nat>) { forall i, j :: 0 <= i < |a| && 0 <= j < |b| ==> a[i] != b[j] }

  // ----- when the loop ends -----

  datatype Turn = Turn(dest: seq<IoVec>, src: seq<IoVec>, size: nat)

  predicate Done(t: Turn) { t.size == 0 || t.dest == [] || t.src == [] }

  /** One turn of the loop on the two views and the bytes still to copy. */
  function TurnOf(t: Turn): Turn
    requires !Done(t)
  {
    var n := Min(Min(t.size, t.dest[0].len), t.src[0].len);
    Turn(CutFront(t.dest, n, None).rest, CutFront(t.src, n, None).rest, t.size - n)
  }

  function Turns(t: Turn, k: nat): Turn
    decreases k
  {
    if k == 0 || Done(t) then t else Turns(TurnOf(t), k - 1)
  }

  /** Bytes in front of the first empty segment, or of the end. */
  function Lead(vs: seq<IoVec>): nat { if vs == [] || vs[0].len == 0 then 0 else vs[0].len + Lead(vs[1..]) }

  /** What is left in front of the loop once `m` bytes are copied. */
  function Beyond(vs: seq<IoVec>, m: nat): seq<IoVec> { CutFront(vs, m, None).rest }

  /** An empty segment comes to the front while there are bytes to copy, and segments on both sides. */
  predicate HitsEmpty(t: Turn) {
    var m := Min(Lead(t.dest), Lead(t.src));
    m < t.size && Beyond(t.dest, m) != [] && Beyond(t.src, m) != []
  }

  lemma CutIsAdvance(vs: seq<IoVec>, n: nat)
    requires vs != [] && 0 < n <= vs[0].len
    ensures Beyond(vs, n) == Advanced(vs, n) && Lead(Advanced(vs, n)) == Lead(vs) - n
  {
    if n == vs[0].len { assert CutFront(vs[1..], 0, None).rest == vs[1..]; }
  }

  /** Cutting at once what is cut in two goes. */
  lemma BeyondBeyond(vs: seq<IoVec>, n: nat, m: nat)
    requires vs != [] && 0 < n <= vs[0].len && n <= m <= Lead(vs)
    ensures Beyond(Advanced(vs, n), m - n) == Beyond(vs, m)
  {
    if n < vs[0].len {
      var w := [IoVec(vs[0].base + n, vs[0].len - n)] + vs[1..];
      assert w[1..] == vs[1..];
    }
  }

  lemma BeyondNothing(vs: seq<IoVec>)
    ensures Beyond(vs, 0) == vs
  {
  }

  /** The loop makes no progress exactly when a front segment is empty; and whether one will come to the
      front is the same before and after a turn that does. */
  lemma TurnStep(t: Turn)
    requires !Done(t)
    ensures TurnOf(t) == t <==> t.dest[0].len == 0 || t.src[0].len == 0
    ensures TurnOf(t) == t ==> HitsEmpty(t)
    ensures TurnOf(t) != t ==> TurnOf(t).size < t.size && (HitsEmpty(TurnOf(t)) <==> HitsEmpty(t))
  {
    BeyondNothing(t.dest);
    BeyondNothing(t.src);
    var n := Min(Min(t.size, t.dest[0].len), t.src[0].len);
    if n > 0 {
      CutIsAdvance(t.dest, n);
      CutIsAdvance(t.src, n);
      var m := Min(Lead(t.dest), Lead(t.src));
      BeyondBeyond(t.dest, n, m);
      BeyondBeyond(t.src, n, m);
    }
  }

  lemma {:induction false} StuckStays(t: Turn, k: nat)
    requires !Done(t) && TurnOf(t) == t
    ensures Turns(t, k) == t
    decreases k
  {
    if k == 0 {
    } else {
      StuckStays(t, k - 1);
    }
  }

  lemma {:induction false} HitsNeverEnds(t: Turn, k: nat)
    requires HitsEmpty(t)
    ensures !Done(Turns(t, k))
    decreases k
  {
    NotDone(t);
    TurnStep(t);
    if k == 0 {
    } else if TurnOf(t) == t {
      StuckStays(t, k);
    } else {
      HitsNeverEnds(TurnOf(t), k - 1);
    }
  }

  lemma NotDone(t: Turn)
    requires HitsEmpty(t)
    ensures !Done(t)
  {
  }

  lemma {:induction false} ElseEnds(t: Turn) returns (k: nat)
    requires !HitsEmpty(t)
    ensures Done(Turns(t, k))
    decreases t.size
  {
    if Done(t) {
      k := 0;
      assert Turns(t, 0) == t;
    } else {
      TurnStep(t);
      var n := ElseEnds(TurnOf(t));
      k := n + 1;
      assert Turns(t, k) == Turns(TurnOf(t), n);
    }
  }

  ghost predicate DoneAfter(t: Turn, k: nat) { Done(Turns(t, k)) }

  ghost predicate Ends(t: Turn) { exists k :: DoneAfter(t, k) }

  /** Some number of turns ends the loop exactly when no empty segment comes to the front while there are
      bytes to copy, and segments on both sides. */
  lemma EndsIff(t: Turn)
    ensures Ends(t) <==> !HitsEmpty(t)
  {
    if HitsEmpty(t) {
      forall k ensures !DoneAfter(t, k) { HitsNeverEnds(t, k); }
    } else {
      var k := ElseEnds(t);
      assert DoneAfter(t, k);
    }
  }

  // ----- the bytes -----

  /** The first `done` bytes at the addresses `d` are those that were at the addresses `s`; no other
      byte of memory has changed. */
  ghost predicate Transferred(m0: seq<Byte>, m: seq<Byte>, d: seq<nat>, s: seq<nat>, done: nat) {
    && |m| == |m0| && done <= |d| && done <= |s| && Within(d, |m0|) && Within(s, |m0|)
    && (forall i :: 0 <= i < done ==> m[d[i]] == m0[s[i]])
    && (forall x :: 0 <= x < |m0| && x !in d[..done] ==> m[x] == m0[x])
  }

  lemma Unwritten(m0: seq<Byte>, m: seq<Byte>, d: seq<nat>, s: seq<nat>, done: nat, x: nat)
    requires Transferred(m0, m, d, s, done) && x < |m0| && forall i :: 0 <= i < |d| ==> d[i] != x
    ensures m[x] == m0[x]
  {
  }

  lemma RunsApart(d: seq<nat>, s: seq<nat>, done: nat, to: nat, from: nat, n: nat)
    requires Separate(d, s) && Runs(d, done, to, n) && Runs(s, done, from, n) && 0 < n
    ensures to + n <= from || from + n <= to
  {
    var y := if to <= from && from < to + n then from - to else 0;
    var z := if from <= to && to < from + n then to - from else 0;
    assert d[done + y] == to + y && s[done + z] == from + z;
    assert d[done + y] != s[done + z];
  }

  lemma TransferStep(m0: seq<Byte>, m: seq<Byte>, d: seq<nat>, s: seq<nat>, done: nat, to: nat, from: nat, n: nat)
    requires Transferred(m0, m, d, s, done) && Distinct(d) && Separate(d, s) && 0 < n
    requires Runs(d, done, to, n) && Runs(s, done, from, n)
    ensures MayCopy(|m|, to, from, n) && Transferred(m0, IovView.Moved(m, to, from, n), d, s, done + n)
  {
    assert d[done + n - 1] == to + (n - 1) && s[done + n - 1] == from + (n - 1);
    RunsApart(d, s, done, to, from, n);
    var w := IovView.Moved(m, to, from, n);
    forall i | 0 <= i < done + n ensures w[d[i]] == m0[s[i]] {
      if i < done { StepOld(m, d, done, to, from, n, i); } else { StepNew(m0, m, d, s, done, to, from, n, i); }
    }
    forall x | 0 <= x < |m0| && x !in d[..done + n] ensures w[x] == m0[x] {
      forall i | 0 <= i < done + n ensures d[i] != x { assert d[..done + n][i] == d[i]; }
      StepElsewhere(m, d, done, to, from, n, x);
      assert forall y :: y in d[..done] ==> y in d[..done + n];
    }
  }

  lemma StepOld(m: seq<Byte>, d: seq<nat>, done: nat, to: nat, from: nat, n: nat, i: nat)
    requires Distinct(d) && Runs(d, done, to, n) && 0 < n && i < done && MayCopy(|m|, to, from, n) && Within(d, |m|)
    ensures IovView.Moved(m, to, from, n)[d[i]] == m[d[i]]
  {
    var y := if to <= d[i] && d[i] < to + n then done + (d[i] - to) else done;
    assert d[y] == to + (y - done) && d[i] != d[y];
  }

  lemma StepNew(m0: seq<Byte>, m: seq<Byte>, d: seq<nat>, s: seq<nat>, done: nat, to: nat, from: nat, n: nat, i: nat)
    requires Transferred(m0, m, d, s, done) && Separate(d, s) && Runs(d, done, to, n) && Runs(s, done, from, n)
    requires done <= i < done + n && MayCopy(|m|, to, from, n)
    ensures IovView.Moved(m, to, from, n)[d[i]] == m0[s[i]]
  {
    var y := i - done;
    assert d[i] == to + y && s[i] == from + y;
    assert IovView.Moved(m, to, from, n)[to + y] == m[from + y];
    forall j | 0 <= j < |d| ensures d[j] != s[i] { }
    Unwritten(m0, m, d, s, done, s[i]);
  }

  lemma StepElsewhere(m: seq<Byte>, d: seq<nat>, done: nat, to: nat, from: nat, n: nat, x: nat)
    requires Runs(d, done, to, n) && 0 < n && MayCopy(|m|, to, from, n) && x < |m|
    requires forall i :: 0 <= i < done + n ==> d[i] != x
    ensures IovView.Moved(m, to, from, n)[x] == m[x]
  {
    var y := if to <= x && x < to + n then done + (x - to) else done;
    assert d[y] == to + (y - done) && d[y] != x;
  }

  lemma FrontOf(a: seq<nat>, done: nat, vs: seq<IoVec>, n: nat)
    requires vs != [] && n <= vs[0].len && done <= |a| && Addrs(vs) == a[done..]
    ensures Runs(a, done, vs[0].base, n) && Addrs(Advanced(vs, n)) == a[done + n..]
  {
    AdvancedAddrs(vs, n);
    FrontRuns(a, done, vs[0].base, n, Addrs(Advanced(vs, n)));
  }

  method TransferBytes(mem: Memory, to: nat, from: nat, n: nat, ghost m0: seq<Byte>, ghost d: seq<nat>,
                       ghost s: seq<nat>,
                       ghost done: nat)
    requires Transferred(m0, mem.bytes, d, s, done) && Distinct(d) && Separate(d, s) && 0 < n
    requires Runs(d, done, to, n) && Runs(s, done, from, n)
    modifies mem
    ensures Transferred(m0, mem.bytes, d, s, done + n)
  {
    TransferStep(m0, mem.bytes, d, s, done, to, from, n);
    mem.Memcpy(to, from, n);
  }

  method SkipFront(v: View, n: nat, ghost a: seq<nat>, ghost done: nat)
    requires v.Valid() && v.cnt > 0 && 0 < n <= v.iov[v.pos].len
    requires done <= |a| && Addrs(v.Segs()) == a[done..]
    modifies v, v.iov
    ensures v.Valid() && v.iov == old(v.iov) && v.Segs() == Beyond(old(v.Segs()), n)
    ensures done + n <= |a| && Addrs(v.Segs()) == a[done + n..]
  {
    ghost var vs := v.Segs();
    FrontOf(a, done, vs, n);
    CutIsAdvance(vs, n);
    var x := v.ExtractFront(n);
  }

  /** One turn of the loop. */
  method TransferFront(dest: View, src: View, mem: Memory, size: nat, ghost m0: seq<Byte>, ghost d: seq<nat>,
                       ghost s: seq<nat>,
                       ghost done: nat) returns (n: nat)
    requires dest.Valid() && src.Valid() && dest != src && dest.iov != src.iov && dest.cnt > 0 && src.cnt > 0 &&
      size > 0
    requires TurnOf(Turn(dest.Segs(), src.Segs(), size)) != Turn(dest.Segs(), src.Segs(), size) && Distinct(d) &&
      Separate(d, s)
    requires Transferred(m0, mem.bytes, d, s, done) && done <= |d| && done <= |s|
    requires Addrs(dest.Segs()) == d[done..] && Addrs(src.Segs()) == s[done..]
    modifies dest, dest.iov, src, src.iov, mem
    ensures dest.Valid() && src.Valid() && dest.iov == old(dest.iov) && src.iov == old(src.iov) && 0 < n <= size
    ensures done + n <= |d| && done + n <= |s|
    ensures Turn(dest.Segs(), src.Segs(), size - n) == TurnOf(Turn(old(dest.Segs()), old(src.Segs()), size))
    ensures Transferred(m0, mem.bytes, d, s, done + n)
    ensures Addrs(dest.Segs()) == d[done + n..] && Addrs(src.Segs()) == s[done + n..]
  {
    hide Transferred, Distinct, Separate, HitsEmpty, Lead, Runs, Addrs;
    var dv, sv := dest.iov[dest.pos], src.iov[src.pos];
    assert dv == dest.Segs()[0] && sv == src.Segs()[0];
    TurnStep(Turn(dest.Segs(), src.Segs(), size));
    n := Min(Min(size, dv.len), sv.len);
    FrontOf(d, done, dest.Segs(), n);
    FrontOf(s, done, src.Segs(), n);
    TransferBytes(mem, dv.base, sv.base, n, m0, d, s, done);
    SkipFront(dest, n, d, done);
    SkipFront(src, n, s, done);
  }

  lemma NoneTransferred(m: seq<Byte>, dest: seq<IoVec>, src: seq<IoVec>)
    requires Fits(m, dest) && Fits(m, src)
    ensures Transferred(m, m, Addrs(dest), Addrs(src), 0)
  {
  }

  /** It copies what both sides have room for and no more, in order, and leaves both views past it.  The
      arguments are those on which it ends. */
  method MemcpyIov(dest: View, src: View, mem: Memory, size: nat) returns (actual: nat)
    requires dest.Valid() && src.Valid() && dest != src && dest.iov != src.iov
    requires !HitsEmpty(Turn(dest.Segs(), src.Segs(), size)) && Fits(mem.bytes, dest.Segs()) &&
      Fits(mem.bytes, src.Segs())
    requires Distinct(Addrs(dest.Segs())) && Separate(Addrs(dest.Segs()), Addrs(src.Segs()))
    modifies dest, dest.iov, src, src.iov, mem
    ensures dest.Valid() && src.Valid()
    ensures actual == Min(size, Min(Sum(old(dest.Segs())), Sum(old(src.Segs()))))
    ensures Transferred(old(mem.bytes), mem.bytes, Addrs(old(dest.Segs())), Addrs(old(src.Segs())), actual)
    ensures Addrs(dest.Segs()) == Addrs(old(dest.Segs()))[actual..] &&
      Addrs(src.Segs()) == Addrs(old(src.Segs()))[actual..]
  {
    hide HitsEmpty, TurnOf, Distinct, Separate, Transferred, Fits, Addrs;
    ghost var d, s, m0 := Addrs(dest.Segs()), Addrs(src.Segs()), mem.bytes;
    actual := 0;
    var left: nat := size;
    assert d[0..] == d && s[0..] == s;
    NoneTransferred(m0, dest.Segs(), src.Segs());
    while left > 0 && dest.cnt > 0 && src.cnt > 0
      invariant dest.Valid() && src.Valid() && dest.iov == old(dest.iov) && src.iov == old(src.iov) &&
        actual + left == size
      invariant !HitsEmpty(Turn(dest.Segs(), src.Segs(), left)) && actual <= |d| && actual <= |s|
      invariant Transferred(m0, mem.bytes, d, s, actual)
      invariant Addrs(dest.Segs()) == d[actual..] && Addrs(src.Segs()) == s[actual..]
      decreases left
    {
      TurnStep(Turn(dest.Segs(), src.Segs(), left));
      var n := TransferFront(dest, src, mem, left, m0, d, s, actual);
      left, actual := left - n, actual + n;
    }
  }

  /** In terms of contents: the target's flattening now starts with what the source's started with,
      and the source reads as before. */
  lemma TransferMeaning(m0: seq<Byte>, m: seq<Byte>, dv: seq<IoVec>, sv: seq<IoVec>, k: nat)
    requires Transferred(m0, m, Addrs(dv), Addrs(sv), k) && Distinct(Addrs(dv)) && Separate(Addrs(dv), Addrs(sv))
    ensures Flat(m, dv) == Flat(m0, sv)[..k] + Flat(m0, dv)[k..] && Flat(m, sv) == Flat(m0, sv)
  {
    var d, s := Addrs(dv), Addrs(sv);
    TargetTail(m0, m, d, s, k);
    SourceStays(m0, m, d, s, k);
    var got, want := Load(m, d), Load(m0, s)[..k] + Load(m0, d)[k..];
    assert |got| == |want|;
    forall i | 0 <= i < |d| ensures got[i] == want[i] { if i < k { assert m[d[i]] == m0[s[i]]; } }
  }

  lemma TargetTail(m0: seq<Byte>, m: seq<Byte>, d: seq<nat>, s: seq<nat>, k: nat)
    requires Transferred(m0, m, d, s, k) && Distinct(d)
    ensures forall i :: k <= i < |d| ==> m[d[i]] == m0[d[i]]
  {
    forall i | k <= i < |d| ensures m[d[i]] == m0[d[i]] {
      forall j | 0 <= j < k ensures d[..k][j] != d[i] { assert d[j] != d[i]; }
    }
  }

  lemma SourceStays(m0: seq<Byte>, m: seq<Byte>, d: seq<nat>, s: seq<nat>, k: nat)
    requires Transferred(m0, m, d, s, k) && Separate(d, s)
    ensures Load(m, s) == Load(m0, s)
  {
    forall i | 0 <= i < |s| ensures m[s[i]] == m0[s[i]] {
      forall j | 0 <= j < |d| ensures d[j] != s[i] { }
      Unwritten(m0, m, d, s, k, s[i]);
    }
  }
}
