/** Views of iovec arrays, cut in place; and the memory they point into. */
module IovView {
  import opened Common
  import opened Iov

  function Patch(m: seq<Byte>, at: nat, data: seq<Byte>): (r: seq<Byte>)
    requires at + |data| <= |m|
    ensures |r| == |m|
    ensures forall i :: 0 <= i < |r| ==> r[i] == if at <= i < at + |data| then data[i - at] else m[i]
  {
    m[..at] + data + m[at + |data|..]
  }

  /** memcpy's own terms: both ranges in memory, and apart. */
  predicate MayCopy(size: nat, dst: nat, src: nat, n: nat) {
    n > 0 ==> dst + n <= size && src + n <= size && (dst + n <= src || src + n <= dst)
  }

  function Moved(m: seq<Byte>, dst: nat, src: nat, n: nat): seq<Byte>
    requires MayCopy(|m|, dst, src, n)
  {
    if n == 0 then m else Patch(m, dst, m[src..src + n])
  }

  class Memory {
    var bytes: seq<Byte>

    constructor (bytes: seq<Byte>)
      ensures this.bytes == bytes
    {
      this.bytes := bytes;
    }

    /** New addresses; whatever was addressed before keeps its place and contents. */
    method Malloc(n: nat) returns (base: nat)
      modifies this
      ensures base == |old(bytes)| && |bytes| == base + n && bytes[..base] == old(bytes)
    {
      base := |bytes|;
      bytes := bytes + seq(n, i => 0);
    }

    method Memcpy(dst: nat, src: nat, n: nat)
      requires MayCopy(|bytes|, dst, src, n)
      modifies this
      ensures bytes == Moved(old(bytes), dst, src, n)
    {
      bytes := Moved(bytes, dst, src, n);
    }
  }

  // ----- one step of an extraction -----

  function Last(vs: seq<IoVec>): IoVec
    requires vs != []
  {
    vs[|vs| - 1]
  }

  function Step(v: IoVec, bytes: nat): nat { Min(bytes, v.len) }

  /** What a view holds when n bytes of its front segment are gone. */
  function Advanced(vs: seq<IoVec>, n: nat): seq<IoVec>
    requires vs != [] && n <= vs[0].len
  {
    if n == vs[0].len then vs[1..] else [Tail(vs[0], n)] + vs[1..]
  }

  function Retreated(vs: seq<IoVec>, n: nat): seq<IoVec>
    requires vs != [] && n <= Last(vs).len
  {
    var v := Last(vs);
    if n == v.len then vs[..|vs| - 1] else vs[..|vs| - 1] + [Head(v, v.len - n)]
  }

  lemma CutFrontStep(vs: seq<IoVec>, bytes: nat, room: Option<nat>)
    requires vs != [] && bytes > 0 && room != Some(0)
    ensures
      var n := Step(vs[0], bytes);
      var c := CutFront(Advanced(vs, n), bytes - n, Less(room));
      CutFront(vs, bytes, room) == c.(pieces := [Head(vs[0], n)] + c.pieces)
  {
  }

  lemma CutBackStep(vs: seq<IoVec>, bytes: nat, room: Option<nat>)
    requires vs != [] && bytes > 0 && room != Some(0)
    ensures
      var v := Last(vs);
      var n := Step(v, bytes);
      var c := CutBack(Retreated(vs, n), bytes - n, Less(room));
      CutBack(vs, bytes, room) == c.(pieces := c.pieces + [Tail(v, v.len - n)])
  {
    var v := Last(vs);
    assert Tail(v, 0) == v;
  }

  class View {
    var iov: array<IoVec>
    var pos: nat
    var cnt: nat

    predicate Valid()
      reads this
    {
      pos + cnt <= iov.Length
    }

    function Segs(): (r: seq<IoVec>)
      requires Valid()
      reads this, iov
      ensures |r| == cnt
    {
      iov[pos..pos + cnt]
    }

    constructor (iov: array<IoVec>, pos: nat, cnt: nat)
      requires pos + cnt <= iov.Length
      ensures this.iov == iov && this.pos == pos && this.cnt == cnt
    {
      this.iov, this.pos, this.cnt := iov, pos, cnt;
    }

    method SumUp() returns (s: nat)
      requires Valid()
      ensures s == Sum(Segs())
    {
      s := 0;
      var i := 0;
      while i < cnt
        invariant i <= cnt && s + Sum(Segs()[i..]) == Sum(Segs())
      {
        assert Segs()[i..][1..] == Segs()[i + 1..];
        s := s + iov[pos + i].len;
        i := i + 1;
      }
    }

    /** The front segment loses its first n bytes, and its place with the last of them. */
    method DropFront(n: nat)
      requires Valid() && cnt > 0 && n <= iov[pos].len
      modifies this, iov
      ensures Valid() && iov == old(iov) && Segs() == Advanced(old(Segs()), n)
      ensures pos + cnt == old(pos + cnt)
    {
      var v := iov[pos];
      iov[pos] := v.(len := v.len - n);
      if iov[pos].len == 0 {
        pos, cnt := pos + 1, cnt - 1;
      } else {
        iov[pos] := iov[pos].(base := v.base + n);
      }
    }

    method DropBack(n: nat)
      requires Valid() && cnt > 0 && n <= iov[pos + cnt - 1].len
      modifies this, iov
      ensures Valid() && iov == old(iov) && Segs() == Retreated(old(Segs()), n)
      ensures pos == old(pos) && cnt == old(cnt) - (if n == old(iov[pos + cnt - 1]).len then 1 else 0)
    {
      var v := iov[pos + cnt - 1];
      iov[pos + cnt - 1] := v.(len := v.len - n);
      if v.len - n == 0 { cnt := cnt - 1; }
    }

    // ----- extraction that discards -----

    method ExtractFront(bytes: nat) returns (got: nat)
      requires Valid()
      modifies this, iov
      ensures Valid() && iov == old(iov) && pos + cnt == old(pos + cnt)
      ensures Segs() == CutFront(old(Segs()), bytes, None).rest && got == Min(bytes, Sum(old(Segs())))
    {
      var left: nat := bytes;
      ghost var vs := Segs();
      while left > 0 && cnt > 0
        invariant Valid() && iov == old(iov) && left <= bytes && pos + cnt == old(pos + cnt)
        invariant vs == Segs() && FrontLeft(old(Segs()), bytes, vs, left)
        decreases cnt, left
      {
        FrontLeftStep(old(Segs()), bytes, vs, left);
        var n := Step(iov[pos], left);
        DropFront(n);
        left, vs := left - n, Segs();
      }
      FrontLeftEnd(old(Segs()), bytes, vs, left);
      return bytes - left;
    }

    method ExtractBack(bytes: nat) returns (got: nat)
      requires Valid()
      modifies this, iov
      ensures Valid() && iov == old(iov) && pos == old(pos)
      ensures Segs() == CutBack(old(Segs()), bytes, None).rest && got == Min(bytes, Sum(old(Segs())))
    {
      var left: nat := bytes;
      ghost var vs := Segs();
      while left > 0 && cnt > 0
        invariant Valid() && iov == old(iov) && left <= bytes && pos == old(pos)
        invariant vs == Segs() && BackLeft(old(Segs()), bytes, vs, left)
        decreases cnt, left
      {
        BackLeftStep(old(Segs()), bytes, vs, left);
        assert Last(vs) == iov[pos + cnt - 1];
        var n := Step(iov[pos + cnt - 1], left);
        DropBack(n);
        left, vs := left - n, Segs();
      }
      BackLeftEnd(old(Segs()), bytes, vs, left);
      return bytes - left;
    }

    // ----- extraction that hands the segments over -----

    /** One piece from the front of this view to the end of `out`. */
    method MoveFront(left: nat, out: View, ghost goal: Cut, ghost room: nat) returns (n: nat)
      requires Valid() && out.Valid() && cnt > 0 && left > 0 && out != this && out.iov != iov
      requires out.pos + out.cnt < out.iov.Length
      requires room > 0 && FrontSoFar(goal, Segs(), left, room, out.Segs())
      modifies this, iov, out`cnt, out.iov
      ensures Valid() && out.Valid() && iov == old(iov) && pos + cnt == old(pos + cnt)
      ensures n <= left && (cnt < old(cnt) || (cnt == old(cnt) && n == left)) && out.cnt == old(out.cnt) + 1
      ensures FrontSoFar(goal, Segs(), left - n, room - 1, out.Segs())
    {
      ghost var vs, given := Segs(), out.Segs();
      FrontSoFarStep(goal, vs, left, room, given);
      n := Step(iov[pos], left);
      out.Put(Head(iov[pos], n));
      DropFront(n);
    }

    /** The slots of `out` take the pieces, without copying; -1 when they run out, and then what was
        taken so far stays taken. */
    method ExtractFrontInto(bytes: nat, out: View) returns (got: int, ghost left: nat)
      requires Valid() && out.Valid() && out != this && out.iov != iov
      modifies this, iov, out`cnt, out.iov
      ensures Valid() && out.Valid() && iov == old(iov) && pos + cnt == old(pos + cnt)
      ensures CutFront(old(Segs()), bytes, Some(old(out.cnt))) == Cut(out.Segs(), Segs(), left, got < 0)
      ensures got == -1 || got + left == bytes
    {
      var slots := out.cnt;
      out.cnt := 0;
      var more: nat := bytes;
      ghost var room: nat := slots;
      assert out.Segs() == [];
      ghost var goal := CutFront(Segs(), bytes, Some(slots));
      SoFarStart(Segs(), bytes, slots);
      while more > 0 && cnt > 0
        invariant Valid() && iov == old(iov) && out.Valid() && out.cnt <= slots
        invariant more <= bytes && pos + cnt == old(pos + cnt)
        invariant room == slots - out.cnt && FrontSoFar(goal, Segs(), more, room, out.Segs())
        decreases cnt, more
      {
        if out.cnt == slots {
          FrontSoFarStep(goal, Segs(), more, 0, out.Segs());
          return -1, more;
        }
        var n := MoveFront(more, out, goal, room);
        more, room := more - n, room - 1;
      }
      FrontSoFarEnd(goal, Segs(), more, room, out.Segs());
      return bytes - more, more;
    }

    /** One more slot at the end. */
    method Put(v: IoVec)
      requires pos + cnt < iov.Length
      modifies this`cnt, iov
      ensures Valid() && cnt == old(cnt) + 1 && Segs() == old(iov[pos..pos + cnt]) + [v]
    {
      iov[pos + cnt] := v;
      cnt := cnt + 1;
    }

    /** One more slot before the front. */
    method PutFirst(v: IoVec)
      requires 0 < pos && Valid()
      modifies this`pos, this`cnt, iov
      ensures Valid() && cnt == old(cnt) + 1 && pos == old(pos) - 1 && Segs() == [v] + old(Segs())
    {
      pos, cnt := pos - 1, cnt + 1;
      iov[pos] := v;
    }

    /** One piece from the back of this view to the front of `out`. */
    method MoveBack(left: nat, out: View, ghost goal: Cut, ghost room: nat) returns (n: nat)
      requires Valid() && out.Valid() && cnt > 0 && left > 0 && out != this && out.iov != iov && out.pos > 0
      requires room > 0 && BackSoFar(goal, Segs(), left, room, out.Segs())
      modifies this, iov, out`pos, out`cnt, out.iov
      ensures Valid() && out.Valid() && iov == old(iov) && pos == old(pos)
      ensures n <= left && (cnt < old(cnt) || (cnt == old(cnt) && n == left)) && out.pos == old(out.pos) - 1
      ensures BackSoFar(goal, Segs(), left - n, room - 1, out.Segs())
    {
      hide BackSoFar, Retreated;
      ghost var vs, given := Segs(), out.Segs();
      BackSoFarStep(goal, vs, left, room, given);
      var v := iov[pos + cnt - 1];
      assert v == Last(vs);
      n := Step(v, left);
      out.PutFirst(Tail(v, v.len - n));
      DropBack(n);
    }

    /** The same from the back; the pieces fill the slots from the last one down. */
    method ExtractBackInto(bytes: nat, out: View) returns (got: int, ghost left: nat)
      requires Valid() && out.Valid() && out != this && out.iov != iov
      modifies this, iov, out`pos, out`cnt, out.iov
      ensures Valid() && out.Valid() && iov == old(iov) && pos == old(pos)
      ensures CutBack(old(Segs()), bytes, Some(old(out.cnt))) == Cut(out.Segs(), Segs(), left, got < 0)
      ensures got == -1 || got + left == bytes
    {
      var slots, begin := out.cnt, out.pos;
      out.pos, out.cnt := out.pos + slots, 0;
      var more: nat := bytes;
      ghost var room: nat := slots;
      assert out.Segs() == [];
      ghost var goal := CutBack(Segs(), bytes, Some(slots));
      SoFarStart(Segs(), bytes, slots);
      while more > 0 && cnt > 0
        invariant Valid() && iov == old(iov) && out.Valid() && begin <= out.pos
        invariant more <= bytes && pos == old(pos)
        invariant room == out.pos - begin && BackSoFar(goal, Segs(), more, room, out.Segs())
        decreases cnt, more
      {
        if out.pos == begin {
          BackSoFarStep(goal, Segs(), more, 0, out.Segs());
          return -1, more;
        }
        var n := MoveBack(more, out, goal, room);
        more, room := more - n, room - 1;
      }
      BackSoFarEnd(goal, Segs(), more, room, out.Segs());
      return bytes - more, more;
    }

    // ----- extraction of one continuous stretch -----

    method ExtractFrontContinuous(bytes: nat) returns (ptr: Option<nat>)
      requires Valid()
      modifies this, iov
      ensures Valid() && iov == old(iov) && pos + cnt == old(pos + cnt)
      ensures ptr.Some? <==> old(cnt) > 0 && bytes <= old(iov[pos].len)
      ensures ptr.None? ==> Segs() == old(Segs())
      ensures ptr.Some? ==> Range(ptr.value, bytes) + Addrs(Segs()) == Addrs(old(Segs()))
    {
      if cnt == 0 || iov[pos].len < bytes { return None; }
      ptr := Some(iov[pos].base);
      ghost var was := Segs();
      DropFront(bytes);
      AdvancedAddrs(was, bytes);
    }

    method ExtractBackContinuous(bytes: nat) returns (ptr: Option<nat>)
      requires Valid()
      modifies this, iov
      ensures Valid() && iov == old(iov) && pos == old(pos)
      ensures ptr.Some? <==> old(cnt) > 0 && bytes <= old(iov[pos + cnt - 1].len)
      ensures ptr.None? ==> Segs() == old(Segs())
      ensures ptr.Some? ==> Addrs(Segs()) + Range(ptr.value, bytes) == Addrs(old(Segs()))
    {
      if cnt == 0 || iov[pos + cnt - 1].len < bytes { return None; }
      var v := iov[pos + cnt - 1];
      ptr := Some(v.base + (v.len - bytes));
      ghost var was := Segs();
      assert was[cnt - 1] == v;
      DropBack(bytes);
      assert was == was[..|was| - 1] + [v];
      RetreatedAddrs(was[..|was| - 1], v, bytes);
    }

    // ----- shrink_to -----

    method EndAt(i: nat, n: nat)
      requires Valid() && i < cnt
      modifies this`cnt, iov
      ensures Valid() && Segs() == old(Segs())[..i] + [Head(old(Segs())[i], n)]
    {
      iov[pos + i] := iov[pos + i].(len := n);
      cnt := i + 1;
    }

    method ShrinkTo(size: nat) returns (got: nat)
      requires Valid()
      modifies this, iov
      ensures Valid() && iov == old(iov) && pos == old(pos)
      ensures Segs() == Shrunk(old(Segs()), size) && got == Min(size, Sum(old(Segs())))
    {
      if size == 0 {
        cnt := 0;
        return 0;
      }
      ghost var all := Segs();
      assert all[0..] == all && [] + Shrunk(all, size) == Shrunk(all, size);
      var left: nat := size;
      var i := 0;
      while i < cnt
        invariant i <= cnt && 0 < left <= size && Valid() && iov == old(iov) && pos == old(pos)
        invariant Segs() == all && cnt == old(cnt)
        invariant Shrinking(all, size, i, left)
      {
        ShrinkingStep(all, size, i, left);
        assert all[i] == iov[pos + i];
        if left <= iov[pos + i].len {
          EndAt(i, left);
          return size;
        }
        left := left - iov[pos + i].len;
        i := i + 1;
      }
      assert all[..i] == all && all[i..] == [];
      return size - left;
    }
  }

  /** What is left to do of an extraction ends as the whole of it does. */
  ghost predicate FrontLeft(all: seq<IoVec>, bytes: nat, vs: seq<IoVec>, left: nat) {
    CutFront(vs, left, None).rest == CutFront(all, bytes, None).rest &&
      CutFront(vs, left, None).left == CutFront(all, bytes, None).left
  }

  lemma FrontLeftStep(all: seq<IoVec>, bytes: nat, vs: seq<IoVec>, left: nat)
    requires FrontLeft(all, bytes, vs, left) && vs != [] && left > 0
    ensures FrontLeft(all, bytes, Advanced(vs, Step(vs[0], left)), left - Step(vs[0], left))
  {
    CutFrontStep(vs, left, None);
  }

  lemma FrontLeftEnd(all: seq<IoVec>, bytes: nat, vs: seq<IoVec>, left: nat)
    requires FrontLeft(all, bytes, vs, left) && (vs == [] || left == 0)
    ensures vs == CutFront(all, bytes, None).rest && left == bytes - Min(bytes, Sum(all))
  {
    CutTotal(all, bytes);
  }

  ghost predicate BackLeft(all: seq<IoVec>, bytes: nat, vs: seq<IoVec>, left: nat) {
    CutBack(vs, left, None).rest == CutBack(all, bytes, None).rest &&
      CutBack(vs, left, None).left == CutBack(all, bytes, None).left
  }

  lemma BackLeftStep(all: seq<IoVec>, bytes: nat, vs: seq<IoVec>, left: nat)
    requires BackLeft(all, bytes, vs, left) && vs != [] && left > 0
    ensures
      var n := Step(Last(vs), left);
      BackLeft(all, bytes, Retreated(vs, n), left - n)
  {
    CutBackStep(vs, left, None);
  }

  lemma BackLeftEnd(all: seq<IoVec>, bytes: nat, vs: seq<IoVec>, left: nat)
    requires BackLeft(all, bytes, vs, left) && (vs == [] || left == 0)
    ensures vs == CutBack(all, bytes, None).rest && left == bytes - Min(bytes, Sum(all))
  {
    CutTotal(all, bytes);
  }

  /** Part of an extraction is done: `given` is out, and the rest of the work makes it `goal`. */
  ghost predicate FrontSoFar(goal: Cut, vs: seq<IoVec>, left: nat, room: nat, given: seq<IoVec>) {
    var c := CutFront(vs, left, Some(room));
    goal == c.(pieces := given + c.pieces)
  }

  lemma SoFarStart(vs: seq<IoVec>, bytes: nat, slots: nat)
    ensures FrontSoFar(CutFront(vs, bytes, Some(slots)), vs, bytes, slots, [])
    ensures BackSoFar(CutBack(vs, bytes, Some(slots)), vs, bytes, slots, [])
  {
    var p, q := CutFront(vs, bytes, Some(slots)).pieces, CutBack(vs, bytes, Some(slots)).pieces;
    assert [] + p == p && q + [] == q;
  }

  lemma FrontSoFarEnd(goal: Cut, vs: seq<IoVec>, left: nat, room: nat, given: seq<IoVec>)
    requires FrontSoFar(goal, vs, left, room, given) && (vs == [] || left == 0)
    ensures goal == Cut(given, vs, left, false)
  {
  }

  lemma FrontSoFarStep(goal: Cut, vs: seq<IoVec>, left: nat, room: nat, given: seq<IoVec>)
    requires FrontSoFar(goal, vs, left, room, given) && vs != [] && left > 0
    ensures room == 0 ==> goal == Cut(given, vs, left, true)
    ensures room > 0 ==>
      var n := Step(vs[0], left);
      FrontSoFar(goal, Advanced(vs, n), left - n, room - 1, given + [Head(vs[0], n)])
  {
    if room > 0 {
      CutFrontStep(vs, left, Some(room));
      var n := Step(vs[0], left);
      Snoc(given, Head(vs[0], n), CutFront(Advanced(vs, n), left - n, Some(room - 1)).pieces);
    }
  }

  ghost predicate BackSoFar(goal: Cut, vs: seq<IoVec>, left: nat, room: nat, given: seq<IoVec>) {
    var c := CutBack(vs, left, Some(room));
    goal == c.(pieces := c.pieces + given)
  }

  lemma BackSoFarEnd(goal: Cut, vs: seq<IoVec>, left: nat, room: nat, given: seq<IoVec>)
    requires BackSoFar(goal, vs, left, room, given) && (vs == [] || left == 0)
    ensures goal == Cut(given, vs, left, false)
  {
  }

  lemma BackSoFarStep(goal: Cut, vs: seq<IoVec>, left: nat, room: nat, given: seq<IoVec>)
    requires BackSoFar(goal, vs, left, room, given) && vs != [] && left > 0
    ensures room == 0 ==> goal == Cut(given, vs, left, true)
    ensures room > 0 ==>
      var v := Last(vs);
      var n := Step(v, left);
      BackSoFar(goal, Retreated(vs, n), left - n, room - 1, [Tail(v, v.len - n)] + given)
  {
    if room > 0 {
      CutBackStep(vs, left, Some(room));
      var v := Last(vs);
      var n := Step(v, left);
      Snoc(CutBack(Retreated(vs, n), left - n, Some(room - 1)).pieces, Tail(v, v.len - n), given);
    }
  }

  ghost predicate Shrinking(all: seq<IoVec>, size: nat, i: nat, left: nat) {
    i <= |all| && all[..i] + Shrunk(all[i..], left) == Shrunk(all, size) && left + Sum(all) == size + Sum(all[i..])
  }

  lemma ShrinkingStep(all: seq<IoVec>, size: nat, i: nat, left: nat)
    requires Shrinking(all, size, i, left) && i < |all| && left > 0
    ensures left <= all[i].len ==> all[..i] + [Head(all[i], left)] == Shrunk(all, size) && size <= Sum(all)
    ensures left > all[i].len ==> Shrinking(all, size, i + 1, left - all[i].len)
  {
    assert all[i..][1..] == all[i + 1..] && all[i..][0] == all[i];
    if left > all[i].len {
      assert all[..i + 1] == all[..i] + [all[i]];
      Snoc(all[..i], all[i], Shrunk(all[i + 1..], left - all[i].len));
    }
  }

  lemma Snoc(given: seq<IoVec>, v: IoVec, more: seq<IoVec>)
    ensures given + ([v] + more) == (given + [v]) + more
  {
  }

  lemma AdvancedAddrs(vs: seq<IoVec>, n: nat)
    requires vs != [] && n <= vs[0].len
    ensures Range(vs[0].base, n) + Addrs(Advanced(vs, n)) == Addrs(vs)
  {
    var v := vs[0];
    assert vs == [v] + vs[1..];
    AddrsConcat([v], vs[1..]);
    AddrsOne(v);
    if n < v.len {
      SplitSegment(v, n);
      AddrsOne(Head(v, n));
      AddrsConcat([Tail(v, n)], vs[1..]);
      Assoc(Addrs([Head(v, n)]), Addrs([Tail(v, n)]), Addrs(vs[1..]));
    }
  }

  lemma LastGone(init: seq<IoVec>, v: IoVec)
    ensures Retreated(init + [v], v.len) == init && Addrs(init) + Range(v.base, v.len) == Addrs(init + [v])
  {
    AddrsConcat(init, [v]);
    AddrsOne(v);
  }

  lemma LastCut(init: seq<IoVec>, v: IoVec, n: nat)
    requires n < v.len
    ensures Retreated(init + [v], n) == init + [Head(v, v.len - n)]
  {
  }

  lemma LastShorter(init: seq<IoVec>, v: IoVec, k: nat, n: nat)
    requires k + n == v.len
    ensures Addrs(init + [Head(v, k)]) + Range(v.base + k, n) == Addrs(init + [v])
  {
    CutLast(init, v, k);
    AddrsOne(Tail(v, k));
  }

  lemma RetreatedAddrs(init: seq<IoVec>, v: IoVec, n: nat)
    requires n <= v.len
    ensures Addrs(Retreated(init + [v], n)) + Range(v.base + (v.len - n), n) == Addrs(init + [v])
  {
    if n < v.len {
      LastCut(init, v, n);
      LastShorter(init, v, v.len - n, n);
    } else {
      LastGone(init, v);
    }
  }
}
