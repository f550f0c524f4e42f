/**
 Scatter/gather vectors as values: what a list of segments means, and what cutting bytes off either
 end does to it.  A pointer is an address in one flat memory.
 */
module Iov {
  import opened Common

  type Byte = x: int | 0 <= x < 256

  datatype IoVec = IoVec(base: nat, len: nat)

  // ----- meaning -----

  function Range(base: nat, len: nat): (r: seq<nat>)
    ensures |r| == len && forall i :: 0 <= i < len ==> r[i] == base + i
  {
    seq(len, i requires i >= 0 => base + i)
  }

  /** The addresses of a vector's bytes, in order. */
  function Addrs(vs: seq<IoVec>): (r: seq<nat>)
    ensures |r| == Sum(vs)
  {
    if vs == [] then [] else Range(vs[0].base, vs[0].len) + Addrs(vs[1..])
  }

  function Sum(vs: seq<IoVec>): nat { if vs == [] then 0 else vs[0].len + Sum(vs[1..]) }

  predicate Within(a: seq<nat>, size: nat) { forall i :: 0 <= i < |a| ==> a[i] < size }

  function Load(m: seq<Byte>, a: seq<nat>): (r: seq<Byte>)
    requires Within(a, |m|)
  {
    seq(|a|, i requires 0 <= i < |a| => m[a[i]])
  }

  ghost predicate Fits(m: seq<Byte>, vs: seq<IoVec>) { Within(Addrs(vs), |m|) }

  /** The flattened contents. */
  function Flat(m: seq<Byte>, vs: seq<IoVec>): (r: seq<Byte>)
    requires Within(Addrs(vs), |m|)
  {
    Load(m, Addrs(vs))
  }

  lemma {:induction false} AddrsConcat(a: seq<IoVec>, b: seq<IoVec>)
    ensures Addrs(a + b) == Addrs(a) + Addrs(b)
  {
    if a == [] {
      assert a + b == b;
    } else {
      assert (a + b)[1..] == a[1..] + b;
      AddrsConcat(a[1..], b);
    }
  }

  lemma AddrsOne(v: IoVec)
    ensures Addrs([v]) == Range(v.base, v.len)
  {
    assert Addrs([v]) == Range(v.base, v.len) + Addrs([v][1..]);
  }

  // ----- cutting -----

  /** Pieces handed out, in order of address; segments left; bytes not found; and whether whoever
      took the pieces ran out of room first. */
  datatype Cut = Cut(pieces: seq<IoVec>, rest: seq<IoVec>, left: nat, failed: bool)

  function Less(room: Option<nat>): Option<nat> {
    match room case Some(n) => (if n == 0 then Some(0) else Some(n - 1)) case None => None
  }

  function Head(v: IoVec, n: nat): IoVec { IoVec(v.base, n) }

  function Tail(v: IoVec, n: nat): IoVec
    requires n <= v.len
  {
    IoVec(v.base + n, v.len - n)
  }

  /** do_extract_front; `room` is how many pieces the callback accepts. */
  function CutFront(vs: seq<IoVec>, bytes: nat, room: Option<nat>): Cut {
    if bytes == 0 || vs == [] then Cut([], vs, bytes, false)
    else if room == Some(0) then Cut([], vs, bytes, true)
    else if bytes < vs[0].len then Cut([Head(vs[0], bytes)], [Tail(vs[0], bytes)] + vs[1..], 0, false)
    else
      var c := CutFront(vs[1..], bytes - vs[0].len, Less(room));
      c.(pieces := [vs[0]] + c.pieces)
  }

  /** do_extract_back. */
  function CutBack(vs: seq<IoVec>, bytes: nat, room: Option<nat>): Cut {
    if bytes == 0 || vs == [] then Cut([], vs, bytes, false)
    else
      var init, v := vs[..|vs| - 1], vs[|vs| - 1];
      if room == Some(0) then Cut([], vs, bytes, true)
      else if bytes < v.len then Cut([Tail(v, v.len - bytes)], init + [Head(v, v.len - bytes)], 0, false)
      else
        var c := CutBack(init, bytes - v.len, Less(room));
        c.(pieces := c.pieces + [v])
  }

  lemma SplitSegment(v: IoVec, n: nat)
    requires n <= v.len
    ensures Addrs([Head(v, n)]) + Addrs([Tail(v, n)]) == Addrs([v])
  {
    AddrsOne(v);
    AddrsOne(Head(v, n));
    AddrsOne(Tail(v, n));
  }

  /** Whether it succeeds or not: what is out and what is left, in that order, are the very bytes
      that were there, at the addresses where they were. */
  lemma {:induction false} CutFrontConserves(vs: seq<IoVec>, bytes: nat, room: Option<nat>)
    ensures
      var c := CutFront(vs, bytes, room);
      Addrs(c.pieces) + Addrs(c.rest) == Addrs(vs) && |Addrs(c.pieces)| + c.left == bytes
  {
    var c := CutFront(vs, bytes, room);
    if bytes == 0 || vs == [] || room == Some(0) {
    } else if bytes < vs[0].len {
      SplitSegment(vs[0], bytes);
      AddrsOne(Head(vs[0], bytes));
      AddrsConcat([Tail(vs[0], bytes)], vs[1..]);
      AddrsConcat([vs[0]], vs[1..]);
      assert [vs[0]] + vs[1..] == vs;
    } else {
      var d := CutFront(vs[1..], bytes - vs[0].len, Less(room));
      CutFrontConserves(vs[1..], bytes - vs[0].len, Less(room));
      AddrsConcat([vs[0]], d.pieces);
      AddrsConcat([vs[0]], vs[1..]);
      AddrsOne(vs[0]);
      assert [vs[0]] + vs[1..] == vs;
      Assoc(Addrs([vs[0]]), Addrs(d.pieces), Addrs(d.rest));
    }
  }

  lemma CutLast(init: seq<IoVec>, v: IoVec, n: nat)
    requires n <= v.len
    ensures Addrs(init + [Head(v, n)]) + Addrs([Tail(v, n)]) == Addrs(init + [v])
  {
    SplitSegment(v, n);
    AddrsConcat(init, [v]);
    AddrsConcat(init, [Head(v, n)]);
    Assoc(Addrs(init), Addrs([Head(v, n)]), Addrs([Tail(v, n)]));
  }

  lemma CutLastBytes(init: seq<IoVec>, v: IoVec, bytes: nat)
    requires bytes <= v.len
    ensures Addrs(init + [Head(v, v.len - bytes)]) + Addrs([Tail(v, v.len - bytes)]) == Addrs(init + [v])
    ensures |Addrs([Tail(v, v.len - bytes)])| == bytes
  {
    CutLast(init, v, v.len - bytes);
    AddrsOne(Tail(v, v.len - bytes));
  }

  lemma Regroup(d: Cut, init: seq<IoVec>, v: IoVec)
    requires Addrs(d.rest) + Addrs(d.pieces) == Addrs(init)
    ensures Addrs(d.rest) + Addrs(d.pieces + [v]) == Addrs(init + [v])
    ensures |Addrs(d.pieces + [v])| == |Addrs(d.pieces)| + v.len
  {
    AddrsOne(v);
    AddrsConcat(init, [v]);
    AddrsConcat(d.pieces, [v]);
    Assoc(Addrs(d.rest), Addrs(d.pieces), Addrs([v]));
  }

  lemma {:induction false} CutBackConserves(vs: seq<IoVec>, bytes: nat, room: Option<nat>)
    ensures
      var c := CutBack(vs, bytes, room);
      Addrs(c.rest) + Addrs(c.pieces) == Addrs(vs) && |Addrs(c.pieces)| + c.left == bytes
  {
    if bytes == 0 || vs == [] || room == Some(0) {
    } else {
      var init, v := vs[..|vs| - 1], vs[|vs| - 1];
      assert init + [v] == vs;
      if bytes < v.len {
        CutLastBytes(init, v, bytes);
      } else {
        var d := CutBack(init, bytes - v.len, Less(room));
        CutBackConserves(init, bytes - v.len, Less(room));
        Regroup(d, init, v);
      }
    }
  }

  /** How it ends: every byte asked for was found, or nothing is left, or there was no room left. */
  lemma {:induction false} CutFrontEnds(vs: seq<IoVec>, bytes: nat, room: Option<nat>)
    ensures
      var c := CutFront(vs, bytes, room);
      && (!c.failed ==> c.left == 0 || c.rest == [])
      && (c.failed ==> c.left > 0 && c.rest != [] && room == Some(|c.pieces|))
      && (room.Some? ==> |c.pieces| <= room.value)
      && |c.pieces| <= |vs|
  {
    if bytes == 0 || vs == [] || room == Some(0) || bytes < vs[0].len {
    } else {
      CutFrontEnds(vs[1..], bytes - vs[0].len, Less(room));
    }
  }

  lemma {:induction false} CutBackEnds(vs: seq<IoVec>, bytes: nat, room: Option<nat>)
    ensures
      var c := CutBack(vs, bytes, room);
      && (!c.failed ==> c.left == 0 || c.rest == [])
      && (c.failed ==> c.left > 0 && c.rest != [] && room == Some(|c.pieces|))
      && (room.Some? ==> |c.pieces| <= room.value)
      && |c.pieces| <= |vs|
  {
    if bytes == 0 || vs == [] || room == Some(0) || bytes < vs[|vs| - 1].len {
    } else {
      CutBackEnds(vs[..|vs| - 1], bytes - vs[|vs| - 1].len, Less(room));
    }
  }

  /** With room enough, what is not found is what was never there. */
  lemma CutTotal(vs: seq<IoVec>, bytes: nat)
    ensures CutFront(vs, bytes, None).left == CutBack(vs, bytes, None).left == bytes - Min(bytes, Sum(vs))
  {
    CutFrontConserves(vs, bytes, None);
    CutFrontEnds(vs, bytes, None);
    CutBackConserves(vs, bytes, None);
    CutBackEnds(vs, bytes, None);
  }

  /** The view form fails exactly when the pieces outnumber the slots, and then it has handed out
      as many as there are slots. */
  lemma {:induction false} CutFrontFailsIff(vs: seq<IoVec>, bytes: nat, room: nat)
    ensures
      var c, all := CutFront(vs, bytes, Some(room)), CutFront(vs, bytes, None);
      && (c.failed <==> |all.pieces| > room)
      && c.pieces == (if c.failed then all.pieces[..room] else all.pieces)
      && (!c.failed ==> c.rest == all.rest && c.left == all.left)
  {
    if bytes == 0 || vs == [] || bytes < vs[0].len {
    } else if room > 0 {
      CutFrontFailsIff(vs[1..], bytes - vs[0].len, room - 1);
    }
  }

  /** What a cut from the back into that many slots is, next to the cut into any number. */
  ghost predicate BackFails(c: Cut, all: Cut, room: nat) {
    && (c.failed <==> |all.pieces| > room)
    && (if c.failed then c.pieces == all.pieces[|all.pieces| - room..] else c == all.(failed := false))
  }

  lemma BackFailsSnoc(c: Cut, all: Cut, room: nat, v: IoVec)
    requires BackFails(c, all, room) && !all.failed
    ensures BackFails(c.(pieces := c.pieces + [v]), all.(pieces := all.pieces + [v]), room + 1)
  {
  }

  lemma {:induction false} CutBackFailsIff(vs: seq<IoVec>, bytes: nat, room: nat)
    ensures !CutBack(vs, bytes, None).failed &&
      BackFails(CutBack(vs, bytes, Some(room)), CutBack(vs, bytes, None), room)
  {
    if bytes == 0 || vs == [] || bytes < vs[|vs| - 1].len {
      CutBackEnds(vs, bytes, None);
    } else if room > 0 {
      var init, v := vs[..|vs| - 1], vs[|vs| - 1];
      CutBackFailsIff(init, bytes - v.len, room - 1);
      var c, all := CutBack(init, bytes - v.len, Some(room - 1)), CutBack(init, bytes - v.len, None);
      BackFailsSnoc(c, all, room - 1, v);
      assert CutBack(vs, bytes, Some(room)) == c.(pieces := c.pieces + [v]);
      assert CutBack(vs, bytes, None) == all.(pieces := all.pieces + [v]);
    } else {
      CutBackEnds(vs, bytes, None);
    }
  }

  // ----- in terms of bytes: the segmentation does not matter -----

  lemma LoadConcat(m: seq<Byte>, a: seq<nat>, b: seq<nat>)
    requires Within(a + b, |m|)
    ensures Within(a, |m|) && Within(b, |m|) && Load(m, a + b) == Load(m, a) + Load(m, b)
  {
    forall i | 0 <= i < |a| ensures a[i] < |m| { assert (a + b)[i] == a[i]; }
    forall i | 0 <= i < |b| ensures b[i] < |m| { assert (a + b)[|a| + i] == b[i]; }
  }

  lemma FrontBytes(m: seq<Byte>, vs: seq<IoVec>, bytes: nat, room: Option<nat>)
    requires Fits(m, vs)
    ensures
      var c, k := CutFront(vs, bytes, room), Min(bytes, Sum(vs));
      && Fits(m, c.pieces) && Fits(m, c.rest)
      && Flat(m, c.pieces) + Flat(m, c.rest) == Flat(m, vs)
      && (!c.failed ==>
        bytes - c.left == k && Flat(m, c.pieces) == Flat(m, vs)[..k] && Flat(m, c.rest) == Flat(m, vs)[k..])
  {
    var c := CutFront(vs, bytes, room);
    CutFrontConserves(vs, bytes, room);
    CutFrontEnds(vs, bytes, room);
    LoadConcat(m, Addrs(c.pieces), Addrs(c.rest));
  }

  lemma BackBytes(m: seq<Byte>, vs: seq<IoVec>, bytes: nat, room: Option<nat>)
    requires Fits(m, vs)
    ensures
      var c, k := CutBack(vs, bytes, room), Min(bytes, Sum(vs));
      && Fits(m, c.pieces) && Fits(m, c.rest)
      && Flat(m, c.rest) + Flat(m, c.pieces) == Flat(m, vs)
      && (!c.failed ==> bytes - c.left == k && Flat(m, c.pieces) == Flat(m, vs)[Sum(vs) - k..]
                        && Flat(m, c.rest) == Flat(m, vs)[..Sum(vs) - k])
  {
    var c := CutBack(vs, bytes, room);
    CutBackConserves(vs, bytes, room);
    CutBackEnds(vs, bytes, room);
    LoadConcat(m, Addrs(c.rest), Addrs(c.pieces));
  }

  // ----- shrink_to -----

  function Shrunk(vs: seq<IoVec>, size: nat): seq<IoVec>
    decreases |vs|
  {
    if size == 0 then [] else if vs == [] then []
    else if size <= vs[0].len then [Head(vs[0], size)]
    else [vs[0]] + Shrunk(vs[1..], size - vs[0].len)
  }

  /** A prefix of the bytes: all of them when there are no more than `size`. */
  lemma {:induction false} ShrunkIsPrefix(vs: seq<IoVec>, size: nat)
    ensures Addrs(Shrunk(vs, size)) == Addrs(vs)[..Min(size, |Addrs(vs)|)]
    decreases |vs|
  {
    if size == 0 || vs == [] {
    } else {
      AddrsOne(vs[0]);
      assert [vs[0]] + vs[1..] == vs;
      AddrsConcat([vs[0]], vs[1..]);
      if size <= vs[0].len {
        AddrsOne(Head(vs[0], size));
      } else {
        ShrunkIsPrefix(vs[1..], size - vs[0].len);
        AddrsConcat([vs[0]], Shrunk(vs[1..], size - vs[0].len));
      }
    }
  }
}
