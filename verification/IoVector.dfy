/** iovector: a window [begin, end) of a fixed array of segments, with an allocator behind it. */
module IoVector {
  import opened Common
  import opened Iov
  import opened IovView
  import opened IovCopy

  /** Memory that has only grown keeps what it held. */
  ghost predicate Grown(m0: seq<Byte>, m: seq<Byte>) { |m0| <= |m| && m[..|m0|] == m0 }

  lemma GrownLoad(m0: seq<Byte>, m: seq<Byte>, a: seq<nat>)
    requires Grown(m0, m) && Within(a, |m0|)
    ensures Within(a, |m|) && Load(m, a) == Load(m0, a)
  {
    forall i | 0 <= i < |a| ensures m[a[i]] == m0[a[i]] { assert m[..|m0|][a[i]] == m0[a[i]]; }
  }

  /** The n bytes at `ptr`. */
  ghost predicate Reads(m: seq<Byte>, ptr: nat, n: nat, c: seq<Byte>) {
    Within(Range(ptr, n), |m|) && Load(m, Range(ptr, n)) == c
  }

  /** Memory has only grown; and if there were that many bytes at the addresses `a`, the first of them
      are at `ptr` now and the others at the addresses `b`.  Fewer are drained for nothing. */
  ghost predicate TookFront(m0: seq<Byte>, a: seq<nat>, m: seq<Byte>, b: seq<nat>, ptr: Option<nat>, bytes: nat) {
    && Grown(m0, m) && Within(a, |m0|) && Within(b, |m|) && (ptr.Some? <==> bytes <= |a|)
    && (ptr.Some? ==> Reads(m, ptr.value, bytes, Load(m0, a)[..bytes]) && Load(m, b) == Load(m0, a)[bytes..])
    && (ptr.None? ==> b == [])
  }

  ghost predicate TookBack(m0: seq<Byte>, a: seq<nat>, m: seq<Byte>, b: seq<nat>, ptr: Option<nat>, bytes: nat) {
    && Grown(m0, m) && Within(a, |m0|) && Within(b, |m|) && (ptr.Some? <==> bytes <= |a|)
    && (ptr.Some? ==>
      Reads(m, ptr.value, bytes, Load(m0, a)[|a| - bytes..]) && Load(m, b) == Load(m0, a)[..|a| - bytes])
    && (ptr.None? ==> b == [])
  }

  class Vector {
    const iovs: array<IoVec>
    var begin: nat
    var end: nat
    const mem: Memory

    predicate Valid()
      reads this
    {
      begin <= end <= iovs.Length
    }

    function Segs(): (r: seq<IoVec>)
      requires Valid()
      reads this, iovs
    {
      iovs[begin..end]
    }

    constructor (capacity: nat, preserve: nat, mem: Memory)
      requires preserve <= capacity
      ensures Valid() && Segs() == [] && end == preserve && iovs.Length == capacity && this.mem == mem && fresh(iovs)
    {
      iovs := new IoVec[capacity](i => IoVec(0, 0));
      begin, end := preserve, preserve;
      this.mem := mem;
    }

    /** A full vector refuses, and says that nothing was pushed. */
    method PushBack(v: IoVec) returns (n: nat)
      requires Valid()
      modifies this`end, iovs
      ensures Valid()
      ensures if old(end) < iovs.Length then n == v.len && Segs() == old(Segs()) + [v] && end == old(end) + 1
              else n == 0 && Segs() == old(Segs()) && end == old(end)
    {
      if end >= iovs.Length { return 0; }
      iovs[end] := v;
      end := end + 1;
      return v.len;
    }

    method PushFront(v: IoVec) returns (n: nat)
      requires Valid()
      modifies this`begin, iovs
      ensures Valid()
      ensures if old(begin) > 0 then n == v.len && Segs() == [v] + old(Segs()) else n == 0 && Segs() == old(Segs())
    {
      if begin == 0 { return 0; }
      begin := begin - 1;
      iovs[begin] := v;
      return v.len;
    }

    method PopFront() returns (n: nat)
      requires Valid()
      modifies this`begin
      ensures Valid()
      ensures if old(Segs()) == [] then n == 0 && Segs() == []
              else n == old(Segs())[0].len && Segs() == old(Segs())[1..]
    {
      if begin == end { return 0; }
      begin := begin + 1;
      return iovs[begin - 1].len;
    }

    method PopBack() returns (n: nat)
      requires Valid()
      modifies this`end
      ensures Valid()
      ensures if old(Segs()) == [] then n == 0 && Segs() == []
              else n == Last(old(Segs())).len && Segs() == old(Segs())[..|old(Segs())| - 1]
    {
      if begin == end { return 0; }
      end := end - 1;
      return iovs[end].len;
    }

    method AsView() returns (v: View)
      requires Valid()
      ensures fresh(v) && v.Valid() && v.iov == iovs && v.pos == begin && v.cnt == end - begin && v.Segs() == Segs()
    {
      v := new View(iovs, begin, end - begin);
    }

    /** Fewer bytes than asked for leave everything as it was. */
    method ShrinkTo(size: nat) returns (got: nat)
      requires Valid()
      modifies this`end, iovs
      ensures Valid() && got == Min(size, Sum(old(Segs())))
      ensures got == size ==> Segs() == Shrunk(old(Segs()), size)
      ensures got < size ==> Segs() == old(Segs())
    {
      var va := AsView();
      ghost var was := Segs();
      got := va.ShrinkTo(size);
      if got == size { end := begin + va.cnt; } else { ShortShrink(was, size); }
      assert got == size ==> va.Segs() == Segs();
    }

    /** The bytes leave the vector and stand in one stretch of memory: where they were, if the front
        segment holds them all, or in a new buffer. */
    method ExtractFrontContinuous(bytes: nat) returns (ptr: Option<nat>)
      requires Valid() && Fits(mem.bytes, Segs())
      modifies this`begin, iovs, mem
      ensures Valid() && TookFront(old(mem.bytes), Addrs(old(Segs())), mem.bytes, Addrs(Segs()), ptr, bytes)
    {
      ghost var a := Addrs(Segs());
      ptr := FromFrontSegment(bytes);
      if ptr.Some? {
        Taken(mem.bytes, a, ptr.value, bytes, Addrs(Segs()));
        return;
      }
      ptr := CopyOut(bytes);
    }

    method FromFrontSegment(bytes: nat) returns (ptr: Option<nat>)
      requires Valid()
      modifies this`begin, iovs
      ensures Valid() && (ptr.None? ==> Segs() == old(Segs()))
      ensures ptr.Some? ==> Range(ptr.value, bytes) + Addrs(Segs()) == Addrs(old(Segs()))
    {
      var va := AsView();
      ptr := va.ExtractFrontContinuous(bytes);
      if ptr.Some? { begin := va.pos; }
      assert Segs() == va.Segs();
    }

    /** extract_front(bytes, malloc(bytes)). */
    method CopyOut(bytes: nat) returns (ptr: Option<nat>)
      requires Valid() && Fits(mem.bytes, Segs())
      modifies this`begin, iovs, mem
      ensures Valid() && TookFront(old(mem.bytes), Addrs(old(Segs())), mem.bytes, Addrs(Segs()), ptr, bytes)
    {
      ghost var a, m0 := Addrs(Segs()), mem.bytes;
      var buf := mem.Malloc(bytes);
      ghost var m1 := mem.bytes;
      GrownLoad(m0, m1, a);
      var got := DrainFront(bytes, buf);
      CopiedOut(m0, m1, mem.bytes, a, buf, bytes, got, Addrs(Segs()));
      ptr := if got == bytes then Some(buf) else None;
    }

    method DrainFront(bytes: nat, buf: nat) returns (got: nat)
      requires Valid() && Fits(mem.bytes, Segs()) && buf + bytes <= |mem.bytes| &&
        Apart(Addrs(Segs()), buf, buf + bytes)
      modifies this`begin, iovs, mem
      ensures Valid() && got == Min(bytes, Sum(old(Segs())))
      ensures Addrs(Segs()) == Addrs(old(Segs()))[got..]
      ensures mem.bytes == Patch(old(mem.bytes), buf, Load(old(mem.bytes), Addrs(old(Segs())))[..got])
    {
      var va := AsView();
      got := ExtractFrontTo(va, bytes, mem, buf);
      begin := end - va.cnt;
      assert Segs() == va.Segs();
    }

    /** The same at the other end. */
    method ExtractBackContinuous(bytes: nat) returns (ptr: Option<nat>)
      requires Valid() && Fits(mem.bytes, Segs())
      modifies this`end, iovs, mem
      ensures Valid() && TookBack(old(mem.bytes), Addrs(old(Segs())), mem.bytes, Addrs(Segs()), ptr, bytes)
    {
      ghost var a := Addrs(Segs());
      ptr := FromBackSegment(bytes);
      if ptr.Some? {
        TakenBack(mem.bytes, a, ptr.value, bytes, Addrs(Segs()));
        return;
      }
      ptr := CopyOutBack(bytes);
    }

    method FromBackSegment(bytes: nat) returns (ptr: Option<nat>)
      requires Valid()
      modifies this`end, iovs
      ensures Valid() && (ptr.None? ==> Segs() == old(Segs()))
      ensures ptr.Some? ==> Addrs(Segs()) + Range(ptr.value, bytes) == Addrs(old(Segs()))
    {
      var va := AsView();
      ptr := va.ExtractBackContinuous(bytes);
      if ptr.Some? { end := begin + va.cnt; }
      assert Segs() == va.Segs();
    }

    method CopyOutBack(bytes: nat) returns (ptr: Option<nat>)
      requires Valid() && Fits(mem.bytes, Segs())
      modifies this`end, iovs, mem
      ensures Valid() && TookBack(old(mem.bytes), Addrs(old(Segs())), mem.bytes, Addrs(Segs()), ptr, bytes)
    {
      ghost var a, m0 := Addrs(Segs()), mem.bytes;
      var buf := mem.Malloc(bytes);
      ghost var m1 := mem.bytes;
      GrownLoad(m0, m1, a);
      var got := DrainBack(bytes, buf);
      CopiedOutBack(m0, m1, mem.bytes, a, buf, bytes, got, Addrs(Segs()));
      ptr := if got == bytes then Some(buf) else None;
    }

    method DrainBack(bytes: nat, buf: nat) returns (got: nat)
      requires Valid() && Fits(mem.bytes, Segs()) && buf + bytes <= |mem.bytes| &&
        Apart(Addrs(Segs()), buf, buf + bytes)
      modifies this`end, iovs, mem
      ensures Valid() && got == Min(bytes, Sum(old(Segs())))
      ensures Addrs(Segs()) == Addrs(old(Segs()))[..|Addrs(old(Segs()))| - got]
      ensures mem.bytes == Patch(old(mem.bytes), buf + (bytes - got),
        Load(old(mem.bytes), Addrs(old(Segs())))[|Addrs(old(Segs()))| - got..])
    {
      var va := AsView();
      got := ExtractBackTo(va, bytes, mem, buf);
      end := begin + va.cnt;
      assert Segs() == va.Segs();
    }

    /** extract_front into a new array of as many slots as there are segments, which is always room
        enough. */
    method ExtractFrontSegs(bytes: nat) returns (got: int, out: seq<IoVec>)
      requires Valid() && Fits(mem.bytes, Segs())
      modifies this`begin, iovs
      ensures Valid() && Fits(mem.bytes, Segs()) && Fits(mem.bytes, out)
      ensures got == Min(bytes, Sum(old(Segs())))
      ensures Flat(mem.bytes, out) == Flat(mem.bytes, old(Segs()))[..got]
      ensures Flat(mem.bytes, Segs()) == Flat(mem.bytes, old(Segs()))[got..]
    {
      if bytes == 0 { return 0, []; }
      ghost var vs, left := Segs(), 0;
      got, out, left := IntoNewSlots(bytes);
      RoomEnough(vs, bytes);
      FrontBytes(mem.bytes, vs, bytes, Some(|vs|));
    }

    method IntoNewSlots(bytes: nat) returns (got: int, out: seq<IoVec>, ghost left: nat)
      requires Valid()
      modifies this`begin, iovs
      ensures Valid() && (got == -1 || got + left == bytes)
      ensures CutFront(old(Segs()), bytes, Some(|old(Segs())|)) == Cut(out, Segs(), left, got < 0)
    {
      var slots := new IoVec[end - begin](i => IoVec(0, 0));
      var v := new View(slots, 0, end - begin);
      var va := AsView();
      got, left := va.ExtractFrontInto(bytes, v);
      begin := end - va.cnt;
      out := v.Segs();
      assert Segs() == va.Segs();
    }
  }

  lemma RoomEnough(vs: seq<IoVec>, bytes: nat)
    ensures !CutFront(vs, bytes, Some(|vs|)).failed
  {
    CutFrontFailsIff(vs, bytes, |vs|);
    CutFrontEnds(vs, bytes, None);
  }

  lemma TakenBack(m: seq<Byte>, a: seq<nat>, ptr: nat, n: nat, rest: seq<nat>)
    requires Within(a, |m|) && rest + Range(ptr, n) == a
    ensures TookBack(m, a, m, rest, Some(ptr), n)
  {
    LoadConcat(m, rest, Range(ptr, n));
  }

  lemma CopiedOutBack(m0: seq<Byte>, m1: seq<Byte>, m: seq<Byte>, a: seq<nat>, buf: nat, bytes: nat, got: nat,
                      rest: seq<nat>)
    requires Grown(m0, m1) && buf == |m0| && |m1| == buf + bytes && Within(a, |m0|) && Within(a, |m1|) &&
      Load(m1, a) == Load(m0, a)
    requires got == Min(bytes, |a|) && m == Patch(m1, buf + (bytes - got), Load(m1, a)[|a| - got..]) &&
      rest == a[..|a| - got]
    ensures TookBack(m0, a, m, rest, if got == bytes then Some(buf) else None, bytes)
  {
    assert m[..|m0|] == m0;
    GrownLoad(m0, m, a);
  }

  lemma ShortShrink(vs: seq<IoVec>, size: nat)
    requires Sum(vs) < size
    ensures Shrunk(vs, size) == vs
    decreases |vs|
  {
    if vs == [] {
    } else {
      ShortShrink(vs[1..], size - vs[0].len);
    }
  }

  lemma Taken(m: seq<Byte>, a: seq<nat>, ptr: nat, n: nat, rest: seq<nat>)
    requires Within(a, |m|) && Range(ptr, n) + rest == a
    ensures TookFront(m, a, m, rest, Some(ptr), n)
  {
    LoadConcat(m, Range(ptr, n), rest);
  }

  lemma CopiedOut(m0: seq<Byte>, m1: seq<Byte>, m: seq<Byte>, a: seq<nat>, buf: nat, bytes: nat, got: nat,
                  rest: seq<nat>)
    requires Grown(m0, m1) && buf == |m0| && |m1| == buf + bytes && Within(a, |m0|) && Within(a, |m1|) &&
      Load(m1, a) == Load(m0, a)
    requires got == Min(bytes, |a|) && m == Patch(m1, buf, Load(m1, a)[..got]) && rest == a[got..]
    ensures TookFront(m0, a, m, rest, if got == bytes then Some(buf) else None, bytes)
  {
    assert m[..|m0|] == m0;
    GrownLoad(m0, m, a);
  }
}
