/** The two archives: they walk the fields of a message in place. */
module Archive {
  import opened Common
  import opened Iov
  import opened IovView
  import opened IovCopy
  import opened IoVector
  import opened Serialize
  import opened Layout

  class Message {
    const fields: array<Field>

    constructor (fs: seq<Field>)
      ensures fields[..] == fs && fresh(fields)
    {
      fields := new Field[|fs|](i requires 0 <= i < |fs| => fs[i]);
    }
  }

  // ----- sending -----

  class SerializerIov {
    const iov: Vector
    var iovfull: bool

    /** What has been pushed so far, and the flag. */
    function Now(): Out
      requires iov.Valid()
      reads this, iov, iov.iovs
    {
      Out(iov.Segs(), iovfull)
    }

    /** The vector is as new: nothing in it, and room for `cap` segments behind. */
    ghost predicate Room(cap: nat)
      reads iov, iov.iovs
    {
      iov.Valid() && iov.begin + cap == iov.iovs.Length
    }

    constructor (iov: Vector)
      requires iov.Valid()
      ensures this.iov == iov && !iovfull
    {
      this.iov, iovfull := iov, false;
    }

    method ProcessBuffer(v: IoVec, ghost cap: nat)
      requires Room(cap)
      modifies this, iov`end, iov.iovs
      ensures Room(cap) && Now() == Push(old(Now()), v, cap)
    {
      if iov.iovs.Length - iov.end > 0 {
        if v.len > 0 {
          var n := iov.PushBack(v);
        }
      } else {
        iovfull := true;
      }
    }

    /** The segments one by one, and their sum into the field. */
    method ProcessArray(vs: seq<IoVec>, ghost cap: nat) returns (summed: nat)
      requires Room(cap)
      modifies this, iov`end, iov.iovs
      ensures Room(cap) && Now() == PushAll(old(Now()), vs, cap) && summed == Sum(vs)
    {
      summed := 0;
      var i := 0;
      while i < |vs|
        invariant i <= |vs| && Room(cap) && Now() == PushAll(old(Now()), vs[..i], cap)
        invariant summed + Sum(vs[i..]) == Sum(vs)
      {
        assert vs[..i + 1][..i] == vs[..i] && vs[i..][1..] == vs[i + 1..];
        summed := summed + vs[i].len;
        ProcessBuffer(vs[i], cap);
        i := i + 1;
      }
      assert vs[..i] == vs;
    }

    method ProcessField(f: Field, ghost cap: nat) returns (g: Field)
      requires Room(cap)
      modifies this, iov`end, iov.iovs
      ensures Room(cap) && Now() == PushAll(old(Now()), SegsOf(f), cap) && g == Summed(f)
    {
      g := f;
      match f
      case Buffer(_, v) =>
        assert [v][..0] == [];
        ProcessBuffer(v, cap);
      case Array(_, vs, _) =>
        var n := ProcessArray(vs, cap);
        g := f.(summed := n);
    }

    method PassField(x: Message, i: nat, flag: bool, ghost cap: nat)
      requires Room(cap) && i < x.fields.Length
      modifies this, iov`end, iov.iovs, x.fields
      ensures Room(cap)
      ensures Now() == PushAll(old(Now()), if old(x.fields[i]).aligned == flag then SegsOf(old(x.fields[i])) else [],
        cap)
      ensures x.fields[..] == old(x.fields[..])[i := MarkedIf(old(x.fields[i]), flag)]
    {
      if x.fields[i].aligned == flag {
        x.fields[i] := ProcessField(x.fields[i], cap);
      }
    }

    /** One pass over the fields, through the filter of aligned ones. */
    method Pass(x: Message, flag: bool, ghost cap: nat)
      requires Room(cap)
      modifies this, iov`end, iov.iovs, x.fields
      ensures Room(cap) && Now() == PushAll(old(Now()), Bufs(old(x.fields[..]), x.fields.Length, flag), cap)
      ensures x.fields[..] == Marked(old(x.fields[..]), x.fields.Length, flag)
    {
      hide PushAll, SegsOf, MarkedIf;
      ghost var fs := x.fields[..];
      PushNone(Now(), cap);
      var i: nat := 0;
      while i < x.fields.Length
        invariant i <= x.fields.Length && Room(cap) && Now() == PushAll(old(Now()), Bufs(fs, i, flag), cap)
        invariant x.fields[..] == Marked(fs, i, flag)
      {
        PushAllConcat(old(Now()), Bufs(fs, i, flag), if fs[i].aligned == flag then SegsOf(fs[i]) else [], cap);
        assert x.fields[i] == Marked(fs, i, flag)[i] == fs[i];
        PassField(x, i, flag, cap);
        i := i + 1;
      }
    }

    /** What ends up in the vector, and what the sums say, for any message. */
    method Serialize(x: Message, body: IoVec, ghost cap: nat)
      requires Room(cap) && Now() == Out([], false)
      modifies this, iov`end, iov.iovs, x.fields
      ensures Room(cap) && Now() == PushAll(Out([], false), AllBufs(old(x.fields[..]), body), cap)
      ensures forall i :: 0 <= i < x.fields.Length ==> x.fields[..][i] == Summed(old(x.fields[..])[i])
    {
      ghost var fs, o := x.fields[..], Now();
      Pass(x, true, cap);
      ghost var fs1 := x.fields[..];
      SummedBufs(fs, fs1, |fs|, false);
      Pass(x, false, cap);
      ghost var p, q := Bufs(fs, |fs|, true), Bufs(fs, |fs|, false);
      PushAllConcat(o, p, q, cap);
      PushAllConcat(o, p + q, [body], cap);
      assert [body][..0] == [];
      ProcessBuffer(body, cap);
    }
  }

  function MarkedIf(f: Field, flag: bool): Field { if f.aligned == flag then Summed(f) else f }

  /** The fields after a pass over the first n of them. */
  function Marked(fs: seq<Field>, n: nat, flag: bool): (r: seq<Field>)
    requires n <= |fs|
    ensures |r| == |fs| && forall i :: 0 <= i < |fs| ==> r[i] == if i < n then MarkedIf(fs[i], flag) else fs[i]
  {
    if n == 0 then fs else Marked(fs, n - 1, flag)[n - 1 := MarkedIf(fs[n - 1], flag)]
  }

  // ----- a message in memory, sent -----

  /** What a receiver of these bytes finds in the fields. */
  ghost predicate Decodes(layout: seq<Byte> -> seq<Field>, n: nat, bytes: seq<Byte>, cs: seq<seq<Byte>>) {
    var r := Decode(layout, n, bytes);
    r.Some? && forall i: nat :: (i in r.value <==> i < |cs|) && (i < |cs| ==> r.value[i] == cs[i])
  }

  /** The fields are part of the message's bytes: their sums are in memory. */
  method StoreSums(mem: Memory, x: Message, base: nat, slots: seq<Slot>, ghost fs: seq<Field>)
    requires |slots| == |fs| == x.fields.Length && x.fields[..] == AllSummed(fs)
    requires forall i :: 0 <= i < |slots| ==>
      base + slots[i].at + Width(slots[i]) <= |mem.bytes| && slots[i].isArray == fs[i].Array?
    modifies mem
    ensures mem.bytes == Stored(old(mem.bytes), base, slots, fs, |fs|)
  {
    var i := 0;
    while i < x.fields.Length
      invariant i <= |fs| && mem.bytes == Stored(old(mem.bytes), base, slots, fs, i)
    {
      assert x.fields[..][i] == Summed(fs[i]);
      if slots[i].isArray { mem.bytes := Patch(mem.bytes, SumAt(slots[i], base), ToBytes(x.fields[i].summed, WORD)); }
      i := i + 1;
    }
  }

  /** serialize() of a message in memory: its sums are written into it, nothing else in memory changes, and
      its fields have the contents they had.  Unless the flag is up, the bytes in the vector decode to
      those contents. */
  method Send(s: SerializerIov, x: Message, body: IoVec, slots: seq<Slot>, ghost cap: nat)
    requires s.Room(cap) && s.Now() == Out([], false) && Stands(s.iov.mem.bytes, body, slots, x.fields[..])
    modifies s, s.iov`end, s.iov.iovs, x.fields, s.iov.mem
    ensures s.Room(cap) && x.fields[..] == AllSummed(old(x.fields[..]))
    ensures s.iov.mem.bytes == Stored(old(s.iov.mem.bytes), body.base, slots, old(x.fields[..]), x.fields.Length)
    ensures forall i :: 0 <= i < x.fields.Length ==>
      Holds(s.iov.mem.bytes, x.fields[i], Contents(old(s.iov.mem.bytes), old(x.fields[..]))[i])
    ensures s.iovfull <==> cap <= |NonEmpty(DataBufs(old(x.fields[..])))|
    ensures !s.iovfull ==>
      && Fits(s.iov.mem.bytes, s.iov.Segs())
      && Decodes(FieldsOf(slots), body.len, Flat(s.iov.mem.bytes, s.iov.Segs()),
                 Contents(old(s.iov.mem.bytes), old(x.fields[..])))
  {
    ghost var m0, fs := s.iov.mem.bytes, x.fields[..];
    s.Serialize(x, body, cap);
    assert x.fields[..] == AllSummed(fs);
    forall i | 0 <= i < |fs| ensures slots[i].isArray == fs[i].Array? { assert LaidAt(m0, body, slots[i], fs[i]); }
    StoreSums(s.iov.mem, x, body.base, slots, fs);
    forall i | 0 <= i < |fs| ensures Holds(s.iov.mem.bytes, x.fields[i], Contents(m0, fs)[i]) {
      assert x.fields[..][i] == Summed(fs[i]);
      StoredLoad(m0, body, slots, fs, i);
    }
    FullWhen(fs, body, cap);
    if !s.iovfull { SentDecodes(m0, body, slots, fs, cap, s.Now()); }
  }

  /** What goes before the body. */
  function DataBufs(fs: seq<Field>): seq<IoVec> { Bufs(fs, |fs|, true) + Bufs(fs, |fs|, false) }

  lemma FullWhen(fs: seq<Field>, body: IoVec, cap: nat)
    ensures PushAll(Out([], false), AllBufs(fs, body), cap).full <==> cap <= |NonEmpty(DataBufs(fs))|
  {
    var vs := AllBufs(fs, body);
    FullIff(vs, cap);
    assert vs[..|vs| - 1] == DataBufs(fs);
  }

  lemma SentDecodes(m: seq<Byte>, body: IoVec, slots: seq<Slot>, fs: seq<Field>, cap: nat, o: Out)
    requires Stands(m, body, slots, fs) && o == PushAll(Out([], false), AllBufs(fs, body), cap) && !o.full
    ensures
      var w := Stored(m, body.base, slots, fs, |fs|);
      Fits(w, o.segs) && Decodes(FieldsOf(slots), body.len, Flat(w, o.segs), Contents(m, fs))
  {
    StoredFits(m, body, slots, fs, cap);
    RoundTripHere(m, body, slots, fs, cap, Stored(m, body.base, slots, fs, |fs|), o.segs);
  }

  lemma StoredFits(m: seq<Byte>, body: IoVec, slots: seq<Slot>, fs: seq<Field>, cap: nat)
    requires Stands(m, body, slots, fs)
    ensures
      var o := PushAll(Out([], false), AllBufs(fs, body), cap);
      !o.full ==> Fits(Stored(m, body.base, slots, fs, |fs|), o.segs)
  {
    var w := Stored(m, body.base, slots, fs, |fs|);
    FlatBody(w, body);
    forall i | 0 <= i < |fs| ensures Fits(w, SegsOf(fs[i])) { StoredLoad(m, body, slots, fs, i); }
    hide Stored, AllBufs;
    SentFits(w, body, fs, cap);
  }

  lemma RoundTripHere(m: seq<Byte>, body: IoVec, slots: seq<Slot>, fs: seq<Field>, cap: nat, w: seq<Byte>,
                      segs: seq<IoVec>)
    requires Stands(m, body, slots, fs) && w == Stored(m, body.base, slots, fs, |fs|) && Fits(w, segs)
    requires PushAll(Out([], false), AllBufs(fs, body), cap) == Out(segs, false)
    ensures Decodes(FieldsOf(slots), body.len, Flat(w, segs), Contents(m, fs))
  {
    hide Stored, FieldsOf, Decode, PushAll, AllBufs, Load, Addrs;
    RoundTrip(m, body, slots, fs, cap, w, segs);
  }

  // ----- receiving -----

  /** The field points at these bytes. */
  ghost predicate Holds(m: seq<Byte>, f: Field, c: seq<Byte>) {
    Fits(m, SegsOf(f)) && Flat(m, SegsOf(f)) == c
  }

  lemma HoldsStill(m0: seq<Byte>, m: seq<Byte>, f: Field, c: seq<Byte>)
    requires Holds(m0, f, c) && Grown(m0, m)
    ensures Holds(m, f, c)
  {
    GrownLoad(m0, m, Addrs(SegsOf(f)));
  }

  lemma GrownTwice(m0: seq<Byte>, m1: seq<Byte>, m2: seq<Byte>)
    requires Grown(m0, m1) && Grown(m1, m2)
    ensures Grown(m0, m2)
  {
    assert m2[..|m0|] == m2[..|m1|][..|m0|];
  }

  class DeserializerIov {
    const iov: Vector
    var failed: bool

    constructor (iov: Vector)
      ensures this.iov == iov && !failed
    {
      this.iov, failed := iov, false;
    }

    ghost predicate Ready()
      reads iov, iov.iovs, iov.mem
    {
      iov.Valid() && Fits(iov.mem.bytes, iov.Segs())
    }

    function Bytes(): seq<Byte>
      requires iov.Valid() && Within(Addrs(iov.Segs()), |iov.mem.bytes|)
      reads iov, iov.iovs, iov.mem
    {
      Flat(iov.mem.bytes, iov.Segs())
    }

    /** One field: its bytes come off the front, or the flag goes up. */
    method ProcessField(f: Field) returns (g: Field)
      requires Ready()
      modifies this, iov`begin, iov.iovs, iov.mem
      ensures Ready() && Grown(old(iov.mem.bytes), iov.mem.bytes)
      ensures g.aligned == f.aligned && (failed <==> old(failed) || Size(f) > |old(Bytes())|)
      ensures Size(f) <= |old(Bytes())| ==>
        Holds(iov.mem.bytes, g, old(Bytes())[..Size(f)]) && Bytes() == old(Bytes())[Size(f)..]
    {
      g := f;
      match f
      case Buffer(_, v) =>
        if v.len != 0 {
          var ptr := iov.ExtractFrontContinuous(v.len);
          if ptr.None? {
            failed := true;
          } else {
            g := f.(v := IoVec(ptr.value, v.len));
            AddrsOne(g.v);
          }
        } else {
          AddrsOne(v);
        }
      case Array(_, _, summed) =>
        ghost var was := Bytes();
        var got, vs := iov.ExtractFrontSegs(summed);
        if got == summed { g := f.(vs := vs); } else { failed := true; }
    }

    /** What a pass has to show for itself after i fields. */
    ghost predicate Done(fs: seq<Field>, now: seq<Field>, d: Option<Found>)
      requires Ready() && |fs| == |now|
      reads this, iov, iov.iovs, iov.mem
    {
      && (failed <==> d.None?)
      && (d.Some? ==> Bytes() == d.value.rest && forall j :: j in d.value.got ==>
        j < |now| && Holds(iov.mem.bytes, now[j], d.value.got[j]))
    }

    method PassField(x: Message, i: nat, flag: bool, ghost fs: seq<Field>, ghost d: Option<Found>)
      requires Ready() && |fs| == x.fields.Length && Done(fs, x.fields[..], d) && i < |fs|
      requires x.fields[i].aligned == fs[i].aligned && (fs[i].aligned == flag ==> x.fields[i] == fs[i])
      requires d.Some? && fs[i].aligned == flag ==> i !in d.value.got
      modifies this, iov`begin, iov.iovs, iov.mem, x.fields
      ensures Ready() && Grown(old(iov.mem.bytes), iov.mem.bytes)
      ensures Done(fs, x.fields[..], TakeField(d, fs, i, flag))
      ensures x.fields[..] == old(x.fields[..])[i := x.fields[i]] && x.fields[i].aligned == fs[i].aligned
      ensures fs[i].aligned != flag ==> x.fields[i] == old(x.fields[i])
    {
      if x.fields[i].aligned == flag {
        ghost var m0, now := iov.mem.bytes, x.fields[..];
        var g := ProcessField(x.fields[i]);
        x.fields[i] := g;
        if d.Some? {
          forall j | j in d.value.got ensures Holds(iov.mem.bytes, x.fields[j], d.value.got[j]) {
            HoldsStill(m0, iov.mem.bytes, now[j], d.value.got[j]);
          }
        }
      }
    }

    /** Fields still to be seen by a pass are as the body had them, and not found yet. */
    ghost predicate Pending(now: seq<Field>, fs: seq<Field>, d: Option<Found>, flag: bool, i: nat, j: nat) {
      j < |now| == |fs| ==>
        && now[j].aligned == fs[j].aligned
        && (i <= j && fs[j].aligned == flag ==> now[j] == fs[j] && (d.Some? ==> j !in d.value.got))
    }

    method Pass(x: Message, flag: bool, ghost fs: seq<Field>, ghost d0: Option<Found>)
      requires Ready() && |fs| == x.fields.Length && Done(fs, x.fields[..], d0)
      requires forall j :: Pending(x.fields[..], fs, d0, flag, 0, j)
      modifies this, iov`begin, iov.iovs, iov.mem, x.fields
      ensures Ready() && Grown(old(iov.mem.bytes), iov.mem.bytes)
      ensures Done(fs, x.fields[..], TakePass(d0, fs, |fs|, flag))
      ensures forall j :: 0 <= j < |fs| && fs[j].aligned != flag ==> x.fields[j] == old(x.fields[j])
      ensures forall j :: 0 <= j < |fs| ==> x.fields[j].aligned == fs[j].aligned
    {
      var i: nat := 0;
      ghost var d := d0;
      while i < x.fields.Length
        invariant i <= |fs| && Ready() && Grown(old(iov.mem.bytes), iov.mem.bytes)
        invariant d == TakePass(d0, fs, i, flag) && Done(fs, x.fields[..], d)
        invariant forall j :: Pending(x.fields[..], fs, d, flag, i, j)
        invariant forall j :: 0 <= j < |fs| && fs[j].aligned != flag ==> x.fields[j] == old(x.fields[j])
      {
        ghost var now, m0 := x.fields[..], iov.mem.bytes;
        assert Pending(now, fs, d, flag, i, i);
        PassField(x, i, flag, fs, d);
        GrownTwice(old(iov.mem.bytes), m0, iov.mem.bytes);
        ghost var was, after, k := d, x.fields[..], i;
        d := TakeField(d, fs, i, flag);
        i := i + 1;
        forall j: nat ensures Pending(after, fs, d, flag, i, j) {
          assert Pending(now, fs, was, flag, k, j);
        }
      }
      forall j | 0 <= j < |fs| ensures x.fields[j].aligned == fs[j].aligned {
        assert Pending(x.fields[..], fs, d, flag, i, j);
      }
    }

    method TakeBody(n: nat) returns (body: Option<seq<Byte>>)
      requires Ready()
      modifies iov`end, iov.iovs, iov.mem
      ensures Ready() && Grown(old(iov.mem.bytes), iov.mem.bytes)
      ensures body.Some? <==> n <= |old(Bytes())|
      ensures body.Some? ==>
        var at := |old(Bytes())| - n;
        body.value == old(Bytes())[at..] && Bytes() == old(Bytes())[..at]
    {
      var ptr := iov.ExtractBackContinuous(n);
      body := if ptr.None? then None else Some(Load(iov.mem.bytes, Range(ptr.value, n)));
    }

    /** The body from the back, then the two passes.  The outcome is what Decode makes of the bytes
        in the vector, whatever its segments; and every field points at its contents. */
    method Deserialize(n: nat, layout: seq<Byte> -> seq<Field>) returns (x: Message?)
      requires Ready() && !failed
      modifies this, iov`begin, iov`end, iov.iovs, iov.mem
      ensures Ready() && Grown(old(iov.mem.bytes), iov.mem.bytes)
      ensures failed <==> Decode(layout, n, old(Bytes())).None?
      ensures !failed ==>
        var got := Decode(layout, n, old(Bytes())).value;
        x != null && forall i :: i in got ==> i < x.fields.Length && Holds(iov.mem.bytes, x.fields[i], got[i])
      ensures !failed ==> x.fields.Length == |layout(old(Bytes())[|old(Bytes())| - n..])|
    {
      ghost var bytes, m0 := Bytes(), iov.mem.bytes;
      var body := TakeBody(n);
      if body.None? {
        failed := true;
        return null;
      }
      ghost var m1 := iov.mem.bytes;
      var fs := layout(body.value);
      x := new Message(fs);
      TwoPasses(x, fs);
      GrownTwice(m0, m1, iov.mem.bytes);
      DecodeIs(layout, n, bytes, fs);
    }

    method TwoPasses(x: Message, ghost fs: seq<Field>)
      requires Ready() && !failed && x.fields[..] == fs
      modifies this, iov`begin, iov.iovs, iov.mem, x.fields
      ensures Ready() && Grown(old(iov.mem.bytes), iov.mem.bytes)
      ensures Done(fs, x.fields[..], TakeFields(fs, old(Bytes())))
    {
      ghost var m0, d := iov.mem.bytes, Some(Found(map[], Bytes()));
      Pass(x, true, fs, d);
      ghost var m1, d1, now := iov.mem.bytes, TakePass(d, fs, |fs|, true), x.fields[..];
      forall j: nat ensures Pending(now, fs, d1, false, 0, j) {
        if j < |fs| && !fs[j].aligned { FoundOnly(d, fs, |fs|, true, j); }
      }
      Pass(x, false, fs, d1);
      GrownTwice(m0, m1, iov.mem.bytes);
    }
  }

  lemma DecodeIs(layout: seq<Byte> -> seq<Field>, n: nat, bytes: seq<Byte>, fs: seq<Field>)
    requires n <= |bytes| && fs == layout(bytes[|bytes| - n..])
    ensures
      var d := TakeFields(fs, bytes[..|bytes| - n]);
      Decode(layout, n, bytes) == match d case None => None case Some(f) => Some(f.got)
  {
  }

  /** A pass finds no field of the other pass. */
  lemma {:induction false} FoundOnly(d: Option<Found>, fs: seq<Field>, n: nat, flag: bool, j: nat)
    requires n <= |fs| && j < |fs| && fs[j].aligned != flag && (d.Some? ==> j !in d.value.got)
    ensures TakePass(d, fs, n, flag).Some? ==> j !in TakePass(d, fs, n, flag).value.got
  {
    if n == 0 {
    } else {
      FoundOnly(d, fs, n - 1, flag, j);
    }
  }

  // ----- from one side to the other -----

  /** The bytes as they come in: behind whatever is in the receiver's memory, and in any segments. */
  method Arrive(bytes: seq<Byte>, before: seq<Byte>, cuts: seq<nat>) returns (iov: Vector)
    ensures fresh(iov) && fresh(iov.iovs) && fresh(iov.mem) && iov.Valid()
    ensures Fits(iov.mem.bytes, iov.Segs()) && Flat(iov.mem.bytes, iov.Segs()) == bytes
  {
    hide Addrs, Load, Flat;
    var mem := new Memory(before + bytes);
    iov := new Vector(|cuts| + 1, 0, mem);
    NoAddrs(|before|);
    var i, at: nat := 0, 0;
    while i < |cuts|
      invariant i <= |cuts| && at <= |bytes| && Arrived(iov, |before|, at) && iov.end == i &&
        mem.bytes == before + bytes
    {
      var k := Min(cuts[i], |bytes| - at);
      ArrivePart(iov, |before|, at, k);
      i, at := i + 1, at + k;
    }
    ArrivePart(iov, |before|, at, |bytes| - at);
    AllArrived(before, bytes, iov.Segs());
  }

  /** The first `at` bytes are in the vector. */
  ghost predicate Arrived(iov: Vector, base: nat, at: nat)
    reads iov, iov.iovs
  {
    iov.Valid() && Addrs(iov.Segs()) == Range(base, at)
  }

  method ArrivePart(iov: Vector, base: nat, at: nat, k: nat)
    requires Arrived(iov, base, at) && iov.end < iov.iovs.Length
    modifies iov`end, iov.iovs
    ensures Arrived(iov, base, at + k) && iov.end == old(iov.end) + 1
  {
    PieceAddrs(iov.Segs(), base, at, k);
    var n := iov.PushBack(IoVec(base + at, k));
  }

  lemma NoAddrs(base: nat)
    ensures Addrs([]) == Range(base, 0)
  {
  }

  lemma AllArrived(before: seq<Byte>, bytes: seq<Byte>, vs: seq<IoVec>)
    requires Addrs(vs) == Range(|before|, |bytes|)
    ensures Fits(before + bytes, vs) && Flat(before + bytes, vs) == bytes
  {
  }

  lemma PieceAddrs(vs: seq<IoVec>, base: nat, at: nat, k: nat)
    requires Addrs(vs) == Range(base, at)
    ensures Addrs(vs + [IoVec(base + at, k)]) == Range(base, at + k)
  {
    AddrsConcat(vs, [IoVec(base + at, k)]);
    AddrsOne(IoVec(base + at, k));
  }

  /** End to end: a message is serialized, its vector's bytes come in somewhere else, cut up anyhow, and are
      deserialized.  Unless the sender's vector was overrun, the receiver has a message of the same type,
      every field of which points at the contents that the sender's field had. */
  method Exchange(s: SerializerIov, x: Message, body: IoVec, slots: seq<Slot>, before: seq<Byte>, cuts: seq<nat>,
                  ghost cap: nat) returns (y: Message?, mem: Memory)
    requires s.Room(cap) && s.Now() == Out([], false) && Stands(s.iov.mem.bytes, body, slots, x.fields[..])
    modifies s, s.iov`end, s.iov.iovs, x.fields, s.iov.mem
    ensures y == null <==> cap <= |NonEmpty(DataBufs(old(x.fields[..])))|
    ensures y != null ==>
      y.fields.Length == x.fields.Length &&
      forall i :: 0 <= i < x.fields.Length ==>
        Holds(mem.bytes, y.fields[i], Contents(old(s.iov.mem.bytes), old(x.fields[..]))[i])
  {
    ghost var cs := Contents(s.iov.mem.bytes, x.fields[..]);
    Send(s, x, body, slots, cap);
    mem := s.iov.mem;
    if s.iovfull { return null, mem; }
    var sent := Load(s.iov.mem.bytes, Addrs(s.iov.Segs()));
    var iov := Arrive(sent, before, cuts);
    var d := new DeserializerIov(iov);
    y := d.Deserialize(body.len, FieldsOf(slots));
    mem := iov.mem;
  }

  /** A message to send: one array of two segments, of two bytes and one. */
  lemma OneArrayStands(a: Byte, b: Byte, c: Byte)
    ensures
      var m := seq(24, i => 0) + [a, b, c];
      var fs := [Array(false, [IoVec(24, 2), IoVec(26, 1)], 0)];
      && Stands(m, IoVec(0, 24), [Slot(true, false, 0)], fs) && Contents(m, fs) == [[a, b, c]]
      && |NonEmpty(DataBufs(fs))| == 2
  {
    var m := seq(24, i => 0) + [a, b, c];
    var vs := [IoVec(24, 2), IoVec(26, 1)];
    TwoSegments();
    hide Addrs;
    assert Flat(m, vs) == [a, b, c];
    OneArrayBufs(vs);
    assert Contents(m, [Array(false, vs, 0)]) == [[a, b, c]];
  }

  lemma TwoSegments()
    ensures Addrs([IoVec(24, 2), IoVec(26, 1)]) == [24, 25, 26] && |NonEmpty([IoVec(24, 2), IoVec(26, 1)])| == 2
  {
    var v, w := IoVec(24, 2), IoVec(26, 1);
    AddrsConcat([v], [w]);
    AddrsOne(v);
    AddrsOne(w);
    assert [v, w] == [v] + [w] && [v, w][..1] == [v] && [v][..0] == [];
  }

  lemma OneArrayBufs(vs: seq<IoVec>)
    ensures DataBufs([Array(false, vs, 0)]) == vs
  {
    var fs := [Array(false, vs, 0)];
    assert Bufs(fs, 0, true) == [] && Bufs(fs, 0, false) == [] && Bufs(fs, 1, true) == [] && Bufs(fs, 1, false) == vs;
  }
}
