/**
 Messages laid over scatter/gather vectors.  Sending pushes the aligned fields, then the others,
 then the message body; receiving takes the body from the back and, going by the sizes in it, the
 aligned fields and then the others from the front.
 */
module Serialize {
  import opened Common
  import opened Iov
  import opened IovView
  import opened IoVector

  /** A variable-length field of a message: a buffer, or an array of segments and their sum. */
  datatype Field = Buffer(aligned: bool, v: IoVec) | Array(aligned: bool, vs: seq<IoVec>, summed: nat)

  function Size(f: Field): nat { if f.Buffer? then f.v.len else f.summed }

  function SegsOf(f: Field): seq<IoVec> { if f.Buffer? then [f.v] else f.vs }

  // ----- sending -----

  datatype Out = Out(segs: seq<IoVec>, full: bool)

  /** process_field of one buffer, when the vector has room for `cap` segments. */
  function Push(o: Out, v: IoVec, cap: nat): Out {
    if |o.segs| >= cap then o.(full := true) else if v.len > 0 then o.(segs := o.segs + [v]) else o
  }

  function PushAll(o: Out, vs: seq<IoVec>, cap: nat): Out
    decreases |vs|
  {
    if vs == [] then o else Push(PushAll(o, vs[..|vs| - 1], cap), vs[|vs| - 1], cap)
  }

  lemma {:induction false} PushAllConcat(o: Out, a: seq<IoVec>, b: seq<IoVec>, cap: nat)
    ensures PushAll(o, a + b, cap) == PushAll(PushAll(o, a, cap), b, cap)
    decreases |b|
  {
    if b == [] {
      assert a + b == a;
    } else {
      assert (a + b)[..|a + b| - 1] == a + b[..|b| - 1];
      PushAllConcat(o, a, b[..|b| - 1], cap);
    }
  }

  lemma PushNone(o: Out, cap: nat)
    ensures PushAll(o, [], cap) == o
  {
  }

  /** The buffers of the fields fs[..n] that belong to one pass. */
  function Bufs(fs: seq<Field>, n: nat, flag: bool): seq<IoVec>
    requires n <= |fs|
  {
    if n == 0 then [] else Bufs(fs, n - 1, flag) + if fs[n - 1].aligned == flag then SegsOf(fs[n - 1]) else []
  }

  function AllBufs(fs: seq<Field>, body: IoVec): seq<IoVec> {
    Bufs(fs, |fs|, true) + Bufs(fs, |fs|, false) + [body]
  }

  function NonEmpty(vs: seq<IoVec>): seq<IoVec> {
    if vs == [] then [] else NonEmpty(vs[..|vs| - 1]) + if vs[|vs| - 1].len > 0 then [vs[|vs| - 1]] else []
  }

  /** Unless the flag is up, all of it is in the vector, but for the empty buffers, in order. */
  lemma {:induction false} PushedUnlessFull(vs: seq<IoVec>, cap: nat)
    ensures var o := PushAll(Out([], false), vs, cap); !o.full ==> o.segs == NonEmpty(vs) && Addrs(o.segs) == Addrs(vs)
    ensures |PushAll(Out([], false), vs, cap).segs| == Min(cap, |NonEmpty(vs)|)
    decreases |vs|
  {
    if vs == [] {
    } else {
      var init, v := vs[..|vs| - 1], vs[|vs| - 1];
      PushedUnlessFull(init, cap);
      assert vs == init + [v];
      AddrsConcat(init, [v]);
      AddrsOne(v);
      AddrsConcat(PushAll(Out([], false), init, cap).segs, [v]);
    }
  }

  lemma {:induction false} NonEmptyGrows(vs: seq<IoVec>, i: nat)
    requires i <= |vs|
    ensures |NonEmpty(vs[..i])| <= |NonEmpty(vs)|
    decreases |vs|
  {
    if i < |vs| {
      assert vs[..|vs| - 1][..i] == vs[..i];
      NonEmptyGrows(vs[..|vs| - 1], i);
    } else {
      assert vs[..i] == vs;
    }
  }

  /** The flag is up exactly when some buffer, the empty ones too, came after the room was gone. */
  lemma {:induction false} FullIff(vs: seq<IoVec>, cap: nat)
    ensures PushAll(Out([], false), vs, cap).full <==> vs != [] && cap <= |NonEmpty(vs[..|vs| - 1])|
    decreases |vs|
  {
    if vs == [] {
    } else {
      var init := vs[..|vs| - 1];
      FullIff(init, cap);
      PushedUnlessFull(init, cap);
      if init != [] { NonEmptyGrows(init, |init| - 1); }
    }
  }

  // ----- receiving -----

  /** The contents found for some of the fields, by position, and what is left of the bytes. */
  datatype Found = Found(got: map<nat, seq<Byte>>, rest: seq<Byte>)

  function TakeField(d: Option<Found>, fs: seq<Field>, i: nat, flag: bool): Option<Found>
    requires i < |fs|
  {
    if d.None? || fs[i].aligned != flag then d
    else
      var k := Size(fs[i]);
      if k > |d.value.rest| then None
      else Some(Found(d.value.got[i := d.value.rest[..k]], d.value.rest[k..]))
  }

  function TakePass(d: Option<Found>, fs: seq<Field>, n: nat, flag: bool): Option<Found>
    requires n <= |fs|
  {
    if n == 0 then d else TakeField(TakePass(d, fs, n - 1, flag), fs, n - 1, flag)
  }

  function TakeFields(fs: seq<Field>, bytes: seq<Byte>): Option<Found> {
    TakePass(TakePass(Some(Found(map[], bytes)), fs, |fs|, true), fs, |fs|, false)
  }

  /** What a receiver makes of some bytes: no more than the bytes goes in, so their segmentation has
      no say. `layout` reads the fields, with their sizes, out of a message body of n bytes. */
  function Decode(layout: seq<Byte> -> seq<Field>, n: nat, bytes: seq<Byte>): Option<map<nat, seq<Byte>>> {
    if n > |bytes| then None
    else
      var at := |bytes| - n;
      match TakeFields(layout(bytes[at..]), bytes[..at])
      case None => None
      case Some(d) => Some(d.got)
  }

  /** A receiver goes by the kinds of the fields and their sizes; the pointers it finds are the sender's. */
  predicate Alike(fs: seq<Field>, gs: seq<Field>) {
    |fs| == |gs| && forall i :: 0 <= i < |fs| ==> fs[i].aligned == gs[i].aligned && Size(fs[i]) == Size(gs[i])
  }

  lemma {:induction false} TakesAlike(d: Option<Found>, fs: seq<Field>, gs: seq<Field>, n: nat, flag: bool)
    requires Alike(fs, gs) && n <= |fs|
    ensures TakePass(d, fs, n, flag) == TakePass(d, gs, n, flag)
  {
    if n == 0 {
    } else {
      TakesAlike(d, fs, gs, n - 1, flag);
    }
  }

  // ----- the round trip -----

  /** The contents cs[..n] of the fields of one pass, on end. */
  function Part(fs: seq<Field>, cs: seq<seq<Byte>>, n: nat, flag: bool): seq<Byte>
    requires n <= |fs| == |cs|
  {
    if n == 0 then [] else Part(fs, cs, n - 1, flag) + if fs[n - 1].aligned == flag then cs[n - 1] else []
  }

  function Filled(got: map<nat, seq<Byte>>, fs: seq<Field>, cs: seq<seq<Byte>>, n: nat, flag: bool): map<nat, seq<Byte>>
    requires n <= |fs| == |cs|
  {
    if n == 0 then got
    else
      var g := Filled(got, fs, cs, n - 1, flag);
      if fs[n - 1].aligned == flag then g[n - 1 := cs[n - 1]] else g
  }

  lemma {:induction false} PassTakesPart(got: map<nat, seq<Byte>>, fs: seq<Field>, cs: seq<seq<Byte>>, n: nat,
                                         flag: bool, tail: seq<Byte>)
    requires n <= |fs| == |cs| && forall i :: 0 <= i < |fs| ==> |cs[i]| == Size(fs[i])
    ensures TakePass(Some(Found(got, Part(fs, cs, n, flag) + tail)), fs, n, flag) ==
      Some(Found(Filled(got, fs, cs, n, flag), tail))
  {
    if n == 0 {
      assert Part(fs, cs, 0, flag) + tail == tail;
    } else {
      var c := if fs[n - 1].aligned == flag then cs[n - 1] else [];
      PassTakesPart(got, fs, cs, n - 1, flag, c + tail);
      assert Part(fs, cs, n - 1, flag) + (c + tail) == Part(fs, cs, n, flag) + tail;
      if fs[n - 1].aligned == flag {
        TakeExactly(Filled(got, fs, cs, n - 1, flag), fs, n - 1, c, tail);
      } else {
        assert [] + tail == tail;
      }
    }
  }

  lemma TakeExactly(got: map<nat, seq<Byte>>, fs: seq<Field>, i: nat, c: seq<Byte>, tail: seq<Byte>)
    requires i < |fs| && |c| == Size(fs[i])
    ensures TakeField(Some(Found(got, c + tail)), fs, i, fs[i].aligned) == Some(Found(got[i := c], tail))
  {
    assert (c + tail)[..|c|] == c && (c + tail)[|c|..] == tail;
  }

  lemma {:induction false} FilledAt(got: map<nat, seq<Byte>>, fs: seq<Field>, cs: seq<seq<Byte>>, n: nat, flag: bool,
                                    i: nat)
    requires n <= |fs| == |cs|
    ensures
      var g := Filled(got, fs, cs, n, flag);
      if i < n && fs[i].aligned == flag then i in g && g[i] == cs[i]
      else (i in g <==> i in got) && (i in got ==> g[i] == got[i])
  {
    if n == 0 {
    } else {
      FilledAt(got, fs, cs, n - 1, flag, i);
    }
  }

  /** Decoding what was encoded gives every field its contents back. */
  lemma DecodeEncoded(layout: seq<Byte> -> seq<Field>, fs: seq<Field>, cs: seq<seq<Byte>>, body: seq<Byte>)
    requires Alike(layout(body), fs) && |cs| == |fs| && forall i :: 0 <= i < |fs| ==> |cs[i]| == Size(fs[i])
    ensures
      var r := Decode(layout, |body|, Part(fs, cs, |fs|, true) + Part(fs, cs, |fs|, false) + body);
      r.Some? && forall i: nat :: (i in r.value <==> i < |fs|) && (i < |fs| ==> r.value[i] == cs[i])
  {
    var p, q := Part(fs, cs, |fs|, true), Part(fs, cs, |fs|, false);
    assert (p + q + body)[|p + q|..] == body && (p + q + body)[..|p + q|] == p + q;
    PassTakesPart(map[], fs, cs, |fs|, true, q);
    var g := Filled(map[], fs, cs, |fs|, true);
    assert q + [] == q;
    PassTakesPart(g, fs, cs, |fs|, false, []);
    var start := Some(Found(map[], p + q));
    TakesAlike(start, layout(body), fs, |fs|, true);
    TakesAlike(TakePass(start, fs, |fs|, true), layout(body), fs, |fs|, false);
    forall i: nat
      ensures
        var r := Filled(g, fs, cs, |fs|, false);
        (i in r <==> i < |fs|) && (i < |fs| ==> r[i] == cs[i])
    {
      FilledAt(map[], fs, cs, |fs|, true, i);
      FilledAt(g, fs, cs, |fs|, false, i);
    }
  }

  // ----- from fields in memory to their encoding -----

  function Contents(m: seq<Byte>, fs: seq<Field>): (r: seq<seq<Byte>>)
    requires forall i :: 0 <= i < |fs| ==> Within(Addrs(SegsOf(fs[i])), |m|)
    ensures |r| == |fs| && forall i :: 0 <= i < |fs| ==> r[i] == Flat(m, SegsOf(fs[i]))
  {
    seq(|fs|, i requires 0 <= i < |fs| => Flat(m, SegsOf(fs[i])))
  }

  ghost predicate Reads(m: seq<Byte>, vs: seq<IoVec>, c: seq<Byte>) { Fits(m, vs) && Flat(m, vs) == c }

  /** The contents of the first n fields. */
  ghost predicate AllRead(m: seq<Byte>, fs: seq<Field>, cs: seq<seq<Byte>>, n: nat)
    requires n <= |fs| == |cs|
  {
    n == 0 || (AllRead(m, fs, cs, n - 1) && Reads(m, SegsOf(fs[n - 1]), cs[n - 1]))
  }

  lemma {:induction false} AllReadOf(m: seq<Byte>, fs: seq<Field>, cs: seq<seq<Byte>>, n: nat)
    requires n <= |fs| == |cs| && forall i :: 0 <= i < |fs| ==> Reads(m, SegsOf(fs[i]), cs[i])
    ensures AllRead(m, fs, cs, n)
  {
    if n == 0 {
    } else {
      AllReadOf(m, fs, cs, n - 1);
    }
  }

  lemma {:induction false} BufsArePart(m: seq<Byte>, fs: seq<Field>, cs: seq<seq<Byte>>, n: nat, flag: bool)
    requires n <= |fs| == |cs| && AllRead(m, fs, cs, n)
    ensures Reads(m, Bufs(fs, n, flag), Part(fs, cs, n, flag))
  {
    if n == 0 {
    } else {
      BufsArePart(m, fs, cs, n - 1, flag);
      var b, p := Bufs(fs, n - 1, flag), Part(fs, cs, n - 1, flag);
      if fs[n - 1].aligned == flag {
        PartStep(m, Bufs(fs, n, flag), b, SegsOf(fs[n - 1]), Part(fs, cs, n, flag), p, cs[n - 1]);
      } else {
        assert b + [] == b && p + [] == p;
      }
    }
  }

  lemma PartStep(m: seq<Byte>, bn: seq<IoVec>, b: seq<IoVec>, c: seq<IoVec>, pn: seq<Byte>, p: seq<Byte>, q: seq<Byte>)
    requires bn == b + c && pn == p + q
    requires Within(Addrs(b), |m|) && Within(Addrs(c), |m|) && Flat(m, b) == p && Flat(m, c) == q
    ensures Reads(m, bn, pn)
  {
    FlatConcat(m, b, c);
  }

  lemma FlatConcat(m: seq<Byte>, b: seq<IoVec>, c: seq<IoVec>)
    requires Within(Addrs(b), |m|) && Within(Addrs(c), |m|)
    ensures Within(Addrs(b + c), |m|) && Flat(m, b + c) == Flat(m, b) + Flat(m, c)
  {
    AddrsConcat(b, c);
    LoadConcat2(m, Addrs(b), Addrs(c));
  }

  lemma LoadConcat2(m: seq<Byte>, a: seq<nat>, b: seq<nat>)
    requires Within(a, |m|) && Within(b, |m|)
    ensures Within(a + b, |m|) && Load(m, a + b) == Load(m, a) + Load(m, b)
  {
  }

  /** What the sender's vector holds, in whatever segments and wherever it arrives, is decoded to the
      contents of the sender's fields; all it takes is that the vector was not overrun, that the sums are
      right, and that the body has the sizes. */
  lemma ArrivesDecoded(layout: seq<Byte> -> seq<Field>, fs: seq<Field>, body: IoVec, sm: seq<Byte>, cap: nat,
                       rm: seq<Byte>, rv: seq<IoVec>)
    requires forall i :: 0 <= i < |fs| ==> Within(Addrs(SegsOf(fs[i])), |sm|) && Size(fs[i]) == Sum(SegsOf(fs[i]))
    requires Fits(sm, [body]) && Alike(layout(Flat(sm, [body])), fs)
    requires !PushAll(Out([], false), AllBufs(fs, body), cap).full
    requires
      var sent := PushAll(Out([], false), AllBufs(fs, body), cap).segs;
      Fits(sm, sent) && Fits(rm, rv) && Flat(rm, rv) == Flat(sm, sent)
    ensures
      var r := Decode(layout, body.len, Flat(rm, rv));
      r.Some? && forall i: nat :: (i in r.value <==> i < |fs|) && (i < |fs| ==> r.value[i] == Flat(sm, SegsOf(fs[i])))
  {
    var cs := Contents(sm, fs);
    var p, q := Bufs(fs, |fs|, true), Bufs(fs, |fs|, false);
    PushedUnlessFull(AllBufs(fs, body), cap);
    AllReadOf(sm, fs, cs, |fs|);
    BufsArePart(sm, fs, cs, |fs|, true);
    BufsArePart(sm, fs, cs, |fs|, false);
    AddrsConcat(p, q);
    AddrsConcat(p + q, [body]);
    LoadConcat2(sm, Addrs(p), Addrs(q));
    LoadConcat2(sm, Addrs(p + q), Addrs([body]));
    AddrsOne(body);
    DecodeEncoded(layout, fs, cs, Flat(sm, [body]));
  }
}
