/**
 Messages in memory.  Each field of a message is a struct in its body: a pointer and a length, and for
 an array of segments their sum as well.  Serializing writes the sums; a receiver reads the sizes back.
 */
module Layout {
  import opened Common
  import opened Iov
  import opened IovView
  import opened IovCopy
  import opened Serialize

  // ----- words -----

  const WORD: nat := 8

  /** The low `k` bytes of a number, the lowest first. */
  function ToBytes(n: nat, k: nat): (r: seq<Byte>)
    ensures |r| == k
  {
    if k == 0 then [] else [n % 256] + ToBytes(n / 256, k - 1)
  }

  function FromBytes(b: seq<Byte>): nat { if b == [] then 0 else b[0] + 256 * FromBytes(b[1..]) }

  function Pow256(k: nat): nat { if k == 0 then 1 else 256 * Pow256(k - 1) }

  lemma {:induction false} WordReads(n: nat, k: nat)
    ensures FromBytes(ToBytes(n, k)) == n <==> n < Pow256(k)
    ensures FromBytes(ToBytes(n, k)) < Pow256(k)
  {
    if k == 0 {
    } else {
      WordReads(n / 256, k - 1);
      assert ToBytes(n, k)[1..] == ToBytes(n / 256, k - 1);
    }
  }

  lemma WordLimit()
    ensures Pow256(WORD) == MAX + 1
  {
    assert Pow256(1) == 256 && Pow256(2) == 0x1_0000 && Pow256(3) == 0x100_0000 && Pow256(4) == 0x1_0000_0000;
    assert Pow256(5) == 256 * Pow256(4) && Pow256(6) == 256 * Pow256(5);
    assert Pow256(7) == 256 * Pow256(6) && Pow256(8) == 256 * Pow256(7);
  }

  function WordAt(b: seq<Byte>, at: nat): nat { if at + WORD <= |b| then FromBytes(b[at..at + WORD]) else 0 }

  // ----- the fields in a body -----

  /** Where in the body a field is, and what its type says of it. */
  datatype Slot = Slot(isArray: bool, aligned: bool, at: nat)

  function Width(s: Slot): nat { if s.isArray then 3 * WORD else 2 * WORD }

  /** Where its sum is, in a body that stands at `base`. */
  function SumAt(s: Slot, base: nat): nat { base + s.at + 2 * WORD }

  predicate Separate(s: Slot, t: Slot) { s.at + Width(s) <= t.at || t.at + Width(t) <= s.at }

  /** The fields of one type of message, of `size` bytes. */
  predicate Slotted(slots: seq<Slot>, size: nat) {
    && (forall i :: 0 <= i < |slots| ==> slots[i].at + Width(slots[i]) <= size)
    && (forall i, j :: 0 <= i < j < |slots| ==> Separate(slots[i], slots[j]))
  }

  /** What a receiver finds in a body: the pointer of a buffer is the sender's, and so are the segments
      of an array, of which it goes by the sum. */
  function FieldAt(s: Slot, b: seq<Byte>): Field {
    if s.isArray then Array(s.aligned, [], WordAt(b, s.at + 2 * WORD))
    else Buffer(s.aligned, IoVec(WordAt(b, s.at), WordAt(b, s.at + WORD)))
  }

  function FieldsOf(slots: seq<Slot>): seq<Byte> -> seq<Field> {
    (b: seq<Byte>) => seq(|slots|, i requires 0 <= i < |slots| => FieldAt(slots[i], b))
  }

  ghost predicate LaidAt(m: seq<Byte>, body: IoVec, s: Slot, f: Field)
    requires body.base + body.len <= |m|
  {
    && s.isArray == f.Array? && s.aligned == f.aligned && Sum(SegsOf(f)) <= MAX
    && (f.Buffer? ==> f.v == FieldAt(s, m[body.base..body.base + body.len]).v)
  }

  /** A message stands at `body`; its fields are `fs`, and point at data that is not a sum of its own. */
  ghost predicate Stands(m: seq<Byte>, body: IoVec, slots: seq<Slot>, fs: seq<Field>) {
    && body.base + body.len <= |m| && |slots| == |fs| && Slotted(slots, body.len)
    && (forall i :: 0 <= i < |fs| ==> LaidAt(m, body, slots[i], fs[i]) && Fits(m, SegsOf(fs[i])))
    && (forall i, j :: 0 <= i < |fs| && 0 <= j < |fs| && slots[j].isArray ==>
          Apart(Addrs(SegsOf(fs[i])), SumAt(slots[j], body.base), SumAt(slots[j], body.base) + WORD))
  }

  // ----- the sums, written -----

  /** Memory when the sums of the first n fields are in the body. */
  function Stored(m: seq<Byte>, base: nat, slots: seq<Slot>, fs: seq<Field>, n: nat): (r: seq<Byte>)
    requires n <= |slots| == |fs| && forall i :: 0 <= i < |slots| ==> base + slots[i].at + Width(slots[i]) <= |m|
    ensures |r| == |m|
  {
    if n == 0 then m
    else
      var w := Stored(m, base, slots, fs, n - 1);
      if slots[n - 1].isArray then Patch(w, SumAt(slots[n - 1], base), ToBytes(Sum(SegsOf(fs[n - 1])), WORD)) else w
  }

  /** Nothing else changes. */
  lemma {:induction false} StoredOnly(m: seq<Byte>, base: nat, slots: seq<Slot>, fs: seq<Field>, n: nat, a: nat)
    requires n <= |slots| == |fs| && forall i :: 0 <= i < |slots| ==> base + slots[i].at + Width(slots[i]) <= |m|
    requires a < |m| && forall i :: 0 <= i < n && slots[i].isArray ==>
      a < SumAt(slots[i], base) || SumAt(slots[i], base) + WORD <= a
    ensures Stored(m, base, slots, fs, n)[a] == m[a]
  {
    if n == 0 {
    } else {
      StoredOnly(m, base, slots, fs, n - 1, a);
    }
  }

  /** And each sum is there. */
  lemma {:induction false} StoredSum(m: seq<Byte>, base: nat, size: nat, slots: seq<Slot>, fs: seq<Field>, n: nat,
                                     i: nat)
    requires n <= |slots| == |fs| && Slotted(slots, size) && base + size <= |m| && i < n && slots[i].isArray
    ensures
      var at := SumAt(slots[i], base);
      Stored(m, base, slots, fs, n)[at..at + WORD] == ToBytes(Sum(SegsOf(fs[i])), WORD)
  {
    var w, at := Stored(m, base, slots, fs, n - 1), SumAt(slots[i], base);
    if i < n - 1 {
      StoredSum(m, base, size, slots, fs, n - 1, i);
      assert Separate(slots[i], slots[n - 1]);
      assert Stored(m, base, slots, fs, n)[at..at + WORD] == w[at..at + WORD];
    }
  }

  lemma StoredLoad(m: seq<Byte>, body: IoVec, slots: seq<Slot>, fs: seq<Field>, i: nat)
    requires Stands(m, body, slots, fs) && i < |fs|
    ensures
      var w := Stored(m, body.base, slots, fs, |fs|);
      Fits(w, SegsOf(fs[i])) && Flat(w, SegsOf(fs[i])) == Flat(m, SegsOf(fs[i]))
  {
    var w, a := Stored(m, body.base, slots, fs, |fs|), Addrs(SegsOf(fs[i]));
    forall k | 0 <= k < |a| ensures w[a[k]] == m[a[k]] {
      assert forall j :: 0 <= j < |fs| && slots[j].isArray ==>
        Apart(a, SumAt(slots[j], body.base), SumAt(slots[j], body.base) + WORD);
      StoredOnly(m, body.base, slots, fs, |fs|, a[k]);
    }
  }

  /** What is in the place of no sum stays as it was. */
  lemma StoredElsewhere(m: seq<Byte>, body: IoVec, slots: seq<Slot>, fs: seq<Field>, i: nat, a: nat)
    requires Stands(m, body, slots, fs) && i < |fs| && fs[i].Buffer?
    requires body.base + slots[i].at <= a < body.base + slots[i].at + 2 * WORD
    ensures a < |m| && Stored(m, body.base, slots, fs, |fs|)[a] == m[a]
  {
    var lo := body.base;
    assert LaidAt(m, body, slots[i], fs[i]);
    forall j | 0 <= j < |fs| && slots[j].isArray ensures a < SumAt(slots[j], lo) || SumAt(slots[j], lo) + WORD <= a {
      if i < j {
        assert Separate(slots[i], slots[j]);
      } else if j < i {
        assert Separate(slots[j], slots[i]);
      }
    }
    StoredOnly(m, lo, slots, fs, |fs|, a);
  }

  lemma StoredWord(m: seq<Byte>, body: IoVec, slots: seq<Slot>, fs: seq<Field>, i: nat, at: nat)
    requires Stands(m, body, slots, fs) && i < |fs| && fs[i].Buffer?
    requires slots[i].at <= at && at + WORD <= slots[i].at + 2 * WORD
    ensures
      var w := Stored(m, body.base, slots, fs, |fs|);
      WordAt(w[body.base..body.base + body.len], at) == WordAt(m[body.base..body.base + body.len], at)
  {
    hide FromBytes, WordAt, LaidAt;
    var w, lo := Stored(m, body.base, slots, fs, |fs|), body.base;
    var from := lo + at;
    assert slots[i].at + Width(slots[i]) <= body.len && Width(slots[i]) >= 2 * WORD;
    forall a: nat | from <= a < from + WORD ensures w[a] == m[a] { StoredElsewhere(m, body, slots, fs, i, a); }
    WordKept(w, m, lo, body.len, at);
  }

  lemma WordKept(w: seq<Byte>, m: seq<Byte>, lo: nat, len: nat, at: nat)
    requires |w| == |m| && lo + len <= |m| && at + WORD <= len
    requires forall a: nat :: lo + at <= a < lo + at + WORD ==> w[a] == m[a]
    ensures WordAt(w[lo..lo + len], at) == WordAt(m[lo..lo + len], at)
  {
    hide FromBytes;
    SameSlice(w, m, lo + at);
    SliceOfSlice(w, lo, lo + len, at, WORD);
    SliceOfSlice(m, lo, lo + len, at, WORD);
  }

  lemma SameSlice(w: seq<Byte>, m: seq<Byte>, from: nat)
    requires |w| == |m| && from + WORD <= |w| && forall a: nat :: from <= a < from + WORD ==> w[a] == m[a]
    ensures w[from..from + WORD] == m[from..from + WORD]
  {
  }

  lemma StoredBuffer(m: seq<Byte>, body: IoVec, slots: seq<Slot>, fs: seq<Field>, i: nat)
    requires Stands(m, body, slots, fs) && i < |fs| && fs[i].Buffer?
    ensures
      var w := Stored(m, body.base, slots, fs, |fs|);
      FieldAt(slots[i], w[body.base..body.base + body.len]) == fs[i]
  {
    assert LaidAt(m, body, slots[i], fs[i]);
    StoredWord(m, body, slots, fs, i, slots[i].at);
    StoredWord(m, body, slots, fs, i, slots[i].at + WORD);
  }

  lemma StoredArray(m: seq<Byte>, body: IoVec, slots: seq<Slot>, fs: seq<Field>, i: nat)
    requires Stands(m, body, slots, fs) && i < |fs| && fs[i].Array?
    ensures
      var w := Stored(m, body.base, slots, fs, |fs|);
      FieldAt(slots[i], w[body.base..body.base + body.len]) == Array(fs[i].aligned, [], Sum(fs[i].vs))
  {
    hide Stored;
    var w, lo, at := Stored(m, body.base, slots, fs, |fs|), body.base, slots[i].at + 2 * WORD;
    assert LaidAt(m, body, slots[i], fs[i]);
    StoredSum(m, lo, body.len, slots, fs, |fs|, i);
    SliceOfSlice(w, lo, lo + body.len, at, WORD);
    SumReads(Sum(fs[i].vs));
  }

  lemma SumReads(n: nat)
    ensures FromBytes(ToBytes(n, WORD)) == n <==> n <= MAX
  {
    hide ToBytes, FromBytes, Pow256;
    WordLimit();
    WordReads(n, WORD);
  }

  // ----- the round trip -----

  /** The fields with their sums. */
  function Summed(f: Field): Field { if f.Array? then f.(summed := Sum(f.vs)) else f }

  function AllSummed(fs: seq<Field>): (r: seq<Field>)
    ensures |r| == |fs| && forall i :: 0 <= i < |fs| ==> r[i] == Summed(fs[i])
  {
    seq(|fs|, i requires 0 <= i < |fs| => Summed(fs[i]))
  }

  lemma {:induction false} SummedBufs(fs: seq<Field>, gs: seq<Field>, n: nat, flag: bool)
    requires n <= |fs| == |gs| && forall i :: 0 <= i < |fs| ==> gs[i] == fs[i] || gs[i] == Summed(fs[i])
    ensures Bufs(gs, n, flag) == Bufs(fs, n, flag)
  {
    if n == 0 {
    } else {
      SummedBufs(fs, gs, n - 1, flag);
    }
  }

  lemma FlatBody(m: seq<Byte>, body: IoVec)
    requires body.base + body.len <= |m|
    ensures Fits(m, [body]) && Flat(m, [body]) == m[body.base..body.base + body.len]
  {
    AddrsOne(body);
  }

  /** With the sums in it, the body has the sizes of the fields. */
  lemma StoredSizes(m: seq<Byte>, body: IoVec, slots: seq<Slot>, fs: seq<Field>)
    requires Stands(m, body, slots, fs)
    ensures
      var w := Stored(m, body.base, slots, fs, |fs|);
      Fits(w, [body]) && Alike(FieldsOf(slots)(Flat(w, [body])), AllSummed(fs))
  {
    var w, gs := Stored(m, body.base, slots, fs, |fs|), AllSummed(fs);
    FlatBody(w, body);
    var b := w[body.base..body.base + body.len];
    forall i | 0 <= i < |fs| ensures Same(FieldAt(slots[i], b), gs[i]) { StoredSize(m, body, slots, fs, i, b); }
    hide Stored, FieldAt;
    AllAlike(slots, b, gs);
  }

  ghost predicate Same(f: Field, g: Field) { f.aligned == g.aligned && Size(f) == Size(g) }

  lemma AllAlike(slots: seq<Slot>, b: seq<Byte>, gs: seq<Field>)
    requires |slots| == |gs| && forall i :: 0 <= i < |gs| ==> Same(FieldAt(slots[i], b), gs[i])
    ensures Alike(FieldsOf(slots)(b), gs)
  {
    hide FieldAt;
    var fs := FieldsOf(slots)(b);
    assert |fs| == |gs| && forall i :: 0 <= i < |gs| ==> fs[i] == FieldAt(slots[i], b);
  }

  lemma StoredSize(m: seq<Byte>, body: IoVec, slots: seq<Slot>, fs: seq<Field>, i: nat, b: seq<Byte>)
    requires Stands(m, body, slots, fs) && i < |fs|
    requires b == Stored(m, body.base, slots, fs, |fs|)[body.base..body.base + body.len]
    ensures Same(FieldAt(slots[i], b), Summed(fs[i]))
  {
    hide Stored, FieldAt;
    if fs[i].Buffer? { StoredBuffer(m, body, slots, fs, i); } else { StoredArray(m, body, slots, fs, i); }
  }

  /** What has been pushed is in memory. */
  lemma SentFits(m: seq<Byte>, body: IoVec, fs: seq<Field>, cap: nat)
    requires Fits(m, [body]) && forall i :: 0 <= i < |fs| ==> Fits(m, SegsOf(fs[i]))
    ensures var o := PushAll(Out([], false), AllBufs(fs, body), cap); !o.full ==> Fits(m, o.segs)
  {
    var cs := Contents(m, fs);
    AllReadOf(m, fs, cs, |fs|);
    BufsArePart(m, fs, cs, |fs|, true);
    BufsArePart(m, fs, cs, |fs|, false);
    var p, q := Bufs(fs, |fs|, true), Bufs(fs, |fs|, false);
    FlatConcat(m, p, q);
    FlatConcat(m, p + q, [body]);
    PushedUnlessFull(AllBufs(fs, body), cap);
  }

  /** The round trip: a message stands in memory, its sums are written into it, and what its vector holds
      arrives somewhere, in whatever segments.  Decoded there, every field has the contents it had; all it
      takes is that the vector was not overrun. */
  lemma RoundTrip(m: seq<Byte>, body: IoVec, slots: seq<Slot>, fs: seq<Field>, cap: nat, rm: seq<Byte>, rv: seq<IoVec>)
    requires Stands(m, body, slots, fs) && !PushAll(Out([], false), AllBufs(fs, body), cap).full
    requires
      var w, sent := Stored(m, body.base, slots, fs, |fs|), PushAll(Out([], false), AllBufs(fs, body), cap).segs;
      Fits(rm, rv) && Fits(w, sent) && Flat(rm, rv) == Flat(w, sent)
    ensures
      var r := Decode(FieldsOf(slots), body.len, Flat(rm, rv));
      r.Some? && forall i: nat :: (i in r.value <==> i < |fs|) && (i < |fs| ==> r.value[i] == Flat(m, SegsOf(fs[i])))
  {
    var w, gs := Stored(m, body.base, slots, fs, |fs|), AllSummed(fs);
    forall i | 0 <= i < |fs|
      ensures Fits(w, SegsOf(gs[i])) && Flat(w, SegsOf(gs[i])) == Flat(m, SegsOf(fs[i])) &&
        Size(gs[i]) == Sum(SegsOf(gs[i]))
    {
      StoredLoad(m, body, slots, fs, i);
    }
    StoredSizes(m, body, slots, fs);
    SummedBufs(fs, gs, |fs|, true);
    SummedBufs(fs, gs, |fs|, false);
    assert AllBufs(gs, body) == AllBufs(fs, body);
    hide Stored, FieldsOf, Stands, Decode, PushAll, AllBufs;
    ArrivesDecoded(FieldsOf(slots), gs, body, w, cap, rm, rv);
  }
}
