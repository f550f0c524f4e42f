/** Extraction into a buffer: do_extract_front and do_extract_back with a callback that copies. */
module IovCopy {
  import opened Common
  import opened Iov
  import opened IovView

  /** None of these addresses is in the buffer [lo, hi). */
  ghost predicate Apart(a: seq<nat>, lo: nat, hi: nat) {
    forall i :: 0 <= i < |a| ==> a[i] < lo || hi <= a[i]
  }

  /** `m` is `m0` with the bytes of a[i..j] copied, in order, to `at`. */
  ghost predicate Copied(m0: seq<Byte>, m: seq<Byte>, a: seq<nat>, at: nat, i: nat, j: nat) {
    i <= j <= |a| && Within(a, |m0|) && at + (j - i) <= |m0| && m == Patch(m0, at, Load(m0, a)[i..j])
  }

  /** a[k..k + n] runs upwards from `base`. */
  ghost predicate Runs(a: seq<nat>, k: nat, base: nat, n: nat) {
    k + n <= |a| && forall y :: k <= y < k + n ==> a[y] == base + (y - k)
  }

  lemma Stretch(m0: seq<Byte>, m: seq<Byte>, a: seq<nat>, lo: nat, hi: nat, k: nat, base: nat, n: nat)
    requires Within(a, |m0|) && |m| == |m0| && Apart(a, lo, hi) && 0 < n && Runs(a, k, base, n)
    requires forall x :: 0 <= x < |m0| && (x < lo || hi <= x) ==> m[x] == m0[x]
    ensures base + n <= |m| && m[base..base + n] == Load(m0, a)[k..k + n]
  {
    assert a[k + n - 1] == base + (n - 1);
    var got, want := m[base..base + n], Load(m0, a)[k..k + n];
    forall x | 0 <= x < n ensures got[x] == want[x] { assert a[k + x] == base + x; }
  }

  lemma NoOverlap(a: seq<nat>, lo: nat, hi: nat, k: nat, base: nat, n: nat, d: nat)
    requires Apart(a, lo, hi) && Runs(a, k, base, n) && 0 < n && lo <= d && d + n <= hi
    ensures d + n <= base || base + n <= d
  {
    var y := if base <= d && d < base + n then k + (d - base) else k;
    assert a[y] == base + (y - k);
    assert a[y] < lo || hi <= a[y];
  }

  lemma ExtendRight(m0: seq<Byte>, m: seq<Byte>, a: seq<nat>, at: nat, i: nat, j: nat, n: nat)
    requires Copied(m0, m, a, at, i, j) && j + n <= |a| && at + (j - i) + n <= |m0|
    ensures Copied(m0, Patch(m, at + (j - i), Load(m0, a)[j..j + n]), a, at, i, j + n)
  {
    assert Load(m0, a)[i..j + n] == Load(m0, a)[i..j] + Load(m0, a)[j..j + n];
  }

  lemma ExtendLeft(m0: seq<Byte>, m: seq<Byte>, a: seq<nat>, at: nat, i: nat, j: nat, n: nat)
    requires Copied(m0, m, a, at, i, j) && n <= i && n <= at
    ensures Copied(m0, Patch(m, at - n, Load(m0, a)[i - n..i]), a, at - n, i - n, j)
  {
    assert Load(m0, a)[i - n..j] == Load(m0, a)[i - n..i] + Load(m0, a)[i..j];
  }

  // ----- from the front -----

  /** `left` of the bytes are still to come, from the addresses `b`; the others are in the buffer. */
  ghost predicate FrontCopying(a: seq<nat>, b: seq<nat>, bytes: nat, left: nat, m0: seq<Byte>, m: seq<Byte>, buf: nat) {
    && left <= bytes && bytes - left <= |a| && b == a[bytes - left..]
    && Copied(m0, m, a, buf, 0, bytes - left)
  }

  lemma FrontRuns(a: seq<nat>, done: nat, base: nat, n: nat, rest: seq<nat>)
    requires done <= |a| && a[done..] == Range(base, n) + rest
    ensures Runs(a, done, base, n) && rest == a[done + n..]
  {
    forall y | done <= y < done + n ensures a[y] == base + (y - done) {
      assert a[y] == a[done..][y - done] == (Range(base, n) + rest)[y - done];
    }
    assert a[done..][n..] == a[done + n..];
  }

  lemma FrontCopyingStep(a: seq<nat>, bytes: nat, left: nat, base: nat, n: nat, rest: seq<nat>, m0: seq<Byte>,
                         m: seq<Byte>, buf: nat)
    requires n <= left && FrontCopying(a, Range(base, n) + rest, bytes, left, m0, m, buf)
    requires Apart(a, buf, buf + bytes) && buf + bytes <= |m0|
    ensures
      var d := buf + (bytes - left);
      MayCopy(|m|, d, base, n) && FrontCopying(a, rest, bytes, left - n, m0, Moved(m, d, base, n), buf)
  {
    var done := bytes - left;
    FrontRuns(a, done, base, n, rest);
    if n > 0 {
      Stretch(m0, m, a, buf, buf + bytes, done, base, n);
      NoOverlap(a, buf, buf + bytes, done, base, n, buf + done);
      ExtendRight(m0, m, a, buf, 0, done, n);
    }
  }

  /** The callback and what follows it, for one segment. */
  method CopyFront(v: View, left: nat, mem: Memory, to: nat, ghost a: seq<nat>, ghost bytes: nat, ghost m0: seq<Byte>,
                   ghost buf: nat) returns (n: nat)
    requires v.Valid() && v.cnt > 0 && left > 0
    requires FrontCopying(a, Addrs(v.Segs()), bytes, left, m0, mem.bytes, buf)
    requires Apart(a, buf, buf + bytes) && buf + bytes <= |m0| && to == buf + (bytes - left)
    modifies v, v.iov, mem
    ensures v.Valid() && v.iov == old(v.iov) && v.pos + v.cnt == old(v.pos + v.cnt)
    ensures n <= left && (v.cnt < old(v.cnt) || (v.cnt == old(v.cnt) && n == left))
    ensures FrontCopying(a, Addrs(v.Segs()), bytes, left - n, m0, mem.bytes, buf)
  {
    ghost var vs := v.Segs();
    var base := v.iov[v.pos].base;
    n := Step(v.iov[v.pos], left);
    AdvancedAddrs(vs, n);
    FrontCopyingStep(a, bytes, left, base, n, Addrs(Advanced(vs, n)), m0, mem.bytes, buf);
    mem.Memcpy(to, base, n);
    v.DropFront(n);
  }

  /** What was extracted is in the buffer, in order, and nothing else in memory has changed. */
  method ExtractFrontTo(v: View, bytes: nat, mem: Memory, buf: nat) returns (got: nat)
    requires v.Valid() && Fits(mem.bytes, v.Segs())
    requires buf + bytes <= |mem.bytes| && Apart(Addrs(v.Segs()), buf, buf + bytes)
    modifies v, v.iov, mem
    ensures v.Valid() && v.iov == old(v.iov) && v.pos + v.cnt == old(v.pos + v.cnt)
    ensures got == Min(bytes, Sum(old(v.Segs()))) && Addrs(v.Segs()) == Addrs(old(v.Segs()))[got..]
    ensures mem.bytes == Patch(old(mem.bytes), buf, Flat(old(mem.bytes), old(v.Segs()))[..got])
  {
    var left: nat := bytes;
    ghost var a, m0 := Addrs(v.Segs()), mem.bytes;
    assert a[0..] == a && Patch(m0, buf, []) == m0;
    while left > 0 && v.cnt > 0
      invariant v.Valid() && v.iov == old(v.iov) && v.pos + v.cnt == old(v.pos + v.cnt)
      invariant FrontCopying(a, Addrs(v.Segs()), bytes, left, m0, mem.bytes, buf)
      decreases v.cnt, left
    {
      var n := CopyFront(v, left, mem, buf + (bytes - left), a, bytes, m0, buf);
      left := left - n;
    }
    return bytes - left;
  }

  // ----- from the back -----

  /** The addresses a[..k] are still to be taken; what came after them stands from `at` on. */
  ghost predicate BackCopying(a: seq<nat>, b: seq<nat>, k: nat, m0: seq<Byte>, m: seq<Byte>, at: nat) {
    k <= |a| && b == a[..k] && Copied(m0, m, a, at, k, |a|)
  }

  lemma BackRuns(a: seq<nat>, k: nat, base: nat, n: nat, rest: seq<nat>)
    requires k + n <= |a| && a[..k + n] == rest + Range(base, n)
    ensures Runs(a, k, base, n) && rest == a[..k]
  {
    assert |rest| == k;
    forall y | k <= y < k + n ensures a[y] == base + (y - k) {
      assert a[y] == a[..k + n][y] == (rest + Range(base, n))[y];
    }
    assert a[..k + n][..k] == a[..k];
  }

  /** From k + n to k, and the buffer from at + n to at. */
  lemma BackCopyingStep(a: seq<nat>, k: nat, base: nat, n: nat, rest: seq<nat>, m0: seq<Byte>, m: seq<Byte>, at: nat,
                        lo: nat, hi: nat)
    requires BackCopying(a, rest + Range(base, n), k + n, m0, m, at + n)
    requires Apart(a, lo, hi) && hi <= |m0| && lo <= at && at + |a| - k <= hi
    ensures MayCopy(|m|, at, base, n) && BackCopying(a, rest, k, m0, Moved(m, at, base, n), at)
  {
    hide Copied, Apart, Runs;
    BackRuns(a, k, base, n, rest);
    if n > 0 {
      BackStretch(m0, m, a, lo, hi, k, base, n, at);
      ExtendLeft(m0, m, a, at + n, k + n, |a|, n);
    }
  }

  lemma BackStretch(m0: seq<Byte>, m: seq<Byte>, a: seq<nat>, lo: nat, hi: nat, k: nat, base: nat, n: nat, at: nat)
    requires Apart(a, lo, hi) && hi <= |m0| && lo <= at && at + |a| - k <= hi && 0 < n && k + n <= |a|
    requires Runs(a, k, base, n) && Copied(m0, m, a, at + n, k + n, |a|)
    ensures MayCopy(|m|, at, base, n) && m[base..base + n] == Load(m0, a)[k..k + n]
  {
    Stretch(m0, m, a, lo, hi, k, base, n);
    NoOverlap(a, lo, hi, k, base, n, at);
  }

  method CopyDown(mem: Memory, at: nat, base: nat, n: nat, ghost a: seq<nat>, ghost rest: seq<nat>, ghost m0: seq<Byte>,
                  ghost lo: nat, ghost hi: nat)
    requires BackCopying(a, rest + Range(base, n), |rest| + n, m0, mem.bytes, at + n)
    requires Apart(a, lo, hi) && hi <= |m0| && lo <= at && at + |a| <= hi + |rest|
    modifies mem
    ensures BackCopying(a, rest, |rest|, m0, mem.bytes, at)
  {
    BackCopyingStep(a, |rest|, base, n, rest, m0, mem.bytes, at, lo, hi);
    mem.Memcpy(at, base, n);
  }

  method CopyBack(v: View, left: nat, mem: Memory, end: nat, ghost a: seq<nat>, ghost k: nat, ghost m0: seq<Byte>,
                  ghost lo: nat, ghost hi: nat) returns (n: nat)
    requires v.Valid() && v.cnt > 0 && left > 0
    requires BackCopying(a, Addrs(v.Segs()), k, m0, mem.bytes, end)
    requires Apart(a, lo, hi) && hi <= |m0| && end == lo + left && end + |a| == hi + k
    modifies v, v.iov, mem
    ensures v.Valid() && v.iov == old(v.iov) && v.pos == old(v.pos)
    ensures n <= left && n <= k && (v.cnt < old(v.cnt) || (v.cnt == old(v.cnt) && n == left))
    ensures BackCopying(a, Addrs(v.Segs()), k - n, m0, mem.bytes, end - n)
  {
    hide Apart, BackCopying, Addrs, Retreated;
    ghost var vs := v.Segs();
    var last := v.iov[v.pos + v.cnt - 1];
    n := Step(last, left);
    var base := last.base + (last.len - n);
    ghost var rest := Addrs(Retreated(vs, n));
    BackTaken(a, vs, k, m0, mem.bytes, end, last, n, base);
    CopyDown(mem, end - n, base, n, a, rest, m0, lo, hi);
    v.DropBack(n);
  }

  lemma BackTaken(a: seq<nat>, vs: seq<IoVec>, k: nat, m0: seq<Byte>, m: seq<Byte>, end: nat, last: IoVec, n: nat,
                  base: nat)
    requires BackCopying(a, Addrs(vs), k, m0, m, end)
    requires vs != [] && last == Last(vs) && n <= last.len && base == last.base + (last.len - n)
    ensures
      var rest := Addrs(Retreated(vs, n));
      |rest| + n == k && BackCopying(a, rest + Range(base, n), |rest| + n, m0, m, end)
  {
    hide Copied, Retreated;
    assert vs == vs[..|vs| - 1] + [last];
    RetreatedAddrs(vs[..|vs| - 1], last, n);
    assert |Addrs(vs)| == k;
  }

  method CopyFromBack(v: View, bytes: nat, mem: Memory, buf: nat, ghost a: seq<nat>, ghost m0: seq<Byte>)
    returns (left: nat, end: nat, ghost k: nat)
    requires v.Valid() && a == Addrs(v.Segs()) && m0 == mem.bytes && Within(a, |m0|)
    requires buf + bytes <= |m0| && Apart(a, buf, buf + bytes)
    modifies v, v.iov, mem
    ensures v.Valid() && v.iov == old(v.iov) && v.pos == old(v.pos)
    ensures left <= bytes && end == buf + left && left + |a| == bytes + k && (left == 0 || v.cnt == 0)
    ensures BackCopying(a, Addrs(v.Segs()), k, m0, mem.bytes, end)
  {
    hide BackCopying, Apart, Addrs;
    left, end, k := bytes, buf + bytes, |a|;
    BackCopyingStart(a, m0, end);
    while left > 0 && v.cnt > 0
      invariant v.Valid() && v.iov == old(v.iov) && v.pos == old(v.pos) && left <= bytes && end == buf + left
      invariant left + |a| == bytes + k && BackCopying(a, Addrs(v.Segs()), k, m0, mem.bytes, end)
      decreases v.cnt, left
    {
      var n := CopyBack(v, left, mem, end, a, k, m0, buf, buf + bytes);
      end, left, k := end - n, left - n, k - n;
    }
  }

  /** From the back the buffer fills downwards: short of bytes, it is its end that is written. */
  method ExtractBackTo(v: View, bytes: nat, mem: Memory, buf: nat) returns (got: nat)
    requires v.Valid() && Fits(mem.bytes, v.Segs())
    requires buf + bytes <= |mem.bytes| && Apart(Addrs(v.Segs()), buf, buf + bytes)
    modifies v, v.iov, mem
    ensures v.Valid() && v.iov == old(v.iov) && v.pos == old(v.pos)
    ensures got == Min(bytes, Sum(old(v.Segs()))) && Addrs(v.Segs()) == Addrs(old(v.Segs()))[..Sum(old(v.Segs())) - got]
    ensures mem.bytes == Patch(old(mem.bytes), buf + (bytes - got),
      Flat(old(mem.bytes), old(v.Segs()))[Sum(old(v.Segs())) - got..])
  {
    ghost var a, m0, k := Addrs(v.Segs()), mem.bytes, 0;
    var left, end;
    left, end, k := CopyFromBack(v, bytes, mem, buf, a, m0);
    BackCopyingEnd(a, k, Addrs(v.Segs()), m0, mem.bytes, end, buf, bytes, left);
    return bytes - left;
  }

  lemma BackCopyingStart(a: seq<nat>, m: seq<Byte>, end: nat)
    requires Within(a, |m|) && end <= |m|
    ensures BackCopying(a, a, |a|, m, m, end)
  {
    assert a[..|a|] == a && Load(m, a)[|a|..|a|] == [] && Patch(m, end, []) == m;
  }

  lemma BackCopyingEnd(a: seq<nat>, k: nat, b: seq<nat>, m0: seq<Byte>, m: seq<Byte>, end: nat, lo: nat, bytes: nat,
                       left: nat)
    requires BackCopying(a, b, k, m0, m, end) && end == lo + left && left <= bytes && left + |a| == bytes + k &&
      (left == 0 || b == [])
    ensures
      var got := Min(bytes, |a|);
      left == bytes - got && b == a[..|a| - got] && m == Patch(m0, lo + (bytes - got), Load(m0, a)[|a| - got..])
  {
    assert |b| == k;
    assert Load(m0, a)[k..] == Load(m0, a)[k..|a|];
  }
}
