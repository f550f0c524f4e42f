/** What several of the modules use. */
module Common {
  datatype Option<+T> = None | Some(value: T)

  function Min(a: nat, b: nat): nat { if a < b then a else b }

  /** The largest 64-bit number, and an addition that stops there. */
  const MAX: nat := 0xFFFF_FFFF_FFFF_FFFF

  function SatAdd(x: nat, y: nat): nat { if x + y > MAX then MAX else x + y }

  /** The errno with which waitq::resume ends a wait. */
  const ECANCELED := 125

  /** A queue of threads, or a list of items, with one of them erased. */
  function Without(q: seq<nat>, t: nat): (r: seq<nat>)
    ensures forall x :: x in r <==> x in q && x != t
    ensures |r| <= |q| && (t in q ==> |r| < |q|) && (t !in q ==> r == q)
  {
    if q == [] then [] else if q[0] == t then Without(q[1..], t) else [q[0]] + Without(q[1..], t)
  }

  /** Erasing one keeps the others in their order. */
  lemma WithoutIsSubsequence(q: seq<nat>, t: nat, m: nat, n: nat) returns (m': nat, n': nat)
    requires m < n < |Without(q, t)|
    ensures m' < n' < |q| && q[m'] == Without(q, t)[m] && q[n'] == Without(q, t)[n]
  {
    var w, rest := Without(q, t), Without(q[1..], t);
    assert w == if q[0] == t then rest else [q[0]] + rest;
    hide Without;
    if q[0] == t {
      m', n' := WithoutIsSubsequence(q[1..], t, m, n);
      m', n' := m' + 1, n' + 1;
    } else if m > 0 {
      m', n' := WithoutIsSubsequence(q[1..], t, m - 1, n - 1);
      m', n' := m' + 1, n' + 1;
    } else {
      m' := 0;
      assert rest[n - 1] in rest;
      var j :| 0 <= j < |q[1..]| && q[1..][j] == rest[n - 1];
      n' := j + 1;
    }
  }

  /** Pieces put together. */
  function Joined(cs: seq<string>): string { if cs == [] then "" else cs[0] + Joined(cs[1..]) }

  lemma {:induction false} JoinedAdd(cs: seq<string>, n: nat)
    requires n < |cs|
    ensures Joined(cs[..n + 1]) == Joined(cs[..n]) + cs[n]
  {
    assert cs[..n + 1][1..] == cs[1..][..n];
    if n == 0 {
      assert cs[0] + "" == "" + cs[0];
    } else {
      assert cs[..n][1..] == cs[1..][..n - 1];
      JoinedAdd(cs[1..], n - 1);
      Assoc(cs[0], Joined(cs[1..][..n - 1]), cs[n]);
    }
  }

  lemma {:induction false} JoinedPrefix(cs: seq<string>, n: nat)
    requires n <= |cs|
    ensures Joined(cs[..n]) <= Joined(cs)
    decreases |cs|
  {
    if n == 0 {
    } else {
      assert cs[..n][1..] == cs[1..][..n - 1];
      JoinedPrefix(cs[1..], n - 1);
    }
  }

  lemma SliceOfSlice<T>(s: seq<T>, lo: nat, hi: nat, a: nat, n: nat)
    requires lo <= hi <= |s| && a + n <= hi - lo
    ensures s[lo..hi][a..a + n] == s[lo + a..lo + a + n]
  {
    var x, y := s[lo..hi][a..a + n], s[lo + a..lo + a + n];
    assert forall i :: 0 <= i < n ==> x[i] == y[i];
  }

  lemma Assoc<T>(a: seq<T>, b: seq<T>, c: seq<T>)
    ensures (a + b) + c == a + (b + c)
  {
  }
}
