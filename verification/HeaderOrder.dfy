/** The order of header keys: by length, then without regard to case; and binary search in it. */
module HeaderOrder {
  function Lower(c: char): char { if 'A' <= c <= 'Z' then (c as int + 32) as char else c }

  /** strncasecmp over |a| characters: it stops at the first difference, and at a NUL. */
  function CaseCmp(a: string, b: string): int
    requires |a| == |b|
  {
    if a == [] then 0
    else
      var d := Lower(a[0]) as int - Lower(b[0]) as int;
      if d != 0 || a[0] == '\0' then d else CaseCmp(a[1..], b[1..])
  }

  /** HeaderAssistant::icmp. */
  function Icmp(a: string, b: string): int {
    if |a| != |b| then |a| - |b| else CaseCmp(a, b)
  }

  lemma {:induction false} CaseCmpFlips(a: string, b: string)
    requires |a| == |b|
    ensures CaseCmp(a, b) == -CaseCmp(b, a)
  {
    if a == [] {
    } else {
      CaseCmpFlips(a[1..], b[1..]);
    }
  }

  lemma {:induction false} CaseCmpTransitive(a: string, b: string, c: string)
    requires |a| == |b| == |c| && CaseCmp(a, b) <= 0 && CaseCmp(b, c) <= 0
    ensures CaseCmp(a, c) <= 0 && (CaseCmp(a, b) < 0 || CaseCmp(b, c) < 0 ==> CaseCmp(a, c) < 0)
  {
    if a == [] {
    } else {
      if Lower(a[0]) == Lower(b[0]) == Lower(c[0]) && a[0] != '\0' {
        CaseCmpTransitive(a[1..], b[1..], c[1..]);
      }
    }
  }

  /** A total preorder: what sorting and binary search need of it. */
  lemma IcmpFlips(a: string, b: string)
    ensures Icmp(a, b) == -Icmp(b, a)
  {
    if |a| == |b| { CaseCmpFlips(a, b); }
  }

  lemma IcmpTransitive(a: string, b: string, c: string)
    requires Icmp(a, b) <= 0 && Icmp(b, c) <= 0
    ensures Icmp(a, c) <= 0 && (Icmp(a, b) < 0 || Icmp(b, c) < 0 ==> Icmp(a, c) < 0)
  {
    if |a| == |b| == |c| { CaseCmpTransitive(a, b, c); }
  }

  /** Equality under the order: same length, and the same letters up to case and up to a NUL. */
  ghost predicate Same(a: string, b: string, n: nat) {
    n < |a| && n < |b| ==> Lower(a[n]) == Lower(b[n]) || exists i :: 0 <= i < n && a[i] == '\0'
  }

  lemma {:induction false} CaseCmpZero(a: string, b: string)
    requires |a| == |b|
    ensures CaseCmp(a, b) == 0 <==> forall n :: Same(a, b, n)
  {
    if a == [] {
    } else {
      CaseCmpZero(a[1..], b[1..]);
      if a[0] == '\0' {
        assert Same(a, b, 0) <==> Lower(a[0]) == Lower(b[0]);
        forall n: nat | Same(a, b, 0) ensures Same(a, b, n) { if n > 0 { assert a[0] == '\0'; } }
      } else {
        if forall n :: Same(a, b, n) {
          assert Same(a, b, 0);
          forall n: nat ensures Same(a[1..], b[1..], n) { SameTail(a, b, n); }
        }
        if Lower(a[0]) == Lower(b[0]) && forall n :: Same(a[1..], b[1..], n) {
          forall n: nat ensures Same(a, b, n) { if n > 0 { SameTail(a, b, n - 1); } }
        }
      }
    }
  }

  lemma SameTail(a: string, b: string, n: nat)
    requires |a| == |b| > 0 && a[0] != '\0'
    ensures Same(a, b, n + 1) <==> Same(a[1..], b[1..], n)
  {
    if n + 1 < |a| {
      if i :| 0 <= i < n + 1 && a[i] == '\0' { assert i > 0 && a[1..][i - 1] == '\0'; }
      if i :| 0 <= i < n && a[1..][i] == '\0' { assert a[i + 1] == '\0'; }
    }
  }

  lemma IcmpZeroIff(a: string, b: string)
    ensures Icmp(a, b) == 0 <==> |a| == |b| && forall n :: Same(a, b, n)
  {
    if |a| == |b| { CaseCmpZero(a, b); }
  }

  // ----- sorted sequences of keys -----

  ghost predicate InOrder(ks: seq<string>, i: nat, j: nat) { i < j < |ks| ==> Icmp(ks[i], ks[j]) <= 0 }

  ghost predicate Sorted(ks: seq<string>) { forall i, j :: InOrder(ks, i, j) }

  /** Every key before p is less than `key`, and no key from p on is. */
  ghost predicate Cuts(ks: seq<string>, key: string, p: nat) {
    && p <= |ks|
    && (forall i :: 0 <= i < p ==> Icmp(ks[i], key) < 0)
    && (forall i :: p <= i < |ks| ==> Icmp(ks[i], key) >= 0)
  }

  /** A linear scan for the first match. */
  function Scan(ks: seq<string>, key: string, from: nat): (r: nat)
    requires from <= |ks|
    ensures from <= r <= |ks|
    decreases |ks| - from
  {
    if from == |ks| || Icmp(ks[from], key) == 0 then from else Scan(ks, key, from + 1)
  }

  lemma {:induction false} ScanFinds(ks: seq<string>, key: string, from: nat, r: nat)
    requires from <= r <= |ks| && (forall i :: from <= i < r ==> Icmp(ks[i], key) != 0) &&
      (r < |ks| ==> Icmp(ks[r], key) == 0)
    ensures Scan(ks, key, from) == r
    decreases r - from
  {
    if from < r { ScanFinds(ks, key, from + 1, r); }
  }

  /** Where the order is kept, the cut is where a linear scan stops, or there is nothing to find. */
  lemma CutIsScan(ks: seq<string>, key: string, p: nat)
    requires Sorted(ks) && Cuts(ks, key, p)
    ensures Scan(ks, key, 0) == if p < |ks| && Icmp(ks[p], key) == 0 then p else |ks|
  {
    if p < |ks| && Icmp(ks[p], key) == 0 {
      ScanFinds(ks, key, 0, p);
    } else {
      forall i | 0 <= i < |ks| ensures Icmp(ks[i], key) != 0 {
        if p < i {
          assert InOrder(ks, p, i);
          IcmpFlips(ks[p], key);
          IcmpTransitive(key, ks[p], ks[i]);
          IcmpFlips(key, ks[i]);
        }
      }
      ScanFinds(ks, key, 0, |ks|);
    }
  }

  lemma LessBefore(ks: seq<string>, key: string, p: nat)
    requires Sorted(ks) && p < |ks| && Icmp(ks[p], key) < 0
    ensures forall i :: 0 <= i <= p ==> Icmp(ks[i], key) < 0
  {
    forall i | 0 <= i < p ensures Icmp(ks[i], key) < 0 {
      assert InOrder(ks, i, p);
      IcmpTransitive(ks[i], ks[p], key);
    }
  }

  lemma NotLessAfter(ks: seq<string>, key: string, p: nat)
    requires Sorted(ks) && p < |ks| && Icmp(ks[p], key) >= 0
    ensures forall i :: p <= i < |ks| ==> Icmp(ks[i], key) >= 0
  {
    IcmpFlips(ks[p], key);
    forall i | p < i < |ks| ensures Icmp(ks[i], key) >= 0 {
      assert InOrder(ks, p, i);
      IcmpTransitive(key, ks[p], ks[i]);
      IcmpFlips(key, ks[i]);
    }
  }

  /** A key put in at the cut leaves the order. */
  lemma CutKeepsSorted(ks: seq<string>, key: string, p: nat)
    requires Sorted(ks) && Cuts(ks, key, p)
    ensures Sorted(ks[..p] + [key] + ks[p..])
  {
    var r := ks[..p] + [key] + ks[p..];
    forall i: nat, j: nat ensures InOrder(r, i, j) {
      if i < j < |r| {
        assert InOrder(ks, i, j) && InOrder(ks, i, j - 1) && (i > 0 ==> InOrder(ks, i - 1, j - 1));
        if i == p { IcmpFlips(key, ks[j - 1]); }
      }
    }
  }
}
