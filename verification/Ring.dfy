/**
 The intrusive circular list: every operation rewrites a constant number of links in place.
 A ring is described by the sequence of its nodes, read from some node along `next`.
 */
module Ring {
  function After(i: nat, n: nat): nat { if i + 1 < n then i + 1 else 0 }

  function Before(i: nat, n: nat): nat
    requires n > 0
  {
    if i == 0 then n - 1 else i - 1
  }

  class Node {
    var prev: Node
    var next: Node

    constructor ()
      ensures IsRing([this])
    {
      prev, next := this, this;
      new;
      SelfRing(this);
    }

    predicate Single()
      reads this
    {
      prev == this || next == this
    }

    /** Unlinks this node; what is left starts at the node that followed it. */
    method RemoveFromList(ghost s: seq<Node>) returns (after: Node?)
      requires IsRing(s) && s[0] == this
      modifies s
      ensures IsRing([this])
      ensures |s| == 1 ==> after == null
      ensures |s| > 1 ==> after == s[1] && IsRing(s[1..])
    {
      SingleRing(s);
      if Single() {
        assert s == [this];
        return null;
      }
      next.prev := prev;
      prev.next := next;
      after := next;
      prev, next := this, this;
      DistinctPart(s, 1, |s|);
      assert s[1..|s|] == s[1..];
      forall i: nat ensures Linked(s[1..], i) {
        assert old(Linked(s, i + 1)) && Differ(s, i + 1, 0) && Differ(s, i + 1, 1) && Differ(s, i + 1, |s| - 1);
      }
      SelfRing(this);
    }

    /** Links `ptr` in front of this node, at the tail of the ring that starts here.  A node that
        is already in a longer ring is refused without a word. */
    method InsertTail(ptr: Node, ghost s: seq<Node>, ghost t: seq<Node>)
      requires IsRing(s) && s[0] == this && IsRing(t) && t[0] == ptr && ptr !in s
      modifies s, ptr
      ensures |t| == 1 ==> IsRing(s + [ptr])
      ensures |t| > 1 ==> unchanged(s) && unchanged(t)
    {
      SingleRing(s);
      ptr.InsertBetween(prev, this, s, t);
    }

    /** Links `ptr` behind this node. */
    method InsertAfter(ptr: Node, ghost s: seq<Node>, ghost t: seq<Node>)
      requires IsRing(s) && s[0] == this && IsRing(t) && t[0] == ptr && ptr !in s
      modifies s, ptr
      ensures |t| == 1 ==> IsRing([this, ptr] + s[1..])
      ensures |t| > 1 ==> unchanged(s) && unchanged(t)
    {
      ghost var r := s[1..] + s[..1];
      SingleRing(s);
      Rotate(s, 1);
      assert r[|r| - 1] == this && r[0] == next;
      assert s == s[..1] + s[1..];
      forall x ensures x in r <==> x in s { }
      ptr.InsertBetween(this, next, r, t);
      if |t| == 1 {
        Rotate(r + [ptr], |s| - 1);
        assert (r + [ptr])[|s| - 1..] + (r + [ptr])[..|s| - 1] == [this, ptr] + s[1..];
      }
    }

    /** insert_between: `before` and `after` are neighbours, the last and the first of `s`. */
    method InsertBetween(before: Node, after: Node, ghost s: seq<Node>, ghost t: seq<Node>)
      requires IsRing(s) && s[|s| - 1] == before && s[0] == after && IsRing(t) && t[0] == this && this !in s
      modifies s, this
      ensures |t| == 1 ==> IsRing(s + [this])
      ensures |t| > 1 ==> unchanged(s) && unchanged(t)
    {
      SingleRing(t);
      if !Single() { return; }
      assert t == [this];
      assert before in s && after in s;
      before.next := this;
      after.prev := this;
      prev := before;
      next := after;
      DistinctConcat(s, t);
      forall i: nat ensures Linked(s + t, i) {
        if i < |s| { assert s[i] in s && old(Linked(s, i)) && Differ(s, i, 0) && Differ(s, i, |s| - 1); }
      }
    }

    /** Splices the ring that starts at `ptr` in front of this node. */
    method InsertListTail(ptr: Node, ghost s: seq<Node>, ghost t: seq<Node>)
      requires IsRing(s) && s[0] == this && IsRing(t) && t[0] == ptr
      requires forall x :: x in s ==> x !in t
      modifies s, t
      ensures IsRing(s + t)
    {
      SingleRing(s);
      SpliceBetween(prev, ptr, this, s, t);
    }

    /** Splices the ring that starts at `ptr` behind this node. */
    method InsertListAfter(ptr: Node, ghost s: seq<Node>, ghost t: seq<Node>)
      requires IsRing(s) && s[0] == this && IsRing(t) && t[0] == ptr
      requires forall x :: x in s ==> x !in t
      modifies s, t
      ensures IsRing([this] + t + s[1..])
    {
      ghost var r := s[1..] + s[..1];
      SingleRing(s);
      Rotate(s, 1);
      assert r[|r| - 1] == this && r[0] == next;
      forall x | x in r ensures x in s && x !in t { }
      SpliceBetween(this, ptr, next, r, t);
      Rotate(r + t, |s| - 1);
      assert (r + t)[|s| - 1..] + (r + t)[..|s| - 1] == [this] + t + s[1..];
    }

    /** Cuts the ring that starts here into two: up to `ptr`, and from `ptr` on. */
    method Split(ptr: Node, ghost s: seq<Node>, ghost k: nat)
      requires IsRing(s) && s[0] == this && 0 < k < |s| && s[k] == ptr
      modifies s
      ensures IsRing(s[..k]) && IsRing(s[k..])
    {
      SingleRing(s);
      assert Linked(s, k);
      var frontTail := ptr.prev;
      var backTail := this.prev;
      this.prev := frontTail;
      frontTail.next := this;
      ptr.prev := backTail;
      backTail.next := ptr;
      DistinctPart(s, 0, k);
      DistinctPart(s, k, |s|);
      assert s[0..k] == s[..k] && s[k..|s|] == s[k..];
      assert Differ(s, 0, k) && Differ(s, k - 1, |s| - 1);
      forall i: nat ensures Linked(s[..k], i) {
        assert old(Linked(s, i)) && Differ(s, i, 0) && Differ(s, i, k - 1) && Differ(s, i, k) && Differ(s, i, |s| - 1);
      }
      forall i: nat ensures Linked(s[k..], i) {
        assert old(Linked(s, k + i));
        assert Differ(s, k + i, 0) && Differ(s, k + i, k - 1) && Differ(s, k + i, k) && Differ(s, k + i, |s| - 1);
      }
    }

    /** Splitting and splicing the halves back gives every link its old value. */
    method SplitAndSplice(ptr: Node, ghost s: seq<Node>, ghost k: nat)
      requires IsRing(s) && s[0] == this && 0 < k < |s| && s[k] == ptr
      modifies s
      ensures IsRing(s) && forall x :: x in s ==> x.prev == old(x.prev) && x.next == old(x.next)
    {
      Split(ptr, s, k);
      forall x | x in s[..k] ensures x !in s[k..] {
        var i :| 0 <= i < k && s[i] == x;
        forall j: nat | j < |s| - k ensures s[k..][j] != x { assert Differ(s, i, k + j); }
      }
      InsertListTail(ptr, s[..k], s[k..]);
      assert s[..k] + s[k..] == s;
      forall x | x in s ensures x.prev == old(x.prev) && x.next == old(x.next) {
        var i :| 0 <= i < |s| && s[i] == x;
        assert Linked(s, i) && old(Linked(s, i));
      }
    }
  }

  /** Positions `i` and `j` hold different nodes. */
  predicate Differ(s: seq<Node>, i: nat, j: nat) {
    i < |s| && j < |s| && i != j ==> s[i] != s[j]
  }

  ghost predicate Distinct(s: seq<Node>) {
    forall i, j :: Differ(s, i, j)
  }

  ghost predicate Linked(s: seq<Node>, i: nat)
    reads s
  {
    i < |s| ==> s[i].next == s[After(i, |s|)] && s[i].prev == s[Before(i, |s|)]
  }

  ghost predicate IsRing(s: seq<Node>)
    reads s
  {
    |s| > 0 && Distinct(s) && forall i :: Linked(s, i)
  }

  lemma DistinctPart(s: seq<Node>, lo: nat, hi: nat)
    requires Distinct(s) && lo <= hi <= |s|
    ensures Distinct(s[lo..hi])
  {
    forall i: nat, j: nat ensures Differ(s[lo..hi], i, j) { assert Differ(s, lo + i, lo + j); }
  }

  lemma DistinctConcat(s: seq<Node>, t: seq<Node>)
    requires Distinct(s) && Distinct(t) && forall x :: x in s ==> x !in t
    ensures Distinct(s + t)
  {
    forall i: nat, j: nat ensures Differ(s + t, i, j) {
      assert Differ(s, i, j);
      assert i >= |s| && j >= |s| ==> Differ(t, i - |s|, j - |s|);
      assert i < |s| ==> (s + t)[i] in s;
      assert j < |s| ==> (s + t)[j] in s;
      assert |s| <= i < |s + t| ==> (s + t)[i] in t;
      assert |s| <= j < |s + t| ==> (s + t)[j] in t;
    }
  }

  lemma SingleRing(s: seq<Node>)
    requires IsRing(s)
    ensures s[0].Single() <==> |s| == 1
    ensures s[0].next == s[After(0, |s|)] && s[0].prev == s[|s| - 1]
  {
    assert Linked(s, 0) && Differ(s, 0, 1) && Differ(s, 0, |s| - 1);
  }

  function Turn(i: nat, k: nat, n: nat): nat
    requires i < n && k <= n
  {
    if i + k < n then i + k else i + k - n
  }

  /** A ring may be read from any of its nodes. */
  lemma Rotate(s: seq<Node>, k: nat)
    requires IsRing(s) && k <= |s|
    ensures IsRing(s[k..] + s[..k])
  {
    var r := s[k..] + s[..k];
    forall i: nat, j: nat ensures Differ(r, i, j) {
      if i < |r| && j < |r| { assert Differ(s, Turn(i, k, |s|), Turn(j, k, |s|)); }
    }
    forall i: nat ensures Linked(r, i) {
      if i < |r| { assert Linked(s, Turn(i, k, |s|)); }
    }
  }

  lemma SelfRing(x: Node)
    requires x.next == x && x.prev == x
    ensures IsRing([x])
  {
    forall i: nat ensures Linked([x], i) { }
    forall i: nat, j: nat ensures Differ([x], i, j) { }
  }

  /** insert_list_between: `before` and `after` are neighbours, the last and the first of `s`. */
  method SpliceBetween(before: Node, a: Node, after: Node, ghost s: seq<Node>, ghost t: seq<Node>)
    requires IsRing(s) && s[|s| - 1] == before && s[0] == after && IsRing(t) && t[0] == a
    requires forall x :: x in s ==> x !in t
    modifies s, t
    ensures IsRing(s + t)
  {
    SingleRing(t);
    var b := a.prev;
    assert before in s && after in s && a in t && b in t;
    before.next := a;
    a.prev := before;
    after.prev := b;
    b.next := after;
    DistinctConcat(s, t);
    forall i: nat ensures Linked(s + t, i) {
      if i < |s| {
        assert s[i] in s && old(Linked(s, i)) && Differ(s, i, 0) && Differ(s, i, |s| - 1);
      } else if i < |s + t| {
        var j := i - |s|;
        assert t[j] in t && old(Linked(t, j)) && Differ(t, j, 0) && Differ(t, j, |t| - 1);
      }
    }
  }

  /** The list head: a pointer to the first node of a ring, or null. */
  class List {
    var node: Node?
    ghost var contents: seq<Node>

    ghost predicate Valid()
      reads this, contents
    {
      if node == null then contents == [] else IsRing(contents) && contents[0] == node
    }

    constructor (node: Node?, ghost s: seq<Node>)
      requires if node == null then s == [] else IsRing(s) && s[0] == node
      ensures Valid() && contents == s && this.node == node
    {
      this.node := node;
      contents := s;
    }

    method PushBack(ptr: Node)
      requires Valid() && IsRing([ptr]) && ptr !in contents
      modifies this, contents, ptr
      ensures Valid() && contents == old(contents) + [ptr]
    {
      if node == null {
        node := ptr;
        assert contents + [ptr] == [ptr];
      } else {
        node.InsertTail(ptr, contents, [ptr]);
      }
      contents := contents + [ptr];
    }

    /** Appends another list, which must not be empty if this one is not. */
    method PushBackList(other: List)
      requires Valid() && other.Valid() && other != this
      requires node != null ==> other.node != null
      requires forall x :: x in contents ==> x !in other.contents
      modifies this, contents, other, other.contents
      ensures Valid() && contents == old(contents) + old(other.contents)
      ensures other.Valid() && other.contents == []
    {
      if node == null {
        node := other.node;
        assert contents + other.contents == other.contents;
      } else {
        node.InsertListTail(other.node, contents, other.contents);
      }
      contents := contents + other.contents;
      other.node := null;
      other.contents := [];
    }

    method PushFront(ptr: Node)
      requires Valid() && IsRing([ptr]) && ptr !in contents
      modifies this, contents, ptr
      ensures Valid() && contents == [ptr] + old(contents)
    {
      if node != null {
        node.InsertTail(ptr, contents, [ptr]);
        ghost var n := |contents|;
        Rotate(contents + [ptr], n);
        assert (contents + [ptr])[n..] + (contents + [ptr])[..n] == [ptr] + contents;
      } else {
        assert [ptr] + contents == [ptr];
      }
      node := ptr;
      contents := [ptr] + contents;
    }

    method PopFront() returns (r: Node?)
      requires Valid()
      modifies this, contents
      ensures Valid()
      ensures old(contents) == [] ==> r == null && contents == []
      ensures old(contents) != [] ==> r == old(contents)[0] && contents == old(contents)[1..] && IsRing([r])
    {
      if node == null { return null; }
      r := node;
      node := node.RemoveFromList(contents);
      contents := contents[1..];
    }

    method PopBack() returns (r: Node?)
      requires Valid()
      modifies this, contents
      ensures Valid()
      ensures old(contents) == [] ==> r == null && contents == []
      ensures old(contents) != [] ==>
        r == old(contents)[|old(contents)| - 1] && contents == old(contents)[..|old(contents)| - 1] && IsRing([r])
    {
      if node == null { return null; }
      SingleRing(contents);
      r := node.prev;
      ghost var last := |contents| - 1;
      assert Differ(contents, 0, last);
      if r == node {
        assert contents == [node];
        node := null;
      } else {
        var _ := Unlink(r, contents, last);
        assert contents[..last] + contents[last + 1..] == contents[..last];
      }
      contents := contents[..last];
    }

    /** Takes `ptr` out, wherever it stands; returns its successor in the ring.  A node that is not in
        this list leaves the ring it is in, `s`, if it is in one, and this list stays as it was. */
    method Erase(ptr: Node, ghost k: nat, ghost s: seq<Node>) returns (after: Node?)
      requires Valid() && k <= |contents|
      requires if k < |contents| then contents[k] == ptr
               else IsRing(s) && s[0] == ptr && forall x :: x in s ==> x !in contents
      modifies this, contents, s
      ensures Valid() && IsRing([ptr])
      ensures contents == if k < |old(contents)| then old(contents)[..k] + old(contents)[k + 1..] else old(contents)
      ensures k < |old(contents)| ==>
        after == if |old(contents)| == 1 then null else old(contents)[After(k, |old(contents)|)]
      ensures k == |old(contents)| ==> if |s| == 1 then after == null else after == s[1] && IsRing(s[1..])
    {
      if k < |contents| {
        assert Differ(contents, 0, k);
      } else {
        assert s[0] in s && (contents != [] ==> contents[0] in contents);
      }
      after := UnlinkAny(ptr, contents, k, s);
      if ptr == node { node := after; }
      contents := if k < |contents| then contents[..k] + contents[k + 1..] else contents;
    }

    /** Cuts off everything up to and including `ptr`; nothing when `ptr` is null or the list empty. */
    method SplitFrontInclusive(ptr: Node?, ghost k: nat) returns (front: List)
      requires Valid() && (ptr == null || contents == [] || (k < |contents| && contents[k] == ptr))
      modifies this, contents
      ensures fresh(front) && front.Valid() && Valid()
      ensures ptr == null || old(contents) == [] ==> front.contents == [] && contents == old(contents)
      ensures ptr != null && old(contents) != [] ==>
        front.contents == old(contents)[..k + 1] && contents == old(contents)[k + 1..]
    {
      var ret := node;
      if node == null || ptr == null {
        front := new List(null, []);
        return;
      }
      assert Linked(contents, k) && Differ(contents, 0, After(k, |contents|));
      if ptr.next == node {
        front := new List(ret, contents);
        node := null;
        contents := [];
      } else {
        var rest := ptr.next;
        node.Split(rest, contents, k + 1);
        node := rest;
        front := new List(ret, contents[..k + 1]);
        contents := contents[k + 1..];
      }
    }

    /** Cuts off everything before `ptr`; all of it when `ptr` is null. */
    method SplitFrontExclusive(ptr: Node?, ghost k: nat) returns (front: List)
      requires Valid() && k <= |contents|
      requires if ptr == null then k == |contents| else k < |contents| && contents[k] == ptr
      modifies this, contents
      ensures fresh(front) && front.Valid() && front.contents == old(contents)[..k]
      ensures Valid() && contents == old(contents)[k..]
    {
      var ret := node;
      if ptr == null {
        front := new List(ret, contents);
        node := null;
        contents := [];
        return;
      }
      assert Differ(contents, 0, k);
      if node == null || ptr == node {
        front := new List(null, []);
        return;
      }
      node.Split(ptr, contents, k);
      node := ptr;
      front := new List(ret, contents[..k]);
      contents := contents[k..];
    }

    /** Cuts off the longest prefix whose nodes all satisfy `pred`, and leaves the rest in order.  The
        predicate may read the nodes; it is asked before any link changes. */
    method SplitByPredicate(pred: Node ~> bool) returns (front: List)
      requires Valid() && forall x :: x in contents ==> pred.requires(x)
      modifies this, contents
      ensures fresh(front) && front.Valid() && Valid()
      ensures front.contents + contents == old(contents)
      ensures forall i :: 0 <= i < |front.contents| ==> old(pred(contents[i]))
      ensures forall i: nat :: i == |front.contents| < |old(contents)| ==> !old(pred(contents[i]))
    {
      if node == null {
        front := new List(null, []);
        return;
      }
      var x: Node? := node;
      ghost var k := 0;
      while x != null && pred(x)
        invariant k <= |contents| && (x == null <==> k == |contents|)
        invariant x != null ==> x == contents[k]
        invariant forall i :: 0 <= i < k ==> pred(contents[i])
        decreases |contents| - k
      {
        assert Linked(contents, k) && Differ(contents, 0, After(k, |contents|));
        x := if x.next == node then null else x.next;
        k := k + 1;
      }
      front := SplitFrontExclusive(x, k);
    }
  }

  /** remove_from_list on the k-th node of a ring. */
  method Unlink(ptr: Node, ghost s: seq<Node>, ghost k: nat) returns (after: Node?)
    requires IsRing(s) && k < |s| && s[k] == ptr
    modifies s
    ensures IsRing([ptr])
    ensures |s| > 1 ==> IsRing(s[..k] + s[k + 1..])
    ensures after == if |s| == 1 then null else s[After(k, |s|)]
  {
    after := UnlinkAny(ptr, s, k, []);
  }

  /** The same for a node that may be in another ring, which is then `t`. */
  method UnlinkAny(ptr: Node, ghost s: seq<Node>, ghost k: nat, ghost t: seq<Node>) returns (after: Node?)
    requires s != [] ==> IsRing(s)
    requires k <= |s|
    requires if k < |s| then s[k] == ptr else IsRing(t) && t[0] == ptr && forall x :: x in t ==> x !in s
    modifies s, t
    ensures IsRing([ptr])
    ensures if k < |s| then (|s| > 1 ==> IsRing(s[..k] + s[k + 1..])) else (s != [] ==> IsRing(s))
    ensures k < |s| ==> after == if |s| == 1 then null else s[After(k, |s|)]
    ensures k == |s| && |t| == 1 ==> after == null
    ensures k == |s| && |t| > 1 ==> after == t[1] && IsRing(t[1..])
  {
    ghost var r := if k < |s| then s[k..] + s[..k] else t;
    if k < |s| { Rotate(s, k); }
    assert forall x :: x in r ==> x in s || x in t;
    after := ptr.RemoveFromList(r);
    if k == |s| {
      forall i: nat ensures s != [] ==> Linked(s, i) {
        assert s != [] ==> old(Linked(s, i));
        assert i < |s| ==> s[i] in s;
      }
    } else if 1 < |s| {
      assert r[1..] == s[k + 1..] + s[..k];
      Rotate(r[1..], |s| - 1 - k);
      assert r[1..][|s| - 1 - k..] + r[1..][..|s| - 1 - k] == s[..k] + s[k + 1..];
    }
  }
}
