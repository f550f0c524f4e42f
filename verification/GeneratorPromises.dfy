/**
 The promises themselves.  Each holds one pointer that means the leaf in the root and the parent in
 every other; a resumption follows it once, however deep the nesting.
 */
module GeneratorPromises {
  import opened Common
  import opened Generator

  class Promise {
    var root: Promise
    var parentOrLeaf: Promise
    var exception: Option<int>
    var value: Option<int>      // in the root: the value being yielded, while it is constructed
    var code: Code              // the body, from where it is suspended
    var gen: Promise?           // in the awaiter: the nested generator this one waits for

    constructor (code: Code)
      ensures this.code == code && value == None && Linked([this]) && Codes([this]) == [code]
    {
      root, parentOrLeaf := this, this;
      exception, value, gen := None, None, null;
      this.code := code;
    }

    // ----- the hooks -----

    /** __yield_sequence_awaiter: the nested generator becomes the leaf. */
    method YieldSequence(nested: Promise, ghost chain: seq<Promise>)
      requires Linked(chain) && this == chain[|chain| - 1] && nested !in chain
      modifies chain, nested
      ensures Linked(chain + [nested]) && Codes(chain + [nested]) == old(Codes(chain)) + [old(nested.code)]
      ensures nested.exception == None
      ensures forall p :: p in chain ==> p.exception == old(p.exception) && p.value == old(p.value)
    {
      assert Link(chain, |chain| - 1);
      nested.root := root;
      nested.parentOrLeaf := this;
      nested.exception := None;
      gen := nested;
      root.parentOrLeaf := nested;
      ghost var s := chain + [nested];
      forall i: nat ensures Link(s, i) {
        assert old(Link(chain, i)) && Differ(chain, 0, i) && Differ(chain, i, |chain| - 1);
        if i < |chain| { assert chain[i] in chain; }
      }
      forall i: nat, j: nat ensures Differ(s, i, j) {
        assert Differ(chain, i, j);
        if i < |chain| { assert chain[i] in chain; }
      }
    }

    /** __final_awaiter: the parent becomes the leaf, and runs next; null at the root. */
    method FinalSuspend(ghost r: Promise, ghost chain: seq<Promise>) returns (next: Promise?)
      requires Linked(chain) && this == chain[|chain| - 1] && r == chain[0]
      modifies r`parentOrLeaf
      ensures |chain| == 1 ==> next == null && Linked(chain)
      ensures |chain| > 1 ==>
        next != null && next == chain[|chain| - 2] && next.gen == this && LinkedBut(chain[..|chain| - 1], next)
    {
      assert Link(chain, |chain| - 1) && Link(chain, 0) && Differ(chain, 0, |chain| - 1);
      if root != this {
        assert Link(chain, |chain| - 2);
        var parent := parentOrLeaf;
        root.parentOrLeaf := parent;
        ghost var s := chain[..|chain| - 1];
        assert s[|s| - 1] == parent;
        forall i: nat ensures Link(s, i) { assert old(Link(chain, i)) && Differ(chain, 0, i); }
        forall i: nat, j: nat ensures Differ(s, i, j) { assert Differ(chain, i, j); }
        return parent;
      }
      return null;
    }

    /** unhandled_exception: kept for the parent; false at the root, where it goes on to whoever
        called resume(). */
    method UnhandledException(e: int, ghost chain: seq<Promise>) returns (kept: bool)
      requires Linked(chain) && this == chain[|chain| - 1]
      modifies this`exception
      ensures Linked(chain) && Codes(chain) == old(Codes(chain))
      ensures kept <==> |chain| > 1
      ensures if kept then exception == Some(e) else exception == old(exception)
    {
      assert Link(chain, |chain| - 1) && Differ(chain, 0, |chain| - 1);
      if root != this {
        exception := Some(e);
        forall i: nat ensures Link(chain, i) { assert old(Link(chain, i)); }
        return true;
      }
      return false;
    }

    /** yield_value: into the root, from however deep. */
    method YieldValue(v: int, ghost r: Promise, ghost chain: seq<Promise>)
      requires Linked(chain) && this == chain[|chain| - 1] && r == chain[0] && r.value == None
      modifies r`value
      ensures r.value == Some(v)
    {
      assert Link(chain, |chain| - 1);
      root.value := Some(v);
    }
  }

  /** A promise of the chain points where it should. */
  ghost predicate Link(s: seq<Promise>, i: nat)
    reads s
  {
    i < |s| ==>
      && s[i].root == s[0]
      && s[i].parentOrLeaf == (if i == 0 then s[|s| - 1] else s[i - 1])
      && (i + 1 < |s| ==> s[i].gen == s[i + 1])
  }

  ghost predicate Differ(s: seq<Promise>, i: nat, j: nat) { i < j < |s| ==> s[i] != s[j] }

  /** From the root's leaf, parent by parent, to the root. */
  ghost predicate Linked(s: seq<Promise>)
    reads s
  {
    s != [] && (forall i :: Link(s, i)) && forall i, j :: Differ(s, i, j)
  }

  ghost predicate LinkedBut(s: seq<Promise>, leaf: Promise)
    reads s
  {
    Linked(s) && leaf == s[|s| - 1]
  }

  /** No nested generator of the chain holds an exception. */
  ghost predicate Clean(s: seq<Promise>)
    reads s
  {
    forall i :: 0 < i < |s| ==> s[i].exception == None
  }

  ghost function Codes(s: seq<Promise>): (r: Chain)
    reads s
    ensures |r| == |s| && forall i :: 0 <= i < |s| ==> r[i] == s[i].code
  {
    seq(|s|, i requires 0 <= i < |s| reads s => s[i].code)
  }

  datatype Heard = Suspended | AtEnd | Thrown(e: int)

  /** The leaf's own code has moved on. */
  method SetCode(leaf: Promise, c: Code, ghost s: seq<Promise>)
    requires Linked(s) && leaf == s[|s| - 1]
    modifies leaf`code
    ensures Linked(s) && (old(Clean(s)) ==> Clean(s)) && Codes(s) == WithLeaf(old(Codes(s)), c)
  {
    leaf.code := c;
    forall i: nat ensures Link(s, i) { assert old(Link(s, i)); }
    forall i: nat | i < |s| - 1 ensures s[i] != leaf { assert Differ(s, i, |s| - 1); }
  }

  /** co_yield elements_of(g): a new coroutine, which starts at once. */
  method Nest(leaf: Promise, g: Code, rest: Code, ghost s: seq<Promise>) returns (nested: Promise)
    requires Linked(s) && Clean(s) && leaf == s[|s| - 1]
    modifies s
    ensures fresh(nested) && s[0].value == old(s[0].value)
    ensures Linked(s + [nested]) && Clean(s + [nested]) && Codes(s + [nested]) == WithLeaf(old(Codes(s)), rest) + [g]
  {
    SetCode(leaf, rest, s);
    nested := new Promise(g);
    leaf.YieldSequence(nested, s);
  }

  /** The leaf is over, with an exception or without; its parent resumes and, in await_resume, throws
      the exception again. */
  method Return(leaf: Promise, thrown: Option<int>, ghost s: seq<Promise>) returns (parent: Promise)
    requires Linked(s) && leaf == s[|s| - 1] && |s| > 1 && leaf.exception == thrown && Clean(s[..|s| - 1])
    modifies s
    ensures parent == s[|s| - 2] && s[0].value == old(s[0].value)
    ensures Linked(s[..|s| - 1]) && Clean(s[..|s| - 1]) && Codes(s[..|s| - 1]) == Back(old(Codes(s)), thrown)
  {
    ghost var p := s[..|s| - 1];
    assert Codes(p) == Above(Codes(s));
    var next := leaf.FinalSuspend(s[0], s);
    parent := next;
    var e := parent.gen.exception;
    if e.Some? {
      SetCode(parent, [Throw(e.value)] + parent.code, p);
    }
  }

  /** What the promises show of a turn. */
  ghost predicate Says(t: Generator.Turn, heard: Option<Heard>, value: Option<int>, now: Chain) {
    match heard
    case None => t == Goes(now) && value == None
    case Some(Suspended) => value.Some? && t == Stops(Yielded(value.value, now))
    case Some(AtEnd) => t == Stops(Finished) && value == None
    case Some(Thrown(e)) => t == Stops(Raised(e)) && value == None
  }

  /** The chain before a turn; nothing is being yielded. */
  ghost predicate Before(s: seq<Promise>, leaf: Promise)
    reads s
  {
    Linked(s) && Clean(s) && leaf == s[|s| - 1] && s[0].value == None
  }

  ghost predicate After(s: seq<Promise>, now: seq<Promise>, next: Promise)
    reads now
  {
    Linked(now) && Clean(now) && s != [] && now[0] == s[0] && next == now[|now| - 1]
  }

  method Finish(leaf: Promise, ghost s: seq<Promise>)
    returns (heard: Option<Heard>, next: Promise, ghost now: seq<Promise>)
    requires Before(s, leaf) && leaf.code == []
    modifies s
    ensures After(s, now, next) && now <= s && Says(Turned(old(Codes(s))), heard, s[0].value, Codes(now))
  {
    assert Link(s, |s| - 1) && Link(s, 0) && Differ(s, 0, |s| - 1);
    if leaf.root == leaf {
      return Some(AtEnd), leaf, s;
    }
    heard, now := None, s[..|s| - 1];
    next := Return(leaf, None, s);
  }

  method Raise(leaf: Promise, e: int, ghost s: seq<Promise>)
    returns (heard: Option<Heard>, next: Promise, ghost now: seq<Promise>)
    requires Before(s, leaf) && leaf.code != [] && leaf.code[0] == Throw(e)
    modifies s
    ensures After(s, now, next) && now <= s && Says(Turned(old(Codes(s))), heard, s[0].value, Codes(now))
  {
    heard, next, now := None, leaf, s;
    var k := Unwind(leaf.code[1..]);
    if k.Some? {
      SetCode(leaf, k.value, s);
      return;
    }
    var kept := leaf.UnhandledException(e, s);
    if !kept { return Some(Thrown(e)), leaf, s; }
    now := s[..|s| - 1];
    forall i: nat | i < |now| ensures s[i] != leaf { assert Differ(s, i, |s| - 1); }
    next := Return(leaf, Some(e), s);
  }

  method Produce(leaf: Promise, v: int, ghost s: seq<Promise>) returns (heard: Option<Heard>)
    requires Before(s, leaf) && leaf.code != [] && leaf.code[0] == Yield(v)
    modifies s
    ensures After(s, s, leaf) && Says(Turned(old(Codes(s))), heard, s[0].value, Codes(s))
  {
    SetCode(leaf, leaf.code[1..], s);
    ghost var codes := Codes(s);
    leaf.YieldValue(v, s[0], s);
    forall i: nat ensures Link(s, i) { assert old(Link(s, i)); }
    assert Codes(s) == codes;
    return Some(Suspended);
  }

  method Local(leaf: Promise, c: Code, ghost s: seq<Promise>)
    requires Before(s, leaf) && Turned(Codes(s)) == Goes(WithLeaf(Codes(s), c))
    modifies s
    ensures After(s, s, leaf) && Says(Turned(old(Codes(s))), None, s[0].value, Codes(s))
  {
    SetCode(leaf, c, s);
  }

  /** One statement of the leaf; `now` is the chain it leaves. */
  method TakeTurn(leaf: Promise, ghost s: seq<Promise>)
    returns (heard: Option<Heard>, next: Promise, ghost now: seq<Promise>)
    requires Before(s, leaf)
    modifies s
    ensures After(s, now, next)
    ensures forall p :: p in now ==> p in s || fresh(p)
    ensures Says(Turned(old(Codes(s))), heard, s[0].value, Codes(now))
  {
    heard, next, now := None, leaf, s;
    var c := leaf.code;
    if c == [] {
      heard, next, now := Finish(leaf, s);
      return;
    }
    match c[0]
    case Yield(v) => heard := Produce(leaf, v, s);
    case Nested(g) =>
      next := Nest(leaf, g, c[1..], s);
      now := s + [next];
    case Throw(e) => heard, next, now := Raise(leaf, e, s);
    case Try(b, h) => Local(leaf, b + [EndTry(h)] + c[1..], s);
    case EndTry(_) => Local(leaf, c[1..], s);
  }

  ghost function Members(s: seq<Promise>): set<Promise> { set p | p in s }

  /** A coroutine runs until it suspends, or hands over to the next one. */
  method Run(leaf: Promise, ghost s: seq<Promise>) returns (heard: Heard, ghost now: seq<Promise>)
    requires Before(s, leaf)
    modifies Members(s)
    ensures Linked(now) && Clean(now) && now[0] == s[0] && fresh(Members(now) - Members(s))
    ensures Heeds(Resume(old(Codes(s))), heard, s[0].value, Codes(now))
    decreases Weight(Codes(s))
  {
    ghost var was := Codes(s);
    var h, next;
    h, next, now := TakeTurn(leaf, s);
    if h.Some? { return h.value, now; }
    TurnShrinks(was);
    heard, now := Run(next, now);
  }

  /** What the promises show of a resumption. */
  ghost predicate Heeds(out: Outcome, heard: Heard, value: Option<int>, now: Chain) {
    match heard
    case Suspended => value.Some? && out == Yielded(value.value, now)
    case AtEnd => out == Finished && value == None
    case Thrown(e) => out == Raised(e) && value == None
  }

  /** resume() on the root: straight to the leaf, and on from there, up to the next value or the end;
      with the root's value destructed before, it is constructed once, exactly if there is one. */
  method ResumeRoot(root: Promise, ghost s: seq<Promise>) returns (heard: Heard, ghost now: seq<Promise>)
    requires Linked(s) && Clean(s) && root == s[0] && root.value == None
    modifies Members(s)
    ensures Linked(now) && Clean(now) && now[0] == root && fresh(Members(now) - Members(s))
    ensures Heeds(Resume(old(Codes(s))), heard, root.value, Codes(now))
  {
    assert Link(s, 0);
    heard, now := Run(root.parentOrLeaf, s);
  }

  /** How far a consumer is: the values taken so far, and what there is to see next. */
  ghost predicate Sees(goal: Result, ys: seq<int>, heard: Heard, value: Option<int>, now: Chain) {
    match heard
    case Suspended => value.Some? && now != [] && goal == Prepend(ys + [value.value], Trace(now))
    case AtEnd => value == None && goal == Result(ys, Done)
    case Thrown(e) => value == None && goal == Result(ys, Threw(e))
  }

  lemma SeesMore(goal: Result, ys: seq<int>, was: Chain, heard: Heard, value: Option<int>, now: Chain)
    requires was != [] && goal == Prepend(ys, Trace(was)) && Heeds(Resume(was), heard, value, now)
    ensures Sees(goal, ys, heard, value, now)
    ensures heard == Suspended ==> Weight(now) < Weight(was)
  {
    if heard == Suspended {
      ResumeShrinks(was);
      PrependTwice(ys, [value.value], Trace(now));
    } else {
      assert ys + [] == ys;
    }
  }

  /** The consumer's ++, after it has read the value. */
  method Increment(root: Promise, ghost s: seq<Promise>) returns (heard: Heard, ghost now: seq<Promise>)
    requires Linked(s) && Clean(s) && root == s[0]
    modifies Members(s)
    ensures Linked(now) && Clean(now) && now[0] == root && fresh(Members(now) - Members(s))
    ensures Heeds(Resume(old(Codes(s))), heard, root.value, Codes(now))
  {
    ghost var was := Codes(s);
    root.value := None;
    forall i: nat ensures Link(s, i) { assert old(Link(s, i)); }
    assert Codes(s) == was;
    heard, now := ResumeRoot(root, s);
  }

  /** A consumer's loop over a generator, from begin() to the sentinel: it sees the flattening. */
  method Iterate(code: Code) returns (r: Result)
    ensures r == Flat(code)
  {
    var root := new Promise(code);
    TraceIsFlat(code);
    PrependTwice([], [], Flat(code));
    var ys := [];
    var heard;
    ghost var chain := [root];
    heard, chain := ResumeRoot(root, [root]);
    SeesMore(Flat(code), [], [code], heard, root.value, Codes(chain));
    while heard == Suspended
      invariant Linked(chain) && Clean(chain) && chain[0] == root && fresh(Members(chain))
      invariant Sees(Flat(code), ys, heard, root.value, Codes(chain))
      decreases if heard == Suspended then Weight(Codes(chain)) + 1 else 0
    {
      ghost var was := Codes(chain);
      ys := ys + [root.value.value];
      heard, chain := Increment(root, chain);
      SeesMore(Flat(code), ys, was, heard, root.value, Codes(chain));
    }
    r := Result(ys, if heard == AtEnd then Done else Threw(heard.e));
  }
}
