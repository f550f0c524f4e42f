/**
 Nested generators.  The meaning of a generator body is the sequence of values it yields and how it
 ends, by plain recursion.  The machine keeps the suspended bodies from the root to the leaf: only
 the leaf ever runs, a nested generator becomes the leaf, and its end gives the place back.
 */
module Generator {
  import opened Common

  /** `Nested` is co_yield elements_of(...).  `Try` is a try block with its catch-all handler, and
      `EndTry` the end of one that is being executed. */
  datatype Stmt =
    | Yield(v: int)
    | Nested(g: seq<Stmt>)
    | Throw(e: int)
    | Try(body: seq<Stmt>, handler: seq<Stmt>)
    | EndTry(h: seq<Stmt>)

  type Code = seq<Stmt>

  datatype End = Done | Threw(e: int)
  datatype Result = Result(ys: seq<int>, end: End)

  function Size(c: Code): (n: nat)
    decreases c
  {
    if c == [] then 0
    else
      Size(c[1..]) +
      match c[0]
      case Yield(_) => 1
      case Nested(g) => assert c[0] in c; 3 + Size(g)
      case Throw(_) => 1
      case Try(b, h) => assert c[0] in c; 2 + Size(b) + Size(h)
      case EndTry(h) => assert c[0] in c; 1 + Size(h)
  }

  lemma {:induction false} SizeConcat(a: Code, b: Code)
    ensures Size(a + b) == Size(a) + Size(b)
    decreases |a|
  {
    if a == [] {
      assert a + b == b;
    } else {
      assert (a + b)[1..] == a[1..] + b;
      SizeConcat(a[1..], b);
    }
  }

  /** Where an exception takes the code that follows the throw: into the nearest handler. */
  function Unwind(c: Code): Option<Code>
    decreases |c|
  {
    if c == [] then None
    else if c[0].EndTry? then Some(c[0].h + c[1..])
    else Unwind(c[1..])
  }

  lemma {:induction false} UnwindShrinks(c: Code)
    ensures Unwind(c).Some? ==> Size(Unwind(c).value) < Size(c)
    decreases |c|
  {
    if c == [] {
    } else {
      if c[0].EndTry? { SizeConcat(c[0].h, c[1..]); } else { UnwindShrinks(c[1..]); }
    }
  }

  lemma EnterTryShrinks(c: Code)
    requires c != [] && c[0].Try?
    ensures Size(c[0].body + [EndTry(c[0].handler)] + c[1..]) < Size(c)
  {
    SizeConcat(c[0].body + [EndTry(c[0].handler)], c[1..]);
    SizeConcat(c[0].body, [EndTry(c[0].handler)]);
    assert Size([EndTry(c[0].handler)]) == 1 + Size(c[0].handler) + Size([EndTry(c[0].handler)][1..]);
  }

  function Prepend(ys: seq<int>, r: Result): Result { Result(ys + r.ys, r.end) }

  /** The flattening. */
  function Flat(c: Code): Result
    decreases Size(c)
  {
    if c == [] then Result([], Done)
    else
      match c[0]
      case Yield(v) => Prepend([v], Flat(c[1..]))
      case Nested(g) =>
        var r := Flat(g);
        Prepend(r.ys, match r.end case Done => Flat(c[1..]) case Threw(e) => AfterThrow(e, c[1..]))
      case Throw(e) => AfterThrow(e, c[1..])
      case Try(b, h) => EnterTryShrinks(c); Flat(b + [EndTry(h)] + c[1..])
      case EndTry(_) => Flat(c[1..])
  }

  function AfterThrow(e: int, c: Code): Result
    decreases Size(c), 1
  {
    UnwindShrinks(c);
    match Unwind(c)
    case None => Result([], Threw(e))
    case Some(k) => Flat(k)
  }

  // ----- the machine -----

  /** The suspended bodies, root first, leaf last. */
  type Chain = seq<Code>

  datatype Outcome = Yielded(v: int, chain: Chain) | Finished | Raised(e: int)

  function Weight(s: Chain): nat { if s == [] then 0 else Weight(s[..|s| - 1]) + Size(s[|s| - 1]) + 1 }

  lemma WeightSnoc(s: Chain, c: Code)
    ensures Weight(s + [c]) == Weight(s) + Size(c) + 1
  {
    assert (s + [c])[..|s|] == s;
  }

  function Leaf(s: Chain): Code
    requires s != []
  {
    s[|s| - 1]
  }

  function Above(s: Chain): Chain
    requires s != []
  {
    s[..|s| - 1]
  }

  function WithLeaf(s: Chain, c: Code): Chain
    requires s != []
  {
    Above(s) + [c]
  }

  /** The chain when the leaf is done and its parent resumes, with an exception to rethrow or not. */
  function Back(s: Chain, thrown: Option<int>): Chain
    requires |s| > 1
  {
    var p := Above(s);
    match thrown case None => p case Some(e) => WithLeaf(p, [Throw(e)] + Leaf(p))
  }

  lemma BackShrinks(s: Chain, thrown: Option<int>)
    requires |s| > 1 && (thrown.Some? ==> Size(Leaf(s)) > 0)
    ensures Weight(Back(s, thrown)) < Weight(s)
  {
    var p := Above(s);
    WeightSnoc(p, Leaf(s));
    assert s == p + [Leaf(s)];
    if thrown.Some? { ThrowWeighsOne(p, thrown.value); }
  }

  lemma ThrowWeighsOne(p: Chain, e: int)
    requires p != []
    ensures Weight(WithLeaf(p, [Throw(e)] + Leaf(p))) == Weight(p) + 1
  {
    assert p == Above(p) + [Leaf(p)];
    WeightSnoc(Above(p), Leaf(p));
    WeightSnoc(Above(p), [Throw(e)] + Leaf(p));
    SizeOfThrow(e, Leaf(p));
  }

  lemma SizeOfThrow(e: int, c: Code)
    ensures Size([Throw(e)] + c) == 1 + Size(c)
  {
    assert ([Throw(e)] + c)[1..] == c && ([Throw(e)] + c)[0] == Throw(e);
  }

  /** The machine after one statement of its leaf, unless that statement ends the resumption. */
  datatype Turn = Goes(chain: Chain) | Stops(out: Outcome)

  function Turned(s: Chain): Turn
    requires s != []
  {
    var c := Leaf(s);
    if c == [] then (if |s| == 1 then Stops(Finished) else Goes(Back(s, None)))
    else
      var rest := c[1..];
      match c[0]
      case Yield(v) => Stops(Yielded(v, WithLeaf(s, rest)))
      case Nested(g) => Goes(WithLeaf(s, rest) + [g])
      case Throw(e) =>
        if Unwind(rest).Some? then Goes(WithLeaf(s, Unwind(rest).value))
        else if |s| == 1 then Stops(Raised(e)) else Goes(Back(s, Some(e)))
      case Try(b, h) => Goes(WithLeaf(s, b + [EndTry(h)] + rest))
      case EndTry(_) => Goes(WithLeaf(s, rest))
  }

  lemma TurnShrinks(s: Chain)
    requires s != [] && Turned(s).Goes?
    ensures Turned(s).chain != [] && Weight(Turned(s).chain) < Weight(s)
  {
    var c := Leaf(s);
    assert s == Above(s) + [c];
    WeightSnoc(Above(s), c);
    if c == [] {
      BackShrinks(s, None);
    } else {
      UnwindShrinks(c[1..]);
      match c[0]
      case Yield(_) =>
      case Nested(g) =>
        WeightSnoc(Above(s), c[1..]);
        WeightSnoc(WithLeaf(s, c[1..]), g);
      case Throw(e) =>
        if Unwind(c[1..]).Some? { WeightSnoc(Above(s), Unwind(c[1..]).value); } else { BackShrinks(s, Some(e)); }
      case Try(b, h) =>
        EnterTryShrinks(c);
        WeightSnoc(Above(s), b + [EndTry(h)] + c[1..]);
      case EndTry(_) => WeightSnoc(Above(s), c[1..]);
    }
  }

  /** resume(): the leaf runs, and whoever becomes the leaf, up to the next value or the end.  That
      this is a total function is the proof that every resumption ends. */
  function Resume(s: Chain): Outcome
    requires s != []
    decreases Weight(s)
  {
    match Turned(s)
    case Stops(out) => out
    case Goes(t) => TurnShrinks(s); Resume(t)
  }

  lemma {:induction false} ResumeShrinks(s: Chain)
    requires s != [] && Resume(s).Yielded?
    ensures Resume(s).chain != [] && Weight(Resume(s).chain) < Weight(s)
    decreases Weight(s)
  {
    match Turned(s)
    case Goes(t) =>
      TurnShrinks(s);
      ResumeShrinks(t);
    case Stops(out) =>
      var c := Leaf(s);
      assert s == Above(s) + [c];
      WeightSnoc(Above(s), c);
      WeightSnoc(Above(s), c[1..]);
  }

  /** What a consumer sees who iterates to the end. */
  function Trace(s: Chain): Result
    requires s != []
    decreases Weight(s)
  {
    match Resume(s)
    case Finished => Result([], Done)
    case Raised(e) => Result([], Threw(e))
    case Yielded(v, t) => ResumeShrinks(s); Prepend([v], Trace(t))
  }

  // ----- the machine computes the flattening -----

  /** What a chain still has to say: the leaf's values, then those of its parent, which gets the
      leaf's exception if it ended with one. */
  function Rest(s: Chain): Result
    requires s != []
    decreases |s|
  {
    var r := Flat(Leaf(s));
    if |s| == 1 then r
    else
      var p := Above(s);
      Prepend(r.ys, Rest(match r.end case Done => p case Threw(e) => WithLeaf(p, [Throw(e)] + Leaf(p))))
  }

  lemma PrependTwice(a: seq<int>, b: seq<int>, r: Result)
    ensures Prepend(a, Prepend(b, r)) == Prepend(a + b, r) && Prepend([], r) == r
  {
    assert a + (b + r.ys) == (a + b) + r.ys;
  }

  /** A leaf may be replaced by code of the same meaning, and a value taken off its front. */
  lemma RestOfLeaf(s: Chain, c: Code, ys: seq<int>)
    requires s != [] && Flat(Leaf(s)) == Prepend(ys, Flat(c))
    ensures Rest(s) == Prepend(ys, Rest(WithLeaf(s, c)))
  {
    var w := WithLeaf(s, c);
    assert Leaf(w) == c && Above(w) == Above(s);
    if |s| > 1 {
      var above := match Flat(c).end
        case Done => Above(s)
        case Threw(e) => WithLeaf(Above(s), [Throw(e)] + Leaf(Above(s)));
      PrependTwice(ys, Flat(c).ys, Rest(above));
    }
  }

  /** The parent of a nested generator carries on as Flat says. */
  lemma NestedIsFlat(s: Chain, g: Code, rest: Code)
    requires s != [] && Leaf(s) != [] && Leaf(s)[0] == Nested(g) && Leaf(s)[1..] == rest
    ensures Rest(s) == Rest(WithLeaf(s, rest) + [g])
  {
    var p := WithLeaf(s, rest);
    var w := p + [g];
    assert Leaf(w) == g && Above(w) == p && Leaf(p) == rest && Above(p) == Above(s);
    var r := Flat(g);
    match r.end
    case Done =>
      RestOfLeaf(s, rest, r.ys);
    case Threw(e) =>
      var k := [Throw(e)] + rest;
      assert k[1..] == rest && Flat(k) == AfterThrow(e, rest);
      RestOfLeaf(s, k, r.ys);
      assert WithLeaf(p, k) == WithLeaf(s, k);
  }

  /** One statement changes nothing of what is still to be said, or says what there is to say. */
  lemma TurnIsFlat(s: Chain)
    requires s != []
    ensures
      match Turned(s)
      case Goes(t) => t != [] && Rest(s) == Rest(t)
      case Stops(Finished) => Rest(s) == Result([], Done)
      case Stops(Raised(e)) => Rest(s) == Result([], Threw(e))
      case Stops(Yielded(v, t)) => t != [] && Rest(s) == Prepend([v], Rest(t))
  {
    var c := Leaf(s);
    if c == [] {
      if |s| > 1 { PrependTwice([], [], Rest(Above(s))); }
    } else {
      match c[0]
      case Yield(v) => RestOfLeaf(s, c[1..], [v]);
      case Nested(g) => NestedIsFlat(s, g, c[1..]);
      case Throw(e) => ThrowIsFlat(s, e, c[1..]);
      case Try(b, h) =>
        SameMeaning(s, b + [EndTry(h)] + c[1..]);
      case EndTry(_) =>
        SameMeaning(s, c[1..]);
    }
  }

  lemma ThrowIsFlat(s: Chain, e: int, rest: Code)
    requires s != [] && Leaf(s) != [] && Leaf(s)[0] == Throw(e) && Leaf(s)[1..] == rest
    ensures Unwind(rest).Some? ==> Rest(s) == Rest(WithLeaf(s, Unwind(rest).value))
    ensures Unwind(rest).None? && |s| == 1 ==> Rest(s) == Result([], Threw(e))
    ensures Unwind(rest).None? && |s| > 1 ==> Rest(s) == Rest(Back(s, Some(e)))
  {
    var r := AfterThrow(e, rest);
    assert Flat(Leaf(s)) == r;
    match Unwind(rest)
    case Some(k) => SameMeaning(s, k);
    case None =>
      assert r == Result([], Threw(e));
      if |s| > 1 { LeafThrew(s, e); }
  }

  lemma SameMeaning(s: Chain, k: Code)
    requires s != [] && Flat(Leaf(s)) == Flat(k)
    ensures Rest(s) == Rest(WithLeaf(s, k))
  {
    PrependTwice([], [], Flat(k));
    RestOfLeaf(s, k, []);
    PrependTwice([], [], Rest(WithLeaf(s, k)));
  }

  lemma LeafThrew(s: Chain, e: int)
    requires |s| > 1 && Flat(Leaf(s)) == Result([], Threw(e))
    ensures Rest(s) == Rest(Back(s, Some(e)))
  {
    PrependTwice([], [], Rest(Back(s, Some(e))));
  }

  lemma {:induction false} ResumeIsFlat(s: Chain)
    requires s != []
    ensures
      match Resume(s)
      case Finished => Rest(s) == Result([], Done)
      case Raised(e) => Rest(s) == Result([], Threw(e))
      case Yielded(v, t) => t != [] && Rest(s) == Prepend([v], Rest(t))
    decreases Weight(s)
  {
    TurnIsFlat(s);
    if Turned(s).Goes? {
      TurnShrinks(s);
      ResumeIsFlat(Turned(s).chain);
    }
  }

  lemma {:induction false} TraceIsRest(s: Chain)
    requires s != []
    ensures Trace(s) == Rest(s)
    decreases Weight(s)
  {
    ResumeIsFlat(s);
    match Resume(s)
    case Finished =>
    case Raised(_) =>
    case Yielded(_, t) =>
      ResumeShrinks(s);
      TraceIsRest(t);
  }

  /** For any generator, nested to any depth, whether its parts throw, catch or neither: iterating it
      to the end yields its flattening, and ends as it does. */
  lemma TraceIsFlat(c: Code)
    ensures Trace([c]) == Flat(c)
  {
    TraceIsRest([c]);
  }
}
