/**
 The older way to nest generators: every level loops over the one below and yields each value again,
 so a value passes through all of them.  Same traces; and the towers of Hanoi, written both ways.
 */
module GeneratorLoops {
  import opened Common
  import opened Generator

  /** A suspended generator and, if it is in a loop over another, that other one. */
  datatype Loop = Loop(code: Code, inner: Option<Loop>)

  datatype Passed = Value(v: int, next: Loop) | Ended | Raises(e: int)

  function LoopWeight(l: Loop): nat {
    Size(l.code) + 1 + match l.inner case Some(i) => LoopWeight(i) + 1 case None => 0
  }

  lemma NestWeight(rest: Code, g: Code)
    ensures LoopWeight(Loop(rest, Some(Loop(g, None)))) == Size(rest) + Size(g) + 3
  {
    assert LoopWeight(Loop(g, None)) == Size(g) + 1;
  }

  /** One resumption from the outermost generator down. */
  function Next(l: Loop): Passed
    decreases LoopWeight(l)
  {
    match l.inner
    case Some(i) =>
      (match Next(i)
       case Value(v, n) => Value(v, l.(inner := Some(n)))
       case Ended => Next(Loop(l.code, None))
       case Raises(e) => SizeOfThrow(e, l.code); Next(Loop([Throw(e)] + l.code, None)))
    case None =>
      if l.code == [] then Ended
      else
        var rest := l.code[1..];
        match l.code[0]
        case Yield(v) => Value(v, Loop(rest, None))
        case Nested(g) => NestWeight(rest, g); Next(Loop(rest, Some(Loop(g, None))))
        case Throw(e) =>
          UnwindShrinks(rest);
          (match Unwind(rest) case None => Raises(e) case Some(k) => Next(Loop(k, None)))
        case Try(b, h) => EnterTryShrinks(l.code); Next(Loop(b + [EndTry(h)] + rest, None))
        case EndTry(_) => Next(Loop(rest, None))
  }

  lemma {:induction false} NextShrinks(l: Loop)
    requires Next(l).Value?
    ensures LoopWeight(Next(l).next) < LoopWeight(l)
    decreases LoopWeight(l)
  {
    match l.inner
    case Some(i) =>
      assert LoopWeight(i) < LoopWeight(l);
      match Next(i) {
        case Value(_, _) => NextShrinks(i);
        case Ended => NextShrinks(Loop(l.code, None));
        case Raises(e) =>
          SizeOfThrow(e, l.code);
          NextShrinks(Loop([Throw(e)] + l.code, None));
      }
    case None =>
      var rest := l.code[1..];
      match l.code[0]
      case Yield(_) =>
      case Nested(g) =>
        NestWeight(rest, g);
        NextShrinks(Loop(rest, Some(Loop(g, None))));
      case Throw(_) =>
        UnwindShrinks(rest);
        NextShrinks(Loop(Unwind(rest).value, None));
      case Try(b, h) =>
        EnterTryShrinks(l.code);
        NextShrinks(Loop(b + [EndTry(h)] + rest, None));
      case EndTry(_) => NextShrinks(Loop(rest, None));
  }

  function LoopTrace(l: Loop): Result
    decreases LoopWeight(l)
  {
    match Next(l)
    case Ended => Result([], Done)
    case Raises(e) => Result([], Threw(e))
    case Value(v, n) => NextShrinks(l); Prepend([v], LoopTrace(n))
  }

  function FlatLoop(l: Loop): Result {
    match l.inner
    case None => Flat(l.code)
    case Some(i) =>
      var r := FlatLoop(i);
      Prepend(r.ys, match r.end case Done => Flat(l.code) case Threw(e) => AfterThrow(e, l.code))
  }

  lemma ThrowFirst(e: int, c: Code)
    ensures Flat([Throw(e)] + c) == AfterThrow(e, c)
  {
    assert ([Throw(e)] + c)[1..] == c;
  }

  lemma {:induction false} NextIsFlat(l: Loop)
    ensures
      match Next(l)
      case Ended => FlatLoop(l) == Result([], Done)
      case Raises(e) => FlatLoop(l) == Result([], Threw(e))
      case Value(v, n) => FlatLoop(l) == Prepend([v], FlatLoop(n))
    decreases LoopWeight(l)
  {
    match l.inner
    case Some(i) =>
      NextIsFlat(i);
      match Next(i) {
        case Value(v, n) =>
          var r := FlatLoop(n);
          PrependTwice([v], r.ys, match r.end case Done => Flat(l.code) case Threw(e) => AfterThrow(e, l.code));
        case Ended =>
          PrependTwice([], [], Flat(l.code));
          NextIsFlat(Loop(l.code, None));
        case Raises(e) =>
          PrependTwice([], [], AfterThrow(e, l.code));
          ThrowFirst(e, l.code);
          SizeOfThrow(e, l.code);
          NextIsFlat(Loop([Throw(e)] + l.code, None));
      }
    case None =>
      if l.code != [] {
        var rest := l.code[1..];
        match l.code[0]
        case Yield(_) =>
        case Nested(g) =>
          NestWeight(rest, g);
          assert FlatLoop(Loop(g, None)) == Flat(g);
          NextIsFlat(Loop(rest, Some(Loop(g, None))));
        case Throw(e) =>
          UnwindShrinks(rest);
          assert FlatLoop(l) == AfterThrow(e, rest);
          if Unwind(rest).Some? {
            assert Next(l) == Next(Loop(Unwind(rest).value, None));
            NextIsFlat(Loop(Unwind(rest).value, None));
          }
        case Try(b, h) =>
          EnterTryShrinks(l.code);
          NextIsFlat(Loop(b + [EndTry(h)] + rest, None));
        case EndTry(_) => NextIsFlat(Loop(rest, None));
      }
  }

  lemma {:induction false} LoopTraceIsFlat(l: Loop)
    ensures LoopTrace(l) == FlatLoop(l)
    decreases LoopWeight(l)
  {
    NextIsFlat(l);
    if Next(l).Value? {
      NextShrinks(l);
      LoopTraceIsFlat(Next(l).next);
    }
  }

  /** elements_of may replace the loop, or the loop elements_of: nobody who iterates can tell. */
  lemma SameTraces(c: Code)
    ensures Trace([c]) == LoopTrace(Loop(c, None))
  {
    TraceIsFlat(c);
    LoopTraceIsFlat(Loop(c, None));
  }

  // ----- the towers of Hanoi -----

  /** One body serves for both programs: towerOfHanoi nests with elements_of, and the older one with
      loops.  The rods are passed on but never yielded. */
  function Tower(n: nat): Code {
    if n == 0 then [] else [Nested(Tower(n - 1)), Yield(1), Nested(Tower(n - 1))]
  }

  function Moves(n: nat): nat { if n == 0 then 0 else 2 * Moves(n - 1) + 1 }

  function Ones(k: nat): (r: seq<int>)
    ensures |r| == k && forall i :: 0 <= i < k ==> r[i] == 1
  {
    seq(k, i => 1)
  }

  lemma {:induction false} TowerFlat(n: nat)
    ensures Flat(Tower(n)) == Result(Ones(Moves(n)), Done)
  {
    if n == 0 {
    } else {
      TowerFlat(n - 1);
      var t := Tower(n);
      assert t[1..][0] == Yield(1) && t[1..][1..][0] == Nested(Tower(n - 1)) && t[1..][1..][1..] == [];
      var half := Result(Ones(Moves(n - 1)), Done);
      assert Flat(t[1..][1..]) == Prepend(half.ys, Flat([]));
      assert half.ys + [] == half.ys;
      assert Flat(t[1..]) == Prepend([1], half);
      assert half.ys + ([1] + half.ys) == Ones(Moves(n));
    }
  }

  /** Both programs yield a one for every move, and then end. */
  lemma TowersAgree(n: nat)
    ensures Trace([Tower(n)]) == LoopTrace(Loop(Tower(n), None)) == Result(Ones(Moves(n)), Done)
  {
    SameTraces(Tower(n));
    TraceIsFlat(Tower(n));
    TowerFlat(n);
  }
}
