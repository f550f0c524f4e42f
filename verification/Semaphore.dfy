/**
 The counting semaphore over every schedule.  A waiter leaves its demand where signal() can see it;
 signal() wakes waiters from the front while the count covers each of them, taking nothing off; a
 woken waiter tests the count again, and one whose wait failed first signals on its own account.
 */
module Semaphore {
  import opened Common

  type Tid = nat

  /** Elsewhere; asleep in the queue with a demand; or READY again with the error that ended the
      wait (0 for a time-out). */
  datatype Place = Elsewhere | Queued(demand: nat) | Woken(demand: nat, error: int)

  /** `signalled` and `taken`: what all signals brought and all successful waits took so far. */
  datatype State = State(count: nat, q: seq<Tid>, at: map<Tid, Place>, signalled: nat, taken: nat)

  function Initial(count: nat): State { State(count, [], map[], 0, 0) }

  function At(s: State, t: Tid): Place { if t in s.at then s.at[t] else Elsewhere }

  function Demand(s: State, t: Tid): nat {
    if At(s, t) == Elsewhere then 0 else At(s, t).demand
  }

  /** The test at the head of wait's loop. */
  function Try(s: State, t: Tid, n: nat, sleeps: bool): State {
    if s.count >= n then s.(count := s.count - n, at := s.at[t := Elsewhere], taken := s.taken + n)
    else if sleeps then s.(q := s.q + [t], at := s.at[t := Queued(n)])
    else s.(at := s.at[t := Woken(n, 0)])
  }

  function Wait(s: State, t: Tid, n: nat, sleeps: bool): State {
    if n == 0 then s else Try(s, t, n, sleeps)
  }

  function Wake(s: State, t: Tid, error: int): (r: State)
    ensures At(s, t).Queued? && t in s.q ==> |r.q| < |s.q|
  {
    if !At(s, t).Queued? then s
    else s.(q := Without(s.q, t), at := s.at[t := Woken(Demand(s, t), error)])
  }

  /** signal's loop. */
  function WakeAll(s: State): State
    decreases |s.q|
  {
    if s.q == [] || s.count < Demand(s, s.q[0]) || !At(s, s.q[0]).Queued? then s
    else WakeAll(Wake(s, s.q[0], ECANCELED))
  }

  function Signal(s: State, n: nat): State {
    WakeAll(s.(count := s.count + n, signalled := s.signalled + n))
  }

  function Continue(s: State, t: Tid, sleeps: bool): State
    requires At(s, t).Woken?
  {
    if At(s, t).error == ECANCELED then Try(s, t, At(s, t).demand, sleeps)
    else Signal(s.(at := s.at[t := Elsewhere]), 0)
  }

  datatype Event =
    | WaitCall(t: Tid, n: nat, sleeps: bool)
    | Runs(t: Tid, sleeps: bool)
    | WaitEnds(t: Tid, error: int)   // a time-out (0), or thread_interrupt
    | SignalCall(n: nat)

  ghost predicate Enabled(s: State, e: Event) {
    match e
    case WaitCall(t, _, _) => At(s, t) == Elsewhere
    case Runs(t, _) => At(s, t).Woken?
    case WaitEnds(_, _) => true
    case SignalCall(_) => true
  }

  function Apply(s: State, e: Event): State
    requires Enabled(s, e)
  {
    match e
    case WaitCall(t, n, sleeps) => Wait(s, t, n, sleeps)
    case Runs(t, sleeps) => Continue(s, t, sleeps)
    case WaitEnds(t, error) => Wake(s, t, error)
    case SignalCall(n) => Signal(s, n)
  }

  ghost predicate Run(s: State, es: seq<Event>, s': State)
    decreases |es|
  {
    if es == [] then s == s' else Enabled(s, es[0]) && Run(Apply(s, es[0]), es[1..], s')
  }

  /** Nobody but signal() resumes with ECANCELED. */
  ghost predicate Polite(es: seq<Event>) {
    forall i :: 0 <= i < |es| && es[i].WaitEnds? ==> es[i].error != ECANCELED
  }

  // ----- what every run keeps -----

  ghost predicate QueueInv(s: State, t: Tid) { t in s.q <==> At(s, t).Queued? }

  ghost predicate Inv(s: State, init: nat) {
    && s.count + s.taken == init + s.signalled
    && forall t :: QueueInv(s, t)
  }

  lemma TryKeeps(s: State, init: nat, t: Tid, n: nat, sleeps: bool)
    requires Inv(s, init) && !At(s, t).Queued?
    ensures Inv(Try(s, t, n, sleeps), init)
  {
    forall u ensures QueueInv(Try(s, t, n, sleeps), u) { assert QueueInv(s, u) && QueueInv(s, t); }
  }

  lemma WakeKeeps(s: State, init: nat, t: Tid, error: int)
    requires Inv(s, init)
    ensures Inv(Wake(s, t, error), init)
  {
    forall u ensures QueueInv(Wake(s, t, error), u) { assert QueueInv(s, u) && QueueInv(s, t); }
  }

  /** The front waiter, if any, asks for more than there is. */
  ghost predicate FrontUnmet(s: State) { s.q != [] ==> s.count < Demand(s, s.q[0]) }

  lemma {:induction false} WakeAllKeeps(s: State, init: nat)
    requires Inv(s, init)
    ensures Inv(WakeAll(s), init) && FrontUnmet(WakeAll(s))
    ensures WakeAll(s).count == s.count
    decreases |s.q|
  {
    if s.q == [] {
    } else {
      assert QueueInv(s, s.q[0]);
      if s.count >= Demand(s, s.q[0]) {
        WakeKeeps(s, init, s.q[0], ECANCELED);
        WakeAllKeeps(Wake(s, s.q[0], ECANCELED), init);
      }
    }
  }

  lemma SignalKeeps(s: State, init: nat, n: nat)
    requires Inv(s, init)
    ensures Inv(Signal(s, n), init) && FrontUnmet(Signal(s, n))
  {
    var s1 := s.(count := s.count + n, signalled := s.signalled + n);
    forall u ensures QueueInv(s1, u) { assert QueueInv(s, u); }
    WakeAllKeeps(s1, init);
  }

  lemma ContinueKeeps(s: State, init: nat, t: Tid, sleeps: bool)
    requires Inv(s, init) && At(s, t).Woken?
    ensures Inv(Continue(s, t, sleeps), init)
    ensures At(s, t).error != ECANCELED ==> FrontUnmet(Continue(s, t, sleeps))
  {
    if At(s, t).error == ECANCELED {
      TryKeeps(s, init, t, At(s, t).demand, sleeps);
    } else {
      var s1 := s.(at := s.at[t := Elsewhere]);
      forall u ensures QueueInv(s1, u) { assert QueueInv(s, u); }
      SignalKeeps(s1, init, 0);
    }
  }

  lemma StepKeeps(s: State, init: nat, e: Event)
    requires Inv(s, init) && Enabled(s, e)
    ensures Inv(Apply(s, e), init)
  {
    match e
    case WaitCall(t, n, sleeps) => TryKeeps(s, init, t, n, sleeps);
    case Runs(t, sleeps) => ContinueKeeps(s, init, t, sleeps);
    case WaitEnds(t, error) => WakeKeeps(s, init, t, error);
    case SignalCall(n) => SignalKeeps(s, init, n);
  }

  lemma {:induction false} RunKeeps(s: State, init: nat, es: seq<Event>, s': State)
    requires Inv(s, init) && Run(s, es, s')
    ensures Inv(s', init)
    decreases |es|
  {
    if es == [] {
    } else {
      StepKeeps(s, init, es[0]);
      RunKeeps(Apply(s, es[0]), init, es[1..], s');
    }
  }

  /** Conservation: whatever happens, the count is the initial one plus all signals minus all
      successful waits, so no wait ever takes what is not there. */
  lemma CountIsConserved(init: nat, es: seq<Event>, s: State)
    requires Run(Initial(init), es, s)
    ensures s.count == init + s.signalled - s.taken
    ensures s.taken <= init + s.signalled
  {
    RunKeeps(Initial(init), init, es, s);
  }

  // ----- no wakeup is lost -----

  /** A waiter whose wait failed has yet to run, and will signal when it does. */
  ghost predicate Owes(s: State, t: Tid) { At(s, t).Woken? && At(s, t).error != ECANCELED }

  ghost predicate NoneLost(s: State) { (exists t :: Owes(s, t)) || FrontUnmet(s) }

  lemma TryLosesNone(s: State, init: nat, t: Tid, n: nat, sleeps: bool)
    requires Inv(s, init) && !At(s, t).Queued? && !Owes(s, t) && NoneLost(s)
    ensures NoneLost(Try(s, t, n, sleeps))
  {
    var s' := Try(s, t, n, sleeps);
    if r :| Owes(s, r) {
      assert Owes(s', r);
    } else if s.q != [] {
      assert QueueInv(s, t) && QueueInv(s, s.q[0]);
      assert s'.q[0] == s.q[0];
    }
    if s.count < n && !sleeps { assert Owes(s', t); }
  }

  lemma EndLosesNone(s: State, init: nat, t: Tid, error: int)
    requires Inv(s, init) && NoneLost(s) && error != ECANCELED
    ensures NoneLost(Wake(s, t, error))
  {
    if At(s, t).Queued? {
      assert Owes(Wake(s, t, error), t);
    }
  }

  lemma StepLosesNone(s: State, init: nat, e: Event)
    requires Inv(s, init) && Enabled(s, e) && NoneLost(s)
    requires e.WaitEnds? ==> e.error != ECANCELED
    ensures NoneLost(Apply(s, e))
  {
    match e
    case WaitCall(t, n, sleeps) => TryLosesNone(s, init, t, n, sleeps);
    case Runs(t, sleeps) =>
      if Owes(s, t) { ContinueKeeps(s, init, t, sleeps); } else { TryLosesNone(s, init, t, At(s, t).demand, sleeps); }
    case WaitEnds(t, error) => EndLosesNone(s, init, t, error);
    case SignalCall(n) => SignalKeeps(s, init, n);
  }

  lemma {:induction false} RunLosesNone(s: State, init: nat, es: seq<Event>, s': State)
    requires Inv(s, init) && NoneLost(s) && Run(s, es, s') && Polite(es)
    ensures NoneLost(s')
    decreases |es|
  {
    if es == [] {
    } else {
      StepKeeps(s, init, es[0]);
      StepLosesNone(s, init, es[0]);
      RunLosesNone(Apply(s, es[0]), init, es[1..], s');
    }
  }

  /** Over every run in which only signal() resumes with ECANCELED: once no failed waiter still owes
      its signal, a waiter at the front asks for more than there is. */
  lemma NoLostWakeup(init: nat, es: seq<Event>, s: State)
    requires Run(Initial(init), es, s) && Polite(es)
    requires forall t :: !Owes(s, t)
    ensures s.q != [] ==> s.count < Demand(s, s.q[0])
  {
    RunLosesNone(Initial(init), init, es, s);
  }

  /** Exactly which interrupts lose one: an ECANCELED from outside to the front waiter, when nobody
      owes a signal and the waiter behind it would be content with what there is. */
  lemma InterruptLosesIff(s: State, init: nat, t: Tid, error: int)
    requires Inv(s, init) && NoneLost(s) && t in s.q
    ensures NoneLost(Wake(s, t, error)) <==>
      error != ECANCELED || (exists r :: Owes(s, r)) || t != s.q[0] || Without(s.q, t) == [] ||
      s.count < Demand(s, Without(s.q, t)[0])
  {
    var s' := Wake(s, t, error);
    assert QueueInv(s, t);
    if error != ECANCELED {
      assert Owes(s', t);
    } else {
      if r :| Owes(s, r) { assert Owes(s', r); }
      if r :| Owes(s', r) { assert Owes(s, r); }
      if s'.q != [] {
        assert Demand(s', s'.q[0]) == Demand(s, s'.q[0]);
        if t != s.q[0] { assert s'.q[0] == s.q[0]; }
      }
    }
  }

  /** And the loss is lasting: A asks for more than there is, B behind it for less; interrupted so, A
      finds the count too small and queues behind B, which nobody has woken. */
  lemma OutsideCancelStrands(s: State, init: nat, a: Tid, b: Tid)
    requires Inv(s, init) && s.q == [a, b] && a != b
    requires Demand(s, b) <= s.count < Demand(s, a) && forall t :: !Owes(s, t)
    ensures
      var s1 := Continue(Wake(s, a, ECANCELED), a, true);
      s1.q == [b, a] && s1.count == s.count && Demand(s1, b) <= s1.count && forall t :: !Owes(s1, t)
  {
    assert QueueInv(s, a) && QueueInv(s, b);
    assert s.q[1..] == [b];
    var w := Wake(s, a, ECANCELED);
    assert At(w, a) == Woken(Demand(s, a), ECANCELED);
    var s1 := Continue(w, a, true);
    assert s1.q == [b] + [a];
    forall t ensures !Owes(s1, t) { assert !Owes(s, t); }
  }

  lemma FirstStep(s: State, e: Event, es: seq<Event>, s': State)
    requires Enabled(s, e) && Run(Apply(s, e), es, s')
    ensures Run(s, [e] + es, s')
  {
    assert ([e] + es)[1..] == es;
  }

  /** `a` asks for two, `b` for one, and one is signalled. */
  lemma TwoWait(a: Tid, b: Tid) returns (es: seq<Event>, s: State)
    requires a != b
    ensures Run(Initial(0), es, s) && s == State(1, [a, b], map[a := Queued(2), b := Queued(1)], 1, 0) && Inv(s, 0)
  {
    var s1 := Wait(Initial(0), a, 2, true);
    var s2 := Wait(s1, b, 1, true);
    s := Signal(s2, 1);
    assert [] + [a] == [a] && [a] + [b] == [a, b];
    forall t ensures QueueInv(s, t) { }
    FirstStep(s2, SignalCall(1), [], s);
    FirstStep(s1, WaitCall(b, 1, true), [SignalCall(1)] + [], s);
    es := [WaitCall(a, 2, true)] + ([WaitCall(b, 1, true)] + ([SignalCall(1)] + []));
    FirstStep(Initial(0), WaitCall(a, 2, true), [WaitCall(b, 1, true)] + ([SignalCall(1)] + []), s);
  }

  lemma {:induction false} RunsOn(s: State, es: seq<Event>, m: State, more: seq<Event>, s': State)
    requires Run(s, es, m) && Run(m, more, s')
    ensures Run(s, es + more, s')
    decreases |es|
  {
    if es == [] {
      assert es + more == more;
    } else {
      RunsOn(Apply(s, es[0]), es[1..], m, more, s');
      assert (es + more)[1..] == es[1..] + more;
    }
  }

  lemma CancelAlone(s: State, t: Tid)
    requires At(s, t).Queued?
    ensures
      var s' := Continue(Wake(s, t, ECANCELED), t, true);
      Run(s, [WaitEnds(t, ECANCELED)] + ([Runs(t, true)] + []), s')
  {
    var w := Wake(s, t, ECANCELED);
    var s' := Continue(w, t, true);
    FirstStep(w, Runs(t, true), [], s');
    FirstStep(s, WaitEnds(t, ECANCELED), [Runs(t, true)] + [], s');
  }

  lemma Strands(s: State, a: Tid, b: Tid) returns (es: seq<Event>, s': State)
    requires Inv(s, 0) && s.q == [a, b] && a != b
    requires Demand(s, b) <= s.count < Demand(s, a) && forall t :: !Owes(s, t)
    ensures Run(s, es, s') && s'.q == [b, a] && Demand(s', b) <= s'.count && forall t :: !Owes(s', t)
  {
    assert QueueInv(s, a);
    OutsideCancelStrands(s, 0, a, b);
    CancelAlone(s, a);
    es, s' := [WaitEnds(a, ECANCELED)] + ([Runs(a, true)] + []), Continue(Wake(s, a, ECANCELED), a, true);
  }

  /** A run from the start gets there, with two threads and two requests. */
  lemma StrandedIsReached(a: Tid, b: Tid) returns (es: seq<Event>, s: State)
    requires a != b
    ensures Run(Initial(0), es, s) && s.q == [b, a] && Demand(s, b) <= s.count && forall t :: !Owes(s, t)
  {
    var es0, s0 := TwoWait(a, b);
    var more;
    more, s := Strands(s0, a, b);
    RunsOn(Initial(0), es0, s0, more, s);
    es := es0 + more;
  }

  // ----- the semaphore itself -----

  class Counter {
    var count: nat
    var q: seq<Tid>
    var at: map<Tid, Place>
    ghost var signalled: nat
    ghost var taken: nat
    ghost const init: nat

    ghost function View(): State
      reads this
    {
      State(count, q, at, signalled, taken)
    }

    ghost predicate Valid()
      reads this
    {
      Inv(View(), init)
    }

    constructor (count: nat)
      ensures View() == Initial(count) && Valid()
    {
      this.count, q, at, signalled, taken, init := count, [], map[], 0, 0, count;
    }

    /** waitq::resume_one for this queue. */
    method ResumeOne()
      requires Valid() && q != []
      modifies this
      ensures View() == Wake(old(View()), old(q)[0], ECANCELED) && Valid() && |q| < |old(q)|
    {
      WakeKeeps(View(), init, q[0], ECANCELED);
      assert QueueInv(View(), q[0]);
      var t := q[0];
      q := Without(q, t);
      at := at[t := Woken(at[t].demand, ECANCELED)];
    }

    method SignalAll(n: nat)
      requires Valid()
      modifies this
      ensures View() == Signal(old(View()), n) && Valid()
      ensures q != [] ==> count < Demand(View(), q[0])
    {
      SignalKeeps(View(), init, n);
      count, signalled := count + n, signalled + n;
      ghost var s1 := View();
      forall u ensures QueueInv(s1, u) { assert QueueInv(old(View()), u); }
      while q != []
        invariant Valid() && WakeAll(View()) == WakeAll(s1)
        decreases |q|
      {
        assert QueueInv(View(), q[0]);
        var demand := at[q[0]].demand;
        if count < demand { break; }
        ResumeOne();
      }
    }

    /** One pass of wait's loop. */
    method Test(t: Tid, n: nat, sleeps: bool) returns (got: bool)
      requires Valid() && !At(View(), t).Queued?
      modifies this
      ensures View() == Try(old(View()), t, n, sleeps) && Valid()
      ensures got <==> old(count) >= n
      ensures got ==> count + n == old(count) && q == old(q)
    {
      TryKeeps(View(), init, t, n, sleeps);
      if count < n {
        if sleeps {
          q := q + [t];
          at := at[t := Queued(n)];
        } else {
          at := at[t := Woken(n, 0)];
        }
        return false;
      }
      count, taken := count - n, taken + n;
      at := at[t := Elsewhere];
      return true;
    }

    method WaitFor(t: Tid, n: nat, sleeps: bool) returns (got: bool)
      requires Valid() && At(View(), t) == Elsewhere
      modifies this
      ensures View() == Wait(old(View()), t, n, sleeps) && Valid()
      ensures got <==> old(count) >= n
    {
      if n == 0 { return true; }
      got := Test(t, n, sleeps);
    }

    /** wait() after waitq::wait has returned. */
    method AfterWait(t: Tid, sleeps: bool) returns (got: bool)
      requires Valid() && t in at && at[t].Woken?
      modifies this
      ensures View() == Continue(old(View()), t, sleeps) && Valid()
      ensures got <==> old(at)[t].error == ECANCELED && old(count) >= old(at)[t].demand
    {
      ContinueKeeps(View(), init, t, sleeps);
      if at[t].error != ECANCELED {
        ghost var was := View();
        at := at[t := Elsewhere];
        forall u ensures QueueInv(View(), u) { assert QueueInv(was, u); }
        SignalAll(0);
        return false;
      }
      got := Test(t, at[t].demand, sleeps);
    }
  }
}
