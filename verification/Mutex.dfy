/**
 The mutex over every schedule: any READY thread may run next, a queued waiter may time out or be
 interrupted with any error at any moment, and whoever finds the mutex free takes it, queue or not.
 */
module Mutex {
  import opened Common

  type Tid = nat

  /** Where a thread is in lock(): elsewhere, asleep in the queue, or READY again with the error that
      ended its wait (0 when it timed out, or never slept because its timeout was spent).  `handed`
      tells the wake-up of an unlock() from an interrupt that carries the same error. */
  datatype Place = Elsewhere | Queued | Woken(error: int, handed: bool)

  /** `held`: the threads whose successful lock() is not yet undone by unlock(). */
  datatype State = State(owner: Option<Tid>, q: seq<Tid>, at: map<Tid, Place>, held: set<Tid>)

  const INITIAL := State(None, [], map[], {})

  function At(s: State, t: Tid): Place { if t in s.at then s.at[t] else Elsewhere }

  /** The head of lock's loop: take it, or wait.  `sleeps` is false when wait() comes back without
      ever queueing. */
  function Try(s: State, t: Tid, sleeps: bool): State {
    if s.owner == None then s.(owner := Some(t), at := s.at[t := Elsewhere], held := s.held + {t})
    else if sleeps then s.(q := s.q + [t], at := s.at[t := Queued])
    else s.(at := s.at[t := Woken(0, false)])
  }

  function Lock(s: State, t: Tid, sleeps: bool): State {
    if s.owner == Some(t) then s else Try(s, t, sleeps)
  }

  /** A woken thread runs: only ECANCELED takes it round the loop, anything else is a failed lock. */
  function Continue(s: State, t: Tid, sleeps: bool): State
    requires At(s, t).Woken?
  {
    if At(s, t).error == ECANCELED then Try(s, t, sleeps) else s.(at := s.at[t := Elsewhere])
  }

  /** The wait of `t` ends, by time-out or interrupt; a thread that is READY already is left alone. */
  function Wake(s: State, t: Tid, error: int, handed: bool): State {
    if At(s, t) != Queued then s else s.(q := Without(s.q, t), at := s.at[t := Woken(error, handed)])
  }

  function Unlock(s: State, t: Tid): State {
    if s.owner != Some(t) then s
    else
      var s1 := s.(owner := None, held := s.held - {t});
      if s.q == [] then s1 else Wake(s1, s.q[0], ECANCELED, true)
  }

  datatype Event =
    | LockCall(t: Tid, sleeps: bool)
    | Runs(t: Tid, sleeps: bool)
    | WaitEnds(t: Tid, error: int)   // a time-out (0), or thread_interrupt with any error
    | UnlockCall(t: Tid)

  ghost predicate Enabled(s: State, e: Event) {
    match e
    case LockCall(t, _) => At(s, t) == Elsewhere
    case Runs(t, _) => At(s, t).Woken?
    case WaitEnds(t, _) => true
    case UnlockCall(t) => At(s, t) == Elsewhere
  }

  function Apply(s: State, e: Event): State
    requires Enabled(s, e)
  {
    match e
    case LockCall(t, sleeps) => Lock(s, t, sleeps)
    case Runs(t, sleeps) => Continue(s, t, sleeps)
    case WaitEnds(t, error) => Wake(s, t, error, false)
    case UnlockCall(t) => Unlock(s, t)
  }

  ghost predicate Run(s: State, es: seq<Event>, s': State)
    decreases |es|
  {
    if es == [] then s == s' else Enabled(s, es[0]) && Run(Apply(s, es[0]), es[1..], s')
  }

  /** Woken by an unlock(), a thread is inside lock()'s loop, on its way back to the test of `owner`. */
  ghost predicate Retries(s: State, t: Tid) { At(s, t) == Woken(ECANCELED, true) }

  ghost predicate QueueInv(s: State, t: Tid) { t in s.q <==> At(s, t) == Queued }

  ghost predicate Inv(s: State) {
    && s.held == (if s.owner.Some? then {s.owner.value} else {})
    && (s.owner.Some? ==> At(s, s.owner.value) == Elsewhere)
    && (s.owner == None && s.q != [] ==> exists t :: Retries(s, t))
    && forall t :: QueueInv(s, t)
  }

  lemma TryKeeps(s: State, t: Tid, sleeps: bool)
    requires Inv(s) && At(s, t) != Queued && s.owner != Some(t)
    ensures Inv(Try(s, t, sleeps))
  {
    var s' := Try(s, t, sleeps);
    forall u ensures QueueInv(s', u) { assert QueueInv(s, u) && QueueInv(s, t); }
  }

  lemma WakeQueue(s: State, t: Tid, error: int, handed: bool)
    requires forall u :: QueueInv(s, u)
    ensures forall u :: QueueInv(Wake(s, t, error, handed), u)
  {
    forall u ensures QueueInv(Wake(s, t, error, handed), u) { assert QueueInv(s, u) && QueueInv(s, t); }
  }

  lemma WakeKeeps(s: State, t: Tid, error: int)
    requires Inv(s)
    ensures Inv(Wake(s, t, error, false))
  {
    WakeQueue(s, t, error, false);
    if s.owner == None && s.q != [] {
      var r :| Retries(s, r);
      assert Retries(Wake(s, t, error, false), r);
    }
  }

  lemma UnlockKeeps(s: State, t: Tid)
    requires Inv(s)
    ensures Inv(Unlock(s, t))
  {
    if s.owner == Some(t) {
      var s1 := s.(owner := None, held := s.held - {t});
      forall u ensures QueueInv(s1, u) { assert QueueInv(s, u); }
      if s.q != [] {
        assert QueueInv(s, s.q[0]);
        WakeQueue(s1, s.q[0], ECANCELED, true);
        assert Retries(Wake(s1, s.q[0], ECANCELED, true), s.q[0]);
      }
    }
  }

  lemma ContinueKeeps(s: State, t: Tid, sleeps: bool)
    requires Inv(s) && At(s, t).Woken?
    ensures Inv(Continue(s, t, sleeps))
  {
    if At(s, t).error == ECANCELED {
      TryKeeps(s, t, sleeps);
    } else {
      var s' := Continue(s, t, sleeps);
      forall u ensures QueueInv(s', u) { assert QueueInv(s, u); }
      if s.owner == None && s.q != [] {
        var r :| Retries(s, r);
        assert Retries(s', r);
      }
    }
  }

  lemma StepKeeps(s: State, e: Event)
    requires Inv(s) && Enabled(s, e)
    ensures Inv(Apply(s, e))
  {
    match e
    case LockCall(t, sleeps) => if s.owner != Some(t) { TryKeeps(s, t, sleeps); }
    case Runs(t, sleeps) => ContinueKeeps(s, t, sleeps);
    case WaitEnds(t, error) => WakeKeeps(s, t, error);
    case UnlockCall(t) => UnlockKeeps(s, t);
  }

  lemma {:induction false} RunKeeps(s: State, es: seq<Event>, s': State)
    requires Inv(s) && Run(s, es, s')
    ensures Inv(s')
    decreases |es|
  {
    if es == [] {
    } else {
      StepKeeps(s, es[0]);
      RunKeeps(Apply(s, es[0]), es[1..], s');
    }
  }

  /** Mutual exclusion over every run, and `owner` names the holder. */
  lemma AtMostOneHolder(es: seq<Event>, s: State)
    requires Run(INITIAL, es, s)
    ensures forall t, u :: t in s.held && u in s.held ==> t == u
    ensures forall t :: t in s.held <==> s.owner == Some(t)
  {
    RunKeeps(INITIAL, es, s);
  }

  /** A free mutex with waiters is on its way to one of them: some thread woken by unlock is inside
      the loop, nothing but its own run can take it out of there, and its run, if the mutex is still
      free, ends its lock() with success. */
  lemma FreeMutexIsClaimed(es: seq<Event>, s: State) returns (t: Tid)
    requires Run(INITIAL, es, s) && s.owner == None && s.q != []
    ensures Retries(s, t)
    ensures forall sleeps :: Continue(s, t, sleeps).owner == Some(t) && t in Continue(s, t, sleeps).held
    ensures forall e :: Enabled(s, e) && !(e.Runs? && e.t == t) ==> Retries(Apply(s, e), t)
  {
    RunKeeps(INITIAL, es, s);
    t :| Retries(s, t);
    forall e | Enabled(s, e) && !(e.Runs? && e.t == t) ensures Retries(Apply(s, e), t) {
      ClaimStays(s, t, e);
    }
  }

  lemma ClaimStays(s: State, t: Tid, e: Event)
    requires Enabled(s, e) && Retries(s, t) && !(e.Runs? && e.t == t)
    requires s.owner == None
    ensures Retries(Apply(s, e), t)
  {
  }

  /** A thread that holds the mutex and asks again is refused and changes nothing, so the lock that
      "can not fail" of a locker would ask for ever. */
  lemma RelockIsRefused(s: State, t: Tid, sleeps: bool)
    requires Inv(s) && t in s.held
    ensures Lock(s, t, sleeps) == s && Enabled(s, LockCall(t, sleeps))
  {
  }

  /** The lock is not granted in order of arrival: whoever asks between the unlock and the run of the
      thread it woke takes the mutex, and the woken thread queues again, behind the rest. */
  lemma WokenMayLoseTheRace(s: State, h: Tid, u: Tid)
    requires Inv(s) && s.owner == Some(h) && s.q != [] && At(s, u) == Elsewhere && u != h
    ensures
      var t := s.q[0];
      var s1 := Lock(Unlock(s, h), u, true);
      s1.held == {u} && Retries(s1, t) && Continue(s1, t, true).q == Without(s.q, t) + [t]
  {
    assert QueueInv(s, s.q[0]);
  }

  /** A run to it: 2 asked before 3, and 3 has the mutex. */
  lemma LaterIsServedFirst()
    ensures
      var es := [LockCall(1, true), LockCall(2, true), UnlockCall(1), LockCall(3, true)];
      exists s :: Run(INITIAL, es, s) && s.held == {3} && Retries(s, 2)
  {
    var s1 := Lock(INITIAL, 1, true);
    var s2 := Lock(s1, 2, true);
    assert s2.q == [2] && At(s2, 2) == Queued;
    var s3 := Unlock(s2, 1);
    assert s3.owner == None && s3.held == {} && Retries(s3, 2);
    var s4 := Lock(s3, 3, true);
    FirstStep(s3, LockCall(3, true), [], s4);
    FirstStep(s2, UnlockCall(1), [LockCall(3, true)] + [], s4);
    FirstStep(s1, LockCall(2, true), [UnlockCall(1)] + ([LockCall(3, true)] + []), s4);
    FirstStep(INITIAL, LockCall(1, true), [LockCall(2, true)] + ([UnlockCall(1)] + ([LockCall(3, true)] + [])), s4);
    assert [LockCall(1, true)] + ([LockCall(2, true)] + ([UnlockCall(1)] + ([LockCall(3, true)] + [])))
        == [LockCall(1, true), LockCall(2, true), UnlockCall(1), LockCall(3, true)];
  }

  lemma FirstStep(s: State, e: Event, es: seq<Event>, s': State)
    requires Enabled(s, e) && Run(Apply(s, e), es, s')
    ensures Run(s, [e] + es, s')
  {
    assert ([e] + es)[1..] == es;
  }

  // ----- when the order of arrival is kept -----

  /** Between an unlock and the run of `t`, which it woke, somebody else asks, or comes back from an
      interrupt that carries the same error. */
  predicate BargesPast(s: State, e: Event, t: Tid) {
    e.t != t && (e.LockCall? || (e.Runs? && At(s, e.t).Woken? && At(s, e.t).error == ECANCELED))
  }

  /** With the mutex handed to `t`, the next event gives it to somebody else exactly when it barges. */
  lemma GivenAwayIff(es: seq<Event>, s: State, t: Tid, e: Event)
    requires Run(INITIAL, es, s) && s.owner == None && Retries(s, t) && Enabled(s, e)
    ensures (exists u :: u != t && u in Apply(s, e).held) <==> BargesPast(s, e, t)
  {
    RunKeeps(INITIAL, es, s);
    if BargesPast(s, e, t) { assert e.t in Apply(s, e).held; }
  }

  /** Those who wait, in the order in which they came: whoever unlock has woken, then the queue. */
  ghost function Line(s: State): seq<Tid> {
    if h :| Retries(s, h) then [h] + s.q else s.q
  }

  /** No event barges past one that has been handed the mutex. */
  ghost predicate InTurn(s: State, e: Event) {
    forall t :: s.owner == None && Retries(s, t) ==> !BargesPast(s, e, t)
  }

  /** Whoever the event gives the mutex to is the first of those who wait. */
  ghost predicate ServesFirst(s: State, e: Event)
    requires Enabled(s, e)
  {
    forall u :: u in Apply(s, e).held && u !in s.held && Line(s) != [] ==> u == Line(s)[0]
  }

  /** Nobody is handed a mutex that is not free, and no two are. */
  ghost predicate TurnInv(s: State, t: Tid, u: Tid) {
    Retries(s, t) ==> s.owner == None && (Retries(s, u) ==> u == t)
  }

  ghost predicate LineInv(s: State) {
    && (forall t, u :: TurnInv(s, t, u))
    && (forall i, j :: 0 <= i < j < |s.q| ==> s.q[i] != s.q[j])
  }

  lemma LineIs(s: State, h: Tid)
    requires LineInv(s) && Retries(s, h)
    ensures Line(s) == [h] + s.q
  {
    var l := Line(s);
    assert exists t :: Retries(s, t) && l == [t] + s.q;
    assert forall t :: Retries(s, t) ==> TurnInv(s, h, t);
  }

  /** A step serves the first of the line exactly when it does not barge. */
  lemma ServesFirstIff(s: State, e: Event)
    requires Inv(s) && LineInv(s) && Enabled(s, e)
    ensures InTurn(s, e) <==> ServesFirst(s, e)
  {
    if t :| s.owner == None && Retries(s, t) {
      LineIs(s, t);
      if BargesPast(s, e, t) {
        assert e.t in Apply(s, e).held && e.t !in s.held;
      } else {
        forall u | Retries(s, u) ensures u == t { assert TurnInv(s, t, u); }
      }
    } else {
      assert InTurn(s, e);
      if s.owner == None { assert Line(s) == s.q == []; }
    }
  }

  /** In turn, the line gains whoever joins it at its end, and loses one whose wait ends, or the first of
      it, who has the mutex then; nobody else changes places. */
  lemma LineMoves(s: State, e: Event)
    requires Inv(s) && LineInv(s) && Enabled(s, e) && InTurn(s, e)
    ensures LineInv(Apply(s, e))
    ensures
      var s', line, next := Apply(s, e), Line(s), Line(Apply(s, e));
      next == line || next == line + [e.t] || next == Without(line, e.t)
      || (line != [] && next == line[1..] && s'.held == {line[0]} && s.held == {})
  {
    match e
    case LockCall(t, sleeps) => AskMoves(s, t, sleeps);
    case Runs(t, sleeps) => ContinueMoves(s, t, sleeps);
    case WaitEnds(t, error) => EndMoves(s, t, error);
    case UnlockCall(t) => UnlockMoves(s, t);
  }

  lemma NobodyHanded(s: State)
    requires forall t :: !Retries(s, t)
    ensures Line(s) == s.q && forall t, u :: TurnInv(s, t, u)
  {
  }

  lemma AskMoves(s: State, t: Tid, sleeps: bool)
    requires Inv(s) && LineInv(s) && At(s, t) == Elsewhere && InTurn(s, LockCall(t, sleeps))
    ensures var s' := Lock(s, t, sleeps); LineInv(s') && (Line(s') == Line(s) || Line(s') == Line(s) + [t])
  {
    var s' := Lock(s, t, sleeps);
    assert QueueInv(s, t);
    forall u ensures !Retries(s, u) {
      assert TurnInv(s, u, u) && (Retries(s, u) && s.owner == None ==> BargesPast(s, LockCall(t, sleeps), u));
    }
    NobodyHanded(s);
    forall u ensures !Retries(s', u) { assert !Retries(s, u); }
    NobodyHanded(s');
  }

  lemma ContinueMoves(s: State, t: Tid, sleeps: bool)
    requires Inv(s) && LineInv(s) && At(s, t).Woken? && InTurn(s, Runs(t, sleeps))
    ensures
      var s', line := Continue(s, t, sleeps), Line(s);
      LineInv(s') &&
      (Line(s') == line || Line(s') == line + [t] ||
        (line != [] && Line(s') == line[1..] && s'.held == {line[0]} && s.held == {}))
  {
    var s' := Continue(s, t, sleeps);
    assert QueueInv(s, t) && TurnInv(s, t, t);
    if Retries(s, t) {
      LineIs(s, t);
      forall u ensures !Retries(s', u) { assert TurnInv(s, t, u); }
      NobodyHanded(s');
    } else if At(s, t).error == ECANCELED {
      forall u ensures !Retries(s, u) {
        assert TurnInv(s, u, u) && (Retries(s, u) && s.owner == None ==> BargesPast(s, Runs(t, sleeps), u));
      }
      NobodyHanded(s);
      forall u ensures !Retries(s', u) { assert !Retries(s, u); }
      NobodyHanded(s');
    } else {
      SameLine(s, s');
    }
  }

  lemma SameLine(s: State, s': State)
    requires LineInv(s) && s'.q == s.q && s'.owner == s.owner && forall u :: Retries(s', u) <==> Retries(s, u)
    ensures LineInv(s') && Line(s') == Line(s)
  {
    forall t, u ensures TurnInv(s', t, u) { assert TurnInv(s, t, u); }
    if h :| Retries(s, h) {
      LineIs(s, h);
      LineIs(s', h);
    }
  }

  lemma EndMoves(s: State, t: Tid, error: int)
    requires Inv(s) && LineInv(s)
    ensures var s' := Wake(s, t, error, false); LineInv(s') && (Line(s') == Line(s) || Line(s') == Without(Line(s), t))
  {
    var s' := Wake(s, t, error, false);
    if At(s, t) == Queued {
      StillDistinct(s.q, t);
      forall u ensures Retries(s', u) <==> Retries(s, u) { }
      assert !Retries(s, t);
      LineWithout(s, s', t);
    }
  }

  lemma LineWithout(s: State, s': State, t: Tid)
    requires LineInv(s) && !Retries(s, t) && s'.q == Without(s.q, t) && s'.owner == s.owner
    requires (forall u :: Retries(s', u) <==> Retries(s, u)) && forall i, j :: 0 <= i < j < |s'.q| ==>
      s'.q[i] != s'.q[j]
    ensures LineInv(s') && Line(s') == Without(Line(s), t)
  {
    forall x, u ensures TurnInv(s', x, u) { assert TurnInv(s, x, u); }
    if h :| Retries(s, h) {
      LineIs(s, h);
      LineIs(s', h);
      assert ([h] + s.q)[1..] == s.q;
    } else {
      NobodyHanded(s);
      NobodyHanded(s');
    }
  }

  lemma StillDistinct(q: seq<Tid>, t: Tid)
    requires forall i, j :: 0 <= i < j < |q| ==> q[i] != q[j]
    ensures var w := Without(q, t); forall i, j :: 0 <= i < j < |w| ==> w[i] != w[j]
  {
    var w := Without(q, t);
    forall i: nat, j: nat | i < j < |w| ensures w[i] != w[j] {
      var a, b := WithoutIsSubsequence(q, t, i, j);
    }
  }

  lemma UnlockMoves(s: State, t: Tid)
    requires Inv(s) && LineInv(s)
    ensures var s' := Unlock(s, t); LineInv(s') && Line(s') == Line(s)
  {
    var s' := Unlock(s, t);
    if s.owner == Some(t) {
      forall u ensures !Retries(s, u) { assert TurnInv(s, u, u); }
      if s.q == [] {
        forall u ensures !Retries(s', u) { assert !Retries(s, u); }
        NobodyHanded(s');
      } else {
        var f := s.q[0];
        assert QueueInv(s, f);
        assert s'.q == s.q[1..];
        forall x, u ensures TurnInv(s', x, u) { assert !Retries(s, x) && !Retries(s, u); }
        LineIs(s', f);
      }
    }
  }

  /** No event of the run barges. */
  ghost predicate AllInTurn(s: State, es: seq<Event>)
    decreases |es|
  {
    es == [] || (Enabled(s, es[0]) && InTurn(s, es[0]) && AllInTurn(Apply(s, es[0]), es[1..]))
  }

  /** Every time the mutex is given to somebody while others wait, it is to the first of them. */
  ghost predicate AllServedFirst(s: State, es: seq<Event>)
    decreases |es|
  {
    es == [] || (Enabled(s, es[0]) && ServesFirst(s, es[0]) && AllServedFirst(Apply(s, es[0]), es[1..]))
  }

  /** The mutex goes to those who wait in the order in which they came exactly when nobody barges in
      between an unlock and the run of the thread it has woken. */
  lemma ArrivalOrderIff(es: seq<Event>)
    ensures AllInTurn(INITIAL, es) <==> AllServedFirst(INITIAL, es)
  {
    OrderIff(INITIAL, es);
  }

  lemma {:induction false} OrderIff(s: State, es: seq<Event>)
    requires Inv(s) && LineInv(s)
    ensures AllInTurn(s, es) <==> AllServedFirst(s, es)
    decreases |es|
  {
    if es == [] {
    } else if Enabled(s, es[0]) {
      ServesFirstIff(s, es[0]);
      if InTurn(s, es[0]) {
        StepKeeps(s, es[0]);
        LineMoves(s, es[0]);
        OrderIff(Apply(s, es[0]), es[1..]);
      }
    }
  }

  // ----- the mutex itself -----

  datatype Outcome = Got | Failed | Waits

  class Lockable {
    var owner: Option<Tid>
    var q: seq<Tid>
    var at: map<Tid, Place>
    ghost var held: set<Tid>

    ghost function View(): State
      reads this
    {
      State(owner, q, at, held)
    }

    constructor ()
      ensures View() == INITIAL && Inv(View())
    {
      owner, q, at, held := None, [], map[], {};
    }

    /** lock() from its loop's head to the end, or to the next wait. */
    method Retry(t: Tid, sleeps: bool) returns (out: Outcome)
      requires Inv(View()) && At(View(), t) != Queued && owner != Some(t)
      modifies this
      ensures View() == Try(old(View()), t, sleeps) && Inv(View())
      ensures out == Got <==> t in held
      ensures out == Got <==> old(owner) == None
      ensures out != Failed
    {
      TryKeeps(View(), t, sleeps);
      if owner != None {
        if sleeps {
          q := q + [t];
          at := at[t := Queued];
        } else {
          at := at[t := Woken(0, false)];
        }
        return Waits;
      }
      owner := Some(t);
      at := at[t := Elsewhere];
      held := held + {t};
      return Got;
    }

    method LockFrom(t: Tid, sleeps: bool) returns (out: Outcome)
      requires Inv(View()) && At(View(), t) == Elsewhere
      modifies this
      ensures View() == Lock(old(View()), t, sleeps) && Inv(View())
      ensures out == Got ==> t !in old(held) && t in held
      ensures out == Failed <==> t in old(held)
    {
      if owner == Some(t) { return Failed; }
      out := Retry(t, sleeps);
    }

    /** lock() after wait(), with the errno it left. */
    method AfterWait(t: Tid, sleeps: bool) returns (out: Outcome)
      requires Inv(View()) && t in at && at[t].Woken?
      modifies this
      ensures View() == Continue(old(View()), t, sleeps) && Inv(View())
      ensures out == Got <==> t in held
      ensures out == Failed <==> old(at)[t].error != ECANCELED
      ensures old(at)[t].error == ECANCELED ==> (out == Got <==> old(owner) == None)
    {
      var error := at[t].error;
      if error != ECANCELED {
        ContinueKeeps(View(), t, sleeps);
        at := at[t := Elsewhere];
        return Failed;
      }
      out := Retry(t, sleeps);
    }

    method ResumeOne()
      requires forall u :: QueueInv(View(), u)
      modifies this
      ensures View() == if old(q) == [] then old(View()) else Wake(old(View()), old(q)[0], ECANCELED, true)
    {
      if q != [] {
        assert QueueInv(View(), q[0]);
        var t := q[0];
        q := Without(q, t);
        at := at[t := Woken(ECANCELED, true)];
      }
    }

    method Release(t: Tid)
      requires Inv(View())
      modifies this
      ensures View() == Unlock(old(View()), t) && Inv(View())
    {
      UnlockKeeps(View(), t);
      if owner != Some(t) { return; }
      owner := None;
      held := held - {t};
      ghost var s1 := View();
      forall u ensures QueueInv(s1, u) { assert QueueInv(old(View()), u); }
      ResumeOne();
    }
  }
}
