/**
 condition_variable::wait(mutex&) over every schedule: it gives the mutex back, waits, and locks
 again, and does not look at what that lock() returns.
 */
module CondVar {
  import opened Common
  import M = Mutex

  type Tid = nat

  /** In wait(): asleep on the condition; READY again with what that wait returned; in the lock(). */
  datatype Stage = Outside | Asleep | Resumed(ret: int) | Locking(ret: int)

  /** `returned` holds what each thread's last wait() returned. */
  datatype State = State(m: M.State, cq: seq<Tid>, stage: map<Tid, Stage>, returned: map<Tid, int>)

  const INITIAL := State(M.INITIAL, [], map[], map[])

  function At(s: State, t: Tid): Stage { if t in s.stage then s.stage[t] else Outside }

  /** 0 for a notify, -1 for a time-out or any other interrupt. */
  function Ret(error: int): int { if error == ECANCELED then 0 else -1 }

  function Begin(s: State, t: Tid): State {
    s.(m := M.Unlock(s.m, t), cq := s.cq + [t], stage := s.stage[t := Asleep])
  }

  function Wake(s: State, t: Tid, error: int): State {
    if !At(s, t).Asleep? then s else s.(cq := Without(s.cq, t), stage := s.stage[t := Resumed(Ret(error))])
  }

  function NotifyOne(s: State): State { if s.cq == [] then s else Wake(s, s.cq[0], ECANCELED) }

  /** lock() is over, well or badly, or goes on waiting; if it is over, so is wait(). */
  function Locked(s: State, t: Tid, m: M.State, ret: int): State {
    if M.At(m, t) == M.Elsewhere then s.(m := m, stage := s.stage[t := Outside], returned := s.returned[t := ret])
    else s.(m := m, stage := s.stage[t := Locking(ret)])
  }

  datatype Event =
    | Plain(e: M.Event)                  // lock and unlock outside of wait(), and the ends of their waits
    | WaitCall(t: Tid)
    | Notify
    | WaitEnds(t: Tid, error: int)
    | LockAgain(t: Tid, sleeps: bool)    // the lock() at the end of wait()
    | Runs(t: Tid, sleeps: bool)         // and it goes on

  ghost predicate Enabled(s: State, e: Event) {
    match e
    case Plain(e) => M.Enabled(s.m, e) && (e.WaitEnds? || At(s, e.t) == Outside)
    case WaitCall(t) => At(s, t) == Outside && M.At(s.m, t) == M.Elsewhere
    case Notify => true
    case WaitEnds(_, _) => true
    case LockAgain(t, _) => At(s, t).Resumed? && M.At(s.m, t) == M.Elsewhere
    case Runs(t, _) => At(s, t).Locking? && M.At(s.m, t).Woken?
  }

  function Apply(s: State, e: Event): State
    requires Enabled(s, e)
  {
    match e
    case Plain(e) => s.(m := M.Apply(s.m, e))
    case WaitCall(t) => Begin(s, t)
    case Notify => NotifyOne(s)
    case WaitEnds(t, error) => Wake(s, t, error)
    case LockAgain(t, sleeps) => Locked(s, t, M.Lock(s.m, t, sleeps), At(s, t).ret)
    case Runs(t, sleeps) => Locked(s, t, M.Continue(s.m, t, sleeps), At(s, t).ret)
  }

  ghost predicate Run(s: State, es: seq<Event>, s': State)
    decreases |es|
  {
    if es == [] then s == s' else Enabled(s, es[0]) && Run(Apply(s, es[0]), es[1..], s')
  }

  /** Only a thread outside, or in its last lock(), is in the mutex's queue; none holds it before. */
  ghost predicate StageInv(s: State, t: Tid) {
    && (At(s, t).Asleep? || At(s, t).Resumed? ==> M.At(s.m, t) == M.Elsewhere && t !in s.m.held)
    && (At(s, t).Locking? ==> M.At(s.m, t) != M.Elsewhere)
    && (t in s.cq <==> At(s, t).Asleep?)
  }

  ghost predicate Inv(s: State) { M.Inv(s.m) && forall t :: StageInv(s, t) }

  lemma PlainKeeps(s: State, e: M.Event)
    requires Inv(s) && Enabled(s, Plain(e))
    ensures Inv(Apply(s, Plain(e)))
  {
    M.StepKeeps(s.m, e);
    var s' := Apply(s, Plain(e));
    forall t ensures StageInv(s', t) {
      assert StageInv(s, t);
      assert s.m.q != [] ==> M.QueueInv(s.m, s.m.q[0]);
    }
  }

  lemma BeginKeeps(s: State, t: Tid)
    requires Inv(s) && Enabled(s, WaitCall(t))
    ensures Inv(Begin(s, t))
  {
    M.UnlockKeeps(s.m, t);
    forall u ensures StageInv(Begin(s, t), u) {
      assert StageInv(s, u);
      assert s.m.q != [] ==> M.QueueInv(s.m, s.m.q[0]);
    }
  }

  lemma WakeKeeps(s: State, t: Tid, error: int)
    requires Inv(s)
    ensures Inv(Wake(s, t, error))
  {
    forall u ensures StageInv(Wake(s, t, error), u) { assert StageInv(s, u) && StageInv(s, t); }
  }

  lemma LockedKeeps(s: State, t: Tid, sleeps: bool)
    requires Inv(s) && (Enabled(s, LockAgain(t, sleeps)) || Enabled(s, Runs(t, sleeps)))
    ensures Inv(Apply(s, if At(s, t).Resumed? then LockAgain(t, sleeps) else Runs(t, sleeps)))
  {
    assert StageInv(s, t);
    M.StepKeeps(s.m, if At(s, t).Resumed? then M.LockCall(t, sleeps) else M.Runs(t, sleeps));
    var s' := Apply(s, if At(s, t).Resumed? then LockAgain(t, sleeps) else Runs(t, sleeps));
    forall u ensures StageInv(s', u) { assert StageInv(s, u); }
  }

  lemma StepKeeps(s: State, e: Event)
    requires Inv(s) && Enabled(s, e)
    ensures Inv(Apply(s, e))
  {
    match e
    case Plain(e) => PlainKeeps(s, e);
    case WaitCall(t) => BeginKeeps(s, t);
    case Notify => if s.cq != [] { WakeKeeps(s, s.cq[0], ECANCELED); }
    case WaitEnds(t, error) => WakeKeeps(s, t, error);
    case LockAgain(t, sleeps) => LockedKeeps(s, t, sleeps);
    case Runs(t, sleeps) => LockedKeeps(s, t, sleeps);
  }

  lemma {:induction false} RunKeeps(s: State, es: seq<Event>, s': State)
    requires Inv(s) && Run(s, es, s')
    ensures Inv(s')
    decreases |es|
  {
    if es == [] {
    } else {
      StepKeeps(s, es[0]);
      RunKeeps(Apply(s, es[0]), es[1..], s');
    }
  }

  /** wait(mutex&) comes back in this step. */
  ghost predicate ComesBack(s: State, e: Event, t: Tid) {
    Enabled(s, e) && At(s, t) != Outside && At(Apply(s, e), t) == Outside
  }

  /** It comes back without the mutex exactly when a time-out or an interrupt other than a resume has
      ended the wait in its last lock(); what it returns says nothing of that. */
  lemma ReturnsUnlockedIff(es: seq<Event>, s: State, e: Event, t: Tid)
    requires Run(INITIAL, es, s) && ComesBack(s, e, t)
    ensures t !in Apply(s, e).m.held <==> M.At(s.m, t).Woken? && M.At(s.m, t).error != ECANCELED
    ensures (At(s, t).Resumed? || At(s, t).Locking?) && t in Apply(s, e).returned &&
      Apply(s, e).returned[t] == At(s, t).ret
  {
    assert Inv(INITIAL) by { forall u ensures StageInv(INITIAL, u) { } }
    RunKeeps(INITIAL, es, s);
    assert StageInv(s, t);
    assert M.QueueInv(s.m, t);
  }

  lemma FirstStep(s: State, e: Event, es: seq<Event>, s': State)
    requires Enabled(s, e) && Run(Apply(s, e), es, s')
    ensures Run(s, [e] + es, s')
  {
    assert ([e] + es)[1..] == es;
  }

  // 1 holds the mutex and waits on the condition; 2 takes the mutex; 1 is notified and locks again.
  const ASK_1 := Apply(INITIAL, Plain(M.LockCall(1, true)))
  const ASK_2 := Begin(ASK_1, 1)
  const ASK_3 := ASK_2.(m := M.Lock(ASK_2.m, 2, true))
  const ASK_4 := NotifyOne(ASK_3)
  const ASK_5 := Locked(ASK_4, 1, M.Lock(ASK_4.m, 1, true), 0)

  lemma AsksAgain()
    ensures ASK_3.cq == [1] && At(ASK_3, 1) == Asleep
    ensures ASK_3.m == M.State(Some(2), [], map[1 := M.Elsewhere, 2 := M.Elsewhere], {2})
    ensures ASK_5.m == M.State(Some(2), [1], map[1 := M.Queued, 2 := M.Elsewhere], {2}) && At(ASK_5, 1) == Locking(0)
  {
    assert ASK_1.m == M.State(Some(1), [], map[1 := M.Elsewhere], {1});
    assert ASK_2.m == M.State(None, [], map[1 := M.Elsewhere], {});
    assert ASK_3.m.held == {2};
    assert ASK_4.stage[1] == Resumed(0);
    assert [] + [1] == [1];
  }

  lemma AskRuns(es: seq<Event>, s: State)
    requires Run(ASK_5, es, s)
    ensures exists more :: Run(INITIAL, more, s)
  {
    hide Run;
    AsksAgain();
    FirstStep(ASK_4, LockAgain(1, true), es, s);
    var es1 := [LockAgain(1, true)] + es;
    FirstStep(ASK_3, Notify, es1, s);
    FirstStep(ASK_2, Plain(M.LockCall(2, true)), [Notify] + es1, s);
    var es2 := [Plain(M.LockCall(2, true))] + ([Notify] + es1);
    FirstStep(ASK_1, WaitCall(1), es2, s);
    FirstStep(INITIAL, Plain(M.LockCall(1, true)), [WaitCall(1)] + es2, s);
  }

  /** A run to it: notified, thread 1 is interrupted in its lock(), and wait() returns 0 while thread
      2 holds the mutex. */
  lemma WaitLosesTheMutex(error: int)
    requires error != ECANCELED
    ensures exists es, s ::
      Run(INITIAL, es, s) && 1 in s.returned && s.returned[1] == 0 && At(s, 1) == Outside && s.m.held == {2}
  {
    AsksAgain();
    var a := ASK_5.(m := M.Wake(ASK_5.m, 1, error, false));
    var s := Locked(a, 1, M.Continue(a.m, 1, true), 0);
    assert M.At(a.m, 1) == M.Woken(error, false);
    FirstStep(a, Runs(1, true), [], s);
    FirstStep(ASK_5, Plain(M.WaitEnds(1, error)), [Runs(1, true)] + [], s);
    AskRuns([Plain(M.WaitEnds(1, error))] + ([Runs(1, true)] + []), s);
  }
}
