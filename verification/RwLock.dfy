/**
 The reader-writer lock over every schedule.  lock() does not look at the state again when its wait is
 over, so it matters who is on the way in when somebody else is let in.
 */
module RwLock {
  import opened Common

  type Tid = nat

  datatype Mode = Read | Write

  /** Where a thread is in lock(): elsewhere, asleep in the queue, or READY again with the error that
      ended its wait (0 when it timed out). */
  datatype Place = Elsewhere | Queued(mode: Mode) | Woken(mode: Mode, error: int)

  /** `count` is the field state; `readers` and `writers` count the successful calls of lock() that are
      not yet undone. */
  datatype State = State(count: int, q: seq<Tid>, at: map<Tid, Place>, readers: nat, writers: nat)

  const INITIAL := State(0, [], map[], 0, 0)

  function At(s: State, t: Tid): Place { if t in s.at then s.at[t] else Elsewhere }

  function Granted(s: State, t: Tid, m: Mode): State {
    var s1 := s.(at := s.at[t := Elsewhere]);
    if m == Read then s1.(count := s.count + 1, readers := s.readers + 1)
    else s1.(count := s.count - 1, writers := s.writers + 1)
  }

  predicate Blocked(s: State, m: Mode) { s.q != [] || (if m == Read then s.count < 0 else s.count != 0) }

  function Lock(s: State, t: Tid, m: Mode): State {
    if Blocked(s, m) then s.(q := s.q + [t], at := s.at[t := Queued(m)]) else Granted(s, t, m)
  }

  /** The wait of `t` ends; a thread that is READY already is left alone. */
  function Wake(s: State, t: Tid, error: int): State {
    if At(s, t).Queued? then s.(q := Without(s.q, t), at := s.at[t := Woken(At(s, t).mode, error)]) else s
  }

  /** A woken thread runs: after ECANCELED it has the lock, whatever the state is now. */
  function Continue(s: State, t: Tid): State
    requires At(s, t).Woken?
  {
    if At(s, t).error == ECANCELED then Granted(s, t, At(s, t).mode) else s.(at := s.at[t := Elsewhere])
  }

  predicate ReaderInFront(s: State) { s.q != [] && At(s, s.q[0]) == Queued(Read) }

  /** unlock's loop: every reader in front of the queue. */
  function WakeReaders(s: State): State
    decreases |s.q|
  {
    if ReaderInFront(s) then WakeReaders(Wake(s, s.q[0], ECANCELED)) else s
  }

  /** unlock() up to the test for waiters. */
  function Given(s: State, m: Mode): State
    requires if m == Read then s.readers > 0 else s.writers > 0
  {
    var s1 := s.(count := if s.count > 0 then s.count - 1 else s.count + 1);
    if m == Read then s1.(readers := s.readers - 1) else s1.(writers := s.writers - 1)
  }

  function Handed(s: State): State {
    if s.count != 0 || s.q == [] then s
    else if At(s, s.q[0]) == Queued(Write) then Wake(s, s.q[0], ECANCELED)
    else WakeReaders(s)
  }

  datatype Event =
    | LockCall(t: Tid, m: Mode)
    | Runs(t: Tid)
    | WaitEnds(t: Tid, error: int)   // a time-out (0), or thread_interrupt with any error
    | UnlockCall(m: Mode)            // by a holder of that kind

  ghost predicate Enabled(s: State, e: Event) {
    match e
    case LockCall(t, _) => At(s, t) == Elsewhere
    case Runs(t) => At(s, t).Woken?
    case WaitEnds(_, _) => true
    case UnlockCall(m) => if m == Read then s.readers > 0 else s.writers > 0
  }

  function Apply(s: State, e: Event): State
    requires Enabled(s, e)
  {
    match e
    case LockCall(t, m) => Lock(s, t, m)
    case Runs(t) => Continue(s, t)
    case WaitEnds(t, error) => Wake(s, t, error)
    case UnlockCall(m) => Handed(Given(s, m))
  }

  ghost predicate Run(s: State, es: seq<Event>, s': State)
    decreases |es|
  {
    if es == [] then s == s' else Enabled(s, es[0]) && Run(Apply(s, es[0]), es[1..], s')
  }

  // ----- what has to be asked for -----

  /** READY, and about to have the lock. */
  predicate GoesIn(s: State, t: Tid) { At(s, t).Woken? && At(s, t).error == ECANCELED }

  /** One more of that kind may be let in. */
  ghost predicate Fits(s: State, m: Mode) {
    if m == Read then s.count >= 0 && forall t :: GoesIn(s, t) ==> At(s, t).mode == Read
    else s.count == 0 && forall t :: !GoesIn(s, t)
  }

  /** Whoever is let in, or sent on its way, fits. */
  ghost predicate Careful(s: State, e: Event)
    requires Enabled(s, e)
  {
    match e
    case LockCall(_, m) => !Blocked(s, m) ==> Fits(s, m)
    case Runs(_) => true
    case WaitEnds(t, error) => At(s, t).Queued? && error == ECANCELED ==> Fits(s, At(s, t).mode)
    case UnlockCall(m) =>
      var s1 := Given(s, m);
      s1.count == 0 && s1.q != [] && At(s1, s1.q[0]) == Queued(Write) ==> Fits(s1, Write)
  }

  ghost predicate CarefulRun(s: State, es: seq<Event>, s': State)
    decreases |es|
  {
    if es == [] then s == s'
    else Enabled(s, es[0]) && Careful(s, es[0]) && CarefulRun(Apply(s, es[0]), es[1..], s')
  }

  /** One writer and nobody else, or any number of readers. */
  predicate Exclusive(s: State) { s.writers == 0 || (s.writers == 1 && s.readers == 0) }

  ghost predicate StaysExclusive(s: State) { forall es, s' :: CarefulRun(s, es, s') ==> Exclusive(s') }

  // ----- the invariant -----

  ghost predicate QueueInv(s: State, t: Tid) { t in s.q <==> At(s, t).Queued? }

  /** Who is on its way in fits those who are in, and the others on their way. */
  ghost predicate WayInv(s: State, t: Tid, u: Tid) {
    GoesIn(s, t) ==>
      && s.writers == 0
      && (At(s, t).mode == Write ==> s.readers == 0 && (GoesIn(s, u) ==> u == t))
  }

  ghost predicate Claimed(s: State) { s.count == 0 && s.q != [] ==> exists t :: GoesIn(s, t) }

  ghost predicate Inv(s: State) {
    && Exclusive(s) && s.count == s.readers - s.writers && Claimed(s)
    && (forall t :: QueueInv(s, t)) && (forall t, u :: WayInv(s, t, u))
  }

  lemma LockKeeps(s: State, t: Tid, m: Mode)
    requires Inv(s) && At(s, t) == Elsewhere && (!Blocked(s, m) ==> Fits(s, m))
    ensures Inv(Lock(s, t, m))
  {
    var s' := Lock(s, t, m);
    forall u ensures QueueInv(s', u) { assert QueueInv(s, u); }
    forall u, v ensures WayInv(s', u, v) {
      assert WayInv(s, u, v) && !GoesIn(s', t);
      assert GoesIn(s', u) ==> GoesIn(s, u);
      assert GoesIn(s', v) ==> GoesIn(s, v);
    }
    if s.count == 0 && s.q != [] {
      var g :| GoesIn(s, g);
      assert GoesIn(s', g);
    }
  }

  lemma ContinueKeeps(s: State, t: Tid)
    requires Inv(s) && At(s, t).Woken?
    ensures Inv(Continue(s, t))
  {
    var s' := Continue(s, t);
    assert WayInv(s, t, t);
    forall u ensures QueueInv(s', u) { assert QueueInv(s, u); }
    forall u, v ensures WayInv(s', u, v) { assert WayInv(s, u, v) && WayInv(s, u, t) && WayInv(s, t, u); }
    if s.count == 0 && s.q != [] && !GoesIn(s, t) {
      var g :| GoesIn(s, g);
      assert GoesIn(s', g);
    }
  }

  /** A wait that ends, but for the one who is in front when the lock is free. */
  lemma WakeKeeps(s: State, t: Tid, error: int)
    requires Inv(s) && (At(s, t).Queued? && error == ECANCELED ==> Fits(s, At(s, t).mode))
    ensures Inv(Wake(s, t, error))
  {
    var s' := Wake(s, t, error);
    WakeParts(s, t, error);
    if s.count == 0 && s.q != [] {
      var g :| GoesIn(s, g);
      assert QueueInv(s, g);
      assert GoesIn(s', g);
    }
  }

  lemma WakeParts(s: State, t: Tid, error: int)
    requires Exclusive(s) && s.count == s.readers - s.writers
    requires (forall u :: QueueInv(s, u)) && (forall u, v :: WayInv(s, u, v))
    requires At(s, t).Queued? && error == ECANCELED ==> Fits(s, At(s, t).mode)
    ensures var s' := Wake(s, t, error); (forall u :: QueueInv(s', u)) && (forall u, v :: WayInv(s', u, v))
  {
    var s' := Wake(s, t, error);
    forall u ensures QueueInv(s', u) { assert QueueInv(s, u) && QueueInv(s, t); }
    forall u, v ensures WayInv(s', u, v) {
      assert WayInv(s, u, v) && WayInv(s, u, t);
      assert GoesIn(s', u) && u != t ==> GoesIn(s, u);
      assert GoesIn(s', v) && v != t ==> GoesIn(s, v);
    }
  }

  lemma {:induction false} WakeReadersParts(s: State)
    requires Exclusive(s) && s.count == s.readers - s.writers && Fits(s, Read)
    requires (forall u :: QueueInv(s, u)) && (forall u, v :: WayInv(s, u, v))
    ensures
      var s' := WakeReaders(s);
      && (forall u :: QueueInv(s', u)) && (forall u, v :: WayInv(s', u, v))
      && s' == s.(q := s'.q, at := s'.at) && (forall t :: GoesIn(s, t) ==> GoesIn(s', t))
      && (ReaderInFront(s) ==> GoesIn(s', s.q[0]))
    decreases |s.q|
  {
    if !ReaderInFront(s) {
    } else {
      var s1 := Wake(s, s.q[0], ECANCELED);
      WakeParts(s, s.q[0], ECANCELED);
      assert GoesIn(s1, s.q[0]);
      forall t | GoesIn(s1, t) ensures At(s1, t).mode == Read { assert t == s.q[0] || GoesIn(s, t); }
      WakeReadersParts(s1);
    }
  }

  lemma UnlockKeeps(s: State, m: Mode)
    requires Inv(s) && Enabled(s, UnlockCall(m)) && Careful(s, UnlockCall(m))
    ensures Inv(Apply(s, UnlockCall(m))) && s.count != 0
  {
    var s1 := Given(s, m);
    forall t ensures QueueInv(s1, t) { assert QueueInv(s, t); }
    forall t, u ensures WayInv(s1, t, u) { assert WayInv(s, t, u); }
    if s1.count == 0 && s1.q != [] {
      var f := s1.q[0];
      assert QueueInv(s1, f);
      if At(s1, f) == Queued(Write) {
        WakeParts(s1, f, ECANCELED);
        assert GoesIn(Handed(s1), f);
      } else {
        forall t | GoesIn(s1, t) ensures At(s1, t).mode == Read { assert GoesIn(s, t) && WayInv(s, t, t); }
        WakeReadersParts(s1);
        assert GoesIn(Handed(s1), f);
      }
    }
  }

  /** Every careful step keeps the invariant; unlock's assertion holds. */
  lemma StepKeeps(s: State, e: Event)
    requires Inv(s) && Enabled(s, e) && Careful(s, e)
    ensures Inv(Apply(s, e)) && (e.UnlockCall? ==> s.count != 0)
  {
    match e
    case LockCall(t, m) => LockKeeps(s, t, m);
    case Runs(t) => ContinueKeeps(s, t);
    case WaitEnds(t, error) => WakeKeeps(s, t, error);
    case UnlockCall(m) => UnlockKeeps(s, m);
  }

  lemma {:induction false} RunKeeps(s: State, es: seq<Event>, s': State)
    requires Inv(s) && CarefulRun(s, es, s')
    ensures Inv(s')
    decreases |es|
  {
    if es == [] {
    } else {
      StepKeeps(s, es[0]);
      RunKeeps(Apply(s, es[0]), es[1..], s');
    }
  }

  lemma InitialInv()
    ensures Inv(INITIAL)
  {
  }

  lemma InvMeans(s: State)
    requires Inv(s)
    ensures Exclusive(s) && s.count == s.readers - s.writers
    ensures s.count == 0 && s.q != [] ==> exists t :: GoesIn(s, t) && Enabled(s, Runs(t)) && Continue(s, t).count != 0
  {
    if s.count == 0 && s.q != [] {
      var t :| GoesIn(s, t);
      assert Enabled(s, Runs(t)) && Continue(s, t).count != 0;
    }
  }

  /** Over careful runs: one writer or readers, the state counts them, and a free lock with a queue is on
      its way to somebody who will have it. */
  lemma ReadersOrWriter(es: seq<Event>, s: State)
    requires CarefulRun(INITIAL, es, s)
    ensures Exclusive(s) && s.count == s.readers - s.writers
    ensures s.count == 0 && s.q != [] ==> exists t :: GoesIn(s, t) && Enabled(s, Runs(t)) && Continue(s, t).count != 0
  {
    hide Inv, Exclusive, CarefulRun, Continue, GoesIn;
    InitialInv();
    RunKeeps(INITIAL, es, s);
    InvMeans(s);
  }

  // ----- and nothing less will do -----

  lemma FirstCareful(s: State, e: Event, es: seq<Event>, s': State)
    requires Enabled(s, e) && Careful(s, e) && CarefulRun(Apply(s, e), es, s')
    ensures CarefulRun(s, [e] + es, s')
  {
    assert ([e] + es)[1..] == es;
  }

  /** Two that do not go together. */
  predicate Clash(m: Mode, n: Mode) { m == Write || n == Write }

  /** One of them is in, the other on its way. */
  lemma InAndComing(s: State, t: Tid)
    requires GoesIn(s, t) && (s.writers > 0 || (s.readers > 0 && At(s, t).mode == Write))
    ensures !StaysExclusive(s)
  {
    var s' := Continue(s, t);
    FirstCareful(s, Runs(t), [], s');
    assert !Exclusive(s');
  }

  /** Both are on their way. */
  lemma BothComing(s: State, t: Tid, u: Tid)
    requires GoesIn(s, t) && GoesIn(s, u) && t != u && Clash(At(s, t).mode, At(s, u).mode)
    ensures !StaysExclusive(s)
  {
    var s1 := Continue(s, t);
    var s' := Continue(s1, u);
    FirstCareful(s1, Runs(u), [], s');
    FirstCareful(s, Runs(t), [Runs(u)] + [], s');
    assert !Exclusive(s');
  }

  lemma CarelessLock(s: State, t: Tid, m: Mode)
    requires Inv(s) && At(s, t) == Elsewhere && !Blocked(s, m) && !Fits(s, m)
    ensures !StaysExclusive(Lock(s, t, m))
  {
    var g :| GoesIn(s, g) && (m == Read ==> At(s, g).mode == Write);
    InAndComing(Lock(s, t, m), g);
  }

  lemma CarelessWake(s: State, t: Tid)
    requires Inv(s) && At(s, t).Queued? && !Fits(s, At(s, t).mode)
    ensures !StaysExclusive(Wake(s, t, ECANCELED))
  {
    var m, s' := At(s, t).mode, Wake(s, t, ECANCELED);
    if (if m == Read then s.count < 0 else s.count != 0) {
      InAndComing(s', t);
    } else {
      var g :| GoesIn(s, g) && (m == Read ==> At(s, g).mode == Write);
      BothComing(s', g, t);
    }
  }

  lemma CarelessUnlock(s: State, m: Mode)
    requires Inv(s) && Enabled(s, UnlockCall(m)) && !Careful(s, UnlockCall(m))
    ensures !StaysExclusive(Apply(s, UnlockCall(m)))
  {
    var s1 := Given(s, m);
    var g :| GoesIn(s1, g);
    BothComing(Handed(s1), g, s1.q[0]);
  }

  lemma Careless(s: State, e: Event)
    requires Inv(s) && Enabled(s, e) && !Careful(s, e)
    ensures !StaysExclusive(Apply(s, e))
  {
    hide Inv, StaysExclusive, Lock, Wake, Handed, Given, Fits;
    match e
    case LockCall(t, m) => CarelessLock(s, t, m);
    case WaitEnds(t, error) => CarelessWake(s, t);
    case UnlockCall(m) => CarelessUnlock(s, m);
  }

  lemma InvStays(s: State)
    requires Inv(s)
    ensures StaysExclusive(s)
  {
    hide Inv;
    forall es, s' | CarefulRun(s, es, s') ensures Exclusive(s') {
      RunKeeps(s, es, s');
      InvMeans(s');
    }
  }

  /** A step is safe exactly when whoever it lets in, or sends on its way, goes with those who are in or
      on their way: otherwise some careful continuation has a writer and somebody else in the lock. */
  lemma CarefulIsExact(es: seq<Event>, s: State, e: Event)
    requires CarefulRun(INITIAL, es, s) && Enabled(s, e)
    ensures Careful(s, e) <==> StaysExclusive(Apply(s, e))
  {
    hide Inv, StaysExclusive, CarefulRun, Careful, Apply, Enabled;
    InitialInv();
    RunKeeps(INITIAL, es, s);
    if Careful(s, e) {
      StepKeeps(s, e);
      InvStays(Apply(s, e));
    } else {
      Careless(s, e);
    }
  }

  // ----- a run that goes wrong -----

  lemma FirstStep(s: State, e: Event, es: seq<Event>, s': State)
    requires Enabled(s, e) && Run(Apply(s, e), es, s')
    ensures Run(s, [e] + es, s')
  {
    assert ([e] + es)[1..] == es;
  }

  // 0 writes; 1 and 2, to read, and 3, to write, queue behind it.
  const ASKED := State(-1, [1, 2, 3], map[0 := Elsewhere, 1 := Queued(Read), 2 := Queued(Read),
                                          3 := Queued(Write)], 0, 1)

  /** 0 is done, and both readers are on their way. */
  const OPENED := State(0, [3], map[0 := Elsewhere, 1 := Woken(Read, ECANCELED), 2 := Woken(Read, ECANCELED),
                                   3 := Queued(Write)], 0, 0)

  /** 1 has been in and out again, and 2 has not run yet. */
  const PASSED := State(0, [], map[0 := Elsewhere, 1 := Elsewhere, 2 := Woken(Read, ECANCELED),
                                  3 := Woken(Write, ECANCELED)], 0, 0)

  // The states on the way.
  const ASK_1 := State(-1, [], map[0 := Elsewhere], 0, 1)
  const ASK_2 := State(-1, [1], map[0 := Elsewhere, 1 := Queued(Read)], 0, 1)
  const ASK_3 := State(-1, [1, 2], map[0 := Elsewhere, 1 := Queued(Read), 2 := Queued(Read)], 0, 1)

  lemma AsksInTurn()
    ensures Lock(INITIAL, 0, Write) == ASK_1 && Lock(ASK_1, 1, Read) == ASK_2
    ensures Lock(ASK_2, 2, Read) == ASK_3 && Lock(ASK_3, 3, Write) == ASKED
    ensures At(INITIAL, 0) == Elsewhere && At(ASK_1, 1) == Elsewhere && At(ASK_2, 2) == Elsewhere &&
      At(ASK_3, 3) == Elsewhere
  {
  }

  lemma AskRuns(es: seq<Event>, s: State)
    requires Run(ASKED, es, s)
    ensures Run(INITIAL, [LockCall(0, Write), LockCall(1, Read), LockCall(2, Read)] + ([LockCall(3, Write)] + es), s)
  {
    AsksInTurn();
    hide Run, Lock, At;
    FirstStep(ASK_3, LockCall(3, Write), es, s);
    ThreeSteps(INITIAL, LockCall(0, Write), ASK_1, LockCall(1, Read), ASK_2, LockCall(2, Read), ASK_3,
      [LockCall(3, Write)] + es, s);
  }

  lemma OpensForReaders()
    ensures Apply(ASKED, UnlockCall(Write)) == OPENED
  {
    var s1 := Given(ASKED, Write);
    var s2 := Wake(s1, 1, ECANCELED);
    assert s1.q == [1] + [2, 3] && s2.q == [2, 3];
    var s3 := Wake(s2, 2, ECANCELED);
    assert s2.q == [2] + [3] && s3.q == [3];
    assert WakeReaders(s3) == s3 && WakeReaders(s2) == s3;
  }

  lemma FirstPasses(s: State)
    requires s == Continue(OPENED, 1)
    ensures Enabled(s, UnlockCall(Read)) && Apply(s, UnlockCall(Read)) == PASSED
  {
    assert s.count == 1 && s.q == [3] && At(s, 3) == Queued(Write);
    assert Without([3], 3) == [];
    assert Given(s, Read).at == OPENED.at[1 := Elsewhere];
  }

  lemma OpenRuns(es: seq<Event>, s: State)
    requires Run(PASSED, es, s)
    ensures Run(ASKED, [UnlockCall(Write), Runs(1), UnlockCall(Read)] + es, s)
  {
    OpensForReaders();
    var a := Apply(OPENED, Runs(1));
    FirstPasses(a);
    ThreeSteps(ASKED, UnlockCall(Write), OPENED, Runs(1), a, UnlockCall(Read), PASSED, es, s);
  }

  lemma ThreeSteps(s: State, e: Event, s1: State, e1: Event, s2: State, e2: Event, s3: State, es: seq<Event>, s': State)
    requires Enabled(s, e) && Apply(s, e) == s1 && Enabled(s1, e1) && Apply(s1, e1) == s2
    requires Enabled(s2, e2) && Apply(s2, e2) == s3 && Run(s3, es, s')
    ensures Run(s, [e, e1, e2] + es, s')
  {
    hide Run, Apply, Enabled;
    FirstStep(s2, e2, es, s');
    FirstStep(s1, e1, [e2] + es, s');
    FirstStep(s, e, [e1] + ([e2] + es), s');
    assert [e] + ([e1] + ([e2] + es)) == [e, e1, e2] + es;
  }

  /** Nobody barges in, and nobody is interrupted.  The first reader has come and gone before the second
      has run, and wakes the writer behind them; the second reader and the writer are in together, and
      the state is that of a free lock, so that unlock's assertion fails. */
  lemma TurnsBreakExclusion()
    ensures
      var asks := [LockCall(0, Write), LockCall(1, Read), LockCall(2, Read)];
      var turns := [UnlockCall(Write), Runs(1), UnlockCall(Read)] + [Runs(2), Runs(3)];
      exists s :: Run(INITIAL, asks + ([LockCall(3, Write)] + turns), s) && s.readers == 1 && s.writers == 1 &&
        s.count == 0
  {
    var a := Continue(PASSED, 2);
    var s := Continue(a, 3);
    BothRun(PASSED, a, s);
    hide Run;
    OpenRuns([Runs(2), Runs(3)], s);
    AskRuns([UnlockCall(Write), Runs(1), UnlockCall(Read)] + [Runs(2), Runs(3)], s);
  }

  lemma BothRun(s: State, a: State, s': State)
    requires At(s, 2).Woken? && a == Continue(s, 2) && At(a, 3).Woken? && s' == Continue(a, 3)
    ensures Run(s, [Runs(2), Runs(3)], s')
  {
    FirstStep(a, Runs(3), [], s');
    FirstStep(s, Runs(2), [Runs(3)] + [], s');
    assert [Runs(2)] + ([Runs(3)] + []) == [Runs(2), Runs(3)];
  }

  // ----- the lock itself -----

  class Lockable {
    var state: int
    var q: seq<Tid>
    var at: map<Tid, Place>   // with the mode that lock() leaves in the thread's retval
    ghost var readers: nat
    ghost var writers: nat

    ghost function View(): State
      reads this
    {
      State(state, q, at, readers, writers)
    }

    constructor ()
      ensures View() == INITIAL && Inv(View())
    {
      state, q, at, readers, writers := 0, [], map[], 0, 0;
    }

    method Enter(t: Tid, m: Mode)
      modifies this
      ensures View() == Granted(old(View()), t, m)
    {
      at := at[t := Elsewhere];
      if m == Read {
        state, readers := state + 1, readers + 1;
      } else {
        state, writers := state - 1, writers + 1;
      }
    }

    /** lock() up to success or to the wait. */
    method LockFrom(t: Tid, m: Mode) returns (got: bool)
      requires At(View(), t) == Elsewhere
      modifies this
      ensures View() == Lock(old(View()), t, m) && got == !Blocked(old(View()), m)
      ensures got ==> (if m == Read then readers == old(readers) + 1 else writers == old(writers) + 1)
      ensures Inv(old(View())) && (got ==> Fits(old(View()), m)) ==> Inv(View())
    {
      if Inv(View()) && (!Blocked(View(), m) ==> Fits(View(), m)) { LockKeeps(View(), t, m); }
      var waits := if m == Read then state < 0 else state != 0;
      if q != [] || waits {
        q := q + [t];
        at := at[t := Queued(m)];
        return false;
      }
      Enter(t, m);
      return true;
    }

    /** lock() after wait(), with the errno it left. */
    method AfterWait(t: Tid) returns (got: bool)
      requires t in at && at[t].Woken?
      modifies this
      ensures View() == Continue(old(View()), t) && got == (old(at)[t].error == ECANCELED)
      ensures Inv(old(View())) ==> Inv(View()) && (got ==> state != 0)
    {
      if Inv(View()) { ContinueKeeps(View(), t); }
      var p := at[t];
      if p.error != ECANCELED {
        at := at[t := Elsewhere];
        return false;
      }
      Enter(t, p.mode);
      return true;
    }

    method ResumeOne()
      requires q != [] && At(View(), q[0]).Queued?
      modifies this
      ensures View() == Wake(old(View()), old(q)[0], ECANCELED) && |q| < |old(q)|
    {
      var t := q[0];
      q := Without(q, t);
      at := at[t := Woken(at[t].mode, ECANCELED)];
    }

    /** unlock(): its assertion holds as long as everybody has been careful, and then nobody is left in
        the queue of a free lock with no one on the way. */
    method Release(m: Mode)
      requires Enabled(View(), UnlockCall(m)) && forall t :: QueueInv(View(), t)
      modifies this
      ensures View() == Handed(Given(old(View()), m))
      ensures Inv(old(View())) && Careful(old(View()), UnlockCall(m)) ==> old(state) != 0 && Inv(View())
    {
      hide Inv, Careful, WakeReaders;
      if Inv(View()) && Careful(View(), UnlockCall(m)) { UnlockKeeps(View(), m); }
      state := if state > 0 then state - 1 else state + 1;
      if m == Read { readers := readers - 1; } else { writers := writers - 1; }
      ghost var s1 := View();
      forall t ensures QueueInv(s1, t) { assert QueueInv(old(View()), t); }
      if state == 0 && q != [] { HandOver(); }
    }

    /** The waiters in front: one writer, or all the readers. */
    method HandOver()
      requires q != [] && state == 0 && forall t :: QueueInv(View(), t)
      modifies this
      ensures View() == Handed(old(View()))
    {
      assert QueueInv(View(), q[0]);
      if at[q[0]].mode == Write { ResumeOne(); } else { ResumeReaders(); }
    }

    method ResumeReaders()
      requires forall t :: QueueInv(View(), t)
      modifies this
      ensures View() == WakeReaders(old(View()))
    {
      ghost var s1 := View();
      if q != [] { assert QueueInv(View(), q[0]); }
      while q != [] && at[q[0]].mode == Read
        invariant WakeReaders(s1) == WakeReaders(View()) && forall t :: QueueInv(View(), t)
        invariant q != [] ==> q[0] in at && at[q[0]].Queued?
        decreases |q|
      {
        ghost var s := View();
        ResumeOne();
        WakeQueue(s, s.q[0]);
        if q != [] { assert QueueInv(View(), q[0]); }
      }
      assert s1 == old(View()) && !ReaderInFront(View()) && WakeReaders(View()) == View();
    }
  }

  lemma WakeQueue(s: State, t: Tid)
    requires forall u :: QueueInv(s, u)
    ensures forall u :: QueueInv(Wake(s, t, ECANCELED), u)
  {
    forall u ensures QueueInv(Wake(s, t, ECANCELED), u) { assert QueueInv(s, u) && QueueInv(s, t); }
  }
}
