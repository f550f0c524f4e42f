/**
 thread_join over every run: whoever joins is inside the wait of thread_join until it is woken, and
 a thread that ends notifies its condition variable first.  A joiner that is not interrupted finds
 the thread finished, so its run is one of the patient runs that keep the scheduler's invariant.
 */
module SchedJoin {
  import opened Common
  import opened SchedProtocol
  import opened SchedSafety
  import opened SchedTheorems

  /** Inside thread_join for `t`: still in the loop of thread_usleep, or behind the switch. */
  datatype Call = Calling(t: Tid) | Waiting(t: Tid)

  datatype Joins = Joins(s: State, calls: map<Tid, Call>)

  datatype Move =
    | Plain(e: Event)
    | JoinCall(t: Tid)           // thread_join of a thread that has not finished
    | JoinPark
    | JoinReturn                 // the wait is over
    | End                        // the end of thread_stub: notify_all, then the thread leaves

  ghost predicate InJoin(j: Joins, t: Tid) { j.s.run != [] && j.s.run[0] == t && t in j.calls }

  /** notify_all on the condition variable of `t`. */
  function NotifyAll(s: State, t: Tid): State
    decreases |Waiters(s, Cond(t))|
  {
    if Waiters(s, Cond(t)) == [] then s
    else
      var s1 := ResumeOne(s, Cond(t));
      if |Waiters(s1, Cond(t))| < |Waiters(s, Cond(t))| then NotifyAll(s1, t) else s1
  }

  /** What CURRENT may do by itself while it is in thread_join, and who resumes from the condition
      variables of threads. */
  ghost predicate Allowed(j: Joins, e: Event)
    requires j.s.run != []
  {
    match e
    case Resume(_) => true
    case InterruptThread(_, _) => true
    case Tick(_) => true
    case TakeError => true
    case Exit => false
    case Join(t) => !InJoin(j, j.s.run[0]) && t in j.s.th && j.s.th[t].state == DONE
    case ParkOn(q, _) => !InJoin(j, j.s.run[0]) && !(q.Some? && q.value.Cond?)
    case ResumeFront(q) => !InJoin(j, j.s.run[0]) && q.Object?
    case _ => !InJoin(j, j.s.run[0])
  }

  ghost predicate Moves(j: Joins, m: Move, j': Joins)
    requires j.s.run != []
  {
    var c := j.s.run[0];
    match m
    case Plain(e) => Allowed(j, e) && Step(j.s, e, j'.s) && j'.calls == j.calls
    case JoinCall(t) =>
      && c in j.s.th && c !in j.calls && t in j.s.th && j.s.th[t].joinable && j.s.th[t].state != DONE
      && j' == Joins(SetState(j.s, c, WAITING), j.calls[c := Calling(t)])
    case JoinPark =>
      && c in j.calls && j.calls[c].Calling? && Enabled(j.s, ParkOn(Some(Cond(j.calls[c].t)), MAX))
      && j' == Joins(Park(j.s, Some(Cond(j.calls[c].t)), MAX), j.calls[c := Waiting(j.calls[c].t)])
    case JoinReturn =>
      && c in j.s.th && c in j.calls && (j.calls[c].Calling? ==> j.s.th[c].state == READY) && j.calls[c].t in j.s.th
      && j' == Joins(Disposed(j.s, j.calls[c].t), j.calls - {c})
    case End =>
      && c !in j.calls && Enabled(NotifyAll(j.s, c), Exit)
      && j' == Joins(Die(NotifyAll(j.s, c)), j.calls)
  }

  /** One joiner for a thread, and not itself; nobody interrupts a joiner or takes the right to join
      back while it waits; and 2 to the 64 microseconds do not go by. */
  ghost predicate Polite(j: Joins, m: Move)
    requires j.s.run != []
  {
    match m
    case JoinCall(t) => t != j.s.run[0] && Unjoined(j, t)
    case Plain(e) =>
      (match e
       case InterruptThread(t, _) => t !in j.calls
       case Resume(ts) => forall t :: t in ts ==> t !in j.calls
       case EnableJoin(t, flag) => flag || Unjoined(j, t)
       case Join(t) => Unjoined(j, t)
       case _ => true)
    case _ => true
  }

  ghost predicate Unjoined(j: Joins, t: Tid) { forall c :: c in j.calls ==> j.calls[c].t != t }

  ghost predicate PoliteRun(j: Joins, ms: seq<Move>, j': Joins)
    decreases |ms|
  {
    if ms == [] then j == j'
    else j.s.run != [] && Polite(j, ms[0]) && exists m :: Moves(j, ms[0], m) && PoliteRun(m, ms[1..], j')
  }

  // ----- what every polite run keeps -----

  /** A joiner waits on the condition variable of the thread it joins, or that thread has finished. */
  ghost predicate CallInv(j: Joins, c: Tid) {
    c in j.calls ==>
      var t := j.calls[c].t;
      && c in j.s.th && j.s.th[c].state != DONE && (j.s.th[c].waitq.Some? ==> j.s.th[c].waitq == Some(Cond(t)))
      && t in j.s.th && t != c && j.s.th[t].joinable
      && (j.s.th[t].state != DONE ==>
            if j.calls[c].Calling? then j.s.run != [] && j.s.run[0] == c && j.s.th[c].state == WAITING
            else j.s.th[c].waitq == Some(Cond(t)))
  }

  ghost predicate PairInv(j: Joins, c: Tid, d: Tid) {
    c in j.calls && d in j.calls && j.calls[c].t == j.calls[d].t ==> c == d
  }

  ghost predicate CondInv(j: Joins, t: Tid, c: Tid) {
    c in j.s.th && j.s.th[c].waitq == Some(Cond(t)) ==> c in j.calls && j.calls[c] == Waiting(t)
  }

  ghost predicate JoinInv(j: Joins) {
    && Inv(j.s)
    && (forall c :: CallInv(j, c)) && (forall c, d :: PairInv(j, c, d)) && (forall t, c :: CondInv(j, t, c))
  }

  /** A thread that joins, or is joined, goes on as before. */
  ghost predicate Undisturbed(j: Joins, s': State, t: Tid) {
    && (t in j.calls && t in j.s.th ==>
          t in s'.th && s'.th[t].waitq == j.s.th[t].waitq && (s'.th[t].state == DONE <==> j.s.th[t].state == DONE))
    && (!Unjoined(j, t) && t in j.s.th ==>
          t in s'.th && (j.s.th[t].joinable ==> s'.th[t].joinable) &&
            (s'.th[t].state == DONE <==> j.s.th[t].state == DONE))
    && (t in s'.th && s'.th[t].waitq.Some? && s'.th[t].waitq.value.Cond? ==>
      t in j.s.th && s'.th[t].waitq == j.s.th[t].waitq)
  }

  lemma CallsFrame(j: Joins, s': State)
    requires JoinInv(j) && Inv(s') && forall t :: Undisturbed(j, s', t)
    requires j.s.run[0] in j.calls && j.s.run[0] in j.s.th ==>
      s'.run[0] == j.s.run[0] && s'.run[0] in s'.th && s'.th[s'.run[0]].state == j.s.th[s'.run[0]].state
    ensures JoinInv(Joins(s', j.calls))
  {
    var j' := Joins(s', j.calls);
    forall c ensures CallInv(j', c) {
      assert CallInv(j, c) && Undisturbed(j, s', c);
      if c in j.calls {
        assert !Unjoined(j, j.calls[c].t);
        assert Undisturbed(j, s', j.calls[c].t);
      }
    }
    forall c, d ensures PairInv(j', c, d) { assert PairInv(j, c, d); }
    forall t, c ensures CondInv(j', t, c) { assert CondInv(j, t, c) && Undisturbed(j, s', c); }
  }

  lemma AwakeCalls(j: Joins, t: Tid)
    requires JoinInv(j) && Asleep(j.s, t) && t !in j.calls
    ensures JoinInv(Joins(Awake(j.s, t), j.calls))
  {
    AwakeKeeps(j.s, t);
    assert LocalInv(j.s, t, 0, 0, NOWHERE);
    CallsFrame(j, Awake(j.s, t));
  }

  lemma {:induction false} ResumesCalls(j: Joins, ts: seq<Tid>, s': State)
    requires JoinInv(j) && Resumes(j.s, ts, s') && forall t :: t in ts ==> t !in j.calls
    ensures JoinInv(Joins(s', j.calls))
    decreases |ts|
  {
    if ts == [] {
    } else {
      AwakeCalls(j, ts[0]);
      ResumesCalls(Joins(Awake(j.s, ts[0]), j.calls), ts[1..], s');
    }
  }

  /** The fields thread_interrupt writes. */
  lemma InterruptCalls(j: Joins, t: Tid, error: int)
    requires JoinInv(j) && t !in j.calls
    ensures JoinInv(Joins(Interrupt(j.s, t, error), j.calls))
  {
    InterruptKeeps(j.s, t, error);
    assert LocalInv(j.s, t, 0, 0, NOWHERE);
    CallsFrame(j, Interrupt(j.s, t, error));
  }

  lemma FrontCalls(j: Joins, q: Qid)
    requires JoinInv(j) && q.Object?
    ensures JoinInv(Joins(ResumeOne(j.s, q), j.calls))
  {
    if q in j.s.wq && j.s.wq[q] != [] {
      var f := j.s.wq[q][0];
      assert LocalInv(j.s, f, 0, 0, q) && CallInv(j, f);
      InterruptCalls(j, f, ECANCELED);
    }
  }

  lemma JoinDoneCalls(j: Joins, t: Tid)
    requires JoinInv(j) && t in j.s.th && j.s.th[t].state == DONE && Unjoined(j, t)
    ensures JoinInv(Joins(Disposed(j.s, t), j.calls))
  {
    JoinKeeps(j.s, t);
    assert CallInv(j, t) && LocalInv(j.s, t, 0, 0, NOWHERE);
    CallsFrame(j, Disposed(j.s, t));
  }

  lemma PlainCalls(j: Joins, e: Event, s': State)
    requires JoinInv(j) && Allowed(j, e) && Step(j.s, e, s') && Polite(j, Plain(e))
    ensures JoinInv(Joins(s', j.calls))
  {
    match e
    case Resume(ts) => ResumesCalls(j, ts, s');
    case InterruptThread(t, error) => InterruptCalls(j, t, error);
    case ResumeFront(q) => FrontCalls(j, q);
    case Join(t) => JoinDoneCalls(j, t);
    case _ => OwnCalls(j, e, s');
  }

  lemma OwnCalls(j: Joins, e: Event, s': State)
    requires JoinInv(j) && Allowed(j, e) && Step(j.s, e, s') && Polite(j, Plain(e))
    requires e.Create? || e.EnableJoin? || e.SwitchTo? || e.MarkWaiting? || e.ParkOn? || e.TakeError? || e.Tick?
    ensures JoinInv(Joins(s', j.calls))
  {
    StepKeeps(j.s, e, s');
    RunDistinct(j.s);
    forall t ensures Undisturbed(j, s', t) { OwnDisturbs(j, e, s', t); }
    CallsFrame(j, s');
  }

  lemma OwnDisturbs(j: Joins, e: Event, s': State, t: Tid)
    requires JoinInv(j) && Allowed(j, e) && Step(j.s, e, s') && Polite(j, Plain(e))
    requires e.Create? || e.EnableJoin? || e.SwitchTo? || e.MarkWaiting? || e.ParkOn? || e.TakeError? || e.Tick?
    ensures Undisturbed(j, s', t)
  {
    RunDistinct(j.s);
    assert LocalInv(j.s, t, 0, 0, NOWHERE) && CallInv(j, t);
    assert LocalInv(j.s, j.s.run[0], 0, 0, NOWHERE);
  }

  // ----- the moves of a joiner -----

  lemma JoinCallKeeps(j: Joins, t: Tid, j': Joins)
    requires JoinInv(j) && Moves(j, JoinCall(t), j') && Polite(j, JoinCall(t))
    ensures JoinInv(j')
  {
    MarkWaitingKeeps(j.s);
    RunDistinct(j.s);
    var c := j.s.run[0];
    assert LocalInv(j.s, c, 0, 0, NOWHERE);
    forall d ensures CallInv(j', d) { assert CallInv(j, d); }
    forall d, e ensures PairInv(j', d, e) { assert PairInv(j, d, e); }
    forall u, d ensures CondInv(j', u, d) { assert CondInv(j, u, d); }
  }

  lemma JoinParkKeeps(j: Joins, j': Joins)
    requires JoinInv(j) && Moves(j, JoinPark, j')
    ensures JoinInv(j')
  {
    var c := j.s.run[0];
    ParkKeeps(j.s, Some(Cond(j.calls[c].t)), MAX);
    RunDistinct(j.s);
    assert LocalInv(j.s, c, 0, 0, NOWHERE) && LocalInv(j.s, j.s.run[1], 0, 0, NOWHERE);
    forall d ensures CallInv(j', d) { assert CallInv(j, d) && CallInv(j, c); }
    forall d, e ensures PairInv(j', d, e) { assert PairInv(j, d, e); }
    forall u, d ensures CondInv(j', u, d) { assert CondInv(j, u, d); }
  }

  /** The wait of a joiner is over only when the thread it joins has finished. */
  lemma ReturnFindsItDone(j: Joins, j': Joins)
    requires JoinInv(j) && Moves(j, JoinReturn, j')
    ensures j.s.th[j.calls[j.s.run[0]].t].state == DONE
  {
    RunDistinct(j.s);
    assert CallInv(j, j.s.run[0]);
  }

  lemma JoinReturnKeeps(j: Joins, j': Joins)
    requires JoinInv(j) && Moves(j, JoinReturn, j')
    ensures JoinInv(j')
  {
    ReturnFindsItDone(j, j');
    var c := j.s.run[0];
    var t := j.calls[c].t;
    assert CallInv(j, t) && CallInv(j, c) && PairInv(j, c, c);
    JoinKeeps(j.s, t);
    RunDistinct(j.s);
    forall d ensures CallInv(j', d) { assert CallInv(j, d) && PairInv(j, c, d); }
    forall d, e ensures PairInv(j', d, e) { assert PairInv(j, d, e); }
    forall u, d ensures CondInv(j', u, d) { assert CondInv(j, u, d) && CondInv(j, u, c); }
  }

  // ----- the end of a thread -----

  /** At most its one joiner waits on the condition variable of a thread. */
  lemma OneWaiter(j: Joins, t: Tid)
    requires JoinInv(j)
    ensures |Waiters(j.s, Cond(t))| <= 1
    ensures forall c :: c in Waiters(j.s, Cond(t)) ==> c in j.calls && j.calls[c] == Waiting(t) && Asleep(j.s, c)
    ensures forall c :: c in j.calls && j.calls[c].t == t && c in j.s.th && j.s.th[c].waitq.Some? ==>
      c in Waiters(j.s, Cond(t))
  {
    var w := Waiters(j.s, Cond(t));
    forall c | c in w ensures c in j.calls && j.calls[c] == Waiting(t) && Asleep(j.s, c) {
      assert LocalInv(j.s, c, 0, 0, Cond(t)) && CondInv(j, t, c);
    }
    forall c | c in j.calls && j.calls[c].t == t && c in j.s.th && j.s.th[c].waitq.Some? ensures c in w {
      assert CallInv(j, c) && LocalInv(j.s, c, 0, 0, Cond(t));
    }
    forall i: nat, k: nat | i < |w| && k < |w| ensures w[i] == w[k] {
      assert w[i] in w && w[k] in w;
      assert PairInv(j, w[i], w[k]);
    }
    assert LocalInv(j.s, 0, 0, 1, Cond(t));
  }

  /** So notify_all resumes that one, if there is one. */
  lemma NotifyIs(j: Joins, t: Tid)
    requires JoinInv(j)
    ensures NotifyAll(j.s, t) == if Waiters(j.s, Cond(t)) == [] then j.s
      else Interrupt(j.s, Waiters(j.s, Cond(t))[0], ECANCELED)
  {
    OneWaiter(j, t);
    var w := Waiters(j.s, Cond(t));
    if w != [] {
      assert w[0] in w;
      assert LocalInv(j.s, w[0], 0, 0, Cond(t));
      RunDistinct(j.s);
      assert w == [w[0]];
      assert Without(w, w[0]) == [];
    }
  }

  lemma NotifyKeeps(j: Joins, t: Tid)
    requires JoinInv(j)
    ensures Inv(NotifyAll(j.s, t)) && NotifyAll(j.s, t).run[0] == j.s.run[0]
  {
    NotifyIs(j, t);
    var w := Waiters(j.s, Cond(t));
    if w != [] { InterruptKeeps(j.s, w[0], ECANCELED); }
  }

  /** What notify_all leaves of a thread: the joiner of `t` names no queue any more. */
  lemma NotifyThread(j: Joins, t: Tid, u: Tid)
    requires JoinInv(j) && u in j.s.th
    ensures
      var s1 := NotifyAll(j.s, t);
      && s1.th.Keys == j.s.th.Keys && s1.th[u].joinable == j.s.th[u].joinable
      && (s1.th[u].state == DONE <==> j.s.th[u].state == DONE)
      && s1.th[u].waitq == if u in j.calls && j.calls[u].t == t then None else j.s.th[u].waitq
  {
    NotifyIs(j, t);
    OneWaiter(j, t);
    var w := Waiters(j.s, Cond(t));
    RunDistinct(j.s);
    if w != [] {
      assert w[0] in w && LocalInv(j.s, w[0], 0, 0, Cond(t));
      assert PairInv(j, u, w[0]);
    }
    assert CallInv(j, u);
  }

  lemma EndKeeps(j: Joins, j': Joins)
    requires JoinInv(j) && Moves(j, End, j')
    ensures JoinInv(j')
  {
    var c, s1 := j.s.run[0], NotifyAll(j.s, j.s.run[0]);
    NotifyKeeps(j, c);
    DieKeeps(s1);
    RunDistinct(s1);
    assert LocalInv(j.s, c, 0, 0, NOWHERE);
    NotifyThread(j, c, c);
    forall d ensures CallInv(j', d) { EndCall(j, j', d); }
    forall d, e ensures PairInv(j', d, e) { assert PairInv(j, d, e); }
    forall u, d ensures CondInv(j', u, d) {
      assert CondInv(j, u, d);
      if d in j.s.th { NotifyThread(j, c, d); }
    }
  }

  lemma EndCall(j: Joins, j': Joins, d: Tid)
    requires JoinInv(j) && Moves(j, End, j')
    ensures CallInv(j', d)
  {
    var c := j.s.run[0];
    assert CallInv(j, d);
    NotifyKeeps(j, c);
    var s1 := NotifyAll(j.s, c);
    RunDistinct(s1);
    assert LocalInv(s1, s1.run[1], 0, 0, NOWHERE);
    assert LocalInv(j.s, c, 0, 0, NOWHERE);
    NotifyThread(j, c, c);
    if d in j.calls {
      NotifyThread(j, c, d);
      NotifyThread(j, c, j.calls[d].t);
    }
  }

  lemma MoveKeeps(j: Joins, m: Move, j': Joins)
    requires JoinInv(j) && Moves(j, m, j') && Polite(j, m)
    ensures JoinInv(j')
  {
    match m
    case Plain(e) => PlainCalls(j, e, j'.s);
    case JoinCall(t) => JoinCallKeeps(j, t, j');
    case JoinPark => JoinParkKeeps(j, j');
    case JoinReturn => JoinReturnKeeps(j, j');
    case End => EndKeeps(j, j');
  }

  function Start(main: Tid): Joins { Joins(Initial(main), map[]) }

  lemma {:induction false} RunKeeps(j: Joins, ms: seq<Move>, j': Joins)
    requires JoinInv(j) && PoliteRun(j, ms, j')
    ensures JoinInv(j')
    decreases |ms|
  {
    if ms == [] {
    } else {
      var k :| Moves(j, ms[0], k) && PoliteRun(k, ms[1..], j');
      MoveKeeps(j, ms[0], k);
      RunKeeps(k, ms[1..], j');
    }
  }

  /** CURRENT is behind the wait of its thread_join. */
  ghost predicate Returns(j: Joins) {
    && j.s.run != [] && j.s.run[0] in j.s.th && j.s.run[0] in j.calls
    && (j.calls[j.s.run[0]].Calling? ==> j.s.th[j.s.run[0]].state == READY)
  }

  /** thread_join returns only when its thread has finished, in every polite run, and what it gives
      back then is in no list of the scheduler. */
  lemma JoinWaitsForTheEnd(main: Tid, ms: seq<Move>, j: Joins)
    requires PoliteRun(Start(main), ms, j) && Returns(j)
    ensures
      var t := j.calls[j.s.run[0]].t;
      && t in j.s.th && j.s.th[t].state == DONE && Patient(j.s, Join(t))
      && t !in j.s.run && t !in j.s.sleepq && (forall q :: q in j.s.wq ==> t !in j.s.wq[q])
      && Disposed(j.s, t) == j.s.(th := j.s.th - {t}) && Inv(Disposed(j.s, t))
  {
    InitialHolds(main);
    RunKeeps(Start(main), ms, j);
    var t := j.calls[j.s.run[0]].t;
    assert CallInv(j, j.s.run[0]);
    RunDistinct(j.s);
    JoinKeeps(j.s, t);
    assert LocalInv(j.s, t, 0, 0, NOWHERE);
    forall q ensures q in j.s.wq ==> t !in j.s.wq[q] { assert LocalInv(j.s, t, 0, 0, q); }
  }

  /** Nobody joins in vain: the end of a thread puts the joiner that waits for it back into the ring. */
  lemma JoinerIsWoken(main: Tid, ms: seq<Move>, j: Joins, j': Joins, c: Tid)
    requires PoliteRun(Start(main), ms, j) && j.s.run != []
    requires c in j.calls && j.calls[c] == Waiting(j.s.run[0]) && Moves(j, End, j')
    ensures c in j'.s.run && c in j'.s.th && j'.s.th[c].state != WAITING
  {
    InitialHolds(main);
    RunKeeps(Start(main), ms, j);
    var t := j.s.run[0];
    NotifyWakes(j, c);
    var s1 := NotifyAll(j.s, t);
    NotifyKeeps(j, t);
    RunDistinct(s1);
    assert s1.run[1..][|j.s.run| - 1] == c;
  }

  lemma NotifyWakes(j: Joins, c: Tid)
    requires JoinInv(j) && c in j.calls && j.calls[c] == Waiting(j.s.run[0])
    ensures
      var s1 := NotifyAll(j.s, j.s.run[0]);
      s1.run == j.s.run + [c] && c in s1.th && s1.th[c].state == READY
  {
    var t := j.s.run[0];
    assert CallInv(j, c) && LocalInv(j.s, t, 0, 0, NOWHERE);
    OneWaiter(j, t);
    NotifyIs(j, t);
    assert c in Waiters(j.s, Cond(t));
    assert Waiters(j.s, Cond(t))[0] == c;
    assert LocalInv(j.s, c, 0, 0, NOWHERE);
    RunDistinct(j.s);
  }
}
