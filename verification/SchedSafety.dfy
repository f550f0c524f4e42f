/** Every step of the scheduler keeps the partition of the threads. */
module SchedSafety {
  import opened Common
  import opened SchedProtocol

  /** Any queue, where it does not matter which. */
  const NOWHERE := Object(0)

  lemma WithoutDistinct(q: seq<Tid>, t: Tid, i: nat, j: nat)
    requires forall a, b :: 0 <= a < b < |q| ==> q[a] != q[b]
    requires i < j < |Without(q, t)|
    ensures Without(q, t)[i] != Without(q, t)[j]
  {
    var m, n := WithoutIsSubsequence(q, t, i, j);
  }

  lemma CreatedKeeps(s: State, t: Tid)
    requires Inv(s) && t !in s.th
    ensures Inv(Created(s, t))
  {
    var s' := Created(s, t);
    forall u, i: nat, j: nat, q ensures LocalInv(s', u, i, j, q) {
      assert LocalInv(s, u, i, j, q);
      assert LocalInv(s, t, i, j, q);
      if i < |s.run| { assert s.run[i] in s.run; }
    }
  }

  // ----- switching -----

  lemma RunDistinct(s: State)
    requires Inv(s)
    ensures forall i, j :: 0 <= i < j < |s.run| ==> s.run[i] != s.run[j]
    ensures forall i :: 0 <= i < |s.run| ==> s.run[i] in s.th && s.run[i] !in s.sleepq && s.th[s.run[i]].waitq == None
  {
    forall i: nat, j: nat | i < j < |s.run| ensures s.run[i] != s.run[j] { assert LocalInv(s, 0, i, j, NOWHERE); }
    forall i: nat | i < |s.run|
      ensures s.run[i] in s.th && s.run[i] !in s.sleepq && s.th[s.run[i]].waitq == None
    {
      assert LocalInv(s, s.run[i], 0, 0, NOWHERE);
    }
  }

  lemma SwitchThread(s: State, k: nat, t: Tid)
    requires 0 < k < |s.run| && s.run[0] in s.th && s.run[k] in s.th && s.run[0] != s.run[k]
    requires ThreadInv(s, t) && ThreadInv(s, s.run[0]) && ThreadInv(s, s.run[k])
    ensures ThreadInv(Switch(s, k), t)
  {
    assert s.run == s.run[..k] + s.run[k..];
    assert Switch(s, k).run[0] == s.run[k];
  }

  lemma SwitchKeeps(s: State, k: nat)
    requires Inv(s) && k < |s.run| && s.run[0] in s.th && s.run[k] in s.th
    ensures Inv(Switch(s, k))
  {
    var s' := Switch(s, k);
    RunDistinct(s);
    assert k == 0 ==> s'.run == s.run;
    forall t, i, j, q ensures LocalInv(s', t, i, j, q) {
      assert LocalInv(s, t, i, j, q);
      assert LocalInv(s, s.run[0], i, j, q);
      assert LocalInv(s, s.run[k], i, j, q);
      if k > 0 { SwitchThread(s, k, t); }
      SwitchOrder(s, k, i, j);
    }
  }

  lemma SwitchOrder(s: State, k: nat, i: nat, j: nat)
    requires k < |s.run| && s.run[0] in s.th && s.run[k] in s.th
    requires forall i, j :: 0 <= i < j < |s.run| ==> s.run[i] != s.run[j]
    ensures RingInv(Switch(s, k), i, j)
  {
  }

  lemma MarkWaitingKeeps(s: State)
    requires Inv(s) && s.run[0] in s.th
    ensures Inv(SetState(s, s.run[0], WAITING))
  {
    forall t, i, j, q ensures LocalInv(SetState(s, s.run[0], WAITING), t, i, j, q) {
      assert LocalInv(s, t, i, j, q);
      assert LocalInv(s, s.run[0], i, j, q);
    }
  }

  // ----- waking -----

  /** A thread that sleeps. */
  ghost predicate Asleep(s: State, t: Tid) { t in s.sleepq && t in s.th }

  lemma AwakeThread(s: State, t: Tid, u: Tid)
    requires Asleep(s, t) && s.run != [] && ThreadInv(s, t) && ThreadInv(s, u)
    ensures ThreadInv(Awake(s, t), u)
  {
  }

  lemma AwakeQueue(s: State, t: Tid, u: Tid, q: Qid)
    requires Asleep(s, t) && ThreadInv(s, t) && QueueInv(s, q, u) && QueueInv(s, q, t)
    ensures QueueInv(Awake(s, t), q, u)
  {
  }

  lemma AwakeOrder(s: State, t: Tid, q: Qid, i: nat, j: nat)
    requires Asleep(s, t) && ThreadInv(s, t) && forall a, b :: QueueOrder(s, q, a, b)
    ensures QueueOrder(Awake(s, t), q, i, j)
  {
    if q in s.wq && s.th[t].waitq == Some(q) && i < j < |Without(s.wq[q], t)| {
      forall a: nat, b: nat | a < b < |s.wq[q]| ensures s.wq[q][a] != s.wq[q][b] { assert QueueOrder(s, q, a, b); }
      WithoutDistinct(s.wq[q], t, i, j);
    } else {
      assert QueueOrder(s, q, i, j);
    }
  }

  lemma AwakeKeeps(s: State, t: Tid)
    requires Inv(s) && Asleep(s, t)
    ensures Inv(Awake(s, t))
  {
    var s' := Awake(s, t);
    RunDistinct(s);
    assert LocalInv(s, t, 0, 0, NOWHERE);
    forall u, i, j, q ensures LocalInv(s', u, i, j, q) {
      assert LocalInv(s, u, i, j, q);
      assert LocalInv(s, t, i, j, q);
      AwakeThread(s, t, u);
      AwakeQueue(s, t, u, q);
      forall a, b ensures QueueOrder(s, q, a, b) { assert LocalInv(s, t, a, b, q); }
      AwakeOrder(s, t, q, i, j);
      assert RingInv(s', i, j);
    }
  }

  lemma ErrorKeeps(s: State, t: Tid, error: int)
    requires Inv(s) && t in s.th
    ensures Inv(s.(th := s.th[t := s.th[t].(error := error)]))
  {
    var s' := s.(th := s.th[t := s.th[t].(error := error)]);
    forall u, i, j, q ensures LocalInv(s', u, i, j, q) {
      assert LocalInv(s, u, i, j, q);
    }
  }

  lemma ReadyKeeps(s: State, t: Tid)
    requires Inv(s) && t in s.th && t == s.run[0]
    ensures Inv(SetState(s, t, READY))
  {
    forall u, i, j, q ensures LocalInv(SetState(s, t, READY), u, i, j, q) {
      assert LocalInv(s, u, i, j, q);
      assert LocalInv(s, t, i, j, q);
    }
  }

  lemma InterruptKeeps(s: State, t: Tid, error: int)
    requires Inv(s)
    ensures Inv(Interrupt(s, t, error))
  {
    if t in s.th && s.th[t].state == WAITING {
      assert LocalInv(s, t, 0, 0, NOWHERE);
      if t == s.run[0] {
        ReadyKeeps(s, t);
        ErrorKeeps(SetState(s, t, READY), t, error);
        assert SetState(s, t, READY).th[t := SetState(s, t, READY).th[t].(error := error)]
            == s.th[t := s.th[t].(state := READY, error := error)];
      } else {
        AwakeKeeps(s, t);
        ErrorKeeps(Awake(s, t), t, error);
      }
    }
  }

  lemma {:induction false} ResumesKeeps(s: State, ts: seq<Tid>, s': State)
    requires Inv(s) && Resumes(s, ts, s')
    ensures Inv(s')
    decreases |ts|
  {
    if ts == [] {
    } else {
      AwakeKeeps(s, ts[0]);
      ResumesKeeps(Awake(s, ts[0]), ts[1..], s');
    }
  }

  // ----- parking and dying -----

  lemma ParkThread(s: State, w: Option<Qid>, expire: nat, t: Tid)
    requires |s.run| > 1 && s.run[0] in s.th && s.run[1] in s.th && s.run[0] != s.run[1]
    requires s.run[0] !in s.run[1..]
    requires ThreadInv(s, t) && ThreadInv(s, s.run[0]) && ThreadInv(s, s.run[1])
    ensures ThreadInv(Park(s, w, expire), t)
  {
    assert s.run == [s.run[0]] + s.run[1..];
  }

  lemma ParkQueue(s: State, w: Option<Qid>, expire: nat, t: Tid, q: Qid, i: nat, j: nat)
    requires |s.run| > 1 && s.run[0] in s.th && s.run[1] in s.th && s.run[0] != s.run[1]
    requires ThreadInv(s, s.run[0]) && QueueInv(s, q, t) && QueueInv(s, q, s.run[0]) && QueueOrder(s, q, i, j)
    ensures QueueInv(Park(s, w, expire), q, t) && QueueOrder(Park(s, w, expire), q, i, j)
  {
    if q in s.wq && i < |s.wq[q]| { assert s.wq[q][i] in s.wq[q]; }
  }

  lemma ParkKeeps(s: State, w: Option<Qid>, expire: nat)
    requires Inv(s) && |s.run| > 1 && s.run[0] in s.th && s.run[1] in s.th
    ensures Inv(Park(s, w, expire))
  {
    var s' := Park(s, w, expire);
    RunDistinct(s);
    forall t, i, j, q ensures LocalInv(s', t, i, j, q) {
      assert LocalInv(s, t, i, j, q);
      assert LocalInv(s, s.run[0], i, j, q);
      assert LocalInv(s, s.run[1], i, j, q);
      ParkThread(s, w, expire, t);
      ParkQueue(s, w, expire, t, q, i, j);
      assert RingInv(s', i, j);
    }
  }

  lemma DieThread(s: State, t: Tid)
    requires |s.run| > 1 && s.run[0] in s.th && s.run[1] in s.th && s.run[0] != s.run[1]
    requires s.run[0] !in s.run[1..]
    requires ThreadInv(s, t) && ThreadInv(s, s.run[0]) && ThreadInv(s, s.run[1])
    ensures ThreadInv(Die(s), t)
  {
    assert s.run == [s.run[0]] + s.run[1..];
  }

  lemma DieQueue(s: State, t: Tid, q: Qid)
    requires |s.run| > 1 && s.run[0] in s.th && s.run[1] in s.th && s.run[0] != s.run[1]
    requires ThreadInv(s, s.run[0]) && QueueInv(s, q, t)
    ensures QueueInv(Die(s), q, t)
  {
  }

  lemma DieKeeps(s: State)
    requires Inv(s) && |s.run| > 1 && s.run[0] in s.th && s.run[1] in s.th && s.run[0] != s.run[1]
    requires s.run[0] != s.main
    ensures Inv(Die(s))
  {
    var s' := Die(s);
    RunDistinct(s);
    forall t, i, j, q ensures LocalInv(s', t, i, j, q) {
      assert LocalInv(s, t, i, j, q);
      assert LocalInv(s, s.run[0], i, j, q);
      assert LocalInv(s, s.run[1], i, j, q);
      DieThread(s, t);
      DieQueue(s, t, q);
      assert RingInv(s', i, j) && QueueOrder(s', q, i, j);
    }
  }

  // ----- joining -----

  /** Taking a finished thread away: its links are in no list. */
  lemma JoinKeeps(s: State, t: Tid)
    requires Inv(s) && t in s.th && s.th[t].state == DONE
    ensures Inv(Disposed(s, t)) && Disposed(s, t) == s.(th := s.th - {t})
  {
    var s' := s.(th := s.th - {t});
    assert LocalInv(s, t, 0, 0, NOWHERE);
    assert Disposed(s, t) == s';
    forall u, i, j, q ensures LocalInv(s', u, i, j, q) {
      assert LocalInv(s, u, i, j, q);
      assert LocalInv(s, t, i, j, q);
    }
  }

  /** Taking away a thread that is about to run. */
  lemma JoinReadyKeeps(s: State, t: Tid)
    requires Inv(s) && t in s.run && t != s.run[0] && t != s.main && t in s.th
    ensures Inv(Disposed(s, t))
  {
    RunDistinct(s);
    var s' := Disposed(s, t);
    assert s' == s.(th := s.th - {t}, run := Without(s.run, t)) && s'.run != [];
    assert s'.run[0] == s.run[0];
    forall u, i: nat, j: nat, q ensures LocalInv(s', u, i, j, q) {
      assert LocalInv(s, u, i, j, q);
      assert LocalInv(s, t, i, j, q);
      if i < j < |s'.run| { WithoutDistinct(s.run, t, i, j); }
    }
  }

  /** thread_join does not look at the state of the thread again when its wait is over.  Giving the
      memory back then keeps the invariant exactly when the thread is not asleep, and is not CURRENT
      or the main thread. */
  lemma JoinKeepsIff(s: State, t: Tid)
    requires Inv(s) && t in s.th
    ensures Inv(Disposed(s, t)) <==> t !in s.sleepq && t != s.run[0] && t != s.main
  {
    assert LocalInv(s, t, 0, 0, NOWHERE);
    var s' := Disposed(s, t);
    if t in s.sleepq || t == s.run[0] {
      assert !ThreadInv(s', t);
      assert !LocalInv(s', t, 0, 0, NOWHERE);
    } else if t in s.run {
      if t != s.main { JoinReadyKeeps(s, t); }
    } else {
      JoinKeeps(s, t);
    }
  }

  /** And it keeps the invariant without taking a thread away that still has work to do exactly when
      the thread has finished. */
  lemma JoinHarmlessIff(s: State, t: Tid)
    requires Inv(s) && t in s.th
    ensures
      var s' := Disposed(s, t);
      Inv(s') && (forall u :: u in s.th && s.th[u].state != DONE ==> u in s'.th) <==> s.th[t].state == DONE
  {
    JoinKeepsIff(s, t);
    assert LocalInv(s, t, 0, 0, NOWHERE);
  }

  lemma EnableJoinKeeps(s: State, t: Tid, flag: bool)
    requires Inv(s) && t in s.th
    ensures Inv(s.(th := s.th[t := s.th[t].(joinable := flag)]))
  {
    var s' := s.(th := s.th[t := s.th[t].(joinable := flag)]);
    forall u, i, j, q ensures LocalInv(s', u, i, j, q) {
      assert LocalInv(s, u, i, j, q);
    }
  }

  lemma StepKeeps(s: State, e: Event, s': State)
    requires Inv(s) && Step(s, e, s') && Patient(s, e)
    ensures Inv(s')
  {
    match e
    case Create(t) => CreatedKeeps(s, t);
    case EnableJoin(t, flag) => EnableJoinKeeps(s, t, flag);
    case Resume(ts) => ResumesKeeps(s, ts, s');
    case SwitchTo(k) => SwitchKeeps(s, k);
    case MarkWaiting => MarkWaitingKeeps(s);
    case ParkOn(w, expire) => ParkKeeps(s, w, expire);
    case InterruptThread(t, error) => InterruptKeeps(s, t, error);
    case ResumeFront(q) => if q in s.wq && s.wq[q] != [] { InterruptKeeps(s, s.wq[q][0], ECANCELED); }
    case TakeError => ErrorKeeps(s, s.run[0], 0);
    case Exit => DieKeeps(s);
    case Join(t) => JoinKeeps(s, t);
    case Tick(now) =>
      forall t, i, j, q ensures LocalInv(s', t, i, j, q) { assert LocalInv(s, t, i, j, q); }
  }

  lemma {:induction false} RunKeeps(s: State, es: seq<Event>, s': State)
    requires Inv(s) && PatientRun(s, es, s')
    ensures Inv(s')
    decreases |es|
  {
    if es == [] {
    } else {
      var m :| Step(s, es[0], m) && Patient(s, es[0]) && PatientRun(m, es[1..], s');
      StepKeeps(s, es[0], m);
      RunKeeps(m, es[1..], s');
    }
  }
}
