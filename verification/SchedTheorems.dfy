/** What the scheduler keeps over every run that starts from init(). */
module SchedTheorems {
  import opened Common
  import opened SchedProtocol
  import opened SchedSafety

  lemma InitialHolds(main: Tid)
    ensures Inv(Initial(main))
  {
    var s := Initial(main);
    forall t, i, j, q ensures LocalInv(s, t, i, j, q) { }
  }

  /** How many of the three places a thread is in. */
  function Places(s: State, t: Tid): nat
    requires t in s.th
  {
    (if t in s.run then 1 else 0) + (if t in s.sleepq then 1 else 0) + (if s.th[t].state == DONE then 1 else 0)
  }

  /** After any run: CURRENT is a thread; every thread that exists is in exactly one place; sleepers
      wait and are never CURRENT; a thread stands in a wait queue exactly when it names it. */
  lemma Partition(main: Tid, es: seq<Event>, s: State)
    requires PatientRun(Initial(main), es, s)
    ensures s.run != [] && s.run[0] in s.th
    ensures forall t :: t in s.th ==> Places(s, t) == 1
    ensures forall t :: t in s.run || t in s.sleepq ==> t in s.th
    ensures forall t :: t in s.sleepq && t in s.th ==> s.th[t].state == WAITING && t != s.run[0]
    ensures forall t, q :: (t in s.th && s.th[t].waitq == Some(q)) <==> (q in s.wq && t in s.wq[q])
    ensures forall t, q :: q in s.wq && t in s.wq[q] ==> t in s.sleepq
    ensures main in s.run || main in s.sleepq
  {
    InitialHolds(main);
    RunKeeps(Initial(main), es, s);
    MainStays(Initial(main), es, s);
    assert LocalInv(s, s.run[0], 0, 0, NOWHERE);
    assert LocalInv(s, main, 0, 0, NOWHERE);
    forall t, q ensures (t in s.th && s.th[t].waitq == Some(q)) <==> (q in s.wq && t in s.wq[q]) {
      assert LocalInv(s, t, 0, 0, q);
    }
    forall t, q | q in s.wq && t in s.wq[q] ensures t in s.sleepq { assert LocalInv(s, t, 0, 0, q); }
    forall t | t in s.th ensures Places(s, t) == 1 { assert LocalInv(s, t, 0, 0, NOWHERE); }
    forall t | t in s.run || t in s.sleepq ensures t in s.th { assert LocalInv(s, t, 0, 0, NOWHERE); }
    forall t | t in s.sleepq && t in s.th ensures s.th[t].state == WAITING && t != s.run[0] {
      assert LocalInv(s, t, 0, 0, NOWHERE);
    }
  }

  lemma ResumesFrame(s: State, ts: seq<Tid>, s': State)
    requires Resumes(s, ts, s')
    ensures s'.main == s.main && s'.now == s.now
    decreases |ts|
  {
    if ts == [] {
    } else {
      ResumesFrame(Awake(s, ts[0]), ts[1..], s');
    }
  }

  lemma {:induction false} MainStays(s: State, es: seq<Event>, s': State)
    requires PatientRun(s, es, s')
    ensures s'.main == s.main && s.now <= s'.now
    decreases |es|
  {
    if es == [] {
    } else {
      var m :| Step(s, es[0], m) && Patient(s, es[0]) && PatientRun(m, es[1..], s');
      if es[0].Resume? { ResumesFrame(s, es[0].ts, m); }
      MainStays(m, es[1..], s');
    }
  }

  /** Why the end of a thread never leaves CURRENT null: a last runner that is not the main thread
      finds the main thread asleep, and keeps looping until someone is in the ring with it. */
  lemma LastRunnerHasSleepers(main: Tid, es: seq<Event>, s: State)
    requires PatientRun(Initial(main), es, s)
    requires |s.run| == 1 && s.run[0] != main
    ensures main in s.sleepq
  {
    Partition(main, es, s);
  }

  // ----- resume_sleepers -----

  ghost predicate Due(s: State, t: Tid) { t in s.sleepq && t in s.th && s.th[t].wakeup <= s.now }

  /** It wakes exactly the sleepers that are due, each once, in order of their wake-up times, behind
      the threads that were already in the ring; the rest sleep on. */
  lemma {:induction false} ResumesExactlyTheDue(s: State, ts: seq<Tid>, s': State)
    requires Inv(s) && Resumes(s, ts, s')
    ensures forall t :: t in ts <==> Due(s, t)
    ensures forall i, j :: 0 <= i < j < |ts| ==>
      ts[i] != ts[j] && ts[i] in s.th && ts[j] in s.th && s.th[ts[i]].wakeup <= s.th[ts[j]].wakeup
    ensures s'.run == s.run + ts
    ensures forall t :: t in s'.sleepq <==> t in s.sleepq && t !in ts
    decreases |ts|
  {
    if ts == [] {
      NothingDue(s);
    } else {
      var m := Awake(s, ts[0]);
      AwakeKeeps(s, ts[0]);
      ResumesExactlyTheDue(m, ts[1..], s');
      assert ts == [ts[0]] + ts[1..];
      forall t ensures t in ts <==> Due(s, t) { assert t in ts[1..] <==> Due(m, t); }
      forall i, j | 0 <= i < j < |ts|
        ensures ts[i] != ts[j] && ts[i] in s.th && ts[j] in s.th && s.th[ts[i]].wakeup <= s.th[ts[j]].wakeup
      {
        assert ts[1..][j - 1] == ts[j];
        assert Due(m, ts[j]) by { assert ts[j] in ts[1..]; }
        if i > 0 { assert ts[1..][i - 1] == ts[i]; }
      }
      assert s.run + [ts[0]] + ts[1..] == s.run + ts;
    }
  }

  /** A non-empty set of threads has one that is due first. */
  lemma {:induction false} Earliest(s: State, c: set<Tid>) returns (t: Tid)
    requires c != {} && c <= s.th.Keys
    ensures t in c && forall u :: u in c ==> s.th[t].wakeup <= s.th[u].wakeup
    decreases |c|
  {
    t :| t in c;
    if c != {t} {
      var v := Earliest(s, c - {t});
      if s.th[v].wakeup < s.th[t].wakeup { t := v; }
    }
  }

  lemma NothingDue(s: State)
    requires Inv(s) && forall t :: !DueFirst(s, t)
    ensures forall t :: !Due(s, t)
  {
    if t :| Due(s, t) {
      forall u | u in s.sleepq ensures u in s.th { assert LocalInv(s, u, 0, 0, NOWHERE); }
      var f := Earliest(s, s.sleepq);
      assert DueFirst(s, f);
    }
  }

  /** It always finishes. */
  lemma {:induction false} ResumesTerminates(s: State) returns (ts: seq<Tid>, s': State)
    requires Inv(s)
    ensures Resumes(s, ts, s')
    decreases |s.sleepq|
  {
    if t :| DueFirst(s, t) {
      AwakeKeeps(s, t);
      assert s.sleepq == Awake(s, t).sleepq + {t};
      ts, s' := ResumesTerminates(Awake(s, t));
      ts := [t] + ts;
      assert ts[1..] == ts[1..] && ts[0] == t;
    } else {
      ts, s' := [], s;
    }
  }

  // ----- one call undoes another -----

  lemma WithoutOther(q: seq<Tid>, t: Tid)
    requires t !in q
    ensures Without(q + [t], t) == q
  {
    if q == [] {
      assert ([t])[1..] == [] && q + [t] == [t];
    } else {
      WithoutOther(q[1..], t);
      assert (q + [t])[1..] == q[1..] + [t];
    }
  }

  /** An interrupt takes back the park: the thread is at the ring's tail, READY, with the error it
      was given, and the wait queue is what it was, in the same order. */
  lemma InterruptUndoesPark(s: State, q: Qid, expire: nat, error: int)
    requires Inv(s) && |s.run| > 1 && s.run[0] in s.th && s.run[1] in s.th
    ensures
      var t := s.run[0];
      var s' := Interrupt(Park(s, Some(q), expire), t, error);
      && s'.run == s.run[1..] + [t]
      && s'.sleepq == s.sleepq
      && s'.th[t] == Thread(READY, error, None, expire, s.th[t].joinable)
      && s'.wq[q] == (if q in s.wq then s.wq[q] else [])
      && forall o :: o != q && o in s.wq ==> o in s'.wq && s'.wq[o] == s.wq[o]
  {
    RunDistinct(s);
    var t := s.run[0];
    var was := if q in s.wq then s.wq[q] else [];
    assert LocalInv(s, t, 0, 0, q);
    WithoutOther(was, t);
  }

  // ----- one pair of links -----

  /** A thread's links serve one list at a time, so the two assertions of the code hold: one that
      goes to sleep names no wait queue yet, and one that wakes up without a wait queue is in no
      list. */
  lemma OneListAtATime(main: Tid, es: seq<Event>, s: State, t: Tid)
    requires PatientRun(Initial(main), es, s) && t in s.th
    ensures forall q :: q in s.wq && t in s.wq[q] ==> t !in s.run
    ensures forall q, r :: q in s.wq && t in s.wq[q] && r in s.wq && t in s.wq[r] ==> q == r
    ensures s.run != [] && (t == s.run[0] ==> s.th[t].waitq == None)
    ensures t in s.sleepq && s.th[t].waitq == None ==> t !in s.run && forall q :: q in s.wq ==> t !in s.wq[q]
  {
    Partition(main, es, s);
    InitialHolds(main);
    RunKeeps(Initial(main), es, s);
    assert LocalInv(s, t, 0, 0, NOWHERE);
    forall q | q in s.wq && t in s.wq[q] ensures s.th[t].waitq == Some(q) && t in s.sleepq { }
  }

  // ----- the order of arrival -----

  /** The states a run goes through. */
  ghost predicate Trace(ss: seq<State>, es: seq<Event>) {
    |ss| == |es| + 1 && forall i :: 0 <= i < |es| ==> Step(ss[i], es[i], ss[i + 1]) && Patient(ss[i], es[i])
  }

  ghost predicate Parks(s: State, e: Event, t: Tid) { e.ParkOn? && s.run != [] && s.run[0] == t }

  /** The last time `t` parked was at the a-th event, and on q. */
  ghost predicate Arrived(ss: seq<State>, es: seq<Event>, q: Qid, t: Tid, a: nat)
    requires |ss| > |es|
  {
    && a < |es| && Parks(ss[a], es[a], t) && es[a].wait == Some(q)
    && forall b :: a < b < |es| ==> !Parks(ss[b], es[b], t)
  }

  /** `a` is `b` with some left out. */
  ghost predicate Thinned(a: seq<Tid>, b: seq<Tid>) {
    a == [] || (b != [] && (if a[0] == b[0] then Thinned(a[1..], b[1..]) else Thinned(a, b[1..])))
  }

  lemma {:induction false} ThinnedSame(a: seq<Tid>)
    ensures Thinned(a, a)
  {
    if a == [] {
    } else {
      ThinnedSame(a[1..]);
    }
  }

  lemma {:induction false} ThinnedMore(a: seq<Tid>, b: seq<Tid>)
    requires b != [] && Thinned(a, b[1..])
    ensures Thinned(a, b)
    decreases |b|, 0
  {
    if a == [] {
    } else if a[0] == b[0] {
      ThinnedLess(a, b[1..]);
    }
  }

  lemma {:induction false} ThinnedLess(a: seq<Tid>, b: seq<Tid>)
    requires a != [] && Thinned(a, b)
    ensures Thinned(a[1..], b)
    decreases |b|, 1
  {
    if a[0] == b[0] {
      ThinnedMore(a[1..], b);
    } else {
      ThinnedLess(a, b[1..]);
      ThinnedMore(a[1..], b);
    }
  }

  lemma {:induction false} ThinnedTrans(a: seq<Tid>, b: seq<Tid>, c: seq<Tid>)
    requires Thinned(a, b) && Thinned(b, c)
    ensures Thinned(a, c)
    decreases |b| + |c|
  {
    if a == [] {
    } else if b[0] == c[0] {
      if a[0] == b[0] {
        ThinnedTrans(a[1..], b[1..], c[1..]);
      } else {
        ThinnedTrans(a, b[1..], c[1..]);
        ThinnedMore(a, c);
      }
    } else {
      ThinnedTrans(a, b, c[1..]);
      ThinnedMore(a, c);
    }
  }

  lemma {:induction false} WithoutThinned(b: seq<Tid>, t: Tid)
    ensures Thinned(Without(b, t), b)
  {
    if b == [] {
    } else {
      WithoutThinned(b[1..], t);
      if b[0] == t { ThinnedMore(Without(b, t), b); } else { assert Without(b, t)[1..] == Without(b[1..], t); }
    }
  }

  /** Two members stand in the same order in the longer one. */
  lemma {:induction false} ThinnedPlaces(a: seq<Tid>, b: seq<Tid>, i: nat, j: nat) returns (k: nat, l: nat)
    requires Thinned(a, b) && i <= j < |a|
    ensures k <= l < |b| && b[k] == a[i] && b[l] == a[j] && (i < j ==> k < l)
    decreases |b|
  {
    if a[0] != b[0] {
      k, l := ThinnedPlaces(a, b[1..], i, j);
      k, l := k + 1, l + 1;
    } else if i > 0 {
      k, l := ThinnedPlaces(a[1..], b[1..], i - 1, j - 1);
      k, l := k + 1, l + 1;
    } else if j > 0 {
      k, l := ThinnedPlaces(a[1..], b[1..], j - 1, j - 1);
      k, l := 0, l + 1;
    } else {
      k, l := 0, 0;
    }
  }

  function Waiters(s: State, q: Qid): seq<Tid> { if q in s.wq then s.wq[q] else [] }

  lemma AwakeThins(s: State, t: Tid, q: Qid)
    requires t in s.th
    ensures Thinned(Waiters(Awake(s, t), q), Waiters(s, q))
  {
    ThinnedSame(Waiters(s, q));
    WithoutThinned(Waiters(s, q), t);
  }

  lemma {:induction false} ResumesThins(s: State, ts: seq<Tid>, s': State, q: Qid)
    requires Resumes(s, ts, s')
    ensures Thinned(Waiters(s', q), Waiters(s, q))
    decreases |ts|
  {
    if ts == [] {
      ThinnedSame(Waiters(s, q));
    } else {
      AwakeThins(s, ts[0], q);
      ResumesThins(Awake(s, ts[0]), ts[1..], s', q);
      ThinnedTrans(Waiters(s', q), Waiters(Awake(s, ts[0]), q), Waiters(s, q));
    }
  }

  lemma InterruptThins(s: State, t: Tid, error: int, q: Qid)
    ensures Thinned(Waiters(Interrupt(s, t, error), q), Waiters(s, q))
  {
    ThinnedSame(Waiters(s, q));
    if t in s.th { AwakeThins(s, t, q); }
  }

  /** A wait queue only ever loses members, and gains CURRENT at its end when it parks there. */
  lemma StepThins(s: State, e: Event, s': State, q: Qid)
    requires Inv(s) && Step(s, e, s') && Patient(s, e)
    ensures if e.ParkOn? && e.wait == Some(q) then Waiters(s', q) == Waiters(s, q) + [s.run[0]]
            else Thinned(Waiters(s', q), Waiters(s, q))
  {
    ThinnedSame(Waiters(s, q));
    match e
    case Resume(ts) => ResumesThins(s, ts, s', q);
    case InterruptThread(t, error) => InterruptThins(s, t, error, q);
    case ResumeFront(o) => if o in s.wq && s.wq[o] != [] { InterruptThins(s, s.wq[o][0], ECANCELED, q); }
    case Join(t) => JoinKeeps(s, t);
    case _ =>
  }

  lemma {:induction false} TraceKeeps(ss: seq<State>, es: seq<Event>)
    requires Trace(ss, es) && Inv(ss[0])
    ensures Inv(ss[|es|])
    decreases |es|
  {
    if es == [] {
    } else {
      var n := |es| - 1;
      assert Trace(ss[..n + 1], es[..n]);
      TraceKeeps(ss[..n + 1], es[..n]);
      StepKeeps(ss[n], es[n], ss[n + 1]);
    }
  }

  /** Where the members of a queue stood before the last step. */
  lemma PlacesBefore(s: State, e: Event, s': State, q: Qid, i: nat, j: nat) returns (k: nat, l: nat)
    requires Inv(s) && Step(s, e, s') && Patient(s, e) && i <= j < |Waiters(s', q)|
    ensures !(e.ParkOn? && e.wait == Some(q) && j == |Waiters(s, q)|) ==>
      k <= l < |Waiters(s, q)| && Waiters(s, q)[k] == Waiters(s', q)[i] && Waiters(s, q)[l] == Waiters(s', q)[j] &&
        (i < j ==> k < l)
  {
    StepThins(s, e, s', q);
    if e.ParkOn? && e.wait == Some(q) {
      k, l := i, j;
    } else {
      k, l := ThinnedPlaces(Waiters(s', q), Waiters(s, q), i, j);
    }
  }

  lemma ArrivedLater(ss: seq<State>, es: seq<Event>, n: nat, q: Qid, t: Tid, a: nat)
    requires |es| == n + 1 && |ss| == n + 2 && Arrived(ss[..n + 1], es[..n], q, t, a) && !Parks(ss[n], es[n], t)
    ensures Arrived(ss, es, q, t, a)
  {
    assert ss[..n + 1][a] == ss[a] && es[..n][a] == es[a];
    forall b | a < b < |es| ensures !Parks(ss[b], es[b], t) {
      if b < n { assert ss[..n + 1][b] == ss[b] && es[..n][b] == es[b]; }
    }
  }

  /** Those who wait on one object stand in the order in which they last came, after any run. */
  lemma {:induction false} WaitersInOrder(ss: seq<State>, es: seq<Event>, q: Qid, i: nat, j: nat)
    returns (a: nat, b: nat)
    requires Trace(ss, es) && ss[0] == Initial(ss[0].main) && i <= j < |Waiters(ss[|es|], q)|
    ensures Arrived(ss, es, q, Waiters(ss[|es|], q)[i], a) && Arrived(ss, es, q, Waiters(ss[|es|], q)[j], b)
    ensures a <= b && (i < j ==> a < b)
    decreases |es|
  {
    if es == [] {
      assert false;
    } else {
      var n := |es| - 1;
      var s, e := ss[n], es[n];
      assert Trace(ss[..n + 1], es[..n]);
      InitialHolds(ss[0].main);
      TraceKeeps(ss[..n + 1], es[..n]);
      StepThins(s, e, ss[n + 1], q);
      if e.ParkOn? && e.wait == Some(q) && j == |Waiters(s, q)| {
        b := n;
        if i == j {
          a := n;
        } else {
          var c;
          a, c := WaitersInOrder(ss[..n + 1], es[..n], q, i, i);
          NotCurrent(s, q, i);
          ArrivedLater(ss, es, n, q, Waiters(s, q)[i], a);
        }
      } else {
        var k, l := PlacesBefore(s, e, ss[n + 1], q, i, j);
        a, b := WaitersInOrder(ss[..n + 1], es[..n], q, k, l);
        NotCurrent(s, q, k);
        NotCurrent(s, q, l);
        ArrivedLater(ss, es, n, q, Waiters(s, q)[k], a);
        ArrivedLater(ss, es, n, q, Waiters(s, q)[l], b);
      }
    }
  }

  lemma NotCurrent(s: State, q: Qid, i: nat)
    requires Inv(s) && i < |Waiters(s, q)|
    ensures s.run[0] != Waiters(s, q)[i]
  {
    RunDistinct(s);
    assert s.wq[q][i] in s.wq[q];
    assert LocalInv(s, s.wq[q][i], 0, 0, q);
  }

  /** resume_one wakes the waiter that came first of all that wait there, after any run. */
  lemma ResumeTakesTheOldest(ss: seq<State>, es: seq<Event>, q: Qid, u: Tid) returns (a: nat, b: nat)
    requires Trace(ss, es) && ss[0] == Initial(ss[0].main)
    requires u in Waiters(ss[|es|], q) && u != Waiters(ss[|es|], q)[0]
    ensures
      var s := ss[|es|];
      var f, s' := Waiters(s, q)[0], ResumeOne(s, q);
      && s'.run == s.run + [f] && f in s'.th && s'.th[f].error == ECANCELED && Waiters(s', q) == Waiters(s, q)[1..]
      && Arrived(ss, es, q, f, a) && Arrived(ss, es, q, u, b) && a < b
  {
    var s := ss[|es|];
    var j: nat :| j < |Waiters(s, q)| && Waiters(s, q)[j] == u;
    InitialHolds(ss[0].main);
    TraceKeeps(ss, es);
    a, b := WaitersInOrder(ss, es, q, 0, j);
    var f := Waiters(s, q)[0];
    NotCurrent(s, q, 0);
    assert LocalInv(s, f, 0, 0, q);
    assert f !in s.wq[q][1..] by {
      forall i: nat | i < |s.wq[q][1..]| ensures s.wq[q][1..][i] != f { assert LocalInv(s, f, 0, i + 1, q); }
    }
    assert Without(s.wq[q][1..], f) == s.wq[q][1..];
  }

  // ----- the state of CURRENT -----

  lemma {:induction false} ResumesLeaves(s: State, ts: seq<Tid>, s': State, t: Tid)
    requires Inv(s) && Resumes(s, ts, s') && t in s.th && t !in s.sleepq
    ensures t in s'.th && s'.th[t] == s.th[t] && s.run <= s'.run
    decreases |ts|
  {
    if ts == [] {
    } else {
      AwakeKeeps(s, ts[0]);
      ResumesLeaves(Awake(s, ts[0]), ts[1..], s', t);
    }
  }

  /** While CURRENT is RUNNING, exactly two steps leave a CURRENT that is not: the head of a sleep,
      and the end of a thread that nobody may join. */
  lemma CurrentRunsIff(s: State, e: Event, s': State)
    requires Inv(s) && Step(s, e, s') && Patient(s, e)
    requires s.run[0] in s.th && s.th[s.run[0]].state == RUNNING
    ensures s'.run != [] && s'.run[0] in s'.th
    ensures s'.th[s'.run[0]].state == RUNNING <==> !(e.MarkWaiting? || (e.Exit? && !s.th[s.run[0]].joinable))
  {
    RunDistinct(s);
    match e
    case Resume(ts) => ResumesLeaves(s, ts, s', s.run[0]);
    case ResumeFront(q) => if q in s.wq && s.wq[q] != [] { NotCurrent(s, q, 0); }
    case Exit => assert LocalInv(s, s.run[1], 0, 0, NOWHERE);
    case Join(t) => JoinKeeps(s, t);
    case _ =>
  }

  lemma FirstStep(s: State, e: Event, m: State, es: seq<Event>, s': State)
    requires Step(s, e, m) && Run(m, es, s')
    ensures Run(s, [e] + es, s')
  {
    assert ([e] + es)[1..] == es;
  }

  lemma FirstPatientStep(s: State, e: Event, m: State, es: seq<Event>, s': State)
    requires Step(s, e, m) && Patient(s, e) && PatientRun(m, es, s')
    ensures PatientRun(s, [e] + es, s')
  {
    assert ([e] + es)[1..] == es;
  }

  /** One run to each of them: a thread nobody joins ends under the main thread, which goes on READY;
      and the main thread alone finds its sleep over and goes on WAITING. */
  lemma CurrentNeedNotRun() returns (es: seq<Event>, s: State, es': seq<Event>, s': State)
    ensures PatientRun(Initial(0), es, s) && s.run == [0] && 0 in s.th && s.th[0].state == READY
    ensures PatientRun(Initial(0), es', s') && s'.run == [0] && 0 in s'.th && s'.th[0].state == WAITING && s'.now == 5
  {
    es, s := EndsUnderReady();
    var c := SetState(Initial(0), 0, WAITING);
    s' := c.(now := 5);
    FirstPatientStep(c, Tick(5), s', [], s');
    es' := [MarkWaiting] + ([Tick(5)] + []);
    FirstPatientStep(Initial(0), MarkWaiting, c, [Tick(5)] + [], s');
  }

  lemma EndsUnderReady() returns (es: seq<Event>, s: State)
    ensures PatientRun(Initial(0), es, s) && s.run == [0] && 0 in s.th && s.th[0].state == READY
  {
    var a := Created(Initial(0), 1);
    var b := Switch(a, 1);
    assert b.run == [1, 0] && b.th.Keys == {0, 1};
    s := Die(b);
    FirstPatientStep(b, Exit, s, [], s);
    FirstPatientStep(a, SwitchTo(1), b, [Exit] + [], s);
    es := [Create(1)] + ([SwitchTo(1)] + ([Exit] + []));
    FirstPatientStep(Initial(0), Create(1), a, [SwitchTo(1)] + ([Exit] + []), s);
  }

  // ----- why a joiner must not be interrupted -----

  /** Main thread 0 and threads 1 and 2: 1 runs, and may be joined. */
  const JOINING_1 := Created(Created(Initial(0), 1), 2)
  const JOINING_2 := Switch(JOINING_1.(th := JOINING_1.th[1 := JOINING_1.th[1].(joinable := true)]), 1)

  /** 1 sleeps, and 2 has let 0 run. */
  const JOINING_3 := Park(JOINING_2, None, 9)
  const JOINING_4 := Switch(JOINING_3, 1)

  /** 0 has parked to join 1. */
  const JOINING := Park(JOINING_4, Some(Cond(1)), MAX)

  lemma JoiningStarts()
    ensures JOINING_1.run == [0, 1, 2] && JOINING_2.run == [1, 2, 0] && JOINING_3.run == [2, 0] &&
      JOINING_4.run == [0, 2]
    ensures JOINING_4.sleepq == {1} && JOINING_4.th.Keys == {0, 1, 2} && JOINING_4.wq == map[]
    ensures JOINING_4.th[1].state == WAITING && JOINING_4.th[1].waitq == None
  {
  }

  lemma JoiningParked()
    ensures JOINING.run == [2] && JOINING.sleepq == {0, 1} && JOINING.th.Keys == {0, 1, 2} &&
      JOINING.wq == map[Cond(1) := [0]]
    ensures JOINING.th[0].state == WAITING && JOINING.th[0].waitq == Some(Cond(1))
    ensures JOINING.th[1].state == WAITING && JOINING.th[1].waitq == None
  {
    JoiningStarts();
    ParksAlone(JOINING_4, 0, 2, Cond(1), MAX);
    assert JOINING.wq == map[Cond(1) := [0]];
  }

  lemma ParksAlone(s: State, t: Tid, u: Tid, q: Qid, expire: nat)
    requires s.run == [t, u] && t in s.th && u in s.th && t != u && q !in s.wq
    ensures
      var s' := Park(s, Some(q), expire);
      && s'.run == [u] && s'.sleepq == s.sleepq + {t} && s'.th.Keys == s.th.Keys && s'.wq == s.wq[q := [t]]
      && s'.th[t].state == WAITING && s'.th[t].waitq == Some(q)
      && forall x :: x in s.th && x != t && x != u ==> s'.th[x] == s.th[x]
  {
    assert [] + [t] == [t];
  }

  lemma JoiningParks(es: seq<Event>, s: State)
    requires Run(JOINING, es, s)
    ensures exists more :: Run(JOINING_2, more, s)
  {
    JoiningStarts();
    FirstStep(JOINING_4, ParkOn(Some(Cond(1)), MAX), JOINING, es, s);
    var es1 := [ParkOn(Some(Cond(1)), MAX)] + es;
    FirstStep(JOINING_3, SwitchTo(1), JOINING_4, es1, s);
    FirstStep(JOINING_2, ParkOn(None, 9), JOINING_3, [SwitchTo(1)] + es1, s);
  }

  lemma JoiningIsReached(es: seq<Event>, s: State)
    requires Run(JOINING, es, s)
    ensures exists more :: Run(Initial(0), more, s)
  {
    hide Run;
    JoiningParks(es, s);
    JoiningStarts();
    var es2 :| Run(JOINING_2, es2, s);
    var j1 := JOINING_1.(th := JOINING_1.th[1 := JOINING_1.th[1].(joinable := true)]);
    FirstStep(j1, SwitchTo(1), JOINING_2, es2, s);
    FirstStep(JOINING_1, EnableJoin(1, true), j1, [SwitchTo(1)] + es2, s);
    var es3 := [EnableJoin(1, true)] + ([SwitchTo(1)] + es2);
    FirstStep(Created(Initial(0), 1), Create(2), JOINING_1, es3, s);
    FirstStep(Initial(0), Create(1), Created(Initial(0), 1), [Create(2)] + es3, s);
  }

  /** 0 is asleep to join 1, is interrupted, and comes to run again. */
  lemma JoinerComesBack(j: State, error: int) returns (s: State)
    requires j.run == [2] && j.sleepq == {0, 1} && j.th.Keys == {0, 1, 2} && j.wq == map[Cond(1) := [0]]
    requires j.th[0].state == WAITING && j.th[0].waitq == Some(Cond(1)) && j.th[1].waitq == None
    ensures Run(j, [InterruptThread(0, error)] + ([SwitchTo(1)] + ([Join(1)] + [])), s)
    ensures 1 in s.sleepq && 1 !in s.th
  {
    var a := Interrupt(j, 0, error);
    assert a.run == [2, 0] && a.sleepq == {1} && a.th.Keys == {0, 1, 2};
    var b := Switch(a, 1);
    assert b.run == [0, 2] && b.th.Keys == {0, 1, 2};
    s := Disposed(b, 1);
    FirstStep(b, Join(1), s, [], s);
    hide Run;
    FirstStep(a, SwitchTo(1), b, [Join(1)] + [], s);
    FirstStep(j, InterruptThread(0, error), a, [SwitchTo(1)] + ([Join(1)] + []), s);
  }

  /** A joiner that is interrupted, by thread_shutdown for one, gives back the memory of a thread
      that is still in the sleep queue. */
  lemma InterruptedJoinFreesASleeper(error: int)
    ensures exists es, s :: Run(Initial(0), es, s) && 1 in s.sleepq && 1 !in s.th
  {
    hide Run;
    JoiningParked();
    var s := JoinerComesBack(JOINING, error);
    JoiningIsReached([InterruptThread(0, error)] + ([SwitchTo(1)] + ([Join(1)] + [])), s);
  }
}
