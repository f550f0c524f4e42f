/**
 The scheduler's own code, between two context switches: each method does to the fields what the
 protocol's step does to the state.
 */
module Scheduler {
  import opened Common
  import opened SchedProtocol
  import opened SchedSafety
  import opened SchedTheorems
  import S = SleepQueue

  datatype Turn = Parked | TimedOut | Interrupted | Idle

  /** The nodes in `q` are those of the sleepers, and every thread has one. */
  ghost predicate Linked(q: seq<S.Thread>, node: map<Tid, S.Thread>, sleepq: set<Tid>, th: map<Tid, Thread>) {
    && (forall t :: t in th ==> t in node)
    && (forall t :: t in node ==> node[t].id == t)
    && (forall x :: x in q ==> x.id in sleepq && x.id in node && node[x.id] == x)
    && (forall t :: t in sleepq ==> t in th && node[t] in q)
  }

  /** Each is due when its thread is. */
  ghost predicate Timed(q: seq<S.Thread>, th: map<Tid, Thread>)
    reads q
  {
    forall x :: x in q ==> x.id in th && th[x.id].wakeup == x.tsWakeup
  }

  lemma LinkedTh(q: seq<S.Thread>, node: map<Tid, S.Thread>, sleepq: set<Tid>, th: map<Tid, Thread>,
                 th': map<Tid, Thread>)
    requires Linked(q, node, sleepq, th) && Timed(q, th)
    requires forall t :: t in th' ==> t in th
    requires forall t :: t in sleepq && t in th ==> t in th' && th'[t].wakeup == th[t].wakeup
    ensures Linked(q, node, sleepq, th') && Timed(q, th')
  {
  }

  lemma LinkedWithout(q0: seq<S.Thread>, q: seq<S.Thread>, node: map<Tid, S.Thread>, sleepq: set<Tid>,
                      th: map<Tid, Thread>, t: Tid)
    requires Linked(q0, node, sleepq, th) && t in sleepq
    requires multiset(q) == multiset(q0) - multiset{node[t]} && node[t] !in q
    ensures Linked(q, node, sleepq - {t}, th) && forall x :: x in q ==> x in q0
  {
    forall y: S.Thread ensures y in q <==> y in q0 && y != node[t] { InWithout(q, q0, node[t], y); }
  }

  lemma LinkedWith(q0: seq<S.Thread>, q: seq<S.Thread>, node: map<Tid, S.Thread>, sleepq: set<Tid>,
                   th: map<Tid, Thread>, t: Tid)
    requires Linked(q0, node, sleepq, th) && t in th && multiset(q) == multiset(q0) + multiset{node[t]}
    ensures Linked(q, node, sleepq + {t}, th) && forall x :: x in q <==> x in q0 || x == node[t]
  {
    forall y: S.Thread ensures y in q <==> y in q0 || y == node[t] {
      assert y in q <==> y in multiset(q);
      assert y in q0 <==> y in multiset(q0);
    }
  }

  lemma Sleeps(s: State, t: Tid)
    requires Inv(s) && t in s.sleepq
    ensures t in s.th && s.th[t].state == WAITING && s.run != [] && t != s.run[0]
  {
    assert LocalInv(s, t, 0, 0, NOWHERE);
  }

  lemma WaitingSleeps(s: State, t: Tid)
    requires Inv(s) && t in s.th && s.th[t].state == WAITING
    ensures s.run != [] && (t != s.run[0] ==> t in s.sleepq) && s.run[0] !in s.sleepq
  {
    assert LocalInv(s, t, 0, 0, NOWHERE) && LocalInv(s, s.run[0], 0, 0, NOWHERE);
  }

  lemma DueSleeps(s: State, t: Tid)
    requires Inv(s) && DueFirst(s, t)
    ensures t in s.sleepq && t in s.th && s.th[t].state == WAITING && s.run != [] && t != s.run[0]
  {
    Sleeps(s, t);
  }

  /** How resume_sleepers got from `before` to `s`. */
  ghost predicate Leads(before: State, ts: seq<Tid>, s: State) {
    forall more, s' :: Resumes(s, more, s') ==> Resumes(before, ts + more, s')
  }

  lemma LeadsHere(s: State)
    ensures Leads(s, [], s)
  {
    assert forall more: seq<Tid> :: [] + more == more;
  }

  lemma LeadsTo(before: State, ts: seq<Tid>, s: State)
    requires Leads(before, ts, s) && forall t :: !DueFirst(s, t)
    ensures Resumes(before, ts, s)
  {
    assert Resumes(s, [], s);
    assert ts + [] == ts;
  }

  lemma LeadsOn(before: State, ts: seq<Tid>, s: State, t: Tid)
    requires Leads(before, ts, s) && DueFirst(s, t)
    ensures Leads(before, ts + [t], Awake(s, t))
  {
    forall more, s' | Resumes(Awake(s, t), more, s') ensures Resumes(before, (ts + [t]) + more, s') {
      assert ([t] + more)[1..] == more;
      assert Resumes(s, [t] + more, s');
      assert ts + ([t] + more) == (ts + [t]) + more;
    }
  }

  class Vcpu {
    var run: seq<Tid>
    var th: map<Tid, Thread>
    var wq: map<Qid, seq<Tid>>
    var now: nat
    const main: Tid
    const heap: S.Sleepers          // sleepq
    var node: map<Tid, S.Thread>    // the part of each thread that the heap works on
    ghost var sleepq: set<Tid>      // the threads in the heap

    ghost function View(): State
      reads this
    {
      State(run, sleepq, th, wq, now, main)
    }

    ghost function Nodes(): set<S.Thread>
      reads this
    {
      set t | t in node :: node[t]
    }

    /** The heap holds the sleepers, each with its wake-up time. */
    ghost predicate Heaped()
      reads this, heap, heap.q
    {
      heap.Valid() && Linked(heap.q, node, sleepq, th) && Timed(heap.q, th)
    }

    ghost predicate Valid()
      reads this, heap, heap.q
    {
      Inv(View()) && Heaped()
    }

    constructor (main: Tid)
      ensures View() == Initial(main) && Valid() && fresh(heap) && fresh(Nodes())
    {
      this.main := main;
      run, wq, now := [main], map[], 0;
      sleepq := {};
      th := map[main := Thread(RUNNING, 0, None, 0, false)];
      var h := new S.Sleepers();
      var x := new S.Thread(main);
      heap, node := h, map[main := x];
      new;
      InitialHolds(main);
    }

    method ThreadCreate(t: Tid)
      requires Valid() && t !in th
      modifies this
      ensures View() == Created(old(View()), t) && Valid() && fresh(Nodes() - old(Nodes()))
    {
      CreatedKeeps(View(), t);
      var x := new S.Thread(t);
      node := node[t := x];
      th := th[t := Thread(READY, 0, None, 0, false)];
      run := run + [t];
    }

    /** dequeue_ready, for a thread that has just been taken off the sleep queue: it is READY at the
        ring's tail and in no wait queue, and the others wait in the order they did. */
    method Dequeue(t: Tid)
      requires Inv(View().(sleepq := sleepq + {t})) && t in th && t !in sleepq && th[t].state == WAITING && t != run[0]
      modifies this`run, this`th, this`wq
      ensures View() == DequeueReady(old(View()), t) && Inv(View())
      ensures run == old(run) + [t] && th[t].state == READY && th[t].waitq == None
      ensures forall q :: t !in Waiters(View(), q) && Thinned(Waiters(View(), q), old(Waiters(View(), q)))
    {
      ghost var s := View().(sleepq := sleepq + {t});
      assert LocalInv(s, t, 0, 0, NOWHERE);
      assert s.(sleepq := s.sleepq - {t}) == View();
      AwakeKeeps(s, t);
      forall q { AwakeThins(s, t, q); }
      var x := th[t];
      if x.waitq.Some? && x.waitq.value in wq {
        wq := wq[x.waitq.value := Without(wq[x.waitq.value], t)];
      }
      th := th[t := x.(waitq := None, state := READY)];
      run := run + [t];
      forall q ensures t !in Waiters(View(), q) { assert LocalInv(View(), t, 0, 0, q); }
    }

    /** The front of the sleep queue, if it is due. */
    method FrontIfDue() returns (t: Option<Tid>)
      requires Valid()
      ensures t.Some? ==> heap.q != [] && heap.q[0].id == t.value && DueFirst(View(), t.value)
      ensures t.None? ==> forall u :: !DueFirst(View(), u)
    {
      t := None;
      if heap.q != [] {
        var front := heap.q[0];
        heap.FrontIsDueFirst();
        hide Inv, S.Sleepers.Valid;
        forall u | u in sleepq ensures th[front.id].wakeup <= th[u].wakeup { assert node[u] in heap.q; }
        if front.tsWakeup <= now { t := Some(front.id); }
        assert front.tsWakeup <= now ==> DueFirst(View(), front.id);
        assert forall u :: DueFirst(View(), u) ==> th[front.id].wakeup <= now;
      }
    }

    method PopFrontNode() returns (x: S.Thread)
      requires heap.Valid() && heap.q != [] && forall y :: y in heap.q ==> y in Nodes()
      modifies heap, (set y: S.Thread | y in Nodes())`idx
      ensures heap.Valid() && x == old(heap.q[0]) && multiset(heap.q) == multiset(old(heap.q)) - multiset{x} &&
        x !in heap.q
    {
      hide S.Sleepers.Valid;
      x := heap.PopFront();
    }

    method PopNode(x: S.Thread)
      requires heap.Valid() && x in heap.q && forall y :: y in heap.q ==> y in Nodes()
      modifies heap, (set y: S.Thread | y in Nodes())`idx
      ensures heap.Valid() && multiset(heap.q) == multiset(old(heap.q)) - multiset{x} && x !in heap.q
    {
      IsIndexed(heap, x);
      hide S.Sleepers.Valid;
      var r := heap.Pop(x);
    }

    /** pop_front takes a thread off the heap that is due first. */
    method TakeFront()
      requires Heaped() && heap.q != []
      modifies heap, Nodes(), this`sleepq
      ensures sleepq == old(sleepq) - {old(heap.q[0].id)} && |sleepq| < |old(sleepq)| && Heaped()
    {
      hide S.Sleepers.Valid;
      ghost var q0, was := heap.q, sleepq;
      assert heap.q[0] in heap.q;
      var x := PopFrontNode();
      Taken(q0, was, x.id);
      assert was == sleepq - {x.id} + {x.id};
      sleepq := sleepq - {x.id};
    }

    /** sleepq.pop(th), for a sleeper. */
    method TakeOut(t: Tid)
      requires Heaped() && t in sleepq
      modifies heap, Nodes(), this`sleepq
      ensures sleepq == old(sleepq) - {t} && Heaped()
    {
      hide S.Sleepers.Valid;
      ghost var q0, was := heap.q, sleepq;
      PopNode(node[t]);
      Taken(q0, was, t);
      sleepq := sleepq - {t};
    }

    lemma Taken(q0: seq<S.Thread>, was: set<Tid>, t: Tid)
      requires Linked(q0, node, was, th) && t in was && multiset(heap.q) == multiset(q0) - multiset{node[t]} &&
        node[t] !in heap.q
      requires forall x :: x in q0 ==> x.id in th && th[x.id].wakeup == x.tsWakeup
      ensures Linked(heap.q, node, was - {t}, th) && Timed(heap.q, th)
    {
      LinkedWithout(q0, heap.q, node, was, th, t);
      hide Linked;
      forall y | y in heap.q ensures y.id in th && th[y.id].wakeup == y.tsWakeup { assert y in q0; }
    }

    /** enqueue_wait and sleepq.push, for a thread that does not sleep, and whose wake-up time will be
        this one. */
    method PutIn(t: Tid, expire: nat, ghost th1: map<Tid, Thread>)
      requires Heaped() && t in th && t !in sleepq && th1.Keys == th.Keys && t in th1 && th1[t].wakeup == expire
      requires forall u :: u in sleepq && u in th ==> th1[u].wakeup == th[u].wakeup
      modifies heap, Nodes(), this`sleepq
      ensures sleepq == old(sleepq) + {t} && heap.Valid() && Linked(heap.q, node, sleepq, th1) && Timed(heap.q, th1)
    {
      ghost var q0, was := heap.q, sleepq;
      var x := node[t];
      LinkedTh(q0, node, was, th, th1);
      SetWakeup(x, expire);
      PushNode(x);
      sleepq := sleepq + {t};
      LinkedWith(q0, heap.q, node, was, th1, t);
      hide Linked;
      assert Timed(heap.q, th1);
    }

    method SetWakeup(x: S.Thread, expire: nat)
      requires heap.Valid() && x !in heap.q
      modifies x`tsWakeup
      ensures heap.Valid() && x.tsWakeup == expire
    {
      x.tsWakeup := expire;
    }

    method PushNode(x: S.Thread)
      requires heap.Valid() && x !in heap.q && x in Nodes() && forall y :: y in heap.q ==> y in Nodes()
      modifies heap, (set y: S.Thread | y in Nodes())`idx
      ensures heap.Valid() && multiset(heap.q) == multiset(old(heap.q)) + multiset{x}
    {
      hide S.Sleepers.Valid;
      heap.Push(x);
    }

    method WakeDue(t: Tid)
      requires Valid() && DueFirst(View(), t) && heap.q != [] && heap.q[0].id == t
      modifies this, heap, Nodes()
      ensures View() == Awake(old(View()), t) && Valid() && |sleepq| < |old(sleepq)| && node == old(node)
    {
      hide Inv, DueFirst, S.Sleepers.Valid, Linked, Timed;
      DueSleeps(View(), t);
      TakeFront();
      assert View().(sleepq := sleepq + {t}) == old(View());
      ghost var th1 := th;
      Dequeue(t);
      LinkedTh(heap.q, node, sleepq, th1, th);
    }

    method ResumeSleepers() returns (count: nat, ghost ts: seq<Tid>)
      requires Valid()
      modifies this, heap, Nodes()
      ensures Resumes(old(View()), ts, View()) && count == |ts| && Valid() && node == old(node)
    {
      hide Inv, Heaped, Resumes, Leads;
      count, ts := 0, [];
      ghost var before := View();
      LeadsHere(before);
      var front := FrontIfDue();
      while front.Some?
        invariant Valid() && count == |ts| && Leads(before, ts, View()) && node == old(node)
        invariant front.Some? ==> heap.q != [] && heap.q[0].id == front.value && DueFirst(View(), front.value)
        invariant front.None? ==> forall u :: !DueFirst(View(), u)
        decreases |sleepq|, front.Some?
      {
        LeadsOn(before, ts, View(), front.value);
        WakeDue(front.value);
        count, ts := count + 1, ts + [front.value];
        front := FrontIfDue();
      }
      LeadsTo(before, ts, View());
    }

    /** CURRENT := run[k]. */
    method SwitchContext(k: nat)
      requires Valid() && k < |run| && run[0] in th && run[k] in th
      modifies this, heap, Nodes()
      ensures View() == Switch(old(View()), k) && Valid()
    {
      SwitchKeeps(View(), k);
      var from, to := run[0], run[k];
      run := run[k..] + run[..k];
      th := th[from := th[from].(state := READY)];
      th := th[to := th[to].(state := RUNNING)];
    }

    /** Nothing to yield to, or the next of the ring runs; the sleepers that are due come first into
        a ring that held nobody else. */
    method Yield() returns (switched: bool, ghost ts: seq<Tid>, ghost mid: State)
      requires Valid()
      modifies this, heap, Nodes()
      ensures |old(run)| > 1 ==> switched && mid == old(View())
      ensures |old(run)| == 1 ==> Resumes(old(View()), ts, mid) && (switched <==> ts != [])
      ensures switched ==> Enabled(mid, SwitchTo(1)) && View() == Switch(mid, 1)
      ensures !switched ==> View() == old(View())
      ensures Valid()
    {
      switched, ts, mid := true, [], View();
      if |run| == 1 {
        var count;
        count, ts := ResumeSleepers();
        mid := View();
        if count == 0 {
          switched := false;
          return;
        }
        ResumesExactlyTheDue(old(View()), ts, View());
      }
      RunDistinct(View());
      SwitchContext(1);
    }

    /** thread_yield_to a named thread, which must be READY. */
    method YieldTo(t: Tid) returns (ok: bool)
      requires Valid() && t in th
      modifies this, heap, Nodes()
      ensures ok == (old(th)[t].state == READY)
      ensures ok ==> exists k: nat ::
        Enabled(old(View()), SwitchTo(k)) && old(run)[k] == t && View() == Switch(old(View()), k)
      ensures !ok ==> View() == old(View())
      ensures Valid()
    {
      if th[t].state != READY { return false; }
      assert LocalInv(View(), t, 0, 0, NOWHERE);
      RunDistinct(View());
      var k: nat :| k < |run| && run[k] == t;
      SwitchContext(k);
      assert Enabled(old(View()), SwitchTo(k));
      return true;
    }

    /** The fields of enqueue_wait and of the switch. */
    method LeaveRing(q: Option<Qid>, expire: nat)
      requires |run| > 1 && run[0] in th && run[1] in th
      modifies this`run, this`th, this`wq
      ensures View() == Park(old(View()), q, expire).(sleepq := sleepq)
    {
      var t := run[0];
      run := run[1..];
      th := th[t := th[t].(wakeup := expire, waitq := q, state := WAITING)];
      if q.Some? { wq := wq[q.value := (if q.value in wq then wq[q.value] else []) + [t]]; }
      th := th[run[0] := th[run[0]].(state := RUNNING)];
    }

    /** CURRENT leaves the ring. */
    method ParkCurrent(q: Option<Qid>, expire: nat)
      requires Valid() && |run| > 1 && run[0] in th && run[1] in th
      modifies this, heap, Nodes()
      ensures View() == Park(old(View()), q, expire) && Valid()
    {
      ghost var s := View();
      ParkKeeps(s, q, expire);
      RunDistinct(s);
      ParkIs(s, q, expire);
      hide Inv, S.Sleepers.Valid, Linked, Timed, Park, LocalInv;
      PutIn(run[0], expire, Park(s, q, expire).th);
      LeaveRing(q, expire);
    }

    /** One pass of thread_usleep's loop.  On Idle the caller sleeps until the next wake-up and
        comes back; the pass has changed nothing. */
    method UsleepTurn(q: Option<Qid>, expire: nat) returns (turn: Turn, ghost ts: seq<Tid>, ghost mid: State)
      requires Valid()
      modifies this, heap, Nodes()
      ensures turn == Parked <==> |old(run)| > 1 || exists t :: Due(old(View()), t)
      ensures turn == Parked ==>
        (if |old(run)| > 1 then mid == old(View()) else Resumes(old(View()), ts, mid)) &&
        Enabled(mid, ParkOn(q, expire)) && View() == Park(mid, q, expire)
      ensures turn != Parked ==> View() == old(View()) && (turn == TimedOut <==> expire <= now)
      ensures Valid()
    {
      ts, mid := [], View();
      if |run| == 1 {
        var count;
        count, ts := ResumeSleepers();
        ResumesExactlyTheDue(old(View()), ts, View());
        mid := View();
        if count == 0 {
          turn := if now >= expire then TimedOut else Idle;
          return;
        }
        assert Due(old(View()), ts[0]);
      }
      RunDistinct(View());
      ParkCurrent(q, expire);
      turn := Parked;
    }

    /** A sleeper leaves the heap, and any wait queue, for the run ring. */
    method WakeSleeper(t: Tid)
      requires Valid() && t in sleepq
      modifies this, heap, Nodes()
      ensures View() == Awake(old(View()), t) && t in th && Heaped() && node == old(node)
    {
      Sleeps(View(), t);
      hide Inv, S.Sleepers.Valid, Linked, Timed, Waiters, Thinned;
      TakeOut(t);
      assert View().(sleepq := sleepq + {t}) == old(View());
      ghost var th1 := th;
      Dequeue(t);
      LinkedTh(heap.q, node, sleepq, th1, th);
    }

    method ThreadInterrupt(t: Tid, error: int)
      requires Valid() && t in th
      modifies this, heap, Nodes()
      ensures View() == Interrupt(old(View()), t, error) && Valid()
    {
      InterruptKeeps(View(), t, error);
      if th[t].state == READY { return; }
      if th[t].state != WAITING { return; }
      WaitingSleeps(View(), t);
      hide Inv, S.Sleepers.Valid, Linked, Timed, Waiters, Thinned;
      ghost var th1 := th;
      if t == run[0] {
        th := th[t := th[t].(state := READY, error := error)];
        LinkedTh(heap.q, node, sleepq, th1, th);
        return;
      }
      hide Awake;
      WakeSleeper(t);
      th1 := th;
      th := th[t := th[t].(error := error)];
      LinkedTh(heap.q, node, sleepq, th1, th);
    }

    method WaitqResumeOne(q: Qid)
      requires Valid()
      modifies this, heap, Nodes()
      ensures View() == ResumeOne(old(View()), q) && Valid()
    {
      if q in wq && wq[q] != [] {
        assert LocalInv(View(), wq[q][0], 0, 0, q);
        ThreadInterrupt(wq[q][0], ECANCELED);
      }
    }

    method Leave()
      requires Valid() && |run| > 1 && run[0] in th && run[1] in th && run[0] != run[1] && run[0] != main
      modifies this, heap, Nodes()
      ensures View() == Die(old(View())) && Valid()
    {
      DieKeeps(View());
      RunDistinct(View());
      hide Inv, S.Sleepers.Valid, Linked, Timed, Waiters, Thinned;
      ghost var th1 := th;
      var t := run[0];
      run := run[1..];
      if !th[t].joinable {
        th := th - {t};
      } else {
        th := th[t := th[t].(state := DONE)];
        th := th[run[0] := th[run[0]].(state := RUNNING)];
      }
      LinkedTh(heap.q, node, sleepq, th1, th);
    }

    /** The end of thread_join, which trusts that the thread it waited for has finished: only one that
        is awake, and neither CURRENT nor the main thread, can go without harm to the lists. */
    method DisposeJoined(t: Tid)
      requires Valid() && t in th
      modifies this, heap, Nodes()
      ensures View() == Disposed(old(View()), t)
      ensures Valid() <==> old(t !in sleepq && t != run[0] && t != main)
    {
      JoinKeepsIff(View(), t);
      var q := th[t].waitq;
      run := Detached(run, t);
      if q.Some? && q.value in wq { wq := wq[q.value := Detached(wq[q.value], t)]; }
      th := th - {t};
    }

    /** The end of thread_stub, up to one idle sleep.  A thread alone in the ring is never the last:
        the main thread is asleep, so the loop waits and the ring it leaves is not empty. */
    method StubEnd() returns (gone: bool, ghost ts: seq<Tid>, ghost mid: State)
      requires Valid() && run[0] != main
      modifies this, heap, Nodes()
      ensures gone <==> |old(run)| > 1 || exists t :: Due(old(View()), t)
      ensures gone ==>
        (if |old(run)| > 1 then mid == old(View()) else Resumes(old(View()), ts, mid)) &&
        Enabled(mid, Exit) && View() == Die(mid)
      ensures !gone ==> View() == old(View()) && sleepq != {}
      ensures Valid() && run != []
    {
      ts, mid := [], View();
      if |run| == 1 {
        assert LocalInv(View(), main, 0, 0, NOWHERE);
        var count;
        count, ts := ResumeSleepers();
        ResumesExactlyTheDue(old(View()), ts, View());
        mid := View();
        if count == 0 { return false, ts, mid; }
        assert Due(old(View()), ts[0]);
      }
      RunDistinct(View());
      Leave();
      gone := true;
    }
  }

  lemma ParkIs(s: State, q: Option<Qid>, expire: nat)
    requires |s.run| > 1 && s.run[0] in s.th && s.run[1] in s.th && s.run[0] != s.run[1]
    ensures
      var s' := Park(s, q, expire);
      && s'.sleepq == s.sleepq + {s.run[0]} && s'.th.Keys == s.th.Keys && s'.th[s.run[0]].wakeup == expire
      && (forall u :: u in s.th && u != s.run[0] ==> s'.th[u].wakeup == s.th[u].wakeup) && s'.now == s.now &&
        s'.main == s.main
    ensures forall x :: Park(s, q, expire).(sleepq := x) == Park(s.(sleepq := x), q, expire).(sleepq := x)
  {
  }

  lemma IsIndexed(h: S.Sleepers, x: S.Thread)
    requires h.Valid() && x in h.q
    ensures x.idx >= 0
  {
    var i :| 0 <= i < |h.q| && h.q[i] == x;
  }

  lemma InWithout(q: seq<S.Thread>, q0: seq<S.Thread>, x: S.Thread, y: S.Thread)
    requires multiset(q) == multiset(q0) - multiset{x} && x !in q
    ensures y in q <==> y in q0 && y != x
  {
    assert y in q <==> y in multiset(q);
    assert y in q0 <==> y in multiset(q0);
  }
}
