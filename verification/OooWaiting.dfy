/**
 When a thread whose result is there already still waits: wait_completion takes the lock before it looks
 at the map, and the lock may be with a reader that waits for an answer.
 */
module OooWaiting {
  import opened Common
  import opened OooProtocol
  import opened OooSafety
  import opened OooTheorems
  import opened OooDiscipline

  /** In the queue for the lock, with nothing left to wait for. */
  ghost predicate ServedAsleep(s: State, t: Tid) {
    PcOf(s, t).LockR? && PcOf(s, t).c in s.ctx && s.ctx[PcOf(s, t).c].collected
  }

  /** `t` asks for the lock, for the first time or again, with its result there. */
  ghost predicate AsksServed(s: State, e: Event, t: Tid)
    requires Enabled(s, e)
  {
    || (e.CallWait? && e.t == t && s.ctx[e.c].collected)
    || (e.Retry? && e.t == t && !PcOf(s, t).interrupted && s.ctx[PcOf(s, t).c].collected)
  }

  /** A thread falls asleep on a result that is there exactly when it asks for the lock with it, and the
      lock is taken; that a result comes for a thread that sleeps wakes it. */
  lemma FallsAsleepIff(s: State, e: Event, t: Tid)
    requires Inv(s) && Enabled(s, e) && !ServedAsleep(s, t)
    ensures ServedAsleep(Apply(s, e), t) <==> s.rOwner.Some? && AsksServed(s, e, t)
  {
    match e
    case CallWait(u, c) => CallAsleep(s, u, c, t);
    case Retry(u) => RetryAsleep(s, u, PcOf(s, u).c, PcOf(s, u).interrupted, t);
    case CollectedOther(u, data) => CollectAsleep(s, u, data, t);
    case ReceiveHeader(u, tag) => HeaderAsleep(s, u, tag, t);
    case ReceiveFail(u) =>
      var p := PcOf(s, u);
      ExitAsleep(s.(mp := s.mp - {p.oTag}), u, p.c, Fail, p.locked, t);
    case Leave(u) => ExitAsleep(s, u, PcOf(s, u).c, PcOf(s, u).ret, PcOf(s, u).locked, t);
    case _ => OtherAsleep(s, e, t);
  }

  lemma OtherAsleep(s: State, e: Event, t: Tid)
    requires Inv(s) && Enabled(s, e) && !ServedAsleep(s, t)
    requires e.BeginIssue? || e.EnterIssue? || e.Sent? || e.FinishIssue? || e.FailIssue? || e.CollectedOwn? ||
             e.ShutCall? || e.ShutSpin? || e.ShutWake?
    ensures !ServedAsleep(Apply(s, e), t)
  {
    assert LocalInv(s, 0, t, 0);
    if e.EnterIssue? { assert LocalInv(s, 0, e.t, PcOf(s, e.t).c); }
  }

  lemma ExitAsleep(s: State, u: Tid, c: Cid, r: Result, l: bool, t: Tid)
    requires !ServedAsleep(s, t)
    ensures !ServedAsleep(Exit(s, u, c, r, l), t)
  {
  }

  lemma HeaderAsleep(s: State, u: Tid, tag: Tag, t: Tid)
    requires Enabled(s, ReceiveHeader(u, tag)) && !ServedAsleep(s, t)
    ensures !ServedAsleep(Apply(s, ReceiveHeader(u, tag)), t)
  {
    var p := PcOf(s, u);
    var s1 := HeaderRead(s, p.c, tag);
    assert !ServedAsleep(s1, t);
    if tag != p.oTag && tag !in s.mp {
      ExitAsleep(s1.(mp := s1.mp - {p.oTag}, pending := None), u, p.c, Fail, p.locked, t);
    }
  }

  lemma CollectAsleep(s: State, u: Tid, data: int, t: Tid)
    requires Inv(s) && Enabled(s, CollectedOther(u, data)) && !ServedAsleep(s, t)
    ensures !ServedAsleep(Apply(s, CollectedOther(u, data)), t)
  {
    assert LocalInv(s, 0, t, 0) && LocalInv(s, 0, u, 0);
  }

  lemma EnterAsleep(s: State, u: Tid, c: Cid, l: bool, t: Tid)
    requires c in s.ctx && !ServedAsleep(s, t)
    ensures !ServedAsleep(Enter(s, u, c, l), t)
  {
    var oTag := s.ctx[c].tag;
    ExitAsleep(s, u, c, Fail, l, t);
    if oTag in s.mp && s.mp[oTag] in s.ctx {
      var s1 := s.(mp := s.mp - {oTag});
      assert !ServedAsleep(s1, t);
      ExitAsleep(s1, u, c, s.ctx[s.mp[oTag]].ret, l, t);
    }
  }

  lemma RetryAsleep(s: State, u: Tid, c: Cid, interrupted: bool, t: Tid)
    requires c in s.ctx && !ServedAsleep(s, t) && PcOf(s, u) == WokenR(c, interrupted)
    ensures
      ServedAsleep(RetryLock(s, u, c, interrupted), t) <==>
        s.rOwner.Some? && u == t && !interrupted && s.ctx[c].collected
  {
    if interrupted {
      EnterAsleep(s, u, c, false, t);
    } else if s.rOwner == None {
      EnterAsleep(s.(rOwner := Some(u)), u, c, true, t);
    }
  }

  lemma CallAsleep(s: State, u: Tid, c: Cid, t: Tid)
    requires Enabled(s, CallWait(u, c)) && !ServedAsleep(s, t)
    ensures ServedAsleep(Apply(s, CallWait(u, c)), t) <==> s.rOwner.Some? && u == t && s.ctx[c].collected
  {
    var s1 := BeginWait(s, u, c);
    assert !ServedAsleep(s1, t);
    RetryAsleep(s1, u, c, false, t);
  }

  // ----- how long -----

  /** The step gives the lock back: a reader leaves, or a thread that finds the lock free and its result
      there. */
  ghost predicate GivesBack(s: State, e: Event)
    requires Enabled(s, e)
  {
    match e
    case Leave(u) => PcOf(s, u).locked
    case ReceiveFail(u) => true
    case ReceiveHeader(u, tag) => tag !in s.mp
    case CallWait(u, c) => s.rOwner == None && s.ctx[c].collected
    case Retry(u) => !PcOf(s, u).interrupted && s.rOwner == None && s.ctx[PcOf(s, u).c].collected
    case _ => false
  }

  /** It sleeps on until somebody gives the lock back and it is the first in the queue, or the result of
      another operation of its own comes. */
  lemma SleepsOnIff(s: State, e: Event, t: Tid)
    requires Inv(s) && Enabled(s, e) && ServedAsleep(s, t)
    ensures s.rq != []
    ensures
      ServedAsleep(Apply(s, e), t) <==>
        !(GivesBack(s, e) && s.rq[0] == t) && !(e.CollectedOther? && s.ctx[PcOf(s, e.t).target].th == t)
  {
    hide IsNextFree, QueueInv, DrainInv, WaitInv, Exit, RetryLock;
    assert LocalInv(s, 0, t, 0);
    match e
    case CallWait(u, c) => CallSleeps(s, u, c, t);
    case Retry(u) =>
      assert LocalInv(s, s.ctx[PcOf(s, u).c].key, u, 0);
      RetrySleeps(s, u, PcOf(s, u).c, PcOf(s, u).interrupted, t);
    case CollectedOther(u, data) => CollectSleeps(s, u, data, t);
    case ReceiveHeader(u, tag) => HeaderSleeps(s, u, tag, t);
    case ReceiveFail(u) =>
      var p := PcOf(s, u);
      assert LocalInv(s, 0, u, 0);
      ExitSleeps(s.(mp := s.mp - {p.oTag}), u, p.c, Fail, p.locked, t);
    case Leave(u) => ExitSleeps(s, u, PcOf(s, u).c, PcOf(s, u).ret, PcOf(s, u).locked, t);
    case _ => OtherSleeps(s, e, t);
  }

  lemma OtherSleeps(s: State, e: Event, t: Tid)
    requires Inv(s) && Enabled(s, e) && ServedAsleep(s, t)
    requires e.BeginIssue? || e.EnterIssue? || e.Sent? || e.FinishIssue? || e.FailIssue? || e.CollectedOwn? ||
             e.ShutCall? || e.ShutSpin? || e.ShutWake?
    ensures ServedAsleep(Apply(s, e), t)
  {
    hide IsNextFree, QueueInv, DrainInv, WaitInv;
    assert LocalInv(s, 0, t, 0);
    if e.EnterIssue? || e.FailIssue? { assert LocalInv(s, 0, e.t, PcOf(s, e.t).c); }
  }

  lemma ExitSleeps(s: State, u: Tid, c: Cid, r: Result, l: bool, t: Tid)
    requires ServedAsleep(s, t) && u != t && s.rq != []
    ensures ServedAsleep(Exit(s, u, c, r, l), t) <==> !(l && s.rq[0] == t)
  {
  }

  lemma HeaderSleeps(s: State, u: Tid, tag: Tag, t: Tid)
    requires Inv(s) && Enabled(s, ReceiveHeader(u, tag)) && ServedAsleep(s, t) && s.rq != []
    ensures ServedAsleep(Apply(s, ReceiveHeader(u, tag)), t) <==> !(tag !in s.mp && s.rq[0] == t)
  {
    var p := PcOf(s, u);
    assert LocalInv(s, 0, u, 0);
    var s1 := HeaderRead(s, p.c, tag);
    assert ServedAsleep(s1, t);
    if tag !in s.mp { ExitSleeps(s1.(mp := s1.mp - {p.oTag}, pending := None), u, p.c, Fail, p.locked, t); }
  }

  lemma CollectSleeps(s: State, u: Tid, data: int, t: Tid)
    requires Inv(s) && Enabled(s, CollectedOther(u, data)) && ServedAsleep(s, t)
    ensures ServedAsleep(Apply(s, CollectedOther(u, data)), t) <==> s.ctx[PcOf(s, u).target].th != t
  {
    assert LocalInv(s, 0, t, 0) && LocalInv(s, 0, u, 0);
  }

  lemma RetrySleeps(s: State, u: Tid, c: Cid, interrupted: bool, t: Tid)
    requires ServedAsleep(s, t) && PcOf(s, u) == WokenR(c, interrupted) && s.rq != []
    requires Registered(s, u, c) && s.ctx[c].tag == s.ctx[c].key && (interrupted ==> s.ctx[c].collected)
    ensures
      ServedAsleep(RetryLock(s, u, c, interrupted), t) <==>
        !(!interrupted && s.rOwner == None && s.ctx[c].collected && s.rq[0] == t)
  {
    var s0 := if interrupted then s else s.(rOwner := Some(u));
    ExitSleeps(s0.(mp := s0.mp - {s.ctx[c].tag}), u, c, s.ctx[c].ret, !interrupted, t);
  }

  lemma CallSleeps(s: State, u: Tid, c: Cid, t: Tid)
    requires Inv(s) && Enabled(s, CallWait(u, c)) && ServedAsleep(s, t) && s.rq != []
    ensures
      ServedAsleep(Apply(s, CallWait(u, c)), t) <==> !(s.rOwner == None && s.ctx[c].collected && s.rq[0] == t)
  {
    assert LocalInv(s, s.ctx[c].key, u, c);
    RetrySleeps(BeginWait(s, u, c), u, c, false, t);
  }

  // ----- a thread that is served, and sleeps -----

  const ISSUED := Issued(Issued(INITIAL, 1, 10, 1), 2, 20, 2)
  const READING := RetryLock(BeginWait(ISSUED, 2, 20), 2, 20, false)
  const COLLECTING := Dispatch(READING, 2, 20, 2, true, 1)
  const COLLECTED := OtherCollected(COLLECTING, 2, 20, 2, 10, true, 5)

  lemma ReaderServes()
    ensures PcOf(READING, 2) == Receiving(20, 2, true) && Enabled(READING, ReceiveHeader(2, 1))
    ensures PcOf(COLLECTING, 2) == CollectOther(20, 2, 10, true) && Enabled(COLLECTING, CollectedOther(2, 5))
    ensures COLLECTED.rOwner == Some(2) && PcOf(COLLECTED, 2) == Receiving(20, 2, true) &&
      Enabled(COLLECTED, CallWait(1, 10))
    ensures COLLECTED.ctx[10].collected
  {
  }

  lemma Serving(es: seq<Event>, s: State)
    requires Run(COLLECTED, es, s)
    ensures exists more :: Run(INITIAL, more, s)
  {
    ReaderServes();
    hide Run;
    FirstStep(COLLECTING, CollectedOther(2, 5), es, s);
    FirstStep(READING, ReceiveHeader(2, 1), [CollectedOther(2, 5)] + es, s);
    var es1 := [ReceiveHeader(2, 1)] + ([CollectedOther(2, 5)] + es);
    FirstStep(ISSUED, CallWait(2, 20), es1, s);
    var a := Issued(INITIAL, 1, 10, 1);
    IssueAlone(a, 2, 20, 2, [CallWait(2, 20)] + es1, s);
    var es2 :| Run(a, es2, s);
    IssueAlone(INITIAL, 1, 10, 1, es2, s);
  }

  /** A run to it: 2 has collected the result of 1, and receives on for its own; 1 asks for its result, and
      queues behind 2. */
  lemma ServedThreadQueues()
    ensures exists es, s :: Run(INITIAL, es, s) && ServedAsleep(s, 1) && PcOf(s, 2).Receiving?
  {
    ReaderServes();
    var s := Apply(COLLECTED, CallWait(1, 10));
    assert ServedAsleep(s, 1) && PcOf(s, 2).Receiving?;
    hide ServedAsleep;
    FirstStep(COLLECTED, CallWait(1, 10), [], s);
    Serving([CallWait(1, 10)] + [], s);
  }
}
