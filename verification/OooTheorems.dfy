/** What holds over every run of the out-of-order engine. */
module OooTheorems {
  import opened Common
  import opened OooProtocol
  import opened OooSafety

  lemma InitialInv()
    ensures Inv(INITIAL)
  {
    assert Issuers(INITIAL) == {};
  }

  lemma IssueStepKeeps(s: State, e: Event)
    requires Inv(s) && Enabled(s, e)
    requires e.BeginIssue? || e.EnterIssue? || e.Sent? || e.FinishIssue? || e.FailIssue?
    ensures Inv(Apply(s, e))
  {
    match e
    case BeginIssue(t, c, user) => BeginKeeps(s, t, c, user);
    case EnterIssue(t, tag) =>
      if !s.running || tag in s.mp { RefuseKeeps(s, t, PcOf(s, t).c); }
      else { AcceptKeeps(s, t, PcOf(s, t).c, PcOf(s, t).user, tag); }
    case Sent(t) => SentKeeps(s, t, PcOf(s, t).c);
    case FinishIssue(t) => IssueDoneKeeps(s, t);
    case FailIssue(t) => SendFailedKeeps(s, t, PcOf(s, t).c);
  }

  lemma WaitStepKeeps(s: State, e: Event)
    requires Inv(s) && Enabled(s, e) && Orderly(s, e)
    requires e.CallWait? || e.Retry? || e.ReceiveFail? || e.ReceiveHeader?
    ensures Inv(Apply(s, e))
  {
    match e
    case CallWait(t, c) =>
      CallWaitKeeps(s, t, c);
    case Retry(t) => RetryKeeps(s, t, PcOf(s, t).c, PcOf(s, t).interrupted);
    case ReceiveFail(t) => ReceiveFailKeeps(s, t, PcOf(s, t).c, PcOf(s, t).oTag, PcOf(s, t).locked);
    case ReceiveHeader(t, tag) => DispatchKeeps(s, t, PcOf(s, t).c, PcOf(s, t).oTag, PcOf(s, t).locked, tag);
  }

  lemma CollectStepKeeps(s: State, e: Event)
    requires Inv(s) && Enabled(s, e)
    requires e.CollectedOther? || e.CollectedOwn? || e.Leave? || e.ShutCall? || e.ShutSpin? || e.ShutWake?
    ensures Inv(Apply(s, e))
  {
    match e
    case CollectedOther(t, data) =>
      var p := PcOf(s, t);
      OtherCollectedKeeps(s, t, p.c, p.oTag, p.target, p.locked, data);
    case CollectedOwn(t, data) => OwnCollectedKeeps(s, t, PcOf(s, t).c, PcOf(s, t).oTag, PcOf(s, t).locked, data);
    case Leave(t) => ExitKeeps(s, t, PcOf(s, t).c, PcOf(s, t).ret, PcOf(s, t).locked);
    case ShutCall => ShutFrame(s, Apply(s, e));
    case ShutSpin => ShutFrame(s, Apply(s, e));
    case ShutWake => ShutFrame(s, Apply(s, e));
  }

  lemma StepKeeps(s: State, e: Event)
    requires Inv(s) && Enabled(s, e) && Orderly(s, e)
    ensures Inv(Apply(s, e))
  {
    if e.BeginIssue? || e.EnterIssue? || e.Sent? || e.FinishIssue? || e.FailIssue? {
      IssueStepKeeps(s, e);
    } else if e.CallWait? || e.Retry? || e.ReceiveFail? || e.ReceiveHeader? {
      WaitStepKeeps(s, e);
    } else {
      CollectStepKeeps(s, e);
    }
  }

  // ----- what was read off the stream -----

  /** The (header tag, body) pair a do_collect takes off the stream. */
  ghost function Taken(s: State, e: Event): set<(Tag, int)> {
    if s.pending.None? then {}
    else match e
      case CollectedOther(_, data) => {(s.pending.value, data)}
      case CollectedOwn(_, data) => {(s.pending.value, data)}
      case _ => {}
  }

  ghost function Bodies(s: State, es: seq<Event>): set<(Tag, int)>
    decreases |es|
  {
    if es == [] || !Enabled(s, es[0]) then {}
    else Taken(s, es[0]) + Bodies(Apply(s, es[0]), es[1..])
  }

  ghost predicate From(r: Result, b: set<(Tag, int)>) { r.Body? ==> (r.tag, r.data) in b }

  ghost predicate KeptBy(s: State, c: Cid, t: Tid, b: set<(Tag, int)>) {
    (c in s.outcome ==> From(s.outcome[c], b)) && (c in s.ctx ==> From(s.ctx[c].ret, b)) &&
    (PcOf(s, t).Leaving? ==> From(PcOf(s, t).ret, b))
  }

  /** Every result kept anywhere is a body that was taken off the stream. */
  ghost predicate AllFrom(s: State, b: set<(Tag, int)>) {
    forall c, t :: KeptBy(s, c, t, b)
  }

  lemma GoneAllFrom(s: State, t: Tid, c: Cid, r: Result, l: bool, b: set<(Tag, int)>)
    requires AllFrom(s, b) && From(r, b)
    ensures AllFrom(Gone(s, t, c, r, l), b)
  {
    forall d, u ensures KeptBy(Gone(s, t, c, r, l), d, u, b) { assert KeptBy(s, d, u, b); }
  }

  lemma ExitAllFrom(s: State, t: Tid, c: Cid, r: Result, l: bool, b: set<(Tag, int)>)
    requires AllFrom(s, b) && From(r, b)
    ensures AllFrom(Exit(s, t, c, r, l), b)
  {
    GoneAllFrom(s, t, c, r, l, b);
    if l { SamePlaces(Gone(s, t, c, r, true), WakeFront(Gone(s, t, c, r, true)), b); }
  }

  lemma EnterAllFrom(s: State, t: Tid, c: Cid, l: bool, b: set<(Tag, int)>)
    requires AllFrom(s, b) && c in s.ctx
    ensures AllFrom(Enter(s, t, c, l), b)
  {
    var oTag := s.ctx[c].tag;
    if oTag in s.mp && s.mp[oTag] in s.ctx && s.ctx[s.mp[oTag]].th == t {
      var e := s.ctx[s.mp[oTag]];
      assert KeptBy(s, s.mp[oTag], t, b);
      var s1 := s.(mp := s.mp - {oTag});
      forall d, u ensures KeptBy(s1, d, u, b) { assert KeptBy(s, d, u, b); }
      if e.collected { ExitAllFrom(s1, t, c, e.ret, l, b); }
      else { SamePlaces(s, SetPc(s, t, Receiving(c, oTag, l)), b); }
    } else {
      ExitAllFrom(s, t, c, Fail, l, b);
    }
  }

  /** A step that stores no result. */
  lemma SamePlaces(s: State, s': State, b: set<(Tag, int)>)
    requires AllFrom(s, b)
    requires forall c :: c in s'.outcome ==> s'.outcome[c] == Fail || (c in s.outcome && s'.outcome[c] == s.outcome[c])
    requires forall c :: c in s'.ctx ==> s'.ctx[c].ret == Fail || (c in s.ctx && s'.ctx[c].ret == s.ctx[c].ret)
    requires forall t :: PcOf(s', t).Leaving? ==> PcOf(s', t) == PcOf(s, t)
    ensures AllFrom(s', b)
  {
    forall d, u ensures KeptBy(s', d, u, b) { assert KeptBy(s, d, u, b); }
  }

  lemma RetryAllFrom(s: State, t: Tid, c: Cid, interrupted: bool, b: set<(Tag, int)>)
    requires AllFrom(s, b) && c in s.ctx
    ensures AllFrom(RetryLock(s, t, c, interrupted), b)
  {
    SamePlaces(s, s.(rOwner := Some(t)), b);
    if interrupted { EnterAllFrom(s, t, c, false, b); }
    else if s.rOwner == None { EnterAllFrom(s.(rOwner := Some(t)), t, c, true, b); }
    else { SamePlaces(s, RetryLock(s, t, c, interrupted), b); }
  }

  lemma DispatchAllFrom(s: State, t: Tid, c: Cid, o: Tag, l: bool, tag: Tag, b: set<(Tag, int)>)
    requires AllFrom(s, b) && c in s.ctx && (tag in s.mp ==> s.mp[tag] in s.ctx)
    ensures AllFrom(Dispatch(s, t, c, o, l, tag), b)
  {
    hide KeptBy;
    var s1 := HeaderRead(s, c, tag);
    if tag != o && tag !in s.mp {
      SamePlaces(s, s1.(mp := s1.mp - {o}, pending := None), b);
      ExitAllFrom(s1.(mp := s1.mp - {o}, pending := None), t, c, Fail, l, b);
    } else {
      SamePlaces(s, s1, b);
      SamePlaces(s1, Dispatch(s, t, c, o, l, tag), b);
    }
  }

  lemma CollectAllFrom(s: State, e: Event, b: set<(Tag, int)>)
    requires AllFrom(s, b) && Enabled(s, e) && (e.CollectedOther? || e.CollectedOwn?)
    ensures AllFrom(Apply(s, e), b + Taken(s, e))
  {
    hide IsNextFree, WakeFront, Orderly;
    forall d, u ensures KeptBy(Apply(s, e), d, u, b + Taken(s, e)) { assert KeptBy(s, d, u, b); }
  }

  lemma StepAllFrom(s: State, e: Event, b: set<(Tag, int)>)
    requires AllFrom(s, b) && Enabled(s, e)
    ensures AllFrom(Apply(s, e), b + Taken(s, e))
  {
    assert b + {} == b;
    match e
    case CallWait(t, c) =>
      SamePlaces(s, BeginWait(s, t, c), b);
      RetryAllFrom(BeginWait(s, t, c), t, c, false, b);
    case Retry(t) => RetryAllFrom(s, t, PcOf(s, t).c, PcOf(s, t).interrupted, b);
    case ReceiveFail(t) =>
      var s1 := s.(mp := s.mp - {PcOf(s, t).oTag});
      SamePlaces(s, s1, b);
      ExitAllFrom(s1, t, PcOf(s, t).c, Fail, PcOf(s, t).locked, b);
    case ReceiveHeader(t, tag) => DispatchAllFrom(s, t, PcOf(s, t).c, PcOf(s, t).oTag, PcOf(s, t).locked, tag, b);
    case CollectedOther(_, _) => CollectAllFrom(s, e, b);
    case CollectedOwn(_, _) => CollectAllFrom(s, e, b);
    case Leave(t) =>
      assert KeptBy(s, 0, t, b);
      ExitAllFrom(s, t, PcOf(s, t).c, PcOf(s, t).ret, PcOf(s, t).locked, b);
    case _ => OtherStepAllFrom(s, e, b);
  }

  lemma OtherStepAllFrom(s: State, e: Event, b: set<(Tag, int)>)
    requires AllFrom(s, b) && Enabled(s, e)
    requires e.BeginIssue? || e.EnterIssue? || e.Sent? || e.FinishIssue? || e.FailIssue? ||
             e.ShutCall? || e.ShutSpin? || e.ShutWake?
    ensures AllFrom(Apply(s, e), b)
  {
    hide AllFrom, KeptBy, IsNextFree;
    match e
    case BeginIssue(t, c, user) => SamePlaces(s, Begin(s, t, c, user), b);
    case EnterIssue(t, tag) =>
      if !s.running || tag in s.mp { SamePlaces(s, Refuse(s, t, PcOf(s, t).c), b); }
      else { SamePlaces(s, Accept(s, t, PcOf(s, t).c, PcOf(s, t).user, tag), b); }
    case Sent(t) => SamePlaces(s, SendDone(s, t, PcOf(s, t).c), b);
    case FinishIssue(t) => SamePlaces(s, IssueDone(s, t), b);
    case FailIssue(t) => SamePlaces(s, SendFailed(s, t, PcOf(s, t).c), b);
    case ShutCall => SamePlaces(s, s.(running := false, shut := Draining), b);
    case _ => SamePlaces(s, ShutCheck(s), b);
  }

  lemma {:induction false} RunAllFrom(s: State, es: seq<Event>, s': State, b: set<(Tag, int)>)
    requires AllFrom(s, b) && OrderlyRun(s, es, s')
    ensures AllFrom(s', b + Bodies(s, es))
    decreases |es|
  {
    hide AllFrom, Apply, Enabled, Orderly, Taken;
    if es == [] {
      assert b + Bodies(s, es) == b;
    } else {
      StepAllFrom(s, es[0], b);
      RunAllFrom(Apply(s, es[0]), es[1..], s', b + Taken(s, es[0]));
      assert b + Bodies(s, es) == b + Taken(s, es[0]) + Bodies(Apply(s, es[0]), es[1..]);
    }
  }

  lemma {:induction false} RunKeeps(s: State, es: seq<Event>, s': State)
    requires Inv(s) && OrderlyRun(s, es, s')
    ensures Inv(s')
    decreases |es|
  {
    hide Inv, Apply, Enabled, Orderly;
    if es == [] {
    } else {
      StepKeeps(s, es[0]);
      RunKeeps(Apply(s, es[0]), es[1..], s');
    }
  }

  // ----- the theorems -----

  /** However the threads interleave, at most one is between the start of do_completion and
      the end of do_collect, it holds m_mutex_r, and it reads a header only when no body is
      left on the stream. */
  lemma AtMostOneReader(es: seq<Event>, s: State, t: Tid, u: Tid)
    requires OrderlyRun(INITIAL, es, s)
    requires Reading(PcOf(s, t)) && Reading(PcOf(s, u))
    ensures t == u && s.rOwner == Some(t)
    ensures PcOf(s, t).Receiving? <==> s.pending == None
  {
    InitialInv();
    RunKeeps(INITIAL, es, s);
    assert LocalInv(s, 0, t, 0);
    assert LocalInv(s, 0, u, 0);
  }

  /** A successful wait_completion returns the body that was read off the stream behind a header
      with the tag its context was issued under, whichever thread read it. */
  lemma OwnResult(es: seq<Event>, s: State, c: Cid)
    requires OrderlyRun(INITIAL, es, s)
    requires c in s.outcome && s.outcome[c].Body?
    ensures c in s.ctx && s.outcome[c].tag == s.ctx[c].key
    ensures (s.ctx[c].key, s.outcome[c].data) in Bodies(INITIAL, es)
  {
    InitialInv();
    RunKeeps(INITIAL, es, s);
    assert LocalInv(s, 0, 0, c);
    assert forall d, u :: KeptBy(INITIAL, d, u, {});
    RunAllFrom(INITIAL, es, s, {});
    assert KeptBy(s, c, 0, {} + Bodies(INITIAL, es));
  }

  /** A thread let in without the lock finds its own result already collected. */
  lemma UnlockedEntryIsServed(es: seq<Event>, s: State, t: Tid)
    requires OrderlyRun(INITIAL, es, s)
    requires PcOf(s, t).WokenR? && PcOf(s, t).interrupted && Enabled(s, Retry(t))
    ensures var c := PcOf(s, t).c;
      var s' := Apply(s, Retry(t));
      c in s.ctx && c in s'.outcome && s'.outcome[c].Body? && s'.outcome[c].tag == s.ctx[c].key &&
      s.ctx[c].key !in s'.mp && s'.rOwner == s.rOwner && PcOf(s', t).Idle?
  {
    InitialInv();
    RunKeeps(INITIAL, es, s);
    var c := PcOf(s, t).c;
    assert LocalInv(s, s.ctx[c].key, t, c);
  }

  /** The caller that keeps the contract never sees EINVAL: its context is where it looks. */
  lemma LookupFindsOwnContext(es: seq<Event>, s: State, t: Tid)
    requires OrderlyRun(INITIAL, es, s)
    requires PcOf(s, t).WokenR? || PcOf(s, t).LockR?
    ensures var c := PcOf(s, t).c;
      c in s.ctx && s.ctx[c].tag in s.mp && s.mp[s.ctx[c].tag] == c && s.ctx[c].th == t
  {
    InitialInv();
    RunKeeps(INITIAL, es, s);
    assert LocalInv(s, 0, t, 0);
  }

  lemma ExitKeepsReturned(s: State, t: Tid, c: Cid, r: Result, l: bool)
    requires s.shut == Returned
    ensures Exit(s, t, c, r, l).shut == Returned
  {
  }

  lemma EnterKeepsReturned(s: State, t: Tid, c: Cid, locked: bool)
    requires s.shut == Returned && c in s.ctx
    ensures Enter(s, t, c, locked).shut == Returned
  {
    var oTag := s.ctx[c].tag;
    ExitKeepsReturned(s, t, c, Fail, locked);
    if oTag in s.mp && s.mp[oTag] in s.ctx {
      ExitKeepsReturned(s.(mp := s.mp - {oTag}), t, c, s.ctx[s.mp[oTag]].ret, locked);
    }
  }

  lemma RetryKeepsReturned(s: State, t: Tid, c: Cid, interrupted: bool)
    requires s.shut == Returned && c in s.ctx
    ensures RetryLock(s, t, c, interrupted).shut == Returned
  {
    EnterKeepsReturned(s, t, c, false);
    EnterKeepsReturned(s.(rOwner := Some(t)), t, c, true);
  }

  lemma DispatchKeepsReturned(s: State, t: Tid, c: Cid, oTag: Tag, locked: bool, tag: Tag)
    requires s.shut == Returned && c in s.ctx && (tag in s.mp ==> s.mp[tag] in s.ctx)
    ensures Dispatch(s, t, c, oTag, locked, tag).shut == Returned
  {
    var s1 := HeaderRead(s, c, tag);
    ExitKeepsReturned(s1.(mp := s1.mp - {oTag}, pending := None), t, c, Fail, locked);
  }

  lemma CollectKeepsReturned(s: State, t: Tid, c: Cid, oTag: Tag, target: Cid, locked: bool, data: int)
    requires s.shut == Returned && target in s.ctx && s.pending.Some?
    ensures OtherCollected(s, t, c, oTag, target, locked, data).shut == Returned
  {
  }

  lemma ReturnedStaysStep(s: State, e: Event)
    requires Enabled(s, e) && s.shut == Returned && !s.running
    ensures Apply(s, e).shut == Returned
  {
    var p := PcOf(s, if e.ShutCall? || e.ShutSpin? || e.ShutWake? then 0 else e.t);
    match e
    case CallWait(t, c) => RetryKeepsReturned(BeginWait(s, t, c), t, c, false);
    case Retry(t) => RetryKeepsReturned(s, t, p.c, p.interrupted);
    case ReceiveHeader(t, tag) => DispatchKeepsReturned(s, t, p.c, p.oTag, p.locked, tag);
    case CollectedOther(t, data) => CollectKeepsReturned(s, t, p.c, p.oTag, p.target, p.locked, data);
    case Leave(t) => ExitKeepsReturned(s, t, p.c, p.ret, p.locked);
    case ReceiveFail(t) => ExitKeepsReturned(s.(mp := s.mp - {p.oTag}), t, p.c, Fail, p.locked);
    case _ =>
  }

  lemma {:induction false} ReturnedStays(s: State, es: seq<Event>, s': State)
    requires Inv(s) && OrderlyRun(s, es, s') && s.shut == Returned
    ensures Inv(s') && s'.shut == Returned
    decreases |es|
  {
    hide Apply, Enabled, Orderly;
    if es == [] {
    } else {
      ReturnedStaysStep(s, es[0]);
      StepKeeps(s, es[0]);
      ReturnedStays(Apply(s, es[0]), es[1..], s');
    }
  }

  /** Once shutdown has returned 0 the map is empty, and it is empty after every later run. */
  lemma DrainIsFinal(es: seq<Event>, s: State, more: seq<Event>, s': State)
    requires OrderlyRun(INITIAL, es, s) && s.shut == Returned
    requires OrderlyRun(s, more, s')
    ensures s.mp == map[] && s'.mp == map[] && s'.shut == Returned
  {
    InitialInv();
    RunKeeps(INITIAL, es, s);
    ReturnedStays(s, more, s');
  }

  /** A drain asleep with nothing left to wait for is about to be notified: some thread that
      emptied the map has yet to leave, and its leaving wakes the drain. */
  lemma NoLostNotification(es: seq<Event>, s: State)
    requires OrderlyRun(INITIAL, es, s)
    requires s.shut == InQueue && s.mp == map[]
    ensures exists t :: Owes(s, t)
    ensures forall t :: Enabled(s, Leave(t)) ==> Apply(s, Leave(t)).shut == Woken
  {
    InitialInv();
    RunKeeps(INITIAL, es, s);
    forall t | Enabled(s, Leave(t)) ensures Apply(s, Leave(t)).shut == Woken { LeavingNotifies(s, t); }
  }

  lemma LeavingNotifies(s: State, t: Tid)
    requires s.shut == InQueue && Enabled(s, Leave(t))
    ensures Apply(s, Leave(t)).shut == Woken
  {
    var p := PcOf(s, t);
    assert Gone(s, t, p.c, p.ret, p.locked).shut == Woken;
  }

  // ----- no queued reader is forgotten -----

  /** An unlock has woken `t`, and nothing but its own run can change that. */
  ghost predicate Claims(s: State, t: Tid) { PcOf(s, t).WokenR? && !PcOf(s, t).interrupted }

  /** A free lock with waiters is on its way to one of them. */
  ghost predicate Claimed(s: State) { s.rq != [] && s.rOwner == None ==> exists t :: Claims(s, t) }

  lemma ClaimsFrame(s: State, s': State)
    requires Claimed(s) && s'.rq == s.rq && s'.rOwner == s.rOwner && forall t :: Claims(s, t) ==> Claims(s', t)
    ensures Claimed(s')
  {
    if t :| Claims(s, t) { assert Claims(s', t); }
  }

  ghost predicate FrontWaits(s: State) { s.rq != [] ==> PcOf(s, s.rq[0]).LockR? }

  lemma WakeClaims(s: State)
    requires FrontWaits(s) && s.rq != []
    ensures Claimed(WakeFront(s))
  {
    assert Claims(WakeFront(s), s.rq[0]);
  }

  lemma ExitClaims(s: State, t: Tid, c: Cid, r: Result, l: bool)
    requires FrontWaits(s) && !PcOf(s, t).LockR?
    requires l || (Claimed(s) && !Claims(s, t))
    ensures Claimed(Exit(s, t, c, r, l))
  {
    var s1 := Gone(s, t, c, r, l);
    if !l {
      ClaimsFrame(s, s1);
    } else if s1.rq != [] {
      WakeClaims(s1);
    }
  }

  lemma RetryClaims(s: State, t: Tid, c: Cid, interrupted: bool)
    requires Inv(s) && PcOf(s, t) == WokenR(c, interrupted) && Claimed(s) && c in s.ctx
    ensures Claimed(RetryLock(s, t, c, interrupted))
  {
    assert LocalInv(s, s.ctx[c].key, t, c) && QueueInv(s, 0, 1);
    if interrupted || s.rOwner == None {
      var l := !interrupted;
      var s1 := if l then s.(rOwner := Some(t)) else s;
      if s.ctx[c].collected { EnterClaims(s1, t, c, l); }
    }
  }

  lemma EnterClaims(s: State, t: Tid, c: Cid, l: bool)
    requires FrontWaits(s) && PcOf(s, t).WokenR? && c in s.ctx && s.ctx[c].th == t && s.ctx[c].collected
    requires s.ctx[c].tag in s.mp && s.mp[s.ctx[c].tag] == c
    requires l || (Claimed(s) && !Claims(s, t))
    ensures Claimed(Enter(s, t, c, l))
  {
    var s1 := s.(mp := s.mp - {s.ctx[c].tag});
    if !l { ClaimsFrame(s, s1); }
    ExitClaims(s1, t, c, s.ctx[c].ret, l);
  }

  lemma CallClaims(s: State, t: Tid, c: Cid)
    requires Inv(s) && Enabled(s, CallWait(t, c)) && Orderly(s, CallWait(t, c)) && Claimed(s)
    ensures Claimed(Apply(s, CallWait(t, c)))
  {
    if s.rOwner == None && !s.ctx[c].collected {
      GoInKeeps(s, t, c);
    } else {
      assert LocalInv(s, s.ctx[c].key, t, c);
      BeginWaitKeeps(s, t, c);
      ClaimsFrame(s, BeginWait(s, t, c));
      RetryClaims(BeginWait(s, t, c), t, c, false);
    }
  }

  lemma ReaderClaims(s: State, e: Event)
    requires Inv(s) && Enabled(s, e)
    requires e.ReceiveFail? || e.ReceiveHeader? || e.CollectedOther? || e.CollectedOwn? || e.Leave?
    requires e.Leave? ==> Claimed(s)
    ensures Claimed(Apply(s, e))
  {
    var p := PcOf(s, e.t);
    assert LocalInv(s, 0, e.t, 0) && QueueInv(s, 0, 1);
    match e
    case ReceiveFail(t) => ExitClaims(s.(mp := s.mp - {p.oTag}), t, p.c, Fail, p.locked);
    case ReceiveHeader(t, tag) => DispatchClaims(s, t, p.c, p.oTag, p.locked, tag);
    case Leave(t) => ExitClaims(s, t, p.c, p.ret, p.locked);
    case _ =>
  }

  /** The reader has the lock; when it leaves, it wakes the next. */
  lemma DispatchClaims(s: State, t: Tid, c: Cid, o: Tag, l: bool, tag: Tag)
    requires FrontWaits(s) && PcOf(s, t).Receiving? && c in s.ctx && (tag in s.mp ==> s.mp[tag] in s.ctx)
    requires l && s.rOwner.Some? && o in s.mp
    ensures Claimed(Dispatch(s, t, c, o, l, tag))
  {
    if tag !in s.mp {
      ExitClaims(HeaderRead(s, c, tag).(mp := s.mp - {o}, pending := None), t, c, Fail, l);
    }
  }

  lemma StepClaims(s: State, e: Event)
    requires Inv(s) && Enabled(s, e) && Orderly(s, e) && Claimed(s)
    ensures Claimed(Apply(s, e))
  {
    hide Claimed, Inv;
    match e
    case CallWait(t, c) => CallClaims(s, t, c);
    case Retry(t) => RetryClaims(s, t, PcOf(s, t).c, PcOf(s, t).interrupted);
    case BeginIssue(t, c, user) => ClaimsFrame(s, Begin(s, t, c, user));
    case EnterIssue(t, tag) => ClaimsFrame(s, Apply(s, e));
    case Sent(t) => ClaimsFrame(s, Apply(s, e));
    case FinishIssue(t) => ClaimsFrame(s, Apply(s, e));
    case FailIssue(t) => ClaimsFrame(s, Apply(s, e));
    case ShutCall => ClaimsFrame(s, Apply(s, e));
    case ShutSpin => ClaimsFrame(s, Apply(s, e));
    case ShutWake => ClaimsFrame(s, Apply(s, e));
    case _ => ReaderClaims(s, e);
  }

  lemma {:induction false} RunClaims(s: State, es: seq<Event>, s': State)
    requires Inv(s) && Claimed(s) && OrderlyRun(s, es, s')
    ensures Inv(s') && Claimed(s')
    decreases |es|
  {
    hide Inv, Claimed, Apply, Enabled, Orderly;
    if es == [] {
    } else {
      StepKeeps(s, es[0]);
      StepClaims(s, es[0]);
      RunClaims(Apply(s, es[0]), es[1..], s');
    }
  }

  /** A free lock with readers queued for it has been handed to one of them: it is READY, and when it
      runs it has the lock, or has left with its result and woken the next. */
  lemma QueuedReaderIsWoken(es: seq<Event>, s: State) returns (t: Tid)
    requires OrderlyRun(INITIAL, es, s) && s.rq != [] && s.rOwner == None
    ensures Claims(s, t) && Enabled(s, Retry(t))
    ensures
      var s' := Apply(s, Retry(t));
      s'.rOwner == Some(t) || (PcOf(s', t).Idle? && Claims(s', s.rq[0]))
  {
    InitialInv();
    RunClaims(INITIAL, es, s);
    t :| Claims(s, t);
    var c := PcOf(s, t).c;
    assert LocalInv(s, 0, t, c) && QueueInv(s, 0, 1);
  }
}
