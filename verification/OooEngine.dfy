/** The engine itself.  Each method that stands for an event of the protocol carries out one
    uninterrupted stretch of code on the engine's own fields, keeps what every run keeps, and says
    what that means for its thread. */
module OooEngine {
  import opened Common
  import opened OooProtocol
  import opened OooSafety
  import opened OooTheorems

  ghost predicate Good(s: State) { Inv(s) && Claimed(s) }

  /** `t` alone is in do_completion or do_collect, under the lock. */
  ghost predicate OnlyReader(s: State, t: Tid) {
    s.rOwner == Some(t) && forall u :: Reading(PcOf(s, u)) <==> u == t
  }

  /** `t` has come back from wait_completion with the body that was read for the tag of `c`. */
  ghost predicate Served(s: State, t: Tid, c: Cid) {
    && c in s.ctx && c in s.outcome && s.outcome[c].Body? && s.outcome[c] == s.ctx[c].ret
    && s.outcome[c].tag == s.ctx[c].key && s.ctx[c].key !in s.mp && PcOf(s, t).Idle?
  }

  /** `t` stands last in the queue for the lock. */
  ghost predicate Queues(s: State, t: Tid, c: Cid, s': State) {
    PcOf(s', t) == LockR(c) && s'.rq == s.rq + [t] && s'.mp == s.mp && s'.rOwner == s.rOwner
  }

  lemma GoodStep(s: State, e: Event)
    requires Good(s) && Enabled(s, e) && Orderly(s, e)
    ensures Good(Apply(s, e))
  {
    StepKeeps(s, e);
    StepClaims(s, e);
  }

  lemma OneReader(s: State, t: Tid)
    requires Inv(s) && (s.rOwner == Some(t) || s.rOwner == None)
    ensures s.rOwner == Some(t) && Reading(PcOf(s, t)) ==> OnlyReader(s, t)
    ensures s.rOwner == None ==> forall u :: !Reading(PcOf(s, u))
  {
    forall u: Tid | Reading(PcOf(s, u)) ensures s.rOwner == Some(u) { assert LocalInv(s, 0, u, 0); }
  }

  // ----- what the events mean -----

  lemma EnterMeans(s: State, t: Tid, c: Cid, locked: bool)
    requires Registered(s, t, c) && s.ctx[c].tag == s.ctx[c].key && EntryInv(s, s.ctx[c].key)
    requires locked ==> s.rOwner == Some(t)
    ensures
      var s' := Enter(s, t, c, locked);
      if s.ctx[c].collected then (t !in s.rq ==> Served(s', t, c)) && s'.rOwner == (if locked then None else s.rOwner)
      else PcOf(s', t).Receiving? && s'.rOwner == s.rOwner
  {
    var s1 := s.(mp := s.mp - {s.ctx[c].key});
    if s.ctx[c].collected { ExitMeans(s1, t, c, s.ctx[c].ret, locked); }
  }

  lemma ExitMeans(s: State, t: Tid, c: Cid, r: Result, l: bool)
    ensures
      var s' := Exit(s, t, c, r, l);
      && s'.ctx == s.ctx && s'.mp == s.mp && s'.outcome == s.outcome[c := r]
      && (t !in s.rq ==> PcOf(s', t).Idle?) && (l ==> s'.rOwner == None) && (!l ==> s'.rOwner == s.rOwner)
      && s'.shut == (if s.shut == InQueue then Woken else s.shut)
      && (l && s.rq != [] && t != s.rq[0] && PcOf(s, s.rq[0]).LockR? ==> Claims(s', s.rq[0]) && s'.rq == s.rq[1..])
  {
    hide Gone, WakeFront;
    GoneMeans(s, t, c, r, l);
    if l { WakeMeans(Gone(s, t, c, r, true), t); }
  }

  lemma GoneMeans(s: State, t: Tid, c: Cid, r: Result, l: bool)
    ensures
      var s' := Gone(s, t, c, r, l);
      && s'.ctx == s.ctx && s'.mp == s.mp && s'.outcome == s.outcome[c := r] && s'.rq == s.rq
      && PcOf(s', t).Idle? && s'.rOwner == (if l then None else s.rOwner)
      && s'.shut == (if s.shut == InQueue then Woken else s.shut) && forall u :: u != t ==> PcOf(s', u) == PcOf(s, u)
  {
  }

  lemma WakeMeans(s: State, t: Tid)
    ensures
      var s' := WakeFront(s);
      && s'.ctx == s.ctx && s'.mp == s.mp && s'.outcome == s.outcome && s'.rOwner == s.rOwner
      && (t !in s.rq ==> PcOf(s', t) == PcOf(s, t)) && s'.shut == s.shut
      && (s.rq != [] && PcOf(s, s.rq[0]).LockR? ==> Claims(s', s.rq[0]) && s'.rq == s.rq[1..])
  {
  }

  lemma RetryMeans(s: State, t: Tid)
    requires Good(s) && Enabled(s, Retry(t))
    ensures
      var p, s' := PcOf(s, t), Apply(s, Retry(t));
      && (p.interrupted ==> Served(s', t, p.c) && s'.rOwner == s.rOwner)
      && (!p.interrupted && s.rOwner.Some? ==> Queues(s, t, p.c, s'))
      && (!p.interrupted && s.rOwner == None && s.ctx[p.c].collected ==> Served(s', t, p.c) && s'.rOwner == None)
      && (!p.interrupted && s.rOwner == None && !s.ctx[p.c].collected ==> OnlyReader(s', t) && PcOf(s', t).Receiving?)
  {
    var p, s' := PcOf(s, t), Apply(s, Retry(t));
    assert LocalInv(s, s.ctx[p.c].key, t, p.c);
    NotQueued(s, t);
    if p.interrupted {
      EnterMeans(s, t, p.c, false);
    } else if s.rOwner == None {
      EnterMeans(s.(rOwner := Some(t)), t, p.c, true);
      GoodStep(s, Retry(t));
      OneReader(s', t);
    }
  }

  lemma NotQueued(s: State, t: Tid)
    requires LockInv(s) && !PcOf(s, t).LockR?
    ensures t !in s.rq
  {
    forall i: nat | i < |s.rq| ensures s.rq[i] != t { assert QueueInv(s, i, 0); }
  }

  lemma CallWaitMeans(s: State, t: Tid, c: Cid)
    requires Good(s) && Enabled(s, CallWait(t, c)) && Orderly(s, CallWait(t, c))
    ensures
      var s' := Apply(s, CallWait(t, c));
      && (s.rOwner.Some? ==> Queues(s, t, c, s'))
      && (s.rOwner == None && s.ctx[c].collected ==> Served(s', t, c) && s'.rOwner == None)
      && (s.rOwner == None && !s.ctx[c].collected ==> OnlyReader(s', t) && PcOf(s', t).Receiving?)
  {
    var s1, s' := BeginWait(s, t, c), Apply(s, CallWait(t, c));
    assert LocalInv(s, s.ctx[c].key, t, c);
    NotQueued(s, t);
    if s.rOwner == None {
      if s.ctx[c].collected {
        EnterCollected(s1.(rOwner := Some(t)), t, c);
      } else {
        GoInKeeps(s, t, c);
        OneReader(s', t);
      }
    }
  }

  lemma EnterCollected(s: State, t: Tid, c: Cid)
    requires Registered(s, t, c) && s.ctx[c].tag == s.ctx[c].key && s.ctx[c].collected && t !in s.rq &&
      s.rOwner == Some(t)
    requires s.ctx[c].ret.Body? && s.ctx[c].ret.tag == s.ctx[c].key
    ensures var s' := Enter(s, t, c, true); Served(s', t, c) && s'.rOwner == None
  {
    ExitMeans(s.(mp := s.mp - {s.ctx[c].key}), t, c, s.ctx[c].ret, true);
  }

  lemma ReceivedMeans(s: State, t: Tid, tag: Tag)
    requires Good(s) && Enabled(s, ReceiveHeader(t, tag))
    ensures
      var p, s' := PcOf(s, t), Apply(s, ReceiveHeader(t, tag));
      && (tag == p.oTag ==> OnlyReader(s', t) && PcOf(s', t).CollectOwn? && s'.mp == s.mp - {tag})
      && (tag != p.oTag && tag in s.mp ==>
            && OnlyReader(s', t) && s'.mp == s.mp && p.oTag in s.mp && s.mp[p.oTag] == p.c && s.mp[tag] != p.c
            && p.c in s'.ctx && s'.ctx[p.c].tag == tag && s.mp[tag] in s'.ctx && s'.ctx[s.mp[tag]].key == tag)
      && (tag != p.oTag && tag !in s.mp ==>
            && p.c in s'.outcome && s'.outcome[p.c] == Fail && p.oTag !in s'.mp && s'.rOwner == None
            && forall u :: !Reading(PcOf(s', u)))
  {
    var p, s' := PcOf(s, t), Apply(s, ReceiveHeader(t, tag));
    assert LocalInv(s, tag, t, p.c);
    GoodStep(s, ReceiveHeader(t, tag));
    if tag != p.oTag && tag !in s.mp {
      OrphanMeans(s, t, p.c, p.oTag, p.locked, tag);
    }
    OneReader(s', t);
  }

  lemma OrphanMeans(s: State, t: Tid, c: Cid, o: Tag, l: bool, tag: Tag)
    requires c in s.ctx && tag !in s.mp && tag != o && l
    ensures
      var s' := Dispatch(s, t, c, o, l, tag);
      c in s'.outcome && s'.outcome[c] == Fail && o !in s'.mp && s'.rOwner == None
  {
    var s1 := HeaderRead(s, c, tag);
    ExitMeans(s1.(mp := s1.mp - {o}, pending := None), t, c, Fail, l);
  }

  lemma CollectedMeans(s: State, t: Tid, data: int)
    requires Good(s) && Enabled(s, CollectedOther(t, data))
    ensures
      var g, s' := PcOf(s, t).target, Apply(s, CollectedOther(t, data));
      && OnlyReader(s', t) && s'.pending == None
      && g in s'.ctx && s'.ctx[g].th == s.ctx[g].th && s'.ctx[g].collected && s'.ctx[g].ret == Body(s'.ctx[g].key, data)
      && (PcOf(s, s.ctx[g].th).LockR? ==>
            var p := PcOf(s', s.ctx[g].th);
            s.ctx[g].th !in s'.rq && p.WokenR? && p.c in s'.ctx && s'.ctx[p.c].collected)
  {
    var p, s' := PcOf(s, t), Apply(s, CollectedOther(t, data));
    var th := s.ctx[p.target].th;
    assert LocalInv(s, 0, t, 0);
    GoodStep(s, CollectedOther(t, data));
    OneReader(s', t);
    assert LocalInv(s', 0, th, 0);
  }

  lemma LeaveMeans(s: State, t: Tid)
    requires Good(s) && PcOf(s, t).Leaving?
    ensures
      var p, s' := PcOf(s, t), Apply(s, OooProtocol.Leave(t));
      && p.c in s'.outcome && s'.outcome[p.c] == p.ret && PcOf(s', t).Idle?
      && (p.ret.Body? ==> p.c in s'.ctx && p.ret.tag == s'.ctx[p.c].key)
      && (p.locked ==> s.rOwner == Some(t) && s'.rOwner == None)
      && (p.locked && s.rq != [] ==> Claims(s', s.rq[0]) && s'.rq == s.rq[1..])
      && s'.shut == if s.shut == InQueue then Woken else s.shut
  {
    hide Exit, DrainInv, ContextInv, WaitInv;
    var p := PcOf(s, t);
    assert LocalInv(s, 0, t, p.c) && QueueInv(s, 0, 1);
    NotQueued(s, t);
    ExitMeans(s, t, p.c, p.ret, p.locked);
  }

  class Engine {
    var mMap: map<Tag, Cid>
    var contexts: map<Cid, Context>
    var owners: map<Cid, Tid>
    var mTag: Tag
    var mIssuing: nat
    var mRunning: bool
    var mutexW: Option<Tid>
    var mutexR: Option<Tid>
    var waitqR: seq<Tid>
    var stream: Option<Tag>
    var at: map<Tid, Pc>
    var shut: Shutdown
    var results: map<Cid, Result>

    function View(): State
      reads this
    {
      State(mMap, contexts, owners, mTag, mIssuing, mRunning, mutexW, mutexR, waitqR, stream, at, shut, results)
    }

    ghost predicate Valid()
      reads this
    {
      Good(View())
    }

    constructor ()
      ensures View() == INITIAL && Valid()
    {
      mMap, contexts, owners := map[], map[], map[];
      mTag, mIssuing, mRunning := 0, 0, true;
      mutexW, mutexR, waitqR := None, None, [];
      stream, at, shut, results := None, map[], NotCalled, map[];
      new;
      InitialInv();
    }

    /** issue_operation from the moment m_mutex_w is held up to do_issue.  The retry loop ends
        whatever finite set of tags the users have taken. */
    method IssueOperation(t: Tid) returns (ghost tag: Tag)
      requires Valid() && PcOf(View(), t).WantW? && mutexW == None && mIssuing > 0
      modifies this
      ensures Enabled(old(View()), EnterIssue(t, tag)) && View() == Apply(old(View()), EnterIssue(t, tag)) && Valid()
      ensures var p := old(PcOf(View(), t));
        if !old(mRunning) || (p.user.Some? && p.user.value in old(mMap)) then
          mMap == old(mMap) && p.c in results && results[p.c] == Fail
        else
          mMap == old(mMap)[tag := p.c] && tag !in old(mMap) &&
          (if p.user.Some? then tag == p.user.value && mTag == old(mTag)
           else tag == mTag > old(mTag) && forall j :: old(mTag) < j < tag ==> j in old(mMap))
    {
      ghost var s := View();
      IssueWith(t);
      tag := if s.pc[t].user.Some? then s.pc[t].user.value else NextFree(s.mp, s.lastTag);
      GoodStep(s, EnterIssue(t, tag));
    }

    method IssueWith(t: Tid)
      requires PcOf(View(), t).WantW? && mutexW == None && mIssuing > 0
      modifies this
      ensures var p := old(PcOf(View(), t));
        var tag := if p.user.Some? then p.user.value else NextFree(old(mMap), old(mTag));
        View() == Apply(old(View()), EnterIssue(t, tag))
    {
      var p := at[t];
      ghost var tag := if p.user.Some? then p.user.value else NextFree(mMap, mTag);
      if !mRunning {
        Refused(t, p.c);
        return;
      }
      var k;
      if p.user.Some? {
        k := p.user.value;
        if k in mMap {
          Refused(t, p.c);
          return;
        }
      } else {
        mTag := mTag + 1;
        while mTag in mMap
          invariant mTag <= tag && old(mTag) < mTag && unchanged(this`mMap)
          invariant View() == old(View()).(lastTag := mTag)
          decreases tag - mTag
        {
          mTag := mTag + 1;
        }
        k := mTag;
      }
      mMap := mMap[k := p.c];
      contexts := contexts[p.c := Context(k, k, t, false, Fail, false, false, false)];
      mutexW := Some(t);
      at := at[t := Sending(p.c)];
    }

    method Refused(t: Tid, c: Cid)
      requires mIssuing > 0
      modifies this
      ensures View() == Refuse(old(View()), t, c)
    {
      mIssuing := mIssuing - 1;
      results := results[c := Fail];
      at := at[t := Idle];
    }

    /** mutex::unlock. */
    method Unlock()
      modifies this
      ensures View() == WakeFront(old(View()).(rOwner := None))
    {
      mutexR := None;
      if waitqR != [] {
        var front := waitqR[0];
        var p := PcOf(View(), front);
        waitqR := waitqR[1..];
        at := at[front := if p.LockR? then WokenR(p.c, false) else p];
      }
    }

    /** Every way out of wait_completion: notify the drain, then give the lock back. */
    method Return(t: Tid, c: Cid, r: Result, locked: bool)
      modifies this
      ensures View() == Exit(old(View()), t, c, r, locked)
    {
      results := results[c := r];
      at := at[t := Idle];
      if shut == InQueue { shut := Woken; }
      if locked { Unlock(); }
    }

    /** wait_completion from the attempt to lock to do_completion, or to an early return. */
    method EnterWait(t: Tid, c: Cid, locked: bool)
      requires c in contexts
      modifies this
      ensures View() == Enter(old(View()), t, c, locked)
    {
      var oTag := contexts[c].tag;
      if oTag !in mMap || mMap[oTag] !in contexts {
        Return(t, c, Fail, locked);
        return;
      }
      var e := contexts[mMap[oTag]];
      if e.th != t {
        Return(t, c, Fail, locked);
      } else if e.collected {
        mMap := mMap - {oTag};
        Return(t, c, e.ret, locked);
      } else {
        at := at[t := Receiving(c, oTag, locked)];
      }
    }

    /** mutex::lock, entered or resumed; an interrupted waiter goes on without the lock. */
    method LockThenEnter(t: Tid, c: Cid, interrupted: bool)
      requires c in contexts
      modifies this
      ensures View() == RetryLock(old(View()), t, c, interrupted)
    {
      if interrupted {
        EnterWait(t, c, false);
      } else if mutexR == None {
        mutexR := Some(t);
        EnterWait(t, c, true);
      } else {
        waitqR := waitqR + [t];
        at := at[t := LockR(c)];
      }
    }

    /** do_completion stores the tag it received in the caller's own context. */
    method Stored(c: Cid, tag: Tag)
      requires c in contexts && (tag in mMap ==> mMap[tag] in contexts)
      modifies this`stream, this`contexts
      ensures View() == HeaderRead(old(View()), c, tag) && c in contexts && contexts[c].tag == tag
    {
      stream := Some(tag);
      contexts := contexts[c := contexts[c].(tag := tag)];
      if tag in mMap {
        contexts := contexts[mMap[tag] := contexts[mMap[tag]].(responded := true)];
      }
    }

    method Dispatched(t: Tid, c: Cid, oTag: Tag, locked: bool, tag: Tag)
      requires c in contexts && (tag in mMap ==> mMap[tag] in contexts)
      modifies this
      ensures View() == Dispatch(old(View()), t, c, oTag, locked, tag)
    {
      Stored(c, tag);
      if oTag == contexts[c].tag {
        mMap := mMap - {oTag};
        at := at[t := CollectOwn(c, oTag, locked)];
      } else if tag !in mMap {
        mMap := mMap - {oTag};
        stream := None;
        Return(t, c, Fail, locked);
      } else {
        at := at[t := CollectOther(c, oTag, mMap[tag], locked)];
      }
    }

    /** thread_interrupt as the engine uses it. */
    method InterruptWaiter(th: Tid)
      modifies this
      ensures View() == Interrupt(old(View()), th)
    {
      var p := PcOf(View(), th);
      if p.LockR? {
        waitqR := Without(waitqR, th);
        at := at[th := WokenR(p.c, true)];
      }
    }

    method Deliver(t: Tid, c: Cid, oTag: Tag, target: Cid, locked: bool, data: int)
      requires target in contexts && stream.Some?
      modifies this
      ensures View() == OtherCollected(old(View()), t, c, oTag, target, locked, data)
    {
      contexts := contexts[target := contexts[target].(ret := Body(stream.value, data), collected := true)];
      stream := None;
      at := at[t := Receiving(c, oTag, locked)];
      InterruptWaiter(contexts[target].th);
    }

    /** wait_completion up to the wait for the lock, or to do_completion, or to an early return. */
    method WaitCompletion(t: Tid, c: Cid)
      requires Valid() && Enabled(View(), CallWait(t, c)) && Orderly(View(), CallWait(t, c))
      modifies this
      ensures View() == Apply(old(View()), CallWait(t, c)) && Valid()
      ensures old(mutexR).Some? ==> Queues(old(View()), t, c, View())
      ensures old(mutexR) == None && old(contexts)[c].collected ==> Served(View(), t, c) && mutexR == None
      ensures old(mutexR) == None && !old(contexts)[c].collected ==> OnlyReader(View(), t) && PcOf(View(), t).Receiving?
    {
      GoodStep(View(), CallWait(t, c));
      CallWaitMeans(View(), t, c);
      BeginThenLock(t, c);
    }

    method BeginThenLock(t: Tid, c: Cid)
      requires c in contexts
      modifies this
      ensures View() == RetryLock(BeginWait(old(View()), t, c), t, c, false)
    {
      contexts := contexts[c := contexts[c].(waited := true)];
      at := at[t := WokenR(c, false)];
      LockThenEnter(t, c, false);
    }

    /** The same for a thread that comes back from its wait for the lock.  Without the lock, it finds
        its own result collected. */
    method Resume(t: Tid)
      requires Valid() && Enabled(View(), Retry(t))
      modifies this
      ensures View() == Apply(old(View()), Retry(t)) && Valid()
      ensures var p := old(PcOf(View(), t));
        && (p.interrupted ==> Served(View(), t, p.c) && mutexR == old(mutexR))
        && (!p.interrupted && old(mutexR).Some? ==> Queues(old(View()), t, p.c, View()))
        && (!p.interrupted && old(mutexR) == None && old(contexts)[p.c].collected ==>
              Served(View(), t, p.c) && mutexR == None)
        && (!p.interrupted && old(mutexR) == None && !old(contexts)[p.c].collected ==>
              OnlyReader(View(), t) && PcOf(View(), t).Receiving?)
    {
      GoodStep(View(), Retry(t));
      RetryMeans(View(), t);
      LockThenEnter(t, at[t].c, at[t].interrupted);
    }

    /** The body of the receive loop, once do_completion has returned.  While `t` collects for another,
        its own context has that tag and is in the map under its own. */
    method Received(t: Tid, tag: Tag)
      requires Valid() && Enabled(View(), ReceiveHeader(t, tag))
      modifies this
      ensures View() == Apply(old(View()), ReceiveHeader(t, tag)) && Valid()
      ensures var p := old(PcOf(View(), t));
        && (tag == p.oTag ==> OnlyReader(View(), t) && PcOf(View(), t).CollectOwn? && mMap == old(mMap) - {tag})
        && (tag != p.oTag && tag in old(mMap) ==>
              && OnlyReader(View(), t) && mMap == old(mMap) && p.oTag in mMap && mMap[p.oTag] == p.c && mMap[tag] != p.c
              && p.c in contexts && contexts[p.c].tag == tag && mMap[tag] in contexts && contexts[mMap[tag]].key == tag)
        && (tag != p.oTag && tag !in old(mMap) ==>
              && p.c in results && results[p.c] == Fail && p.oTag !in mMap && mutexR == None
              && forall u :: !Reading(PcOf(View(), u)))
    {
      GoodStep(View(), ReceiveHeader(t, tag));
      ReceivedMeans(View(), t, tag);
      var p := at[t];
      Dispatched(t, p.c, p.oTag, p.locked, tag);
    }

    /** do_collect for another thread has returned: that operation has the body read for its own tag,
        and its thread, if it was queued, is READY with nothing left to read. */
    method Collected(t: Tid, data: int)
      requires Valid() && Enabled(View(), CollectedOther(t, data))
      modifies this
      ensures View() == Apply(old(View()), CollectedOther(t, data)) && Valid() && OnlyReader(View(), t) &&
        stream == None
      ensures
        var g := old(PcOf(View(), t)).target;
        && g in contexts && contexts[g].collected && contexts[g].ret == Body(contexts[g].key, data)
        && (old(PcOf(View(), contexts[PcOf(View(), t).target].th)).LockR? ==>
              var p := PcOf(View(), contexts[g].th);
              contexts[g].th !in waitqR && p.WokenR? && p.c in contexts && contexts[p.c].collected)
    {
      GoodStep(View(), CollectedOther(t, data));
      CollectedMeans(View(), t, data);
      var p := at[t];
      Deliver(t, p.c, p.oTag, p.target, p.locked, data);
    }

    /** wait_completion returns: a lock it held goes to the front waiter, and a drain that slept is
        notified. */
    method Leave(t: Tid)
      requires Valid() && PcOf(View(), t).Leaving?
      modifies this
      ensures View() == Apply(old(View()), OooProtocol.Leave(t)) && Valid()
      ensures var p := old(PcOf(View(), t));
        && p.c in results && results[p.c] == p.ret && PcOf(View(), t).Idle?
        && (p.ret.Body? ==> p.c in contexts && p.ret.tag == contexts[p.c].key)
        && (p.locked ==> old(mutexR) == Some(t) && mutexR == None)
        && (p.locked && old(waitqR) != [] ==> Claims(View(), old(waitqR)[0]) && waitqR == old(waitqR)[1..])
      ensures shut == if old(shut) == InQueue then Woken else old(shut)
    {
      GoodStep(View(), OooProtocol.Leave(t));
      LeaveMeans(View(), t);
      var p := at[t];
      Return(t, p.c, p.ret, p.locked);
    }

    /** shutdown, each time it comes back to its loop: it returns exactly when nothing is registered,
        and otherwise sleeps while there is an operation whose request is out. */
    method DrainCheck()
      requires Valid() && (shut == Woken || (shut == Draining && mIssuing == 0))
      modifies this
      ensures View() == ShutCheck(old(View())) && Valid()
      ensures shut == Returned <==> mMap == map[]
      ensures shut != Returned ==> shut == InQueue && exists k: Tag ::
        k in mMap && mMap[k] in contexts && contexts[mMap[k]].sent
      ensures forall t :: !PcOf(View(), t).Sending?
    {
      GoodStep(View(), if shut == Woken then ShutWake else ShutSpin);
      if |mMap| > 0 { shut := InQueue; } else { shut := Returned; }
      forall t ensures !PcOf(View(), t).Sending? { assert SendInv(View(), t); }
      if shut == InQueue {
        ghost var k: Tag :| k in mMap;
        assert LocalInv(View(), k, 0, 0);
      }
    }
  }
}
