/** What every orderly step of the out-of-order engine keeps, one lemma for each kind of step. */
module OooSafety {
  import opened Common
  import opened OooProtocol

  /** A step that leaves the queue and the waiters alone keeps the queue in order. */
  lemma QueueFrame(s: State, s': State)
    requires LockInv(s) && s'.rq == s.rq
    requires forall t :: PcOf(s, t).LockR? ==> PcOf(s', t) == PcOf(s, t)
    ensures forall i, j :: QueueInv(s', i, j)
  {
    forall i, j ensures QueueInv(s', i, j) { assert QueueInv(s, i, j); }
  }

  lemma OwesFrame(s: State, s': State)
    requires OwesNotify(s) && forall t :: Owes(s, t) ==> Owes(s', t)
    ensures OwesNotify(s')
  {
    var w :| Owes(s, w);
    assert Owes(s', w);
  }

  // ----- issuing -----

  lemma BeginLocal(s: State, t: Tid, c: Cid, user: Option<Tag>, k: Tag, u: Tid, d: Cid)
    requires Inv(s) && Enabled(s, BeginIssue(t, c, user))
    ensures LocalInv(Begin(s, t, c, user), k, u, d)
  {
    assert LocalInv(s, k, u, d);
    assert LocalInv(s, k, u, c);
  }

  lemma BeginKeeps(s: State, t: Tid, c: Cid, user: Option<Tag>)
    requires Inv(s) && Enabled(s, BeginIssue(t, c, user))
    ensures Inv(Begin(s, t, c, user))
  {
    hide LocalInv, QueueInv;
    var s' := Begin(s, t, c, user);
    forall k, u, d ensures LocalInv(s', k, u, d) { BeginLocal(s, t, c, user, k, u, d); }
    QueueFrame(s, s');
    forall u ensures SendInv(s', u) { assert SendInv(s, u); }
    assert Issuers(s') == Issuers(s) + {t};
    if OwesNotify(s) { OwesFrame(s, s'); }
  }

  lemma RefuseLocal(s: State, t: Tid, c: Cid, k: Tag, u: Tid, d: Cid)
    requires Inv(s) && PcOf(s, t).WantW? && s.issuing > 0
    ensures LocalInv(Refuse(s, t, c), k, u, d)
  {
    assert LocalInv(s, k, u, d);
  }

  lemma RefuseKeeps(s: State, t: Tid, c: Cid)
    requires Inv(s) && PcOf(s, t).WantW? && s.issuing > 0
    ensures Inv(Refuse(s, t, c))
  {
    var s' := Refuse(s, t, c);
    forall k, u, d ensures LocalInv(s', k, u, d) { RefuseLocal(s, t, c, k, u, d); }
    QueueFrame(s, s');
    forall u ensures SendInv(s', u) { assert SendInv(s, u); }
    assert Issuers(s') == Issuers(s) - {t};
    assert t in Issuers(s);
    if OwesNotify(s) { OwesFrame(s, s'); }
  }

  lemma AcceptLocal(s: State, t: Tid, c: Cid, user: Option<Tag>, tag: Tag, k: Tag, u: Tid, d: Cid)
    requires Inv(s) && PcOf(s, t) == WantW(c, user) && tag !in s.mp
    ensures LocalInv(Accept(s, t, c, user, tag), k, u, d)
  {
    assert LocalInv(s, k, u, d);
    assert LocalInv(s, k, t, c);
  }

  lemma AcceptKeeps(s: State, t: Tid, c: Cid, user: Option<Tag>, tag: Tag)
    requires Inv(s) && PcOf(s, t) == WantW(c, user) && tag !in s.mp && s.wOwner == None && s.running
    ensures Inv(Accept(s, t, c, user, tag))
  {
    var s' := Accept(s, t, c, user, tag);
    forall k, u, d ensures LocalInv(s', k, u, d) { AcceptLocal(s, t, c, user, tag, k, u, d); }
    QueueFrame(s, s');
    forall u ensures SendInv(s', u) { assert SendInv(s, u); }
    assert Issuers(s') == Issuers(s);
  }

  lemma SentLocal(s: State, t: Tid, c: Cid, k: Tag, u: Tid, d: Cid)
    requires Inv(s) && c in s.ctx
    ensures LocalInv(SendDone(s, t, c), k, u, d)
  {
    assert LocalInv(s, k, u, d);
  }

  lemma SentKeeps(s: State, t: Tid, c: Cid)
    requires Inv(s) && c in s.ctx
    ensures Inv(SendDone(s, t, c))
  {
    var s' := SendDone(s, t, c);
    forall k, u, d ensures LocalInv(s', k, u, d) { SentLocal(s, t, c, k, u, d); }
    QueueFrame(s, s');
    forall u ensures SendInv(s', u) { assert SendInv(s, u); }
    assert Issuers(s') == Issuers(s);
    if OwesNotify(s) { OwesFrame(s, s'); }
  }

  lemma IssueDoneLocal(s: State, t: Tid, k: Tag, u: Tid, d: Cid)
    requires Inv(s) && PcOf(s, t).Sending? && PcOf(s, t).c in s.ctx && s.ctx[PcOf(s, t).c].sent && s.issuing > 0
    ensures LocalInv(IssueDone(s, t), k, u, d)
  {
    assert LocalInv(s, k, u, d);
  }

  lemma IssueDoneKeeps(s: State, t: Tid)
    requires Inv(s) && PcOf(s, t).Sending? && PcOf(s, t).c in s.ctx && s.ctx[PcOf(s, t).c].sent && s.issuing > 0
    ensures Inv(IssueDone(s, t))
  {
    var s' := IssueDone(s, t);
    forall k, u, d ensures LocalInv(s', k, u, d) { IssueDoneLocal(s, t, k, u, d); }
    QueueFrame(s, s');
    assert SendInv(s, t);
    forall u ensures SendInv(s', u) { assert SendInv(s, u); }
    assert Issuers(s') == Issuers(s) - {t};
    if OwesNotify(s) { OwesFrame(s, s'); }
  }

  lemma SendFailedLocal(s: State, t: Tid, c: Cid, k: Tag, u: Tid, d: Cid)
    requires Inv(s) && PcOf(s, t) == Sending(c) && c in s.ctx && !s.ctx[c].sent && s.issuing > 0
    ensures LocalInv(SendFailed(s, t, c), k, u, d)
  {
    assert LocalInv(s, k, u, d);
    assert LocalInv(s, s.ctx[c].key, t, d);
    assert LocalInv(s, s.ctx[c].key, t, d);
  }

  lemma SendFailedKeeps(s: State, t: Tid, c: Cid)
    requires Inv(s) && PcOf(s, t) == Sending(c) && c in s.ctx && !s.ctx[c].sent && s.issuing > 0
    ensures Inv(SendFailed(s, t, c))
  {
    var s' := SendFailed(s, t, c);
    forall k, u, d ensures LocalInv(s', k, u, d) { SendFailedLocal(s, t, c, k, u, d); }
    QueueFrame(s, s');
    assert SendInv(s, t);
    forall u ensures SendInv(s', u) { assert SendInv(s, u); }
    assert Issuers(s') == Issuers(s) - {t};
    if OwesNotify(s) { OwesFrame(s, s'); }
  }

  // ----- leaving wait_completion -----

  lemma WakeEntry(s: State, k: Tag)
    requires EntryInv(s, k)
    ensures EntryInv(WakeFront(s), k)
  {
  }

  lemma WakePc(s: State, u: Tid)
    requires PcInv(s, u) && (s.rq != [] ==> PcInv(s, s.rq[0]) && PcOf(s, s.rq[0]).LockR?)
    ensures PcInv(WakeFront(s), u)
  {
    if s.rq != [] && u != s.rq[0] && u in s.rq { assert u in s.rq[1..]; }
  }

  lemma WakeKeeps(s: State)
    requires Inv(s)
    ensures Inv(WakeFront(s))
  {
    var s' := WakeFront(s);
    assert QueueInv(s, 0, 1);
    forall k, u, d ensures LocalInv(s', k, u, d) {
      assert LocalInv(s, k, u, d);
      assert s.rq != [] ==> LocalInv(s, k, s.rq[0], d);
      WakeEntry(s, k);
      WakePc(s, u);
      assert WaitInv(s', u, k) && ContextInv(s', d);
    }
    forall i: nat, j: nat ensures QueueInv(s', i, j) {
      assert QueueInv(s, i, j) && QueueInv(s, i + 1, j + 1) && QueueInv(s, 0, i + 1);
    }
    forall u ensures SendInv(s', u) { assert SendInv(s, u); }
    assert Issuers(s') == Issuers(s);
    if OwesNotify(s) { OwesFrame(s, s'); }
  }

  lemma GoneEntry(s: State, t: Tid, c: Cid, r: Result, l: bool, k: Tag)
    requires PcOf(s, t) == Leaving(c, r, l) && EntryInv(s, k)
    ensures EntryInv(Gone(s, t, c, r, l), k)
  {
  }

  lemma GonePc(s: State, t: Tid, c: Cid, r: Result, l: bool, u: Tid)
    requires PcOf(s, t) == Leaving(c, r, l) && PcInv(s, t) && PcInv(s, u)
    ensures PcInv(Gone(s, t, c, r, l), u)
  {
  }

  lemma GoneLocal(s: State, t: Tid, c: Cid, r: Result, l: bool, k: Tag, u: Tid, d: Cid)
    requires Inv(s) && PcOf(s, t) == Leaving(c, r, l)
    ensures LocalInv(Gone(s, t, c, r, l), k, u, d) && PcInv(s, t)
  {
    assert LocalInv(s, 0, t, c);
    assert LocalInv(s, k, u, d);
    GoneEntry(s, t, c, r, l, k);
    GonePc(s, t, c, r, l, u);
  }

  lemma ExitKeeps(s: State, t: Tid, c: Cid, r: Result, l: bool)
    requires Inv(s) && PcOf(s, t) == Leaving(c, r, l)
    ensures Inv(Exit(s, t, c, r, l))
  {
    hide LocalInv;
    var s' := Gone(s, t, c, r, l);
    GoneLocal(s, t, c, r, l, 0, t, c);
    forall k, u, d ensures LocalInv(s', k, u, d) { GoneLocal(s, t, c, r, l, k, u, d); }
    QueueFrame(s, s');
    forall u ensures SendInv(s', u) { assert SendInv(s, u); }
    assert Issuers(s') == Issuers(s);
    if l { WakeKeeps(s'); }
  }

  /** A thread takes its own entry out of the map on its way to leaving. */
  function Retire(s: State, t: Tid, c: Cid, r: Result, l: bool): State
    requires c in s.ctx
  {
    SetPc(s.(mp := s.mp - {s.ctx[c].key}, rOwner := if l then Some(t) else s.rOwner), t, Leaving(c, r, l))
  }

  ghost predicate CanRetire(s: State, t: Tid, c: Cid, r: Result, l: bool) {
    && Registered(s, t, c) && s.ctx[c].waited
    && (r.Body? ==> r.tag == s.ctx[c].key)
    && (if l then s.pending == None && (s.rOwner == None || s.rOwner == Some(t))
        else s.ctx[c].collected && s.rOwner != Some(t))
    && (PcOf(s, t).WokenR? || PcOf(s, t).Receiving?) && PcOf(s, t).c == c
  }

  lemma RetireEntry(s: State, t: Tid, c: Cid, r: Result, l: bool, k: Tag)
    requires CanRetire(s, t, c, r, l) && EntryInv(s, k)
    ensures EntryInv(Retire(s, t, c, r, l), k)
  {
  }

  lemma RetirePc(s: State, t: Tid, c: Cid, r: Result, l: bool, u: Tid)
    requires CanRetire(s, t, c, r, l) && PcInv(s, u)
    ensures PcInv(Retire(s, t, c, r, l), u)
  {
  }

  lemma RetireKeeps(s: State, t: Tid, c: Cid, r: Result, l: bool)
    requires Inv(s) && CanRetire(s, t, c, r, l)
    ensures Inv(Retire(s, t, c, r, l))
  {
    var s' := Retire(s, t, c, r, l);
    forall k, u, d ensures LocalInv(s', k, u, d) {
      assert LocalInv(s, k, u, d);
      assert LocalInv(s, k, t, c);
      RetireEntry(s, t, c, r, l, k);
      RetirePc(s, t, c, r, l, u);
      assert WaitInv(s', u, k) && ContextInv(s', d);
    }
    QueueFrame(s, s');
    forall u ensures SendInv(s', u) { assert SendInv(s, u); }
    assert Issuers(s') == Issuers(s);
    assert Owes(s', t);
  }

  /** Leaving overwrites the program counter, so an entry retired on the way out is an Exit. */
  lemma RetireThenExit(s: State, s0: State, t: Tid, c: Cid, r: Result, l: bool)
    requires Inv(s) && CanRetire(s, t, c, r, l)
    requires s0 == s.(mp := s.mp - {s.ctx[c].key}, rOwner := if l then Some(t) else s.rOwner)
    ensures Inv(Exit(s0, t, c, r, l))
  {
    RetireKeeps(s, t, c, r, l);
    var s' := Retire(s, t, c, r, l);
    ExitKeeps(s', t, c, r, l);
    assert s'.pc[t := Idle] == s0.pc[t := Idle];
    assert Gone(s', t, c, r, l) == Gone(s0, t, c, r, l);
  }

  // ----- entering wait_completion -----

  lemma ReceivingLocal(s: State, t: Tid, c: Cid, k: Tag, u: Tid, d: Cid)
    requires Inv(s) && PcOf(s, t).WokenR? && PcOf(s, t).c == c && c in s.ctx && !s.ctx[c].collected && s.rOwner == None
    ensures LocalInv(SetPc(s.(rOwner := Some(t)), t, Receiving(c, s.ctx[c].key, true)), k, u, d)
  {
    assert LocalInv(s, k, u, d);
    assert LocalInv(s, k, t, c);
  }

  lemma ReceivingKeeps(s: State, t: Tid, c: Cid)
    requires Inv(s) && PcOf(s, t).WokenR? && PcOf(s, t).c == c && c in s.ctx && !s.ctx[c].collected && s.rOwner == None
    ensures Inv(SetPc(s.(rOwner := Some(t)), t, Receiving(c, s.ctx[c].key, true)))
  {
    var s' := SetPc(s.(rOwner := Some(t)), t, Receiving(c, s.ctx[c].key, true));
    forall k, u, d ensures LocalInv(s', k, u, d) { ReceivingLocal(s, t, c, k, u, d); }
    QueueFrame(s, s');
    forall u ensures SendInv(s', u) { assert SendInv(s, u); }
    assert Issuers(s') == Issuers(s);
    if OwesNotify(s) { OwesFrame(s, s'); }
  }

  lemma RequeueLocal(s: State, t: Tid, c: Cid, k: Tag, u: Tid, d: Cid)
    requires Inv(s) && PcOf(s, t).WokenR? && PcOf(s, t).c == c
    ensures LocalInv(SetPc(s.(rq := s.rq + [t]), t, LockR(c)), k, u, d)
  {
    assert LocalInv(s, k, u, d);
    assert LocalInv(s, k, t, c);
  }

  lemma RequeueKeeps(s: State, t: Tid, c: Cid)
    requires Inv(s) && PcOf(s, t).WokenR? && PcOf(s, t).c == c
    ensures Inv(SetPc(s.(rq := s.rq + [t]), t, LockR(c)))
  {
    var s' := SetPc(s.(rq := s.rq + [t]), t, LockR(c));
    forall k, u, d ensures LocalInv(s', k, u, d) { RequeueLocal(s, t, c, k, u, d); }
    forall i: nat, j: nat ensures QueueInv(s', i, j) { assert QueueInv(s, i, j); }
    forall u ensures SendInv(s', u) { assert SendInv(s, u); }
    assert Issuers(s') == Issuers(s);
    if OwesNotify(s) { OwesFrame(s, s'); }
  }

  lemma RetryKeeps(s: State, t: Tid, c: Cid, interrupted: bool)
    requires Inv(s) && PcOf(s, t) == WokenR(c, interrupted) && c in s.ctx
    ensures Inv(RetryLock(s, t, c, interrupted))
  {
    assert LocalInv(s, s.ctx[c].key, t, c);
    if !interrupted && s.rOwner != None {
      RequeueKeeps(s, t, c);
    } else {
      var l := !interrupted;
      if s.ctx[c].collected {
        RetireThenExit(s, (if l then s.(rOwner := Some(t)) else s).(mp := s.mp - {s.ctx[c].tag}), t, c, s.ctx[c].ret,
          l);
      } else {
        ReceivingKeeps(s, t, c);
      }
    }
  }

  lemma BeginWaitLocal(s: State, t: Tid, c: Cid, k: Tag, u: Tid, d: Cid)
    requires Inv(s) && PcOf(s, t).Idle? && MayQueue(s, t, c) && s.ctx[c].th == t && !s.ctx[c].waited
    ensures LocalInv(BeginWait(s, t, c), k, u, d)
  {
    assert LocalInv(s, k, u, d);
    assert LocalInv(s, s.ctx[c].key, t, c);
  }

  lemma BeginWaitKeeps(s: State, t: Tid, c: Cid)
    requires Inv(s) && PcOf(s, t).Idle? && MayQueue(s, t, c) && s.ctx[c].th == t && !s.ctx[c].waited
    ensures Inv(BeginWait(s, t, c))
  {
    var s' := BeginWait(s, t, c);
    forall k, u, d ensures LocalInv(s', k, u, d) { BeginWaitLocal(s, t, c, k, u, d); }
    QueueFrame(s, s');
    forall u ensures SendInv(s', u) { assert SendInv(s, u); }
    assert Issuers(s') == Issuers(s);
    if OwesNotify(s) { OwesFrame(s, s'); }
  }

  /** The lock is free: the caller goes straight in, whatever else it has out. */
  function GoIn(s: State, t: Tid, c: Cid): State
    requires c in s.ctx
  {
    SetPc(s.(ctx := s.ctx[c := s.ctx[c].(waited := true)], rOwner := Some(t)), t, Receiving(c, s.ctx[c].tag, true))
  }

  lemma GoInLocal(s: State, t: Tid, c: Cid, k: Tag, u: Tid, d: Cid)
    requires Inv(s) && Enabled(s, CallWait(t, c)) && s.rOwner == None && !s.ctx[c].collected
    ensures LocalInv(GoIn(s, t, c), k, u, d)
  {
    assert LocalInv(s, k, u, d);
    assert LocalInv(s, s.ctx[c].key, t, c);
  }

  lemma GoInKeeps(s: State, t: Tid, c: Cid)
    requires Inv(s) && Enabled(s, CallWait(t, c)) && s.rOwner == None && !s.ctx[c].collected
    ensures Inv(GoIn(s, t, c)) && RetryLock(BeginWait(s, t, c), t, c, false) == GoIn(s, t, c)
  {
    var s' := GoIn(s, t, c);
    forall k, u, d ensures LocalInv(s', k, u, d) { GoInLocal(s, t, c, k, u, d); }
    QueueFrame(s, s');
    forall u ensures SendInv(s', u) { assert SendInv(s, u); }
    assert Issuers(s') == Issuers(s);
    if OwesNotify(s) { OwesFrame(s, s'); }
    assert LocalInv(s, s.ctx[c].key, t, c);
    assert BeginWait(s, t, c).pc[t := Receiving(c, s.ctx[c].tag, true)] == s.pc[t := Receiving(c, s.ctx[c].tag, true)];
  }

  lemma CallWaitKeeps(s: State, t: Tid, c: Cid)
    requires Inv(s) && Enabled(s, CallWait(t, c)) && Orderly(s, CallWait(t, c))
    ensures Inv(RetryLock(BeginWait(s, t, c), t, c, false))
  {
    assert LocalInv(s, s.ctx[c].key, t, c);
    if s.rOwner == None && !s.ctx[c].collected {
      GoInKeeps(s, t, c);
    } else {
      BeginWaitKeeps(s, t, c);
      RetryKeeps(BeginWait(s, t, c), t, c, false);
    }
  }

  // ----- receiving -----

  lemma ReceiveFailKeeps(s: State, t: Tid, c: Cid, o: Tag, l: bool)
    requires Inv(s) && PcOf(s, t) == Receiving(c, o, l)
    ensures Inv(Exit(s.(mp := s.mp - {o}), t, c, Fail, l))
  {
    assert LocalInv(s, o, t, c);
    RetireThenExit(s, s.(mp := s.mp - {o}), t, c, Fail, l);
  }

  /** The reader's `tag` field may hold anything while it receives. */
  function Retag(s: State, c: Cid, tag: Tag): State
    requires c in s.ctx
  {
    s.(ctx := s.ctx[c := s.ctx[c].(tag := tag)])
  }

  lemma RetagKeeps(s: State, t: Tid, c: Cid, o: Tag, l: bool, tag: Tag)
    requires Inv(s) && PcOf(s, t) == Receiving(c, o, l) && c in s.ctx
    ensures Inv(Retag(s, c, tag))
  {
    var s' := Retag(s, c, tag);
    assert LocalInv(s, o, t, c);
    forall k, u, d ensures LocalInv(s', k, u, d) { RetagLocal(s, t, c, o, l, tag, k, u, d); }
    QueueFrame(s, s');
    forall u ensures SendInv(s', u) { assert SendInv(s, u); }
    assert Issuers(s') == Issuers(s);
    if OwesNotify(s) { OwesFrame(s, s'); }
  }

  lemma RetagLocal(s: State, t: Tid, c: Cid, o: Tag, l: bool, tag: Tag, k: Tag, u: Tid, d: Cid)
    requires Inv(s) && PcOf(s, t) == Receiving(c, o, l) && c in s.ctx
    ensures LocalInv(Retag(s, c, tag), k, u, d)
  {
    assert LocalInv(s, k, u, d);
    assert LocalInv(s, k, t, c);
  }

  lemma OrphanKeeps(s: State, t: Tid, c: Cid, o: Tag, l: bool, tag: Tag)
    requires Inv(s) && PcOf(s, t) == Receiving(c, o, l) && c in s.ctx && tag !in s.mp
    ensures Inv(Dispatch(s, t, c, o, l, tag))
  {
    assert LocalInv(s, o, t, c);
    RetagKeeps(s, t, c, o, l, tag);
    var s1 := Retag(s, c, tag);
    assert HeaderRead(s, c, tag).(mp := s.mp - {o}, pending := None) == s1.(mp := s.mp - {o});
    ReceiveFailKeeps(s1, t, c, o, l);
  }

  /** The header is the reader's own. */
  function OwnHeader(s: State, t: Tid, c: Cid, o: Tag, l: bool): State
    requires c in s.ctx
  {
    SetPc(s.(pending := Some(o), mp := s.mp - {o},
             ctx := s.ctx[c := s.ctx[c].(tag := o, responded := true)]), t, CollectOwn(c, o, l))
  }

  lemma OwnHeaderLocal(s: State, t: Tid, c: Cid, o: Tag, l: bool, k: Tag, u: Tid, d: Cid)
    requires Inv(s) && PcOf(s, t) == Receiving(c, o, l) && c in s.ctx && s.ctx[c].sent
    ensures LocalInv(OwnHeader(s, t, c, o, l), k, u, d)
  {
    assert LocalInv(s, k, u, d);
    assert LocalInv(s, o, t, c);
    assert LocalInv(s, o, t, c);
  }

  lemma OwnHeaderKeeps(s: State, t: Tid, c: Cid, o: Tag, l: bool)
    requires Inv(s) && PcOf(s, t) == Receiving(c, o, l) && c in s.ctx && s.ctx[c].sent
    ensures Inv(OwnHeader(s, t, c, o, l))
  {
    var s' := OwnHeader(s, t, c, o, l);
    assert LocalInv(s, o, t, c);
    forall k, u, d ensures LocalInv(s', k, u, d) { OwnHeaderLocal(s, t, c, o, l, k, u, d); }
    QueueFrame(s, s');
    forall u ensures SendInv(s', u) { assert SendInv(s, u); }
    assert Issuers(s') == Issuers(s);
    assert Owes(s', t);
  }

  /** The header is for another registered operation `g`. */
  function OtherHeader(s: State, t: Tid, c: Cid, o: Tag, l: bool, g: Cid, tag: Tag): State
    requires c in s.ctx && g in s.ctx
  {
    SetPc(s.(pending := Some(tag),
             ctx := s.ctx[c := s.ctx[c].(tag := tag)][g := s.ctx[g].(responded := true)]),
          t, CollectOther(c, o, g, l))
  }

  ghost predicate IsOther(s: State, t: Tid, c: Cid, o: Tag, l: bool, g: Cid, tag: Tag) {
    PcOf(s, t) == Receiving(c, o, l) && c in s.ctx && tag in s.mp && s.mp[tag] == g && tag != o &&
    g in s.ctx && s.ctx[g].sent && !s.ctx[g].responded
  }

  lemma OtherHeaderEntry(s: State, t: Tid, c: Cid, o: Tag, l: bool, g: Cid, tag: Tag, k: Tag)
    requires IsOther(s, t, c, o, l, g, tag) && PcInv(s, t) && EntryInv(s, tag) && EntryInv(s, k) && s.pending == None
    ensures EntryInv(OtherHeader(s, t, c, o, l, g, tag), k)
  {
  }

  lemma OtherHeaderPc(s: State, t: Tid, c: Cid, o: Tag, l: bool, g: Cid, tag: Tag, u: Tid)
    requires IsOther(s, t, c, o, l, g, tag) && PcInv(s, t) && EntryInv(s, tag) && PcInv(s, u)
    ensures PcInv(OtherHeader(s, t, c, o, l, g, tag), u)
  {
  }

  lemma OtherHeaderKeeps(s: State, t: Tid, c: Cid, o: Tag, l: bool, g: Cid, tag: Tag)
    requires Inv(s) && IsOther(s, t, c, o, l, g, tag)
    ensures Inv(OtherHeader(s, t, c, o, l, g, tag))
  {
    var s' := OtherHeader(s, t, c, o, l, g, tag);
    assert LocalInv(s, tag, t, c);
    forall k, u, d ensures LocalInv(s', k, u, d) {
      assert LocalInv(s, k, u, d);
      OtherHeaderEntry(s, t, c, o, l, g, tag, k);
      OtherHeaderPc(s, t, c, o, l, g, tag, u);
      assert WaitInv(s', u, k) && ContextInv(s', d);
    }
    QueueFrame(s, s');
    forall u ensures SendInv(s', u) { assert SendInv(s, u); }
    assert Issuers(s') == Issuers(s);
    if OwesNotify(s) { OwesFrame(s, s'); }
  }

  lemma DispatchKeeps(s: State, t: Tid, c: Cid, o: Tag, l: bool, tag: Tag)
    requires Inv(s) && PcOf(s, t) == Receiving(c, o, l) && Enabled(s, ReceiveHeader(t, tag))
    ensures Inv(Dispatch(s, t, c, o, l, tag))
  {
    assert LocalInv(s, tag, t, c);
    if tag == o {
      OwnHeaderKeeps(s, t, c, o, l);
      assert s.ctx[c := s.ctx[c].(tag := o)][c := s.ctx[c].(tag := o, responded := true)]
          == s.ctx[c := s.ctx[c].(tag := o, responded := true)];
    } else if tag !in s.mp {
      OrphanKeeps(s, t, c, o, l, tag);
    } else {
      OtherHeaderKeeps(s, t, c, o, l, s.mp[tag], tag);
    }
  }

  // ----- collecting -----

  function Deliver(s: State, t: Tid, c: Cid, o: Tag, g: Cid, l: bool, data: int): State
    requires g in s.ctx && s.pending.Some?
  {
    SetPc(s.(ctx := s.ctx[g := s.ctx[g].(ret := Body(s.pending.value, data), collected := true)], pending := None),
          t, Receiving(c, o, l))
  }

  lemma DeliverLocal(s: State, t: Tid, c: Cid, o: Tag, g: Cid, l: bool, data: int, k: Tag, u: Tid, d: Cid)
    requires Inv(s) && PcOf(s, t) == CollectOther(c, o, g, l) && g in s.ctx && s.pending.Some?
    ensures LocalInv(Deliver(s, t, c, o, g, l, data), k, u, d)
  {
    assert LocalInv(s, k, u, d);
    assert LocalInv(s, k, t, c);
  }

  lemma DeliverKeeps(s: State, t: Tid, c: Cid, o: Tag, g: Cid, l: bool, data: int)
    requires Inv(s) && PcOf(s, t) == CollectOther(c, o, g, l) && g in s.ctx && s.pending.Some?
    ensures Inv(Deliver(s, t, c, o, g, l, data))
  {
    var s' := Deliver(s, t, c, o, g, l, data);
    assert LocalInv(s, 0, t, c);
    forall k, u, d ensures LocalInv(s', k, u, d) { DeliverLocal(s, t, c, o, g, l, data, k, u, d); }
    QueueFrame(s, s');
    forall u ensures SendInv(s', u) { assert SendInv(s, u); }
    assert Issuers(s') == Issuers(s);
    if OwesNotify(s) { OwesFrame(s, s'); }
  }

  lemma InterruptEntry(s: State, th: Tid, k: Tag)
    requires EntryInv(s, k)
    ensures EntryInv(Interrupt(s, th), k)
  {
  }

  lemma InterruptPc(s: State, th: Tid, u: Tid)
    requires PcInv(s, u) && PcInv(s, th)
    requires PcOf(s, th).LockR? ==> PcOf(s, th).c in s.ctx && s.ctx[PcOf(s, th).c].collected
    ensures PcInv(Interrupt(s, th), u)
  {
  }

  lemma InterruptLocal(s: State, th: Tid, k: Tag, u: Tid, d: Cid)
    requires Inv(s)
    requires PcOf(s, th).LockR? ==> PcOf(s, th).c in s.ctx && s.ctx[PcOf(s, th).c].collected
    ensures LocalInv(Interrupt(s, th), k, u, d)
  {
    assert LocalInv(s, k, u, d) && LocalInv(s, k, th, d);
    InterruptEntry(s, th, k);
    InterruptPc(s, th, u);
  }

  lemma InterruptQueue(s: State, th: Tid, i: nat, j: nat)
    requires LockInv(s)
    ensures QueueInv(Interrupt(s, th), i, j)
  {
    var s' := Interrupt(s, th);
    assert QueueInv(s, i, j);
    if PcOf(s, th).LockR? && i < |s'.rq| {
      if i < j < |s'.rq| {
        var a, b := WithoutIsSubsequence(s.rq, th, i, j);
        assert QueueInv(s, a, b);
      }
      assert s'.rq[i] in s'.rq;
      assert s'.rq[i] in s.rq;
      var m :| 0 <= m < |s.rq| && s.rq[m] == s'.rq[i];
      assert QueueInv(s, m, 0);
    }
  }

  lemma InterruptKeeps(s: State, th: Tid)
    requires Inv(s)
    requires PcOf(s, th).LockR? ==> PcOf(s, th).c in s.ctx && s.ctx[PcOf(s, th).c].collected
    ensures Inv(Interrupt(s, th))
  {
    hide LocalInv, QueueInv;
    var s' := Interrupt(s, th);
    forall k, u, d ensures LocalInv(s', k, u, d) { InterruptLocal(s, th, k, u, d); }
    forall i: nat, j: nat ensures QueueInv(s', i, j) { InterruptQueue(s, th, i, j); }
    forall u ensures SendInv(s', u) { assert SendInv(s, u); }
    assert Issuers(s') == Issuers(s);
    if OwesNotify(s) { OwesFrame(s, s'); }
  }

  lemma OtherCollectedKeeps(s: State, t: Tid, c: Cid, o: Tag, g: Cid, l: bool, data: int)
    requires Inv(s) && PcOf(s, t) == CollectOther(c, o, g, l) && g in s.ctx && s.pending.Some?
    ensures Inv(OtherCollected(s, t, c, o, g, l, data))
  {
    assert LocalInv(s, 0, t, c);
    DeliverKeeps(s, t, c, o, g, l, data);
    var s1 := Deliver(s, t, c, o, g, l, data);
    var th := s.ctx[g].th;
    assert LocalInv(s, s.ctx[g].key, th, g);
    if PcOf(s, th).LockR? { assert LocalInv(s, s.ctx[PcOf(s, th).c].key, th, g); }
    InterruptKeeps(s1, s1.ctx[g].th);
  }

  lemma OwnCollectedLocal(s: State, t: Tid, c: Cid, o: Tag, l: bool, data: int, k: Tag, u: Tid, d: Cid)
    requires Inv(s) && PcOf(s, t) == CollectOwn(c, o, l) && s.pending.Some?
    ensures LocalInv(OwnCollected(s, t, c, l, data), k, u, d)
  {
    assert LocalInv(s, k, u, d);
    assert LocalInv(s, k, t, c);
  }

  lemma OwnCollectedKeeps(s: State, t: Tid, c: Cid, o: Tag, l: bool, data: int)
    requires Inv(s) && PcOf(s, t) == CollectOwn(c, o, l) && s.pending.Some?
    ensures Inv(OwnCollected(s, t, c, l, data))
  {
    var s' := OwnCollected(s, t, c, l, data);
    assert LocalInv(s, 0, t, c);
    forall k, u, d ensures LocalInv(s', k, u, d) { OwnCollectedLocal(s, t, c, o, l, data, k, u, d); }
    QueueFrame(s, s');
    forall u ensures SendInv(s', u) { assert SendInv(s, u); }
    assert Issuers(s') == Issuers(s);
    assert Owes(s', t);
  }

  // ----- shutting down -----

  lemma ShutFrame(s: State, s': State)
    requires Inv(s) && s' == s.(shut := s'.shut, running := s'.running)
    requires s'.shut in {InQueue, Woken, Returned} ==> s.shut in {InQueue, Woken, Returned} || s.issuing == 0
    requires s'.running <==> s'.shut == NotCalled
    requires s'.shut == InQueue ==> s.mp != map[] || OwesNotify(s)
    requires s'.shut == Returned ==> s.mp == map[]
    ensures Inv(s')
  {
    forall k, u, d ensures LocalInv(s', k, u, d) {
      assert LocalInv(s, k, u, d);
      assert EntryInv(s', k) && PcInv(s', u) && WaitInv(s', u, k);
    }
    QueueFrame(s, s');
    assert Issuers(s') == Issuers(s);
    forall u ensures SendInv(s', u) {
      assert SendInv(s, u);
      if PcOf(s, u).Sending? { assert u in Issuers(s); }
    }
    if OwesNotify(s) { OwesFrame(s, s'); }
  }
}
