/**
 Why a caller of the out-of-order engine must not queue for one operation while another of its own
 can still be collected for it, and that nothing less is asked of it.
 */
module OooDiscipline {
  import opened Common
  import opened OooProtocol
  import opened OooSafety
  import opened OooTheorems

  ghost predicate Exclusive(s: State) {
    forall t, u :: Reading(PcOf(s, t)) && Reading(PcOf(s, u)) ==> t == u
  }

  /** However things go on, as long as the callers keep to their side. */
  ghost predicate StaysExclusive(s: State) {
    forall es, s' :: OrderlyRun(s, es, s') ==> Exclusive(s')
  }

  lemma FirstOrderly(s: State, e: Event, es: seq<Event>, s': State)
    requires Enabled(s, e) && Orderly(s, e) && OrderlyRun(Apply(s, e), es, s')
    ensures OrderlyRun(s, [e] + es, s')
  {
    assert ([e] + es)[1..] == es;
  }

  // ----- the run that goes wrong -----

  /** `t` stands in the queue for `c`, while `d`, also of `t`, is on its way to it. */
  ghost predicate Exposed(s: State, t: Tid, c: Cid, d: Cid) {
    && PcOf(s, t) == LockR(c) && Registered(s, t, c) && s.ctx[c].tag == s.ctx[c].key && !s.ctx[c].collected
    && d != c && Registered(s, t, d) && s.ctx[d].sent && !s.ctx[d].collected
  }

  /** Collecting `d` wakes `t`, which goes in for `c` without the lock. */
  lemma CollectingLetsIn(s: State, t: Tid, c: Cid, d: Cid, u: Tid, e: Cid, o: Tag, l: bool, data: int)
    requires Exposed(s, t, c, d) && PcOf(s, u) == CollectOther(e, o, d, l) && s.pending.Some?
    ensures
      var s1 := OtherCollected(s, u, e, o, d, l, data);
      var s2 := RetryLock(s1, t, c, true);
      && PcOf(s1, t) == WokenR(c, true) && c in s1.ctx
      && PcOf(s2, t).Receiving? && PcOf(s2, u).Receiving?
  {
  }

  lemma CollectingRun(s: State, t: Tid, c: Cid, d: Cid, u: Tid, e: Cid, o: Tag, l: bool)
    returns (es: seq<Event>, s': State)
    requires Exposed(s, t, c, d) && PcOf(s, u) == CollectOther(e, o, d, l) && s.pending.Some?
    ensures OrderlyRun(s, es, s') && PcOf(s', t).Receiving? && PcOf(s', u).Receiving?
  {
    CollectingLetsIn(s, t, c, d, u, e, o, l, 0);
    var s1 := OtherCollected(s, u, e, o, d, l, 0);
    s' := RetryLock(s1, t, c, true);
    FirstOrderly(s1, Retry(t), [], s');
    es := [CollectedOther(u, 0)] + ([Retry(t)] + []);
    FirstOrderly(s, CollectedOther(u, 0), [Retry(t)] + [], s');
  }

  /** A header for `d` leaves `t` where it is. */
  lemma HeaderForOther(s: State, t: Tid, c: Cid, d: Cid, u: Tid, e: Cid, o: Tag, l: bool)
    requires Exposed(s, t, c, d) && PcOf(s, u) == Receiving(e, o, l) && e in s.ctx && e != c && s.ctx[d].key != o
    ensures
      var s1 := Dispatch(s, u, e, o, l, s.ctx[d].key);
      Exposed(s1, t, c, d) && PcOf(s1, u) == CollectOther(e, o, d, l) && s1.pending.Some?
  {
  }

  /** In any state at all: a thread queued for one operation, another of its own sent and unanswered,
      and a reader at work have a continuation in which two threads read. */
  lemma ReceivingRun(s: State, t: Tid, c: Cid, d: Cid, u: Tid, e: Cid, o: Tag, l: bool)
    returns (es: seq<Event>, s': State)
    requires Exposed(s, t, c, d) && !s.ctx[d].responded
    requires PcOf(s, u) == Receiving(e, o, l) && e in s.ctx && e != c && s.ctx[d].key != o
    ensures OrderlyRun(s, es, s') && PcOf(s', t).Receiving? && PcOf(s', u).Receiving? && t != u
  {
    var tag := s.ctx[d].key;
    HeaderForOther(s, t, c, d, u, e, o, l);
    var s1 := Dispatch(s, u, e, o, l, tag);
    var es1;
    es1, s' := CollectingRun(s1, t, c, d, u, e, o, l);
    FirstOrderly(s, ReceiveHeader(u, tag), es1, s');
    es := [ReceiveHeader(u, tag)] + es1;
  }

  // ----- exactly when queueing is safe -----

  /** Somebody holds the lock and is in the receive loop. */
  ghost predicate Active(s: State, u: Tid) {
    s.rOwner == Some(u) && (PcOf(s, u).Receiving? || PcOf(s, u).CollectOther?)
  }

  /** What the caller has out besides `c`, and is exposed by. */
  lemma OtherIsOut(s: State, t: Tid, c: Cid) returns (d: Cid)
    requires Inv(s) && Enabled(s, CallWait(t, c)) && !MayQueue(s, t, c)
    ensures d != c && Registered(s, t, d) && s.ctx[d].sent && !s.ctx[d].collected
    ensures Registered(s, t, c) && s.ctx[c].tag == s.ctx[c].key && !s.ctx[c].collected && !s.ctx[c].responded
  {
    var k :| k in s.mp && s.mp[k] in s.ctx && s.ctx[s.mp[k]].th == t && s.mp[k] != c && !s.ctx[s.mp[k]].collected;
    d := s.mp[k];
    assert LocalInv(s, k, t, c);
    assert LocalInv(s, s.ctx[c].key, t, c);
  }

  lemma QueuedExposes(s: State, t: Tid, c: Cid, d: Cid)
    requires Enabled(s, CallWait(t, c)) && s.rOwner.Some?
    requires d != c && Registered(s, t, d) && s.ctx[d].sent && !s.ctx[d].collected
    requires Registered(s, t, c) && s.ctx[c].tag == s.ctx[c].key && !s.ctx[c].collected
    ensures
      var s' := Apply(s, CallWait(t, c));
      && Exposed(s', t, c, d) && s'.ctx[d] == s.ctx[d] && s'.pending == s.pending && s'.mp == s.mp
      && s'.ctx.Keys == s.ctx.Keys && (forall u :: u != t ==> PcOf(s', u) == PcOf(s, u))
      && (forall g :: g in s.ctx && g != c ==> s'.ctx[g] == s.ctx[g])
  {
  }

  lemma UnsafeWhileReceiving(s: State, t: Tid, c: Cid, u: Tid) returns (es: seq<Event>, s': State)
    requires Inv(s) && Enabled(s, CallWait(t, c)) && !MayQueue(s, t, c)
    requires Active(s, u) && PcOf(s, u).Receiving?
    ensures OrderlyRun(Apply(s, CallWait(t, c)), es, s') && PcOf(s', t).Receiving? && PcOf(s', u).Receiving? && t != u
  {
    var d := OtherIsOut(s, t, c);
    QueuedExposes(s, t, c, d);
    var p := PcOf(s, u);
    assert LocalInv(s, s.ctx[d].key, u, d);
    es, s' := ReceivingRun(Apply(s, CallWait(t, c)), t, c, d, u, p.c, p.oTag, p.locked);
  }

  /** The reader collects for a third thread, and then receives again. */
  lemma CollectForThird(s: State, t: Tid, c: Cid, d: Cid, u: Tid)
    requires Exposed(s, t, c, d) && PcOf(s, u).CollectOther? && PcOf(s, u).target in s.ctx && s.pending.Some?
    requires s.ctx[PcOf(s, u).target].th != t
    ensures
      var p := PcOf(s, u);
      var s' := OtherCollected(s, u, p.c, p.oTag, p.target, p.locked, 0);
      Exposed(s', t, c, d) && PcOf(s', u) == Receiving(p.c, p.oTag, p.locked) && s'.ctx[d] == s.ctx[d] &&
        s'.ctx.Keys == s.ctx.Keys
  {
  }

  lemma UnsafeWhileCollecting(s: State, t: Tid, c: Cid, u: Tid) returns (es: seq<Event>, s': State)
    requires Inv(s) && Enabled(s, CallWait(t, c)) && !MayQueue(s, t, c)
    requires Active(s, u) && PcOf(s, u).CollectOther?
    ensures OrderlyRun(Apply(s, CallWait(t, c)), es, s') && PcOf(s', t).Receiving? && PcOf(s', u).Receiving? && t != u
  {
    var d := OtherIsOut(s, t, c);
    QueuedExposes(s, t, c, d);
    var p, s1 := PcOf(s, u), Apply(s, CallWait(t, c));
    assert LocalInv(s, s.ctx[d].key, u, d);
    var g := p.target;
    assert LocalInv(s, s.ctx[g].key, u, g);
    if s.ctx[g].th == t {
      assert Exposed(s1, t, c, g);
      es, s' := CollectingRun(s1, t, c, g, u, p.c, p.oTag, p.locked);
    } else {
      CollectForThird(s1, t, c, d, u);
      var s2 := OtherCollected(s1, u, p.c, p.oTag, g, p.locked, 0);
      var es2;
      es2, s' := ReceivingRun(s2, t, c, d, u, p.c, p.oTag, p.locked);
      FirstOrderly(s1, CollectedOther(u, 0), es2, s');
      es := [CollectedOther(u, 0)] + es2;
    }
  }

  lemma InvExcludes(s: State)
    requires Inv(s)
    ensures Exclusive(s)
  {
    forall t, u | Reading(PcOf(s, t)) && Reading(PcOf(s, u)) ensures t == u {
      assert LocalInv(s, 0, t, 0) && LocalInv(s, 0, u, 0);
    }
  }

  lemma InvStays(s: State)
    requires Inv(s)
    ensures StaysExclusive(s)
  {
    forall es, s' | OrderlyRun(s, es, s') ensures Exclusive(s') {
      RunKeeps(s, es, s');
      InvExcludes(s');
    }
  }

  // ----- while the owner of the lock is on its way out -----

  function Issued(s: State, t: Tid, c: Cid, k: Tag): State {
    s.(mp := s.mp[k := c], ctx := s.ctx[c := Context(k, k, t, false, Fail, true, false, false)],
       owner := s.owner[c := t], wOwner := None, pc := s.pc[t := Idle])
  }

  lemma SentAndDone(s: State, t: Tid, c: Cid, k: Tag)
    requires s.wOwner == None
    ensures var s2 := Accept(Begin(s, t, c, Some(k)), t, c, Some(k), k);
      IssueDone(SendDone(s2, t, c), t) == Issued(s, t, c, k)
  {
    hide Run;
    var s2 := Accept(Begin(s, t, c, Some(k)), t, c, Some(k), k);
    assert SendDone(s2, t, c).ctx == s.ctx[c := Context(k, k, t, false, Fail, true, false, false)];
    assert IssueDone(SendDone(s2, t, c), t).pc == s.pc[t := Idle];
  }

  /** `t` is queued for `c`, or has been woken to ask for the lock again. */
  ghost predicate Poised(s: State, t: Tid, c: Cid, d: Cid) {
    && (PcOf(s, t) == LockR(c) || PcOf(s, t) == WokenR(c, false))
    && Registered(s, t, c) && s.ctx[c].tag == s.ctx[c].key && !s.ctx[c].collected
    && d != c && Registered(s, t, d) && s.ctx[d].sent && !s.ctx[d].collected && !s.ctx[d].responded
  }

  /** `w` has issued `e` under `k`, and not asked for its result yet. */
  ghost predicate Waiting(s: State, w: Tid, e: Cid, k: Tag) {
    && PcOf(s, w).Idle? && e in s.ctx && k in s.mp && s.mp[k] == e
    && s.ctx[e] == Context(k, k, w, false, Fail, true, false, false)
  }

  /** With the lock free, `w` takes it before `t` has run, and `t` is in the queue again. */
  lemma BargesIn(s: State, t: Tid, c: Cid, d: Cid, w: Tid, e: Cid, k: Tag)
    requires Poised(s, t, c, d) && Waiting(s, w, e, k) && s.rOwner == None && w != t && e != c && e != d
    ensures Enabled(s, CallWait(w, e)) && Orderly(s, CallWait(w, e))
    ensures
      var s1 := Apply(s, CallWait(w, e));
      && Poised(s1, t, c, d) && PcOf(s1, w) == Receiving(e, k, true) && s1.rOwner == Some(w) && e in s1.ctx
      && s1.ctx[d] == s.ctx[d]
  {
  }

  lemma AsksAgain(s: State, t: Tid, c: Cid, d: Cid, w: Tid)
    requires Poised(s, t, c, d) && s.rOwner == Some(w) && PcOf(s, t).WokenR?
    ensures
      var s1 := Apply(s, Retry(t));
      && Exposed(s1, t, c, d) && s1.ctx == s.ctx && (w != t ==> PcOf(s1, w) == PcOf(s, w))
  {
  }

  lemma BargingRun(s: State, t: Tid, c: Cid, d: Cid, w: Tid, e: Cid, k: Tag) returns (es: seq<Event>, s': State)
    requires Poised(s, t, c, d) && Waiting(s, w, e, k) && s.rOwner == None && w != t && e != c && e != d &&
      s.ctx[d].key != k
    ensures OrderlyRun(s, es, s') && !Exclusive(s')
  {
    BargesIn(s, t, c, d, w, e, k);
    var s1 := Apply(s, CallWait(w, e));
    if PcOf(s1, t).WokenR? {
      AsksAgain(s1, t, c, d, w);
      var s2 := Apply(s1, Retry(t));
      es, s' := ReceivingRun(s2, t, c, d, w, e, k, true);
      FirstOrderly(s1, Retry(t), es, s');
      es := [Retry(t)] + es;
    } else {
      es, s' := ReceivingRun(s1, t, c, d, w, e, k, true);
    }
    FirstOrderly(s, CallWait(w, e), es, s');
    es := [CallWait(w, e)] + es;
    assert Reading(PcOf(s', t)) && Reading(PcOf(s', w));
  }

  lemma GonePoised(s: State, t: Tid, c: Cid, d: Cid, u: Tid, w: Tid, e: Cid, k: Tag, b: Cid, r: Result)
    requires Poised(s, t, c, d) && Waiting(s, w, e, k) && w != t && u != t && u != w
    ensures
      var s1 := Gone(s, u, b, r, true);
      Poised(s1, t, c, d) && Waiting(s1, w, e, k) && s1.rOwner == None && s1.ctx == s.ctx && s1.rq == s.rq
  {
  }

  lemma WakePoised(s: State, t: Tid, c: Cid, d: Cid, w: Tid, e: Cid, k: Tag)
    requires Poised(s, t, c, d) && Waiting(s, w, e, k) && w !in s.rq
    ensures
      var s1 := WakeFront(s);
      Poised(s1, t, c, d) && Waiting(s1, w, e, k) && s1.rOwner == s.rOwner && s1.ctx == s.ctx
  {
  }

  lemma LeavesPoised(s: State, t: Tid, c: Cid, d: Cid, u: Tid, w: Tid, e: Cid, k: Tag)
    requires Poised(s, t, c, d) && Waiting(s, w, e, k) && w != t
    requires PcOf(s, u).Leaving? && PcOf(s, u).locked && u != t && u != w && w !in s.rq
    ensures
      var s1 := Apply(s, Leave(u));
      Poised(s1, t, c, d) && Waiting(s1, w, e, k) && s1.rOwner == None && s1.ctx == s.ctx
  {
    var p := PcOf(s, u);
    hide Poised, Waiting, Gone, WakeFront;
    GonePoised(s, t, c, d, u, w, e, k, p.c, p.ret);
    WakePoised(Gone(s, u, p.c, p.ret, true), t, c, d, w, e, k);
  }

  /** The owner of the lock leaves. */
  lemma LeavingRun(s: State, t: Tid, c: Cid, d: Cid, u: Tid, w: Tid, e: Cid, k: Tag) returns (es: seq<Event>, s': State)
    requires Poised(s, t, c, d) && Waiting(s, w, e, k) && w != t && e != c && e != d && s.ctx[d].key != k
    requires PcOf(s, u).Leaving? && PcOf(s, u).locked && u != t && u != w && w !in s.rq
    ensures OrderlyRun(s, es, s') && !Exclusive(s')
  {
    LeavesPoised(s, t, c, d, u, w, e, k);
    hide Poised, Waiting, Apply, Exclusive;
    var s1 := Apply(s, Leave(u));
    es, s' := BargingRun(s1, t, c, d, w, e, k);
    FirstOrderly(s, Leave(u), es, s');
    es := [Leave(u)] + es;
  }

  /** Somebody new issues an operation first. */
  lemma IssuingRun(s: State, t: Tid, c: Cid, d: Cid, u: Tid, w: Tid, e: Cid, k: Tag) returns (es: seq<Event>, s': State)
    requires Poised(s, t, c, d) && PcOf(s, u).Leaving? && PcOf(s, u).locked && u != t
    requires s.running && s.wOwner == None && w !in s.pc && w !in s.rq && e !in s.owner && e !in s.ctx && k !in s.mp
    ensures OrderlyRun(s, es, s') && !Exclusive(s')
  {
    var s1 := Begin(s, w, e, Some(k));
    var s2 := Accept(s1, w, e, Some(k), k);
    SentAndDone(s, w, e, k);
    var s4 := Issued(s, w, e, k);
    assert Poised(s4, t, c, d) && Waiting(s4, w, e, k);
    es, s' := LeavingRun(s4, t, c, d, u, w, e, k);
    hide OrderlyRun, Exclusive;
    FirstOrderly(SendDone(s2, w, e), FinishIssue(w), es, s');
    es := [FinishIssue(w)] + es;
    FirstOrderly(s2, Sent(w), es, s');
    es := [Sent(w)] + es;
    FirstOrderly(s1, EnterIssue(w, k), es, s');
    es := [EnterIssue(w, k)] + es;
    FirstOrderly(s, BeginIssue(w, e, Some(k)), es, s');
    es := [BeginIssue(w, e, Some(k))] + es;
  }

  /** A number above all of them. */
  lemma {:induction false} Fresh(a: set<nat>) returns (n: nat)
    ensures n !in a && forall x :: x in a ==> x < n
  {
    if x :| x in a {
      var m := Fresh(a - {x});
      n := if x < m then m else x + 1;
      forall y | y in a ensures y < n { assert y == x || y in a - {x}; }
    } else {
      n := 0;
    }
  }

  /** Whoever is sending is done with it. */
  lemma SendingRun(s: State, t: Tid, c: Cid, d: Cid, u: Tid) returns (es: seq<Event>, s': State)
    requires Poised(s, t, c, d) && PcOf(s, u).Leaving? && PcOf(s, u).locked && u != t && s.running
    requires s.wOwner.Some? ==>
      var x := s.wOwner.value;
      x != t && PcOf(s, x).Sending? && PcOf(s, x).c in s.ctx && s.ctx[PcOf(s, x).c].th == x && s.issuing > 0
    ensures OrderlyRun(s, es, s') && !Exclusive(s')
  {
    var w := Fresh(s.pc.Keys + (set x | x in s.rq) + (if s.wOwner.Some? then {s.wOwner.value} else {}));
    var e := Fresh(s.owner.Keys + s.ctx.Keys);
    var k := Fresh(s.mp.Keys);
    if s.wOwner == None {
      es, s' := IssuingRun(s, t, c, d, u, w, e, k);
    } else {
      var x := s.wOwner.value;
      var s1 := SendDone(s, x, PcOf(s, x).c);
      var s2 := IssueDone(s1, x);
      assert Poised(s2, t, c, d) && PcOf(s2, u) == PcOf(s, u);
      es, s' := IssuingRun(s2, t, c, d, u, w, e, k);
      FirstOrderly(s1, FinishIssue(x), es, s');
      es := [FinishIssue(x)] + es;
      FirstOrderly(s, Sent(x), es, s');
      es := [Sent(x)] + es;
    }
  }

  /** The owner of the lock has nothing more to receive, and the engine is running. */
  lemma UnsafeWhileLeaving(s: State, t: Tid, c: Cid, u: Tid) returns (es: seq<Event>, s': State)
    requires Inv(s) && Enabled(s, CallWait(t, c)) && !MayQueue(s, t, c) && s.running
    requires s.rOwner == Some(u) && (PcOf(s, u).CollectOwn? || PcOf(s, u).Leaving?)
    ensures OrderlyRun(Apply(s, CallWait(t, c)), es, s') && !Exclusive(s')
  {
    hide OrderlyRun, Exclusive;
    var d := OtherIsOut(s, t, c);
    QueuedExposes(s, t, c, d);
    var s1 := Apply(s, CallWait(t, c));
    assert LocalInv(s, s.ctx[d].key, u, d);
    assert !s.ctx[d].responded;
    if s.wOwner.Some? { SenderStands(s); }
    if PcOf(s, u).Leaving? {
      es, s' := SendingRun(s1, t, c, d, u);
    } else {
      var s2 := OwnCollected(s1, u, PcOf(s, u).c, PcOf(s, u).locked, 0);
      es, s' := SendingRun(s2, t, c, d, u);
      FirstOrderly(s1, CollectedOwn(u, 0), es, s');
      es := [CollectedOwn(u, 0)] + es;
    }
  }

  lemma SenderStands(s: State)
    requires Inv(s) && s.wOwner.Some?
    ensures var x := s.wOwner.value; PcOf(s, x).Sending? && Registered(s, x, PcOf(s, x).c) && s.issuing > 0
  {
    var x := s.wOwner.value;
    assert SendInv(s, x) && LocalInv(s, 0, x, 0);
    assert x in Issuers(s);
  }

  lemma Unsafe(s: State, t: Tid, c: Cid, u: Tid) returns (es: seq<Event>, s': State)
    requires Inv(s) && Enabled(s, CallWait(t, c)) && !MayQueue(s, t, c) && s.rOwner == Some(u) &&
      (s.running || Active(s, u))
    ensures OrderlyRun(Apply(s, CallWait(t, c)), es, s') && !Exclusive(s')
  {
    if PcOf(s, u).Receiving? {
      es, s' := UnsafeWhileReceiving(s, t, c, u);
      assert Reading(PcOf(s', t)) && Reading(PcOf(s', u)) && t != u;
    } else if PcOf(s, u).CollectOther? {
      es, s' := UnsafeWhileCollecting(s, t, c, u);
      assert Reading(PcOf(s', t)) && Reading(PcOf(s', u)) && t != u;
    } else {
      es, s' := UnsafeWhileLeaving(s, t, c, u);
    }
  }

  /** With the lock taken, a caller that joins the queue for `c` does no harm exactly when `c` has been
      answered, or everything else it has registered is collected: then, and only then, no continuation
      in which everybody keeps to that has two readers.  Whoever has the lock, a reader at work or one
      on its way out of an engine that still takes operations. */
  lemma QueueingIsSafeIff(es: seq<Event>, s: State, t: Tid, c: Cid)
    requires OrderlyRun(INITIAL, es, s) && Enabled(s, CallWait(t, c)) && s.rOwner.Some?
    requires s.running || Active(s, s.rOwner.value)
    ensures MayQueue(s, t, c) <==> StaysExclusive(Apply(s, CallWait(t, c)))
  {
    InitialInv();
    RunKeeps(INITIAL, es, s);
    var s1 := Apply(s, CallWait(t, c));
    if MayQueue(s, t, c) {
      StepKeeps(s, CallWait(t, c));
      InvStays(s1);
    } else {
      var more, s' := Unsafe(s, t, c, s.rOwner.value);
      assert OrderlyRun(s1, more, s') && !Exclusive(s');
    }
  }

  // ----- and such a state is reached -----

  lemma {:induction false} OrderlyIsRun(s: State, es: seq<Event>, s': State)
    requires OrderlyRun(s, es, s')
    ensures Run(s, es, s')
    decreases |es|
  {
    if es == [] {
    } else {
      OrderlyIsRun(Apply(s, es[0]), es[1..], s');
    }
  }

  lemma FirstStep(s: State, e: Event, es: seq<Event>, s': State)
    requires Enabled(s, e) && Run(Apply(s, e), es, s')
    ensures Run(s, [e] + es, s')
  {
    assert ([e] + es)[1..] == es;
  }

  lemma SendAlone(s: State, t: Tid, c: Cid, es: seq<Event>, s': State)
    requires PcOf(s, t) == Sending(c) && c in s.ctx && s.issuing > 0
    requires Run(IssueDone(SendDone(s, t, c), t), es, s')
    ensures Run(s, [Sent(t)] + ([FinishIssue(t)] + es), s')
  {
    FirstStep(SendDone(s, t, c), FinishIssue(t), es, s');
    FirstStep(s, Sent(t), [FinishIssue(t)] + es, s');
  }

  lemma IssueAlone(s: State, t: Tid, c: Cid, k: Tag, es: seq<Event>, s': State)
    requires PcOf(s, t).Idle? && c !in s.owner && k !in s.mp && s.running && s.wOwner == None
    requires Run(Issued(s, t, c, k), es, s')
    ensures exists more :: Run(s, more, s')
  {
    hide Run;
    var s1 := Begin(s, t, c, Some(k));
    SentAndDone(s, t, c, k);
    SendAlone(Accept(s1, t, c, Some(k), k), t, c, es, s');
    var es2 := [Sent(t)] + ([FinishIssue(t)] + es);
    FirstStep(s1, EnterIssue(t, k), es2, s');
    FirstStep(s, BeginIssue(t, c, Some(k)), [EnterIssue(t, k)] + es2, s');
  }

  /** Thread 1 has contexts 10 and 11 out under tags 1 and 2, thread 2 has context 20 under tag 3. */
  const CROWDED := Issued(Issued(Issued(INITIAL, 1, 10, 1), 1, 11, 2), 2, 20, 3)

  const CROWDED_1 := RetryLock(BeginWait(CROWDED, 2, 20), 2, 20, false)

  /** Thread 2 receives, thread 1 is queued with context 11. */
  const CROWDED_2 := RetryLock(BeginWait(CROWDED_1, 1, 11), 1, 11, false)

  lemma CrowdedWaits(es: seq<Event>, s: State)
    requires Run(CROWDED_2, es, s)
    ensures exists more :: Run(CROWDED, more, s)
    ensures CROWDED_2.pc[1] == LockR(11) && CROWDED_2.pc[2] == Receiving(20, 3, true) && CROWDED_2.rOwner == Some(2)
    ensures CROWDED_2.ctx[10] == CROWDED.ctx[10] && CROWDED_2.mp == CROWDED.mp
  {
    hide Run;
    FirstStep(CROWDED_1, CallWait(1, 11), es, s);
    FirstStep(CROWDED, CallWait(2, 20), [CallWait(1, 11)] + es, s);
  }

  /** The engine cannot be used without care: a run reaches two readers at the same time. */
  lemma TwoOperationsPerThreadBreakExclusion()
    ensures exists es, s :: Run(INITIAL, es, s) && PcOf(s, 1).Receiving? && PcOf(s, 2).Receiving?
  {
    CrowdedStands();
    var es, s := ReceivingRun(CROWDED_2, 1, 11, 10, 2, 20, 3, true);
    OrderlyIsRun(CROWDED_2, es, s);
    CrowdedWaits(es, s);
    var es3 :| Run(CROWDED, es3, s);
    CrowdedIsReached(es3, s);
  }

  lemma CrowdedStands()
    ensures Exposed(CROWDED_2, 1, 11, 10) && !CROWDED_2.ctx[10].responded &&
      PcOf(CROWDED_2, 2) == Receiving(20, 3, true)
    ensures 20 in CROWDED_2.ctx && CROWDED_2.ctx[10].key != 3
  {
  }

  lemma CrowdedIsReached(es: seq<Event>, s: State)
    requires Run(CROWDED, es, s)
    ensures exists more :: Run(INITIAL, more, s)
  {
    var a := Issued(INITIAL, 1, 10, 1);
    var b := Issued(a, 1, 11, 2);
    IssueAlone(b, 2, 20, 3, es, s);
    var es1 :| Run(b, es1, s);
    IssueAlone(a, 1, 11, 2, es1, s);
    var es2 :| Run(a, es2, s);
    IssueAlone(INITIAL, 1, 10, 1, es2, s);
  }
}
