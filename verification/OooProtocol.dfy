/**
 The out-of-order execution engine as a state machine.

 One event is the code a thread runs between two context switches, or one thing the
 peer does.  Any ready thread may take the next event, so every order the cooperative
 scheduler can produce is among the runs of this machine.
 */
module OooProtocol {
  import opened Common

  type Tid = nat
  type Tag = nat
  type Cid = nat  // identity of an OutOfOrderContext

  /** What wait_completion hands back: an error, or what do_collect read behind the header `tag`. */
  datatype Result = Fail | Body(tag: Tag, data: int)

  /** `tag` is the field do_completion overwrites; `key` is the tag the operation was issued
      under.  `sent`, `responded` and `waited` record what the peer and the caller have done. */
  datatype Context = Context(tag: Tag, key: Tag, th: Tid, collected: bool, ret: Result,
                             sent: bool, responded: bool, waited: bool)

  /** Where a thread stands.  `locked` says whether it holds m_mutex_r. */
  datatype Pc =
    | Idle                                                        // in caller's code
    | WantW(c: Cid, user: Option<Tag>)                            // locking m_mutex_w
    | Sending(c: Cid)                                             // inside do_issue
    | LockR(c: Cid)                                               // WAITING for m_mutex_r
    | WokenR(c: Cid, interrupted: bool)                           // READY, back from that wait
    | Receiving(c: Cid, oTag: Tag, locked: bool)                  // inside do_completion
    | CollectOther(c: Cid, oTag: Tag, target: Cid, locked: bool)  // inside do_collect for another
    | CollectOwn(c: Cid, oTag: Tag, locked: bool)                 // inside do_collect for itself
    | Leaving(c: Cid, ret: Result, locked: bool)                  // yielding before the unlock

  /** Where the one caller of shutdown that found the engine running stands. */
  datatype Shutdown = NotCalled | Draining | InQueue | Woken | Returned

  datatype State = State(
    mp: map<Tag, Cid>, ctx: map<Cid, Context>, owner: map<Cid, Tid>,  // owner: who brought which context
    lastTag: Tag, issuing: nat, running: bool,
    wOwner: Option<Tid>, rOwner: Option<Tid>, rq: seq<Tid>,
    pending: Option<Tag>,  // header taken off the stream whose body is still on it
    pc: map<Tid, Pc>, shut: Shutdown, outcome: map<Cid, Result>)

  const INITIAL := State(map[], map[], map[], 0, 0, true, None, None, [], None, map[], NotCalled, map[])

  datatype Event =
    | BeginIssue(t: Tid, c: Cid, user: Option<Tag>)
    | EnterIssue(t: Tid, tag: Tag)
    | Sent(t: Tid)
    | FinishIssue(t: Tid)
    | FailIssue(t: Tid)
    | CallWait(t: Tid, c: Cid)
    | Retry(t: Tid)
    | ReceiveFail(t: Tid)
    | ReceiveHeader(t: Tid, tag: Tag)
    | CollectedOther(t: Tid, data: int)
    | CollectedOwn(t: Tid, data: int)
    | Leave(t: Tid)
    | ShutCall
    | ShutSpin
    | ShutWake

  function PcOf(s: State, t: Tid): Pc {
    if t in s.pc then s.pc[t] else Idle
  }

  function SetPc(s: State, t: Tid, p: Pc): State {
    s.(pc := s.pc[t := p])
  }

  // ----- helpers shared by the events -----

  /** The tag the retry loop settles on: the first one after `last` that is not in use. */
  ghost predicate IsNextFree(mp: map<Tag, Cid>, last: Tag, k: Tag) {
    last < k && k !in mp && forall j :: last < j < k ==> j in mp
  }

  /** There always is one: the tags in use beyond `last` are finitely many. */
  ghost function NextFree(mp: map<Tag, Cid>, last: Tag): (k: Tag)
    ensures IsNextFree(mp, last, k)
    decreases Beyond(mp, last)
  {
    if last + 1 !in mp then last + 1
    else
      assert last + 1 in Beyond(mp, last) && Beyond(mp, last + 1) <= Beyond(mp, last);
      NextFree(mp, last + 1)
  }

  ghost function Beyond(mp: map<Tag, Cid>, last: Tag): set<Tag> {
    set j | j in mp.Keys && j > last
  }

  /** thread_interrupt(th, EINTR): no effect unless `th` is waiting in the engine's queue;
      a thread that is READY already is left alone. */
  function Interrupt(s: State, th: Tid): State {
    var p := PcOf(s, th);
    if p.LockR? then SetPc(s.(rq := Without(s.rq, th)), th, WokenR(p.c, true)) else s
  }

  /** mutex::unlock hands its wake-up to the front waiter. */
  function WakeFront(s: State): State {
    if s.rq == [] then s
    else
      var p := PcOf(s, s.rq[0]);
      SetPc(s.(rq := s.rq[1..]), s.rq[0], if p.LockR? then WokenR(p.c, false) else p)
  }

  function NotifyOne(s: State): State {
    if s.shut == InQueue then s.(shut := Woken) else s
  }

  /** The thread is out of wait_completion with result `r`, and the drain is notified. */
  function Gone(s: State, t: Tid, c: Cid, r: Result, locked: bool): State {
    NotifyOne(SetPc(s.(outcome := s.outcome[c := r], rOwner := if locked then None else s.rOwner), t, Idle))
  }

  /** wait_completion returns: record the result, notify the drain, give the lock back. */
  function Exit(s: State, t: Tid, c: Cid, r: Result, locked: bool): State {
    if locked then WakeFront(Gone(s, t, c, r, true)) else Gone(s, t, c, r, false)
  }

  /** The part of wait_completion that follows the attempt to lock, up to do_completion. */
  function Enter(s: State, t: Tid, c: Cid, locked: bool): State
    requires c in s.ctx
  {
    var oTag := s.ctx[c].tag;
    if oTag !in s.mp || s.mp[oTag] !in s.ctx then Exit(s, t, c, Fail, locked)
    else
      var e := s.ctx[s.mp[oTag]];
      if e.th != t then Exit(s, t, c, Fail, locked)
      else if e.collected then Exit(s.(mp := s.mp - {oTag}), t, c, e.ret, locked)
      else SetPc(s, t, Receiving(c, oTag, locked))
  }

  // ----- the events -----

  ghost predicate Enabled(s: State, e: Event) {
    match e
    case BeginIssue(t, c, _) => PcOf(s, t).Idle? && c !in s.owner
    case EnterIssue(t, tag) =>
      var p := PcOf(s, t);
      p.WantW? && s.wOwner == None && s.issuing > 0 &&
      (if p.user.Some? then tag == p.user.value else IsNextFree(s.mp, s.lastTag, tag))
    case Sent(t) => PcOf(s, t).Sending? && PcOf(s, t).c in s.ctx
    case FinishIssue(t) => PcOf(s, t).Sending? && PcOf(s, t).c in s.ctx && s.ctx[PcOf(s, t).c].sent && s.issuing > 0
    case FailIssue(t) => PcOf(s, t).Sending? && PcOf(s, t).c in s.ctx && !s.ctx[PcOf(s, t).c].sent && s.issuing > 0
    // a caller waits on a context of its own that it issued, and once
    case CallWait(t, c) => PcOf(s, t).Idle? && c in s.ctx && s.ctx[c].th == t && !s.ctx[c].waited
    case Retry(t) => PcOf(s, t).WokenR? && PcOf(s, t).c in s.ctx
    case ReceiveFail(t) => PcOf(s, t).Receiving?
    // a tag in use is answered at most once, and not before its request went out
    case ReceiveHeader(t, tag) =>
      PcOf(s, t).Receiving? && PcOf(s, t).c in s.ctx &&
      (tag in s.mp ==> s.mp[tag] in s.ctx && s.ctx[s.mp[tag]].sent && !s.ctx[s.mp[tag]].responded)
    case CollectedOther(t, _) => PcOf(s, t).CollectOther? && PcOf(s, t).target in s.ctx && s.pending.Some?
    case CollectedOwn(t, _) => PcOf(s, t).CollectOwn? && s.pending.Some?
    case Leave(t) => PcOf(s, t).Leaving?
    case ShutCall => true
    case ShutSpin => s.shut == Draining
    case ShutWake => s.shut == Woken
  }

  function Begin(s: State, t: Tid, c: Cid, user: Option<Tag>): State {
    SetPc(s.(issuing := s.issuing + 1, owner := s.owner[c := t]), t, WantW(c, user))
  }

  function Refuse(s: State, t: Tid, c: Cid): State
    requires s.issuing > 0
  {
    SetPc(s.(issuing := s.issuing - 1, outcome := s.outcome[c := Fail]), t, Idle)
  }

  function Accept(s: State, t: Tid, c: Cid, user: Option<Tag>, tag: Tag): State {
    SetPc(s.(mp := s.mp[tag := c], wOwner := Some(t),
             ctx := s.ctx[c := Context(tag, tag, t, false, Fail, false, false, false)],
             lastTag := if user.Some? then s.lastTag else tag), t, Sending(c))
  }

  function SendDone(s: State, t: Tid, c: Cid): State
    requires c in s.ctx
  {
    s.(ctx := s.ctx[c := s.ctx[c].(sent := true)])
  }

  function IssueDone(s: State, t: Tid): State
    requires s.issuing > 0
  {
    SetPc(s.(wOwner := None, issuing := s.issuing - 1), t, Idle)
  }

  function SendFailed(s: State, t: Tid, c: Cid): State
    requires c in s.ctx && s.issuing > 0
  {
    SetPc(s.(wOwner := None, issuing := s.issuing - 1, mp := s.mp - {s.ctx[c].tag},
             ctx := s.ctx - {c}, outcome := s.outcome[c := Fail]), t, Idle)
  }

  /** What a thread does on coming back from its wait for m_mutex_r. */
  function RetryLock(s: State, t: Tid, c: Cid, interrupted: bool): State
    requires c in s.ctx
  {
    if interrupted then Enter(s, t, c, false)
    else if s.rOwner == None then Enter(s.(rOwner := Some(t)), t, c, true)
    else SetPc(s.(rq := s.rq + [t]), t, LockR(c))
  }

  /** The first attempt to lock is the same test a woken waiter makes. */
  function BeginWait(s: State, t: Tid, c: Cid): State
    requires c in s.ctx
  {
    SetPc(s.(ctx := s.ctx[c := s.ctx[c].(waited := true)]), t, WokenR(c, false))
  }

  /** do_completion stores the tag it received in the caller's own context. */
  function HeaderRead(s: State, c: Cid, tag: Tag): State
    requires c in s.ctx && (tag in s.mp ==> s.mp[tag] in s.ctx)
  {
    var s0 := s.(pending := Some(tag), ctx := s.ctx[c := s.ctx[c].(tag := tag)]);
    if tag in s.mp then s0.(ctx := s0.ctx[s.mp[tag] := s0.ctx[s.mp[tag]].(responded := true)]) else s0
  }

  function Dispatch(s: State, t: Tid, c: Cid, oTag: Tag, locked: bool, tag: Tag): State
    requires c in s.ctx && (tag in s.mp ==> s.mp[tag] in s.ctx)
  {
    var s1 := HeaderRead(s, c, tag);
    if tag == oTag then SetPc(s1.(mp := s1.mp - {oTag}), t, CollectOwn(c, oTag, locked))
    else if tag !in s.mp then
      // the caller that sees -2 drops the orphan's body
      Exit(s1.(mp := s1.mp - {oTag}, pending := None), t, c, Fail, locked)
    else SetPc(s1, t, CollectOther(c, oTag, s.mp[tag], locked))
  }

  function OtherCollected(s: State, t: Tid, c: Cid, oTag: Tag, target: Cid, locked: bool, data: int): State
    requires target in s.ctx && s.pending.Some?
  {
    var x := s.ctx[target].(ret := Body(s.pending.value, data), collected := true);
    Interrupt(SetPc(s.(ctx := s.ctx[target := x], pending := None), t, Receiving(c, oTag, locked)), x.th)
  }

  function OwnCollected(s: State, t: Tid, c: Cid, locked: bool, data: int): State
    requires s.pending.Some?
  {
    SetPc(s.(pending := None), t, Leaving(c, Body(s.pending.value, data), locked))
  }

  function ShutCheck(s: State): State {
    s.(shut := if |s.mp| == 0 then Returned else InQueue)
  }

  ghost function Apply(s: State, e: Event): State
    requires Enabled(s, e)
  {
    match e
    case BeginIssue(t, c, user) => Begin(s, t, c, user)
    case EnterIssue(t, tag) =>
      // a refused issue: the engine is shutting down, or the user's own tag is taken
      if !s.running || tag in s.mp then Refuse(s, t, PcOf(s, t).c)
      else Accept(s, t, PcOf(s, t).c, PcOf(s, t).user, tag)
    case Sent(t) => SendDone(s, t, PcOf(s, t).c)
    case FinishIssue(t) => IssueDone(s, t)
    case FailIssue(t) => SendFailed(s, t, PcOf(s, t).c)
    case CallWait(t, c) => RetryLock(BeginWait(s, t, c), t, c, false)
    case Retry(t) => RetryLock(s, t, PcOf(s, t).c, PcOf(s, t).interrupted)
    case ReceiveFail(t) =>
      var p := PcOf(s, t);
      Exit(s.(mp := s.mp - {p.oTag}), t, p.c, Fail, p.locked)
    case ReceiveHeader(t, tag) =>
      var p := PcOf(s, t);
      Dispatch(s, t, p.c, p.oTag, p.locked, tag)
    case CollectedOther(t, data) =>
      var p := PcOf(s, t);
      OtherCollected(s, t, p.c, p.oTag, p.target, p.locked, data)
    case CollectedOwn(t, data) =>
      var p := PcOf(s, t);
      OwnCollected(s, t, p.c, p.locked, data)
    case Leave(t) =>
      var p := PcOf(s, t);
      Exit(s, t, p.c, p.ret, p.locked)
    case ShutCall => if s.running then s.(running := false, shut := Draining) else s
    case ShutSpin => if s.issuing > 0 then s else ShutCheck(s)
    case ShutWake => ShutCheck(s)
  }

  /** Whatever else `t` has registered is collected. */
  ghost predicate OthersCollected(s: State, t: Tid, c: Cid) {
    forall k :: k in s.mp && s.mp[k] in s.ctx && s.ctx[s.mp[k]].th == t && s.mp[k] != c ==> s.ctx[s.mp[k]].collected
  }

  /** `t` may stand in the queue for context `c`: an interrupt that finds it there is about `c`, or
      finds `c` collected. */
  ghost predicate MayQueue(s: State, t: Tid, c: Cid) {
    c in s.ctx && (s.ctx[c].responded || OthersCollected(s, t, c))
  }

  /** The caller's side of the contract: a thread that finds the lock taken has nothing else out that
      another thread may still collect for it. */
  ghost predicate Orderly(s: State, e: Event) {
    e.CallWait? && s.rOwner.Some? ==> MayQueue(s, e.t, e.c)
  }

  /** The state after the events of `es`, each of them possible when it happens. */
  ghost predicate Run(s: State, es: seq<Event>, s': State)
    decreases |es|
  {
    if es == [] then s == s'
    else Enabled(s, es[0]) && Run(Apply(s, es[0]), es[1..], s')
  }

  /** The same, with every caller keeping to its side. */
  ghost predicate OrderlyRun(s: State, es: seq<Event>, s': State)
    decreases |es|
  {
    if es == [] then s == s'
    else Enabled(s, es[0]) && Orderly(s, es[0]) && OrderlyRun(Apply(s, es[0]), es[1..], s')
  }

  // ----- the invariant -----

  predicate Reading(p: Pc) { p.Receiving? || p.CollectOther? || p.CollectOwn? }

  predicate InLock(p: Pc) { Reading(p) || p.Leaving? }

  /** In wait_completion, or sending, with its context still registered. */
  predicate Waits(p: Pc) { p.LockR? || p.WokenR? || p.Receiving? || p.CollectOther? }

  /** Where the owner of a registered context may stand. */
  predicate OwnerAt(p: Pc, c: Cid, x: Context) {
    (x.waited ==> Waits(p) && p.c == c) && (!x.sent ==> p == Sending(c))
  }

  /** Map entry `k` is the context issued under `k`; only the reader's `tag` may differ from its key. */
  ghost predicate EntryInv(s: State, k: Tag) {
    k in s.mp ==>
      var c := s.mp[k];
      c in s.ctx && s.ctx[c].key == k &&
      OwnerAt(PcOf(s, s.ctx[c].th), c, s.ctx[c]) &&
      (s.ctx[c].tag == k || (s.ctx[c].waited && !PcOf(s, s.ctx[c].th).LockR? && !PcOf(s, s.ctx[c].th).WokenR?)) &&
      (s.ctx[c].collected ==> s.ctx[c].responded && s.ctx[c].ret.Body? && s.ctx[c].ret.tag == k) &&
      (s.ctx[c].responded ==> s.ctx[c].sent && (s.ctx[c].collected || s.pending == Some(k)))
  }

  /** A thread in the queue, or on its way back there, may stand there as far as `k` goes. */
  ghost predicate WaitInv(s: State, t: Tid, k: Tag) {
    (PcOf(s, t).LockR? || PcOf(s, t).WokenR?) && k in s.mp && s.mp[k] in s.ctx && s.ctx[s.mp[k]].th == t ==>
      var c := PcOf(s, t).c;
      s.mp[k] == c || s.ctx[s.mp[k]].collected || (c in s.ctx && s.ctx[c].responded)
  }

  ghost predicate Registered(s: State, t: Tid, c: Cid) {
    c in s.ctx && s.ctx[c].th == t && s.ctx[c].key in s.mp && s.mp[s.ctx[c].key] == c
  }

  ghost predicate PcInv(s: State, t: Tid) {
    match PcOf(s, t)
    case Idle => true
    case WantW(c, _) => c in s.owner && s.owner[c] == t && c !in s.ctx
    case Sending(c) => Registered(s, t, c) && s.ctx[c].tag == s.ctx[c].key
    case LockR(c) => Registered(s, t, c) && s.ctx[c].waited && s.ctx[c].tag == s.ctx[c].key && t in s.rq
    case WokenR(c, i) =>
      Registered(s, t, c) && s.ctx[c].waited && s.ctx[c].tag == s.ctx[c].key && (i ==> s.ctx[c].collected)
    case Receiving(c, o, l) =>
      Registered(s, t, c) && s.ctx[c].waited && o == s.ctx[c].key && !s.ctx[c].collected && l && s.rOwner == Some(t)
    case CollectOther(c, o, g, l) =>
      Registered(s, t, c) && s.ctx[c].waited && o == s.ctx[c].key && !s.ctx[c].collected && l && s.rOwner == Some(t) &&
      g in s.ctx && Registered(s, s.ctx[g].th, g) && s.pending == Some(s.ctx[g].key) &&
      s.ctx[g].responded && !s.ctx[g].collected && g != c
    case CollectOwn(c, o, l) =>
      c in s.ctx && s.ctx[c].th == t && s.ctx[c].waited && s.ctx[c].key == o &&
      l && s.rOwner == Some(t) && s.pending == Some(o) && (o in s.mp && s.mp[o] in s.ctx ==> !s.ctx[s.mp[o]].responded)
    case Leaving(c, r, l) =>
      c in s.ctx && s.ctx[c].th == t && s.ctx[c].waited && (r.Body? ==> r.tag == s.ctx[c].key) &&
      (l ==> s.rOwner == Some(t))
  }

  ghost predicate ContextInv(s: State, c: Cid) {
    && (c in s.ctx ==> c in s.owner && s.owner[c] == s.ctx[c].th)
    && (c in s.ctx && !s.ctx[c].waited ==> Registered(s, s.ctx[c].th, c))
    && (c in s.outcome && s.outcome[c].Body? ==>
          c in s.ctx && s.ctx[c].waited && s.outcome[c].tag == s.ctx[c].key)
  }

  ghost predicate LocalInv(s: State, k: Tag, u: Tid, c: Cid) {
    EntryInv(s, k) && PcInv(s, u) && WaitInv(s, u, k) && ContextInv(s, c)
  }

  ghost predicate QueueInv(s: State, i: nat, j: nat) {
    (i < |s.rq| ==> PcOf(s, s.rq[i]).LockR?) && (i < j < |s.rq| ==> s.rq[i] != s.rq[j])
  }

  ghost predicate LockInv(s: State) {
    && (s.rOwner.Some? ==> InLock(PcOf(s, s.rOwner.value)) && PcOf(s, s.rOwner.value).locked)
    && (s.pending.Some? ==> s.rOwner.Some?)
    && (s.pending.Some? ==> PcOf(s, s.rOwner.value).CollectOther? || PcOf(s, s.rOwner.value).CollectOwn?)
    && (forall i, j :: QueueInv(s, i, j))
  }

  ghost function Issuers(s: State): set<Tid> {
    set t | t in s.pc && (s.pc[t].WantW? || s.pc[t].Sending?)
  }

  /** Some thread took its entry out of the map and has not notified yet. */
  ghost predicate OwesNotify(s: State) {
    exists t :: Owes(s, t)
  }

  ghost predicate Owes(s: State, t: Tid) { PcOf(s, t).CollectOwn? || PcOf(s, t).Leaving? }

  ghost predicate SendInv(s: State, t: Tid) {
    && (PcOf(s, t).Sending? <==> s.wOwner == Some(t))
    && (s.shut in {InQueue, Woken, Returned} ==> !PcOf(s, t).Sending?)
  }

  ghost predicate DrainInv(s: State) {
    && s.issuing == |Issuers(s)|
    && (forall t :: SendInv(s, t))
    && (s.running <==> s.shut == NotCalled)
    && (s.shut == InQueue ==> s.mp != map[] || OwesNotify(s))
    && (s.shut == Returned ==> s.mp == map[])
  }

  ghost predicate Inv(s: State) {
    (forall k, u, c :: LocalInv(s, k, u, c)) && LockInv(s) && DrainInv(s)
  }
}
