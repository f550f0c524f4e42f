/**
 The cooperative scheduler as a state machine: the run ring read from CURRENT, the set of
 sleeping threads, and the per-object wait queues that thread through the same links.
 The order of the sleepers is the business of SleepQueue: here the next one is any that is
 due first.
 */
module SchedProtocol {
  import opened Common

  type Tid = nat

  /** A wait queue: of some object, or of the condition variable in a thread, where its joiner waits. */
  datatype Qid = Object(id: nat) | Cond(th: Tid)

  datatype Status = READY | RUNNING | WAITING | DONE

  datatype Thread = Thread(state: Status, error: int, waitq: Option<Qid>, wakeup: nat, joinable: bool)

  /** `th` holds every thread that exists; `main` is the one init() adopts. */
  datatype State = State(
    run: seq<Tid>, sleepq: set<Tid>, th: map<Tid, Thread>, wq: map<Qid, seq<Tid>>, now: nat, main: Tid)

  function Initial(main: Tid): State {
    State([main], {}, map[main := Thread(RUNNING, 0, None, 0, false)], map[], 0, main)
  }

  function SetState(s: State, t: Tid, x: Status): State
    requires t in s.th
  {
    s.(th := s.th[t := s.th[t].(state := x)])
  }

  function Created(s: State, t: Tid): State {
    s.(th := s.th[t := Thread(READY, 0, None, 0, false)], run := s.run + [t])
  }

  /** CURRENT := the k-th thread of the ring; the old one stays in it, READY. */
  function Switch(s: State, k: nat): State
    requires k < |s.run| && s.run[0] in s.th && s.run[k] in s.th
  {
    SetState(SetState(s.(run := s.run[k..] + s.run[..k]), s.run[0], READY), s.run[k], RUNNING)
  }

  /** dequeue_ready: out of its wait queue, to the tail of the ring. */
  function DequeueReady(s: State, t: Tid): State
    requires t in s.th
  {
    var x := s.th[t];
    s.(th := s.th[t := x.(waitq := None, state := READY)], run := s.run + [t],
       wq := if x.waitq.Some? && x.waitq.value in s.wq
             then s.wq[x.waitq.value := Without(s.wq[x.waitq.value], t)] else s.wq)
  }

  /** Leaves the sleep queue, and any wait queue, for the run ring. */
  function Awake(s: State, t: Tid): State
    requires t in s.th
  {
    DequeueReady(s.(sleepq := s.sleepq - {t}), t)
  }

  /** What is at the front of the sleep queue, and due. */
  ghost predicate DueFirst(s: State, t: Tid) {
    t in s.sleepq && t in s.th && s.th[t].wakeup <= s.now &&
    forall u :: u in s.sleepq && u in s.th ==> s.th[t].wakeup <= s.th[u].wakeup
  }

  /** resume_sleepers wakes `ts`, in that order, and stops. */
  ghost predicate Resumes(s: State, ts: seq<Tid>, s': State)
    decreases |ts|
  {
    if ts == [] then s' == s && forall t :: !DueFirst(s, t)
    else DueFirst(s, ts[0]) && Resumes(Awake(s, ts[0]), ts[1..], s')
  }

  /** The end of thread_usleep: CURRENT leaves the ring for the sleep queue and, when it waits on
      an object, for that object's queue as well. */
  function Park(s: State, q: Option<Qid>, expire: nat): State
    requires |s.run| > 1 && s.run[0] in s.th && s.run[1] in s.th
  {
    var t := s.run[0];
    var s1 := s.(run := s.run[1..], sleepq := s.sleepq + {t},
                 th := s.th[t := s.th[t].(wakeup := expire, waitq := q, state := WAITING)],
                 wq := if q.Some? then s.wq[q.value := (if q.value in s.wq then s.wq[q.value] else []) + [t]]
                   else s.wq);
    SetState(s1, s.run[1], RUNNING)
  }

  function Interrupt(s: State, t: Tid, error: int): State {
    if t !in s.th || s.th[t].state != WAITING then s
    else if s.run != [] && t == s.run[0] then
      // the idle sleeper runs in the context of CURRENT, which may be WAITING while it is alone
      s.(th := s.th[t := s.th[t].(state := READY, error := error)])
    else
      var s1 := Awake(s, t);
      s1.(th := s1.th[t := s1.th[t].(error := error)])
  }

  /** waitq::resume_one. */
  function ResumeOne(s: State, q: Qid): State {
    if q !in s.wq || s.wq[q] == [] then s else Interrupt(s, s.wq[q][0], ECANCELED)
  }

  /** The end of thread_stub.  A thread nobody may join is disposed of, and the state of the next
      one is left as it was; otherwise the next one is marked RUNNING. */
  function Die(s: State): State
    requires |s.run| > 1 && s.run[0] in s.th && s.run[1] in s.th && s.run[0] != s.run[1]
  {
    var t := s.run[0];
    if s.th[t].joinable then SetState(SetState(s.(run := s.run[1..]), t, DONE), s.run[1], RUNNING)
    else s.(run := s.run[1..], th := s.th - {t})
  }

  /** A ring's pointer stays where it is when the node it names takes itself out of the ring. */
  function Detached(q: seq<Tid>, t: Tid): seq<Tid> {
    if q != [] && q[0] == t then [t] else Without(q, t)
  }

  /** The end of thread_join: the thread is unlinked from whatever list its links are in, and its
      memory is given back. */
  function Disposed(s: State, t: Tid): State
    requires t in s.th
  {
    var q := s.th[t].waitq;
    s.(th := s.th - {t}, run := Detached(s.run, t),
       wq := if q.Some? && q.value in s.wq then s.wq[q.value := Detached(s.wq[q.value], t)] else s.wq)
  }

  datatype Event =
    | Create(t: Tid)
    | EnableJoin(t: Tid, flag: bool)
    | Resume(ts: seq<Tid>)          // resume_sleepers
    | SwitchTo(k: nat)              // yield: k == 1; yield_to: any READY thread
    | MarkWaiting                   // the head of thread_usleep
    | ParkOn(wait: Option<Qid>, expire: nat)
    | InterruptThread(t: Tid, error: int)
    | ResumeFront(q: Qid)
    | TakeError                     // set_error_number, after thread_usleep has switched back
    | Exit                          // the end of a created thread
    | Join(t: Tid)                  // the end of thread_join, which does not look at the state again
    | Tick(now: nat)

  ghost predicate Enabled(s: State, e: Event) {
    match e
    case Create(t) => t !in s.th
    case EnableJoin(t, _) => t in s.th && s.th[t].state != DONE
    case Resume(ts) => exists s' :: Resumes(s, ts, s')
    case SwitchTo(k) => k < |s.run| && s.run[0] in s.th && s.run[k] in s.th && (k == 1 || s.th[s.run[k]].state == READY)
    case MarkWaiting => s.run != [] && s.run[0] in s.th
    case ParkOn(_, _) => |s.run| > 1 && s.run[0] in s.th && s.run[1] in s.th
    case InterruptThread(_, _) => true
    case ResumeFront(_) => true
    case TakeError => s.run != [] && s.run[0] in s.th
    case Exit => |s.run| > 1 && s.run[0] in s.th && s.run[1] in s.th && s.run[0] != s.run[1] && s.run[0] != s.main
    case Join(t) => t in s.th
    case Tick(now) => s.now <= now
  }

  ghost predicate Step(s: State, e: Event, s': State) {
    Enabled(s, e) &&
    match e
    case Create(t) => s' == Created(s, t)
    case EnableJoin(t, flag) => s' == s.(th := s.th[t := s.th[t].(joinable := flag)])
    case Resume(ts) => Resumes(s, ts, s')
    case SwitchTo(k) => s' == Switch(s, k)
    case MarkWaiting => s' == SetState(s, s.run[0], WAITING)
    case ParkOn(q, expire) => s' == Park(s, q, expire)
    case InterruptThread(t, error) => s' == Interrupt(s, t, error)
    case ResumeFront(q) => s' == ResumeOne(s, q)
    case TakeError => s' == s.(th := s.th[s.run[0] := s.th[s.run[0]].(error := 0)])
    case Exit => s' == Die(s)
    case Join(t) => s' == Disposed(s, t)
    case Tick(now) => s' == s.(now := now)
  }

  ghost predicate Run(s: State, es: seq<Event>, s': State)
    decreases |es|
  {
    if es == [] then s == s' else exists m :: Step(s, es[0], m) && Run(m, es[1..], s')
  }

  /** A join ends when the thread it joins has finished. */
  ghost predicate Patient(s: State, e: Event) {
    e.Join? ==> e.t in s.th && s.th[e.t].state == DONE
  }

  /** A run in which every join is. */
  ghost predicate PatientRun(s: State, es: seq<Event>, s': State)
    decreases |es|
  {
    if es == [] then s == s'
    else exists m :: Step(s, es[0], m) && Patient(s, es[0]) && PatientRun(m, es[1..], s')
  }

  // ----- the partition -----

  /** A thread that exists is in the ring, or asleep, or finished and waiting to be joined, and
      never two of these; it names a wait queue exactly while it sleeps in that queue. */
  ghost predicate ThreadInv(s: State, t: Tid) {
    if t in s.th then
      && !(t in s.run && t in s.sleepq)
      && (t in s.run ==> s.th[t].state != DONE && (t != s.run[0] ==> s.th[t].state == READY))
      && (t in s.sleepq ==> s.th[t].state == WAITING)
      && (t !in s.run && t !in s.sleepq ==> s.th[t].state == DONE)
      && (s.th[t].waitq.Some? ==> t in s.sleepq && s.th[t].waitq.value in s.wq && t in s.wq[s.th[t].waitq.value])
    else t !in s.run && t !in s.sleepq
  }

  ghost predicate RingInv(s: State, i: nat, j: nat) {
    i < j < |s.run| ==> s.run[i] != s.run[j]
  }

  ghost predicate QueueInv(s: State, q: Qid, t: Tid) {
    q in s.wq && t in s.wq[q] ==> t in s.th && s.th[t].waitq == Some(q)
  }

  ghost predicate QueueOrder(s: State, q: Qid, i: nat, j: nat) {
    q in s.wq && i < j < |s.wq[q]| ==> s.wq[q][i] != s.wq[q][j]
  }

  ghost predicate LocalInv(s: State, t: Tid, i: nat, j: nat, q: Qid) {
    ThreadInv(s, t) && RingInv(s, i, j) && QueueInv(s, q, t) && QueueOrder(s, q, i, j)
  }

  ghost predicate Inv(s: State) {
    && s.run != []
    && s.main in s.th && s.th[s.main].state != DONE
    && forall t, i, j, q :: LocalInv(s, t, i, j, q)
  }
}
