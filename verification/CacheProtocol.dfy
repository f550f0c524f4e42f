/**
 The reference-counted expiring object cache as a state machine.

 Every section under `_lock` runs without a context switch, so it is one event; the switches
 are the wait on `blocker`, the item mutex around the constructor, the recycler's semaphore and
 the destructor.  An agent is one acquire-use-release of one reference; a thread that holds
 several references is several agents.
 */
module CacheProtocol {
  import opened Common

  type Aid = nat
  type Iid = nat  // identity of an Item
  type Key = nat

  function SatSub(x: nat, y: nat): nat { if x > y then x - y else 0 }

  /** `recycle` names the agent on whose stack the semaphore lives; `built` counts the times a
      non-null object was constructed. */
  datatype Item = Item(key: Key, refcnt: int, recycle: Option<Aid>, obj: Option<int>, mtx: Option<Aid>,
                       failure: nat, expireAt: nat, built: nat)

  datatype Pc =
    | Idle
    | Blocked(key: Key)          // in the queue of `blocker`
    | Retry(key: Key)            // notified, about to look again
    | WantMtx(i: Iid)            // counted in, locking the item's mutex
    | Constructing(i: Iid)       // inside ctor
    | Holding(i: Iid)
    | Recycling(i: Iid, sem: nat)  // in sem.wait(1)
    | Notifying(key: Key)        // item deleted, blocker.notify_all still to come

  datatype State = State(
    items: map<Iid, Item>, freed: set<Iid>,
    keys: map<Key, Iid>,   // _set
    list: seq<Iid>,        // _list
    now: nat, expiration: nat,
    pc: map<Aid, Pc>)

  function Initial(expiration: nat): State { State(map[], {}, map[], [], 0, expiration, map[]) }

  datatype Event =
    | TryAcquire(a: Aid, k: Key, id: Iid)
    | LockItem(a: Aid, cooldown: nat)
    | Constructed(a: Aid, obj: Option<int>)
    | Release(a: Aid, recycle: bool)
    | Erase(a: Aid)
    | NotifyAll(a: Aid)
    | Expire
    | Tick(now: nat)

  function PcOf(s: State, a: Aid): Pc { if a in s.pc then s.pc[a] else Idle }

  function SetPc(s: State, a: Aid, p: Pc): State { s.(pc := s.pc[a := p]) }

  // ----- events -----

  function Lookup(s: State, k: Key, id: Iid): (r: (State, Iid)) {
    if k in s.keys then (s, s.keys[k])
    else (s.(keys := s.keys[k := id], items := s.items[id := Item(k, 0, None, None, None, 0, 0, 0)]), id)
  }

  /** One turn of the loop in ref_acquire. */
  function Acquired(s: State, a: Aid, k: Key, i: Iid): State
    requires i in s.items
  {
    var s1 := s.(list := Without(s.list, i));
    var x := s.items[i];
    if x.recycle.Some? then SetPc(s1, a, Blocked(k))
    else SetPc(s1.(items := s.items[i := x.(refcnt := x.refcnt + 1)]), a, WantMtx(i))
  }

  /** ref_release after its references are in order: the last one out wakes the recycler or
      puts the item on the idle list. */
  function LastOut(s: State, i: Iid): State
    requires i in s.items
  {
    var x := s.items[i];
    if x.refcnt != 0 then s
    else if x.recycle.Some? then
      var p := PcOf(s, x.recycle.value);
      if p.Recycling? then SetPc(s, x.recycle.value, p.(sem := p.sem + 1)) else s
    else
      s.(items := s.items[i := x.(failure := 0, expireAt := SatAdd(s.now, s.expiration))],
         list := Without(s.list, i) + [i])
  }

  function DropRef(s: State, a: Aid, i: Iid, recycle: bool): State
    requires i in s.items
  {
    var x := s.items[i];
    if recycle && x.recycle.None? then
      LastOut(SetPc(s.(items := s.items[i := x.(recycle := Some(a), refcnt := x.refcnt - 1)]), a, Recycling(i, 0)), i)
    else
      LastOut(SetPc(s.(items := s.items[i := x.(refcnt := x.refcnt - 1)]), a, Idle), i)
  }

  /** After the item mutex: keep the reference if there is an object, else give it back. */
  function Settle(s: State, a: Aid, i: Iid): State
    requires i in s.items
  {
    if s.items[i].obj.Some? then SetPc(s, a, Holding(i)) else DropRef(s, a, i, false)
  }

  /** ctor has returned and the item mutex is given back. */
  function Build(s: State, a: Aid, i: Iid, obj: Option<int>): State
    requires i in s.items
  {
    var x := s.items[i];
    SetPc(s.(items := s.items[i := if obj.Some? then x.(obj := obj, mtx := None, built := x.built + 1)
                                   else x.(failure := s.now, mtx := None)]), a, WantMtx(i))
  }

  function StartBuild(s: State, a: Aid, i: Iid): State
    requires i in s.items
  {
    SetPc(s.(items := s.items[i := s.items[i].(mtx := Some(a))]), a, Constructing(i))
  }

  function EraseItem(s: State, a: Aid, i: Iid): State
    requires i in s.items
  {
    SetPc(s.(items := s.items - {i}, freed := s.freed + {i}, keys := s.keys - {s.items[i].key}),
          a, Notifying(s.items[i].key))
  }

  function WakeAll(s: State): State {
    s.(pc := map a | a in s.pc :: if s.pc[a].Blocked? then Retry(s.pc[a].key) else s.pc[a])
  }

  /** How far split_by_predicate walks: the longest prefix that is past its time. */
  function Past(s: State, q: seq<Iid>): (n: nat)
    ensures n <= |q|
  {
    if q == [] || q[0] !in s.items || s.items[q[0]].expireAt >= s.now then 0 else 1 + Past(s, q[1..])
  }

  function ExpireAll(s: State): State {
    var cut := s.list[..Past(s, s.list)];
    s.(list := s.list[|cut|..], freed := s.freed + (set i | i in cut),
       items := map i | i in s.items && i !in cut :: s.items[i],
       keys := map k | k in s.keys && s.keys[k] !in cut :: s.keys[k])
  }

  ghost predicate Enabled(s: State, e: Event) {
    match e
    case TryAcquire(a, k, id) =>
      (PcOf(s, a).Idle? || PcOf(s, a) == Retry(k)) && id !in s.items && id !in s.freed &&
      (k in s.keys ==> s.keys[k] in s.items)
    case LockItem(a, _) => PcOf(s, a).WantMtx? && PcOf(s, a).i in s.items && s.items[PcOf(s, a).i].mtx == None
    case Constructed(a, _) => PcOf(s, a).Constructing? && PcOf(s, a).i in s.items
    case Release(a, _) => PcOf(s, a).Holding? && PcOf(s, a).i in s.items
    case Erase(a) => PcOf(s, a).Recycling? && PcOf(s, a).sem >= 1 && PcOf(s, a).i in s.items
    case NotifyAll(a) => PcOf(s, a).Notifying?
    case Expire => true
    case Tick(now) => s.now <= now
  }

  ghost function Apply(s: State, e: Event): State
    requires Enabled(s, e)
  {
    match e
    case TryAcquire(a, k, id) =>
      var r := Lookup(s, k, id);
      Acquired(r.0, a, k, r.1)
    case LockItem(a, cooldown) =>
      var i := PcOf(s, a).i;
      var x := s.items[i];
      if x.obj.None? && x.failure <= SatSub(s.now, cooldown)
      then StartBuild(s, a, i)
      else Settle(s, a, i)
    case Constructed(a, obj) => Settle(Build(s, a, PcOf(s, a).i, obj), a, PcOf(s, a).i)
    case Release(a, recycle) => DropRef(s, a, PcOf(s, a).i, recycle)
    case Erase(a) => EraseItem(s, a, PcOf(s, a).i)
    case NotifyAll(a) => WakeAll(SetPc(s, a, Idle))
    case Expire => ExpireAll(s)
    case Tick(now) => s.(now := now)
  }

  ghost predicate Run(s: State, es: seq<Event>, s': State)
    decreases |es|
  {
    if es == [] then s == s' else Enabled(s, es[0]) && Run(Apply(s, es[0]), es[1..], s')
  }

  // ----- invariant -----

  predicate HasRef(p: Pc, i: Iid) {
    (p.WantMtx? || p.Constructing? || p.Holding?) && p.i == i
  }

  /** The agents that hold a reference to `i`. */
  ghost function Holders(s: State, i: Iid): set<Aid> {
    set a | a in s.pc && HasRef(s.pc[a], i)
  }

  ghost predicate ItemInv(s: State, i: Iid) {
    if i in s.items then
      var x := s.items[i];
      && i !in s.freed
      && x.key in s.keys && s.keys[x.key] == i
      && x.refcnt == |Holders(s, i)|
      && (i in s.list <==> x.refcnt == 0 && x.recycle == None)
      && (x.recycle.Some? ==> PcOf(s, x.recycle.value) == Recycling(i, if x.refcnt == 0 then 1 else 0))
      && (x.mtx.Some? ==> PcOf(s, x.mtx.value) == Constructing(i))
      && x.built == (if x.obj.Some? then 1 else 0)
    else i !in s.list
  }

  ghost predicate KeyInv(s: State, k: Key) {
    k in s.keys ==> s.keys[k] in s.items && s.items[s.keys[k]].key == k
  }

  /** Someone is on the way to notify the acquirers blocked on `k`. */
  ghost predicate WillNotify(s: State, k: Key) {
    (k in s.keys && s.keys[k] in s.items && s.items[s.keys[k]].recycle.Some?) ||
    exists b :: PcOf(s, b) == Notifying(k)
  }

  ghost predicate PcInv(s: State, a: Aid) {
    match PcOf(s, a)
    case Idle => true
    case Blocked(k) => WillNotify(s, k)
    case Retry(_) => true
    case WantMtx(i) => i in s.items
    case Constructing(i) => i in s.items && s.items[i].mtx == Some(a) && s.items[i].obj == None
    case Holding(i) => i in s.items && s.items[i].obj.Some?
    case Recycling(i, n) => i in s.items && s.items[i].recycle == Some(a) && s.items[i].obj.Some?
    case Notifying(_) => true
  }

  ghost predicate LocalInv(s: State, i: Iid, k: Key, a: Aid) {
    ItemInv(s, i) && KeyInv(s, k) && PcInv(s, a)
  }

  /** Two places on the idle list: no repetition, and the earlier one expires no later. */
  ghost predicate ListInv(s: State, m: nat, n: nat) {
    m < n < |s.list| && s.list[m] in s.items && s.list[n] in s.items ==>
      s.list[m] != s.list[n] && s.items[s.list[m]].expireAt <= s.items[s.list[n]].expireAt
  }

  ghost predicate StampInv(s: State, m: nat) {
    m < |s.list| && s.list[m] in s.items ==> s.items[s.list[m]].expireAt <= SatAdd(s.now, s.expiration)
  }

  ghost predicate Inv(s: State) {
    && (forall i, k, a :: LocalInv(s, i, k, a))
    && (forall m, n :: ListInv(s, m, n))
    && (forall m :: StampInv(s, m))
  }
}
