/** What holds over every run of the object cache. */
module CacheTheorems {
  import opened Common
  import opened CacheProtocol
  import opened CacheSafety

  lemma InitialInv(expiration: nat)
    ensures Inv(Initial(expiration))
  {
    forall i, k, a ensures LocalInv(Initial(expiration), i, k, a) { }
  }

  lemma LockItemKeeps(s: State, a: Aid, cooldown: nat)
    requires Inv(s) && Enabled(s, LockItem(a, cooldown))
    ensures Inv(Apply(s, LockItem(a, cooldown)))
  {
    var i := PcOf(s, a).i;
    if s.items[i].obj.None? && s.items[i].failure <= SatSub(s.now, cooldown) { StartBuildKeeps(s, a, i); }
    else { SettleKeeps(s, a, i); }
  }

  lemma StepKeeps(s: State, e: Event)
    requires Inv(s) && Enabled(s, e)
    ensures Inv(Apply(s, e))
  {
    match e
    case TryAcquire(a, k, id) => TryKeeps(s, a, k, id);
    case LockItem(a, cooldown) => LockItemKeeps(s, a, cooldown);
    case Constructed(a, obj) =>
      BuildKeeps(s, a, PcOf(s, a).i, obj);
      SettleKeeps(Build(s, a, PcOf(s, a).i, obj), a, PcOf(s, a).i);
    case Release(a, recycle) =>
      assert LocalInv(s, PcOf(s, a).i, 0, a);
      DropKeeps(s, a, PcOf(s, a).i, recycle);
    case Erase(a) => EraseKeeps(s, a, PcOf(s, a).i);
    case NotifyAll(a) => WakeAllKeeps(s, a);
    case Expire => ExpireKeeps(s);
    case Tick(now) => TickKeeps(s, now);
  }

  lemma {:induction false} RunKeeps(s: State, es: seq<Event>, s': State)
    requires Inv(s) && Run(s, es, s')
    ensures Inv(s')
    decreases |es|
  {
    if es == [] {
    } else {
      StepKeeps(s, es[0]);
      RunKeeps(Apply(s, es[0]), es[1..], s');
    }
  }

  ghost predicate Reached(expiration: nat, es: seq<Event>, s: State) { Run(Initial(expiration), es, s) }

  // ----- the theorems -----

  /** The count is the number of holders, and an item idles on the list exactly when nobody
      holds it and nobody is recycling it; there its object survives until it is due. */
  lemma CountsAndList(expiration: nat, es: seq<Event>, s: State, i: Iid)
    requires Reached(expiration, es, s) && i in s.items
    ensures s.items[i].refcnt == |Holders(s, i)|
    ensures i in s.list <==> Holders(s, i) == {} && s.items[i].recycle == None
    ensures s.items[i].key in s.keys && s.keys[s.items[i].key] == i
  {
    InitialInv(expiration);
    RunKeeps(Initial(expiration), es, s);
    assert LocalInv(s, i, 0, 0);
  }

  /** What an agent holds is alive, is the item of its key, and for a finished acquire has its object. */
  lemma HeldIsAlive(expiration: nat, es: seq<Event>, s: State, a: Aid, i: Iid)
    requires Reached(expiration, es, s) && HasRef(PcOf(s, a), i)
    ensures i in s.items && i !in s.freed && i !in s.list
    ensures PcOf(s, a).Holding? ==> s.items[i].obj.Some?
  {
    InitialInv(expiration);
    RunKeeps(Initial(expiration), es, s);
    assert LocalInv(s, i, 0, a);
    assert a in Holders(s, i);
  }

  /** When the recycler's semaphore lets it through, the assertion on the reference count holds,
      the item is in the key set but not on the list, and this frees it for the first time. */
  lemma RecycleFreesUnusedOnce(expiration: nat, es: seq<Event>, s: State, a: Aid)
    requires Reached(expiration, es, s) && Enabled(s, Erase(a))
    ensures var i := PcOf(s, a).i;
      s.items[i].refcnt == 0 && Holders(s, i) == {} && s.items[i].recycle == Some(a) && i !in s.list &&
      i !in s.freed && Apply(s, Erase(a)).freed == s.freed + {i} && i !in Apply(s, Erase(a)).items &&
      s.items[i].key !in Apply(s, Erase(a)).keys
  {
    InitialInv(expiration);
    RunKeeps(Initial(expiration), es, s);
    SignalledMeansUnused(s, a, PcOf(s, a).i);
    assert LocalInv(s, PcOf(s, a).i, 0, a);
  }

  /** The last reference out of a recycled item has let its recycler through: nobody waits for a
      signal that was already due. */
  lemma RecyclerIsSignalled(expiration: nat, es: seq<Event>, s: State, a: Aid)
    requires Reached(expiration, es, s) && PcOf(s, a).Recycling?
    ensures PcOf(s, a).i in s.items
    ensures PcOf(s, a).sem == (if Holders(s, PcOf(s, a).i) == {} then 1 else 0)
  {
    InitialInv(expiration);
    RunKeeps(Initial(expiration), es, s);
    assert LocalInv(s, PcOf(s, a).i, 0, a);
    assert LocalInv(s, PcOf(s, a).i, 0, s.items[PcOf(s, a).i].recycle.value);
  }

  /** Acquirers blocked on a key have a recycler ahead of them that is still to notify. */
  lemma BlockedWillBeNotified(expiration: nat, es: seq<Event>, s: State, a: Aid)
    requires Reached(expiration, es, s) && PcOf(s, a).Blocked?
    ensures WillNotify(s, PcOf(s, a).key)
  {
    InitialInv(expiration);
    RunKeeps(Initial(expiration), es, s);
    assert LocalInv(s, 0, 0, a);
  }

  // ----- one object per item -----

  lemma SettleKeepsObjects(s: State, a: Aid, i: Iid, j: Iid)
    requires i in s.items && j in s.items
    ensures j in Settle(s, a, i).items && Settle(s, a, i).items[j].obj == s.items[j].obj
    ensures Settle(s, a, i).items[j].built == s.items[j].built && Settle(s, a, i).freed == s.freed
  {
  }

  lemma DropKeepsObjects(s: State, a: Aid, i: Iid, recycle: bool, j: Iid)
    requires i in s.items && j in s.items
    ensures var s' := DropRef(s, a, i, recycle);
      j in s'.items && s'.items[j].obj == s.items[j].obj && s'.items[j].built == s.items[j].built && s'.freed == s.freed
  {
  }

  /** In one step an item's object either stays, or goes from none to one, or dies with the item;
      what is freed stays freed. */
  lemma ObjectStep(s: State, e: Event, i: Iid)
    requires Inv(s) && Enabled(s, e)
    ensures i in s.freed ==> i in Apply(s, e).freed && i !in Apply(s, e).items
    ensures i in s.items && s.items[i].obj.Some? ==>
      i in Apply(s, e).freed || (i in Apply(s, e).items && Apply(s, e).items[i].obj == s.items[i].obj)
  {
    StepKeeps(s, e);
    assert LocalInv(Apply(s, e), i, 0, 0) && LocalInv(s, i, 0, 0);
    match e
    case LockItem(a, _) =>
      if i in s.items { SettleKeepsObjects(s, a, PcOf(s, a).i, i); }
    case Constructed(a, obj) =>
      assert LocalInv(s, PcOf(s, a).i, 0, a);
      if i in s.items { SettleKeepsObjects(Build(s, a, PcOf(s, a).i, obj), a, PcOf(s, a).i, i); }
    case Release(a, recycle) =>
      if i in s.items { DropKeepsObjects(s, a, PcOf(s, a).i, recycle, i); }
    case Expire => if i in s.items { ExpireIsExact(s, i); }
    case _ =>
  }

  /** A constructed object stays the object of its item for as long as the item lives, so a
      non-null object is constructed at most once per item. */
  lemma {:induction false} ObjectIsForLife(s: State, es: seq<Event>, s': State, i: Iid)
    requires Inv(s) && Run(s, es, s') && i in s.items && s.items[i].obj.Some?
    ensures i in s'.freed || (i in s'.items && s'.items[i].obj == s.items[i].obj && s'.items[i].built == 1)
    decreases |es|
  {
    assert LocalInv(s, i, 0, 0);
    if es == [] {
    } else {
      StepKeeps(s, es[0]);
      ObjectStep(s, es[0], i);
      if i in Apply(s, es[0]).items { ObjectIsForLife(Apply(s, es[0]), es[1..], s', i); }
      else { FreedStaysFreed(Apply(s, es[0]), es[1..], s', i); }
    }
  }

  lemma {:induction false} FreedStaysFreed(s: State, es: seq<Event>, s': State, i: Iid)
    requires Inv(s) && Run(s, es, s') && i in s.freed
    ensures i in s'.freed && i !in s'.items
    decreases |es|
  {
    assert LocalInv(s, i, 0, 0);
    if es == [] {
    } else {
      StepKeeps(s, es[0]);
      ObjectStep(s, es[0], i);
      FreedStaysFreed(Apply(s, es[0]), es[1..], s', i);
    }
  }
}
