/** The cache itself: each method is one section under `_lock`, on the cache's own fields, keeps what
    every run keeps, and says what became of the counts, the idle list and the key set. */
module ObjectCache {
  import opened Common
  import opened CacheProtocol
  import opened CacheSafety
  import opened CacheTheorems

  class Cache {
    var items: map<Iid, Item>
    ghost var freed: set<Iid>
    var keySet: map<Key, Iid>
    var list: seq<Iid>
    var now: nat
    const expiration: nat
    var at: map<Aid, Pc>

    ghost function View(): State
      reads this
    {
      State(items, freed, keySet, list, now, expiration, at)
    }

    ghost predicate Valid()
      reads this
    {
      Inv(View())
    }

    constructor (expiration: nat)
      ensures View() == Initial(expiration) && Valid()
    {
      items, freed, keySet, list, now := map[], {}, map[], [], 0;
      this.expiration := expiration;
      at := map[];
      new;
      InitialInv(expiration);
    }

    /** split_by_predicate with the predicate of expire(): walk the list from its front, erasing
        from the key set what is past its time, up to the first item that is not. */
    method WalkExpired() returns (n: nat)
      requires Valid()
      modifies this`keySet
      ensures n == Past(old(View()), list)
      ensures keySet == KeysWithout(old(View()), list[..n])
    {
      ghost var s := View();
      n := 0;
      PastShift(s, list, 0);
      assert keySet == KeysWithout(s, list[..0]);
      while n < |list| && list[n] in items && items[list[n]].expireAt < now
        invariant n <= |list| && Past(s, list) == n + Past(s, list[n..])
        invariant keySet == KeysWithout(s, list[..n])
      {
        CutKeys(s, n);
        keySet := keySet - {items[list[n]].key};
        PastShift(s, list, n);
        n := n + 1;
      }
      PastShift(s, list, n);
    }

    /** expire(): what is listed and past its time is deleted and has no key any more; every other item
        stays what and where it was. */
    method Expire()
      requires Valid()
      modifies this
      ensures View() == ExpireAll(old(View())) && Valid()
      ensures forall i :: i in old(items) ==>
        && (i in items <==> !Due(old(View()), i)) && (i in freed <==> Due(old(View()), i))
        && (i in list <==> i in old(list) && !Due(old(View()), i))
        && (old(items)[i].key in keySet <==> !Due(old(View()), i))
    {
      ExpireKeeps(View());
      forall i | i in items { ExpireIsExact(View(), i); }
      var n := WalkExpired();
      var cut := list[..n];
      list := list[n..];
      items := map i | i in items && i !in cut :: items[i];
      freed := freed + (set i | i in cut);
    }

    /** The item of a key; a new one at the address `id` if it has none. */
    method FindOrConstruct(k: Key, id: Iid) returns (i: Iid)
      requires k in keySet ==> keySet[k] in items
      modifies this`keySet, this`items
      ensures (View(), i) == Lookup(old(View()), k, id) && i in items
    {
      if k in keySet {
        i := keySet[k];
      } else {
        i := id;
        keySet := keySet[k := i];
        items := items[i := Item(k, 0, None, None, None, 0, 0, 0)];
      }
    }

    method CountIn(a: Aid, k: Key, i: Iid)
      requires i in items
      modifies this`list, this`at, this`items
      ensures View() == Acquired(old(View()), a, k, i)
    {
      list := Without(list, i);
      if items[i].recycle.Some? {
        at := at[a := Blocked(k)];
      } else {
        items := items[i := items[i].(refcnt := items[i].refcnt + 1)];
        at := at[a := WantMtx(i)];
      }
    }

    /** One turn of the loop in ref_acquire; `id` is the address a new item would get.  The agent
        waits, with a recycler that will notify it, or has been counted in at the one item of the key. */
    method AcquireTurn(a: Aid, k: Key, id: Iid)
      requires Valid() && Enabled(View(), TryAcquire(a, k, id))
      modifies this
      ensures View() == Apply(old(View()), TryAcquire(a, k, id)) && Valid()
      ensures k in keySet && keySet[k] == (if k in old(keySet) then old(keySet)[k] else id)
      ensures var i := keySet[k];
        && i in items && items[i].key == k && i !in list && i !in freed && items[i].refcnt == |Holders(View(), i)|
        && if items[i].recycle.Some? then
             PcOf(View(), a) == Blocked(k) && WillNotify(View(), k) && Holders(View(), i) == Holders(old(View()), i)
           else
             PcOf(View(), a) == WantMtx(i) && Holders(View(), i) == Holders(old(View()), i) + {a}
    {
      TryMeans(View(), a, k, id);
      var i := FindOrConstruct(k, id);
      CountIn(a, k, i);
    }

    /** enqueue(): stamp the item and put it at the back.  Nothing listed is due later, so the list
        stays in the order of expiry. */
    method Enqueue(i: Iid)
      requires i in items && Ordered(View())
      modifies this`items, this`list
      ensures items == old(items)[i := old(items)[i].(expireAt := SatAdd(now, expiration))]
      ensures list == Without(old(list), i) + [i] && Ordered(View())
    {
      EnqueueOrders(View(), i);
      list := Without(list, i);
      items := items[i := items[i].(expireAt := SatAdd(now, expiration))];
      list := list + [i];
    }

    /** ref_release under the lock, up to the last one's part. */
    method CountOut(a: Aid, i: Iid, recycle: bool)
      requires i in items
      modifies this`items, this`at
      ensures View() == Uncounted(old(View()), a, i, recycle) && i in items
    {
      var first := recycle && items[i].recycle.None?;
      if first {
        items := items[i := items[i].(recycle := Some(a))];
      }
      items := items[i := items[i].(refcnt := items[i].refcnt - 1)];
      at := at[a := if first then Recycling(i, 0) else Idle];
    }

    /** The last one out wakes the recycler, or puts the item on the idle list. */
    method IfLastOut(i: Iid)
      requires i in items && Ordered(View())
      modifies this`items, this`list, this`at
      ensures View() == LastOut(old(View()), i)
    {
      if items[i].refcnt == 0 {
        if items[i].recycle.Some? {
          var r := items[i].recycle.value;
          var p := if r in at then at[r] else Idle;
          if p.Recycling? { at := at[r := p.(sem := p.sem + 1)]; }
        } else {
          items := items[i := items[i].(failure := 0)];
          SameOrder(old(View()), View());
          Enqueue(i);
        }
      }
    }

    method Drop(a: Aid, i: Iid, recycle: bool)
      requires i in items && Ordered(View())
      modifies this`items, this`list, this`at
      ensures View() == DropRef(old(View()), a, i, recycle)
    {
      CountOut(a, i, recycle);
      SameOrder(old(View()), View());
      IfLastOut(i);
    }

    /** ref_release under the lock: the agent holds the item no more.  If nobody does, the item is at
        the back of the idle list with a full term ahead of it or, when it is to be recycled, its one
        recycler has its signal. */
    method RefRelease(a: Aid, recycle: bool)
      requires Valid() && Enabled(View(), Release(a, recycle))
      modifies this
      ensures View() == Apply(old(View()), Release(a, recycle)) && Valid()
      ensures var i := old(PcOf(View(), a)).i;
        && i in items && items[i].refcnt == |Holders(View(), i)| && Holders(View(), i) == Holders(old(View()), i) - {a}
        && LeftIn(View(), i) && (recycle && old(items)[i].recycle == None ==> items[i].recycle == Some(a))
        && (items[i].refcnt == 0 && items[i].recycle == None ==>
              list == old(list) + [i] && items[i].expireAt == SatAdd(now, expiration))
    {
      assert LocalInv(View(), at[a].i, 0, a);
      DropMeans(View(), a, PcOf(View(), a).i, recycle);
      Drop(a, at[a].i, recycle);
    }

    /** ref_acquire once the item mutex is free and there is nothing to construct: the agent holds an
        item with an object, built once, or has given its reference back. */
    method AfterMutex(a: Aid)
      requires Valid() && PcOf(View(), a).WantMtx? && PcOf(View(), a).i in items && items[PcOf(View(), a).i].mtx == None
      modifies this
      ensures View() == Settle(old(View()), a, old(PcOf(View(), a)).i) && Valid()
      ensures var i := old(PcOf(View(), a)).i;
        && i in items && items[i].refcnt == |Holders(View(), i)| && items[i].obj == old(items)[i].obj
        && if items[i].obj.Some? then
             PcOf(View(), a) == Holding(i) && items[i].built == 1 && Holders(View(), i) == Holders(old(View()), i)
           else
             PcOf(View(), a) == Idle && Holders(View(), i) == Holders(old(View()), i) - {a} && LeftIn(View(), i)
    {
      SettleMeans(View(), a);
      var i := at[a].i;
      if items[i].obj.Some? {
        at := at[a := Holding(i)];
      } else {
        Drop(a, i, false);
      }
    }

    /** The recycler past its semaphore.  The assertion of the code holds, nobody can find the item any
        more, and this deletes it for the first time. */
    method EraseAndDelete(a: Aid)
      requires Valid() && Enabled(View(), Erase(a))
      modifies this
      ensures View() == Apply(old(View()), Erase(a)) && Valid()
      ensures var i := old(PcOf(View(), a)).i;
        && i !in old(freed) && i in freed && i !in items && Holders(View(), i) == {} && i !in list
        && old(items)[i].key !in keySet && PcOf(View(), a) == Notifying(old(items)[i].key)
    {
      var i := at[a].i;
      SignalledMeansUnused(View(), a, i);
      EraseKeeps(View(), a, i);
      EraseHolders(View(), a, i, i);
      assert LocalInv(View(), i, 0, a);
      assert items[i].refcnt == 0;
      keySet := keySet - {items[i].key};
      at := at[a := Notifying(items[i].key)];
      items := items - {i};
      freed := freed + {i};
    }
  }

  // ----- what the steps mean -----

  /** The idle list is in the order of expiry, and nothing on it is due later than a new entry. */
  ghost predicate Ordered(s: State) {
    (forall m, n :: ListInv(s, m, n)) && (forall m :: StampInv(s, m))
  }

  lemma SameOrder(s: State, s': State)
    requires Ordered(s) && s'.list == s.list && s'.now == s.now && s'.expiration == s.expiration
    requires forall i :: i in s'.items ==> i in s.items && s'.items[i].expireAt == s.items[i].expireAt
    ensures Ordered(s')
  {
    forall m: nat, n: nat ensures ListInv(s', m, n) { assert ListInv(s, m, n); }
    forall m: nat ensures StampInv(s', m) { assert StampInv(s, m); }
  }

  lemma EnqueueOrders(s: State, i: Iid)
    requires i in s.items && Ordered(s)
    ensures Ordered(s.(items := s.items[i := s.items[i].(expireAt := SatAdd(s.now, s.expiration))],
                       list := Without(s.list, i) + [i]))
  {
    var s1 := s.(list := Without(s.list, i));
    ListFrame(s, s1, i);
    var s' := s.(items := s.items[i := s.items[i].(expireAt := SatAdd(s.now, s.expiration))], list := s1.list + [i]);
    forall m: nat, n: nat ensures ListInv(s', m, n) {
      assert ListInv(s1, m, n) && StampInv(s1, m);
      if m < |s1.list| { assert s1.list[m] in s1.list; }
      if n < |s1.list| { assert s1.list[n] in s1.list; }
    }
    forall m: nat ensures StampInv(s', m) { assert StampInv(s1, m); }
  }

  function Uncounted(s: State, a: Aid, i: Iid, recycle: bool): State
    requires i in s.items
  {
    var x := s.items[i];
    if recycle && x.recycle.None? then
      SetPc(s.(items := s.items[i := x.(recycle := Some(a), refcnt := x.refcnt - 1)]), a, Recycling(i, 0))
    else
      SetPc(s.(items := s.items[i := x.(refcnt := x.refcnt - 1)]), a, Idle)
  }

  /** With nobody holding it, an item idles on the list or its recycler has its signal; else neither. */
  ghost predicate LeftIn(s: State, i: Iid)
    requires i in s.items
  {
    var x := s.items[i];
    if x.recycle.Some? then i !in s.list &&
      PcOf(s, x.recycle.value) == Recycling(i, if Holders(s, i) == {} then 1 else 0)
    else i in s.list <==> Holders(s, i) == {}
  }

  lemma InvLeaves(s: State, i: Iid)
    requires Inv(s) && i in s.items
    ensures LeftIn(s, i) && s.items[i].refcnt == |Holders(s, i)|
  {
    assert LocalInv(s, i, 0, 0);
  }

  lemma TryMeans(s: State, a: Aid, k: Key, id: Iid)
    requires Inv(s) && Enabled(s, TryAcquire(a, k, id))
    ensures
      var s' := Apply(s, TryAcquire(a, k, id));
      && Inv(s') && k in s'.keys && s'.keys[k] == (if k in s.keys then s.keys[k] else id)
      && var i := s'.keys[k];
         && i in s'.items && s'.items[i].key == k && i !in s'.list && i !in s'.freed &&
           s'.items[i].refcnt == |Holders(s', i)|
         && if s'.items[i].recycle.Some? then
              PcOf(s', a) == Blocked(k) && WillNotify(s', k) && Holders(s', i) == Holders(s, i)
            else
              PcOf(s', a) == WantMtx(i) && Holders(s', i) == Holders(s, i) + {a}
  {
    var s' := Apply(s, TryAcquire(a, k, id));
    var r := Lookup(s, k, id);
    TryKeeps(s, a, k, id);
    assert LocalInv(s', r.1, k, a);
    assert Holders(r.0, r.1) == Holders(s, r.1);
    JoinHolders(r.0, a, k, r.1, r.1);
  }

  lemma DropMeans(s: State, a: Aid, i: Iid, recycle: bool)
    requires Inv(s) && CanDrop(s, a, i) && (recycle ==> s.items[i].obj.Some?)
    ensures
      var s' := DropRef(s, a, i, recycle);
      && Inv(s') && i in s'.items && s'.items[i].refcnt == |Holders(s', i)| && Holders(s', i) == Holders(s, i) - {a}
      && LeftIn(s', i) && s'.items[i].obj == s.items[i].obj && (!recycle ==> PcOf(s', a) == Idle)
      && (recycle && s.items[i].recycle == None ==> s'.items[i].recycle == Some(a))
      && (s'.items[i].refcnt == 0 && s'.items[i].recycle == None ==>
            s'.list == s.list + [i] && s'.items[i].expireAt == SatAdd(s.now, s.expiration))
  {
    DropKeeps(s, a, i, recycle);
    DropHolders(s, a, i, recycle, i);
    InvLeaves(DropRef(s, a, i, recycle), i);
    assert LocalInv(s, i, 0, a);
  }

  lemma SettleMeans(s: State, a: Aid)
    requires Inv(s) && PcOf(s, a).WantMtx? && PcOf(s, a).i in s.items && s.items[PcOf(s, a).i].mtx == None
    ensures
      var i := PcOf(s, a).i;
      var s' := Settle(s, a, i);
      && Inv(s') && i in s'.items && s'.items[i].refcnt == |Holders(s', i)| && s'.items[i].obj == s.items[i].obj
      && if s'.items[i].obj.Some? then
           PcOf(s', a) == Holding(i) && s'.items[i].built == 1 && Holders(s', i) == Holders(s, i)
         else
           PcOf(s', a) == Idle && Holders(s', i) == Holders(s, i) - {a} && LeftIn(s', i)
  {
    var i := PcOf(s, a).i;
    SettleKeeps(s, a, i);
    if s.items[i].obj.Some? {
      assert LocalInv(Settle(s, a, i), i, 0, a) && LocalInv(s, i, 0, a);
      assert Holders(Settle(s, a, i), i) == Holders(s, i);
    } else {
      DropMeans(s, a, i, false);
    }
  }

  ghost function KeysWithout(s: State, cut: seq<Iid>): map<Key, Iid> {
    map k | k in s.keys && s.keys[k] !in cut :: s.keys[k]
  }

  lemma PastShift(s: State, q: seq<Iid>, n: nat)
    requires n <= |q|
    ensures q[n..] == [] || q[n] !in s.items || s.items[q[n]].expireAt >= s.now ==> Past(s, q[n..]) == 0
    ensures n < |q| && q[n] in s.items && s.items[q[n]].expireAt < s.now ==> Past(s, q[n..]) == 1 + Past(s, q[n + 1..])
    ensures q[0..] == q
  {
    if n < |q| { assert q[n..][1..] == q[n + 1..]; }
  }

  /** Erasing the key of the n-th listed item removes that item from the key set and no other. */
  lemma CutKeys(s: State, n: nat)
    requires Inv(s) && n < |s.list| && s.list[n] in s.items
    ensures KeysWithout(s, s.list[..n]) - {s.items[s.list[n]].key} == KeysWithout(s, s.list[..n + 1])
  {
    var i := s.list[n];
    assert s.list[..n + 1] == s.list[..n] + [i];
    assert LocalInv(s, i, 0, 0);
    forall k ensures k in s.keys && s.keys[k] == i ==> k == s.items[i].key { assert LocalInv(s, i, k, 0); }
  }
}
