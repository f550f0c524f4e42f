/** What every step of the object cache keeps, one group of lemmas for each kind of step. */
module CacheSafety {
  import opened Common
  import opened CacheProtocol

  lemma HoldersSet(s: State, a: Aid, p: Pc, i: Iid)
    ensures Holders(SetPc(s, a, p), i) == if HasRef(p, i) then Holders(s, i) + {a} else Holders(s, i) - {a}
    ensures a in Holders(s, i) <==> HasRef(PcOf(s, a), i)
  {
  }

  // ----- ref_acquire -----

  lemma NoHolders(s: State, i: Iid)
    requires i !in s.items && forall b :: PcInv(s, b)
    ensures Holders(s, i) == {}
  {
    forall b ensures b !in Holders(s, i) { assert PcInv(s, b); }
  }

  function Created(s: State, a: Aid, k: Key, id: Iid): State {
    SetPc(s.(keys := s.keys[k := id], items := s.items[id := Item(k, 1, None, None, None, 0, 0, 0)]), a, WantMtx(id))
  }

  ghost predicate CanTry(s: State, a: Aid, k: Key) { PcOf(s, a).Idle? || PcOf(s, a) == Retry(k) }

  lemma CreatedItem(s: State, a: Aid, k: Key, id: Iid, j: Iid)
    requires CanTry(s, a, k) && id !in s.items && id !in s.freed && k !in s.keys
    requires ItemInv(s, j) && ItemInv(s, id) && Holders(s, id) == {}
    ensures ItemInv(Created(s, a, k, id), j)
  {
    CreatedHolders(s, a, k, id, j);
  }

  lemma CreatedHolders(s: State, a: Aid, k: Key, id: Iid, j: Iid)
    requires CanTry(s, a, k) && Holders(s, id) == {}
    ensures Holders(Created(s, a, k, id), j) == if j == id then {a} else Holders(s, j)
  {
    HoldersSet(s, a, WantMtx(id), j);
    assert Holders(Created(s, a, k, id), j) == Holders(SetPc(s, a, WantMtx(id)), j);
  }

  lemma CreatedLocal(s: State, a: Aid, k: Key, id: Iid, k': Key, b: Aid)
    requires CanTry(s, a, k) && id !in s.items && id !in s.freed && k !in s.keys
    requires KeyInv(s, k') && PcInv(s, b)
    ensures KeyInv(Created(s, a, k, id), k') && PcInv(Created(s, a, k, id), b)
  {
    var s' := Created(s, a, k, id);
    if PcOf(s, b).Blocked? && b != a { NotifyFrame(s, s', PcOf(s, b).key); }
  }

  /** A step keeps a promised notification if it keeps the recycle in progress and the notifiers. */
  lemma NotifyFrame(s: State, s': State, k: Key)
    requires WillNotify(s, k)
    requires k in s.keys && s.keys[k] in s.items && s.items[s.keys[k]].recycle.Some? ==>
      k in s'.keys && s'.keys[k] in s'.items && s'.items[s'.keys[k]].recycle.Some?
    requires forall b :: PcOf(s, b) == Notifying(k) ==> PcOf(s', b) == Notifying(k)
    ensures WillNotify(s', k)
  {
    if b :| PcOf(s, b) == Notifying(k) { assert PcOf(s', b) == Notifying(k); }
  }

  lemma CreatedKeeps(s: State, a: Aid, k: Key, id: Iid)
    requires Inv(s) && CanTry(s, a, k) && id !in s.items && id !in s.freed && k !in s.keys
    ensures Inv(Created(s, a, k, id))
  {
    var s' := Created(s, a, k, id);
    forall b ensures PcInv(s, b) { assert LocalInv(s, 0, 0, b); }
    NoHolders(s, id);
    assert LocalInv(s, id, 0, 0);
    forall j, k', b ensures LocalInv(s', j, k', b) {
      assert LocalInv(s, j, k', b);
      CreatedItem(s, a, k, id, j);
      CreatedLocal(s, a, k, id, k', b);
    }
    forall m: nat, n: nat ensures ListInv(s', m, n) { assert ListInv(s, m, n); }
    forall m: nat ensures StampInv(s', m) { assert StampInv(s, m); }
  }

  lemma JoinHolders(s: State, a: Aid, k: Key, i: Iid, j: Iid)
    requires CanTry(s, a, k) && i in s.items
    ensures Holders(Acquired(s, a, k, i), j) ==
      if j == i && s.items[i].recycle.None? then Holders(s, j) + {a} else Holders(s, j)
    ensures a !in Holders(s, j)
  {
    var p := if s.items[i].recycle.Some? then Blocked(k) else WantMtx(i);
    HoldersSet(s, a, p, j);
    assert Holders(Acquired(s, a, k, i), j) == Holders(SetPc(s, a, p), j);
  }

  lemma JoinItem(s: State, a: Aid, k: Key, i: Iid)
    requires CanTry(s, a, k) && i in s.items && ItemInv(s, i)
    ensures ItemInv(Acquired(s, a, k, i), i)
  {
    JoinHolders(s, a, k, i, i);
  }

  lemma JoinOther(s: State, a: Aid, k: Key, i: Iid, j: Iid)
    requires CanTry(s, a, k) && i in s.items && ItemInv(s, j) && j != i
    ensures ItemInv(Acquired(s, a, k, i), j)
  {
    JoinHolders(s, a, k, i, j);
  }

  lemma JoinLocal(s: State, a: Aid, k: Key, i: Iid, k': Key, b: Aid)
    requires CanTry(s, a, k) && k in s.keys && s.keys[k] == i && i in s.items && KeyInv(s, k') && PcInv(s, b)
    ensures KeyInv(Acquired(s, a, k, i), k') && PcInv(Acquired(s, a, k, i), b)
  {
    if PcOf(s, b).Blocked? { NotifyFrame(s, Acquired(s, a, k, i), PcOf(s, b).key); }
  }

  lemma ListFrame(s: State, s': State, i: Iid)
    requires s'.list == Without(s.list, i) && s'.now == s.now && s'.expiration == s.expiration
    requires forall j :: j in s'.list && j in s'.items ==> j in s.items && s'.items[j].expireAt == s.items[j].expireAt
    requires (forall m, n :: ListInv(s, m, n)) && (forall m :: StampInv(s, m))
    ensures (forall m, n :: ListInv(s', m, n)) && (forall m :: StampInv(s', m))
  {
    forall m: nat, n: nat ensures ListInv(s', m, n) {
      if m < n < |s'.list| {
        var m', n' := WithoutIsSubsequence(s.list, i, m, n);
        assert ListInv(s, m', n');
      }
    }
    forall m: nat ensures StampInv(s', m) {
      if m < |s'.list| {
        assert s'.list[m] in s.list;
        var m' :| 0 <= m' < |s.list| && s.list[m'] == s'.list[m];
        assert StampInv(s, m');
      }
    }
  }

  lemma JoinKeeps(s: State, a: Aid, k: Key, i: Iid)
    requires Inv(s) && CanTry(s, a, k) && k in s.keys && s.keys[k] == i && i in s.items
    ensures Inv(Acquired(s, a, k, i))
  {
    var s' := Acquired(s, a, k, i);
    assert LocalInv(s, i, k, a);
    forall j, k', b ensures LocalInv(s', j, k', b) {
      assert LocalInv(s, j, k', b);
      if j == i { JoinItem(s, a, k, i); } else { JoinOther(s, a, k, i, j); }
      JoinLocal(s, a, k, i, k', b);
    }
    ListFrame(s, s', i);
  }

  lemma TryKeeps(s: State, a: Aid, k: Key, id: Iid)
    requires Inv(s) && Enabled(s, TryAcquire(a, k, id))
    ensures Inv(Apply(s, TryAcquire(a, k, id)))
  {
    if k in s.keys {
      JoinKeeps(s, a, k, s.keys[k]);
    } else {
      assert LocalInv(s, id, k, a);
      CreatedKeeps(s, a, k, id);
      var r := Lookup(s, k, id);
      assert r.0.items[id := r.0.items[id].(refcnt := 1)] == Created(s, a, k, id).items;
    }
  }

  // ----- the item mutex -----

  /** A step of one agent on one item that touches neither the list, nor who holds references,
      nor the recycling of any item. */
  ghost predicate Quiet(s: State, s': State, a: Aid, i: Iid) {
    && i in s.items && s'.items.Keys == s.items.Keys && s'.list == s.list && s'.keys == s.keys
    && s'.freed == s.freed && s'.now == s.now && s'.expiration == s.expiration
    && (forall j :: j in s.items && j != i ==> s'.items[j] == s.items[j])
    && (forall b :: b != a ==> PcOf(s', b) == PcOf(s, b))
    && (forall j :: HasRef(PcOf(s', a), j) <==> HasRef(PcOf(s, a), j)) && HasRef(PcOf(s, a), i)
    && s'.items[i].refcnt == s.items[i].refcnt && s'.items[i].recycle == s.items[i].recycle
    && s'.items[i].key == s.items[i].key && s'.items[i].expireAt == s.items[i].expireAt
  }

  lemma QuietHolders(s: State, s': State, a: Aid, i: Iid, j: Iid)
    requires Quiet(s, s', a, i)
    ensures Holders(s', j) == Holders(s, j)
  {
    forall b ensures b in Holders(s', j) <==> b in Holders(s, j) {
      assert HasRef(PcOf(s', b), j) <==> HasRef(PcOf(s, b), j);
    }
  }

  lemma QuietItem(s: State, s': State, a: Aid, i: Iid, j: Iid)
    requires Quiet(s, s', a, i) && ItemInv(s, j) && PcInv(s', a)
    requires s'.items[i].built == (if s'.items[i].obj.Some? then 1 else 0)
    requires j in s.items && s.items[j].mtx == Some(a) && j != i ==> PcOf(s', a) == PcOf(s, a)
    requires s'.items[i].mtx.Some? ==> PcOf(s', s'.items[i].mtx.value) == Constructing(i)
    ensures ItemInv(s', j)
  {
    QuietHolders(s, s', a, i, j);
  }

  lemma QuietPc(s: State, s': State, a: Aid, i: Iid, b: Aid)
    requires Quiet(s, s', a, i) && PcInv(s, b) && PcInv(s', a)
    requires PcOf(s, b) == Constructing(i) && b != a ==>
      s'.items[i].mtx == s.items[i].mtx && s'.items[i].obj == s.items[i].obj
    requires s.items[i].obj.Some? ==> s'.items[i].obj.Some?
    ensures PcInv(s', b)
  {
    if PcOf(s, b).Blocked? && b != a { NotifyFrame(s, s', PcOf(s, b).key); }
  }

  lemma QuietKeeps(s: State, s': State, a: Aid, i: Iid)
    requires Inv(s) && Quiet(s, s', a, i) && PcInv(s', a)
    requires s'.items[i].built == (if s'.items[i].obj.Some? then 1 else 0)
    requires s.items[i].mtx == None || s.items[i].mtx == Some(a)
    requires s'.items[i].mtx.Some? ==> PcOf(s', s'.items[i].mtx.value) == Constructing(i)
    requires s.items[i].obj.Some? ==> s'.items[i].obj.Some?
    ensures Inv(s')
  {
    forall j, k, b ensures LocalInv(s', j, k, b) {
      assert LocalInv(s, j, k, b);
      assert LocalInv(s, j, k, a);
      QuietItem(s, s', a, i, j);
      QuietPc(s, s', a, i, b);
    }
    forall m: nat, n: nat ensures ListInv(s', m, n) { assert ListInv(s, m, n); }
    forall m: nat ensures StampInv(s', m) { assert StampInv(s, m); }
  }

  lemma StartBuildKeeps(s: State, a: Aid, i: Iid)
    requires Inv(s) && PcOf(s, a) == WantMtx(i) && i in s.items && s.items[i].mtx == None && s.items[i].obj == None
    ensures Inv(StartBuild(s, a, i))
  {
    assert LocalInv(s, i, 0, a);
    QuietKeeps(s, StartBuild(s, a, i), a, i);
  }

  lemma BuildKeeps(s: State, a: Aid, i: Iid, obj: Option<int>)
    requires Inv(s) && PcOf(s, a) == Constructing(i) && i in s.items
    ensures Inv(Build(s, a, i, obj))
  {
    assert LocalInv(s, i, 0, a);
    QuietKeeps(s, Build(s, a, i, obj), a, i);
  }

  lemma HoldKeeps(s: State, a: Aid, i: Iid)
    requires Inv(s) && PcOf(s, a) == WantMtx(i) && i in s.items && s.items[i].obj.Some? && s.items[i].mtx == None
    ensures Inv(SetPc(s, a, Holding(i)))
  {
    assert LocalInv(s, i, 0, a);
    QuietKeeps(s, SetPc(s, a, Holding(i)), a, i);
  }

  // ----- ref_release -----

  ghost predicate CanDrop(s: State, a: Aid, i: Iid) {
    i in s.items && HasRef(PcOf(s, a), i) && s.items[i].mtx != Some(a)
  }

  lemma DropHolders(s: State, a: Aid, i: Iid, recycle: bool, j: Iid)
    requires CanDrop(s, a, i)
    ensures Holders(DropRef(s, a, i, recycle), j) == if j == i then Holders(s, j) - {a} else Holders(s, j)
    ensures a in Holders(s, i)
  {
    var s' := DropRef(s, a, i, recycle);
    forall b ensures b in Holders(s', j) <==> b in Holders(s, j) && b != a {
      assert b != a ==> (HasRef(PcOf(s', b), j) <==> HasRef(PcOf(s, b), j));
      assert !HasRef(PcOf(s', a), j);
    }
  }

  lemma DropItem(s: State, a: Aid, i: Iid, recycle: bool)
    requires CanDrop(s, a, i) && ItemInv(s, i)
    ensures ItemInv(DropRef(s, a, i, recycle), i)
  {
    DropHolders(s, a, i, recycle, i);
  }

  lemma DropOther(s: State, a: Aid, i: Iid, recycle: bool, j: Iid)
    requires CanDrop(s, a, i) && ItemInv(s, i) && ItemInv(s, j) && j != i
    ensures ItemInv(DropRef(s, a, i, recycle), j)
  {
    hide Holders;
    DropHolders(s, a, i, recycle, j);
  }

  lemma DropKey(s: State, a: Aid, i: Iid, recycle: bool, k: Key)
    requires CanDrop(s, a, i) && KeyInv(s, k)
    ensures KeyInv(DropRef(s, a, i, recycle), k)
  {
  }

  lemma DropPc(s: State, a: Aid, i: Iid, recycle: bool, b: Aid)
    requires CanDrop(s, a, i) && ItemInv(s, i) && PcInv(s, b) && !PcOf(s, b).Blocked?
    requires recycle ==> s.items[i].obj.Some?
    ensures PcInv(DropRef(s, a, i, recycle), b)
  {
  }

  lemma DropBlocked(s: State, a: Aid, i: Iid, recycle: bool, b: Aid)
    requires CanDrop(s, a, i) && ItemInv(s, i) && PcInv(s, b) && PcOf(s, b).Blocked?
    ensures PcInv(DropRef(s, a, i, recycle), b)
  {
    var s' := DropRef(s, a, i, recycle);
    var k := PcOf(s, b).key;
    assert PcOf(s', b) == PcOf(s, b);
    forall c | PcOf(s, c) == Notifying(k) ensures PcOf(s', c) == Notifying(k) { }
    NotifyFrame(s, s', k);
  }

  /** Appending an item stamped now keeps the list sorted, since no stamp lies further ahead. */
  lemma DropList(s: State, a: Aid, i: Iid, recycle: bool)
    requires Inv(s) && CanDrop(s, a, i)
    ensures var s' := DropRef(s, a, i, recycle);
      (forall m, n :: ListInv(s', m, n)) && (forall m :: StampInv(s', m))
  {
    var s' := DropRef(s, a, i, recycle);
    assert LocalInv(s, i, 0, a);
    DropHolders(s, a, i, recycle, i);
    assert s'.list == s.list || s'.list == s.list + [i];
    forall m: nat, n: nat ensures ListInv(s', m, n) {
      assert ListInv(s, m, n) && StampInv(s, m);
      if m < n < |s'.list| { assert s'.list[m] == s.list[m] && s.list[m] in s.list; }
    }
    forall m: nat ensures StampInv(s', m) { assert StampInv(s, m); }
  }

  lemma DropKeeps(s: State, a: Aid, i: Iid, recycle: bool)
    requires Inv(s) && CanDrop(s, a, i) && (recycle ==> s.items[i].obj.Some?)
    ensures Inv(DropRef(s, a, i, recycle))
  {
    forall j, k, b ensures LocalInv(DropRef(s, a, i, recycle), j, k, b) {
      assert LocalInv(s, j, k, b);
      assert LocalInv(s, i, k, b);
      if j == i { DropItem(s, a, i, recycle); } else { DropOther(s, a, i, recycle, j); }
      DropKey(s, a, i, recycle, k);
      if PcOf(s, b).Blocked? { DropBlocked(s, a, i, recycle, b); } else { DropPc(s, a, i, recycle, b); }
    }
    DropList(s, a, i, recycle);
  }

  lemma SettleKeeps(s: State, a: Aid, i: Iid)
    requires Inv(s) && PcOf(s, a) == WantMtx(i) && i in s.items && s.items[i].mtx == None
    ensures Inv(Settle(s, a, i))
  {
    if s.items[i].obj.Some? { HoldKeeps(s, a, i); } else { DropKeeps(s, a, i, false); }
  }

  // ----- recycling -----

  lemma EraseHolders(s: State, a: Aid, i: Iid, j: Iid)
    requires PcOf(s, a).Recycling? && i in s.items
    ensures Holders(EraseItem(s, a, i), j) == Holders(s, j)
  {
    var s' := EraseItem(s, a, i);
    forall b ensures b in Holders(s', j) <==> b in Holders(s, j) {
      assert HasRef(PcOf(s', b), j) <==> HasRef(PcOf(s, b), j);
    }
  }

  /** With the semaphore passed nobody holds a reference: the assertion before the erase. */
  lemma SignalledMeansUnused(s: State, a: Aid, i: Iid)
    requires Inv(s) && PcOf(s, a).Recycling? && PcOf(s, a).i == i && PcOf(s, a).sem >= 1
    ensures i in s.items && s.items[i].refcnt == 0 && Holders(s, i) == {} && i !in s.list
  {
    assert LocalInv(s, i, 0, a);
  }

  lemma EraseItemInv(s: State, a: Aid, i: Iid, j: Iid)
    requires PcOf(s, a).Recycling? && PcOf(s, a).i == i && i in s.items && i !in s.list
    requires ItemInv(s, i) && ItemInv(s, j)
    ensures ItemInv(EraseItem(s, a, i), j)
  {
    EraseHolders(s, a, i, j);
  }

  lemma ErasePc(s: State, a: Aid, i: Iid, k: Key, b: Aid)
    requires PcOf(s, a).Recycling? && PcOf(s, a).i == i && i in s.items && Holders(s, i) == {}
    requires ItemInv(s, i) && KeyInv(s, k) && PcInv(s, b) && PcInv(s, a)
    requires PcOf(s, b).Blocked? ==> KeyInv(s, PcOf(s, b).key)
    ensures KeyInv(EraseItem(s, a, i), k) && PcInv(EraseItem(s, a, i), b)
  {
    assert b !in Holders(s, i);
    var s' := EraseItem(s, a, i);
    if PcOf(s, b).Blocked? {
      var k' := PcOf(s, b).key;
      if k' == s.items[i].key { assert PcOf(s', a) == Notifying(k'); }
      else { NotifyFrame(s, s', k'); }
    }
  }

  lemma EraseKeeps(s: State, a: Aid, i: Iid)
    requires Inv(s) && PcOf(s, a).Recycling? && PcOf(s, a).i == i && PcOf(s, a).sem >= 1 && i in s.items
    ensures Inv(EraseItem(s, a, i))
  {
    var s' := EraseItem(s, a, i);
    SignalledMeansUnused(s, a, i);
    assert LocalInv(s, i, 0, a);
    forall j, k, b ensures LocalInv(s', j, k, b) {
      assert LocalInv(s, j, k, b);
      EraseItemInv(s, a, i, j);
      if PcOf(s, b).Blocked? { assert LocalInv(s, j, PcOf(s, b).key, b); }
      ErasePc(s, a, i, k, b);
    }
    forall m: nat, n: nat ensures ListInv(s', m, n) { assert ListInv(s, m, n); }
    forall m: nat ensures StampInv(s', m) { assert StampInv(s, m); }
  }

  lemma WakeAllKeeps(s: State, a: Aid)
    requires Inv(s) && PcOf(s, a).Notifying?
    ensures Inv(WakeAll(SetPc(s, a, Idle)))
  {
    var s' := WakeAll(SetPc(s, a, Idle));
    forall j, k, b ensures LocalInv(s', j, k, b) {
      assert LocalInv(s, j, k, b);
      WakeAllItem(s, a, j);
      assert KeyInv(s', k) && PcInv(s', b);
    }
    forall m: nat, n: nat ensures ListInv(s', m, n) { assert ListInv(s, m, n); }
    forall m: nat ensures StampInv(s', m) { assert StampInv(s, m); }
  }

  lemma WakeAllItem(s: State, a: Aid, j: Iid)
    requires PcOf(s, a).Notifying? && ItemInv(s, j)
    ensures ItemInv(WakeAll(SetPc(s, a, Idle)), j)
  {
    var s' := WakeAll(SetPc(s, a, Idle));
    forall b ensures b in Holders(s', j) <==> b in Holders(s, j) {
      assert HasRef(PcOf(s', b), j) <==> HasRef(PcOf(s, b), j);
    }
    assert Holders(s', j) == Holders(s, j);
  }

  // ----- time -----

  lemma PastIsPrefix(s: State, q: seq<Iid>)
    ensures forall m :: 0 <= m < Past(s, q) ==> q[m] in s.items && s.items[q[m]].expireAt < s.now
    ensures Past(s, q) < |q| && q[Past(s, q)] in s.items ==> s.items[q[Past(s, q)]].expireAt >= s.now
  {
  }

  lemma ExpireItem(s: State, i: Iid)
    requires ItemInv(s, i) && (forall m, n :: ListInv(s, m, n)) && (forall j :: j in s.list ==> j in s.items)
    ensures ItemInv(ExpireAll(s), i)
  {
    var cut := s.list[..Past(s, s.list)];
    var s' := ExpireAll(s);
    assert s.list == cut + s'.list;
    assert Holders(s', i) == Holders(s, i);
    if i in s'.list {
      var n :| 0 <= n < |s'.list| && s'.list[n] == i;
      forall m: nat | m < |cut| ensures cut[m] != i { assert ListInv(s, m, |cut| + n); }
    }
  }

  lemma ExpirePc(s: State, a: Aid)
    requires Inv(s)
    ensures PcInv(ExpireAll(s), a)
  {
    assert LocalInv(s, 0, 0, a);
    CutIsUnused(s, a);
    if PcOf(s, a).Blocked? {
      var k := PcOf(s, a).key;
      if k in s.keys { assert LocalInv(s, s.keys[k], k, a); }
      NotifyFrame(s, ExpireAll(s), k);
    }
  }

  lemma ExpireKeeps(s: State)
    requires Inv(s)
    ensures Inv(ExpireAll(s))
  {
    var s' := ExpireAll(s);
    var n0 := Past(s, s.list);
    forall j | j in s.list ensures j in s.items { assert LocalInv(s, j, 0, 0); }
    forall i, k, a ensures LocalInv(s', i, k, a) {
      assert LocalInv(s, i, k, a);
      ExpireItem(s, i);
      ExpirePc(s, a);
      assert KeyInv(s', k);
    }
    forall m: nat, n: nat ensures ListInv(s', m, n) { assert ListInv(s, n0 + m, n0 + n); }
    forall m: nat ensures StampInv(s', m) { assert StampInv(s, n0 + m); }
  }

  /** Listed and past its time. */
  predicate Due(s: State, i: Iid) { i in s.list && i in s.items && s.items[i].expireAt < s.now }

  /** Because the list is sorted, the walk that stops at the first item still in time cuts off
      exactly the items that are due. */
  lemma CutIsDue(s: State, i: Iid)
    requires Inv(s)
    ensures i in s.list[..Past(s, s.list)] <==> Due(s, i)
    ensures i in s.list[Past(s, s.list)..] <==> i in s.list && !Due(s, i)
  {
    var n0 := Past(s, s.list);
    PastIsPrefix(s, s.list);
    assert LocalInv(s, i, 0, 0);
    if i in s.list {
      var n :| 0 <= n < |s.list| && s.list[n] == i;
      if n < n0 { assert s.list[..n0][n] == i; } else { assert s.list[n0..][n - n0] == i; }
      if n0 < n {
        assert LocalInv(s, s.list[n0], 0, 0) && s.list[n0] in s.list;
        assert ListInv(s, n0, n);
      }
      forall m: nat | m < |s.list| && m != n ensures s.list[m] != i {
        assert ListInv(s, m, n) && ListInv(s, n, m);
      }
    }
  }

  /** What expire() does to the list, to the key set and to the items: it removes the due ones
      everywhere, and nothing else anywhere. */
  lemma ExpireIsExact(s: State, i: Iid)
    requires Inv(s) && i in s.items
    ensures i in ExpireAll(s).items <==> !Due(s, i)
    ensures i in ExpireAll(s).freed <==> Due(s, i)
    ensures i in ExpireAll(s).list <==> i in s.list && !Due(s, i)
    ensures s.items[i].key in ExpireAll(s).keys <==> !Due(s, i)
    ensures !Due(s, i) ==> ExpireAll(s).items[i] == s.items[i]
  {
    CutIsDue(s, i);
    assert LocalInv(s, i, 0, 0);
  }

  lemma TickKeeps(s: State, now: nat)
    requires Inv(s) && s.now <= now
    ensures Inv(s.(now := now))
  {
    var s' := s.(now := now);
    forall i, k, a ensures LocalInv(s', i, k, a) {
      assert LocalInv(s, i, k, a);
      assert Holders(s', i) == Holders(s, i);
      if PcOf(s, a).Blocked? { NotifyFrame(s, s', PcOf(s, a).key); }
    }
    forall m: nat, n: nat ensures ListInv(s', m, n) { assert ListInv(s, m, n); }
    forall m: nat ensures StampInv(s', m) { assert StampInv(s, m); }
  }

  /** Nothing an agent works with is on the idle list. */
  lemma CutIsUnused(s: State, a: Aid)
    requires Inv(s)
    ensures PcOf(s, a).WantMtx? || PcOf(s, a).Constructing? || PcOf(s, a).Holding? || PcOf(s, a).Recycling? ==>
      PcOf(s, a).i !in s.list
  {
    var p := PcOf(s, a);
    if p.WantMtx? || p.Constructing? || p.Holding? || p.Recycling? {
      assert LocalInv(s, p.i, 0, a);
      assert p.Recycling? || a in Holders(s, p.i);
    }
  }
}
