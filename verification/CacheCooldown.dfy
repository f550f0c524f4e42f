/**
 The cooldown after a failed construction.  Its time stamp is in the item, and goes when the last
 reference does; the agent whose construction has failed gives its own reference back.
 */
module CacheCooldown {
  import opened Common
  import opened CacheProtocol
  import opened CacheSafety
  import opened CacheTheorems

  /** A construction that fails now is remembered exactly if somebody else holds the item. */
  lemma FailureIsRememberedIff(s: State, a: Aid)
    requires Inv(s) && Enabled(s, Constructed(a, None))
    ensures
      var i, s' := PcOf(s, a).i, Apply(s, Constructed(a, None));
      i in s'.items && s'.items[i].obj == None && s'.items[i].failure == (if Holders(s, i) == {a} then 0 else s.now)
  {
    var i := PcOf(s, a).i;
    assert LocalInv(s, i, 0, a);
    NobodyRecycles(s, i);
    var s1 := Build(s, a, i, None);
    BuildKeeps(s, a, i, None);
    HoldersSet(s, a, WantMtx(i), i);
    assert Holders(s1, i) == Holders(s, i) by {
      forall b ensures b in Holders(s1, i) <==> b in Holders(s, i) { }
    }
    LeftAlone(s1, a, i);
  }

  /** An item without an object is not being recycled. */
  lemma NobodyRecycles(s: State, i: Iid)
    requires Inv(s) && i in s.items && s.items[i].obj == None
    ensures s.items[i].recycle == None
  {
    var r := if s.items[i].recycle.Some? then s.items[i].recycle.value else 0;
    assert LocalInv(s, i, 0, r);
  }

  /** One holder is the only one exactly when the count is one. */
  lemma LeftAlone(s: State, a: Aid, i: Iid)
    requires Inv(s) && i in s.items && a in Holders(s, i)
    ensures s.items[i].refcnt == 1 <==> Holders(s, i) == {a}
  {
    assert LocalInv(s, i, 0, a);
    var rest := Holders(s, i) - {a};
    assert Holders(s, i) == rest + {a} && |Holders(s, i)| == |rest| + 1;
    assert |rest| == 0 <==> rest == {};
  }

  ghost predicate Remembers(s: State, s': State, i: Iid)
    requires i in s.items && i in s'.items
  {
    if s.items[i].refcnt != 0 && s'.items[i].refcnt == 0 then s'.items[i].failure == 0
    else s'.items[i].failure == s.items[i].failure
  }

  lemma DropForgets(s: State, a: Aid, j: Iid, recycle: bool, i: Iid)
    requires CanDrop(s, a, j) && ItemInv(s, j) && i in s.items && (i == j ==> !recycle)
    requires s.items[i].recycle == None
    ensures i in DropRef(s, a, j, recycle).items && Remembers(s, DropRef(s, a, j, recycle), i)
  {
    DropHolders(s, a, j, recycle, j);
  }

  lemma LockForgets(s: State, a: Aid, cooldown: nat, i: Iid)
    requires Inv(s) && Enabled(s, LockItem(a, cooldown)) && i in s.items && s.items[i].recycle == None
    ensures i in Apply(s, LockItem(a, cooldown)).items && Remembers(s, Apply(s, LockItem(a, cooldown)), i)
  {
    var j := PcOf(s, a).i;
    assert LocalInv(s, j, 0, a);
    if s.items[j].obj == None && s.items[j].failure > SatSub(s.now, cooldown) { DropForgets(s, a, j, false, i); }
  }

  lemma BuiltForgets(s: State, a: Aid, obj: Option<int>, i: Iid)
    requires Inv(s) && Enabled(s, Constructed(a, obj)) && i in s.items && s.items[i].recycle == None &&
      PcOf(s, a).i != i
    ensures i in Apply(s, Constructed(a, obj)).items && Remembers(s, Apply(s, Constructed(a, obj)), i)
  {
    var j := PcOf(s, a).i;
    var s1 := Build(s, a, j, obj);
    BuildKeeps(s, a, j, obj);
    assert LocalInv(s1, j, 0, a);
    if obj == None { DropForgets(s1, a, j, false, i); }
  }

  lemma StepForgets(s: State, e: Event, i: Iid)
    requires Inv(s) && Enabled(s, e) && i in s.items && i in Apply(s, e).items
    requires s.items[i].obj == None && s.items[i].recycle == None && !(e.Constructed? && PcOf(s, e.a).i == i)
    ensures Remembers(s, Apply(s, e), i)
  {
    match e
    case TryAcquire(a, k, id) => TryForgets(s, a, k, id, i);
    case LockItem(a, cooldown) => LockForgets(s, a, cooldown, i);
    case Constructed(a, obj) => BuiltForgets(s, a, obj, i);
    case Release(a, recycle) =>
      assert LocalInv(s, PcOf(s, a).i, 0, a);
      DropForgets(s, a, PcOf(s, a).i, recycle, i);
    case _ =>
  }

  lemma TryForgets(s: State, a: Aid, k: Key, id: Iid, i: Iid)
    requires Inv(s) && Enabled(s, TryAcquire(a, k, id)) && i in s.items
    ensures i in Apply(s, TryAcquire(a, k, id)).items && Remembers(s, Apply(s, TryAcquire(a, k, id)), i)
  {
    assert LocalInv(s, i, k, a);
  }

  /** No step but a construction of the item changes what it remembers, as long as somebody holds it; and
      the last to leave makes it forget. */
  lemma CooldownEndsIff(s: State, e: Event, i: Iid)
    requires Inv(s) && Enabled(s, e) && i in s.items && i in Apply(s, e).items
    requires s.items[i].obj == None && !(e.Constructed? && PcOf(s, e.a).i == i)
    ensures
      var s' := Apply(s, e);
      if Holders(s, i) != {} && Holders(s', i) == {} then s'.items[i].failure == 0
      else s'.items[i].failure == s.items[i].failure
  {
    NobodyRecycles(s, i);
    StepForgets(s, e, i);
    StepKeeps(s, e);
    hide Apply;
    assert LocalInv(s, i, 0, 0) && LocalInv(Apply(s, e), i, 0, 0);
    NoneCounted(s, i);
    NoneCounted(Apply(s, e), i);
  }

  lemma NoneCounted(s: State, i: Iid)
    requires i in s.items && ItemInv(s, i)
    ensures s.items[i].refcnt == 0 <==> Holders(s, i) == {}
  {
  }

  /** An item that remembers no failure is constructed whatever the cooldown. */
  lemma ForgottenIsConstructed(s: State, a: Aid, cooldown: nat)
    requires Enabled(s, LockItem(a, cooldown))
    ensures
      var x, s' := s.items[PcOf(s, a).i], Apply(s, LockItem(a, cooldown));
      PcOf(s', a).Constructing? <==> x.obj == None && (x.failure == 0 || x.failure + cooldown <= s.now)
  {
  }

  // ----- a failure that is forgotten -----

  lemma FirstStep(s: State, e: Event, es: seq<Event>, s': State)
    requires Enabled(s, e) && Run(Apply(s, e), es, s')
    ensures Run(s, [e] + es, s')
  {
    assert ([e] + es)[1..] == es;
  }

  /** At time 5 nobody but agent 1 holds the item that it has failed to construct. */
  function Forgotten(expiration: nat): State {
    var x := Item(7, 0, None, None, None, 0, SatAdd(5, expiration), 0);
    State(map[10 := x], {}, map[7 := 10], [10], 5, expiration, map[1 := Idle])
  }

  function Failing(expiration: nat): State {
    var x := Item(7, 1, None, None, Some(1), 0, 0, 0);
    State(map[10 := x], {}, map[7 := 10], [], 5, expiration, map[1 := Constructing(10)])
  }

  lemma FailsNow(expiration: nat)
    ensures Apply(Failing(expiration), Constructed(1, None)) == Forgotten(expiration)
  {
  }

  lemma StartsToFail(expiration: nat, cooldown: nat)
    ensures
      var s1 := Initial(expiration).(now := 5);
      && Enabled(s1, TryAcquire(1, 7, 10))
      && Enabled(Apply(s1, TryAcquire(1, 7, 10)), LockItem(1, cooldown))
      && Apply(Apply(s1, TryAcquire(1, 7, 10)), LockItem(1, cooldown)) == Failing(expiration)
  {
  }

  lemma StartsAgain(expiration: nat, cooldown: nat)
    ensures
      var s := Forgotten(expiration);
      && Enabled(s, TryAcquire(2, 7, 11))
      && Enabled(Apply(s, TryAcquire(2, 7, 11)), LockItem(2, cooldown))
      && var s' := Apply(Apply(s, TryAcquire(2, 7, 11)), LockItem(2, cooldown));
      && PcOf(s', 2) == Constructing(10) && s'.now == 5
  {
  }

  lemma TwoSteps(s: State, e: Event, e1: Event, s2: State, es: seq<Event>, s': State)
    requires Enabled(s, e) && Enabled(Apply(s, e), e1) && Apply(Apply(s, e), e1) == s2 && Run(s2, es, s')
    ensures Run(s, [e, e1] + es, s')
  {
    FirstStep(Apply(s, e), e1, es, s');
    FirstStep(s, e, [e1] + es, s');
    assert [e] + ([e1] + es) == [e, e1] + es;
  }

  /** A construction fails at time 5, and at time 5 the next one to ask constructs again, whatever the
      cooldown. */
  lemma CooldownIsForgotten(expiration: nat, cooldown: nat)
    ensures
      var es := [Tick(5)] + ([TryAcquire(1, 7, 10), LockItem(1, cooldown)] +
                             ([Constructed(1, None)] + ([TryAcquire(2, 7, 11), LockItem(2, cooldown)] + [])));
      exists s :: Reached(expiration, es, s) && s.now == 5 && PcOf(s, 2) == Constructing(10)
  {
    StartsToFail(expiration, cooldown);
    FailsNow(expiration);
    StartsAgain(expiration, cooldown);
    var s1 := Initial(expiration).(now := 5);
    var s' := Apply(Apply(Forgotten(expiration), TryAcquire(2, 7, 11)), LockItem(2, cooldown));
    var more := [TryAcquire(2, 7, 11), LockItem(2, cooldown)] + [];
    TwoSteps(Forgotten(expiration), TryAcquire(2, 7, 11), LockItem(2, cooldown), s', [], s');
    FirstStep(Failing(expiration), Constructed(1, None), more, s');
    TwoSteps(s1, TryAcquire(1, 7, 10), LockItem(1, cooldown), Failing(expiration), [Constructed(1, None)] + more, s');
    FirstStep(Initial(expiration), Tick(5),
              [TryAcquire(1, 7, 10), LockItem(1, cooldown)] + ([Constructed(1, None)] + more), s');
  }
}
