/**
 * Properties that relate several calls on one resource: creation rolled
 * back by compensation, teardown undoing creation, `Deallocate` undoing
 * `Allocate` and the reverse, and the store invariants each operation keeps.
 */
module Lifecycle {
  import opened Outcomes
  import opened BitPool
  import opened StateStore
  import opened VxlanResource

  /** A live pool is no longer than its declared pool and frees only declared ids. */
  ghost predicate Within(live: Pool, declared: Pool) {
    && |live| <= |declared|
    && forall j: nat :: IsFree(live, j) ==> IsFree(declared, j)
  }

  /**
   * Every record is filed under its own id, every oper record has a config
   * record beside it, and every live pool stays within its declared pool.
   */
  ghost predicate Consistent(s: Store) {
    && WellKeyed(s)
    && forall k :: k in s.oper ==>
         && k in s.cfg
         && Within(s.oper[k].freeVxlans, s.cfg[k].vxlans)
         && Within(s.oper[k].freeLocalVlans, s.cfg[k].localVlans)
  }

  /** No operation, whatever its store calls do, files a record under a foreign id. */
  lemma OperationsKeepWellKeyed(s: Store, id: string, arg: InitArg, value: Value,
                                o1: Outcome, o2: Outcome, o3: Outcome)
    requires WellKeyed(s)
    ensures WellKeyed(Init(s, id, arg, o1, o2, o3).store)
    ensures WellKeyed(Allocate(s, id, o1).store)
    ensures WellKeyed(Deallocate(s, id, value, o1).store)
    ensures WellKeyed(Deinit(s, id, o1, o2, o3))
  {
  }

  /**
   * A failed creation of a fresh resource, whose compensating clear works,
   * leaves the store exactly as it found it.
   */
  lemma InitRollbackLeavesNothing(s: Store, id: string, vxlans: Pool, localVlans: Pool, fault: Fault)
    requires id !in s.cfg && id !in s.oper
    ensures Init(s, id, AutoVxlanCfg(vxlans, localVlans), Done, Failed(fault), Done)
            == Reply(Err(StoreError(fault)), s)
  {
  }

  /** Tearing down a freshly created resource gives back the store it was created in. */
  lemma DeinitUndoesInit(s: Store, id: string, vxlans: Pool, localVlans: Pool)
    requires id !in s.cfg && id !in s.oper
    ensures var r := Init(s, id, AutoVxlanCfg(vxlans, localVlans), Done, Done, Done);
            r.result.Ok? && Deinit(r.store, id, Done, Done, Done) == s
  {
  }

  /** Teardown whose read and clears work leaves neither record of the resource. */
  lemma DeinitRemovesBoth(s: Store, id: string)
    requires WellKeyed(s)
    ensures id !in Deinit(s, id, Done, Done, Done).cfg
    ensures id !in Deinit(s, id, Done, Done, Done).oper
  {
  }

  /** A second teardown after a complete one changes nothing, whatever its store calls do. */
  lemma DeinitAgainChangesNothing(s: Store, id: string, operRead: Outcome, operClear: Outcome, cfgClear: Outcome)
    requires WellKeyed(s)
    ensures var t := Deinit(s, id, Done, Done, Done);
            Deinit(t, id, operRead, operClear, cfgClear) == t
  {
  }

  /** Giving back the pair `Allocate` just handed out restores the store. */
  lemma DeallocateUndoesAllocate(s: Store, id: string)
    requires WellKeyed(s)
    ensures var a := Allocate(s, id, Done);
            a.result.Ok? ==> Deallocate(a.store, id, PairValue(a.result.value), Done) == Reply(Ok(()), s)
  {
    var a := Allocate(s, id, Done);
    if a.result.Ok? {
      var before, pair := s.oper[id], a.result.value;
      var after := a.store.oper[id];
      TakenIsClearBit(before.freeVxlans, after.freeVxlans, pair.vxlan);
      TakenIsClearBit(before.freeLocalVlans, after.freeLocalVlans, pair.vlan);
      SetAfterClear(before.freeVxlans, pair.vxlan);
      SetAfterClear(before.freeLocalVlans, pair.vlan);
      var d := Deallocate(a.store, id, PairValue(pair), Done);
      var back := d.store.oper[id];
      ReleasedIsSetBit(after.freeVxlans, back.freeVxlans, pair.vxlan);
      ReleasedIsSetBit(after.freeLocalVlans, back.freeLocalVlans, pair.vlan);
      assert back == before;
      assert d.store.oper == s.oper;
    }
  }

  /** Giving back a pair twice is the same as giving it back once. */
  lemma DeallocateIdempotent(s: Store, id: string, pair: VxlanVlanPair)
    requires WellKeyed(s)
    ensures var d := Deallocate(s, id, PairValue(pair), Done);
            Deallocate(d.store, id, PairValue(pair), Done) == d
  {
    var d := Deallocate(s, id, PairValue(pair), Done);
    if d.result.Ok? {
      var before, once := s.oper[id], d.store.oper[id];
      ReleasedIsSetBit(before.freeVxlans, once.freeVxlans, pair.vxlan);
      ReleasedIsSetBit(before.freeLocalVlans, once.freeLocalVlans, pair.vlan);
      var d2 := Deallocate(d.store, id, PairValue(pair), Done);
      var twice := d2.store.oper[id];
      ReleasedIsSetBit(once.freeVxlans, twice.freeVxlans, pair.vxlan);
      ReleasedIsSetBit(once.freeLocalVlans, twice.freeLocalVlans, pair.vlan);
      SetWhenFree(once.freeVxlans, pair.vxlan);
      SetWhenFree(once.freeLocalVlans, pair.vlan);
      assert twice == once;
      assert d2.store.oper == d.store.oper;
    }
  }

  /** Giving back a pair whose ids are both already free changes nothing. */
  lemma DeallocateFreeChangesNothing(s: Store, id: string, pair: VxlanVlanPair)
    requires WellKeyed(s) && id in s.oper
    requires IsFree(s.oper[id].freeVxlans, pair.vxlan) && IsFree(s.oper[id].freeLocalVlans, pair.vlan)
    ensures Deallocate(s, id, PairValue(pair), Done) == Reply(Ok(()), s)
  {
    var before := s.oper[id];
    var d := Deallocate(s, id, PairValue(pair), Done);
    var after := d.store.oper[id];
    ReleasedIsSetBit(before.freeVxlans, after.freeVxlans, pair.vxlan);
    ReleasedIsSetBit(before.freeLocalVlans, after.freeLocalVlans, pair.vlan);
    SetWhenFree(before.freeVxlans, pair.vxlan);
    SetWhenFree(before.freeLocalVlans, pair.vlan);
    assert after == before;
    assert d.store.oper == s.oper;
  }

  /**
   * Lowest-index-first reuse: giving back an allocated pair below which every
   * id of both pools is allocated, then allocating, hands out that same pair
   * and restores the store.
   */
  lemma AllocateReusesLowestReturned(s: Store, id: string, pair: VxlanVlanPair)
    requires WellKeyed(s) && id in s.oper
    requires pair.vxlan < |s.oper[id].freeVxlans| && pair.vlan < |s.oper[id].freeLocalVlans|
    requires forall j: nat :: j <= pair.vxlan ==> !IsFree(s.oper[id].freeVxlans, j)
    requires forall j: nat :: j <= pair.vlan ==> !IsFree(s.oper[id].freeLocalVlans, j)
    ensures var d := Deallocate(s, id, PairValue(pair), Done);
            d.result.Ok? && Allocate(d.store, id, Done) == Reply(Ok(pair), s)
  {
    var before := s.oper[id];
    assert !IsFree(before.freeVxlans, pair.vxlan) && !IsFree(before.freeLocalVlans, pair.vlan);
    var d := Deallocate(s, id, PairValue(pair), Done);
    var freed := d.store.oper[id];
    ReleasedIsSetBit(before.freeVxlans, freed.freeVxlans, pair.vxlan);
    ReleasedIsSetBit(before.freeLocalVlans, freed.freeLocalVlans, pair.vlan);
    NextSetIsLeast(freed.freeVxlans, pair.vxlan);
    NextSetIsLeast(freed.freeLocalVlans, pair.vlan);
    var a := Allocate(d.store, id, Done);
    assert a.result == Ok(pair);
    var back := a.store.oper[id];
    TakenIsClearBit(freed.freeVxlans, back.freeVxlans, pair.vxlan);
    TakenIsClearBit(freed.freeLocalVlans, back.freeLocalVlans, pair.vlan);
    ClearAfterSet(before.freeVxlans, pair.vxlan);
    ClearAfterSet(before.freeLocalVlans, pair.vlan);
    assert back == before;
    assert a.store.oper == s.oper;
  }

  /** Creating a resource that has no oper record keeps the store consistent. */
  lemma InitKeepsConsistent(s: Store, id: string, arg: InitArg, o1: Outcome, o2: Outcome, o3: Outcome)
    requires Consistent(s) && id !in s.oper
    ensures Consistent(Init(s, id, arg, o1, o2, o3).store)
  {
  }

  /** Allocation only clears bits, so it keeps the store consistent. */
  lemma AllocateKeepsConsistent(s: Store, id: string, write: Outcome)
    requires Consistent(s)
    ensures Consistent(Allocate(s, id, write).store)
  {
  }

  /** Giving back ids the config declares keeps the store consistent. */
  lemma DeallocateDeclaredKeepsConsistent(s: Store, id: string, pair: VxlanVlanPair, write: Outcome)
    requires Consistent(s)
    requires id in s.oper ==> IsFree(s.cfg[id].vxlans, pair.vxlan) && IsFree(s.cfg[id].localVlans, pair.vlan)
    ensures Consistent(Deallocate(s, id, PairValue(pair), write).store)
  {
  }

  /**
   * Teardown keeps the store consistent unless the oper record survives (its
   * read or its clear fails) while the config clear succeeds, which leaves an
   * oper record with no config beside it.
   */
  lemma DeinitKeepsConsistent(s: Store, id: string, operRead: Outcome, operClear: Outcome, cfgClear: Outcome)
    requires Consistent(s)
    requires id in s.oper && (operRead.Failed? || operClear.Failed?) ==> cfgClear.Failed?
    ensures Consistent(Deinit(s, id, operRead, operClear, cfgClear))
  {
  }

  /**
   * A read fault in teardown is swallowed: the existing oper record survives
   * while the config record is cleared, so the oper record is orphaned.
   */
  lemma DeinitReadFaultOrphansOper(s: Store, id: string, fault: Fault, operClear: Outcome)
    requires Consistent(s) && id in s.oper
    ensures var t := Deinit(s, id, Failed(fault), operClear, Done);
            && id !in t.cfg
            && id in t.oper && t.oper[id] == s.oper[id]
            && !Consistent(t)
  {
  }

  /**
   * `Deallocate` does not check its ids against the declared pools: giving
   * back an id never declared breaks consistency, and the next `Allocate`
   * hands that id out.
   */
  lemma UndeclaredIdEscapes()
    ensures var s := Store(map["t" := CfgRecord("t", [true], [true])],
                           map["t" := OperRecord("t", [false], [false])]);
            && Consistent(s)
            && var d := Deallocate(s, "t", PairValue(VxlanVlanPair(5, 0)), Done);
            && !Consistent(d.store)
            && Allocate(d.store, "t", Done).result == Ok(VxlanVlanPair(5, 0))
  {
  }
}
