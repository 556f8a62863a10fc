/**
 * Repeated allocation from one resource: a run of `Allocate` calls whose
 * writes all succeed hands out pairwise-distinct ids, each free when the run
 * began, and succeeds as many times as both pools have free ids.
 */
module AllocationRuns {
  import opened Outcomes
  import opened BitPool
  import opened StateStore
  import opened VxlanResource
  import Lifecycle

  /** The pairs a run handed out, the store it left, and the error that stopped it early. */
  datatype Run = Run(pairs: seq<VxlanVlanPair>, store: Store, error: Option<Error>)

  /** Up to n calls of `Allocate` whose writes succeed, stopping at the first error. */
  function AllocateMany(s: Store, id: string, n: nat): (run: Run)
    ensures |run.pairs| <= n
    ensures run.error.None? <==> |run.pairs| == n
    ensures run.error.Some? ==> Allocate(run.store, id, Done).result == Err(run.error.value)
    decreases n
  {
    if n == 0 then Run([], s, None)
    else
      var r := Allocate(s, id, Done);
      match r.result
      case Err(e) => Run([], s, Some(e))
      case Ok(pair) =>
        var rest := AllocateMany(r.store, id, n - 1);
        Run([pair] + rest.pairs, rest.store, rest.error)
  }

  ghost predicate Distinct(pairs: seq<VxlanVlanPair>) {
    forall i, j :: 0 <= i < j < |pairs| ==>
      pairs[i].vxlan != pairs[j].vxlan && pairs[i].vlan != pairs[j].vlan
  }

  /** Both ids of every pair are free in `rec`. */
  ghost predicate AllFreeIn(pairs: seq<VxlanVlanPair>, rec: OperRecord) {
    forall i :: 0 <= i < |pairs| ==>
      IsFree(rec.freeVxlans, pairs[i].vxlan) && IsFree(rec.freeLocalVlans, pairs[i].vlan)
  }

  /** Neither id of any pair is free in `rec`. */
  ghost predicate NoneFreeIn(pairs: seq<VxlanVlanPair>, rec: OperRecord) {
    forall i :: 0 <= i < |pairs| ==>
      !IsFree(rec.freeVxlans, pairs[i].vxlan) && !IsFree(rec.freeLocalVlans, pairs[i].vlan)
  }

  /** Every id free in `later` was already free in `earlier`. */
  ghost predicate FreesNothing(earlier: OperRecord, later: OperRecord) {
    && (forall j: nat :: IsFree(later.freeVxlans, j) ==> IsFree(earlier.freeVxlans, j))
    && (forall j: nat :: IsFree(later.freeLocalVlans, j) ==> IsFree(earlier.freeLocalVlans, j))
  }

  /** One allocation in front of a run keeps the facts `AllocateManyDistinct` states. */
  lemma RunStep(p: VxlanVlanPair, rest: seq<VxlanVlanPair>, first: OperRecord, mid: OperRecord, last: OperRecord)
    requires IsFree(first.freeVxlans, p.vxlan) && IsFree(first.freeLocalVlans, p.vlan)
    requires Taken(first.freeVxlans, mid.freeVxlans, p.vxlan)
    requires Taken(first.freeLocalVlans, mid.freeLocalVlans, p.vlan)
    requires FreesNothing(mid, last) && AllFreeIn(rest, mid) && NoneFreeIn(rest, last) && Distinct(rest)
    ensures FreesNothing(first, last)
    ensures AllFreeIn([p] + rest, first) && NoneFreeIn([p] + rest, last) && Distinct([p] + rest)
  {
  }

  /**
   * No id is handed out twice in a run: every pair was free when the run
   * began and is allocated when it ends, the run frees nothing, and no two
   * pairs share a VXLAN or a VLAN.
   */
  lemma {:induction false} AllocateManyDistinct(s: Store, id: string, n: nat)
    requires WellKeyed(s) && id in s.oper
    ensures var run := AllocateMany(s, id, n);
            && WellKeyed(run.store)
            && id in run.store.oper
            && FreesNothing(s.oper[id], run.store.oper[id])
            && AllFreeIn(run.pairs, s.oper[id])
            && NoneFreeIn(run.pairs, run.store.oper[id])
            && Distinct(run.pairs)
    decreases n
  {
    if n > 0 {
      var r := Allocate(s, id, Done);
      Lifecycle.OperationsKeepWellKeyed(s, id, OtherCfg, OtherValue, Done, Done, Done);
      if r.result.Ok? {
        var p := r.result.value;
        var rest := AllocateMany(r.store, id, n - 1);
        AllocateManyDistinct(r.store, id, n - 1);
        assert AllocateMany(s, id, n).pairs == [p] + rest.pairs;
        RunStep(p, rest.pairs, s.oper[id], r.store.oper[id], rest.store.oper[id]);
      }
    }
  }

  /**
   * A run of n calls succeeds whenever both pools have at least n free ids,
   * and leaves each pool with exactly n fewer.
   */
  lemma {:induction false} AllocateManySucceeds(s: Store, id: string, n: nat)
    requires WellKeyed(s) && id in s.oper
    requires n <= CountFree(s.oper[id].freeVxlans) && n <= CountFree(s.oper[id].freeLocalVlans)
    ensures var run := AllocateMany(s, id, n);
            && run.error.None?
            && |run.pairs| == n
            && id in run.store.oper
            && CountFree(run.store.oper[id].freeVxlans) == CountFree(s.oper[id].freeVxlans) - n
            && CountFree(run.store.oper[id].freeLocalVlans) == CountFree(s.oper[id].freeLocalVlans) - n
    decreases n
  {
    if n > 0 {
      var before := s.oper[id];
      CountedMeansFound(before.freeVxlans);
      CountedMeansFound(before.freeLocalVlans);
      NextSetFindsAny(before.freeVxlans);
      NextSetFindsAny(before.freeLocalVlans);
      var r := Allocate(s, id, Done);
      assert r.result.Ok?;
      var p := r.result.value;
      var after := r.store.oper[id];
      TakenIsClearBit(before.freeVxlans, after.freeVxlans, p.vxlan);
      TakenIsClearBit(before.freeLocalVlans, after.freeLocalVlans, p.vlan);
      CountAfterClear(before.freeVxlans, p.vxlan);
      CountAfterClear(before.freeLocalVlans, p.vlan);
      Lifecycle.OperationsKeepWellKeyed(s, id, OtherCfg, OtherValue, Done, Done, Done);
      AllocateManySucceeds(r.store, id, n - 1);
    }
  }

  /**
   * A resource created with N free VXLANs and M free VLANs serves
   * min(N, M) allocations with pairwise-distinct pairs; the next `Allocate`
   * reports the exhausted pool and changes nothing.
   */
  lemma FreshResourceServesMin(s: Store, id: string, n: nat, m: nat)
    requires WellKeyed(s)
    ensures var init := Init(s, id, AutoVxlanCfg(seq(n, _ => true), seq(m, _ => true)), Done, Done, Done);
            var k := if n <= m then n else m;
            var run := AllocateMany(init.store, id, k);
            && init.result.Ok?
            && run.error.None? && |run.pairs| == k
            && Distinct(run.pairs)
            && var next := Allocate(run.store, id, Done);
            && next.result == (if n <= m then Err(NoVxlans) else Err(NoLocalVlans))
            && next.store == run.store
  {
    var vx, vl := seq(n, _ => true), seq(m, _ => true);
    var init := Init(s, id, AutoVxlanCfg(vx, vl), Done, Done, Done);
    Lifecycle.OperationsKeepWellKeyed(s, id, AutoVxlanCfg(vx, vl), OtherValue, Done, Done, Done);
    assert init.store.oper[id] == OperRecord(id, vx, vl);
    CountFull(n);
    CountFull(m);
    var k := if n <= m then n else m;
    AllocateManySucceeds(init.store, id, k);
    AllocateManyDistinct(init.store, id, k);
    var run := AllocateMany(init.store, id, k);
    var last := run.store.oper[id];
    if HasFree(last.freeVxlans) {
      var j: nat :| IsFree(last.freeVxlans, j);
      CountWhenFree(last.freeVxlans, j);
    }
    if HasFree(last.freeLocalVlans) {
      var j: nat :| IsFree(last.freeLocalVlans, j);
      CountWhenFree(last.freeLocalVlans, j);
    }
    if n > m {
      CountedMeansFound(last.freeVxlans);
      NextSetFindsAny(last.freeVxlans);
    }
  }

  /**
   * Three VXLANs and two VLANs: allocation gives {0,0}, then {1,1}, then fails
   * on the empty VLAN pool with VXLAN 2 still free; giving back {0,0} and
   * allocating again reuses {0,0}.
   */
  lemma ThreeByTwoScenario(id: string)
    ensures var s0 := Init(Store(map[], map[]), id, AutoVxlanCfg([true, true, true], [true, true]), Done, Done, Done).store;
            var a1 := Allocate(s0, id, Done);
            var a2 := Allocate(a1.store, id, Done);
            var a3 := Allocate(a2.store, id, Done);
            var d := Deallocate(a3.store, id, PairValue(VxlanVlanPair(0, 0)), Done);
            var a4 := Allocate(d.store, id, Done);
            && a1.result == Ok(VxlanVlanPair(0, 0))
            && a2.result == Ok(VxlanVlanPair(1, 1))
            && a3.result == Err(NoLocalVlans)
            && IsFree(a3.store.oper[id].freeVxlans, 2)
            && d.result.Ok?
            && a4.result == Ok(VxlanVlanPair(0, 0))
  {
    var s0 := Init(Store(map[], map[]), id, AutoVxlanCfg([true, true, true], [true, true]), Done, Done, Done).store;
    assert s0.oper[id] == OperRecord(id, [true, true, true], [true, true]);
    var a1 := Allocate(s0, id, Done);
    NextSetIsLeast([true, true, true], 0);
    NextSetIsLeast([true, true], 0);
    assert a1.store.oper[id] == OperRecord(id, [false, true, true], [false, true]);
    var a2 := Allocate(a1.store, id, Done);
    assert IsLeastFree([false, true, true], 1);
    assert IsLeastFree([false, true], 1);
    NextSetIsLeast([false, true, true], 1);
    NextSetIsLeast([false, true], 1);
    assert a2.store.oper[id] == OperRecord(id, [false, false, true], [false, false]);
    assert !HasFree([false, false]);
    var a3 := Allocate(a2.store, id, Done);
    var d := Deallocate(a3.store, id, PairValue(VxlanVlanPair(0, 0)), Done);
    assert d.store.oper[id] == OperRecord(id, [true, false, true], [true, false]);
    NextSetIsLeast([true, false, true], 0);
    NextSetIsLeast([true, false], 0);
  }
}
