/**
 * The 'auto-vxlan' resource: a pool of VXLAN ids paired with a pool of
 * host-local VLAN ids. `Init` persists the declared pools (config record) and
 * derives the live pools from them (oper record); `Allocate` and `Deallocate`
 * read-modify-write the oper record; `Deinit` tears both records down.
 *
 * Every operation is a function from the store and the outcomes of the store
 * calls it makes to a reply and the new store. Calls are assumed to come from
 * a single caller: nothing here guards the read-modify-write cycle against a
 * concurrent one.
 */
module VxlanResource {
  import opened Outcomes
  import opened BitPool
  import opened StateStore

  /** The ids handed out by one successful `Allocate`. */
  datatype VxlanVlanPair = VxlanVlanPair(vxlan: nat, vlan: nat)

  /** The dynamically typed argument of `Init`: a resource config or anything else. */
  datatype InitArg = AutoVxlanCfg(vxlans: Pool, localVlans: Pool) | OtherCfg

  /** The dynamically typed argument of `Deallocate`: a pair or anything else. */
  datatype Value = PairValue(pair: VxlanVlanPair) | OtherValue

  datatype Reply<+T> = Reply(result: Result<T, Error>, store: Store)

  /**
   * Writes the config record of `id`, then the oper record whose free pools
   * are the declared pools. When the oper write fails the config record is
   * cleared again (whose own outcome is ignored) and the oper fault returned.
   */
  function Init(s: Store, id: string, arg: InitArg,
                cfgWrite: Outcome, operWrite: Outcome, rollback: Outcome): (r: Reply<()>)
    ensures arg.OtherCfg? ==> r == Reply(Err(InvalidConfig), s)
    ensures r.result.Ok? <==> arg.AutoVxlanCfg? && cfgWrite.Done? && operWrite.Done?
    ensures r.result.Ok? ==>
      && ReadCfg(r.store, id) == Ok(CfgRecord(id, arg.vxlans, arg.localVlans))
      && ReadOper(r.store, id) == Ok(OperRecord(id, arg.vxlans, arg.localVlans))
    ensures r.store.cfg - {id} == s.cfg - {id}
    ensures r.store.oper - {id} == s.oper - {id}
    ensures arg.AutoVxlanCfg? && cfgWrite.Failed? ==>
      r == Reply(Err(StoreError(cfgWrite.fault)), s)
    ensures arg.AutoVxlanCfg? && cfgWrite.Done? && operWrite.Failed? ==>
      && r.result == Err(StoreError(operWrite.fault))
      && r.store.oper == s.oper
      && (rollback.Done? ==> id !in r.store.cfg)
      && (rollback.Failed? ==> ReadCfg(r.store, id) == Ok(CfgRecord(id, arg.vxlans, arg.localVlans)))
  {
    match arg
    case OtherCfg => Reply(Err(InvalidConfig), s)
    case AutoVxlanCfg(vxlans, localVlans) =>
      if cfgWrite.Failed? then Reply(Err(StoreError(cfgWrite.fault)), s)
      else
        var written := WriteCfg(s, CfgRecord(id, vxlans, localVlans), cfgWrite);
        var oper := OperRecord(id, vxlans, localVlans);
        if operWrite.Failed? then
          Reply(Err(StoreError(operWrite.fault)), ClearCfg(written, id, rollback))
        else
          Reply(Ok(()), WriteOper(written, oper, operWrite))
  }

  /**
   * Best-effort teardown: clears the oper record if it can be read (under the
   * id the record carries), then always clears the config record. Failures
   * are swallowed; there is no error result. `operRead` is what the store does
   * with the read of an oper record that exists: a failed read skips the oper
   * clear just as a missing record does.
   */
  function Deinit(s: Store, id: string, operRead: Outcome, operClear: Outcome, cfgClear: Outcome): (t: Store)
    ensures cfgClear.Done? ==> id !in t.cfg
    ensures cfgClear.Failed? ==> t.cfg == s.cfg
    ensures t.cfg - {id} == s.cfg - {id}
    ensures id !in s.oper || operRead.Failed? || operClear.Failed? ==> t.oper == s.oper
    ensures id in s.oper && operRead.Done? && operClear.Done? ==> t.oper == s.oper - {s.oper[id].id}
  {
    var read := if operRead.Failed? then Err(StoreError(operRead.fault)) else ReadOper(s, id);
    var cleared :=
      match read
      case Err(_) => s
      case Ok(oper) => ClearOper(s, oper.id, operClear);
    ClearCfg(cleared, id, cfgClear)
  }

  /**
   * Takes the lowest free VXLAN and the lowest free VLAN, clears both bits and
   * writes the oper record back (under the id it carries). Any failure leaves
   * the store as it was; in particular a VXLAN picked before the VLAN pool
   * turns out empty stays free.
   */
  function Allocate(s: Store, id: string, write: Outcome): (r: Reply<VxlanVlanPair>)
    ensures id !in s.oper ==> r == Reply(Err(NotFound(id)), s)
    ensures r.result.Err? ==> r.store == s
    ensures r.result.Ok? <==>
      id in s.oper && HasFree(s.oper[id].freeVxlans) && HasFree(s.oper[id].freeLocalVlans) && write.Done?
    ensures id in s.oper && !HasFree(s.oper[id].freeVxlans) ==> r.result == Err(NoVxlans)
    ensures id in s.oper && HasFree(s.oper[id].freeVxlans) && !HasFree(s.oper[id].freeLocalVlans) ==>
      r.result == Err(NoLocalVlans)
    ensures (id in s.oper && HasFree(s.oper[id].freeVxlans) && HasFree(s.oper[id].freeLocalVlans)
             && write.Failed?) ==> r.result == Err(StoreError(write.fault))
    ensures r.result.Ok? ==>
      && id in s.oper
      && var before, pair := s.oper[id], r.result.value;
      && IsLeastFree(before.freeVxlans, pair.vxlan)
      && IsLeastFree(before.freeLocalVlans, pair.vlan)
      && r.store.cfg == s.cfg
      && r.store.oper - {before.id} == s.oper - {before.id}
      && before.id in r.store.oper
      && var after := r.store.oper[before.id];
      && after.id == before.id
      && Taken(before.freeVxlans, after.freeVxlans, pair.vxlan)
      && Taken(before.freeLocalVlans, after.freeLocalVlans, pair.vlan)
  {
    match ReadOper(s, id)
    case Err(e) => Reply(Err(e), s)
    case Ok(oper) =>
      NextSetFindsAny(oper.freeVxlans);
      NextSetFindsAny(oper.freeLocalVlans);
      match NextSet(oper.freeVxlans, 0)
      case None => Reply(Err(NoVxlans), s)
      case Some(vxlan) =>
        match NextSet(oper.freeLocalVlans, 0)
        case None => Reply(Err(NoLocalVlans), s)
        case Some(vlan) =>
          var taken := oper.(freeVxlans := ClearBit(oper.freeVxlans, vxlan),
                             freeLocalVlans := ClearBit(oper.freeLocalVlans, vlan));
          if write.Failed? then Reply(Err(StoreError(write.fault)), s)
          else Reply(Ok(VxlanVlanPair(vxlan, vlan)), WriteOper(s, taken, write))
  }

  /**
   * Sets the two bits of the given pair back to free and writes the oper
   * record back. The argument is type-checked only after the read succeeds,
   * and the ids are not range-checked: an id past the end of a pool grows it.
   */
  function Deallocate(s: Store, id: string, value: Value, write: Outcome): (r: Reply<()>)
    ensures id !in s.oper ==> r == Reply(Err(NotFound(id)), s)
    ensures id in s.oper && value.OtherValue? ==> r == Reply(Err(InvalidPair), s)
    ensures r.result.Err? ==> r.store == s
    ensures r.result.Ok? <==> id in s.oper && value.PairValue? && write.Done?
    ensures id in s.oper && value.PairValue? && write.Failed? ==>
      r.result == Err(StoreError(write.fault))
    ensures r.result.Ok? ==>
      && var before, pair := s.oper[id], value.pair;
      && r.store.cfg == s.cfg
      && r.store.oper - {before.id} == s.oper - {before.id}
      && before.id in r.store.oper
      && var after := r.store.oper[before.id];
      && after.id == before.id
      && Released(before.freeVxlans, after.freeVxlans, pair.vxlan)
      && Released(before.freeLocalVlans, after.freeLocalVlans, pair.vlan)
  {
    match ReadOper(s, id)
    case Err(e) => Reply(Err(e), s)
    case Ok(oper) =>
      match value
      case OtherValue => Reply(Err(InvalidPair), s)
      case PairValue(pair) =>
        var freed := oper.(freeVxlans := SetBit(oper.freeVxlans, pair.vxlan),
                           freeLocalVlans := SetBit(oper.freeLocalVlans, pair.vlan));
        if write.Failed? then Reply(Err(StoreError(write.fault)), s)
        else Reply(Ok(()), WriteOper(s, freed, write))
  }
}
