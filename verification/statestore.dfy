/**
 * The two records the allocator persists, and the state driver's read, write
 * and clear of each. The store is two maps from resource id to record, one
 * per keyspace. A write or clear is given its outcome by the environment: on
 * `Done` it takes effect, on `Failed` it reports the fault and changes nothing.
 */
module StateStore {
  import opened Outcomes
  import opened BitPool

  /** The declared pools of one resource: the ids it may ever hand out. */
  datatype CfgRecord = CfgRecord(id: string, vxlans: Pool, localVlans: Pool)

  /** The live pools of one resource: a set bit means the id is free now. */
  datatype OperRecord = OperRecord(id: string, freeVxlans: Pool, freeLocalVlans: Pool)

  datatype Store = Store(cfg: map<string, CfgRecord>, oper: map<string, OperRecord>)

  /** A store-level failure, opaque to the allocator. */
  datatype Fault = Fault(code: nat)

  /** What the store does with one write or clear. */
  datatype Outcome = Done | Failed(fault: Fault)

  /** One tag per error path of the allocator. */
  datatype Error =
    | InvalidConfig
    | NotFound(id: string)
    | StoreError(fault: Fault)
    | NoVxlans
    | NoLocalVlans
    | InvalidPair

  function ReadCfg(s: Store, id: string): Result<CfgRecord, Error> {
    if id in s.cfg then Ok(s.cfg[id]) else Err(NotFound(id))
  }

  function ReadOper(s: Store, id: string): Result<OperRecord, Error> {
    if id in s.oper then Ok(s.oper[id]) else Err(NotFound(id))
  }

  /** Writes a record under the key of the id it carries. */
  function WriteCfg(s: Store, rec: CfgRecord, o: Outcome): (t: Store)
    ensures o.Done? ==> ReadCfg(t, rec.id) == Ok(rec)
    ensures forall k :: k != rec.id ==> ReadCfg(t, k) == ReadCfg(s, k)
    ensures t.oper == s.oper
    ensures o.Failed? ==> t == s
  {
    if o.Done? then s.(cfg := s.cfg[rec.id := rec]) else s
  }

  function ClearCfg(s: Store, id: string, o: Outcome): (t: Store)
    ensures o.Done? ==> ReadCfg(t, id) == Err(NotFound(id))
    ensures forall k :: k != id ==> ReadCfg(t, k) == ReadCfg(s, k)
    ensures t.oper == s.oper
    ensures o.Failed? ==> t == s
  {
    if o.Done? then s.(cfg := s.cfg - {id}) else s
  }

  function WriteOper(s: Store, rec: OperRecord, o: Outcome): (t: Store)
    ensures o.Done? ==> ReadOper(t, rec.id) == Ok(rec)
    ensures forall k :: k != rec.id ==> ReadOper(t, k) == ReadOper(s, k)
    ensures t.cfg == s.cfg
    ensures o.Failed? ==> t == s
  {
    if o.Done? then s.(oper := s.oper[rec.id := rec]) else s
  }

  function ClearOper(s: Store, id: string, o: Outcome): (t: Store)
    ensures o.Done? ==> ReadOper(t, id) == Err(NotFound(id))
    ensures forall k :: k != id ==> ReadOper(t, k) == ReadOper(s, k)
    ensures t.cfg == s.cfg
    ensures o.Failed? ==> t == s
  {
    if o.Done? then s.(oper := s.oper - {id}) else s
  }

  /** Every record is filed under the id it carries. */
  ghost predicate WellKeyed(s: Store) {
    && (forall k :: k in s.cfg ==> s.cfg[k].id == k)
    && (forall k :: k in s.oper ==> s.oper[k].id == k)
  }
}
