# auto-vxlan resource allocator, modelled in Dafny

This project models the `auto-vxlan` resource of the netplugin network
orchestrator (`resources/vxlanresource.go`). The resource hands out VXLAN ids
paired with host-local VLAN ids. It keeps two records per resource id in the
state store:

- a **config** record holding the declared pools `VXLANs` and `LocalVLANs`;
- an **oper** record holding the live pools `FreeVXLANs` and `FreeLocalVLANs`,
  where a set bit means the id is free.

`Init` writes the config record. It then derives the oper record from it and
clears the config record again if the oper write fails. `Allocate` takes the
lowest free VXLAN and the lowest free VLAN. `Deallocate` sets two bits back to
free. `Deinit` is a best-effort teardown that reports nothing.

Modules, one concept each:

- `Outcomes` (`outcomes.dfy`): `Option` and `Result`.
- `BitPool` (`bitpool.dfy`): a pool is a `seq<bool>`. Its operations are
  `NextSet` (least set index at or after a start, or none), `SetBit` and
  `ClearBit`. The module also defines the predicates `IsFree`, `IsLeastFree`,
  `Taken` and `Released`, which say that exactly one bit changed.
- `Keys` (`keys.dfy`): the resource kind string and the key layout
  `<root>auto-vxlan/<id>`.
- `StateStore` (`statestore.dfy`): the two records, the store as two maps from
  resource id to record, and the read, write and clear of each record.
- `VxlanResource` (`vxlanresource.dfy`): `Init`, `Deinit`, `Allocate` and
  `Deallocate`.
- `Lifecycle` (`lifecycle.dfy`): multi-call properties, such as rollback, undo
  and the store invariants.
- `AllocationRuns` (`allocationruns.dfy`): repeated allocation.

Modelling choices:

- **Store calls can fail.** Every write or clear takes an `Outcome` chosen by
  the environment. `Done` means it takes effect. `Failed(fault)` means it
  changes nothing and reports the fault. A read returns the stored record, or
  `NotFound(id)` when there is none.
- **Records carry their own id.** In the source, `Write` and `Clear` build the
  key from the record's `ID` field. In `Allocate`, `Deallocate` and `Deinit`
  that field comes from the record just read, not from the resource. The model
  keeps this: the oper record is written back, or cleared, under the id it
  carries. `WellKeyed` says that every record is filed under its own id. Every
  operation keeps it (`Lifecycle.OperationsKeepWellKeyed`), and the
  "at this id" lemmas assume it.
- **Dynamic arguments become sum types.** The `interface{}` arguments are sum
  types: `InitArg` is `AutoVxlanCfg(..) | OtherCfg`, and `Value` is
  `PairValue(..) | OtherValue`.
- **Bitset edge cases.** The bitset library is not part of this model. Its
  behaviour past the end of a pool follows the upstream bitset: `Set` grows
  the pool to `i + 1` slots, `Clear` does nothing, and the scan stops at the
  end. `Deallocate` does not range-check its ids, which matches the source
  (`:172-175`). `Lifecycle.DeallocateDeclaredKeepsConsistent` proves that
  declared ids keep every live pool within its declared pool.
  `Lifecycle.UndeclaredIdEscapes` exhibits an undeclared id that escapes into
  the pool and is then handed out.
- **Single caller.** All calls come from one caller. Nothing models the
  unsynchronised read-modify-write between processes.
- **Teardown failures are swallowed.** `Deinit` returns nothing and
  swallows every failure (`resources/vxlanresource.go:109-123`); the model
  follows it. The read of the oper record gets its own `Outcome` here. If
  that read or the oper clear fails while the config clear succeeds, an oper
  record is left without its config record
  (`Lifecycle.DeinitReadFaultOrphansOper`; `Lifecycle.DeinitKeepsConsistent`
  excludes this case).
- **Rollback can fail too.** The result of the compensating clear in `Init` is
  ignored by the source. It gets its own `Outcome` here. The store ends empty
  for `id` only when that clear works and there was no earlier oper record.

## Model

| member | source | states |
|---|---|---|
| BitPool.NextSet | resources/vxlanresource.go:139-147 | a scan from `from` returns the least set index at or after it, or none exactly when no index at or after it is set |
| BitPool.NextSetIsLeast | resources/vxlanresource.go:139-147 | the scan from 0 returns k if and only if k is the lowest free id |
| BitPool.NextSetFindsAny | resources/vxlanresource.go:139-147 | the scan from 0 succeeds if and only if the pool has a free id, so exhaustion is reported exactly for an empty pool |
| BitPool.ClearBit | resources/vxlanresource.go:149-150 | clearing bit i frees exactly the same ids except i, and keeps the pool length |
| BitPool.SetBit | resources/vxlanresource.go:172-175 | setting bit i frees exactly the old free ids plus i; an index past the end grows the pool to i + 1 slots |
| Keys.Description | resources/vxlanresource.go:125-128 | the resource kind is a constant, non-empty single path segment |
| Keys.Path | resources/vxlanresource.go:33-38 | a record key is the keyspace prefix followed by the resource id |
| Keys.PathInjective | resources/vxlanresource.go:33-38 | distinct resource ids get distinct keys in one keyspace, so each keyspace is a map from id to record |
| StateStore.WriteCfg | resources/vxlanresource.go:55-59 | a successful config write is read back exactly under the record's own id; other ids and the oper keyspace are untouched; a failed write changes nothing |
| StateStore.ClearCfg | resources/vxlanresource.go:67-71 | a successful config clear makes a read of that id report NotFound; nothing else changes |
| StateStore.WriteOper | resources/vxlanresource.go:191-195 | a successful oper write is read back exactly under the record's own id; other ids and the config keyspace are untouched; a failed write changes nothing |
| StateStore.ClearOper | resources/vxlanresource.go:209-213 | a successful oper clear makes a read of that id report NotFound; nothing else changes |
| VxlanResource.Init | resources/vxlanresource.go:79-106 | a foreign argument gives InvalidConfig and writes nothing; success holds exactly when both writes work and leaves the given pools as config and as free pools; a failed config write returns its fault with the store unchanged; a failed oper write returns its fault, leaves the oper keyspace unchanged and removes the config record when the rollback clear works |
| VxlanResource.Deinit | resources/vxlanresource.go:108-123 | the config record is always cleared when its clear works; the oper record is cleared only when it exists and both its read and its clear work, and otherwise survives; nothing else changes |
| VxlanResource.Allocate | resources/vxlanresource.go:130-157 | a missing oper record gives NotFound; an empty VXLAN pool gives NoVxlans; otherwise an empty VLAN pool gives NoLocalVlans; a failed write gives its fault; every failure leaves the store unchanged; success returns the lowest free VXLAN and the lowest free VLAN and changes exactly those two bits to allocated, config untouched |
| VxlanResource.Deallocate | resources/vxlanresource.go:159-182 | a missing oper record gives NotFound, even for a malformed argument; a non-pair gives InvalidPair after the read; failures change nothing; success frees exactly the two given ids and changes no other bit and no config |
| Lifecycle.OperationsKeepWellKeyed | resources/vxlanresource.go:80-182 | whatever the store calls do, every operation files each record under its own id |
| Lifecycle.InitRollbackLeavesNothing | resources/vxlanresource.go:87-103 | for a fresh id, a failed oper write whose rollback works returns the oper fault and leaves the store exactly as before |
| Lifecycle.DeinitUndoesInit | resources/vxlanresource.go:80-123 | creating a fresh resource and then tearing it down with a working read and working clears gives back the original store |
| Lifecycle.DeinitRemovesBoth | resources/vxlanresource.go:109-123 | teardown with a working read and working clears leaves neither record of the id |
| Lifecycle.DeinitAgainChangesNothing | resources/vxlanresource.go:109-123 | a second teardown after a complete one changes nothing, whatever its read and clears do |
| Lifecycle.DeallocateUndoesAllocate | resources/vxlanresource.go:131-182 | giving back the pair just allocated restores the store exactly |
| Lifecycle.DeallocateFreeChangesNothing | resources/vxlanresource.go:172-181 | giving back a pair whose two ids are already free succeeds and leaves the store exactly as it was |
| Lifecycle.DeallocateIdempotent | resources/vxlanresource.go:160-182 | giving back a pair a second time leaves the store as after the first time |
| Lifecycle.AllocateReusesLowestReturned | resources/vxlanresource.go:139-181 | after giving back an allocated pair below which every id is allocated, the next allocation returns that same pair and restores the store |
| Lifecycle.InitKeepsConsistent | resources/vxlanresource.go:80-106 | creating a resource that has no oper record, with any store outcomes, keeps every oper record beside its config record and within its declared pools |
| Lifecycle.AllocateKeepsConsistent | resources/vxlanresource.go:131-157 | allocation keeps every live pool within its declared pool |
| Lifecycle.DeallocateDeclaredKeepsConsistent | resources/vxlanresource.go:160-182 | giving back ids that the config declares keeps every live pool within its declared pool |
| Lifecycle.DeinitKeepsConsistent | resources/vxlanresource.go:109-123 | teardown keeps the store consistent unless the oper read or the oper clear fails while the config clear works |
| Lifecycle.DeinitReadFaultOrphansOper | resources/vxlanresource.go:109-123 | a swallowed read fault leaves the existing oper record untouched while the config record is cleared, so the store is no longer consistent |
| Lifecycle.UndeclaredIdEscapes | resources/vxlanresource.go:172-175 | without a range check, giving back an undeclared id breaks consistency and the next allocation hands that id out |
| AllocationRuns.AllocateMany | resources/vxlanresource.go:131-157 | a run of allocations stops early only at an error, which is the error the next allocation would report |
| AllocationRuns.AllocateManyDistinct | resources/vxlanresource.go:139-156 | in a run, every pair was free at the start and is allocated at the end, nothing is freed, and no two pairs share a VXLAN or a VLAN |
| AllocationRuns.AllocateManySucceeds | resources/vxlanresource.go:139-156 | a run of n allocations succeeds when both pools have n free ids, and leaves each pool with n fewer |
| AllocationRuns.FreshResourceServesMin | resources/vxlanresource.go:85-157 | a resource created with N and M free ids (either may be zero) serves min(N, M) distinct pairs; the next allocation reports the exhausted pool and changes nothing |
| AllocationRuns.ThreeByTwoScenario | resources/vxlanresource.go:80-182 | with 3 VXLANs and 2 VLANs: {0,0}, then {1,1}, then NoLocalVlans with VXLAN 2 still free; giving back {0,0} and allocating again returns {0,0} |

## Left out

- `ReadAll` of both record types (`:73-77`, `:203-207`) is left out. It is a prefix listing passed through to the state driver, and allocation does not use it.
- JSON encoding and the bitset wire format are left out. A read returns exactly the record last written.
- The concrete state driver and the values of the config and oper path roots are left out. The roots are parameters of `Keys.Path`, and the model assumes the two keyspaces are distinct.
- In `Allocate` and `Deallocate`, read failures other than a missing record are not modelled separately. There their effect is the same as `NotFound`: the error is returned and nothing changes. In `Deinit` the effect differs, because the error is swallowed and the config clear still runs, so `Deinit` takes the read's outcome as a parameter.
- Nil pointers are not modelled: a nil config, or nil bitsets inside it. The source would fault on them, not return an error.
- The shared bitset pointers between the config and oper records in `Init` (`:97`) are not modelled. Only the stored copies matter to later calls.
- Concurrency is not modelled, because calls are assumed to come from a single caller. The source has no locking, so two concurrent `Allocate` calls could hand out the same pair.
- Pair ids are unbounded `nat`s. Go's 64-bit `uint` limit is not modelled. Neither is the memory the bitset allocates when `Set` grows a pool to a huge index, nor the wrap of `i + 1` at the largest `uint`.
- Error message texts are replaced by one `Error` tag per path.
- AllocationRuns.AllocateMany: covers only runs in which every write succeeds. A failed write leaves the store unchanged (`VxlanResource.Allocate`).
- `netctl/commands.go` is not part of this model. It holds command-line flag and command tables, with no allocation logic.
