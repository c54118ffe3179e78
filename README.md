# RISC-V direct-branch linking (mambo-v `dispatcher_riscv.c`)

This project models the direct-branch linker of the mambo-v dynamic binary
modification engine on RISC-V, and proves properties of that model. When a
cached basic block leaves through an exit stub, the stub traps into the
dispatcher. `dispatcher_riscv` then does three things:

- it overwrites the stub in place with direct `JAL`s to the target block's
  code-cache address (plus 8 bytes, to jump over the pops of x10 and x11);
- it records in the block's metadata which arms are now linked;
- it flushes the instruction cache over the patched bytes.

For a conditional exit, the first trap installs a short "skip" branch over
the first NOP of the stub. That branch comes from `insert_cond_exit_branch`.

Files:

- `dbm_types.dfy` (module `DbmTypes`) holds the shared types:
  - the exit kinds;
  - the `code_cache_meta` record;
  - the link-status word as its three flag bits, and bitwise or on it;
  - the two build switches (`DBM_LINK_UNCOND_IMM`, `DBM_LINK_COND_IMM`);
  - the flushed-range record.
- `encoding.dfy` (module `Encoding`) holds the code cache as a sequence of
  16-bit slots, with the laws of writing a sequence of instructions into it.
  Each symbolic 4-byte instruction fills a low and a high halfword.
- `dispatcher_riscv.dfy` (module `DispatcherRiscv`) holds the two C functions
  in two forms:
  - pure functions, `InsertEffect` and `DispatchEffect`, that say what one call
    writes, which status it leaves and which range it flushes. The flushed
    range is the corrected one (see Findings); the range the code flushes is
    `CondFlushAsWritten`;
  - the class `Thread`, whose methods work on the arrays `cache` and
    `codeCacheMeta` and a log of flushed ranges. They walk the C code's cursor
    steps, with one exception: `LinkArms` moves the cursor past the eager
    `JAL`, so its flush is the corrected one. Each method is proved to have
    exactly the effect the function gives.
- `dispatcher_properties.dfy` (module `DispatcherProperties`) states what one
  call promises, case by case:
  - the stub it leaves, including what decodes where;
  - where its writes lie, and what its flush covers;
  - how the link status evolves;
  - when it spins.
- `link_traces.dfy` (module `LinkTraces`) looks at sequences of traps of one
  exit:
  - the status only gains bits, as long as every trap is of the kind stored
    for the exit (an unconditional trap of an exit stored as conditional
    assigns `BRANCH_LINKED` and so can clear a bit);
  - a conditional exit trapped on both arms ends fully linked;
  - a repeated later trap is idempotent.

## Model

| member | source | states |
|---|---|---|
| DispatcherRiscv.InsertEffect | arch/riscv/dispatcher_riscv.c:15-53 | For an unconditional (immediate or register) exit there are no writes and the cursor is unchanged. For a conditional exit there is exactly one conditional branch at the cursor, and its target is the slot after the advanced cursor: it skips exactly the next 4-byte slot. The cursor advances by 2 halfwords. Any other stored kind never returns. |
| DispatcherRiscv.SkipCondition | arch/riscv/dispatcher_riscv.c:116-119 | The skip branch tests the stored registers. Its comparison code is `invert_cond` of the stored one exactly when the taken arm trapped, and the stored one otherwise. |
| DispatcherRiscv.DispatchEffect | arch/riscv/dispatcher_riscv.c:55-198 | The definition of one call that `DispatcherRiscv.Thread.Dispatch` is proved equal to. Its contract states that the call links nothing exactly when the trapped kind is neither an unconditional immediate exit with its switch on nor a conditional one with its switch on. On a first conditional trap with an eager link its flush is the corrected range, see Findings. |
| DispatcherRiscv.UncondImmEffect | arch/riscv/dispatcher_riscv.c:68-98 | The definition that `DispatcherRiscv.Thread.LinkUncondImm` is proved equal to: exactly one write, `JAL block_address+8` at the exit, the status `BRANCH_LINKED`, and a flush that starts at the exit and covers that `JAL`. |
| DispatcherRiscv.CondEffect | arch/riscv/dispatcher_riscv.c:101-195 | The definition of the conditional case that `DispatcherRiscv.Thread.LinkCondImm` is proved equal to. Its contract states that it spins if and only if the trap is a first one and the stored kind is unknown. |
| DispatcherRiscv.ArmWrites | arch/riscv/dispatcher_riscv.c:156-188 | The arm `JAL`s that `DispatcherRiscv.Thread.LinkArms` is proved to write: two in the eager case, one otherwise. |
| DispatcherRiscv.ArmsStatus | arch/riscv/dispatcher_riscv.c:159-190 | The status after the arm `JAL`s keeps every bit it had, and holds `BOTH_LINKED` if and only if it held it before or the other arm is linked eagerly. |
| DispatcherRiscv.ArmsFlush | arch/riscv/dispatcher_riscv.c:192-194 | The flush starts at the exit and ends 4 bytes past the cursor, or 8 bytes past it in the eager case. The 8 bytes reach past the eager `JAL`: this is the corrected range, see Findings. |
| DispatcherRiscv.ArmsEffect | arch/riscv/dispatcher_riscv.c:156-194 | The definition that `DispatcherRiscv.Thread.LinkArms` is proved equal to. It always links, with the earlier writes followed by one arm `JAL`, or two in the eager case. |
| DispatcherRiscv.WithStatus | arch/riscv/dispatcher_riscv.c:97-189 | Setting the status of entry `i` keeps the table's length and replaces only the status field of that entry. |
| Encoding.WriteInsn | arch/riscv/dispatcher_riscv.c:156 | Writing one instruction keeps the cache's length, and the instruction decodes at the slot afterwards. |
| Encoding.ApplyWrites | arch/riscv/dispatcher_riscv.c:120-188 | The writes of one call, made in order on the cache, keep the cache's length. |
| DispatcherRiscv.Thread.InsertCondExitBranch | arch/riscv/dispatcher_riscv.c:15-53 | Writes through a temporary cursor and returns the advanced cursor. The cache afterwards is exactly the cache with `InsertEffect`'s writes applied. On an unknown kind it reports that it spins, and the cache is untouched. |
| DispatcherRiscv.Thread.Dispatch | arch/riscv/dispatcher_riscv.c:55-198 | After the call, the cache, the metadata table and the flush log are exactly what `DispatchEffect` gives. Only the status of entry `source_index` changes in the table. When nothing is linked, or the call spins, nothing changes. |
| DispatcherRiscv.Thread.LinkUncondImm | arch/riscv/dispatcher_riscv.c:68-98 | Writes one `JAL` at the exit, flushes 9 bytes from it, and sets the status to `BRANCH_LINKED`. |
| DispatcherRiscv.Thread.LinkCondImm | arch/riscv/dispatcher_riscv.c:101-195 | The conditional case, with the cache, metadata and log exactly as `CondEffect` gives them. It spins only when `insert_cond_exit_branch` does. |
| DispatcherRiscv.Thread.FirstCondTrap | arch/riscv/dispatcher_riscv.c:102-124 | Looks up the other arm through `cc_lookup` and tests it against `UINT_MAX`. Inverts the comparison of a copy of the stored condition exactly when the taken arm trapped. Installs the skip branch and sets the status to the observed arm's bit. |
| DispatcherRiscv.Thread.LinkFirstCondTrap | arch/riscv/dispatcher_riscv.c:106-194 | On a first trap, the cache holds the skip branch followed by the arm `JAL`s, and the status is the observed arm's bit, or-ed with `BOTH_LINKED` exactly when the other arm is cached. |
| DispatcherRiscv.Thread.LinkLaterCondTrap | arch/riscv/dispatcher_riscv.c:125-129 | On a later trap, the cursor is at halfword offset 4 and the status gains `BOTH_LINKED` by or. One `JAL` is written at offset 4. |
| DispatcherRiscv.Thread.LinkArms | arch/riscv/dispatcher_riscv.c:156-194 | Writes the `JAL` to the trapping block at the cursor, plus the eager `JAL` to the other arm right after it when that arm is cached, adding `BOTH_LINKED` in that case. Then flushes from the exit to just past the last `JAL`; this is the corrected range, see Findings. |
| DispatcherRiscv.Thread.CcBranch | arch/riscv/dispatcher_riscv.c:95 | One `JAL` is written at the slot, and nothing else changes. |
| DispatcherRiscv.Thread.BCondHelper | arch/riscv/dispatcher_riscv.c:44 | One conditional branch is written at the slot, and the cursor past it is returned. |
| DispatcherRiscv.Thread.ClearCache | arch/riscv/dispatcher_riscv.c:96 | The flushed range is appended to the log. |
| DispatcherRiscv.Thread.SetStatus | arch/riscv/dispatcher_riscv.c:97 | Only the status of entry `i` changes. |
| DispatcherRiscv.CondEffectOnFirstTrap | arch/riscv/dispatcher_riscv.c:106-124 | On a first trap, the conditional effect is the skip branch's writes followed by the arm `JAL`s, or a spin when the stored kind is unknown. |
| DispatcherRiscv.CondFlushAsWritten | arch/riscv/dispatcher_riscv.c:45-194 | The flush as the code computes it starts at the exit. It is 12 bytes long on a later trap. On a first trap it is 8 bytes long for an exit stored as conditional and 4 bytes for one stored as unconditional, whether or not the eager `JAL` was written. |
| DispatcherRiscv.WithStatusTwice | arch/riscv/dispatcher_riscv.c:123-128 | Setting the status twice is the same as setting the second value. |
| Encoding.WriteInsnFrame | arch/riscv/dispatcher_riscv.c:156 | Writing one instruction leaves every slot other than its two unchanged. |
| Encoding.WriteInsnTwice | arch/riscv/dispatcher_riscv.c:156 | Writing the same instruction twice at the same slot is the same as writing it once. |
| Encoding.ApplyWritesAppend | arch/riscv/dispatcher_riscv.c:120-188 | Making two lists of writes one after the other is the same as making their concatenation. |
| Encoding.ApplyWritesOutside | arch/riscv/dispatcher_riscv.c:156-188 | Writes confined to a range of slots leave every slot outside that range unchanged. |
| Encoding.ApplyWritesDecodes | arch/riscv/dispatcher_riscv.c:156-188 | When writes fit in the cache and do not overlap, every one of them decodes afterwards. |
| DispatcherProperties.DispatchStaysInWindow | arch/riscv/dispatcher_riscv.c:64-190 | Every write of a call lies in the 6-halfword patch window that starts at `exit_branch_addr`, and no two writes overlap. |
| DispatcherProperties.DispatchFlushCoversWrites | arch/riscv/dispatcher_riscv.c:96-194 | A linking call writes something, and its flush starts at the exit and covers every written slot. For a conditional exit the flush ends exactly one slot past the last `JAL`. |
| DispatcherProperties.DispatchOutcome | arch/riscv/dispatcher_riscv.c:49-197 | A call spins if and only if a conditional exit traps for the first time with an unknown stored kind. It links nothing if and only if the trapped kind is unhandled or its switch is off. |
| DispatcherProperties.UncondImmStub | arch/riscv/dispatcher_riscv.c:68-98 | An unconditional immediate exit ends with `JAL block_address+8` decoding at the exit and the status `BRANCH_LINKED`. The flush is 9 bytes from the exit, and every other slot is unchanged. |
| DispatcherProperties.FirstTrapStub | arch/riscv/dispatcher_riscv.c:102-194 | On a first conditional trap, three things decode. The skip branch is at the exit: it tests the stored registers, its comparison is inverted if and only if the taken arm trapped, and it targets offset 4. `JAL block_address+8` is at offset 2. When the other arm is cached, `JAL other_target+8` is at offset 4. The status is the arm bit, plus `BOTH_LINKED` exactly in the eager case. The flush ends just past the last `JAL` (the corrected range, see Findings), and no slot beyond it changes. |
| DispatcherProperties.FirstTrapWrites | arch/riscv/dispatcher_riscv.c:102-194 | On a first conditional trap, the writes, status and flush, written out as values. The flush ends just past the last `JAL` (the corrected range, see Findings). |
| DispatcherProperties.LaterTrapStub | arch/riscv/dispatcher_riscv.c:125-194 | On a later conditional trap, exactly one write is made, `JAL block_address+8` at offset 4; the skip branch is not rewritten. The status gains `BOTH_LINKED`, 6 halfwords are flushed, and every other slot is unchanged. |
| DispatcherProperties.DispatchKeepsStatus | arch/riscv/dispatcher_riscv.c:97-189 | When the trapped kind is the stored one and the status is one the dispatcher can have left, the call does not spin. The new status is again such a status, and it keeps every bit the old one had. |
| DispatcherProperties.FlushAsWrittenMissesEagerJal | arch/riscv/dispatcher_riscv.c:156-194 | On a first trap with an eager link, whatever returning kind the exit is stored as, the last write is `JAL other_target+8`. The code's flush range ends at or before it, while the corrected range covers it. |
| DispatcherProperties.FlushAsWrittenAgreesWithoutEagerLink | arch/riscv/dispatcher_riscv.c:156-194 | Without an eager link, whatever returning kind the exit is stored as, the code's flush range and the corrected one are equal. |
| LinkTraces.Step | arch/riscv/dispatcher_riscv.c:55-198 | One call as a step on the cache, the table and the flush log. It keeps their lengths and changes no field of the entry except its status. |
| LinkTraces.Run | arch/riscv/dispatcher_riscv.c:55-198 | A sequence of traps of one exit keeps the lengths and the exit's address. |
| LinkTraces.StepKeepsStatus | arch/riscv/dispatcher_riscv.c:97-189 | A step whose trap agrees with the stored kind returns, keeps the status reachable, and keeps its bits. |
| LinkTraces.RunKeepsStatus | arch/riscv/dispatcher_riscv.c:97-189 | Over any run of traps agreeing with the stored kind, the dispatcher never spins, the status stays reachable, and no bit set at the start is ever cleared. |
| LinkTraces.FirstTrapStep | arch/riscv/dispatcher_riscv.c:106-194 | A first conditional trap without an eager link, as a step: the status becomes the arm bit, and 4 halfwords are flushed. |
| LinkTraces.LaterTrapStep | arch/riscv/dispatcher_riscv.c:125-194 | A later conditional trap, as a step: one `JAL` at offset 4, `BOTH_LINKED` added, and 6 halfwords flushed. |
| LinkTraces.RunTwo | arch/riscv/dispatcher_riscv.c:55-198 | Two traps in a row are the second step applied to the first step's result. |
| LinkTraces.BothArmsRun | arch/riscv/dispatcher_riscv.c:101-195 | A first trap on one arm, with the other arm not cached, followed by a trap on the other arm. The resulting state is the first trap's cache with `JAL` at offset 4, the status arm bit or-ed with `BOTH_LINKED`, and the two flushes. |
| LinkTraces.ThirdJal | arch/riscv/dispatcher_riscv.c:126-156 | Adding the `JAL` at offset 4 to a stub holding the skip branch and the first `JAL` keeps both of those, and changes nothing outside the window. |
| LinkTraces.BothArmsLinkedCache | arch/riscv/dispatcher_riscv.c:101-195 | After traps on both arms, the skip branch, the `JAL` to the first block and the `JAL` to the second block all decode, and nothing outside the patch window has changed. |
| LinkTraces.BothArmsLinkedState | arch/riscv/dispatcher_riscv.c:101-195 | After traps on both arms, the status is the first arm's bit with `BOTH_LINKED`, and the flushes cover 4 and then 6 halfwords from the exit. |
| LinkTraces.LaterTrapTwiceCache | arch/riscv/dispatcher_riscv.c:125-157 | A second identical later trap writes the same `JAL` at offset 4 over itself, so the cache is the one the first trap left. |
| LinkTraces.LaterTrapTwiceState | arch/riscv/dispatcher_riscv.c:125-194 | A second identical later trap ors `BOTH_LINKED` into a status that already holds it, so the table is unchanged, and it flushes the same range once more. |
| LinkTraces.LaterTrapIdempotent | arch/riscv/dispatcher_riscv.c:125-157 | A second identical later trap leaves the cache and the table as the first one did, and only repeats the flush. |

## Left out

- DispatcherRiscv.Thread.Dispatch, DispatcherRiscv.Thread.LinkCondImm, DispatcherRiscv.Thread.LinkFirstCondTrap, DispatcherRiscv.Thread.LinkArms, DispatcherRiscv.DispatchEffect: on a first conditional trap that links the other arm eagerly, these flush from the exit to just past the eager `JAL`. The code at arch/riscv/dispatcher_riscv.c:188-194 ends its range at the eager `JAL`, because it does not advance `branch_addr` past it. The model's range is therefore 4 bytes longer than the code's: 12 bytes against 8 for an exit stored as conditional, and 8 bytes against 4 for one stored as unconditional (whose conditional trap writes no skip branch). The code's range is `DispatcherRiscv.CondFlushAsWritten`, and `DispatcherProperties.FlushAsWrittenMissesEagerJal` relates the two for every stored kind that returns. Every other case flushes exactly what the code flushes (`DispatcherProperties.FlushAsWrittenAgreesWithoutEagerLink`).
- The encoders `riscv_cc_branch` and `riscv_b_cond_helper` (pie-riscv-encoder.h) are not part of this model. An instruction is a symbolic value that fills two halfword slots; bit layouts, immediate ranges and encodability are not modelled.
- `cc_lookup` and `invert_cond` are parameters of type `int -> int`, taken as they answer at the call. Nothing is assumed about them, for example that `invert_cond` is an involution.
- `__clear_cache` only appends its range to a ghost log. Instruction-fetch semantics, cache coherency and concurrent threads are not modelled.
- The `while(1)` after an unknown exit kind is a `spins` result or a `Spins` effect, not a loop. The `fprintf` message and the `debug` output are left out.
- The link-status word is modelled as its three flag bits (fall-through linked, taken linked, both linked) with a bitwise or. The numeric values of the flags come from dbm.h, which is not part of this model; the code only compares the word with 0, assigns single flags to it and ors flags into it.
- `UINT_MAX` is the "not cached" sentinel of `cc_lookup`, and addresses are unbounded integers. The 64-bit width of `uintptr_t`, its comparison with a 32-bit `UINT_MAX`, and wrap-around of `block_address + 8` are not modelled.
- Executing a patched stub is not modelled. The properties state what decodes where, not where a jump lands at run time.
- `insert_cond_exit_branch` switches on the exit kind stored in the metadata, not on the kind the dispatcher was called with. The model keeps this: a conditional trap of an exit stored as unconditional writes no skip branch.
- A stub is assumed to lie inside the cache, and its entry inside the table. `Thread.Dispatch`, `Thread.LinkUncondImm`, `Thread.LinkCondImm`, `Thread.LinkFirstCondTrap`, `Thread.LinkLaterCondTrap` and `Thread.FirstCondTrap` require the 6-halfword patch window at `exit_branch_addr` to fit in the array. `Thread.LinkArms`, `Thread.CcBranch`, `Thread.BCondHelper` and `Thread.InsertCondExitBranch` require only the slots they write to fit. Those six methods and `Thread.LinkArms` also require `source_index` to be an index of `codeCacheMeta`, and `Thread.SetStatus` requires the same of its index. The code checks none of this: line 64 reads `code_cache_meta[source_index]` without a bound check, and out of range the code would read or write outside the buffers.

## Findings

| source | as written | input that shows it | evidently intended | confidence | as-written member | corrected member |
|---|---|---|---|---|---|---|
| arch/riscv/dispatcher_riscv.c:188-194 | On a first conditional trap whose other arm is cached, the eager `JAL` is written at `branch_addr`, and `branch_addr` is not advanced past it. `__clear_cache` then ends at `branch_addr`, so the flushed range stops before the eager `JAL`: 8 bytes for an exit stored as conditional, 4 for one stored as unconditional. | A first trap (status 0) of a conditional exit where `cc_lookup` of the other arm returns an address other than `UINT_MAX`. | The flush ends just past the last instruction written, 4 bytes further: 12 bytes from the exit for an exit stored as conditional, as on a later trap. | medium; not executed | DispatcherProperties.FlushAsWrittenMissesEagerJal | DispatcherProperties.DispatchFlushCoversWrites |
