/** Direct-branch linking on RISC-V: the skip branch over the first NOP of a
    conditional exit stub, and the dispatcher step that patches a trapped exit
    stub with direct `JAL`s, updates the exit's link status and flushes the
    instruction cache over the patched range.

    The pure functions `InsertEffect` and `DispatchEffect` say what one call
    writes, which status it leaves and which range it flushes; the methods of
    `Thread` do the same work step by step on the code cache and the metadata
    table and are proved to have exactly that effect. */
module DispatcherRiscv {
  import opened DbmTypes
  import opened Encoding

  /** Halfword slots of an exit stub the dispatcher may overwrite: the skip
      branch (or first NOP), the second NOP and the `PUSH` that follows them. */
  const PATCH_WINDOW: nat := 6

  /** Bytes added to a block's cache address by every `JAL` the dispatcher
      writes: they jump over the pops of x10 and x11 at the block's start. */
  const POP_SKIP: int := 8

  /** Effect of `insert_cond_exit_branch`: the writes it makes and the new
      value of the caller's cursor, or `NeverReturns` when it never returns. */
  datatype InsertResult = Inserted(writes: seq<Write>, writeP: nat) | NeverReturns

  /** Effect of one dispatcher call: the writes made to the code cache, the new
      link status and the flushed range; `NoLink` when nothing is patched;
      `Spins` when the call never returns. */
  datatype Effect = Link(writes: seq<Write>, status: LinkStatus, flush: FlushRange) | NoLink | Spins

  /** What `insert_cond_exit_branch` does for an exit stored as `kind` with the
      cursor at `writeP`: nothing for an unconditional exit; for a conditional
      exit one conditional branch at the cursor that skips exactly the 4-byte
      slot at the advanced cursor; it never returns for any other kind. */
  function InsertEffect(kind: ExitType, base: int, writeP: nat, cond: MamboCond): (r: InsertResult)
    ensures (kind.UncondImm? || kind.UncondReg?) <==> r == Inserted([], writeP)
    ensures kind.CondImm? <==> r.Inserted? && |r.writes| == 1
    ensures kind.CondImm? ==>
      && r.writeP == writeP + INSN_HALFWORDS
      && r.writes[0] == Write(writeP, BCond(cond, ByteAddr(base, r.writeP + INSN_HALFWORDS)))
    ensures kind.UnknownExit? <==> r.NeverReturns?
  {
    match kind
    case UncondImm => Inserted([], writeP)
    case UncondReg => Inserted([], writeP)
    case CondImm => Inserted([Write(writeP, BCond(cond, ByteAddr(base, writeP) + 8))], writeP + 2)
    case UnknownExit(_) => NeverReturns
  }

  /** The condition of the skip branch: a copy of the stored condition whose
      comparison code is inverted when the taken arm is being linked. */
  function SkipCondition(stored: MamboCond, isTaken: bool, invertCond: int -> int): (c: MamboCond)
    ensures c.r1 == stored.r1 && c.r2 == stored.r2
    ensures c.cond == if isTaken then invertCond(stored.cond) else stored.cond
  {
    if isTaken then stored.(cond := invertCond(stored.cond)) else stored
  }

  /** What `dispatcher_riscv` does when the exit `m` traps with the runtime
      `target`, the trapping block at cache address `blockAddress`, and the
      cache lookup and condition inversion given as functions. */
  function DispatchEffect(cfg: LinkConfig, m: CodeCacheMeta, base: int, exitType: ExitType,
                          target: int, blockAddress: int,
                          ccLookup: int -> int, invertCond: int -> int): (r: Effect)
    ensures r.NoLink? <==> !((exitType.UncondImm? && cfg.linkUncondImm) || (exitType.CondImm? && cfg.linkCondImm))
  {
    match exitType
    case UncondImm =>
      if cfg.linkUncondImm then UncondImmEffect(m, base, blockAddress) else NoLink
    case CondImm =>
      if cfg.linkCondImm then CondEffect(m, base, target, blockAddress, ccLookup, invertCond)
      else NoLink
    case _ => NoLink
  }

  /** The unconditional-immediate part of `DispatchEffect`: one `JAL` over
      the first NOP of the stub and the exit marked as linked. */
  function UncondImmEffect(m: CodeCacheMeta, base: int, blockAddress: int): (r: Effect)
    ensures r.Link? && r.status == BRANCH_LINKED && |r.writes| == 1
    ensures r.writes[0].at == m.exitBranchAddr && r.writes[0].insn == Jal(blockAddress + POP_SKIP)
    ensures r.flush.start == ByteAddr(base, m.exitBranchAddr)
    ensures ByteAddr(base, m.exitBranchAddr + INSN_HALFWORDS) <= r.flush.end
  {
    var start := ByteAddr(base, m.exitBranchAddr);
    Link([Write(m.exitBranchAddr, Jal(blockAddress + POP_SKIP))], BRANCH_LINKED,
         FlushRange(start, start + 8 + 1))
  }

  /** The conditional-exit part of `DispatchEffect`. On the first trap (status
      0) the skip branch is installed, the observed arm is linked in the next
      slot, and the other arm too when the cache already holds it; on a later
      trap one `JAL` is written at halfword offset 4. The flush ends just past
      the last instruction written. */
  function CondEffect(m: CodeCacheMeta, base: int, target: int, blockAddress: int,
                      ccLookup: int -> int, invertCond: int -> int): (r: Effect)
    ensures r.Spins? <==> m.branchCacheStatus == NOT_LINKED && m.exitBranchType.UnknownExit?
  {
    var isTaken := target == m.branchTakenAddr;
    if m.branchCacheStatus == NOT_LINKED then
      var other := ccLookup(if isTaken then m.branchSkippedAddr else m.branchTakenAddr);
      match InsertEffect(m.exitBranchType, base, m.exitBranchAddr,
                         SkipCondition(m.branchCondition, isTaken, invertCond))
      case NeverReturns => Spins
      case Inserted(skip, p) =>
        ArmsEffect(m.exitBranchAddr, base, skip, p, ArmBit(isTaken),
                   blockAddress, other != UINT_MAX, other)
    else
      ArmsEffect(m.exitBranchAddr, base, [], m.exitBranchAddr + 4, Or(m.branchCacheStatus, BOTH_LINKED),
                 blockAddress, false, 0)
  }

  /** The status bit a first trap records for the observed arm: the taken
      arm when `isTaken`, the fall-through arm otherwise. */
  function ArmBit(isTaken: bool): LinkStatus
  {
    if isTaken then BRANCH_LINKED else FALLTHROUGH_LINKED
  }

  /** The `JAL`s the conditional case writes from the cursor `p` on: one to
      the trapping block, and one to the other arm when that one is cached. */
  function ArmWrites(p: nat, blockAddress: int, eager: bool, other: int): (ws: seq<Write>)
    ensures |ws| == if eager then 2 else 1
  {
    [Write(p, Jal(blockAddress + POP_SKIP))] + (if eager then [Write(p + 2, Jal(other + POP_SKIP))] else [])
  }

  /** The link status after the arm `JAL`s: `BOTH_LINKED` is added when the
      other arm is linked eagerly. */
  function ArmsStatus(status: LinkStatus, eager: bool): (s: LinkStatus)
    ensures KeepsBits(status, s) && (s.both <==> status.both || eager)
  {
    if eager then Or(status, BOTH_LINKED) else status
  }

  /** The range flushed after the arm `JAL`s: from the exit to just past the
      last `JAL` written from the cursor `p`. */
  function ArmsFlush(base: int, exit: nat, p: nat, eager: bool): (f: FlushRange)
    ensures f.start == ByteAddr(base, exit)
    ensures f.end - ByteAddr(base, p) == if eager then 8 else 4
  {
    FlushRange(ByteAddr(base, exit), ByteAddr(base, p + (if eager then 2 else 1) * INSN_HALFWORDS))
  }

  /** The effect of a conditional trap after the writes `before`, with the
      cursor at `p` and the status so far `status`. */
  function ArmsEffect(exit: nat, base: int, before: seq<Write>, p: nat, status: LinkStatus,
                      blockAddress: int, eager: bool, other: int): (r: Effect)
    ensures r.Link? && |r.writes| == |before| + (if eager then 2 else 1)
    ensures r.flush.start == ByteAddr(base, exit)
  {
    Link(before + ArmWrites(p, blockAddress, eager, other), ArmsStatus(status, eager), ArmsFlush(base, exit, p, eager))
  }

  /** The range dispatcher_riscv.c passes to `__clear_cache` on a conditional
      trap that returns, as the code is written. It ends at the cursor left
      after the `JAL` to the trapping block: on a first trap the skip branch
      moves the cursor by one instruction when the exit is stored as
      conditional and by none otherwise, on a later trap the cursor starts at
      halfword offset 4, and the `JAL` moves it by one instruction. The eager
      `JAL` to the other arm is written at that cursor without advancing it. */
  function CondFlushAsWritten(m: CodeCacheMeta, base: int): (f: FlushRange)
    requires m.branchCacheStatus == NOT_LINKED ==> !m.exitBranchType.UnknownExit?
    ensures f.start == ByteAddr(base, m.exitBranchAddr)
    ensures f.end - f.start ==
      if m.branchCacheStatus != NOT_LINKED then 12 else if m.exitBranchType.CondImm? then 8 else 4
  {
    var exit := m.exitBranchAddr;
    var skip := if m.exitBranchType.CondImm? then 2 else 0;
    var cursor := if m.branchCacheStatus == NOT_LINKED then exit + skip + 2 else exit + 4 + 2;
    FlushRange(ByteAddr(base, exit), ByteAddr(base, cursor))
  }

  /** On a first trap, `CondEffect` is the skip branch followed by the arm
      `JAL`s, with the status and flush of `ArmsEffect`, or `Spins` when the
      stored exit kind is unknown. */
  lemma CondEffectOnFirstTrap(m: CodeCacheMeta, base: int, target: int, blockAddress: int,
                              ccLookup: int -> int, invertCond: int -> int)
    requires m.branchCacheStatus == NOT_LINKED
    ensures var isTaken := target == m.branchTakenAddr;
      var other := ccLookup(if isTaken then m.branchSkippedAddr else m.branchTakenAddr);
      var ins := InsertEffect(m.exitBranchType, base, m.exitBranchAddr,
                              SkipCondition(m.branchCondition, isTaken, invertCond));
      && (ins.NeverReturns? ==> CondEffect(m, base, target, blockAddress, ccLookup, invertCond) == Spins)
      && (ins.Inserted? ==>
            CondEffect(m, base, target, blockAddress, ccLookup, invertCond) ==
            Link(ins.writes + ArmWrites(ins.writeP, blockAddress, other != UINT_MAX, other),
                 ArmsStatus(ArmBit(isTaken), other != UINT_MAX),
                 ArmsFlush(base, m.exitBranchAddr, ins.writeP, other != UINT_MAX)))
  {
  }

  /** The metadata table `ms` with the link status of entry `i` set to
      `status`; every other field and every other entry is kept. */
  function WithStatus(ms: seq<CodeCacheMeta>, i: nat, status: LinkStatus): (r: seq<CodeCacheMeta>)
    requires i < |ms|
    ensures |r| == |ms| && r[i] == ms[i].(branchCacheStatus := status)
  {
    ms[i := ms[i].(branchCacheStatus := status)]
  }

  /** Setting a status twice is setting the second one. */
  lemma WithStatusTwice(ms: seq<CodeCacheMeta>, i: nat, a: LinkStatus, b: LinkStatus)
    requires i < |ms|
    ensures WithStatus(WithStatus(ms, i, a), i, b) == WithStatus(ms, i, b)
  {
    assert WithStatus(ms, i, a)[i].(branchCacheStatus := b) == ms[i].(branchCacheStatus := b);
  }

  /** The per-thread state the dispatcher works on: the code cache as halfword
      slots starting at byte address `cacheBase`, the metadata table, and a log
      of every range handed to `__clear_cache`. */
  class Thread {
    const cacheBase: int
    const cache: array<Half>
    const codeCacheMeta: array<CodeCacheMeta>
    ghost var flushLog: seq<FlushRange>

    constructor (base: int, code: seq<Half>, meta: seq<CodeCacheMeta>)
      ensures cacheBase == base && cache[..] == code && codeCacheMeta[..] == meta
      ensures fresh(cache) && fresh(codeCacheMeta) && flushLog == []
    {
      cacheBase := base;
      cache := new Half[|code|](i requires 0 <= i < |code| => code[i]);
      codeCacheMeta := new CodeCacheMeta[|meta|](i requires 0 <= i < |meta| => meta[i]);
      flushLog := [];
    }

    /** `riscv_cc_branch`: one `JAL` to `dest` at slot `p`. */
    method CcBranch(p: nat, dest: int)
      requires p + 1 < cache.Length
      modifies cache
      ensures cache[..] == WriteInsn(old(cache[..]), p, Jal(dest))
    {
      cache[p] := Lo(Jal(dest));
      cache[p + 1] := Hi(Jal(dest));
    }

    /** `riscv_b_cond_helper`: one conditional branch to `dest` at slot `p`;
        returns the cursor past it. */
    method BCondHelper(p: nat, dest: int, cond: MamboCond) returns (next: nat)
      requires p + 1 < cache.Length
      modifies cache
      ensures cache[..] == WriteInsn(old(cache[..]), p, BCond(cond, dest))
      ensures next == p + INSN_HALFWORDS
    {
      cache[p] := Lo(BCond(cond, dest));
      cache[p + 1] := Hi(BCond(cond, dest));
      next := p + 2;
    }

    /** `__clear_cache`: only the range is recorded. */
    method ClearCache(start: int, end: int)
      modifies this`flushLog
      ensures flushLog == old(flushLog) + [FlushRange(start, end)]
    {
      flushLog := flushLog + [FlushRange(start, end)];
    }

    /** Assigns the link status of metadata entry `i`; nothing else changes. */
    method SetStatus(i: nat, status: LinkStatus)
      requires i < codeCacheMeta.Length
      modifies codeCacheMeta
      ensures codeCacheMeta[..] == WithStatus(old(codeCacheMeta[..]), i, status)
    {
      codeCacheMeta[i] := codeCacheMeta[i].(branchCacheStatus := status);
    }

    /** `insert_cond_exit_branch`: installs the skip branch for the exit
        `bbMeta` at the cursor `writeP` and returns the advanced cursor, or
        reports that the call spins forever on an unknown exit kind. */
    method InsertCondExitBranch(bbMeta: CodeCacheMeta, writeP: nat, cond: MamboCond)
      returns (newWriteP: nat, spins: bool)
      requires writeP + INSN_HALFWORDS <= cache.Length
      modifies cache
      ensures var e := InsertEffect(bbMeta.exitBranchType, cacheBase, writeP, cond);
        && spins == e.NeverReturns?
        && (e.Inserted? ==> newWriteP == e.writeP && cache[..] == ApplyWrites(old(cache[..]), e.writes))
        && (e.NeverReturns? ==> cache[..] == old(cache[..]))
    {
      match bbMeta.exitBranchType
      case UncondImm =>
        newWriteP, spins := writeP, false;
      case UncondReg =>
        newWriteP, spins := writeP, false;
      case CondImm =>
        var writePTmp := writeP;
        writePTmp := BCondHelper(writePTmp, ByteAddr(cacheBase, writeP) + 8, cond);
        newWriteP, spins := writeP + 2, false;
        ApplyWritesSnoc(old(cache[..]), [], Write(writeP, BCond(cond, ByteAddr(cacheBase, writeP) + 8)));
      case UnknownExit(_) =>
        newWriteP, spins := writeP, true;
    }

    /** `dispatcher_riscv`: the exit of block `sourceIndex` trapped. Patches
        the exit stub, updates that exit's link status and flushes the patched
        range exactly as `DispatchEffect` says; no other metadata entry and no
        slot outside the writes changes. `spins` reports that the call never
        returns, in which case nothing has changed. */
    method Dispatch(cfg: LinkConfig, sourceIndex: nat, exitType: ExitType, target: int,
                    blockAddress: int, ccLookup: int -> int, invertCond: int -> int)
      returns (spins: bool)
      requires sourceIndex < codeCacheMeta.Length
      requires codeCacheMeta[sourceIndex].exitBranchAddr + PATCH_WINDOW <= cache.Length
      modifies cache, codeCacheMeta, this`flushLog
      ensures var m := old(codeCacheMeta[sourceIndex]);
        var e := DispatchEffect(cfg, m, cacheBase, exitType, target, blockAddress, ccLookup, invertCond);
        && spins == e.Spins?
        && (e.Link? ==>
              && cache[..] == ApplyWrites(old(cache[..]), e.writes)
              && codeCacheMeta[..] == WithStatus(old(codeCacheMeta[..]), sourceIndex, e.status)
              && flushLog == old(flushLog) + [e.flush])
        && (!e.Link? ==>
              && cache[..] == old(cache[..])
              && codeCacheMeta[..] == old(codeCacheMeta[..])
              && flushLog == old(flushLog))
    {
      spins := false;
      match exitType
      case UncondImm =>
        if cfg.linkUncondImm {
          LinkUncondImm(sourceIndex, blockAddress);
        }
      case CondImm =>
        if cfg.linkCondImm {
          spins := LinkCondImm(sourceIndex, target, blockAddress, ccLookup, invertCond);
        }
      case _ =>
    }

    /** The `uncond_imm_riscv` case of `dispatcher_riscv`. */
    method LinkUncondImm(sourceIndex: nat, blockAddress: int)
      requires sourceIndex < codeCacheMeta.Length
      requires codeCacheMeta[sourceIndex].exitBranchAddr + PATCH_WINDOW <= cache.Length
      modifies cache, codeCacheMeta, this`flushLog
      ensures var m := old(codeCacheMeta[sourceIndex]);
        var e := UncondImmEffect(m, cacheBase, blockAddress);
        && cache[..] == ApplyWrites(old(cache[..]), e.writes)
        && codeCacheMeta[..] == WithStatus(old(codeCacheMeta[..]), sourceIndex, e.status)
        && flushLog == old(flushLog) + [e.flush]
    {
      var branchAddr := codeCacheMeta[sourceIndex].exitBranchAddr;
      CcBranch(branchAddr, blockAddress + 8);
      ApplyWritesSnoc(old(cache[..]), [], Write(branchAddr, Jal(blockAddress + POP_SKIP)));
      ClearCache(ByteAddr(cacheBase, branchAddr), ByteAddr(cacheBase, branchAddr) + 8 + 1);
      SetStatus(sourceIndex, BRANCH_LINKED);
    }

    /** The `cond_imm_riscv` case of `dispatcher_riscv`. */
    method LinkCondImm(sourceIndex: nat, target: int, blockAddress: int,
                       ccLookup: int -> int, invertCond: int -> int)
      returns (spins: bool)
      requires sourceIndex < codeCacheMeta.Length
      requires codeCacheMeta[sourceIndex].exitBranchAddr + PATCH_WINDOW <= cache.Length
      modifies cache, codeCacheMeta, this`flushLog
      ensures var m := old(codeCacheMeta[sourceIndex]);
        var e := CondEffect(m, cacheBase, target, blockAddress, ccLookup, invertCond);
        && spins == e.Spins?
        && (e.Link? ==>
              && cache[..] == ApplyWrites(old(cache[..]), e.writes)
              && codeCacheMeta[..] == WithStatus(old(codeCacheMeta[..]), sourceIndex, e.status)
              && flushLog == old(flushLog) + [e.flush])
        && (!e.Link? ==>
              && cache[..] == old(cache[..])
              && codeCacheMeta[..] == old(codeCacheMeta[..])
              && flushLog == old(flushLog))
    {
      if codeCacheMeta[sourceIndex].branchCacheStatus == NOT_LINKED {
        CondEffectOnFirstTrap(codeCacheMeta[sourceIndex], cacheBase, target, blockAddress, ccLookup, invertCond);
        spins := LinkFirstCondTrap(sourceIndex, target, blockAddress, ccLookup, invertCond);
      } else {
        spins := false;
        LinkLaterCondTrap(sourceIndex, blockAddress);
      }
    }

    /** A conditional exit trapping for the first time (status 0): the skip
        branch, then the arm `JAL`s, as `ArmsEffect` after `InsertEffect`. */
    method LinkFirstCondTrap(sourceIndex: nat, target: int, blockAddress: int,
                             ccLookup: int -> int, invertCond: int -> int)
      returns (spins: bool)
      requires sourceIndex < codeCacheMeta.Length
      requires codeCacheMeta[sourceIndex].exitBranchAddr + PATCH_WINDOW <= cache.Length
      modifies cache, codeCacheMeta, this`flushLog
      ensures var m := old(codeCacheMeta[sourceIndex]);
        var isTaken := target == m.branchTakenAddr;
        var other := ccLookup(if isTaken then m.branchSkippedAddr else m.branchTakenAddr);
        var ins := InsertEffect(m.exitBranchType, cacheBase, m.exitBranchAddr,
                                SkipCondition(m.branchCondition, isTaken, invertCond));
        && spins == ins.NeverReturns?
        && (ins.NeverReturns? ==>
              && cache[..] == old(cache[..])
              && codeCacheMeta[..] == old(codeCacheMeta[..])
              && flushLog == old(flushLog))
        && (ins.Inserted? ==>
              && cache[..] == ApplyWrites(old(cache[..]),
                                          ins.writes + ArmWrites(ins.writeP, blockAddress, other != UINT_MAX, other))
              && codeCacheMeta[..] == WithStatus(old(codeCacheMeta[..]), sourceIndex,
                                                 ArmsStatus(ArmBit(isTaken),
                                                            other != UINT_MAX))
              && flushLog == old(flushLog) + [ArmsFlush(cacheBase, m.exitBranchAddr, ins.writeP, other != UINT_MAX)])
    {
      ghost var m := codeCacheMeta[sourceIndex];
      ghost var isTaken := target == m.branchTakenAddr;
      ghost var ins := InsertEffect(m.exitBranchType, cacheBase, m.exitBranchAddr,
                                    SkipCondition(m.branchCondition, isTaken, invertCond));
      var branchAddr, otherTargetInCache, otherTarget;
      branchAddr, otherTargetInCache, otherTarget, spins := FirstCondTrap(sourceIndex, target, ccLookup, invertCond);
      if spins {
        return;
      }
      ghost var st0 := ArmBit(isTaken);
      ghost var arms := ArmWrites(branchAddr, blockAddress, otherTargetInCache, otherTarget);
      LinkArms(sourceIndex, branchAddr, blockAddress, otherTargetInCache, otherTarget);
      ApplyWritesAppend(old(cache[..]), ins.writes, arms);
      WithStatusTwice(old(codeCacheMeta[..]), sourceIndex, st0, ArmsStatus(st0, otherTargetInCache));
    }

    /** A conditional exit trapping again after one arm is linked. */
    method LinkLaterCondTrap(sourceIndex: nat, blockAddress: int)
      requires sourceIndex < codeCacheMeta.Length
      requires codeCacheMeta[sourceIndex].exitBranchAddr + PATCH_WINDOW <= cache.Length
      requires codeCacheMeta[sourceIndex].branchCacheStatus != NOT_LINKED
      modifies cache, codeCacheMeta, this`flushLog
      ensures var m := old(codeCacheMeta[sourceIndex]);
        var e := ArmsEffect(m.exitBranchAddr, cacheBase, [], m.exitBranchAddr + 4, Or(m.branchCacheStatus, BOTH_LINKED),
                            blockAddress, false, 0);
        && cache[..] == ApplyWrites(old(cache[..]), e.writes)
        && codeCacheMeta[..] == WithStatus(old(codeCacheMeta[..]), sourceIndex, e.status)
        && flushLog == old(flushLog) + [e.flush]
    {
      var branchAddr := codeCacheMeta[sourceIndex].exitBranchAddr;
      branchAddr := branchAddr + 4;
      var status := Or(codeCacheMeta[sourceIndex].branchCacheStatus, BOTH_LINKED);
      SetStatus(sourceIndex, status);
      LinkArms(sourceIndex, branchAddr, blockAddress, false, 0);
      WithStatusTwice(old(codeCacheMeta[..]), sourceIndex, status, status);
    }

    /** The first trap of a conditional exit (status 0): looks up the other
        arm, builds the skip condition from a copy of the stored condition,
        installs the skip branch and records which arm is linked. Returns the
        cursor for the next `JAL` and whether the other arm is cached. */
    method FirstCondTrap(sourceIndex: nat, target: int, ccLookup: int -> int, invertCond: int -> int)
      returns (branchAddr: nat, otherTargetInCache: bool, otherTarget: int, spins: bool)
      requires sourceIndex < codeCacheMeta.Length
      requires codeCacheMeta[sourceIndex].exitBranchAddr + PATCH_WINDOW <= cache.Length
      modifies cache, codeCacheMeta
      ensures var m := old(codeCacheMeta[sourceIndex]);
        var isTaken := target == m.branchTakenAddr;
        var ins := InsertEffect(m.exitBranchType, cacheBase, m.exitBranchAddr,
                                SkipCondition(m.branchCondition, isTaken, invertCond));
        && spins == ins.NeverReturns?
        && otherTarget == ccLookup(if isTaken then m.branchSkippedAddr else m.branchTakenAddr)
        && otherTargetInCache == (otherTarget != UINT_MAX)
        && (ins.NeverReturns? ==> cache[..] == old(cache[..]) && codeCacheMeta[..] == old(codeCacheMeta[..]))
        && (ins.Inserted? ==>
              && branchAddr == ins.writeP
              && cache[..] == ApplyWrites(old(cache[..]), ins.writes)
              && codeCacheMeta[..] == WithStatus(old(codeCacheMeta[..]), sourceIndex,
                                                 ArmBit(isTaken)))
    {
      branchAddr := codeCacheMeta[sourceIndex].exitBranchAddr;
      var isTaken := target == codeCacheMeta[sourceIndex].branchTakenAddr;
      if isTaken {
        otherTarget := codeCacheMeta[sourceIndex].branchSkippedAddr;
      } else {
        otherTarget := codeCacheMeta[sourceIndex].branchTakenAddr;
      }
      otherTarget := ccLookup(otherTarget);
      otherTargetInCache := otherTarget != UINT_MAX;
      var cond := codeCacheMeta[sourceIndex].branchCondition;
      if isTaken {
        cond := cond.(cond := invertCond(cond.cond));
      }
      branchAddr, spins := InsertCondExitBranch(codeCacheMeta[sourceIndex], branchAddr, cond);
      if spins {
        return;
      }
      SetStatus(sourceIndex, ArmBit(isTaken));
    }

    /** The tail of the `cond_imm_riscv` case: the `JAL` to the trapping block at
        the cursor, the eager `JAL` to the other arm when it is cached, the
        `BOTH_LINKED` bit in that case, and the flush of the patched range. */
    method LinkArms(sourceIndex: nat, branchAddr: nat, blockAddress: int,
                    otherTargetInCache: bool, otherTarget: int)
      requires sourceIndex < codeCacheMeta.Length
      requires branchAddr + (if otherTargetInCache then 4 else 2) <= cache.Length
      modifies cache, codeCacheMeta, this`flushLog
      ensures var m := old(codeCacheMeta[sourceIndex]);
        && cache[..] == ApplyWrites(old(cache[..]), ArmWrites(branchAddr, blockAddress, otherTargetInCache, otherTarget))
        && codeCacheMeta[..] == WithStatus(old(codeCacheMeta[..]), sourceIndex,
                                           ArmsStatus(m.branchCacheStatus, otherTargetInCache))
        && flushLog == old(flushLog) + [ArmsFlush(cacheBase, m.exitBranchAddr, branchAddr, otherTargetInCache)]
    {
      var cursor := branchAddr;
      CcBranch(cursor, blockAddress + 8);
      ApplyWritesSnoc(old(cache[..]), [], Write(cursor, Jal(blockAddress + POP_SKIP)));
      cursor := cursor + 2;
      if otherTargetInCache {
        CcBranch(cursor, otherTarget + 8);
        ApplyWritesSnoc(old(cache[..]), [Write(branchAddr, Jal(blockAddress + POP_SKIP))],
                        Write(cursor, Jal(otherTarget + POP_SKIP)));
        // The cursor is moved past the eager JAL so that the flush covers it.
        cursor := cursor + 2;
        SetStatus(sourceIndex, Or(codeCacheMeta[sourceIndex].branchCacheStatus, BOTH_LINKED));
      }
      ClearCache(ByteAddr(cacheBase, codeCacheMeta[sourceIndex].exitBranchAddr), ByteAddr(cacheBase, cursor));
    }
  }
}
