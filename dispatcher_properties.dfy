/** What one dispatcher call promises about the exit stub it patches: the
    writes stay inside the stub's patch window and do not overlap, the flush
    covers every write, each case leaves the stub and the link status it is
    meant to, the status only gains bits, and the call spins only on an
    unknown stored exit kind. Also the flush range as `dispatcher_riscv.c`
    computes it, which misses the eager `JAL` to the other arm. */
module DispatcherProperties {
  import opened DbmTypes
  import opened Encoding
  import opened DispatcherRiscv

  /** The writes lie in the patch window of the stub at `exit`, each at or
      after `exit`, and no two of them share a slot. */
  predicate InWindow(ws: seq<Write>, exit: nat)
  {
    && Disjoint(ws)
    && forall k :: 0 <= k < |ws| ==> exit <= ws[k].at && ws[k].at + INSN_HALFWORDS <= exit + PATCH_WINDOW
  }

  /** The flush starts at the exit and covers both slots of every write. */
  predicate FlushCovers(f: FlushRange, base: int, exit: nat, ws: seq<Write>)
  {
    && f.start == ByteAddr(base, exit)
    && forall k :: 0 <= k < |ws| ==>
         f.start <= ByteAddr(base, ws[k].at) && ByteAddr(base, ws[k].at + INSN_HALFWORDS) <= f.end
  }

  /** The arm `JAL`s written from a cursor lie in the window when the cursor
      leaves room for them. */
  lemma ArmWritesInWindow(exit: nat, before: seq<Write>, p: nat, blockAddress: int, eager: bool, other: int)
    requires InWindow(before, exit)
    requires forall k :: 0 <= k < |before| ==> before[k].at + INSN_HALFWORDS <= p
    requires exit <= p && p + (if eager then 4 else 2) <= exit + PATCH_WINDOW
    ensures InWindow(before + ArmWrites(p, blockAddress, eager, other), exit)
  {
    var ws := before + ArmWrites(p, blockAddress, eager, other);
    assert forall k :: |before| <= k < |ws| ==> ws[k].at == p + 2 * (k - |before|);
  }

  /** Every write of a dispatcher call lies in the patch window of the
      trapped exit, and no two writes overlap. */
  lemma {:induction false} DispatchStaysInWindow(cfg: LinkConfig, m: CodeCacheMeta, base: int, exitType: ExitType,
                                                 target: int, blockAddress: int,
                                                 ccLookup: int -> int, invertCond: int -> int)
    ensures var e := DispatchEffect(cfg, m, base, exitType, target, blockAddress, ccLookup, invertCond);
      e.Link? ==> InWindow(e.writes, m.exitBranchAddr)
  {
    var e := DispatchEffect(cfg, m, base, exitType, target, blockAddress, ccLookup, invertCond);
    var exit := m.exitBranchAddr;
    if e.Link? && exitType.CondImm? {
      var isTaken := target == m.branchTakenAddr;
      var other := ccLookup(if isTaken then m.branchSkippedAddr else m.branchTakenAddr);
      if m.branchCacheStatus == NOT_LINKED {
        CondEffectOnFirstTrap(m, base, target, blockAddress, ccLookup, invertCond);
        var ins := InsertEffect(m.exitBranchType, base, exit,
                                SkipCondition(m.branchCondition, isTaken, invertCond));
        ArmWritesInWindow(exit, ins.writes, ins.writeP, blockAddress, other != UINT_MAX, other);
      } else {
        ArmWritesInWindow(exit, [], exit + 4, blockAddress, false, 0);
      }
    }
  }

  /** The range a dispatcher call flushes starts at the exit and covers every
      instruction it writes; on a conditional exit it ends right after the
      last one. */
  lemma {:induction false} DispatchFlushCoversWrites(cfg: LinkConfig, m: CodeCacheMeta, base: int, exitType: ExitType,
                                                     target: int, blockAddress: int,
                                                     ccLookup: int -> int, invertCond: int -> int)
    ensures var e := DispatchEffect(cfg, m, base, exitType, target, blockAddress, ccLookup, invertCond);
      e.Link? ==>
        && e.writes != []
        && FlushCovers(e.flush, base, m.exitBranchAddr, e.writes)
        && (exitType.CondImm? ==> e.flush.end == ByteAddr(base, e.writes[|e.writes| - 1].at + INSN_HALFWORDS))
  {
    var e := DispatchEffect(cfg, m, base, exitType, target, blockAddress, ccLookup, invertCond);
    DispatchStaysInWindow(cfg, m, base, exitType, target, blockAddress, ccLookup, invertCond);
    if e.Link? && exitType.CondImm? {
      var exit := m.exitBranchAddr;
      var isTaken := target == m.branchTakenAddr;
      var other := ccLookup(if isTaken then m.branchSkippedAddr else m.branchTakenAddr);
      if m.branchCacheStatus == NOT_LINKED {
        CondEffectOnFirstTrap(m, base, target, blockAddress, ccLookup, invertCond);
        var ins := InsertEffect(m.exitBranchType, base, exit,
                                SkipCondition(m.branchCondition, isTaken, invertCond));
        assert e.writes[|e.writes| - 1].at == if other != UINT_MAX then ins.writeP + 2 else ins.writeP;
      }
    }
  }

  /** A dispatcher call spins exactly when a conditional exit traps for the
      first time and its stored kind is none the code knows; it links nothing
      exactly when the trapped kind is not handled or its switch is off. */
  lemma DispatchOutcome(cfg: LinkConfig, m: CodeCacheMeta, base: int, exitType: ExitType,
                        target: int, blockAddress: int, ccLookup: int -> int, invertCond: int -> int)
    ensures var e := DispatchEffect(cfg, m, base, exitType, target, blockAddress, ccLookup, invertCond);
      && (e.Spins? <==>
            exitType.CondImm? && cfg.linkCondImm && m.branchCacheStatus == NOT_LINKED && m.exitBranchType.UnknownExit?)
      && (e.NoLink? <==>
            !(exitType.UncondImm? && cfg.linkUncondImm) && !(exitType.CondImm? && cfg.linkCondImm))
  {
    if exitType.CondImm? && cfg.linkCondImm && m.branchCacheStatus == NOT_LINKED {
      CondEffectOnFirstTrap(m, base, target, blockAddress, ccLookup, invertCond);
    }
  }

  /** Linking an unconditional immediate exit: one `JAL` to the block's
      cache address plus 8 over the first NOP, the exit marked as taken-arm
      linked, nine bytes flushed from the exit, nothing else of the cache
      changed. */
  lemma UncondImmStub(cfg: LinkConfig, m: CodeCacheMeta, base: int, target: int, blockAddress: int,
                      ccLookup: int -> int, invertCond: int -> int, s: seq<Half>)
    requires cfg.linkUncondImm
    requires m.exitBranchAddr + PATCH_WINDOW <= |s|
    ensures var e := DispatchEffect(cfg, m, base, UncondImm, target, blockAddress, ccLookup, invertCond);
      var exit := m.exitBranchAddr;
      && e.Link?
      && e.status == BRANCH_LINKED
      && e.flush == FlushRange(ByteAddr(base, exit), ByteAddr(base, exit) + 9)
      && DecodesAt(ApplyWrites(s, e.writes), exit, Jal(blockAddress + POP_SKIP))
      && forall q :: 0 <= q < |s| && q != exit && q != exit + 1 ==> ApplyWrites(s, e.writes)[q] == s[q]
  {
    var w := Write(m.exitBranchAddr, Jal(blockAddress + POP_SKIP));
    assert DispatchEffect(cfg, m, base, UncondImm, target, blockAddress, ccLookup, invertCond).writes == [w];
    ApplyWritesSnoc(s, [], w);
    assert [] + [w] == [w];
    WriteInsnFrame(s, w.at, w.insn);
  }

  /** The first trap of a conditional exit stored as such: the skip branch at
      the exit, testing the stored registers with the comparison inverted
      exactly when the taken arm was observed, jumps to halfword offset 4 and
      so skips exactly the `JAL` to the observed arm at offset 2; when the
      other arm is cached, a `JAL` to it sits at offset 4 and the status gains
      `BOTH_LINKED`; the flush ends right after the last `JAL`; nothing past
      the written slots changes. */
  lemma FirstTrapStub(cfg: LinkConfig, m: CodeCacheMeta, base: int, target: int, blockAddress: int,
                      ccLookup: int -> int, invertCond: int -> int, s: seq<Half>)
    requires cfg.linkCondImm && m.exitBranchType.CondImm? && m.branchCacheStatus == NOT_LINKED
    requires m.exitBranchAddr + PATCH_WINDOW <= |s|
    ensures var e := DispatchEffect(cfg, m, base, CondImm, target, blockAddress, ccLookup, invertCond);
      var exit, c := m.exitBranchAddr, m.branchCondition;
      var isTaken := target == m.branchTakenAddr;
      var other := ccLookup(if isTaken then m.branchSkippedAddr else m.branchTakenAddr);
      var eager := other != UINT_MAX;
      var end := exit + if eager then 6 else 4;
      var r := ApplyWrites(s, e.writes);
      && e.Link?
      && e.status == ArmsStatus(ArmBit(isTaken), eager)
      && e.flush == FlushRange(ByteAddr(base, exit), ByteAddr(base, end))
      && DecodesAt(r, exit, BCond(MamboCond(c.r1, c.r2, if isTaken then invertCond(c.cond) else c.cond),
                                  ByteAddr(base, exit + 4)))
      && DecodesAt(r, exit + 2, Jal(blockAddress + POP_SKIP))
      && (eager ==> DecodesAt(r, exit + 4, Jal(other + POP_SKIP)))
      && forall q :: 0 <= q < |s| && !(exit <= q < end) ==> r[q] == s[q]
  {
    var e := DispatchEffect(cfg, m, base, CondImm, target, blockAddress, ccLookup, invertCond);
    var exit, c := m.exitBranchAddr, m.branchCondition;
    var isTaken := target == m.branchTakenAddr;
    var other := ccLookup(if isTaken then m.branchSkippedAddr else m.branchTakenAddr);
    var eager := other != UINT_MAX;
    var skip := Write(exit, BCond(MamboCond(c.r1, c.r2, if isTaken then invertCond(c.cond) else c.cond),
                                  ByteAddr(base, exit + 4)));
    FirstTrapWrites(cfg, m, base, target, blockAddress, ccLookup, invertCond);
    DispatchStaysInWindow(cfg, m, base, CondImm, target, blockAddress, ccLookup, invertCond);
    ApplyWritesOutside(s, e.writes, exit, exit + if eager then 6 else 4);
    ApplyWritesDecodes(s, e.writes);
    assert e.writes[0] == skip;
    assert e.writes[1] == Write(exit + 2, Jal(blockAddress + POP_SKIP));
    assert eager ==> e.writes[2] == Write(exit + 4, Jal(other + POP_SKIP));
  }

  /** The writes, status and flush of a first trap of a conditional exit
      stored as such, written out. */
  lemma FirstTrapWrites(cfg: LinkConfig, m: CodeCacheMeta, base: int, target: int, blockAddress: int,
                        ccLookup: int -> int, invertCond: int -> int)
    requires cfg.linkCondImm && m.exitBranchType.CondImm? && m.branchCacheStatus == NOT_LINKED
    ensures var e := DispatchEffect(cfg, m, base, CondImm, target, blockAddress, ccLookup, invertCond);
      var exit, c := m.exitBranchAddr, m.branchCondition;
      var isTaken := target == m.branchTakenAddr;
      var other := ccLookup(if isTaken then m.branchSkippedAddr else m.branchTakenAddr);
      var eager := other != UINT_MAX;
      && e.Link?
      && e.writes == [Write(exit, BCond(MamboCond(c.r1, c.r2, if isTaken then invertCond(c.cond) else c.cond),
                                        ByteAddr(base, exit + 4))),
                      Write(exit + 2, Jal(blockAddress + POP_SKIP))]
                     + (if eager then [Write(exit + 4, Jal(other + POP_SKIP))] else [])
      && e.status == ArmsStatus(ArmBit(isTaken), eager)
      && e.flush == FlushRange(ByteAddr(base, exit), ByteAddr(base, exit + if eager then 6 else 4))
  {
    CondEffectOnFirstTrap(m, base, target, blockAddress, ccLookup, invertCond);
  }

  /** A later trap of a conditional exit: one `JAL` to the trapping block at
      halfword offset 4, no new skip branch, the status gains `BOTH_LINKED`,
      six halfwords flushed from the exit, every other slot unchanged. */
  lemma LaterTrapStub(cfg: LinkConfig, m: CodeCacheMeta, base: int, target: int, blockAddress: int,
                      ccLookup: int -> int, invertCond: int -> int, s: seq<Half>)
    requires cfg.linkCondImm && m.branchCacheStatus != NOT_LINKED
    requires m.exitBranchAddr + PATCH_WINDOW <= |s|
    ensures var e := DispatchEffect(cfg, m, base, CondImm, target, blockAddress, ccLookup, invertCond);
      var exit := m.exitBranchAddr;
      var r := ApplyWrites(s, e.writes);
      && e.Link?
      && e.writes == [Write(exit + 4, Jal(blockAddress + POP_SKIP))]
      && e.status == Or(m.branchCacheStatus, BOTH_LINKED)
      && e.flush == FlushRange(ByteAddr(base, exit), ByteAddr(base, exit + 6))
      && DecodesAt(r, exit + 4, Jal(blockAddress + POP_SKIP))
      && forall q :: 0 <= q < |s| && q != exit + 4 && q != exit + 5 ==> r[q] == s[q]
  {
    var e := DispatchEffect(cfg, m, base, CondImm, target, blockAddress, ccLookup, invertCond);
    var w := Write(m.exitBranchAddr + 4, Jal(blockAddress + POP_SKIP));
    assert e.writes == [] + [w];
    ApplyWritesSnoc(s, [], w);
    WriteInsnFrame(s, w.at, w.insn);
  }

  /** When the exit's kind, as stored and as trapped, agree and its status is
      one the dispatcher can have left, the new status is again reachable and
      keeps every bit of the old one. */
  lemma {:induction false} DispatchKeepsStatus(cfg: LinkConfig, m: CodeCacheMeta, base: int, target: int,
                                               blockAddress: int, ccLookup: int -> int, invertCond: int -> int)
    requires ReachableStatus(m.exitBranchType, m.branchCacheStatus)
    ensures var e := DispatchEffect(cfg, m, base, m.exitBranchType, target, blockAddress, ccLookup, invertCond);
      && !e.Spins?
      && (e.Link? ==>
            && ReachableStatus(m.exitBranchType, e.status)
            && KeepsBits(m.branchCacheStatus, e.status))
  {
    var e := DispatchEffect(cfg, m, base, m.exitBranchType, target, blockAddress, ccLookup, invertCond);
    var t, status := m.exitBranchType, m.branchCacheStatus;
    if t.UncondImm? && cfg.linkUncondImm {
      assert e.status == BRANCH_LINKED;
    } else if t.CondImm? && cfg.linkCondImm {
      if status == NOT_LINKED {
        var isTaken := target == m.branchTakenAddr;
        var eager := ccLookup(if isTaken then m.branchSkippedAddr else m.branchTakenAddr) != UINT_MAX;
        FirstTrapWrites(cfg, m, base, target, blockAddress, ccLookup, invertCond);
        assert e.status == ArmsStatus(ArmBit(isTaken), eager);
      } else {
        assert e.status == Or(status, BOTH_LINKED);
      }
    }
  }

  /** On a first trap that links the other arm eagerly, the range
      `dispatcher_riscv.c` flushes ends at or before the eager `JAL`, the last
      instruction written, so neither of its slots is flushed, while the range
      `DispatchEffect` flushes covers it. This holds whatever returning kind
      the exit is stored as. */
  lemma FlushAsWrittenMissesEagerJal(cfg: LinkConfig, m: CodeCacheMeta, base: int, target: int, blockAddress: int,
                                     ccLookup: int -> int, invertCond: int -> int)
    requires cfg.linkCondImm && m.branchCacheStatus == NOT_LINKED && !m.exitBranchType.UnknownExit?
    requires ccLookup(if target == m.branchTakenAddr then m.branchSkippedAddr else m.branchTakenAddr) != UINT_MAX
    ensures var e := DispatchEffect(cfg, m, base, CondImm, target, blockAddress, ccLookup, invertCond);
      var other := ccLookup(if target == m.branchTakenAddr then m.branchSkippedAddr else m.branchTakenAddr);
      var f := CondFlushAsWritten(m, base);
      && e.Link? && |e.writes| >= 2
      && var last := e.writes[|e.writes| - 1];
      && last.insn == Jal(other + POP_SKIP)
      && f.end <= ByteAddr(base, last.at)
      && e.flush.start <= ByteAddr(base, last.at)
      && ByteAddr(base, last.at + INSN_HALFWORDS) <= e.flush.end
  {
    CondEffectOnFirstTrap(m, base, target, blockAddress, ccLookup, invertCond);
  }

  /** Without an eager link the range `dispatcher_riscv.c` flushes is the
      range `DispatchEffect` flushes, whatever returning kind the exit is
      stored as. */
  lemma FlushAsWrittenAgreesWithoutEagerLink(cfg: LinkConfig, m: CodeCacheMeta, base: int, target: int,
                                             blockAddress: int, ccLookup: int -> int, invertCond: int -> int)
    requires cfg.linkCondImm
    requires m.branchCacheStatus == NOT_LINKED ==>
      && !m.exitBranchType.UnknownExit?
      && ccLookup(if target == m.branchTakenAddr then m.branchSkippedAddr else m.branchTakenAddr) == UINT_MAX
    ensures var e := DispatchEffect(cfg, m, base, CondImm, target, blockAddress, ccLookup, invertCond);
      e.Link? && e.flush == CondFlushAsWritten(m, base)
  {
    if m.branchCacheStatus == NOT_LINKED {
      CondEffectOnFirstTrap(m, base, target, blockAddress, ccLookup, invertCond);
    }
  }
}
