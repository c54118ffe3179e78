/** Sequences of traps of one exit stub. `Step` is one dispatcher call on the
    state it changes (the cache slots, the metadata table and the flushed
    ranges), `Run` a sequence of them. Over a run whose traps agree with the
    stored exit kind the dispatcher never spins and the link status only
    gains bits; a conditional exit trapped on both arms ends up with both
    arms linked by direct `JAL`s behind the skip branch. */
module LinkTraces {
  import opened DbmTypes
  import opened Encoding
  import opened DispatcherRiscv
  import opened DispatcherProperties

  datatype Option<T> = None | Some(value: T)

  /** What one dispatcher call can change. */
  datatype Machine = Machine(cache: seq<Half>, meta: seq<CodeCacheMeta>, flushes: seq<FlushRange>)

  /** One trap of an exit stub: the kind of the trapped exit, the runtime
      target, the cache address of the block that handles it, and the cache
      lookup as it answers at that moment. */
  datatype Trap = Trap(exitType: ExitType, target: int, blockAddress: int, ccLookup: int -> int)

  /** Entry `i` exists and its patch window fits in the cache. */
  predicate Fitted(st: Machine, i: nat)
  {
    i < |st.meta| && st.meta[i].exitBranchAddr + PATCH_WINDOW <= |st.cache|
  }

  /** One dispatcher call for exit `i`, as `Thread.Dispatch` makes it; `None`
      when the call never returns. */
  function Step(cfg: LinkConfig, base: int, invertCond: int -> int, st: Machine, i: nat, t: Trap): (r: Option<Machine>)
    requires Fitted(st, i)
    ensures r.Some? ==> |r.value.cache| == |st.cache| && |r.value.meta| == |st.meta|
    ensures r.Some? ==> r.value.meta[i] == st.meta[i].(branchCacheStatus := r.value.meta[i].branchCacheStatus)
  {
    match DispatchEffect(cfg, st.meta[i], base, t.exitType, t.target, t.blockAddress, t.ccLookup, invertCond)
    case Link(ws, status, f) => Some(Machine(ApplyWrites(st.cache, ws), WithStatus(st.meta, i, status), st.flushes + [f]))
    case NoLink => Some(st)
    case Spins => None
  }

  /** The traps `ts` of exit `i`, one after the other; `None` when one of them
      never returns. */
  function Run(cfg: LinkConfig, base: int, invertCond: int -> int, st: Machine, i: nat, ts: seq<Trap>): (r: Option<Machine>)
    requires Fitted(st, i)
    ensures r.Some? ==> |r.value.cache| == |st.cache| && |r.value.meta| == |st.meta|
    ensures r.Some? ==> r.value.meta[i].exitBranchAddr == st.meta[i].exitBranchAddr
    decreases |ts|
  {
    if ts == [] then Some(st)
    else
      match Step(cfg, base, invertCond, st, i, ts[0])
      case None => None
      case Some(next) => Run(cfg, base, invertCond, next, i, ts[1..])
  }

  /** Every trap of `ts` is of the kind stored for the exit. */
  predicate AgreeWith(ts: seq<Trap>, kind: ExitType)
  {
    forall k :: 0 <= k < |ts| ==> ts[k].exitType == kind
  }

  /** A step whose trap agrees with the stored kind returns, keeps the status
      reachable, keeps its bits, and leaves the rest of the entry as it was. */
  lemma StepKeepsStatus(cfg: LinkConfig, base: int, invertCond: int -> int, st: Machine, i: nat, t: Trap)
    requires Fitted(st, i) && t.exitType == st.meta[i].exitBranchType
    requires ReachableStatus(st.meta[i].exitBranchType, st.meta[i].branchCacheStatus)
    ensures var r := Step(cfg, base, invertCond, st, i, t);
      && r.Some?
      && Fitted(r.value, i)
      && ReachableStatus(st.meta[i].exitBranchType, r.value.meta[i].branchCacheStatus)
      && KeepsBits(st.meta[i].branchCacheStatus, r.value.meta[i].branchCacheStatus)
  {
    var m := st.meta[i];
    DispatchKeepsStatus(cfg, m, base, t.target, t.blockAddress, t.ccLookup, invertCond);
  }

  /** Over a run of traps that agree with the stored exit kind, starting from a
      reachable status, the dispatcher never spins, the status stays
      reachable, and every bit set at the start is still set at the end. */
  lemma {:induction false} RunKeepsStatus(cfg: LinkConfig, base: int, invertCond: int -> int, st: Machine, i: nat,
                                          ts: seq<Trap>)
    requires Fitted(st, i) && AgreeWith(ts, st.meta[i].exitBranchType)
    requires ReachableStatus(st.meta[i].exitBranchType, st.meta[i].branchCacheStatus)
    ensures var r := Run(cfg, base, invertCond, st, i, ts);
      && r.Some?
      && Fitted(r.value, i)
      && r.value.meta[i].exitBranchType == st.meta[i].exitBranchType
      && ReachableStatus(st.meta[i].exitBranchType, r.value.meta[i].branchCacheStatus)
      && KeepsBits(st.meta[i].branchCacheStatus, r.value.meta[i].branchCacheStatus)
    decreases |ts|
  {
    if ts != [] {
      StepKeepsStatus(cfg, base, invertCond, st, i, ts[0]);
      var next := Step(cfg, base, invertCond, st, i, ts[0]).value;
      assert AgreeWith(ts[1..], next.meta[i].exitBranchType) by {
        forall k | 0 <= k < |ts[1..]| ensures ts[1..][k].exitType == next.meta[i].exitBranchType {
          assert ts[1..][k] == ts[k + 1];
        }
      }
      RunKeepsStatus(cfg, base, invertCond, next, i, ts[1..]);
    }
  }

  /** The first trap of a conditional exit whose other arm is not cached yet,
      as a step: the skip branch and the `JAL` to the trapping block are
      written, the status records the observed arm alone, and four halfwords
      are flushed from the exit. */
  lemma FirstTrapStep(cfg: LinkConfig, base: int, invertCond: int -> int, st: Machine, i: nat, t: Trap)
    requires Fitted(st, i) && cfg.linkCondImm && t.exitType.CondImm?
    requires st.meta[i].exitBranchType.CondImm? && st.meta[i].branchCacheStatus == NOT_LINKED
    requires var m := st.meta[i];
      t.ccLookup(if t.target == m.branchTakenAddr then m.branchSkippedAddr else m.branchTakenAddr) == UINT_MAX
    ensures var m, exit := st.meta[i], st.meta[i].exitBranchAddr;
      var e := DispatchEffect(cfg, m, base, CondImm, t.target, t.blockAddress, t.ccLookup, invertCond);
      Step(cfg, base, invertCond, st, i, t)
        == Some(Machine(ApplyWrites(st.cache, e.writes),
                        WithStatus(st.meta, i, ArmBit(t.target == m.branchTakenAddr)),
                        st.flushes + [FlushRange(ByteAddr(base, exit), ByteAddr(base, exit + 4))]))
  {
    FirstTrapWrites(cfg, st.meta[i], base, t.target, t.blockAddress, t.ccLookup, invertCond);
  }

  /** A later trap of a conditional exit, as a step: the `JAL` to the
      trapping block is written at halfword offset 4 and nothing else,
      `BOTH_LINKED` is added to the status, and six halfwords are flushed
      from the exit. */
  lemma LaterTrapStep(cfg: LinkConfig, base: int, invertCond: int -> int, st: Machine, i: nat, t: Trap)
    requires Fitted(st, i) && cfg.linkCondImm && t.exitType.CondImm?
    requires st.meta[i].branchCacheStatus != NOT_LINKED
    ensures var m, exit := st.meta[i], st.meta[i].exitBranchAddr;
      Step(cfg, base, invertCond, st, i, t)
        == Some(Machine(WriteInsn(st.cache, exit + 4, Jal(t.blockAddress + POP_SKIP)),
                        WithStatus(st.meta, i, Or(m.branchCacheStatus, BOTH_LINKED)),
                        st.flushes + [FlushRange(ByteAddr(base, exit), ByteAddr(base, exit + 6))]))
  {
    var m := st.meta[i];
    var w := Write(m.exitBranchAddr + 4, Jal(t.blockAddress + POP_SKIP));
    LaterTrapStub(cfg, m, base, t.target, t.blockAddress, t.ccLookup, invertCond, st.cache);
    ApplyWritesSnoc(st.cache, [], w);
    assert [] + [w] == [w];
  }

  /** The traps `a` and `b`, one after the other, are the step of `a`
      followed by the step of `b` on its result. */
  lemma RunTwo(cfg: LinkConfig, base: int, invertCond: int -> int, st: Machine, i: nat, a: Trap, b: Trap)
    requires Fitted(st, i) && Step(cfg, base, invertCond, st, i, a).Some?
    ensures var mid := Step(cfg, base, invertCond, st, i, a).value;
      && Fitted(mid, i)
      && Run(cfg, base, invertCond, st, i, [a, b]) == Step(cfg, base, invertCond, mid, i, b)
  {
    var mid := Step(cfg, base, invertCond, st, i, a).value;
    assert [a, b][1..] == [b];
    assert [b][1..] == [];
    match Step(cfg, base, invertCond, mid, i, b)
    case None =>
    case Some(fin) =>
      assert Run(cfg, base, invertCond, fin, i, []) == Some(fin);
  }

  /** A first trap of a conditional exit, whose other arm is not cached yet,
      followed by a trap on the other arm, as one machine: the `JAL` to the
      second block written over the first trap's writes, the status holding
      the first arm and `BOTH_LINKED`, and the two flushes. */
  lemma BothArmsRun(cfg: LinkConfig, base: int, invertCond: int -> int, st: Machine, i: nat,
                    first: Trap, second: Trap)
    requires Fitted(st, i) && cfg.linkCondImm
    requires st.meta[i].exitBranchType.CondImm? && st.meta[i].branchCacheStatus == NOT_LINKED
    requires first.exitType.CondImm? && second.exitType.CondImm?
    requires var m := st.meta[i];
      first.ccLookup(if first.target == m.branchTakenAddr then m.branchSkippedAddr else m.branchTakenAddr) == UINT_MAX
    ensures var m, exit := st.meta[i], st.meta[i].exitBranchAddr;
      var e := DispatchEffect(cfg, m, base, CondImm, first.target, first.blockAddress, first.ccLookup, invertCond);
      Run(cfg, base, invertCond, st, i, [first, second])
        == Some(Machine(WriteInsn(ApplyWrites(st.cache, e.writes), exit + 4, Jal(second.blockAddress + POP_SKIP)),
                        WithStatus(st.meta, i, Or(ArmBit(first.target == m.branchTakenAddr), BOTH_LINKED)),
                        st.flushes + [FlushRange(ByteAddr(base, exit), ByteAddr(base, exit + 4)),
                                      FlushRange(ByteAddr(base, exit), ByteAddr(base, exit + 6))]))
  {
    var s1 := ArmBit(first.target == st.meta[i].branchTakenAddr);
    FirstTrapStep(cfg, base, invertCond, st, i, first);
    RunTwo(cfg, base, invertCond, st, i, first, second);
    var mid := Step(cfg, base, invertCond, st, i, first).value;
    var exit := st.meta[i].exitBranchAddr;
    assert mid.meta[i] == st.meta[i].(branchCacheStatus := s1);
    LaterTrapStep(cfg, base, invertCond, mid, i, second);
    WithStatusTwice(st.meta, i, s1, Or(s1, BOTH_LINKED));
    var f1, f2 := FlushRange(ByteAddr(base, exit), ByteAddr(base, exit + 4)),
                  FlushRange(ByteAddr(base, exit), ByteAddr(base, exit + 6));
    assert st.flushes + [f1] + [f2] == st.flushes + [f1, f2];
  }

  /** A stub holding the skip branch and the first `JAL`, with nothing outside
      those slots changed, that then gets the second `JAL` at halfword offset
      4: all three instructions decode, and nothing outside the patch window
      changed. */
  lemma ThirdJal(s: seq<Half>, r1: seq<Half>, exit: nat, skip: Insn, jal1: Insn, jal2: Insn)
    requires exit + PATCH_WINDOW <= |s| == |r1|
    requires DecodesAt(r1, exit, skip) && DecodesAt(r1, exit + 2, jal1)
    requires forall q :: 0 <= q < |s| && !(exit <= q < exit + 4) ==> r1[q] == s[q]
    ensures var r := WriteInsn(r1, exit + 4, jal2);
      && DecodesAt(r, exit, skip) && DecodesAt(r, exit + 2, jal1) && DecodesAt(r, exit + 4, jal2)
      && forall q :: 0 <= q < |s| && !(exit <= q < exit + PATCH_WINDOW) ==> r[q] == s[q]
  {
    WriteInsnFrame(r1, exit + 4, jal2);
  }

  /** A conditional exit that traps first on one arm, whose other arm is not
      cached yet, and then on the other arm: the stub holds the skip branch at
      the exit, the `JAL` to the first block at halfword offset 2 and the
      `JAL` to the second block at offset 4, and no slot outside the patch
      window changes. */
  lemma BothArmsLinkedCache(cfg: LinkConfig, base: int, invertCond: int -> int, st: Machine, i: nat,
                            first: Trap, second: Trap)
    requires Fitted(st, i) && cfg.linkCondImm
    requires st.meta[i].exitBranchType.CondImm? && st.meta[i].branchCacheStatus == NOT_LINKED
    requires first.exitType.CondImm? && second.exitType.CondImm?
    requires var m := st.meta[i];
      first.ccLookup(if first.target == m.branchTakenAddr then m.branchSkippedAddr else m.branchTakenAddr) == UINT_MAX
    ensures var m, exit, c := st.meta[i], st.meta[i].exitBranchAddr, st.meta[i].branchCondition;
      var isTaken := first.target == m.branchTakenAddr;
      var r := Run(cfg, base, invertCond, st, i, [first, second]);
      && r.Some?
      && DecodesAt(r.value.cache, exit, BCond(MamboCond(c.r1, c.r2, if isTaken then invertCond(c.cond) else c.cond),
                                              ByteAddr(base, exit + 4)))
      && DecodesAt(r.value.cache, exit + 2, Jal(first.blockAddress + POP_SKIP))
      && DecodesAt(r.value.cache, exit + 4, Jal(second.blockAddress + POP_SKIP))
      && (forall q :: 0 <= q < |st.cache| && !(exit <= q < exit + PATCH_WINDOW) ==> r.value.cache[q] == st.cache[q])
  {
    var m, exit, c := st.meta[i], st.meta[i].exitBranchAddr, st.meta[i].branchCondition;
    var isTaken := first.target == m.branchTakenAddr;
    var e := DispatchEffect(cfg, m, base, CondImm, first.target, first.blockAddress, first.ccLookup, invertCond);
    var r1 := ApplyWrites(st.cache, e.writes);
    var skip := BCond(MamboCond(c.r1, c.r2, if isTaken then invertCond(c.cond) else c.cond), ByteAddr(base, exit + 4));
    var jal1, jal2 := Jal(first.blockAddress + POP_SKIP), Jal(second.blockAddress + POP_SKIP);
    BothArmsRun(cfg, base, invertCond, st, i, first, second);
    FirstTrapStub(cfg, m, base, first.target, first.blockAddress, first.ccLookup, invertCond, st.cache);
    ThirdJal(st.cache, r1, exit, skip, jal1, jal2);
  }

  /** The same two traps on the metadata and the flushes: the status records
      the first arm and `BOTH_LINKED`, the rest of the table is unchanged, and
      the two flushes cover four and six halfwords from the exit. */
  lemma BothArmsLinkedState(cfg: LinkConfig, base: int, invertCond: int -> int, st: Machine, i: nat,
                            first: Trap, second: Trap)
    requires Fitted(st, i) && cfg.linkCondImm
    requires st.meta[i].exitBranchType.CondImm? && st.meta[i].branchCacheStatus == NOT_LINKED
    requires first.exitType.CondImm? && second.exitType.CondImm?
    requires var m := st.meta[i];
      first.ccLookup(if first.target == m.branchTakenAddr then m.branchSkippedAddr else m.branchTakenAddr) == UINT_MAX
    ensures var m, exit := st.meta[i], st.meta[i].exitBranchAddr;
      var r := Run(cfg, base, invertCond, st, i, [first, second]);
      && r.Some?
      && r.value.meta == WithStatus(st.meta, i, Or(ArmBit(first.target == m.branchTakenAddr), BOTH_LINKED))
      && r.value.flushes == st.flushes + [FlushRange(ByteAddr(base, exit), ByteAddr(base, exit + 4)),
                                         FlushRange(ByteAddr(base, exit), ByteAddr(base, exit + 6))]
  {
    BothArmsRun(cfg, base, invertCond, st, i, first, second);
  }

  /** Two identical later traps of a conditional exit, on the cache: the
      second one writes the `JAL` the first one wrote, over itself. */
  lemma LaterTrapTwiceCache(cfg: LinkConfig, base: int, invertCond: int -> int, st: Machine, i: nat, t: Trap)
    requires Fitted(st, i) && cfg.linkCondImm && t.exitType.CondImm?
    requires st.meta[i].branchCacheStatus != NOT_LINKED
    ensures var once := Step(cfg, base, invertCond, st, i, t);
      && once.Some? && Fitted(once.value, i)
      && var twice := Step(cfg, base, invertCond, once.value, i, t);
      && twice.Some?
      && twice.value.cache == once.value.cache
  {
    var m, exit := st.meta[i], st.meta[i].exitBranchAddr;
    var status, jal := Or(m.branchCacheStatus, BOTH_LINKED), Jal(t.blockAddress + POP_SKIP);
    var f := FlushRange(ByteAddr(base, exit), ByteAddr(base, exit + 6));
    var once := Machine(WriteInsn(st.cache, exit + 4, jal), WithStatus(st.meta, i, status), st.flushes + [f]);
    assert Step(cfg, base, invertCond, st, i, t) == Some(once) by {
      LaterTrapStep(cfg, base, invertCond, st, i, t);
    }
    assert Step(cfg, base, invertCond, once, i, t)
        == Some(Machine(WriteInsn(once.cache, exit + 4, jal), WithStatus(once.meta, i, status), once.flushes + [f])) by {
      assert once.meta[i] == m.(branchCacheStatus := status);
      LaterTrapStep(cfg, base, invertCond, once, i, t);
    }
    WriteInsnTwice(st.cache, exit + 4, jal);
  }

  /** Two identical later traps of a conditional exit, on the metadata and
      the flushes: the second one sets the status the first one set, and
      flushes the same range again. */
  lemma LaterTrapTwiceState(cfg: LinkConfig, base: int, invertCond: int -> int, st: Machine, i: nat, t: Trap)
    requires Fitted(st, i) && cfg.linkCondImm && t.exitType.CondImm?
    requires st.meta[i].branchCacheStatus != NOT_LINKED
    ensures var once := Step(cfg, base, invertCond, st, i, t);
      && once.Some? && Fitted(once.value, i)
      && var twice := Step(cfg, base, invertCond, once.value, i, t);
      && twice.Some?
      && twice.value.meta == once.value.meta
      && twice.value.flushes == once.value.flushes + [once.value.flushes[|once.value.flushes| - 1]]
  {
    var m, exit := st.meta[i], st.meta[i].exitBranchAddr;
    var status, jal := Or(m.branchCacheStatus, BOTH_LINKED), Jal(t.blockAddress + POP_SKIP);
    var f := FlushRange(ByteAddr(base, exit), ByteAddr(base, exit + 6));
    var once := Machine(WriteInsn(st.cache, exit + 4, jal), WithStatus(st.meta, i, status), st.flushes + [f]);
    assert Step(cfg, base, invertCond, st, i, t) == Some(once) by {
      LaterTrapStep(cfg, base, invertCond, st, i, t);
    }
    assert Step(cfg, base, invertCond, once, i, t)
        == Some(Machine(WriteInsn(once.cache, exit + 4, jal), WithStatus(once.meta, i, status), once.flushes + [f])) by {
      assert once.meta[i] == m.(branchCacheStatus := status);
      LaterTrapStep(cfg, base, invertCond, once, i, t);
    }
    WithStatusTwice(st.meta, i, status, status);
  }

  /** A conditional exit that already has an arm linked and traps again to the
      same block: the second call writes what the first one wrote, so the
      cache and the metadata table are those after the first call, and only
      the same range is flushed once more. */
  lemma LaterTrapIdempotent(cfg: LinkConfig, base: int, invertCond: int -> int, st: Machine, i: nat, t: Trap)
    requires Fitted(st, i) && cfg.linkCondImm && t.exitType.CondImm?
    requires st.meta[i].branchCacheStatus != NOT_LINKED
    ensures var once := Step(cfg, base, invertCond, st, i, t);
      && once.Some? && Fitted(once.value, i)
      && var twice := Step(cfg, base, invertCond, once.value, i, t);
      && twice.Some?
      && twice.value.cache == once.value.cache
      && twice.value.meta == once.value.meta
      && twice.value.flushes == once.value.flushes + [once.value.flushes[|once.value.flushes| - 1]]
  {
    LaterTrapTwiceCache(cfg, base, invertCond, st, i, t);
    LaterTrapTwiceState(cfg, base, invertCond, st, i, t);
  }
}
