/** Types the RISC-V dispatcher shares with the rest of the engine: the kinds of
    block exit, the per-block code cache metadata record, the link-status bit
    flags, the compile-time linking switches and the flushed-range record. */
module DbmTypes {

  /** The condition of a conditional branch: the two compared registers and the
      comparison code (a `mambo_cond`). */
  datatype MamboCond = MamboCond(r1: nat, r2: nat, cond: int)

  /** The kind of the branch that ends a cached block (`branch_type`). Every enum
      value other than the three handled here is `UnknownExit`. */
  datatype ExitType = UncondImm | UncondReg | CondImm | UnknownExit(tag: int)

  /** One entry of `code_cache_meta`: where the exit stub of a cached block
      starts (a halfword index into the code cache), its kind, the two source
      addresses of a conditional exit, the stored condition, and the link status. */
  datatype CodeCacheMeta = CodeCacheMeta(
    exitBranchAddr: nat,
    exitBranchType: ExitType,
    branchTakenAddr: int,
    branchSkippedAddr: int,
    branchCondition: MamboCond,
    branchCacheStatus: LinkStatus)

  /** The link status word of an exit (`branch_cache_status`) as its three
      flag bits: the fall-through arm is linked, the taken arm is linked, both
      arms are linked. The word with no bit set is 0, "not linked yet". */
  datatype LinkStatus = LinkStatus(fallthrough: bool, branch: bool, both: bool)

  const NOT_LINKED := LinkStatus(false, false, false)
  const FALLTHROUGH_LINKED := LinkStatus(true, false, false)
  const BRANCH_LINKED := LinkStatus(false, true, false)
  const BOTH_LINKED := LinkStatus(false, false, true)

  /** Bitwise or of two status words. */
  function Or(a: LinkStatus, b: LinkStatus): LinkStatus
  {
    LinkStatus(a.fallthrough || b.fallthrough, a.branch || b.branch, a.both || b.both)
  }

  /** What `cc_lookup` answers for an address that has no cached block. */
  const UINT_MAX: int := 0xFFFF_FFFF

  /** The `DBM_LINK_UNCOND_IMM` and `DBM_LINK_COND_IMM` build switches. */
  datatype LinkConfig = LinkConfig(linkUncondImm: bool, linkCondImm: bool)

  /** A byte range given to `__clear_cache`: from `start` up to, not including, `end`. */
  datatype FlushRange = FlushRange(start: int, end: int)

  /** The status values a block exit of kind `t` can hold when the dispatcher
      is the only writer of its status. */
  predicate ReachableStatus(t: ExitType, s: LinkStatus)
  {
    match t
    case CondImm =>
      || s == NOT_LINKED || s == FALLTHROUGH_LINKED || s == BRANCH_LINKED
      || s == Or(FALLTHROUGH_LINKED, BOTH_LINKED) || s == Or(BRANCH_LINKED, BOTH_LINKED)
    case UncondImm => s == NOT_LINKED || s == BRANCH_LINKED
    case _ => s == NOT_LINKED
  }

  /** Every bit set in `before` is still set in `after`. */
  predicate KeepsBits(before: LinkStatus, after: LinkStatus)
  {
    && (before.fallthrough ==> after.fallthrough)
    && (before.branch ==> after.branch)
    && (before.both ==> after.both)
  }
}
