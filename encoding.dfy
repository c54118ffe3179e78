/** The code cache as a sequence of 16-bit slots holding symbolic RISC-V
    instructions. Every instruction the dispatcher writes is 4 bytes long and
    therefore fills two consecutive halfword slots. */
module Encoding {
  import opened DbmTypes

  /** A symbolic instruction: the encoder's bit layout is not modelled. `Other`
      stands for every instruction of a stub the dispatcher does not write itself
      (`PUSH`, `LI`, the call to the dispatcher, ...). */
  datatype Insn = Nop | Jal(dest: int) | BCond(c: MamboCond, dest: int) | Other(code: int)

  /** One halfword of the code cache: the low or the high half of an instruction. */
  datatype Half = Lo(insn: Insn) | Hi(insn: Insn)

  /** Number of halfword slots one instruction occupies. */
  const INSN_HALFWORDS: nat := 2

  /** Byte address of halfword slot `p` in a cache that starts at byte address `base`. */
  function ByteAddr(base: int, p: nat): int
  {
    base + 2 * p
  }

  /** Slots `p` and `p + 1` of `s` hold the instruction `insn`. */
  predicate DecodesAt(s: seq<Half>, p: nat, insn: Insn)
  {
    p + 1 < |s| && s[p] == Lo(insn) && s[p + 1] == Hi(insn)
  }

  /** The cache `s` after one 4-byte instruction is written at slot `p`. */
  function WriteInsn(s: seq<Half>, p: nat, insn: Insn): (r: seq<Half>)
    requires p + 1 < |s|
    ensures |r| == |s|
    ensures DecodesAt(r, p, insn)
  {
    s[p := Lo(insn)][p + 1 := Hi(insn)]
  }

  /** Writing an instruction at slot `p` leaves every other slot as it was. */
  lemma WriteInsnFrame(s: seq<Half>, p: nat, insn: Insn)
    requires p + 1 < |s|
    ensures forall q :: 0 <= q < |s| && q != p && q != p + 1 ==> WriteInsn(s, p, insn)[q] == s[q]
  {
  }

  /** Writing the same instruction twice at the same slot is writing it once. */
  lemma WriteInsnTwice(s: seq<Half>, p: nat, insn: Insn)
    requires p + 1 < |s|
    ensures WriteInsn(WriteInsn(s, p, insn), p, insn) == WriteInsn(s, p, insn)
  {
    var once := WriteInsn(s, p, insn);
    assert once[p := Lo(insn)] == once;
  }

  /** One instruction written at a halfword slot. */
  datatype Write = Write(at: nat, insn: Insn)

  /** Every write of `ws` lies inside a cache of `n` slots. */
  predicate Fits(ws: seq<Write>, n: nat)
  {
    forall k :: 0 <= k < |ws| ==> ws[k].at + 1 < n
  }

  /** No two writes of `ws` share a slot. */
  predicate Disjoint(ws: seq<Write>)
  {
    forall k, l :: 0 <= k < l < |ws| ==> ws[k].at + 1 < ws[l].at || ws[l].at + 1 < ws[k].at
  }

  /** The cache `s` after the writes `ws` are made one after the other. A
      write that does not fit in the cache is dropped; the dispatcher's writes
      always fit (`Fits`). */
  function ApplyWrites(s: seq<Half>, ws: seq<Write>): (r: seq<Half>)
    ensures |r| == |s|
    decreases |ws|
  {
    if ws == [] then s
    else
      var before, w := ApplyWrites(s, ws[..|ws| - 1]), ws[|ws| - 1];
      if w.at + 1 < |s| then WriteInsn(before, w.at, w.insn) else before
  }

  /** Writing one more instruction after `ws` is writing it on the result of `ws`. */
  lemma ApplyWritesSnoc(s: seq<Half>, ws: seq<Write>, w: Write)
    requires w.at + 1 < |s|
    ensures ApplyWrites(s, ws + [w]) == WriteInsn(ApplyWrites(s, ws), w.at, w.insn)
  {
    assert (ws + [w])[..|ws|] == ws;
  }

  /** Making the writes `ws` and then `vs` is making the writes `ws + vs`. */
  lemma {:induction false} ApplyWritesAppend(s: seq<Half>, ws: seq<Write>, vs: seq<Write>)
    ensures ApplyWrites(s, ws + vs) == ApplyWrites(ApplyWrites(s, ws), vs)
    decreases |vs|
  {
    if vs == [] {
      assert ws + vs == ws;
    } else {
      ApplyWritesAppend(s, ws, vs[..|vs| - 1]);
      assert (ws + vs)[..|ws + vs| - 1] == ws + vs[..|vs| - 1];
    }
  }

  /** When every write of `ws` lies in the slots `lo` up to `hi`, the slots
      outside that range keep their content. */
  lemma {:induction false} ApplyWritesOutside(s: seq<Half>, ws: seq<Write>, lo: nat, hi: nat)
    requires forall k :: 0 <= k < |ws| ==> lo <= ws[k].at && ws[k].at + 1 < hi
    ensures forall q :: 0 <= q < |s| && (q < lo || hi <= q) ==> ApplyWrites(s, ws)[q] == s[q]
    decreases |ws|
  {
    if ws != [] {
      var init, w := ws[..|ws| - 1], ws[|ws| - 1];
      assert forall k :: 0 <= k < |init| ==> init[k] == ws[k];
      ApplyWritesOutside(s, init, lo, hi);
      if w.at + 1 < |s| {
        WriteInsnFrame(ApplyWrites(s, init), w.at, w.insn);
      }
    }
  }

  /** When the writes fit in the cache and do not overlap, each of them can
      be read back after all of them are made. */
  lemma {:induction false} ApplyWritesDecodes(s: seq<Half>, ws: seq<Write>)
    requires Fits(ws, |s|) && Disjoint(ws)
    ensures forall k :: 0 <= k < |ws| ==> DecodesAt(ApplyWrites(s, ws), ws[k].at, ws[k].insn)
    decreases |ws|
  {
    if ws != [] {
      var last := |ws| - 1;
      var init, w := ws[..last], ws[last];
      assert forall k :: 0 <= k < |init| ==> init[k] == ws[k];
      ApplyWritesDecodes(s, init);
      var before := ApplyWrites(s, init);
      WriteInsnFrame(before, w.at, w.insn);
      forall k | 0 <= k < last ensures DecodesAt(ApplyWrites(s, ws), ws[k].at, ws[k].insn) {
        assert DecodesAt(before, init[k].at, init[k].insn);
        assert ws[k].at + 1 < w.at || w.at + 1 < ws[k].at;
      }
    }
  }
}
