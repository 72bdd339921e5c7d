/** What the mixer promises: in-bounds, aligned addressing; at most two
  * cells changed per iteration; a lane's run reads and writes only the
  * cells of that lane, so runs on disjoint lanes commute.
  */
module MixerFacts {
  import opened Bits
  import opened Aes
  import opened Scratchpad
  import opened Mixer

  /** With the low four bits of the mask clear and mask + 16 <= mem, the
    * byte offset `idx & mask` is the start of a whole cell, and that cell
    * lies inside the mem bytes of the lane. */
  lemma AddressInBounds(idx: u64, mask: u64, mem: nat)
    requires mask % 16 == 0 && mask + 16 <= mem
    ensures 16 * CellIndex(idx, mask) == And64(idx, mask)
    ensures CellIndex(idx, mask) <= mask / 16 && CellIndex(idx, mask) < mem / 16
  {
    AndClearsLowNibble(idx, mask);
    var off := And64(idx, mask);
    DivModUnique(off, 16, off / 16, 0);
    DivModUnique(mask, 16, mask / 16, 0);
    assert (mask + 16) / 16 == mask / 16 + 1;
  }

  /** An iteration writes only the cell at idx (in the round half) and the
    * cell at the idx the round produces (in the multiply half). */
  lemma MixStepTwoCells(aes: AesPrimitives, mask: u64, base: nat, st: MixState, m: seq<Block>)
    requires Fits(mask, base, |m|)
    ensures forall c :: 0 <= c < |m| && c != base + CellIndex(st.idx, mask)
                        && c != base + CellIndex(RoundHalf(aes, mask, base, st, m).0.idx, mask) ==>
              MixStep(aes, mask, base, st, m).1[c] == m[c]
  {
  }

  /** The round half reads and writes only the cells of its lane, and does
    * the same wherever the lane lies. */
  lemma RoundHalfShift(aes: AesPrimitives, mask: u64, b1: nat, b2: nat, st: MixState, m1: seq<Block>, m2: seq<Block>)
    requires Fits(mask, b1, |m1|) && Fits(mask, b2, |m2|) && LaneMatch(m1, b1, m2, b2, mask / 16 + 1)
    ensures RoundHalf(aes, mask, b1, st, m1).0 == RoundHalf(aes, mask, b2, st, m2).0
    ensures LaneMatch(RoundHalf(aes, mask, b1, st, m1).1, b1, RoundHalf(aes, mask, b2, st, m2).1, b2, mask / 16 + 1)
  {
    AndBelow(st.idx, mask);
    var ci := CellIndex(st.idx, mask);
    assert CellAt(m1, b1, ci) == CellAt(m2, b2, ci);
    var r1, r2 := RoundHalf(aes, mask, b1, st, m1).1, RoundHalf(aes, mask, b2, st, m2).1;
    forall i | 0 <= i < mask / 16 + 1
      ensures CellAt(r1, b1, i) == CellAt(r2, b2, i)
    {
      assert CellAt(m1, b1, i) == CellAt(m2, b2, i);
    }
  }

  /** The multiply half reads and writes only the cells of its lane, and
    * does the same wherever the lane lies. */
  lemma MulHalfShift(mask: u64, b1: nat, b2: nat, st: MixState, m1: seq<Block>, m2: seq<Block>)
    requires Fits(mask, b1, |m1|) && Fits(mask, b2, |m2|) && LaneMatch(m1, b1, m2, b2, mask / 16 + 1)
    ensures MulHalf(mask, b1, st, m1).0 == MulHalf(mask, b2, st, m2).0
    ensures LaneMatch(MulHalf(mask, b1, st, m1).1, b1, MulHalf(mask, b2, st, m2).1, b2, mask / 16 + 1)
  {
    AndBelow(st.idx, mask);
    var ci := CellIndex(st.idx, mask);
    assert CellAt(m1, b1, ci) == CellAt(m2, b2, ci);
    var r1, r2 := MulHalf(mask, b1, st, m1).1, MulHalf(mask, b2, st, m2).1;
    forall i | 0 <= i < mask / 16 + 1
      ensures CellAt(r1, b1, i) == CellAt(r2, b2, i)
    {
      assert CellAt(m1, b1, i) == CellAt(m2, b2, i);
    }
  }

  /** One iteration reads and writes only the cells of its lane. */
  lemma MixStepShift(aes: AesPrimitives, mask: u64, b1: nat, b2: nat, st: MixState, m1: seq<Block>, m2: seq<Block>)
    requires Fits(mask, b1, |m1|) && Fits(mask, b2, |m2|) && LaneMatch(m1, b1, m2, b2, mask / 16 + 1)
    ensures MixStep(aes, mask, b1, st, m1).0 == MixStep(aes, mask, b2, st, m2).0
    ensures LaneMatch(MixStep(aes, mask, b1, st, m1).1, b1, MixStep(aes, mask, b2, st, m2).1, b2, mask / 16 + 1)
  {
    RoundHalfShift(aes, mask, b1, b2, st, m1, m2);
    var h1, h2 := RoundHalf(aes, mask, b1, st, m1), RoundHalf(aes, mask, b2, st, m2);
    MulHalfShift(mask, b1, b2, h1.0, h1.1, h2.1);
  }

  /** A run of n iterations reads and writes only the cells of its lane:
    * started from two lanes with the same cells, wherever they lie, it
    * ends in the same loop variables and leaves the two lanes equal. */
  lemma {:induction false} MixRunShift(aes: AesPrimitives, mask: u64, b1: nat, b2: nat, n: nat, st: MixState, m1: seq<Block>, m2: seq<Block>)
    requires Fits(mask, b1, |m1|) && Fits(mask, b2, |m2|) && LaneMatch(m1, b1, m2, b2, mask / 16 + 1)
    ensures MixRun(aes, mask, b1, n, st, m1).0 == MixRun(aes, mask, b2, n, st, m2).0
    ensures LaneMatch(MixRun(aes, mask, b1, n, st, m1).1, b1, MixRun(aes, mask, b2, n, st, m2).1, b2, mask / 16 + 1)
    decreases n
  {
    if n > 0 {
      var k: nat := n - 1;
      MixRunShift(aes, mask, b1, b2, k, st, m1, m2);
      var p1, p2 := MixRun(aes, mask, b1, k, st, m1), MixRun(aes, mask, b2, k, st, m2);
      MixRunNext(aes, mask, b1, k, st, m1);
      MixRunNext(aes, mask, b2, k, st, m2);
      MixStepShift(aes, mask, b1, b2, p1.0, p1.1, p2.1);
    }
  }

  /** The same for lanes wider than the cells the mask reaches: the cells
    * beyond it are left as they were in both. */
  lemma MixRunShiftWide(aes: AesPrimitives, mask: u64, b1: nat, b2: nat, n: nat, st: MixState, m1: seq<Block>, m2: seq<Block>, span: nat)
    requires Fits(mask, b1, |m1|) && Fits(mask, b2, |m2|) && mask / 16 < span && LaneMatch(m1, b1, m2, b2, span)
    ensures MixRun(aes, mask, b1, n, st, m1).0 == MixRun(aes, mask, b2, n, st, m2).0
    ensures LaneMatch(MixRun(aes, mask, b1, n, st, m1).1, b1, MixRun(aes, mask, b2, n, st, m2).1, b2, span)
  {
    MixRunShift(aes, mask, b1, b2, n, st, m1, m2);
    MixRunFrame(aes, mask, b1, n, st, m1);
    MixRunFrame(aes, mask, b2, n, st, m2);
    var r1, r2 := MixRun(aes, mask, b1, n, st, m1).1, MixRun(aes, mask, b2, n, st, m2).1;
    forall i | mask / 16 < i < span
      ensures CellAt(r1, b1, i) == CellAt(r2, b2, i)
    {
      assert CellAt(m1, b1, i) == CellAt(m2, b2, i);
    }
  }

  /** A run of n iterations leaves every cell outside its lane unchanged. */
  lemma {:induction false} MixRunFrame(aes: AesPrimitives, mask: u64, base: nat, n: nat, st: MixState, m: seq<Block>)
    requires Fits(mask, base, |m|)
    ensures forall c :: 0 <= c < |m| && !(base <= c <= base + mask / 16) ==> MixRun(aes, mask, base, n, st, m).1[c] == m[c]
    decreases n
  {
    if n > 0 {
      var k: nat := n - 1;
      MixRunFrame(aes, mask, base, k, st, m);
      MixRunNext(aes, mask, base, k, st, m);
    }
  }

  /** Runs on two disjoint lanes commute: running lane 0 then lane 1 or
    * lane 1 then lane 0 leaves the same scratchpad, and each lane ends in
    * the loop variables it would reach alone. */
  lemma MixRunsCommute(aes: AesPrimitives, mask: u64, b0: nat, n0: nat, s0: MixState, b1: nat, n1: nat, s1: MixState, m: seq<Block>)
    requires Fits(mask, b1, |m|) && b0 + mask / 16 < b1
    ensures MixRun(aes, mask, b1, n1, s1, MixRun(aes, mask, b0, n0, s0, m).1).0 == MixRun(aes, mask, b1, n1, s1, m).0
    ensures MixRun(aes, mask, b0, n0, s0, MixRun(aes, mask, b1, n1, s1, m).1).0 == MixRun(aes, mask, b0, n0, s0, m).0
    ensures MixRun(aes, mask, b1, n1, s1, MixRun(aes, mask, b0, n0, s0, m).1).1
         == MixRun(aes, mask, b0, n0, s0, MixRun(aes, mask, b1, n1, s1, m).1).1
  {
    var span := mask / 16 + 1;
    var a0, a1 := MixRun(aes, mask, b0, n0, s0, m), MixRun(aes, mask, b1, n1, s1, m);
    RunLeavesOtherLane(aes, mask, b1, n1, s1, m, b0, span);
    RunLeavesOtherLane(aes, mask, b0, n0, s0, m, b1, span);
    MixRunShift(aes, mask, b0, b0, n0, s0, a1.1, m);
    MixRunShift(aes, mask, b1, b1, n1, s1, a0.1, m);
    var x, y := MixRun(aes, mask, b1, n1, s1, a0.1), MixRun(aes, mask, b0, n0, s0, a1.1);
    MixRunFrame(aes, mask, b0, n0, s0, m);
    MixRunFrame(aes, mask, b1, n1, s1, m);
    MixRunFrame(aes, mask, b1, n1, s1, a0.1);
    MixRunFrame(aes, mask, b0, n0, s0, a1.1);
    MergeLanes(m, a0.1, a1.1, x.1, y.1, b0, b1, span);
  }

  /** A run on the lane from cell b leaves the disjoint lane from cell b'
    * as it was. */
  lemma RunLeavesOtherLane(aes: AesPrimitives, mask: u64, b: nat, n: nat, st: MixState, m: seq<Block>, b': nat, span: nat)
    requires Fits(mask, b, |m|) && b' + span <= |m| && (b' + span <= b || b + mask / 16 < b')
    ensures LaneMatch(MixRun(aes, mask, b, n, st, m).1, b', m, b', span)
  {
    MixRunFrame(aes, mask, b, n, st, m);
    var r := MixRun(aes, mask, b, n, st, m).1;
    forall i | 0 <= i < span
      ensures CellAt(r, b', i) == CellAt(m, b', i)
    {
    }
  }

  /** Two ways of updating two disjoint lanes of m give the same
    * scratchpad when each lane ends equal and nothing else changes. */
  lemma MergeLanes(m: seq<Block>, a0: seq<Block>, a1: seq<Block>, x: seq<Block>, y: seq<Block>, b0: nat, b1: nat, span: nat)
    requires |a0| == |m| && |a1| == |m| && |x| == |m| && |y| == |m| && b0 + span <= b1 && b1 + span <= |m|
    requires forall c :: 0 <= c < |m| && !(b0 <= c < b0 + span) ==> a0[c] == m[c]
    requires forall c :: 0 <= c < |m| && !(b1 <= c < b1 + span) ==> a1[c] == m[c]
    requires forall c :: 0 <= c < |m| && !(b1 <= c < b1 + span) ==> x[c] == a0[c]
    requires forall c :: 0 <= c < |m| && !(b0 <= c < b0 + span) ==> y[c] == a1[c]
    requires LaneMatch(x, b1, a1, b1, span) && LaneMatch(y, b0, a0, b0, span)
    ensures x == y
  {
    forall c | 0 <= c < |m|
      ensures x[c] == y[c]
    {
      if b0 <= c < b0 + span {
        assert CellAt(y, b0, c - b0) == CellAt(a0, b0, c - b0);
      } else if b1 <= c < b1 + span {
        assert CellAt(x, b1, c - b1) == CellAt(a1, b1, c - b1);
      }
    }
  }

  // ---------------------------------------------------------------------
  // Two lanes

  /** A run of one iteration is one step. */
  lemma MixRunOne(aes: AesPrimitives, mask: u64, base: nat, st: MixState, m: seq<Block>)
    requires Fits(mask, base, |m|)
    ensures MixRun(aes, mask, base, 1, st, m) == MixStep(aes, mask, base, st, m)
  {
    MixRunNext(aes, mask, base, 0, st, m);
  }

  /** Lane 1's round half and lane 0's multiply half touch different cells,
    * so they may be done in either order. */
  lemma RoundMulCommute(aes: AesPrimitives, mask: u64, b0: nat, b1: nat, s0: MixState, s1: MixState, m: seq<Block>)
    requires TwoLanes(mask, b0, b1, |m|)
    ensures MulHalf(mask, b0, s0, RoundHalf(aes, mask, b1, s1, m).1).0 == MulHalf(mask, b0, s0, m).0
    ensures RoundHalf(aes, mask, b1, s1, MulHalf(mask, b0, s0, m).1).0 == RoundHalf(aes, mask, b1, s1, m).0
    ensures MulHalf(mask, b0, s0, RoundHalf(aes, mask, b1, s1, m).1).1
         == RoundHalf(aes, mask, b1, s1, MulHalf(mask, b0, s0, m).1).1
  {
    AndBelow(s0.idx, mask);
    AndBelow(s1.idx, mask);
    var c0, c1 := b0 + CellIndex(s0.idx, mask), b1 + CellIndex(s1.idx, mask);
    assert c0 < c1;
  }

  /** One iteration of the two-lane loop is one iteration of lane 0
    * followed by one iteration of lane 1. */
  lemma DoubleStepIsTwoSteps(aes: AesPrimitives, mask: u64, b0: nat, b1: nat, s0: MixState, s1: MixState, m: seq<Block>)
    requires TwoLanes(mask, b0, b1, |m|)
    ensures DoubleStep(aes, mask, b0, b1, s0, s1, m)
         == (MixStep(aes, mask, b0, s0, m).0,
             MixStep(aes, mask, b1, s1, MixStep(aes, mask, b0, s0, m).1).0,
             MixStep(aes, mask, b1, s1, MixStep(aes, mask, b0, s0, m).1).1)
  {
    var r0 := RoundHalf(aes, mask, b0, s0, m);
    RoundMulCommute(aes, mask, b0, b1, r0.0, s1, r0.1);
  }

  /** n iterations of the two-lane loop end as n iterations of lane 0
    * followed by n iterations of lane 1: the lanes do not interfere. */
  lemma {:induction false} DoubleRunIsTwoRuns(aes: AesPrimitives, mask: u64, b0: nat, b1: nat, n: nat, s0: MixState, s1: MixState, m: seq<Block>)
    requires TwoLanes(mask, b0, b1, |m|)
    ensures DoubleRun(aes, mask, b0, b1, n, s0, s1, m)
         == (MixRun(aes, mask, b0, n, s0, m).0,
             MixRun(aes, mask, b1, n, s1, MixRun(aes, mask, b0, n, s0, m).1).0,
             MixRun(aes, mask, b1, n, s1, MixRun(aes, mask, b0, n, s0, m).1).1)
    decreases n
  {
    if n > 0 {
      var k: nat := n - 1;
      DoubleRunIsTwoRuns(aes, mask, b0, b1, k, s0, s1, m);
      DoubleRunNext(aes, mask, b0, b1, k, s0, s1, m);
      var a := MixRun(aes, mask, b0, k, s0, m);
      var y := MixRun(aes, mask, b1, k, s1, a.1);
      DoubleStepIsTwoSteps(aes, mask, b0, b1, a.0, y.0, y.1);
      MixRunNext(aes, mask, b0, k, s0, m);
      var a' := MixRun(aes, mask, b0, n, s0, m);
      MixRunOne(aes, mask, b0, a.0, a.1);
      MixRunOne(aes, mask, b0, a.0, y.1);
      MixRunsCommute(aes, mask, b0, 1, a.0, b1, k, s1, a.1);
      MixRunNext(aes, mask, b1, k, s1, a'.1);
    }
  }
}
