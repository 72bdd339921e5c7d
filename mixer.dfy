/** The memory-hard loop of `cryptonight_hash` and `cryptonight_double_hash`.
  *
  * The scratchpad is an array of 16-byte cells and one lane uses the cells
  * from a base cell on. The loop addresses it by byte offset `idx & MASK`;
  * with the low four bits of MASK clear that offset is the start of cell
  * (idx & MASK) / 16 of the lane. Each iteration has two halves:
  *   - the round half: one AES round on the cell at idx keyed by a, the cell
  *     overwritten with b XOR the result, b and idx taken from the result;
  *   - the multiply half: the cell at the new idx read as (cl, ch), the
  *     128-bit product idx * cl added crosswise to a (high half into the low
  *     word, low half into the high word), a stored there, then a ^= (cl, ch)
  *     and idx = a's low word.
  */
module Mixer {
  import opened Bits
  import opened WideMul
  import opened Aes

  /** The loop variables al, ah (the accumulator a), bl, bh (the previous
    * round result b) and idx. */
  datatype MixState = MixState(al: u64, ah: u64, bl: u64, bh: u64, idx: u64)

  /** The starting loop variables: a from state words 0, 1, 4, 5, b from
    * words 2, 3, 6, 7, and idx equal to al. */
  function InitMix(h: seq<u64>): (st: MixState)
    requires |h| == 25
  {
    MixState(Xor64(h[0], h[4]), Xor64(h[1], h[5]), Xor64(h[2], h[6]), Xor64(h[3], h[7]), Xor64(h[0], h[4]))
  }

  /** The cell of a lane that byte offset `idx & mask` falls in. */
  function CellIndex(idx: u64, mask: u64): nat
  {
    And64(idx, mask) / 16
  }

  /** The lane from cell `base` on, with byte mask `mask`, fits in a
    * scratchpad of n cells: the mask has its low four bits clear and its
    * largest offset starts a cell of the scratchpad. */
  predicate Fits(mask: u64, base: nat, n: nat)
  {
    mask % 16 == 0 && base + mask / 16 < n
  }

  /** The round half of an iteration on the scratchpad m. */
  function RoundHalf(aes: AesPrimitives, mask: u64, base: nat, st: MixState, m: seq<Block>): (r: (MixState, seq<Block>))
    requires Fits(mask, base, |m|)
    ensures |r.1| == |m|
  {
    AndBelow(st.idx, mask);
    var c := base + CellIndex(st.idx, mask);
    var cx := aes.enc(m[c], Block(st.al, st.ah));
    (MixState(st.al, st.ah, cx.lo, cx.hi, cx.lo), m[c := XorBlock(Block(st.bl, st.bh), cx)])
  }

  /** The multiply half of an iteration on the scratchpad m. */
  function MulHalf(mask: u64, base: nat, st: MixState, m: seq<Block>): (r: (MixState, seq<Block>))
    requires Fits(mask, base, |m|)
    ensures |r.1| == |m|
  {
    AndBelow(st.idx, mask);
    var c := base + CellIndex(st.idx, mask);
    var cl, ch := m[c].lo, m[c].hi;
    var p := Umul128(st.idx, cl);
    var al, ah := Add64(st.al, p.1), Add64(st.ah, p.0);
    (MixState(Xor64(al, cl), Xor64(ah, ch), st.bl, st.bh, Xor64(al, cl)), m[c := Block(al, ah)])
  }

  /** One iteration of the loop: the round half, then the multiply half.
    * It changes at most two cells, both inside the lane, and leaves idx
    * equal to al. */
  function MixStep(aes: AesPrimitives, mask: u64, base: nat, st: MixState, m: seq<Block>): (r: (MixState, seq<Block>))
    requires Fits(mask, base, |m|)
    ensures |r.1| == |m| && r.0.idx == r.0.al
    ensures forall c :: 0 <= c < |m| && !(base <= c <= base + mask / 16) ==> r.1[c] == m[c]
  {
    AndBelow(st.idx, mask);
    var h := RoundHalf(aes, mask, base, st, m);
    AndBelow(h.0.idx, mask);
    MulHalf(mask, base, h.0, h.1)
  }

  /** The loop variables and the scratchpad after n iterations. */
  function MixRun(aes: AesPrimitives, mask: u64, base: nat, n: nat, st: MixState, m: seq<Block>): (r: (MixState, seq<Block>))
    requires Fits(mask, base, |m|)
    ensures |r.1| == |m|
    decreases n
  {
    if n == 0 then (st, m)
    else
      var p := MixRun(aes, mask, base, n - 1, st, m);
      MixStep(aes, mask, base, p.0, p.1)
  }

  /** One more iteration. */
  lemma MixRunNext(aes: AesPrimitives, mask: u64, base: nat, n: nat, st: MixState, m: seq<Block>)
    requires Fits(mask, base, |m|)
    ensures MixRun(aes, mask, base, n + 1, st, m)
         == MixStep(aes, mask, base, MixRun(aes, mask, base, n, st, m).0, MixRun(aes, mask, base, n, st, m).1)
  {
  }

  // ---------------------------------------------------------------------
  // The loops

  /** The software branch of one iteration, on the loop variables. */
  method SoftMixStep(aes: AesPrimitives, mask: u64, base: nat, memory: array<Block>,
                     al0: u64, ah0: u64, bl0: u64, bh0: u64, idx0: u64)
    returns (al: u64, ah: u64, bl: u64, bh: u64, idx: u64)
    requires Fits(mask, base, memory.Length)
    modifies memory
    ensures (MixState(al, ah, bl, bh, idx), memory[..])
         == MixStep(aes, mask, base, MixState(al0, ah0, bl0, bh0, idx0), old(memory[..]))
  {
    al, ah, bl, bh, idx := al0, ah0, bl0, bh0, idx0;
    var key := Block(al, ah);
    AndBelow(idx, mask);
    var pl := base + CellIndex(idx, mask);
    var cx := aes.enc(memory[pl], key);
    memory[pl] := Block(Xor64(bl, cx.lo), Xor64(bh, cx.hi));
    bl := cx.lo;
    bh := cx.hi;
    idx := bl;
    ghost var half := RoundHalf(aes, mask, base, MixState(al0, ah0, bl0, bh0, idx0), old(memory[..]));
    assert memory[..] == half.1;
    assert MixState(al, ah, bl, bh, idx) == half.0;
    var t := SoftMulHalf(mask, base, memory, MixState(al, ah, bl, bh, idx));
    al, ah, idx := t.al, t.ah, t.idx;
  }

  /** The hardware branch of one iteration: b is held as one block bx and
    * the cell is loaded, encrypted and stored as a block. */
  method HardMixStep(aes: AesPrimitives, mask: u64, base: nat, memory: array<Block>,
                     al0: u64, ah0: u64, bx0: Block, idx0: u64)
    returns (al: u64, ah: u64, bx: Block, idx: u64)
    requires Fits(mask, base, memory.Length)
    modifies memory
    ensures (MixState(al, ah, bx.lo, bx.hi, idx), memory[..])
         == MixStep(aes, mask, base, MixState(al0, ah0, bx0.lo, bx0.hi, idx0), old(memory[..]))
  {
    al, ah, bx, idx := al0, ah0, bx0, idx0;
    AndBelow(idx, mask);
    var cx := memory[base + CellIndex(idx, mask)];
    cx := aes.enc(cx, Block(al, ah));
    memory[base + CellIndex(idx, mask)] := XorBlock(bx, cx);
    idx := cx.lo;
    bx := cx;
    ghost var half := RoundHalf(aes, mask, base, MixState(al0, ah0, bx0.lo, bx0.hi, idx0), old(memory[..]));
    assert memory[..] == half.1;
    assert MixState(al, ah, bx.lo, bx.hi, idx) == half.0;
    al, ah, idx := HardMulHalf(mask, base, memory, al, ah, bx, idx);
  }

  /** The mixer of `cryptonight_hash` on the lane from cell `base` on,
    * started from state h: `iterations` iterations in either branch leave
    * the scratchpad the specification's run gives. */
  method Mix(aes: AesPrimitives, soft: bool, iterations: nat, mask: u64, base: nat, h: seq<u64>, memory: array<Block>)
    requires |h| == 25 && Fits(mask, base, memory.Length)
    modifies memory
    ensures memory[..] == MixRun(aes, mask, base, iterations, InitMix(h), old(memory[..])).1
  {
    var al := Xor64(h[0], h[4]);
    var ah := Xor64(h[1], h[5]);
    var bl := Xor64(h[2], h[6]);
    var bh := Xor64(h[3], h[7]);
    var idx := Xor64(h[0], h[4]);
    ghost var m := memory[..];
    ghost var st := InitMix(h);
    if soft {
      for i := 0 to iterations
        invariant (MixState(al, ah, bl, bh, idx), memory[..]) == MixRun(aes, mask, base, i, st, m)
      {
        MixRunNext(aes, mask, base, i, st, m);
        al, ah, bl, bh, idx := SoftMixStep(aes, mask, base, memory, al, ah, bl, bh, idx);
      }
    } else {
      var bx := Block(bl, bh);
      for i := 0 to iterations
        invariant (MixState(al, ah, bx.lo, bx.hi, idx), memory[..]) == MixRun(aes, mask, base, i, st, m)
      {
        MixRunNext(aes, mask, base, i, st, m);
        al, ah, bx, idx := HardMixStep(aes, mask, base, memory, al, ah, bx, idx);
      }
    }
  }

  // ---------------------------------------------------------------------
  // Two lanes

  /** Lane 0 from cell b0 on and lane 1 from cell b1 on fit in a
    * scratchpad of n cells, lane 0 wholly below lane 1. */
  predicate TwoLanes(mask: u64, b0: nat, b1: nat, n: nat)
  {
    Fits(mask, b1, n) && b0 + mask / 16 < b1
  }

  /** One iteration of the loop of `cryptonight_double_hash`, in the
    * source's order: both round halves (lane 0, then lane 1), then both
    * multiply halves. */
  function DoubleStep(aes: AesPrimitives, mask: u64, b0: nat, b1: nat, s0: MixState, s1: MixState, m: seq<Block>)
    : (r: (MixState, MixState, seq<Block>))
    requires TwoLanes(mask, b0, b1, |m|)
    ensures |r.2| == |m|
  {
    var r0 := RoundHalf(aes, mask, b0, s0, m);
    var r1 := RoundHalf(aes, mask, b1, s1, r0.1);
    var u0 := MulHalf(mask, b0, r0.0, r1.1);
    var u1 := MulHalf(mask, b1, r1.0, u0.1);
    (u0.0, u1.0, u1.1)
  }

  /** Both lanes' loop variables and the scratchpad after n iterations of
    * the two-lane loop. */
  function DoubleRun(aes: AesPrimitives, mask: u64, b0: nat, b1: nat, n: nat, s0: MixState, s1: MixState, m: seq<Block>)
    : (r: (MixState, MixState, seq<Block>))
    requires TwoLanes(mask, b0, b1, |m|)
    ensures |r.2| == |m|
    decreases n
  {
    if n == 0 then (s0, s1, m)
    else
      var p := DoubleRun(aes, mask, b0, b1, n - 1, s0, s1, m);
      DoubleStep(aes, mask, b0, b1, p.0, p.1, p.2)
  }

  /** One more iteration of the two-lane loop. */
  lemma DoubleRunNext(aes: AesPrimitives, mask: u64, b0: nat, b1: nat, n: nat, s0: MixState, s1: MixState, m: seq<Block>)
    requires TwoLanes(mask, b0, b1, |m|)
    ensures DoubleRun(aes, mask, b0, b1, n + 1, s0, s1, m)
         == DoubleStep(aes, mask, b0, b1, DoubleRun(aes, mask, b0, b1, n, s0, s1, m).0,
                       DoubleRun(aes, mask, b0, b1, n, s0, s1, m).1, DoubleRun(aes, mask, b0, b1, n, s0, s1, m).2)
  {
  }

  /** The software branch of one two-lane iteration. */
  method SoftDoubleStep(aes: AesPrimitives, mask: u64, b0: nat, b1: nat, memory: array<Block>, s0: MixState, s1: MixState)
    returns (t0: MixState, t1: MixState)
    requires TwoLanes(mask, b0, b1, memory.Length)
    modifies memory
    ensures (t0, t1, memory[..]) == DoubleStep(aes, mask, b0, b1, s0, s1, old(memory[..]))
  {
    t0, t1 := SoftDoubleRound(aes, mask, b0, b1, memory, s0, s1);
    t0 := SoftMulHalf(mask, b0, memory, t0);
    t1 := SoftMulHalf(mask, b1, memory, t1);
  }

  /** The round halves of both lanes in the software branch: both cells
    * are encrypted before either is stored. */
  method SoftDoubleRound(aes: AesPrimitives, mask: u64, b0: nat, b1: nat, memory: array<Block>, s0: MixState, s1: MixState)
    returns (t0: MixState, t1: MixState)
    requires TwoLanes(mask, b0, b1, memory.Length)
    modifies memory
    ensures t0 == RoundHalf(aes, mask, b0, s0, old(memory[..])).0
    ensures (t1, memory[..]) == RoundHalf(aes, mask, b1, s1, RoundHalf(aes, mask, b0, s0, old(memory[..])).1)
  {
    var key0 := Block(s0.al, s0.ah);
    var key1 := Block(s1.al, s1.ah);
    AndBelow(s0.idx, mask);
    AndBelow(s1.idx, mask);
    var pl0 := b0 + CellIndex(s0.idx, mask);
    var pl1 := b1 + CellIndex(s1.idx, mask);
    var cx0 := aes.enc(memory[pl0], key0);
    var cx1 := aes.enc(memory[pl1], key1);
    memory[pl0] := Block(Xor64(s0.bl, cx0.lo), Xor64(s0.bh, cx0.hi));
    memory[pl1] := Block(Xor64(s1.bl, cx1.lo), Xor64(s1.bh, cx1.hi));
    t0 := MixState(s0.al, s0.ah, cx0.lo, cx0.hi, cx0.lo);
    t1 := MixState(s1.al, s1.ah, cx1.lo, cx1.hi, cx1.lo);
  }

  /** The multiply half of one lane in the software branch, through the
    * word pointer to the cell. */
  method SoftMulHalf(mask: u64, base: nat, memory: array<Block>, s: MixState) returns (t: MixState)
    requires Fits(mask, base, memory.Length)
    modifies memory
    ensures (t, memory[..]) == MulHalf(mask, base, s, old(memory[..]))
  {
    var al, ah, idx := s.al, s.ah, s.idx;
    AndBelow(idx, mask);
    var pl := base + CellIndex(idx, mask);
    var cl := memory[pl].lo;
    var ch := memory[pl].hi;
    var p := Umul128(idx, cl);
    var lo, hi := p.0, p.1;
    al := Add64(al, hi);
    ah := Add64(ah, lo);
    memory[pl] := Block(al, ah);
    ah := Xor64(ah, ch);
    al := Xor64(al, cl);
    idx := al;
    t := MixState(al, ah, s.bl, s.bh, idx);
  }

  /** The hardware branch of one two-lane iteration, with b held as the
    * blocks bx0 and bx1. */
  method HardDoubleStep(aes: AesPrimitives, mask: u64, b0: nat, b1: nat, memory: array<Block>,
                        al0: u64, ah0: u64, bx0: Block, idx0: u64, al1: u64, ah1: u64, bx1: Block, idx1: u64)
    returns (al0': u64, ah0': u64, bx0': Block, idx0': u64, al1': u64, ah1': u64, bx1': Block, idx1': u64)
    requires TwoLanes(mask, b0, b1, memory.Length)
    modifies memory
    ensures (MixState(al0', ah0', bx0'.lo, bx0'.hi, idx0'), MixState(al1', ah1', bx1'.lo, bx1'.hi, idx1'), memory[..])
         == DoubleStep(aes, mask, b0, b1, MixState(al0, ah0, bx0.lo, bx0.hi, idx0),
                       MixState(al1, ah1, bx1.lo, bx1.hi, idx1), old(memory[..]))
  {
    bx0', idx0', bx1', idx1' := HardDoubleRound(aes, mask, b0, b1, memory, al0, ah0, bx0, idx0, al1, ah1, bx1, idx1);
    al0', ah0', idx0' := HardMulHalf(mask, b0, memory, al0, ah0, bx0', idx0');
    al1', ah1', idx1' := HardMulHalf(mask, b1, memory, al1, ah1, bx1', idx1');
  }

  /** The round halves of both lanes in the hardware branch: both cells
    * are loaded and encrypted before either is stored. */
  method HardDoubleRound(aes: AesPrimitives, mask: u64, b0: nat, b1: nat, memory: array<Block>,
                         al0: u64, ah0: u64, bx0: Block, idx0: u64, al1: u64, ah1: u64, bx1: Block, idx1: u64)
    returns (bx0': Block, idx0': u64, bx1': Block, idx1': u64)
    requires TwoLanes(mask, b0, b1, memory.Length)
    modifies memory
    ensures MixState(al0, ah0, bx0'.lo, bx0'.hi, idx0')
         == RoundHalf(aes, mask, b0, MixState(al0, ah0, bx0.lo, bx0.hi, idx0), old(memory[..])).0
    ensures (MixState(al1, ah1, bx1'.lo, bx1'.hi, idx1'), memory[..])
         == RoundHalf(aes, mask, b1, MixState(al1, ah1, bx1.lo, bx1.hi, idx1),
                      RoundHalf(aes, mask, b0, MixState(al0, ah0, bx0.lo, bx0.hi, idx0), old(memory[..])).1)
  {
    AndBelow(idx0, mask);
    AndBelow(idx1, mask);
    var cx0 := memory[b0 + CellIndex(idx0, mask)];
    var cx1 := memory[b1 + CellIndex(idx1, mask)];
    cx0 := aes.enc(cx0, Block(al0, ah0));
    cx1 := aes.enc(cx1, Block(al1, ah1));
    memory[b0 + CellIndex(idx0, mask)] := XorBlock(bx0, cx0);
    memory[b1 + CellIndex(idx1, mask)] := XorBlock(bx1, cx1);
    idx0' := cx0.lo;
    idx1' := cx1.lo;
    bx0' := cx0;
    bx1' := cx1;
  }

  /** The multiply half of one lane in the hardware branch; b is not
    * touched. */
  method HardMulHalf(mask: u64, base: nat, memory: array<Block>, al0: u64, ah0: u64, bx: Block, idx0: u64)
    returns (al: u64, ah: u64, idx: u64)
    requires Fits(mask, base, memory.Length)
    modifies memory
    ensures (MixState(al, ah, bx.lo, bx.hi, idx), memory[..])
         == MulHalf(mask, base, MixState(al0, ah0, bx.lo, bx.hi, idx0), old(memory[..]))
  {
    al, ah, idx := al0, ah0, idx0;
    AndBelow(idx, mask);
    var cl := memory[base + CellIndex(idx, mask)].lo;
    var ch := memory[base + CellIndex(idx, mask)].hi;
    var p := Umul128(idx, cl);
    var lo, hi := p.0, p.1;
    al := Add64(al, hi);
    ah := Add64(ah, lo);
    memory[base + CellIndex(idx, mask)] := Block(al, ah);
    ah := Xor64(ah, ch);
    al := Xor64(al, cl);
    idx := al;
  }

  /** The mixer of `cryptonight_double_hash`: lane 0 from cell b0 on,
    * started from state h0, and lane 1 from cell b1 on, started from h1,
    * `iterations` iterations of the two-lane loop in either branch. */
  method DoubleMix(aes: AesPrimitives, soft: bool, iterations: nat, mask: u64, b0: nat, b1: nat,
                   h0: seq<u64>, h1: seq<u64>, memory: array<Block>)
    requires |h0| == 25 && |h1| == 25 && TwoLanes(mask, b0, b1, memory.Length)
    modifies memory
    ensures memory[..] == DoubleRun(aes, mask, b0, b1, iterations, InitMix(h0), InitMix(h1), old(memory[..])).2
  {
    var al0 := Xor64(h0[0], h0[4]);
    var al1 := Xor64(h1[0], h1[4]);
    var ah0 := Xor64(h0[1], h0[5]);
    var ah1 := Xor64(h1[1], h1[5]);
    var bl0 := Xor64(h0[2], h0[6]);
    var bl1 := Xor64(h1[2], h1[6]);
    var bh0 := Xor64(h0[3], h0[7]);
    var bh1 := Xor64(h1[3], h1[7]);
    var idx0 := Xor64(h0[0], h0[4]);
    var idx1 := Xor64(h1[0], h1[4]);
    ghost var m := memory[..];
    ghost var s0, s1 := InitMix(h0), InitMix(h1);
    if soft {
      var t0, t1 := MixState(al0, ah0, bl0, bh0, idx0), MixState(al1, ah1, bl1, bh1, idx1);
      for i := 0 to iterations
        invariant (t0, t1, memory[..]) == DoubleRun(aes, mask, b0, b1, i, s0, s1, m)
      {
        DoubleRunNext(aes, mask, b0, b1, i, s0, s1, m);
        t0, t1 := SoftDoubleStep(aes, mask, b0, b1, memory, t0, t1);
      }
    } else {
      var bx0 := Block(bl0, bh0);
      var bx1 := Block(bl1, bh1);
      for i := 0 to iterations
        invariant (MixState(al0, ah0, bx0.lo, bx0.hi, idx0), MixState(al1, ah1, bx1.lo, bx1.hi, idx1), memory[..])
               == DoubleRun(aes, mask, b0, b1, i, s0, s1, m)
      {
        DoubleRunNext(aes, mask, b0, b1, i, s0, s1, m);
        al0, ah0, bx0, idx0, al1, ah1, bx1, idx1 :=
          HardDoubleStep(aes, mask, b0, b1, memory, al0, ah0, bx0, idx0, al1, ah1, bx1, idx1);
      }
    }
  }
}
