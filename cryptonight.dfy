/** `cryptonight_hash` and `cryptonight_double_hash`: keccak of the input
  * into a 200-byte state, explode of the state into a scratchpad, the
  * mixer loop, implode of the scratchpad back into the state, keccak-f,
  * and one of four final hashes chosen by the low two bits of the state.
  * The double hash runs two inputs side by side on two lanes of one
  * scratchpad, and gives the two single hashes.
  */
module CryptoNight {
  import opened Bits
  import opened Aes
  import opened Scratchpad
  import opened ScratchpadFacts
  import opened Mixer
  import opened MixerFacts

  /** The 200-byte keccak state, as 25 little-endian 64-bit words. */
  type State = h: seq<u64> | |h| == 25 witness seq(25, i => 0)

  /** A 32-byte final hash. */
  type Digest = d: seq<u8> | |d| == 32 witness seq(32, i => 0)

  /** The primitives the pipeline calls and does not define: the AES
    * round, `keccak(in, inlen, md, 200)`, `keccakf(st, 24)` and the four
    * final hashes of `extra_hashes`. */
  datatype HashPrimitives = HashPrimitives(
    aes: AesPrimitives,
    keccak: seq<u8> -> State,
    keccakf: State -> State,
    blake: State -> Digest,
    groestl: State -> Digest,
    jh: State -> Digest,
    skein: State -> Digest)

  /** The template parameters ITERATIONS, MEM (bytes per lane) and MASK. */
  datatype Config = Config(iterations: nat, mem: nat, mask: u64)

  /** MEM is a whole number of 128-byte chunks, and MASK picks whole
    * 16-byte cells inside the MEM bytes of a lane. */
  predicate ValidConfig(c: Config)
  {
    c.mem % 128 == 0 && c.mask % 16 == 0 && c.mask + 16 <= c.mem
  }

  /** What a valid configuration gives a lane of MEM / 16 cells from cell
    * b on. */
  lemma LaneFits(c: Config, b: nat, len: nat)
    requires ValidConfig(c) && b + c.mem / 16 <= len
    ensures 8 * (c.mem / 128) == c.mem / 16
    ensures c.mask / 16 < c.mem / 16 && Fits(c.mask, b, len)
  {
    MemChunks(c.mem);
    DivModUnique(c.mask, 16, c.mask / 16, 0);
    DivModUnique(c.mem, 16, c.mem / 16, 0);
  }

  /** `ctx->state0[0] & 3`: byte 0 of the state, masked to two bits, is
    * the low two bits of state word 0. */
  function FinalizerIndex(h: State): (i: nat)
    ensures i < 4 && i == h[0] % 4
  {
    var byte0 := h[0] % 256;
    AndLowMask(byte0, 2);
    DivModUnique(h[0], 4, 64 * (h[0] / 256) + byte0 / 4, byte0 % 4);
    And64(byte0, 3)
  }

  /** `extra_hashes[i]`, in the table's order. */
  function ExtraHash(p: HashPrimitives, i: nat, h: State): Digest
    requires i < 4
  {
    if i == 0 then p.blake(h)
    else if i == 1 then p.groestl(h)
    else if i == 2 then p.jh(h)
    else p.skein(h)
  }

  /** keccak-f over the imploded state, then the final hash it selects. */
  function Finish(p: HashPrimitives, h: State): Digest
  {
    var f := p.keccakf(h);
    ExtraHash(p, FinalizerIndex(f), f)
  }

  /** The scratchpad m after explode of state h into the lane from cell b. */
  function Exploded(p: HashPrimitives, c: Config, h: State, m: seq<Block>, b: nat): (r: seq<Block>)
    requires ValidConfig(c) && b + c.mem / 16 <= |m|
    ensures |r| == |m|
  {
    LaneFits(c, b, |m|);
    Filled(p.aes, KeysAt(p.aes, h, 0), DataBlocks(h), m, b, c.mem / 128)
  }

  /** The scratchpad m after ITERATIONS iterations of the mixer on the lane
    * from cell b, started from state h. */
  function Mixed(p: HashPrimitives, c: Config, h: State, m: seq<Block>, b: nat): (r: seq<Block>)
    requires ValidConfig(c) && b + c.mem / 16 <= |m|
    ensures |r| == |m|
  {
    LaneFits(c, b, |m|);
    MixRun(p.aes, c.mask, b, c.iterations, InitMix(h), m).1
  }

  /** The state h after implode of the lane from cell b of m. */
  function Folded(p: HashPrimitives, c: Config, h: State, m: seq<Block>, b: nat): State
    requires ValidConfig(c) && b + c.mem / 16 <= |m|
  {
    LaneFits(c, b, |m|);
    ImplodedState(p.aes, h, m, b, c.mem / 128)
  }

  /** The hash of x computed on the lane from cell b of the scratchpad m. */
  function HashAt(p: HashPrimitives, c: Config, x: seq<u8>, m: seq<Block>, b: nat): Digest
    requires ValidConfig(c) && b + c.mem / 16 <= |m|
  {
    var h := p.keccak(x);
    Finish(p, Folded(p, c, h, Mixed(p, c, h, Exploded(p, c, h, m, b), b), b))
  }

  /** The CryptoNight hash of x: on a zeroed scratchpad of one lane
    * (HashIndependent shows that any other gives the same). */
  function Hash(p: HashPrimitives, c: Config, x: seq<u8>): Digest
    requires ValidConfig(c)
  {
    HashAt(p, c, x, seq(c.mem / 16, i => Block(0, 0)), 0)
  }

  /** The two hashes of the double pipeline, computed on the lanes from
    * cell 0 and from cell MEM / 16 of m. */
  function DoubleHashAt(p: HashPrimitives, c: Config, x0: seq<u8>, x1: seq<u8>, m: seq<Block>): seq<u8>
    requires ValidConfig(c) && 2 * (c.mem / 16) <= |m|
  {
    var f := DoubleFolded(p, c, p.keccak(x0), p.keccak(x1), m);
    Finish(p, f.0) + Finish(p, f.1)
  }

  /** The two states after explode, the interleaved mixer and implode on
    * the lanes from cell 0 and from cell MEM / 16 of m. */
  function DoubleFolded(p: HashPrimitives, c: Config, h0: State, h1: State, m: seq<Block>): (State, State)
    requires ValidConfig(c) && 2 * (c.mem / 16) <= |m|
  {
    var lane := c.mem / 16;
    LaneFits(c, lane, |m|);
    var e := Exploded(p, c, h1, Exploded(p, c, h0, m, 0), lane);
    var r := DoubleRun(p.aes, c.mask, 0, lane, c.iterations, InitMix(h0), InitMix(h1), e).2;
    (Folded(p, c, h0, r, 0), Folded(p, c, h1, r, lane))
  }

  // ---------------------------------------------------------------------
  // What the hash depends on

  /** Explode of the same state into two lanes fills both alike. */
  lemma ExplodedMatch(p: HashPrimitives, c: Config, h: State, m1: seq<Block>, b1: nat, m2: seq<Block>, b2: nat)
    requires ValidConfig(c) && b1 + c.mem / 16 <= |m1| && b2 + c.mem / 16 <= |m2|
    ensures LaneMatch(Exploded(p, c, h, m1, b1), b1, Exploded(p, c, h, m2, b2), b2, c.mem / 16)
  {
    LaneFits(c, b1, |m1|);
    FilledMatch(p.aes, KeysAt(p.aes, h, 0), DataBlocks(h), m1, b1, m2, b2, c.mem / 128);
  }

  /** Mixing and imploding two lanes that hold the same cells gives the
    * same state, wherever the lanes lie. */
  lemma FoldAfterMix(p: HashPrimitives, c: Config, h: State, m1: seq<Block>, b1: nat, m2: seq<Block>, b2: nat)
    requires ValidConfig(c) && LaneMatch(m1, b1, m2, b2, c.mem / 16)
    ensures Folded(p, c, h, Mixed(p, c, h, m1, b1), b1) == Folded(p, c, h, Mixed(p, c, h, m2, b2), b2)
  {
    LaneFits(c, b1, |m1|);
    LaneFits(c, b2, |m2|);
    MixRunShiftWide(p.aes, c.mask, b1, b2, c.iterations, InitMix(h), m1, m2, c.mem / 16);
    ImplodeLanesShift(p.aes, KeysAt(p.aes, h, 2), DataBlocks(h),
      Mixed(p, c, h, m1, b1), b1, Mixed(p, c, h, m2, b2), b2, c.mem / 128);
  }

  /** The hash depends only on the input: not on what the scratchpad held
    * before, nor on where the lane lies in it. */
  lemma HashIndependent(p: HashPrimitives, c: Config, x: seq<u8>, m: seq<Block>, b: nat)
    requires ValidConfig(c) && b + c.mem / 16 <= |m|
    ensures HashAt(p, c, x, m, b) == Hash(p, c, x)
  {
    var h := p.keccak(x);
    var zero := seq(c.mem / 16, i => Block(0, 0));
    ExplodedMatch(p, c, h, m, b, zero, 0);
    FoldAfterMix(p, c, h, Exploded(p, c, h, m, b), b, Exploded(p, c, h, zero, 0), 0);
  }

  /** The double hash is the single hash of each input, the first in bytes
    * 0-31 of the output and the second in bytes 32-63. */
  lemma DoubleHashIsTwoHashes(p: HashPrimitives, c: Config, x0: seq<u8>, x1: seq<u8>, m: seq<Block>)
    requires ValidConfig(c) && 2 * (c.mem / 16) <= |m|
    ensures DoubleHashAt(p, c, x0, x1, m) == Hash(p, c, x0) + Hash(p, c, x1)
  {
    var lane := c.mem / 16;
    LaneFits(c, lane, |m|);
    LaneFits(c, 0, |m|);
    var h0, h1 := p.keccak(x0), p.keccak(x1);
    var e0 := Exploded(p, c, h0, m, 0);
    var e := Exploded(p, c, h1, e0, lane);
    var r := DoubleRun(p.aes, c.mask, 0, lane, c.iterations, InitMix(h0), InitMix(h1), e).2;
    var a := Mixed(p, c, h0, e, 0);
    DoubleRunIsTwoRuns(p.aes, c.mask, 0, lane, c.iterations, InitMix(h0), InitMix(h1), e);
    assert r == Mixed(p, c, h1, a, lane);
    FirstLane(p, c, h0, h1, m, e0, e, a, r);
    SecondLane(p, c, h0, h1, m, e0, e, a, r);
    HashIndependent(p, c, x0, m, 0);
    HashIndependent(p, c, x1, m, lane);
  }

  /** Lane 0 of the double hash implodes to what lane 0 of a single hash
    * on m does. */
  lemma FirstLane(p: HashPrimitives, c: Config, h0: State, h1: State, m: seq<Block>,
                  e0: seq<Block>, e: seq<Block>, a: seq<Block>, r: seq<Block>)
    requires ValidConfig(c) && 2 * (c.mem / 16) <= |m|
    requires e0 == Exploded(p, c, h0, m, 0) && e == Exploded(p, c, h1, e0, c.mem / 16)
    requires a == Mixed(p, c, h0, e, 0) && r == Mixed(p, c, h1, a, c.mem / 16)
    ensures Folded(p, c, h0, r, 0) == Folded(p, c, h0, Mixed(p, c, h0, e0, 0), 0)
  {
    var lane := c.mem / 16;
    LaneFits(c, lane, |m|);
    RunLeavesOtherLane(p.aes, c.mask, lane, c.iterations, InitMix(h1), a, 0, lane);
    ImplodeLanesShift(p.aes, KeysAt(p.aes, h0, 2), DataBlocks(h0), r, 0, a, 0, c.mem / 128);
    FilledElsewhere(p.aes, KeysAt(p.aes, h1, 0), DataBlocks(h1), e0, lane, c.mem / 128, 0, lane);
    FoldAfterMix(p, c, h0, e, 0, e0, 0);
  }

  /** Lane 1 of the double hash implodes to what a single hash on the lane
    * from cell MEM / 16 of m does. */
  lemma SecondLane(p: HashPrimitives, c: Config, h0: State, h1: State, m: seq<Block>,
                   e0: seq<Block>, e: seq<Block>, a: seq<Block>, r: seq<Block>)
    requires ValidConfig(c) && 2 * (c.mem / 16) <= |m|
    requires e0 == Exploded(p, c, h0, m, 0) && e == Exploded(p, c, h1, e0, c.mem / 16)
    requires a == Mixed(p, c, h0, e, 0) && r == Mixed(p, c, h1, a, c.mem / 16)
    ensures Folded(p, c, h1, r, c.mem / 16)
         == Folded(p, c, h1, Mixed(p, c, h1, Exploded(p, c, h1, m, c.mem / 16), c.mem / 16), c.mem / 16)
  {
    var lane := c.mem / 16;
    LaneFits(c, lane, |m|);
    LaneFits(c, 0, |m|);
    RunLeavesOtherLane(p.aes, c.mask, 0, c.iterations, InitMix(h0), e, lane, lane);
    ExplodedMatch(p, c, h1, e0, lane, m, lane);
    LaneMatchTrans(a, lane, e, lane, Exploded(p, c, h1, m, lane), lane, lane);
    FoldAfterMix(p, c, h1, a, lane, Exploded(p, c, h1, m, lane), lane);
  }

  // ---------------------------------------------------------------------
  // The two entry points

  /** `(int) size`: the length the entry points hand to keccak, the
    * size_t narrowed to a 32-bit two's-complement int. */
  function KeccakLength(size: nat): int
  {
    var w := size % TWO_32;
    if w < 0x8000_0000 then w else w - TWO_32
  }

  /** The narrowed length is size itself below 2^31, and never more than
    * size when it is not negative. */
  lemma KeccakLengthBounds(size: nat)
    ensures -0x8000_0000 <= KeccakLength(size) < 0x8000_0000
    ensures size < 0x8000_0000 ==> KeccakLength(size) == size
    ensures KeccakLength(size) >= 0 ==> KeccakLength(size) <= size
  {
    var w := size % TWO_32;
    DivModUnique(size - w, TWO_32, size / TWO_32, 0);
    if size < 0x8000_0000 {
      DivModUnique(size, TWO_32, 0, size);
    }
  }

  /** The narrowed length agrees with size modulo 2^32: sizes 2^32 apart
    * narrow alike, so a size of 2^32 + 76 bytes hashes only 76 of them. */
  lemma KeccakLengthWraps(size: nat)
    ensures KeccakLength(size + TWO_32) == KeccakLength(size)
    ensures (size - KeccakLength(size)) % TWO_32 == 0
    ensures KeccakLength(TWO_32 + 76) == 76
  {
    var w := size % TWO_32;
    DivModUnique(size + TWO_32, TWO_32, size / TWO_32 + 1, w);
    DivModUnique(TWO_32 + 76, TWO_32, 1, 76);
    if w < 0x8000_0000 {
      DivModUnique(size - w, TWO_32, size / TWO_32, 0);
    } else {
      DivModUnique(size - (w - TWO_32), TWO_32, size / TWO_32 + 1, 0);
    }
  }

  /** keccak and keccak-f write their 200-byte result over the state. */
  method StoreState(state: array<u64>, h: State)
    requires state.Length == 25
    modifies state
    ensures state[..] == h
  {
    forall i | 0 <= i < 25 {
      state[i] := h[i];
    }
  }

  /** `cn_explode_scratchpad<MEM, SOFT_AES>(state, memory + base)` in
    * the pipeline's terms. */
  method ExplodeLane(p: HashPrimitives, c: Config, soft: bool, state: array<u64>, memory: array<Block>, b: nat)
    requires ValidConfig(c) && state.Length == 25 && b + c.mem / 16 <= memory.Length
    modifies memory
    ensures memory[..] == Exploded(p, c, state[..], old(memory[..]), b)
  {
    ExplodeScratchpad(p.aes, soft, c.mem, state[..], memory, b);
  }

  /** `cn_implode_scratchpad<MEM, SOFT_AES>(memory + base, state)` in the
    * pipeline's terms. */
  method ImplodeLane(p: HashPrimitives, c: Config, soft: bool, memory: array<Block>, b: nat, state: array<u64>)
    requires ValidConfig(c) && state.Length == 25 && b + c.mem / 16 <= memory.Length
    modifies state
    ensures state[..] == Folded(p, c, old(state[..]), memory[..], b)
  {
    ImplodeScratchpad(p.aes, soft, c.mem, memory[..], b, state);
  }

  /** `keccakf(h, 24)` in place, then `extra_hashes[state[0] & 3]`. */
  method Squeeze(p: HashPrimitives, state: array<u64>) returns (d: Digest)
    requires state.Length == 25
    modifies state
    ensures state[..] == p.keccakf(old(state[..]))
    ensures d == Finish(p, old(state[..]))
  {
    StoreState(state, p.keccakf(state[..]));
    d := ExtraHash(p, FinalizerIndex(state[..]), state[..]);
  }

  /** `cryptonight_hash<ITERATIONS, MEM, MASK, SOFT_AES>(input, size,
    * output, ctx)`: the 32-byte hash of the first `(int) size` bytes of
    * input (all size of them below 2^31), computed in ctx's state and
    * scratchpad. A narrowed length below zero is outside the model. */
  method CryptonightHash(p: HashPrimitives, c: Config, soft: bool, input: seq<u8>, size: nat,
                         state: array<u64>, memory: array<Block>) returns (output: Digest)
    requires ValidConfig(c) && size <= |input| && state.Length == 25 && c.mem / 16 <= memory.Length
    requires KeccakLength(size) >= 0
    modifies state, memory
    ensures output == Hash(p, c, input[..KeccakLength(size)])
  {
    LaneFits(c, 0, memory.Length);
    ghost var m := memory[..];
    KeccakLengthBounds(size);
    var n := KeccakLength(size);
    var h := p.keccak(input[..n]);
    StoreState(state, h);
    ExplodeLane(p, c, soft, state, memory, 0);
    Mix(p.aes, soft, c.iterations, c.mask, 0, state[..], memory);
    assert memory[..] == Mixed(p, c, h, Exploded(p, c, h, m, 0), 0);
    ImplodeLane(p, c, soft, memory, 0, state);
    output := Squeeze(p, state);
    HashIndependent(p, c, input[..n], m, 0);
  }

  /** The middle of `cryptonight_double_hash`: explode of both states,
    * the interleaved mixer, implode of both lanes. */
  method DoubleLanes(p: HashPrimitives, c: Config, soft: bool, state0: array<u64>, state1: array<u64>, memory: array<Block>)
    requires ValidConfig(c) && 2 * (c.mem / 16) <= memory.Length
    requires state0.Length == 25 && state1.Length == 25 && state0 != state1
    modifies state0, state1, memory
    ensures (state0[..], state1[..]) == DoubleFolded(p, c, old(state0[..]), old(state1[..]), old(memory[..]))
  {
    var lane := c.mem / 16;
    LaneFits(c, lane, memory.Length);
    assert TwoLanes(c.mask, 0, lane, memory.Length);
    ghost var h0, h1, m := state0[..], state1[..], memory[..];
    ExplodeLane(p, c, soft, state0, memory, 0);
    ghost var e0 := memory[..];
    ExplodeLane(p, c, soft, state1, memory, lane);
    ghost var e := memory[..];
    assert e == Exploded(p, c, h1, e0, lane) && e0 == Exploded(p, c, h0, m, 0);
    DoubleMix(p.aes, soft, c.iterations, c.mask, 0, lane, state0[..], state1[..], memory);
    ghost var r := memory[..];
    assert r == DoubleRun(p.aes, c.mask, 0, lane, c.iterations, InitMix(h0), InitMix(h1), e).2;
    assert state0[..] == h0 && state1[..] == h1;
    ImplodeLane(p, c, soft, memory, 0, state0);
    ghost var f0 := state0[..];
    assert f0 == Folded(p, c, h0, r, 0);
    ImplodeLane(p, c, soft, memory, lane, state1);
    assert state0[..] == f0;
  }

  /** The body of `cryptonight_double_hash` once the two keccak inputs
    * x0 and x1 are cut out of input: both hashes, interleaved on the two
    * lanes of memory. */
  method HashPair(p: HashPrimitives, c: Config, soft: bool, x0: seq<u8>, x1: seq<u8>,
                  state0: array<u64>, state1: array<u64>, memory: array<Block>) returns (output: seq<u8>)
    requires ValidConfig(c) && 2 * (c.mem / 16) <= memory.Length
    requires state0.Length == 25 && state1.Length == 25 && state0 != state1
    modifies state0, state1, memory
    ensures output == DoubleHashAt(p, c, x0, x1, old(memory[..]))
    ensures output == Hash(p, c, x0) + Hash(p, c, x1)
  {
    ghost var m := memory[..];
    var h0 := p.keccak(x0);
    StoreState(state0, h0);
    var h1 := p.keccak(x1);
    StoreState(state1, h1);
    assert state0[..] == h0;
    DoubleLanes(p, c, soft, state0, state1, memory);
    ghost var f := DoubleFolded(p, c, h0, h1, m);
    assert state0[..] == f.0 && state1[..] == f.1;
    var d0: seq<u8> := Squeeze(p, state0);
    assert state1[..] == f.1;
    var d1: seq<u8> := Squeeze(p, state1);
    output := d0 + d1;
    assert output == DoubleHashAt(p, c, x0, x1, m);
    DoubleHashIsTwoHashes(p, c, x0, x1, m);
  }

  /** `cryptonight_double_hash<ITERATIONS, MEM, MASK, SOFT_AES>(input,
    * size, output, ctx)`: the hashes of the `(int) size` bytes from
    * input and from input + size (bytes 0 .. size - 1 and size ..
    * 2 * size - 1 below 2^31), interleaved on the two MEM-byte lanes of
    * ctx's scratchpad, written to output bytes 0-31 and 32-63. `len` is
    * that narrowed length, which the source computes once and passes to
    * both keccak calls; a narrowed length below zero is outside the
    * model. */
  method CryptonightDoubleHash(p: HashPrimitives, c: Config, soft: bool, input: seq<u8>, size: nat, len: int,
                               state0: array<u64>, state1: array<u64>, memory: array<Block>) returns (output: seq<u8>)
    requires ValidConfig(c) && 2 * size <= |input| && 2 * (c.mem / 16) <= memory.Length
    requires state0.Length == 25 && state1.Length == 25 && state0 != state1
    requires len == KeccakLength(size) && 0 <= len
    modifies state0, state1, memory
    ensures output == DoubleHashAt(p, c, input[..len], input[size..size + len], old(memory[..]))
    ensures output == Hash(p, c, input[..len]) + Hash(p, c, input[size..size + len])
  {
    KeccakLengthBounds(size);
    output := HashPair(p, c, soft, input[..len], input[size..size + len], state0, state1, memory);
  }

}
