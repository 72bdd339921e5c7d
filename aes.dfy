/** 128-bit blocks, the AES primitives CryptoNight calls, and the key-schedule
  * skeleton around them (`sl_xor`, `aes_genkey_sub`, `aes_genkey`).
  *
  * The AES round (`_mm_aesenc_si128`, `soft_aesenc`) and the key-generation
  * assist (`_mm_aeskeygenassist_si128`, `soft_aeskeygenassist`) are not
  * modelled: they are given as function values. The hardware and the
  * software branch of the source call the same record of primitives here.
  */
module Aes {
  import opened Bits

  /** An `__m128i`: bytes 0-7 in lo and bytes 8-15 in hi, little-endian. */
  datatype Block = Block(lo: u64, hi: u64)

  /** The round primitives: enc(state, roundKey) is one AES round (section
    * 5.1 of FIPS-197: SubBytes, ShiftRows, MixColumns, AddRoundKey), and
    * keygenAssist(x, rcon) is the key-generation assist. */
  datatype AesPrimitives = AesPrimitives(
    enc: (Block, Block) -> Block,
    keygenAssist: (Block, u8) -> Block)

  /** `_mm_xor_si128`. */
  function XorBlock(x: Block, y: Block): Block
  {
    Block(Xor64(x.lo, y.lo), Xor64(x.hi, y.hi))
  }

  /** The 32-bit lane i of a block, lane 0 lowest. */
  function Lane(x: Block, i: nat): u32
    requires i < 4
  {
    if i == 0 then x.lo % TWO_32
    else if i == 1 then x.lo / TWO_32
    else if i == 2 then x.hi % TWO_32
    else x.hi / TWO_32
  }

  /** The block whose lanes are w0, w1, w2, w3. */
  function FromLanes(w0: u32, w1: u32, w2: u32, w3: u32): (r: Block)
    ensures Lane(r, 0) == w0 && Lane(r, 1) == w1 && Lane(r, 2) == w2 && Lane(r, 3) == w3
  {
    DivModUnique(w0 + TWO_32 * w1, TWO_32, w1, w0);
    DivModUnique(w2 + TWO_32 * w3, TWO_32, w3, w2);
    Block(w0 + TWO_32 * w1, w2 + TWO_32 * w3)
  }

  /** `_mm_slli_si128(x, 4)`: the 128-bit value moved up four bytes, which
    * moves every lane up one place and clears lane 0. */
  function ShiftUp4(x: Block): Block
  {
    FromLanes(0, Lane(x, 0), Lane(x, 1), Lane(x, 2))
  }

  /** `_mm_shuffle_epi32(x, imm)`: lane j of the result is the lane of x
    * selected by bits 2j+1..2j of imm. */
  function Shuffle32(x: Block, imm: u8): Block
  {
    FromLanes(Lane(x, imm % 4), Lane(x, (imm / 4) % 4), Lane(x, (imm / 16) % 4), Lane(x, (imm / 64) % 4))
  }

  /** `sl_xor`: shift and XOR the block into itself three times. */
  function SlXor(tmp1: Block): Block
  {
    var tmp4 := ShiftUp4(tmp1);
    var tmp1 := XorBlock(tmp1, tmp4);
    var tmp4 := ShiftUp4(tmp4);
    var tmp1 := XorBlock(tmp1, tmp4);
    var tmp4 := ShiftUp4(tmp4);
    XorBlock(tmp1, tmp4)
  }

  /** One sub-step of the key generation (`aes_genkey_sub` and
    * `soft_aes_genkey_sub`): from the pair (xout0, xout2) and the round
    * constant, the next pair of round keys. */
  function GenKeySub(aes: AesPrimitives, rcon: u8, xout0: Block, xout2: Block): (Block, Block)
  {
    var xout1 := Shuffle32(aes.keygenAssist(xout2, rcon), 0xFF);
    var xout0 := XorBlock(SlXor(xout0), xout1);
    var xout1 := Shuffle32(aes.keygenAssist(xout0, 0x00), 0xAA);
    var xout2 := XorBlock(SlXor(xout2), xout1);
    (xout0, xout2)
  }

  /** The round constant of the n-th key-generation sub-step. */
  function Rcon(n: nat): u8
    requires 1 <= n <= 4
  {
    [0x01, 0x02, 0x04, 0x08][n - 1]
  }

  /** The sub-step of the key generation as a value, so that the shape of
    * the schedule can be reasoned about apart from the step itself. */
  function GenKeyStep(aes: AesPrimitives): (u8, Block, Block) -> (Block, Block)
  {
    (rcon: u8, xout0: Block, xout2: Block) => GenKeySub(aes, rcon, xout0, xout2)
  }

  /** The seed pair followed by the n pairs of round keys derived from it,
    * each pair by `step` from the one before. */
  function KeyPairs(step: (u8, Block, Block) -> (Block, Block), seed0: Block, seed1: Block, n: nat): (k: seq<Block>)
    requires n <= 4
    ensures |k| == 2 * n + 2
    decreases n
  {
    if n == 0 then [seed0, seed1]
    else
      var prev := KeyPairs(step, seed0, seed1, n - 1);
      var next := step(Rcon(n), prev[2 * n - 2], prev[2 * n - 1]);
      prev + [next.0, next.1]
  }

  /** The ten round keys `aes_genkey` derives from two seed blocks. */
  function KeySchedule(aes: AesPrimitives, seed0: Block, seed1: Block): (k: seq<Block>)
    ensures |k| == 10
  {
    KeyPairs(GenKeyStep(aes), seed0, seed1, 4)
  }

  /** The block at index k of a buffer of 64-bit words. */
  function LoadBlock(h: seq<u64>, k: nat): Block
    requires 2 * k + 1 < |h|
  {
    Block(h[2 * k], h[2 * k + 1])
  }

  /** The ten round keys `aes_genkey` derives from the blocks at index at
    * and at + 1 of a buffer of 64-bit words. */
  function KeysAt(aes: AesPrimitives, h: seq<u64>, at: nat): (k: seq<Block>)
    requires 2 * at + 3 < |h|
    ensures |k| == 10
  {
    KeySchedule(aes, LoadBlock(h, at), LoadBlock(h, at + 1))
  }

  /** `aes_genkey`: load the two seed blocks at block index `at` of the
    * buffer and derive the round keys k0..k9 pair by pair, with round
    * constants 1, 2, 4 and 8. */
  method AesGenKey(aes: AesPrimitives, memory: seq<u64>, at: nat) returns (k: seq<Block>)
    requires 2 * at + 3 < |memory|
    ensures |k| == 10
    ensures k == KeysAt(aes, memory, at)
  {
    var xout0 := Block(memory[2 * at], memory[2 * at + 1]);
    var xout2 := Block(memory[2 * at + 2], memory[2 * at + 3]);
    ghost var seed0, seed1 := xout0, xout2;
    assert seed0 == LoadBlock(memory, at) && seed1 == LoadBlock(memory, at + 1);
    k := [xout0, xout2];
    xout0, xout2 := GenKeySub(aes, 0x01, xout0, xout2).0, GenKeySub(aes, 0x01, xout0, xout2).1;
    k := k + [xout0, xout2];
    assert k == KeyPairs(GenKeyStep(aes), seed0, seed1, 1);
    xout0, xout2 := GenKeySub(aes, 0x02, xout0, xout2).0, GenKeySub(aes, 0x02, xout0, xout2).1;
    k := k + [xout0, xout2];
    assert k == KeyPairs(GenKeyStep(aes), seed0, seed1, 2);
    xout0, xout2 := GenKeySub(aes, 0x04, xout0, xout2).0, GenKeySub(aes, 0x04, xout0, xout2).1;
    k := k + [xout0, xout2];
    assert k == KeyPairs(GenKeyStep(aes), seed0, seed1, 3);
    xout0, xout2 := GenKeySub(aes, 0x08, xout0, xout2).0, GenKeySub(aes, 0x08, xout0, xout2).1;
    k := k + [xout0, xout2];
    assert k == KeyPairs(GenKeyStep(aes), seed0, seed1, 4);
  }

  /** `aes_round` (and `soft_aes_round`, which is taken to do the same): one
    * round with the same key on each of the eight blocks of a 128-byte chunk. */
  function RoundChunk(aes: AesPrimitives, key: Block, x: seq<Block>): (r: seq<Block>)
    requires |x| == 8
    ensures |r| == 8
  {
    seq(8, j requires 0 <= j < 8 => aes.enc(x[j], key))
  }

  /** One round per key of `keys`, in order, on every block of a chunk. */
  function Rounds(aes: AesPrimitives, keys: seq<Block>, x: seq<Block>): (r: seq<Block>)
    requires |x| == 8
    ensures |r| == 8
    decreases |keys|
  {
    if |keys| == 0 then x else RoundChunk(aes, keys[|keys| - 1], Rounds(aes, keys[..|keys| - 1], x))
  }

  /** The ten rounds with keys k0, ..., k9 that explode and implode apply to
    * every chunk. */
  function TenRounds(aes: AesPrimitives, k: seq<Block>, x: seq<Block>): (r: seq<Block>)
    requires |k| == 10 && |x| == 8
    ensures |r| == 8
  {
    Rounds(aes, k, x)
  }

  /** Rounds with the first n + 1 keys are one more round after the rounds
    * with the first n. */
  lemma RoundsStep(aes: AesPrimitives, k: seq<Block>, x: seq<Block>, n: nat)
    requires n < |k| && |x| == 8
    ensures Rounds(aes, k[..n + 1], x) == RoundChunk(aes, k[n], Rounds(aes, k[..n], x))
  {
    assert k[..n + 1][..n] == k[..n];
  }

  // ---------------------------------------------------------------------
  // Lane arithmetic

  lemma LaneXor(x: Block, y: Block)
    ensures forall i :: 0 <= i < 4 ==> Lane(XorBlock(x, y), i) == Xor32(Lane(x, i), Lane(y, i))
  {
    XorHalves(x.lo, y.lo);
    XorHalves(x.hi, y.hi);
  }

  lemma ShiftUp4Lanes(x: Block)
    ensures Lane(ShiftUp4(x), 0) == 0
    ensures Lane(ShiftUp4(x), 1) == Lane(x, 0)
    ensures Lane(ShiftUp4(x), 2) == Lane(x, 1)
    ensures Lane(ShiftUp4(x), 3) == Lane(x, 2)
  {
  }

  lemma Xor32Zero(a: u32)
    ensures Xor32(a, 0) == a
  {
    XorZero(a);
  }

  /** `sl_xor(a1 a2 a3 a4) = a1 (a2^a1) (a3^a2^a1) (a4^a3^a2^a1)`, lane by
    * lane, each lane the XOR of itself and every lane below it. */
  lemma SlXorLanes(x: Block)
    ensures Lane(SlXor(x), 0) == Lane(x, 0)
    ensures Lane(SlXor(x), 1) == Xor32(Lane(x, 1), Lane(x, 0))
    ensures Lane(SlXor(x), 2) == Xor32(Xor32(Lane(x, 2), Lane(x, 1)), Lane(x, 0))
    ensures Lane(SlXor(x), 3) == Xor32(Xor32(Xor32(Lane(x, 3), Lane(x, 2)), Lane(x, 1)), Lane(x, 0))
  {
    var s1 := ShiftUp4(x);
    var t1 := XorBlock(x, s1);
    var s2 := ShiftUp4(s1);
    var t2 := XorBlock(t1, s2);
    var s3 := ShiftUp4(s2);
    ShiftUp4Lanes(x);
    ShiftUp4Lanes(s1);
    ShiftUp4Lanes(s2);
    LaneXor(x, s1);
    LaneXor(t1, s2);
    LaneXor(t2, s3);
    Xor32Zero(Lane(x, 0));
    Xor32Zero(Lane(t1, 0));
    Xor32Zero(Lane(t1, 1));
    Xor32Zero(Lane(t2, 0));
    Xor32Zero(Lane(t2, 1));
    Xor32Zero(Lane(t2, 2));
  }

  lemma Xor32Assoc(a: u32, b: u32, c: u32)
    ensures Xor32(Xor32(a, b), c) == Xor32(a, Xor32(b, c))
  {
    XorAssoc(a, b, c);
  }

  /** Broadcasting one lane to all four. */
  lemma ShuffleBroadcast(x: Block)
    ensures forall j :: 0 <= j < 4 ==> Lane(Shuffle32(x, 0xFF), j) == Lane(x, 3)
    ensures forall j :: 0 <= j < 4 ==> Lane(Shuffle32(x, 0xAA), j) == Lane(x, 2)
  {
  }

  /** uint32_t `^` as a value. */
  const XorLane: (u32, u32) -> u32 := (x: u32, y: u32) => Xor32(x, y)

  /** The lane recurrence of one half of a key-generation step: with a_j
    * the lanes of the old key and n_j those of the new one, n_0 = a_0 ^ t
    * and n_j = a_j ^ n_{j-1}, for the XOR of lanes `xor`. */
  predicate RunningXor(n: Block, a: Block, t: u32, xor: (u32, u32) -> u32)
  {
    && Lane(n, 0) == xor(Lane(a, 0), t)
    && Lane(n, 1) == xor(Lane(a, 1), Lane(n, 0))
    && Lane(n, 2) == xor(Lane(a, 2), Lane(n, 1))
    && Lane(n, 3) == xor(Lane(a, 3), Lane(n, 2))
  }

  /** SlXor(x) ^ broadcast(t) is the running XOR of the lanes of x, seeded
    * with t. */
  lemma SlXorBroadcast(x: Block, b: Block, t: u32)
    requires forall j :: 0 <= j < 4 ==> Lane(b, j) == t
    ensures RunningXor(XorBlock(SlXor(x), b), x, t, XorLane)
  {
    var a0, a1, a2, a3 := Lane(x, 0), Lane(x, 1), Lane(x, 2), Lane(x, 3);
    SlXorLanes(x);
    LaneXor(SlXor(x), b);
    var p1 := Xor32(a1, a0);
    var p2 := Xor32(a2, p1);
    Xor32Assoc(a2, a1, a0);
    Xor32Assoc(Xor32(a3, a2), a1, a0);
    Xor32Assoc(a3, a2, p1);
    assert Lane(SlXor(x), 3) == Xor32(a3, p2);
    Xor32Assoc(a1, a0, t);
    Xor32Assoc(a2, p1, t);
    Xor32Assoc(a3, p2, t);
  }

  /** One `aes_genkey_sub` step is one stretch of the AES-256 key expansion
    * (section 5.2 of FIPS-197, Nk = 8): with w_j the lanes of xout0, the
    * new first key has lanes w'_0 = w_0 ^ t and w'_j = w_j ^ w'_{j-1}, where t
    * is lane 3 of the assist applied to the previous key xout2 with the
    * round constant (RotWord, SubWord and Rcon of the standard); the new
    * second key follows the same rule from xout2, with lane 2 of the assist
    * applied to the new first key with constant 0 (SubWord alone). */
  lemma GenKeySubRecurrence(aes: AesPrimitives, rcon: u8, xout0: Block, xout2: Block)
    ensures var n := GenKeySub(aes, rcon, xout0, xout2);
      && RunningXor(n.0, xout0, Lane(aes.keygenAssist(xout2, rcon), 3), XorLane)
      && RunningXor(n.1, xout2, Lane(aes.keygenAssist(n.0, 0x00), 2), XorLane)
  {
    var n := GenKeySub(aes, rcon, xout0, xout2);
    ShuffleBroadcast(aes.keygenAssist(xout2, rcon));
    SlXorBroadcast(xout0, Shuffle32(aes.keygenAssist(xout2, rcon), 0xFF), Lane(aes.keygenAssist(xout2, rcon), 3));
    ShuffleBroadcast(aes.keygenAssist(n.0, 0x00));
    SlXorBroadcast(xout2, Shuffle32(aes.keygenAssist(n.0, 0x00), 0xAA), Lane(aes.keygenAssist(n.0, 0x00), 2));
  }
}
