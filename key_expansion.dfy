/** An independent reference for `aes_genkey`: the AES-256 key expansion of
  * section 5.2 of FIPS-197 (Nk = 8), word by word, with RotWord, SubWord
  * and Rcon supplied by the same key-generation assist the source calls.
  *
  * The correspondence does not depend on what the word XOR is, so it is
  * proved for any `xor` and then used with uint32_t `^`.
  */
module KeyExpansion {
  import opened Bits
  import opened Aes

  /** The first n words of the expanded key: words 0-7 are the two seed
    * blocks; after that w[i] = w[i-8] ^ temp, where temp is lane 3 of the
    * assist of the previous four words with Rcon[i/8] when i is a multiple
    * of 8, lane 2 of the assist with constant 0 when i is 4 past a multiple
    * of 8, and w[i-1] otherwise. */
  function ExpansionWith(aes: AesPrimitives, xor: (u32, u32) -> u32, seed0: Block, seed1: Block, n: nat): (w: seq<u32>)
    requires 8 <= n <= 40
    ensures |w| == n
    decreases n
  {
    if n == 8 then
      [Lane(seed0, 0), Lane(seed0, 1), Lane(seed0, 2), Lane(seed0, 3),
       Lane(seed1, 0), Lane(seed1, 1), Lane(seed1, 2), Lane(seed1, 3)]
    else
      var w := ExpansionWith(aes, xor, seed0, seed1, n - 1);
      var i := n - 1;
      var prev := FromLanes(w[i - 4], w[i - 3], w[i - 2], w[i - 1]);
      var temp :=
        if i % 8 == 0 then Lane(aes.keygenAssist(prev, Rcon(i / 8)), 3)
        else if i % 8 == 4 then Lane(aes.keygenAssist(prev, 0x00), 2)
        else w[i - 1];
      w + [xor(w[i - 8], temp)]
  }

  /** The forty words of the AES-256 key expansion. */
  function Expansion(aes: AesPrimitives, seed0: Block, seed1: Block): (w: seq<u32>)
    ensures |w| == 40
  {
    ExpansionWith(aes, XorLane, seed0, seed1, 40)
  }

  /** A block is determined by its lanes. */
  lemma BlockFromLanes(x: Block)
    ensures FromLanes(Lane(x, 0), Lane(x, 1), Lane(x, 2), Lane(x, 3)) == x
  {
  }

  /** Ten round keys related pair by pair by the lane recurrence. */
  predicate ScheduleLanes(k: seq<Block>, assist: (Block, u8) -> Block, xor: (u32, u32) -> u32)
    requires |k| == 10
  {
    && RunningXor(k[2], k[0], Lane(assist(k[1], Rcon(1)), 3), xor)
    && RunningXor(k[3], k[1], Lane(assist(k[2], 0x00), 2), xor)
    && RunningXor(k[4], k[2], Lane(assist(k[3], Rcon(2)), 3), xor)
    && RunningXor(k[5], k[3], Lane(assist(k[4], 0x00), 2), xor)
    && RunningXor(k[6], k[4], Lane(assist(k[5], Rcon(3)), 3), xor)
    && RunningXor(k[7], k[5], Lane(assist(k[6], 0x00), 2), xor)
    && RunningXor(k[8], k[6], Lane(assist(k[7], Rcon(4)), 3), xor)
    && RunningXor(k[9], k[7], Lane(assist(k[8], 0x00), 2), xor)
  }

  /** Index arithmetic for word i, in round key m = i / 4 of pair q = i / 8. */
  lemma WordIndex(i: nat)
    requires 8 <= i < 40
    ensures var m, j, q := i / 4, i % 4, i / 8;
      && 1 <= q <= 4 && (m == 2 * q || m == 2 * q + 1)
      && (i - 8) / 4 == m - 2 && (i - 8) % 4 == j
      && (i % 8 == 0 <==> j == 0 && m == 2 * q)
      && (i % 8 == 4 <==> j == 0 && m == 2 * q + 1)
      && (j != 0 ==> (i - 1) / 4 == m && (i - 1) % 4 == j - 1)
      && (j == 0 ==>
            && (i - 4) / 4 == m - 1 && (i - 3) / 4 == m - 1 && (i - 2) / 4 == m - 1 && (i - 1) / 4 == m - 1
            && (i - 3) % 4 == 1 && (i - 2) % 4 == 2 && (i - 1) % 4 == 3)
  {
  }

  /** The recurrence of the round key that holds word i. */
  lemma KeyOfWord(k: seq<Block>, assist: (Block, u8) -> Block, xor: (u32, u32) -> u32, i: nat)
    requires |k| == 10 && ScheduleLanes(k, assist, xor) && 8 <= i < 40
    ensures var m, q := i / 4, i / 8;
      RunningXor(k[m], k[m - 2],
                 if m == 2 * q then Lane(assist(k[m - 1], Rcon(q)), 3) else Lane(assist(k[m - 1], 0x00), 2),
                 xor)
  {
    WordIndex(i);
  }

  /** Word i of the expansion is lane i mod 4 of round key i / 4 when the
    * words before it are. */
  lemma NextWord(k: seq<Block>, aes: AesPrimitives, xor: (u32, u32) -> u32, i: nat)
    requires |k| == 10 && ScheduleLanes(k, aes.keygenAssist, xor) && 8 <= i < 40
    requires forall i' :: 0 <= i' < i ==> Lane(k[i' / 4], i' % 4) == ExpansionWith(aes, xor, k[0], k[1], i)[i']
    ensures Lane(k[i / 4], i % 4) == ExpansionWith(aes, xor, k[0], k[1], i + 1)[i]
  {
    var w := ExpansionWith(aes, xor, k[0], k[1], i);
    var m, j, q := i / 4, i % 4, i / 8;
    WordIndex(i);
    KeyOfWord(k, aes.keygenAssist, xor, i);
    assert w[i - 8] == Lane(k[m - 2], j);
    if j == 0 {
      assert w[i - 4] == Lane(k[m - 1], 0) && w[i - 3] == Lane(k[m - 1], 1);
      assert w[i - 2] == Lane(k[m - 1], 2) && w[i - 1] == Lane(k[m - 1], 3);
      BlockFromLanes(k[m - 1]);
    } else {
      assert w[i - 1] == Lane(k[m], j - 1);
    }
  }

  /** The first n words of the expansion are the lanes of the round keys,
    * in order, for any ten keys that follow the recurrence. */
  lemma {:induction false} ScheduleWords(k: seq<Block>, aes: AesPrimitives, xor: (u32, u32) -> u32, n: nat)
    requires |k| == 10 && ScheduleLanes(k, aes.keygenAssist, xor) && 8 <= n <= 40
    ensures forall i :: 0 <= i < n ==> Lane(k[i / 4], i % 4) == ExpansionWith(aes, xor, k[0], k[1], n)[i]
    decreases n
  {
    if n > 8 {
      ScheduleWords(k, aes, xor, n - 1);
      NextWord(k, aes, xor, n - 1);
      var w := ExpansionWith(aes, xor, k[0], k[1], n - 1);
      assert ExpansionWith(aes, xor, k[0], k[1], n)[..n - 1] == w;
    }
  }

  /** Fewer steps of the key generation give a prefix of the schedule. */
  lemma {:induction false} KeyPairsPrefix(step: (u8, Block, Block) -> (Block, Block), seed0: Block, seed1: Block, m: nat, n: nat)
    requires m <= n <= 4
    ensures KeyPairs(step, seed0, seed1, n)[..2 * m + 2] == KeyPairs(step, seed0, seed1, m)
    decreases n
  {
    if m < n {
      KeyPairsPrefix(step, seed0, seed1, m, n - 1);
      var prev := KeyPairs(step, seed0, seed1, n - 1);
      assert KeyPairs(step, seed0, seed1, n)[..2 * n] == prev;
      assert prev[..2 * m + 2] == KeyPairs(step, seed0, seed1, m);
    }
  }

  /** Blocks 2q and 2q+1 of a schedule are the q-th step applied to blocks
    * 2q-2 and 2q-1; blocks 0 and 1 are the seeds. */
  lemma KeyPairsStep(step: (u8, Block, Block) -> (Block, Block), seed0: Block, seed1: Block, q: nat)
    requires 1 <= q <= 4
    ensures var k := KeyPairs(step, seed0, seed1, 4);
      && k[0] == seed0 && k[1] == seed1
      && k[2 * q] == step(Rcon(q), k[2 * q - 2], k[2 * q - 1]).0
      && k[2 * q + 1] == step(Rcon(q), k[2 * q - 2], k[2 * q - 1]).1
  {
    KeyPairsPrefix(step, seed0, seed1, q, 4);
    KeyPairsPrefix(step, seed0, seed1, q - 1, 4);
    KeyPairsPrefix(step, seed0, seed1, 0, 4);
    var k := KeyPairs(step, seed0, seed1, 4);
    var kq := KeyPairs(step, seed0, seed1, q);
    assert k[..2] == [seed0, seed1];
    assert k[2 * q] == kq[2 * q] && k[2 * q + 1] == kq[2 * q + 1];
    assert k[2 * q - 2] == kq[2 * q - 2] && k[2 * q - 1] == kq[2 * q - 1];
  }

  /** The round keys of `aes_genkey` follow the lane recurrence pair by pair. */
  lemma KeyScheduleLanes(aes: AesPrimitives, seed0: Block, seed1: Block)
    ensures ScheduleLanes(KeySchedule(aes, seed0, seed1), aes.keygenAssist, XorLane)
  {
    var k := KeySchedule(aes, seed0, seed1);
    KeyPairsStep(GenKeyStep(aes), seed0, seed1, 1);
    KeyPairsStep(GenKeyStep(aes), seed0, seed1, 2);
    KeyPairsStep(GenKeyStep(aes), seed0, seed1, 3);
    KeyPairsStep(GenKeyStep(aes), seed0, seed1, 4);
    GenKeySubRecurrence(aes, Rcon(1), k[0], k[1]);
    GenKeySubRecurrence(aes, Rcon(2), k[2], k[3]);
    GenKeySubRecurrence(aes, Rcon(3), k[4], k[5]);
    GenKeySubRecurrence(aes, Rcon(4), k[6], k[7]);
  }

  /** `aes_genkey` computes the AES-256 key expansion: its forty words are
    * the lanes of the ten round keys, in order. */
  lemma KeyScheduleIsKeyExpansion(aes: AesPrimitives, seed0: Block, seed1: Block)
    ensures forall i :: 0 <= i < 40 ==>
      Lane(KeySchedule(aes, seed0, seed1)[i / 4], i % 4) == Expansion(aes, seed0, seed1)[i]
  {
    var k := KeySchedule(aes, seed0, seed1);
    KeyScheduleLanes(aes, seed0, seed1);
    KeyPairsStep(GenKeyStep(aes), seed0, seed1, 1);
    ScheduleWords(k, aes, XorLane, 40);
  }
}
